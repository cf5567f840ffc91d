/**
 Any sequence of writei, readi and itrunc calls (kernel/fs.c) on files without
 holes behaves as on a map from inode numbers to byte strings. No hole ever
 appears, so readi never allocates a block.
 */
module FileRun {
  import opened Bitmap
  import opened FileSystem

  datatype Disk = Disk(blocks: Blocks, inodes: Inodes, owner: Owners)

  datatype Call =
    | Write(n: nat, off: nat, src: seq<nat>)
    | Read(n: nat, off: nat, cnt: nat)
    | Truncate(n: nat)

  datatype Answer = Count(ret: int) | Data(dst: seq<nat>) | Nothing

  // The arguments are of the C types: uint offsets and counts, and bytes.
  predicate Typed(c: Call) {
    match c
    case Write(_, off, src) => off < UINT && |src| < UINT && forall k :: 0 <= k < |src| ==> src[k] < 256
    case Read(_, off, cnt) => off < UINT && cnt < UINT
    case Truncate(_) => true
  }

  ghost predicate NoHoles(d: Disk) {
    forall n :: n in d.inodes ==> HoleFree(d.blocks, d.inodes, n) && d.inodes[n].size <= MAXFILE * BSIZE
  }

  function Files(d: Disk): (f: map<nat, seq<nat>>)
    ensures f.Keys == d.inodes.Keys
  {
    map n | n in d.inodes :: Content(d.blocks, d.inodes, n)
  }

  // What a read of cnt bytes at off sees of a file with contents c.
  function Range(c: seq<nat>, off: nat, cnt: nat): seq<nat> {
    var k := Clipped(|c|, off, cnt);
    if k == 0 then [] else c[off..off + k]
  }

  // The call on the files; only a full disk cuts a write short.
  ghost predicate Served(g: Layout, d: Disk, c: Call, a: Answer, d': Disk)
    requires c.n in d.inodes
  {
    var f := Files(d);
    match c
    case Write(n, off, src) =>
      && a.Count?
      && (a.ret == -1 <==> off > |f[n]| || off + |src| > MAXFILE * BSIZE)
      && (a.ret == -1 ==> d' == d)
      && (a.ret != -1 ==> 0 <= a.ret <= |src| && Files(d') == f[n := Overlay(f[n], off, src[..a.ret])])
      && (0 <= a.ret < |src| ==> Full(g, d'.blocks))
    case Read(n, off, cnt) => a == Data(Range(f[n], off, cnt)) && d' == d
    case Truncate(n) => a == Nothing && Files(d') == f[n := []]
  }

  // A sequence of calls, their answers and the states between them.
  ghost predicate Session(g: Layout, ds: seq<Disk>, calls: seq<Call>, answers: seq<Answer>) {
    && |ds| == |calls| + 1 && |answers| == |calls|
    && (forall k :: 0 <= k < |ds| ==> FsOk(g, ds[k].blocks, ds[k].inodes, ds[k].owner) && NoHoles(ds[k]))
    && (forall k :: 0 <= k < |calls| ==>
          calls[k].n in ds[k].inodes && Served(g, ds[k], calls[k], answers[k], ds[k + 1]))
  }

  ghost function State(fs: Fs): Disk
    reads fs
  {
    Disk(fs.blocks, fs.inodes, fs.owner)
  }

  lemma FilesChange(d: Disk, d': Disk, n: nat, c: seq<nat>)
    requires d'.inodes.Keys == d.inodes.Keys && n in d.inodes && Content(d'.blocks, d'.inodes, n) == c
    requires forall m :: m in d'.inodes && m != n ==>
      Content(d'.blocks, d'.inodes, m) == Content(d.blocks, d.inodes, m)
    ensures Files(d') == Files(d)[n := c]
  {
    hide Content;
  }

  // No file of d' is longer than in d, but for file n.
  lemma StillNoHoles(d: Disk, d': Disk, n: nat)
    requires NoHoles(d) && d'.inodes.Keys == d.inodes.Keys && n in d'.inodes
    requires d'.inodes[n].size <= MAXFILE * BSIZE
    requires forall m :: m in d'.inodes && m != n ==>
      Content(d'.blocks, d'.inodes, m) == Content(d.blocks, d.inodes, m)
    requires forall m :: m in d'.inodes && HoleFree(d.blocks, d.inodes, m) ==> HoleFree(d'.blocks, d'.inodes, m)
    ensures NoHoles(d')
  {
    hide HoleFree;
    forall m | m in d'.inodes && m != n ensures d'.inodes[m].size == d.inodes[m].size {
      assert |Content(d'.blocks, d'.inodes, m)| == |Content(d.blocks, d.inodes, m)|;
    }
  }

  method Serve(fs: Fs, c: Call) returns (a: Answer)
    requires fs.Ok() && NoHoles(State(fs)) && c.n in fs.inodes && Typed(c)
    modifies fs
    ensures fs.Ok() && NoHoles(State(fs)) && fs.inodes.Keys == old(fs.inodes).Keys
    ensures Served(fs.g, old(State(fs)), c, a, State(fs))
  {
    hide HoleFree, FsOk, Full, Content, Overlay;
    ghost var d := State(fs);
    match c
    case Write(n, off, src) =>
      var ret := fs.WriteI(n, src, off);
      a := Count(ret);
      if ret != -1 {
        OverlayLength(Files(d)[n], off, src[..ret]);
        FilesChange(d, State(fs), n, Overlay(Files(d)[n], off, src[..ret]));
        StillNoHoles(d, State(fs), n);
      }
    case Read(n, off, cnt) =>
      var dst := fs.ReadI(n, off, cnt);
      a := Data(dst);
    case Truncate(n) =>
      fs.ITrunc(n);
      a := Nothing;
      FilesChange(d, State(fs), n, []);
      StillNoHoles(d, State(fs), n);
  }

  lemma OverlayLength(c: seq<nat>, off: nat, d: seq<nat>)
    requires off <= |c|
    ensures |Overlay(c, off, d)| == if off + |d| > |c| then off + |d| else |c|
  {
  }

  method ServeAll(fs: Fs, calls: seq<Call>) returns (answers: seq<Answer>, ghost ds: seq<Disk>)
    requires fs.Ok() && NoHoles(State(fs))
    requires forall k :: 0 <= k < |calls| ==> calls[k].n in fs.inodes && Typed(calls[k])
    modifies fs
    ensures fs.Ok() && Session(fs.g, ds, calls, answers) && ds[0] == old(State(fs)) && ds[|calls|] == State(fs)
  {
    hide NoHoles, FsOk, Served, Typed;
    answers, ds := [], [State(fs)];
    for k := 0 to |calls|
      invariant fs.Ok() && NoHoles(State(fs)) && fs.inodes.Keys == old(fs.inodes).Keys
      invariant Session(fs.g, ds, calls[..k], answers) && ds[0] == old(State(fs)) && ds[k] == State(fs)
    {
      var a := Serve(fs, calls[k]);
      SessionMore(fs.g, ds, calls[..k], answers, calls[k], a, State(fs));
      assert calls[..k + 1] == calls[..k] + [calls[k]];
      answers, ds := answers + [a], ds + [State(fs)];
    }
    assert calls[..|calls|] == calls;
  }

  lemma SessionMore(g: Layout, ds: seq<Disk>, calls: seq<Call>, answers: seq<Answer>, c: Call, a: Answer, d: Disk)
    requires Session(g, ds, calls, answers) && c.n in ds[|calls|].inodes && Served(g, ds[|calls|], c, a, d)
    requires FsOk(g, d.blocks, d.inodes, d.owner) && NoHoles(d)
    ensures Session(g, ds + [d], calls + [c], answers + [a])
  {
    hide NoHoles, FsOk, Served;
    var ds', calls', answers' := ds + [d], calls + [c], answers + [a];
    forall k | 0 <= k < |calls'|
      ensures calls'[k].n in ds'[k].inodes && Served(g, ds'[k], calls'[k], answers'[k], ds'[k + 1])
    {
      if k < |calls| {
        assert ds'[k] == ds[k] && ds'[k + 1] == ds[k + 1];
      }
    }
  }

  // A call on another file, or a read, leaves file n as it is.
  lemma {:induction false} Untouched(g: Layout, ds: seq<Disk>, calls: seq<Call>, answers: seq<Answer>, n: nat, i: nat,
                                     j: nat)
    requires Session(g, ds, calls, answers) && i <= j <= |calls| && n in ds[i].inodes
    requires forall k :: i <= k < j ==> calls[k].Read? || calls[k].n != n
    ensures n in ds[j].inodes && Files(ds[j])[n] == Files(ds[i])[n]
  {
    hide NoHoles, FsOk, Files, Overlay, Full;
    if i < j {
      Untouched(g, ds, calls, answers, n, i, j - 1);
      assert Served(g, ds[j - 1], calls[j - 1], answers[j - 1], ds[j]);
    }
  }

  lemma OverlayRead(c: seq<nat>, off: nat, d: seq<nat>, cnt: nat)
    requires off <= |c| && cnt <= |d| && off + cnt < UINT
    ensures Range(Overlay(c, off, d), off, cnt) == d[..cnt]
  {
    var e := Overlay(c, off, d);
    assert off + cnt <= |e|;
    if cnt > 0 {
      assert e[off..off + cnt] == d[..cnt];
    }
  }

  // What a read returns: every byte of the file from off on, up to cnt of them;
  // nothing when off + cnt does not fit 32 bits.
  lemma RangeIs(c: seq<nat>, off: nat, cnt: nat, k: nat)
    ensures k < |Range(c, off, cnt)| <==> k < cnt && off + k < |c| && off + cnt < UINT
    ensures k < |Range(c, off, cnt)| ==> Range(c, off, cnt)[k] == c[off + k]
  {
  }

  // What writei wrote is what readi returns, whatever happens to other files in
  // between.
  lemma ReadBack(g: Layout, ds: seq<Disk>, calls: seq<Call>, answers: seq<Answer>, i: nat, j: nat, cnt: nat)
    requires Session(g, ds, calls, answers) && i < j < |calls|
    requires calls[i].Write? && answers[i].Count? && cnt <= answers[i].ret
    requires calls[j] == Read(calls[i].n, calls[i].off, cnt)
    requires forall k :: i < k < j ==> calls[k].Read? || calls[k].n != calls[i].n
    ensures cnt <= |calls[i].src| && answers[j] == Data(calls[i].src[..cnt])
  {
    hide NoHoles, FsOk, Files, Full;
    assert Served(g, ds[i], calls[i], answers[i], ds[i + 1]) && Served(g, ds[j], calls[j], answers[j], ds[j + 1]);
    var n, off, src := calls[i].n, calls[i].off, calls[i].src;
    Untouched(g, ds, calls, answers, n, i + 1, j);
    assert Files(ds[j])[n] == Overlay(Files(ds[i])[n], off, src[..answers[i].ret]);
    OverlayRead(Files(ds[i])[n], off, src[..answers[i].ret], cnt);
  }
}
