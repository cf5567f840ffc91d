/**
 The redo log as it lies on disk (kernel/log.c): a header block, the logged
 copies behind it, and the home blocks everywhere else. Everything here is
 about disks and sequences of single-block writes, the unit the device makes
 atomic; a crash keeps a prefix of such a sequence.
 */
module RedoLog {

  const LOGSIZE: nat := 30
  const MAXOPBLOCKS: nat := 10
  // BSIZE / sizeof(int): the header block is read as an array of ints
  const WORDS: nat := 256

  type Block = b: seq<int> | |b| == WORDS witness seq(WORDS, _ => 0)
  type Disk = seq<Block>

  // log.start and log.size: the log occupies blocks start .. start+size-1
  datatype Layout = Layout(start: nat, size: nat)

  datatype Write = Write(bno: nat, data: Block)

  predicate InLog(l: Layout, b: int) {
    l.start <= b < l.start + l.size
  }

  // where the copy of the i-th logged block lies
  function Slot(l: Layout, i: int): int {
    l.start + 1 + i
  }

  predicate Fits(d: Disk, ws: seq<Write>) {
    forall w :: w in ws ==> w.bno < |d|
  }

  // The disk after the writes ws reached it in order.
  function Perform(d: Disk, ws: seq<Write>): (r: Disk)
    requires Fits(d, ws)
    ensures |r| == |d|
  {
    if ws == [] then d
    else
      var last := ws[|ws| - 1];
      assert last in ws;
      Perform(d, ws[..|ws| - 1])[last.bno := last.data]
  }

  lemma PerformStep(d: Disk, ws: seq<Write>, k: nat)
    requires Fits(d, ws) && k < |ws|
    ensures Fits(d, ws[..k]) && Fits(d, ws[..k + 1])
    ensures Perform(d, ws[..k + 1]) == Perform(d, ws[..k])[ws[k].bno := ws[k].data]
  {
    assert ws[k] in ws;
    assert ws[..k + 1][..k] == ws[..k];
  }

  // ---------------------------------------------------------------- header

  // hb->n = n; hb->block[0..n] = lh; the rest of the block keeps what it had
  function PutHead(b: Block, lh: seq<int>): (r: Block)
    requires |lh| < WORDS
    ensures r[0] == |lh| && r[1..|lh| + 1] == lh
  {
    var r := [|lh|] + lh + b[|lh| + 1..];
    assert r[1..|lh| + 1] == lh;
    r
  }

  // A block list that a transaction may carry: distinct home blocks of the disk.
  ghost predicate ValidList(l: Layout, n: nat, lh: seq<int>) {
    && |lh| <= LOGSIZE
    && |lh| <= l.size - 1
    && (forall i :: 0 <= i < |lh| ==> 0 <= lh[i] < n && !InLog(l, lh[i]))
    && (forall i, j :: 0 <= i < j < |lh| ==> lh[i] != lh[j])
  }

  ghost predicate SoundHead(l: Layout, n: nat, h: Block) {
    && 0 <= h[0] <= LOGSIZE
    && ValidList(l, n, h[1..h[0] + 1])
  }

  // The log area lies on the disk and the header names a well formed list.
  ghost predicate Sound(l: Layout, d: Disk) {
    && 1 <= l.size
    && l.start + l.size <= |d|
    && SoundHead(l, |d|, d[l.start])
  }

  ghost function Head(l: Layout, d: Disk): (lh: seq<int>)
    requires Sound(l, d)
    ensures ValidList(l, |d|, lh) && |lh| == d[l.start][0]
  {
    d[l.start][1..d[l.start][0] + 1]
  }

  // ---------------------------------------------------------------- what a crash leaves

  // Reference meaning of a disk: the block a reader will find at home block b
  // once the machine is up again. A committed but uninstalled copy wins over
  // the home block.
  ghost function Durable(l: Layout, d: Disk, b: nat): Block
    requires Sound(l, d) && b < |d|
  {
    var lh := Head(l, d);
    if b in lh then
      var i :| 0 <= i < |lh| && lh[i] == b;
      d[l.start + 1 + i]
    else d[b]
  }

  ghost predicate SameDurable(l: Layout, c: Disk, d: Disk)
    requires Sound(l, c) && Sound(l, d) && |c| == |d|
  {
    forall b :: 0 <= b < |d| && !InLog(l, b) ==> Durable(l, c, b) == Durable(l, d, b)
  }

  lemma SameHead(l: Layout, c: Disk, d: Disk)
    requires Sound(l, d) && |c| == |d| && c[l.start] == d[l.start]
    ensures Sound(l, c) && Head(l, c) == Head(l, d)
  {
  }

  lemma HeadOf(l: Layout, c: Disk, lh: seq<int>, h0: Block)
    requires 1 <= l.size && l.start + l.size <= |c| && ValidList(l, |c|, lh)
    requires |lh| < WORDS && c[l.start] == PutHead(h0, lh)
    ensures Sound(l, c) && Head(l, c) == lh
  {
  }

  lemma DurableListed(l: Layout, d: Disk, i: nat)
    requires Sound(l, d) && i < |Head(l, d)|
    ensures Durable(l, d, Head(l, d)[i]) == d[Slot(l, i)]
  {
    var lh := Head(l, d);
    assert lh[i] in lh;
    var j :| 0 <= j < |lh| && lh[j] == lh[i] && Durable(l, d, lh[i]) == d[l.start + 1 + j];
    assert j == i;
  }

  // A disk whose header lists lh with the contents of t behind it, and whose
  // other home blocks agree with t, durably holds t.
  lemma DurableIs(l: Layout, c: Disk, t: Disk)
    requires Sound(l, c) && |t| == |c|
    requires forall i :: 0 <= i < |Head(l, c)| ==> c[Slot(l, i)] == t[Head(l, c)[i]]
    requires forall b :: 0 <= b < |c| && !InLog(l, b) && b !in Head(l, c) ==> c[b] == t[b]
    ensures forall b :: 0 <= b < |c| && !InLog(l, b) ==> Durable(l, c, b) == t[b]
  {
    var lh := Head(l, c);
    forall b | 0 <= b < |c| && !InLog(l, b) ensures Durable(l, c, b) == t[b] {
      if b in lh {
        var i :| 0 <= i < |lh| && lh[i] == b;
        DurableListed(l, c, i);
      }
    }
  }

  // ---------------------------------------------------------------- recover_from_log

  // install_trans(1), then write_head with n == 0
  ghost function RecoverWrites(l: Layout, d: Disk): (ws: seq<Write>)
    requires Sound(l, d)
    ensures |ws| == |Head(l, d)| + 1
    ensures Fits(d, ws)
  {
    var lh := Head(l, d);
    seq(|lh| + 1, i requires 0 <= i <= |lh| =>
      if i < |lh| then Write(lh[i], d[Slot(l, i)]) else Write(l.start, PutHead(d[l.start], [])))
  }

  ghost function AfterRecover(l: Layout, d: Disk, k: nat): (c: Disk)
    requires Sound(l, d) && k <= |RecoverWrites(l, d)|
    ensures Fits(d, RecoverWrites(l, d)[..k]) && |c| == |d|
  {
    assert forall w :: w in RecoverWrites(l, d)[..k] ==> w in RecoverWrites(l, d);
    Perform(d, RecoverWrites(l, d)[..k])
  }

  ghost predicate RecoverStage(l: Layout, d: Disk, k: nat, c: Disk)
    requires Sound(l, d)
  {
    var lh := Head(l, d);
    && |c| == |d|
    && c[l.start] == (if k <= |lh| then d[l.start] else PutHead(d[l.start], []))
    && (forall b :: 0 <= b < |d| && b != l.start && b !in lh ==> c[b] == d[b])
    && (forall i :: 0 <= i < k && i < |lh| ==> c[lh[i]] == d[Slot(l, i)])
  }

  lemma RecoverStep(l: Layout, d: Disk, k: nat, c: Disk)
    requires Sound(l, d) && k < |RecoverWrites(l, d)|
    requires RecoverStage(l, d, k, c)
    ensures var w := RecoverWrites(l, d)[k]; RecoverStage(l, d, k + 1, c[w.bno := w.data])
  {
    hide PutHead, SoundHead;
    var w := RecoverWrites(l, d)[k];
    if k < |Head(l, d)| {
      assert w.bno == Head(l, d)[k];
    } else {
      assert InLog(l, l.start);
    }
  }

  lemma {:induction false} RecoverProgress(l: Layout, d: Disk, k: nat)
    requires Sound(l, d) && k <= |RecoverWrites(l, d)|
    ensures RecoverStage(l, d, k, AfterRecover(l, d, k))
  {
    if k > 0 {
      hide RecoverStage;
      RecoverProgress(l, d, k - 1);
      PerformStep(d, RecoverWrites(l, d), k - 1);
      RecoverStep(l, d, k - 1, AfterRecover(l, d, k - 1));
    } else {
      assert RecoverWrites(l, d)[..0] == [];
    }
  }

  // A crash after any k writes of a recovery changes nothing durable, and the
  // disk is again one that recovery accepts.
  lemma CrashInRecovery(l: Layout, d: Disk, k: nat)
    requires Sound(l, d) && k <= |RecoverWrites(l, d)|
    ensures Sound(l, AfterRecover(l, d, k))
    ensures SameDurable(l, AfterRecover(l, d, k), d)
  {
    var c, lh := AfterRecover(l, d, k), Head(l, d);
    RecoverProgress(l, d, k);
    if k == |lh| + 1 {
      RecoveryDone(l, d);
    } else {
      SameHead(l, c, d);
      var t := seq(|d|, b requires 0 <= b < |d| => Durable(l, d, b));
      forall i | 0 <= i < |lh| ensures c[Slot(l, i)] == t[lh[i]] {
        DurableListed(l, d, i);
        assert InLog(l, Slot(l, i));
      }
      DurableIs(l, c, t);
    }
  }

  // The finished recovery: home blocks hold the durable contents, log empty.
  lemma RecoveryDone(l: Layout, d: Disk)
    requires Sound(l, d)
    ensures var c := AfterRecover(l, d, |RecoverWrites(l, d)|);
            && Sound(l, c) && Head(l, c) == []
            && (forall b :: 0 <= b < |d| && !InLog(l, b) ==> c[b] == Durable(l, d, b))
            && SameDurable(l, c, d)
  {
    var lh := Head(l, d);
    var c := AfterRecover(l, d, |lh| + 1);
    RecoverProgress(l, d, |lh| + 1);
    HeadOf(l, c, [], d[l.start]);
    forall b | 0 <= b < |d| && !InLog(l, b) ensures c[b] == Durable(l, d, b) {
      if b in lh {
        var i :| 0 <= i < |lh| && lh[i] == b;
        DurableListed(l, d, i);
      }
    }
  }

  // Any number of machine lives, each cut short after some prefix of its
  // recovery: life j performs the first ks[j] writes. Nothing is said about a
  // disk whose log is not sound.
  ghost predicate CrashedRecoveries(l: Layout, d: Disk, ks: seq<nat>, c: Disk)
    decreases |ks|
  {
    if ks == [] then c == d
    else Sound(l, d) ==>
      && ks[0] <= |RecoverWrites(l, d)|
      && CrashedRecoveries(l, AfterRecover(l, d, ks[0]), ks[1..], c)
  }

  // However often recovery itself is cut short, the recovery that finishes
  // puts exactly the durable contents of the first disk in the home blocks.
  lemma {:induction false} RecoveryConverges(l: Layout, d: Disk, ks: seq<nat>, c: Disk)
    requires Sound(l, d) && CrashedRecoveries(l, d, ks, c)
    ensures |c| == |d| && Sound(l, c)
    ensures forall b :: 0 <= b < |d| && !InLog(l, b) ==>
      AfterRecover(l, c, |RecoverWrites(l, c)|)[b] == Durable(l, d, b)
    decreases |ks|
  {
    if ks == [] {
      RecoveryDone(l, c);
    } else {
      CrashInRecovery(l, d, ks[0]);
      RecoveryConverges(l, AfterRecover(l, d, ks[0]), ks[1..], c);
    }
  }

  // ---------------------------------------------------------------- commit

  // A transaction about to be committed: the log on disk is empty, and outside
  // lh the in-memory contents are what the home blocks hold.
  ghost predicate Committable(l: Layout, d: Disk, view: Disk, lh: seq<int>) {
    && Sound(l, d) && Head(l, d) == []
    && |view| == |d|
    && ValidList(l, |d|, lh)
    && (forall b :: 0 <= b < |d| && !InLog(l, b) && b !in lh ==> view[b] == d[b])
  }

  // commit() with lh.n > 0: write_log, write_head, install_trans(0), write_head
  ghost function CommitWrites(l: Layout, d: Disk, view: Disk, lh: seq<int>): (ws: seq<Write>)
    requires Committable(l, d, view, lh)
    ensures |ws| == 2 * |lh| + 2
    ensures Fits(d, ws)
  {
    var n := |lh|;
    seq(2 * n + 2, i requires 0 <= i < 2 * n + 2 =>
      if i < n then Write(Slot(l, i), view[lh[i]])
      else if i == n then Write(l.start, PutHead(d[l.start], lh))
      else if i <= 2 * n then Write(lh[i - n - 1], view[lh[i - n - 1]])
      else Write(l.start, PutHead(PutHead(d[l.start], lh), [])))
  }

  // The disk after the first k commit writes.
  ghost function AfterCommit(l: Layout, d: Disk, view: Disk, lh: seq<int>, k: nat): (c: Disk)
    requires Committable(l, d, view, lh) && k <= 2 * |lh| + 2
    ensures Fits(d, CommitWrites(l, d, view, lh)[..k]) && |c| == |d|
  {
    assert forall w :: w in CommitWrites(l, d, view, lh)[..k] ==> w in CommitWrites(l, d, view, lh);
    Perform(d, CommitWrites(l, d, view, lh)[..k])
  }

  // What holds of the disk c after k of the commit writes: the header, the
  // copies behind it, the home blocks.
  ghost predicate HeadStage(l: Layout, d: Disk, view: Disk, lh: seq<int>, k: nat, c: Disk)
    requires Committable(l, d, view, lh) && |c| == |d|
  {
    c[l.start] == if k <= |lh| then d[l.start]
                  else if k <= 2 * |lh| + 1 then PutHead(d[l.start], lh)
                  else PutHead(PutHead(d[l.start], lh), [])
  }

  ghost predicate CopyStage(l: Layout, d: Disk, view: Disk, lh: seq<int>, k: nat, c: Disk)
    requires Committable(l, d, view, lh) && |c| == |d|
  {
    forall i :: 0 <= i < k && i < |lh| ==> c[Slot(l, i)] == view[lh[i]]
  }

  ghost predicate HomeStage(l: Layout, d: Disk, view: Disk, lh: seq<int>, k: nat, c: Disk)
    requires Committable(l, d, view, lh) && |c| == |d|
  {
    && (forall b :: 0 <= b < |d| && !InLog(l, b) && (b !in lh || k <= |lh|) ==> c[b] == d[b])
    && (forall i :: 0 <= i < |lh| && i < k - |lh| - 1 ==> c[lh[i]] == view[lh[i]])
  }

  ghost predicate Stage(l: Layout, d: Disk, view: Disk, lh: seq<int>, k: nat, c: Disk)
    requires Committable(l, d, view, lh)
  {
    && |c| == |d|
    && HeadStage(l, d, view, lh, k, c)
    && CopyStage(l, d, view, lh, k, c)
    && HomeStage(l, d, view, lh, k, c)
  }

  lemma HeadStep(l: Layout, d: Disk, view: Disk, lh: seq<int>, k: nat, c: Disk)
    requires Committable(l, d, view, lh) && k < 2 * |lh| + 2
    requires |c| == |d| && HeadStage(l, d, view, lh, k, c)
    ensures var w := CommitWrites(l, d, view, lh)[k];
            w.bno < |d| && HeadStage(l, d, view, lh, k + 1, c[w.bno := w.data])
  {
    hide PutHead, Head, SoundHead;
    assert InLog(l, l.start);
  }

  lemma CopyStep(l: Layout, d: Disk, view: Disk, lh: seq<int>, k: nat, c: Disk)
    requires Committable(l, d, view, lh) && k < 2 * |lh| + 2
    requires |c| == |d| && CopyStage(l, d, view, lh, k, c)
    ensures var w := CommitWrites(l, d, view, lh)[k];
            w.bno < |d| && CopyStage(l, d, view, lh, k + 1, c[w.bno := w.data])
  {
    hide PutHead, Head, SoundHead;
    assert forall i :: 0 <= i < |lh| ==> InLog(l, Slot(l, i));
  }

  lemma HomeStep(l: Layout, d: Disk, view: Disk, lh: seq<int>, k: nat, c: Disk)
    requires Committable(l, d, view, lh) && k < 2 * |lh| + 2
    requires |c| == |d| && HomeStage(l, d, view, lh, k, c)
    ensures var w := CommitWrites(l, d, view, lh)[k];
            w.bno < |d| && HomeStage(l, d, view, lh, k + 1, c[w.bno := w.data])
  {
    hide PutHead, Head, SoundHead;
    var w := CommitWrites(l, d, view, lh)[k];
    if k <= |lh| || k > 2 * |lh| {
      assert InLog(l, w.bno);
    } else {
      assert w.bno == lh[k - |lh| - 1];
    }
  }

  lemma {:induction false} CommitStage(l: Layout, d: Disk, view: Disk, lh: seq<int>, k: nat)
    requires Committable(l, d, view, lh) && k <= 2 * |lh| + 2
    ensures Stage(l, d, view, lh, k, AfterCommit(l, d, view, lh, k))
  {
    if k > 0 {
      hide HeadStage, CopyStage, HomeStage;
      CommitStage(l, d, view, lh, k - 1);
      PerformStep(d, CommitWrites(l, d, view, lh), k - 1);
      var c := AfterCommit(l, d, view, lh, k - 1);
      HeadStep(l, d, view, lh, k - 1, c);
      CopyStep(l, d, view, lh, k - 1, c);
      HomeStep(l, d, view, lh, k - 1, c);
    }
  }

  // write_head is the commit point: a crash before it leaves every home block
  // as it was before the transaction, a crash at any later write leaves every
  // home block as the transaction made it. Recovery accepts either disk.
  lemma CommitPoint(l: Layout, d: Disk, view: Disk, lh: seq<int>, k: nat)
    requires Committable(l, d, view, lh) && k <= 2 * |lh| + 2
    ensures var c := AfterCommit(l, d, view, lh, k);
            && Sound(l, c)
            && (k <= |lh| ==> forall b :: 0 <= b < |d| && !InLog(l, b) ==> Durable(l, c, b) == d[b])
            && (k > |lh| ==> forall b :: 0 <= b < |d| && !InLog(l, b) ==> Durable(l, c, b) == view[b])
  {
    var c, n := AfterCommit(l, d, view, lh, k), |lh|;
    CommitStage(l, d, view, lh, k);
    if k <= n {
      SameHead(l, c, d);
    } else if k <= 2 * n + 1 {
      HeadOf(l, c, lh, d[l.start]);
      DurableIs(l, c, view);
    } else {
      CommitDone(l, d, view, lh);
    }
  }

  // The finished commit: home blocks hold the new contents, log empty again.
  lemma CommitDone(l: Layout, d: Disk, view: Disk, lh: seq<int>)
    requires Committable(l, d, view, lh)
    ensures var c := AfterCommit(l, d, view, lh, 2 * |lh| + 2);
            && Sound(l, c) && Head(l, c) == []
            && (forall b :: 0 <= b < |d| && !InLog(l, b) ==> c[b] == view[b])
  {
    var c, n := AfterCommit(l, d, view, lh, 2 * |lh| + 2), |lh|;
    CommitStage(l, d, view, lh, 2 * n + 2);
    HeadOf(l, c, [], PutHead(d[l.start], lh));
    forall b | 0 <= b < |d| && !InLog(l, b) ensures c[b] == view[b] {
      if b in lh {
        var i :| 0 <= i < |lh| && lh[i] == b;
      }
    }
  }

  // Crash atomicity: for every transaction, every crash point in its commit
  // and any number of crashes in the recoveries that follow, the recovery that
  // completes leaves all old or all new contents, and all new exactly when the
  // header had reached the disk.
  lemma CrashAtomicity(l: Layout, d: Disk, view: Disk, lh: seq<int>, k: nat, ks: seq<nat>, c: Disk)
    requires Committable(l, d, view, lh) && k <= 2 * |lh| + 2
    requires CrashedRecoveries(l, AfterCommit(l, d, view, lh, k), ks, c)
    ensures |c| == |d| && Sound(l, c)
    ensures forall b :: 0 <= b < |d| && !InLog(l, b) ==>
      AfterRecover(l, c, |RecoverWrites(l, c)|)[b] == (if k <= |lh| then d[b] else view[b])
  {
    CommitPoint(l, d, view, lh, k);
    RecoveryConverges(l, AfterCommit(l, d, view, lh, k), ks, c);
  }
}
