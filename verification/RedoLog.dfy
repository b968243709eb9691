/**
 The redo log of log.c over the buffer cache: log_write(), commit() and
 recover_from_log(), each proved against the disk functions of LogFormat.

 bc.trace records the disk after every bwrite, so a statement about every
 element of the trace is a statement about a crash after every write.
 */
module RedoLog {
  import opened Common
  import opened LogFormat
  import opened BufferCache

  /** Overwriting block b in its buffer and on the disk cleans it. */
  lemma WriteIsCoherent(was: seq<Buf>, now: seq<Buf>, n: nat, disk: Disk, dev: nat,
                        dirty: map<nat, Block>, k: nat, x: Block)
    requires |was| == |now| == n + 1 && k < n && OnePerBlock(was, n)
    requires Coherent(was, n, disk, dev, dirty)
    requires was[k].dev == dev && was[k].valid && was[k].blockno < |disk|
    requires now == was[k := was[k].(data := x)]
    ensures Coherent(now, n, disk[was[k].blockno := x], dev, dirty - {was[k].blockno})
  {
    forall c | c in dirty - {was[k].blockno} ensures Holds(now, n, dev, c) {
      assert Holds(was, n, dev, c);
      var j :| 0 <= j < n && was[j].Caches(dev, c) && was[j].valid && was[j].refcnt > 0;
      assert now[j].Caches(dev, c) && now[j].valid && now[j].refcnt > 0;
    }
  }

  ghost predicate RefsNotGrown(was: seq<Buf>, now: seq<Buf>, n: nat)
    requires |was| == |now| == n + 1
  {
    forall j :: 0 <= j < n ==> now[j].refcnt <= was[j].refcnt
  }

  /** One round of write_head()'s loop. */
  lemma StampNext(data: Block, n: nat, h: seq<int>, hb: Block, i: nat)
    requires i < |h| < |data| && hb == [n] + h[..i] + data[1 + i..]
    ensures hb[1 + i := h[i]] == [n] + h[..i + 1] + data[1 + (i + 1)..]
  {
    assert data[1 + i..][1..] == data[1 + (i + 1)..];
  }

  lemma FreeKept(was: seq<Buf>, now: seq<Buf>, n: nat)
    requires |was| == |now| == n + 1 && RefsNotGrown(was, now, n)
    ensures (Free(was, n) ==> Free(now, n)) && (TwoFree(was, n) ==> TwoFree(now, n))
    ensures TwoFree(was, n) ==> Free(was, n)
  {
    if TwoFree(was, n) {
      var j, k :| 0 <= j < k < n && k < |was| && was[j].refcnt == 0 && was[k].refcnt == 0;
      assert now[j].refcnt == 0 && now[k].refcnt == 0;
    }
    if Free(was, n) {
      var k :| 0 <= k < n && k < |was| && was[k].refcnt == 0;
      assert now[k].refcnt == 0;
    }
  }

  /** Reading a block leaves one of two free buffers. */
  lemma FreeLeft(was: seq<Buf>, now: seq<Buf>, n: nat, k: nat)
    requires |was| == |now| == n + 1 && k < n
    requires forall j :: 0 <= j <= n && j != k ==> now[j] == was[j]
    ensures TwoFree(was, n) ==> Free(was, n) && Free(now, n)
  {
    if TwoFree(was, n) {
      var i, j :| 0 <= i < j < n && j < |was| && was[i].refcnt == 0 && was[j].refcnt == 0;
      assert now[if i == k then j else i].refcnt == 0;
    }
  }

  /** Two buffers were read, one overwritten, and both released again, the second perhaps unpinned. */
  lemma TwoReadsNotGrown(b0: seq<Buf>, b1: seq<Buf>, b2: seq<Buf>, b3: seq<Buf>, n: nat,
                         d1: Block, d2: Block, dev: nat, x: nat, y: nat, j: nat, k: nat)
    requires |b0| == |b1| == |b2| == |b3| == n + 1 && j < n && k < n && j != k
    requires Got(b0, b1, n, d1, dev, x, j) && Got(b1, b2, n, d2, dev, y, k)
    requires forall i :: 0 <= i < n && i != j && i != k ==> b3[i].refcnt == b2[i].refcnt
    requires b3[j].refcnt < b2[j].refcnt && b3[k].refcnt < b2[k].refcnt
    ensures RefsNotGrown(b0, b3, n)
  {
  }

  /** Logging a changed, referenced buffer makes its new data the pending data. */
  lemma LoggedIsCoherent(was: seq<Buf>, now: seq<Buf>, n: nat, disk: Disk, dev: nat,
                         dirty: map<nat, Block>, k: nat, data: Block)
    requires |was| == |now| == n + 1 && k < n && OnePerBlock(was, n)
    requires was[k].valid && was[k].dev == dev && was[k].refcnt > 0 && was[k].blockno < |disk|
    requires Coherent(was[k := was[k].(data := data)], n, disk, dev, dirty)
    requires now[k] == was[k].(refcnt := now[k].refcnt) && now[k].refcnt > 0
    requires forall j :: 0 <= j < n && j != k ==> now[j] == was[j]
    ensures Coherent(now, n, disk, dev, dirty[was[k].blockno := was[k].data])
  {
    var before := was[k := was[k].(data := data)];
    var after := dirty[was[k].blockno := was[k].data];
    forall j | 0 <= j < n && now[j].valid && now[j].dev == dev
      ensures now[j].blockno < |disk| && now[j].data == Logical(after, disk, now[j].blockno)
    {
      if j != k {
        assert before[j] == was[j] == now[j];
        assert was[j].blockno != was[k].blockno;
      }
    }
    forall c | c in after ensures c < |disk| && Holds(now, n, dev, c) {
      if c == was[k].blockno {
        assert now[k].Caches(dev, c) && now[k].valid && now[k].refcnt > 0;
      } else {
        assert Holds(before, n, dev, c);
        var j :| 0 <= j < n && before[j].Caches(dev, c) && before[j].valid && before[j].refcnt > 0;
        assert now[j].Caches(dev, c) && now[j].valid && now[j].refcnt > 0;
      }
    }
  }

  /** Appending a new home block to the header, or absorbing one already there. */
  lemma LoggedHeader(g: Geometry, d: Disk, h: seq<nat>, b: nat)
    requires GoodHeader(g, d, h) && IsHome(g, d, b)
    ensures Keys(h + [b]) == Keys(h) + {b}
    ensures b in h ==> Keys(h) == Keys(h) + {b}
    ensures b !in h && |h| < g.logSize && |h| + 1 < g.size ==> GoodHeader(g, d, h + [b])
  {
    var e := h + [b];
    forall x | x in Keys(h) + {b} ensures x in Keys(e) {
      if x == b { assert e[|h|] == b; } else {
        var i :| 0 <= i < |h| && h[i] == x;
        assert e[i] == x;
      }
    }
  }

  function Keys(h: seq<nat>): (s: set<nat>) {
    set i | 0 <= i < |h| :: h[i]
  }

  lemma NextKey(g: Geometry, d: Disk, h: seq<nat>, i: nat)
    requires GoodHeader(g, d, h) && i < |h|
    ensures IsHome(g, d, h[i]) && |h| < g.size
    ensures h[i] in Keys(h[i..]) && LogBlock(g, i) !in Keys(h[i..])
    ensures Keys(h[i + 1..]) == Keys(h[i..]) - {h[i]}
  {
    assert h[i..][0] == h[i];
    assert h[i..] == [h[i]] + h[i + 1..];
  }

  /** now extends was by k disks, the first k disks of write_log(). */
  ghost predicate LogTrace(g: Geometry, was: seq<Disk>, now: seq<Disk>, d: Disk, vals: seq<Block>, k: nat)
    requires ValidDisk(g, d) && k <= |vals| < g.size
    requires forall j :: 0 <= j < |vals| ==> |vals[j]| == g.words
  {
    && |now| == |was| + k && now[..|was|] == was
    && (forall i: nat :: 1 <= i <= k ==> now[|was| + i - 1] == LogCopied(g, d, vals, i))
  }

  /** now extends was by k disks, the first k disks of install_trans(). */
  ghost predicate InstallTrace(g: Geometry, was: seq<Disk>, now: seq<Disk>, d: Disk, h: seq<int>, k: nat)
    requires ValidDisk(g, d) && GoodHeader(g, d, h) && k <= |h|
  {
    && |now| == |was| + k && now[..|was|] == was
    && (forall i: nat :: 1 <= i <= k ==> now[|was| + i - 1] == Installed(g, d, h, i))
  }

  lemma LogTraceNext(g: Geometry, was: seq<Disk>, now: seq<Disk>, d: Disk, vals: seq<Block>, k: nat)
    requires ValidDisk(g, d) && k < |vals| < g.size
    requires forall j :: 0 <= j < |vals| ==> |vals[j]| == g.words
    requires LogTrace(g, was, now, d, vals, k)
    ensures LogTrace(g, was, now + [LogCopied(g, d, vals, k + 1)], d, vals, k + 1)
  {
  }

  lemma InstallTraceNext(g: Geometry, was: seq<Disk>, now: seq<Disk>, d: Disk, h: seq<int>, k: nat)
    requires ValidDisk(g, d) && GoodHeader(g, d, h) && k < |h|
    requires InstallTrace(g, was, now, d, h, k)
    ensures InstallTrace(g, was, now + [Installed(g, d, h, k + 1)], d, h, k + 1)
  {
  }

  /** now extends was by the first k disks recover_from_log() writes. */
  ghost predicate RecoveryTrace(g: Geometry, was: seq<Disk>, now: seq<Disk>, d: Disk, k: nat)
    requires GoodGeometry(g) && Recoverable(g, d) && k <= |HeaderOf(d[g.start])| + 1
  {
    && |now| == |was| + k && now[..|was|] == was
    && (forall i: nat :: 1 <= i <= k ==> now[|was| + i - 1] == RecoveryDisk(g, d, i))
  }

  lemma InstallIsRecovery(g: Geometry, was: seq<Disk>, now: seq<Disk>, d: Disk, h: seq<int>, k: nat)
    requires GoodGeometry(g) && Recoverable(g, d) && h == HeaderOf(d[g.start]) && k <= |h|
    requires InstallTrace(g, was, now, d, h, k)
    ensures RecoveryTrace(g, was, now, d, k)
  {
  }

  lemma NothingRecovered(g: Geometry, was: seq<Disk>, d: Disk)
    requires GoodGeometry(g) && Recoverable(g, d)
    ensures RecoveryTrace(g, was, was, d, 0)
  {
  }

  lemma RecoveryTraceEnds(g: Geometry, was: seq<Disk>, now: seq<Disk>, d: Disk)
    requires GoodGeometry(g) && Recoverable(g, d) && RecoveryTrace(g, was, now, d, |HeaderOf(d[g.start])|)
    ensures RecoveryTrace(g, was, now + [Recovered(g, d)], d, |HeaderOf(d[g.start])| + 1)
  {
  }

  /** now extends was by the first k disks commit() writes. */
  ghost predicate CommitTrace(g: Geometry, was: seq<Disk>, now: seq<Disk>, d: Disk, h: seq<int>, vals: seq<Block>,
      k: nat)
    requires GoodGeometry(g) && ValidDisk(g, d) && GoodHeader(g, d, h) && |vals| == |h|
    requires AllLong(g, vals) && k <= 2 * |h| + 2
  {
    && |now| == |was| + k && now[..|was|] == was
    && (forall i: nat :: 1 <= i <= k ==> now[|was| + i - 1] == CommitDisk(g, d, h, vals, i))
  }

  lemma LogBlockNotKey(g: Geometry, d: Disk, h: seq<nat>, i: nat)
    requires GoodHeader(g, d, h) && i < |h|
    ensures LogBlock(g, i) !in Keys(h)
  {
  }

  class Log {
    const g: Geometry
    const dev: nat
    const bc: BCache
    /** log.lh: n and the array of block numbers. */
    var n: nat
    const block: array<nat>
    var outstanding: nat
    var committing: bool
    /** Newest contents of the logged blocks that are not home yet. */
    ghost var pending: map<nat, Block>

    /** initlog() up to recovery. */
    constructor (g: Geometry, dev: nat, bc: BCache)
      requires GoodGeometry(g) && bc.Valid() && ValidDisk(g, bc.disk)
      requires Coherent(bc.buf[..], bc.nbuf, bc.disk, dev, map[])
      ensures Valid() && n == 0 && pending == map[] && !committing && outstanding == 0
      ensures this.g == g && this.dev == dev && this.bc == bc
    {
      this.g, this.dev, this.bc := g, dev, bc;
      n, outstanding, committing := 0, 0, false;
      block := new nat[g.logSize];
      pending := map[];
    }

    function Lh(): seq<nat>
      requires n <= block.Length
      reads this, block
    {
      block[..n]
    }

    ghost predicate Valid()
      reads this, block, bc, bc.buf
      ensures Valid() ==> n <= block.Length == g.logSize && GoodGeometry(g) && ValidDisk(g, bc.disk)
      ensures Valid() ==> bc.buf.Length == bc.nbuf + 1
    {
      && GoodGeometry(g) && block.Length == g.logSize && n <= g.logSize
      && bc.Valid() && ValidDisk(g, bc.disk)
      && Coherent(bc.buf[..], bc.nbuf, bc.disk, dev, pending)
      && (forall b :: b in pending ==> |pending[b]| == g.words)
    }

    /** Between commits: the on-disk log is empty, and exactly the logged blocks are pending. */
    ghost predicate Collecting()
      reads this, block, bc, bc.buf
    {
      && Valid()
      && GoodHeader(g, bc.disk, Lh())
      && pending.Keys == Keys(Lh())
      && HasHeader(g, bc.disk) && HeaderOf(bc.disk[g.start]) == []
    }

    /** Collecting(), except that the holder of buffer k has just changed its data from was. */
    ghost predicate CollectingBut(k: nat, was: Block)
      reads this, block, bc, bc.buf
    {
      && GoodGeometry(g) && block.Length == g.logSize && n <= g.logSize
      && bc.Valid() && ValidDisk(g, bc.disk)
      && k < bc.nbuf && bc.buf[k].valid && bc.buf[k].dev == dev && bc.buf[k].refcnt > 0
      && IsHome(g, bc.disk, bc.buf[k].blockno) && |bc.buf[k].data| == g.words
      && Coherent(bc.buf[..][k := bc.buf[k].(data := was)], bc.nbuf, bc.disk, dev, pending)
      && (forall b :: b in pending ==> |pending[b]| == g.words)
      && GoodHeader(g, bc.disk, Lh())
      && pending.Keys == Keys(Lh())
      && HasHeader(g, bc.disk) && HeaderOf(bc.disk[g.start]) == []
    }

    /**
     log_write(): the changed buffer's block is logged, with its newest content, and
     pinned the first time.  false stands for one of the two panics.
     */
    method LogWrite(k: nat, ghost was: Block) returns (ok: bool)
      requires CollectingBut(k, was)
      modifies this`n, this`pending, block, bc.buf
      ensures ok <==> old(n) < g.logSize && old(n) < g.size - 1 && outstanding >= 1
      ensures !ok ==>
                CollectingBut(k, was) && bc.buf[..] == old(bc.buf[..]) && pending == old(pending) && Lh() == old(Lh())
      ensures ok ==> Collecting() && pending == old(pending)[bc.buf[k].blockno := bc.buf[k].data]
      ensures ok ==> Lh() == if old(bc.buf[k].blockno in Lh()) then old(Lh()) else old(Lh()) + [bc.buf[k].blockno]
      ensures ok ==> bc.buf[k] == old(if bc.buf[k].blockno in Lh() then bc.buf[k]
                                      else bc.buf[k].(refcnt := bc.buf[k].refcnt + 1))
      ensures forall j :: 0 <= j < bc.nbuf && j != k ==> bc.buf[j] == old(bc.buf[j])
    {
      hide Linked, Permutation, OnePerBlock, Coherent, GoodHeader, Keys, HasHeader, ValidDisk;
      if n >= g.logSize || n >= g.size - 1 { return false; }
      if outstanding < 1 { return false; }
      var b := bc.buf[k].blockno;
      var i := 0;
      while i < n && block[i] != b
        invariant 0 <= i <= n
        invariant forall j :: 0 <= j < i ==> block[j] != b
      {
        i := i + 1;
      }
      ghost var h, c0 := Lh(), bc.buf[..];
      block[i] := b;
      if i == n {
        bc.Bpin(k);
        n := n + 1;
        assert b !in h && Lh() == h + [b];
      } else {
        assert h[i] == b && Lh() == h;
      }
      LoggedIsCoherent(c0, bc.buf[..], bc.nbuf, bc.disk, dev, pending, k, was);
      LoggedHeader(g, bc.disk, h, b);
      pending := pending[b := bc.buf[k].data];
      ok := true;
    }

    /** One pass of begin_op()'s loop: false means it sleeps on the log. */
    method BeginOp(maxOp: nat) returns (admitted: bool)
      modifies this`outstanding
      ensures admitted <==> !committing && n + (old(outstanding) + 1) * maxOp <= g.logSize
      ensures outstanding == if admitted then old(outstanding) + 1 else old(outstanding)
    {
      if committing {
        return false;
      } else if n + (outstanding + 1) * maxOp > g.logSize {
        return false;
      } else {
        outstanding := outstanding + 1;
        return true;
      }
    }

    /** bread() with the cache invariant: the caller sees the logical content. */
    method Fetch(b: nat) returns (r: Option<nat>)
      requires Valid() && b < |bc.disk|
      modifies bc.buf
      ensures Valid()
      ensures r.Some? ==>
                && r.value < bc.nbuf
                && Got(old(bc.buf[..]), bc.buf[..], bc.nbuf, bc.disk[b], dev, b, r.value)
                && bc.buf[r.value].data == Logical(pending, bc.disk, b) && |bc.buf[r.value].data| == g.words
      ensures r.Some? && b in pending ==> bc.buf[r.value].refcnt >= 2
      ensures b in pending || old(bc.HasFree()) ==> r.Some?
      ensures old(bc.HasTwoFree()) ==> r.Some? && bc.HasFree()
    {
      hide Free, TwoFree, Linked, Permutation;
      ghost var was := bc.buf[..];
      FreeKept(was, was, bc.nbuf);
      if b in pending { assert Holds(was, bc.nbuf, dev, b); }
      r := bc.Bread(dev, b);
      if r.Some? {
        GotIsCoherent(was, bc.buf[..], bc.nbuf, bc.disk, dev, pending, b, r.value);
        FreeLeft(was, bc.buf[..], bc.nbuf, r.value);
      } else {
        assert bc.buf[..] == was;
      }
    }

    /** memmove() into a held buffer followed by bwrite(): the block is clean afterwards. */
    method Store(k: nat, x: Block)
      requires Valid() && k < bc.nbuf && bc.buf[k].valid && bc.buf[k].dev == dev
      requires |x| == g.words
      modifies this`pending, bc`disk, bc`trace, bc.buf
      ensures Valid()
      ensures bc.buf[..] == old(bc.buf[..])[k := old(bc.buf[k]).(data := x)]
      ensures bc.disk == old(bc.disk)[old(bc.buf[k].blockno) := x]
      ensures bc.trace == old(bc.trace) + [bc.disk]
      ensures pending == old(pending) - {old(bc.buf[k].blockno)}
    {
      ghost var was := bc.buf[..];
      bc.SetData(k, x);
      assert bc.buf[..] == was[k := was[k].(data := x)];
      WriteIsCoherent(was, bc.buf[..], bc.nbuf, bc.disk, dev, pending, k, x);
      bc.Bwrite(k);
      pending := pending - {bc.buf[k].blockno};
    }

    /** brelse() or bunpin() of a reference that is not a pin of a pending block. */
    method Release(k: nat, unpin: bool)
      requires Valid() && k < bc.nbuf && bc.buf[k].refcnt > 0
      requires bc.buf[k].dev == dev && bc.buf[k].blockno in pending ==> bc.buf[k].refcnt >= 2
      modifies bc`ring, bc.buf
      ensures Valid()
      ensures bc.buf[k].Payload() == old(bc.buf[k].(refcnt := bc.buf[k].refcnt - 1).Payload())
      ensures SameOthers(old(bc.buf[..]), bc.buf[..], bc.nbuf, k)
      ensures unpin || old(bc.buf[k].refcnt) > 1 ==> bc.ring == old(bc.ring)
      ensures !unpin && old(bc.buf[k].refcnt) == 1 ==>
                exists i :: 0 <= i < |old(bc.ring)| && old(bc.ring)[i] == k && bc.ring == MoveToFront(old(bc.ring), i)
    {
      ghost var was := bc.buf[..];
      if unpin { bc.Bunpin(k); } else { bc.Brelse(k); }
      DropIsCoherent(was, bc.buf[..], bc.nbuf, bc.disk, dev, pending, k);
    }

    /** One iteration of write_log(): cache block to log block. */
    method LogOne(i: nat) returns (ok: bool)
      requires Valid() && i < n < g.size && LogBlock(g, i) !in pending
      requires IsHome(g, bc.disk, block[i]) && block[i] in pending
      modifies this`pending, bc`disk, bc`trace, bc`ring, bc.buf
      ensures Valid() && pending == old(pending)
      ensures ok ==> bc.disk == old(bc.disk)[LogBlock(g, i) := pending[block[i]]]
      ensures ok ==> bc.trace == old(bc.trace) + [bc.disk]
      ensures ok ==> RefsNotGrown(old(bc.buf[..]), bc.buf[..], bc.nbuf)
      ensures !ok ==> bc.disk == old(bc.disk) && bc.trace == old(bc.trace)
      ensures old(bc.HasFree()) ==> ok
    {
      hide Valid, RefsNotGrown, Free, TwoFree;
      ghost var b0, d := bc.buf[..], bc.disk;
      var to := Fetch(g.start + i + 1);
      if to.None? { return false; }
      ghost var b1 := bc.buf[..];
      var from := Fetch(block[i]);
      if from.None? { assert false; }
      ghost var b2 := bc.buf[..];
      Store(to.value, bc.buf[from.value].data);
      assert pending == old(pending);
      Release(from.value, false);
      Release(to.value, false);
      TwoReadsNotGrown(b0, b1, b2, bc.buf[..], bc.nbuf, d[LogBlock(g, i)], d[block[i]], dev,
                       LogBlock(g, i), block[i], to.value, from.value);
      return true;
    }

    /** k iterations of write_log() have run since the disk was d and the trace t. */
    ghost predicate Logging(d: Disk, t: seq<Disk>, vals: seq<Block>, k: nat)
      reads this, block, bc, bc.buf
      requires ValidDisk(g, d) && k <= |vals| < g.size
      requires forall j :: 0 <= j < |vals| ==> |vals[j]| == g.words
    {
      && Valid() && bc.disk == LogCopied(g, d, vals, k)
      && LogTrace(g, t, bc.trace, d, vals, k)
    }

    method LogStep(ghost d: Disk, ghost t: seq<Disk>, ghost vals: seq<Block>, i: nat) returns (ok: bool)
      requires n <= block.Length && GoodHeader(g, d, Lh())
      requires pending.Keys == Keys(Lh()) && |vals| == n && i < n
      requires forall j :: 0 <= j < n ==> block[j] in pending && vals[j] == pending[block[j]]
      requires forall j :: 0 <= j < n ==> |vals[j]| == g.words
      requires ValidDisk(g, d) && Logging(d, t, vals, i)
      modifies this`pending, bc`disk, bc`trace, bc`ring, bc.buf
      ensures pending == old(pending)
      ensures Logging(d, t, vals, if ok then i + 1 else i)
      ensures old(bc.HasFree()) ==> ok && bc.HasFree()
    {
      hide Valid, GoodHeader, Keys, LogTrace, ValidDisk;
      NextKey(g, d, Lh(), i);
      LogBlockNotKey(g, d, Lh(), i);
      assert Lh()[i] == block[i] && LogBlock(g, i) !in pending;
      LogTraceNext(g, t, bc.trace, d, vals, i);
      ok := LogOne(i);
    }

    lemma LoggingStarts(vals: seq<Block>)
      requires Valid() && GoodHeader(g, bc.disk, Lh())
      requires |vals| == n && forall j :: 0 <= j < n ==> block[j] in pending && vals[j] == pending[block[j]]
      ensures |vals| < g.size && forall j :: 0 <= j < n ==> |vals[j]| == g.words
      ensures Logging(bc.disk, bc.trace, vals, 0)
    {
    }

    /** write_log(); k is the number of blocks it wrote. */
    method WriteLog(ghost vals: seq<Block>) returns (ok: bool, ghost k: nat)
      requires Valid() && GoodHeader(g, bc.disk, Lh()) && pending.Keys == Keys(Lh())
      requires |vals| == n && forall j :: 0 <= j < n ==> block[j] in pending && vals[j] == pending[block[j]]
      modifies this`pending, bc`disk, bc`trace, bc`ring, bc.buf
      ensures pending == old(pending)
      ensures k <= n && (ok ==> k == n)
      ensures Logging(old(bc.disk), old(bc.trace), vals, k)
      ensures old(bc.HasFree()) ==> ok && bc.HasFree()
    {
      hide Valid, GoodHeader, Logging;
      ghost var d, t := bc.disk, bc.trace;
      LoggingStarts(vals);
      var tail := 0;
      k := 0;
      while tail < n
        invariant tail <= n && k == tail && pending == old(pending)
        invariant Logging(d, t, vals, k)
        invariant old(bc.HasFree()) ==> bc.HasFree()
      {
        ok := LogStep(d, t, vals, tail);
        if !ok { return; }
        tail := tail + 1;
        k := k + 1;
      }
      ok := true;
    }

    /** write_head(): one write of the header block; None of the other words change. */
    method WriteHead() returns (ok: bool)
      requires Valid() && n < g.words && g.start !in pending
      modifies this`pending, bc`disk, bc`trace, bc`ring, bc.buf
      ensures Valid() && pending == old(pending)
      ensures ok ==> bc.disk == WithHeader(g, old(bc.disk), Lh())
      ensures ok ==> bc.trace == old(bc.trace) + [bc.disk]
      ensures !ok ==> bc.disk == old(bc.disk) && bc.trace == old(bc.trace)
      ensures old(bc.HasFree()) ==> ok && bc.HasFree()
    {
      hide Valid;
      var b := Fetch(g.start);
      if b.None? { return false; }
      var hb := bc.buf[b.value].data;
      hb := hb[0 := n];
      var i := 0;
      while i < n
        invariant 0 <= i <= n && |hb| == g.words
        invariant hb == [n] + Lh()[..i] + bc.buf[b.value].data[1 + i..]
        modifies {}
      {
        StampNext(bc.buf[b.value].data, n, Lh(), hb, i);
        hb := hb[1 + i := block[i]];
        i := i + 1;
      }
      assert hb == Stamp(bc.buf[b.value].data, Lh());
      Store(b.value, hb);
      assert pending == old(pending);
      Release(b.value, false);
      assert RefsNotGrown(old(bc.buf[..]), bc.buf[..], bc.nbuf);
      return true;
    }

    /** The end of an iteration of install_trans(): bunpin(dbuf), brelse(lbuf), brelse(dbuf). */
    method ReleaseBoth(l: nat, k: nat, unpin: bool)
      requires Valid() && l < bc.nbuf && k < bc.nbuf && l != k
      requires bc.buf[l].refcnt >= 1 && bc.buf[k].refcnt >= if unpin then 2 else 1
      requires bc.buf[l].dev == bc.buf[k].dev == dev && bc.buf[l].blockno !in pending && bc.buf[k].blockno !in pending
      modifies bc`ring, bc.buf
      ensures Valid()
      ensures bc.buf[l].refcnt < old(bc.buf[l].refcnt) && bc.buf[k].refcnt < old(bc.buf[k].refcnt)
      ensures forall i :: 0 <= i < bc.nbuf && i != l && i != k ==> bc.buf[i].refcnt == old(bc.buf[i].refcnt)
    {
      hide Valid;
      if unpin {
        Release(k, true);
      }
      Release(l, false);
      Release(k, false);
    }

    /** One iteration of install_trans(): log block to home block, then unpin. */
    method InstallOne(i: nat, recovering: bool) returns (ok: bool)
      requires Valid() && i < n < g.size && LogBlock(g, i) !in pending
      requires IsHome(g, bc.disk, block[i])
      requires if recovering then pending == map[] else block[i] in pending
      modifies this`pending, bc`disk, bc`trace, bc`ring, bc.buf
      ensures Valid()
      ensures ok ==> pending == old(pending) - {block[i]}
      ensures ok ==> bc.disk == old(bc.disk)[block[i] := old(bc.disk)[LogBlock(g, i)]]
      ensures ok ==> bc.trace == old(bc.trace) + [bc.disk]
      ensures ok ==> RefsNotGrown(old(bc.buf[..]), bc.buf[..], bc.nbuf)
      ensures !ok ==> bc.disk == old(bc.disk) && bc.trace == old(bc.trace) && pending == old(pending)
      ensures old(bc.HasFree()) && !recovering ==> ok
      ensures old(bc.HasTwoFree()) ==> ok
    {
      hide Valid, RefsNotGrown, Free, TwoFree;
      ghost var b0, d := bc.buf[..], bc.disk;
      var lbuf := Fetch(g.start + i + 1);
      if lbuf.None? { return false; }
      ghost var b1 := bc.buf[..];
      var dbuf := Fetch(block[i]);
      if dbuf.None? { return false; }
      ghost var b2 := bc.buf[..];
      Store(dbuf.value, bc.buf[lbuf.value].data);
      ReleaseBoth(lbuf.value, dbuf.value, !recovering);
      TwoReadsNotGrown(b0, b1, b2, bc.buf[..], bc.nbuf, d[LogBlock(g, i)], d[block[i]], dev,
                       LogBlock(g, i), block[i], lbuf.value, dbuf.value);
      return true;
    }

    /** k iterations of install_trans() have run since the disk was d and the trace t. */
    ghost predicate Installing(d: Disk, t: seq<Disk>, k: nat, recovering: bool)
      reads this, block, bc, bc.buf
      requires n <= block.Length && ValidDisk(g, d) && GoodHeader(g, d, Lh()) && k <= n
    {
      && Valid() && bc.disk == Installed(g, d, Lh(), k)
      && InstallTrace(g, t, bc.trace, d, Lh(), k)
      && (if recovering then pending == map[] else pending.Keys == Keys(Lh()[k..]))
    }

    method InstallStep(ghost d: Disk, ghost t: seq<Disk>, i: nat, recovering: bool) returns (ok: bool)
      requires n <= block.Length && ValidDisk(g, d) && GoodHeader(g, d, Lh()) && i < n
      requires Installing(d, t, i, recovering)
      modifies this`pending, bc`disk, bc`trace, bc`ring, bc.buf
      ensures Installing(d, t, if ok then i + 1 else i, recovering)
      ensures old(bc.HasFree()) && !recovering ==> ok && bc.HasFree()
      ensures old(bc.HasTwoFree()) ==> ok && bc.HasTwoFree()
    {
      hide Valid, GoodHeader, Keys, InstallTrace, ValidDisk;
      NextKey(g, d, Lh(), i);
      InstallTraceNext(g, t, bc.trace, d, Lh(), i);
      assert Lh()[i] == block[i];
      ok := InstallOne(i, recovering);
    }

    /** install_trans(); k is the number of blocks it installed. */
    method InstallTrans(recovering: bool) returns (ok: bool, ghost k: nat)
      requires Valid() && GoodHeader(g, bc.disk, Lh())
      requires if recovering then pending == map[] else pending.Keys == Keys(Lh())
      modifies this`pending, bc`disk, bc`trace, bc`ring, bc.buf
      ensures k <= n && (ok ==> k == n && pending == map[])
      ensures Installing(old(bc.disk), old(bc.trace), k, recovering)
      ensures old(bc.HasFree()) && !recovering ==> ok && bc.HasFree()
      ensures old(bc.HasTwoFree()) ==> ok && bc.HasTwoFree()
    {
      hide Valid, GoodHeader, Installing;
      ghost var d, t := bc.disk, bc.trace;
      InstallingStarts(recovering);
      var tail := 0;
      k := 0;
      while tail < n
        invariant tail <= n && k == tail
        invariant Installing(d, t, k, recovering)
        invariant old(bc.HasFree()) && !recovering ==> bc.HasFree()
        invariant old(bc.HasTwoFree()) ==> bc.HasTwoFree()
      {
        ok := InstallStep(d, t, tail, recovering);
        if !ok { return; }
        tail := tail + 1;
        k := k + 1;
      }
      InstalledAll(d, t, recovering);
      ok := true;
    }

    lemma InstallingStarts(recovering: bool)
      requires Valid() && GoodHeader(g, bc.disk, Lh())
      requires if recovering then pending == map[] else pending.Keys == Keys(Lh())
      ensures Installing(bc.disk, bc.trace, 0, recovering)
    {
      assert Lh()[0..] == Lh();
    }

    lemma CollectingStarts()
      requires Valid() && n == 0 && pending == map[]
      requires HasHeader(g, bc.disk) && HeaderOf(bc.disk[g.start]) == []
      ensures Collecting()
    {
    }

    lemma InstalledAll(d: Disk, t: seq<Disk>, recovering: bool)
      requires n <= block.Length && ValidDisk(g, d) && GoodHeader(g, d, Lh())
      requires Installing(d, t, n, recovering)
      ensures pending == map[]
    {
      assert Lh()[n..] == [];
      assert Keys([]) == {};
    }

    /** read_head() */
    method ReadHead() returns (ok: bool)
      requires Valid() && Recoverable(g, bc.disk) && g.start !in pending
      modifies this`n, block, bc.buf, bc`ring
      ensures Valid()
      ensures ok ==> Lh() == HeaderOf(bc.disk[g.start])
      ensures old(bc.HasTwoFree()) ==> ok && bc.HasTwoFree()
    {
      hide Coherent, Linked, Permutation, OnePerBlock, Free, TwoFree;
      ghost var b0 := bc.buf[..];
      var b := Fetch(g.start);
      if b.None? { return false; }
      var lh := bc.buf[b.value].data;
      n := lh[0];
      ghost var h := HeaderOf(bc.disk[g.start]);
      assert lh == bc.disk[g.start] && n == |h|;
      var i := 0;
      while i < n
        invariant 0 <= i <= n <= g.logSize && block[..i] == h[..i] && Valid()
        modifies block
      {
        assert h[i] == lh[1 + i] && IsHome(g, bc.disk, h[i]);
        block[i] := lh[1 + i];
        i := i + 1;
      }
      Release(b.value, false);
      FreeKept(b0, bc.buf[..], bc.nbuf);
      return true;
    }

    /** log.lh.n = 0 */
    method ClearLh()
      requires Valid()
      modifies this`n
      ensures Valid() && n == 0 && Lh() == []
    {
      n := 0;
    }

    /**
     recover_from_log().  The i-th disk it writes is RecoveryDisk(old disk, i), so a
     crash during recovery leaves a disk that recovers to the same home blocks.
     */
    method Recover() returns (ok: bool, ghost k: nat)
      requires Valid() && Recoverable(g, bc.disk) && pending == map[]
      modifies this`n, this`pending, block, bc`disk, bc`trace, bc`ring, bc.buf
      ensures k <= |HeaderOf(old(bc.disk)[g.start])| + 1
      ensures RecoveryTrace(g, old(bc.trace), bc.trace, old(bc.disk), k)
      ensures ok ==> Collecting() && n == 0 && bc.disk == Recovered(g, old(bc.disk))
      ensures old(bc.HasTwoFree()) ==> ok
    {
      hide Valid, ValidDisk, Distinct, GoodHeader, Collecting, Free, TwoFree, InstallTrace, RecoveryTrace;
      k := 0;
      ghost var d, t := bc.disk, bc.trace;
      NothingRecovered(g, t, d);
      ok := ReadHead();
      if !ok { return; }
      ghost var h := Lh();
      ok, k := InstallTrans(true);
      InstallIsRecovery(g, t, bc.trace, d, h, k);
      if !ok { return; }
      RecoveryTraceEnds(g, t, bc.trace, d);
      FreeKept(bc.buf[..], bc.buf[..], bc.nbuf);
      ClearLh();
      ok := WriteHead();
      if !ok { return; }
      k := k + 1;
      RecoveredAt(g, d);
      CollectingStarts();
    }

    /**
     commit().  Its i-th write leaves CommitDisk(old disk, i): whichever write is the
     last before a crash, recovery yields all of the group's new home blocks or none.
     */
    method Commit(ghost vals: seq<Block>) returns (ok: bool, ghost k: nat)
      requires Collecting()
      requires |vals| == n && forall j :: 0 <= j < n ==> block[j] in pending && vals[j] == pending[block[j]]
      modifies this`n, this`pending, bc`disk, bc`trace, bc`ring, bc.buf
      ensures k <= 2 * |vals| + 2 && AllLong(g, vals)
      ensures CommitTrace(g, old(bc.trace), bc.trace, old(bc.disk), old(Lh()), vals, k)
      ensures ok ==> Collecting() && n == 0
      ensures ok ==> SameHome(g, bc.disk, Applied(g, old(bc.disk), old(Lh()), vals))
      ensures old(bc.HasFree()) ==> ok && bc.HasFree()
      ensures old(n) == 0 ==> ok
    {
      hide Linked, Permutation, OnePerBlock, Coherent, Free, TwoFree;
      k := 0;
      if n == 0 { ok := true; return; }
      ghost var d, h, t := bc.disk, Lh(), bc.trace;
      ok, k := CommitToLog(vals);
      if !ok { return; }
      ok, k := Install(d, t, vals);
    }

    /**
     end_op(): the last outstanding operation commits the whole group; any other
     leaves disk and log alone.  false stands for a panic.
     */
    method EndOp(ghost vals: seq<Block>) returns (ok: bool)
      requires Collecting() && outstanding > 0
      requires |vals| == n && forall j :: 0 <= j < n ==> block[j] in pending && vals[j] == pending[block[j]]
      modifies this`n, this`pending, this`outstanding, this`committing, bc`disk, bc`trace, bc`ring, bc.buf
      ensures outstanding == old(outstanding) - 1
      ensures old(committing) ==> !ok
      ensures outstanding > 0 || old(committing) ==>
                Collecting() && bc.trace == old(bc.trace) && pending == old(pending) && Lh() == old(Lh())
      ensures ok ==> Collecting() && !committing
      ensures !ok ==> committing
      ensures !old(committing) && (outstanding > 0 || old(n) == 0 || old(bc.HasFree())) ==> ok
      ensures ok && outstanding == 0 ==> n == 0 && SameHome(g, bc.disk, Applied(g, old(bc.disk), old(Lh()), vals))
      ensures exists k: nat :: k <= 2 * |vals| + 2 && AllLong(g, vals)
                && CommitTrace(g, old(bc.trace), bc.trace, old(bc.disk), old(Lh()), vals, k)
    {
      hide Coherent, Linked, Permutation, OnePerBlock, Free, TwoFree, SameHome, Applied;
      ghost var k: nat := 0;
      outstanding := outstanding - 1;
      assert AllLong(g, vals);
      assert CommitTrace(g, bc.trace, bc.trace, bc.disk, Lh(), vals, 0);
      if committing { return false; }
      if outstanding == 0 {
        committing := true;
        ok, k := Commit(vals);
        if ok { committing := false; }
      } else {
        ok := true;
      }
    }

    /** The first half of commit(): write_log() and the header write that commits. */
    method CommitToLog(ghost vals: seq<Block>) returns (ok: bool, ghost k: nat)
      requires Collecting() && n > 0
      requires |vals| == n && forall j :: 0 <= j < n ==> block[j] in pending && vals[j] == pending[block[j]]
      modifies this`pending, bc`disk, bc`trace, bc`ring, bc.buf
      ensures k <= n + 1 && (ok ==> k == n + 1) && AllLong(g, vals)
      ensures Valid() && pending == old(pending)
      ensures CommitTrace(g, old(bc.trace), bc.trace, old(bc.disk), Lh(), vals, k)
      ensures bc.disk == CommitDisk(g, old(bc.disk), Lh(), vals, k)
      ensures old(bc.HasFree()) ==> ok && bc.HasFree()
    {
      hide Linked, Permutation, OnePerBlock, Coherent, Linked, LogTrace, CommitTrace;
      ghost var d, h, t := bc.disk, Lh(), bc.trace;
      assert AllLong(g, vals);
      ok, k := WriteLog(vals);
      CommitLogTrace(g, t, bc.trace, d, h, vals, k);
      if !ok { return; }
      HeaderNotKey(g, d, h);
      ghost var t1 := bc.trace;
      ok := WriteHead();
      if ok {
        k := k + 1;
        CommitTraceNext(g, t, t1, d, h, vals, n);
      }
    }

    /** The second half of commit(): install, then erase the log. */
    method Install(ghost d: Disk, ghost t: seq<Disk>, ghost vals: seq<Block>) returns (ok: bool, ghost k: nat)
      requires Valid() && ValidDisk(g, d) && GoodHeader(g, d, Lh()) && pending.Keys == Keys(Lh())
      requires |vals| == n && AllLong(g, vals) && n > 0
      requires Recoverable(g, d) && HeaderOf(d[g.start]) == []
      requires CommitTrace(g, t, bc.trace, d, Lh(), vals, n + 1)
      requires bc.disk == CommitDisk(g, d, Lh(), vals, n + 1)
      modifies this`n, this`pending, bc`disk, bc`trace, bc`ring, bc.buf
      ensures k <= 2 * |vals| + 2
      ensures CommitTrace(g, t, bc.trace, d, old(Lh()), vals, k)
      ensures ok ==> Collecting() && n == 0
      ensures ok ==> SameHome(g, bc.disk, Applied(g, d, old(Lh()), vals))
      ensures old(bc.HasFree()) ==> ok && bc.HasFree()
    {
      hide Valid, CommitTrace, InstallTrace, Collecting, GoodHeader, ValidDisk, SameHome;
      ghost var h, e, t1 := Lh(), bc.disk, bc.trace;
      GoodHeaderBySize(g, d, e, h);
      ok, k := InstallTrans(false);
      CommitInstallTrace(g, t, t1, bc.trace, d, h, vals, k);
      k := n + 1 + k;
      if !ok { return; }
      ClearLh();
      ghost var t2 := bc.trace;
      ok := WriteHead();
      if ok {
        k := k + 1;
        CommitTraceNext(g, t, t2, d, h, vals, 2 * |h| + 1);
        CommitAtomic(g, d, h, vals, 2 * |h| + 2);
        CollectingStarts();
      }
    }
  }

  predicate AllLong(g: Geometry, vals: seq<Block>) {
    forall j :: 0 <= j < |vals| ==> |vals[j]| == g.words
  }

  lemma HeaderNotKey(g: Geometry, d: Disk, h: seq<nat>)
    requires GoodHeader(g, d, h) && GoodGeometry(g)
    ensures g.start !in Keys(h)
  {
  }

  lemma CommitLogTrace(g: Geometry, was: seq<Disk>, now: seq<Disk>, d: Disk, h: seq<int>, vals: seq<Block>, k: nat)
    requires GoodGeometry(g) && ValidDisk(g, d) && GoodHeader(g, d, h) && |vals| == |h| && AllLong(g, vals)
    requires k <= |h| && LogTrace(g, was, now, d, vals, k)
    ensures CommitTrace(g, was, now, d, h, vals, k)
    ensures CommitDisk(g, d, h, vals, k) == LogCopied(g, d, vals, k)
  {
  }

  lemma CommitTraceNext(g: Geometry, was: seq<Disk>, now: seq<Disk>, d: Disk, h: seq<int>, vals: seq<Block>, k: nat)
    requires GoodGeometry(g) && ValidDisk(g, d) && GoodHeader(g, d, h) && |vals| == |h| && AllLong(g, vals)
    requires k < 2 * |h| + 2 && CommitTrace(g, was, now, d, h, vals, k)
    ensures CommitTrace(g, was, now + [CommitDisk(g, d, h, vals, k + 1)], d, h, vals, k + 1)
  {
  }

  lemma CommitInstallTrace(g: Geometry, was: seq<Disk>, mid: seq<Disk>, now: seq<Disk>,
                           d: Disk, h: seq<int>, vals: seq<Block>, k: nat)
    requires GoodGeometry(g) && ValidDisk(g, d) && GoodHeader(g, d, h) && |vals| == |h| && AllLong(g, vals)
    requires CommitTrace(g, was, mid, d, h, vals, |h| + 1)
    requires k <= |h| && InstallTrace(g, mid, now, CommitDisk(g, d, h, vals, |h| + 1), h, k)
    ensures CommitTrace(g, was, now, d, h, vals, |h| + 1 + k)
    ensures CommitDisk(g, d, h, vals, |h| + 1 + k) == Installed(g, CommitDisk(g, d, h, vals, |h| + 1), h, k)
  {
    assert now[..|was|] == mid[..|was|];
    forall i: nat | 1 <= i <= |h| + 1 + k ensures now[|was| + i - 1] == CommitDisk(g, d, h, vals, i) {
      if i <= |h| + 1 {
        assert now[|was| + i - 1] == mid[|was| + i - 1];
      } else {
        var j: nat := i - |h| - 1;
        assert now[|mid| + j - 1] == Installed(g, CommitDisk(g, d, h, vals, |h| + 1), h, j);
      }
    }
  }

  /** Every disk commit() leaves behind recovers to all of the group or none of it. */
  lemma CommitTraceAtomic(g: Geometry, was: seq<Disk>, now: seq<Disk>, d: Disk, h: seq<int>, vals: seq<Block>, k: nat,
      i: nat)
    requires GoodGeometry(g) && Recoverable(g, d) && HeaderOf(d[g.start]) == []
    requires GoodHeader(g, d, h) && |vals| == |h| && AllLong(g, vals)
    requires 1 <= i <= k <= 2 * |h| + 2 && CommitTrace(g, was, now, d, h, vals, k)
    ensures Recoverable(g, now[|was| + i - 1])
    ensures SameHome(g, Recovered(g, now[|was| + i - 1]), if i <= |h| then d else Applied(g, d, h, vals))
  {
    CommitAtomic(g, d, h, vals, i);
  }
}
