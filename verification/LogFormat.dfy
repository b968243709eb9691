/**
 The on-disk redo log: what each bwrite of commit() and recover_from_log()
 does to the disk, and what a crash after any of those writes leaves behind.

 The disk is a sequence of blocks and one bwrite replaces one block.  A block
 is a sequence of 32-bit words, because the log header is an array of ints
 laid over the words of its block.
 */
module LogFormat {

  type Block = seq<int>
  type Disk = seq<Block>

  /** words is BSIZE/4, logSize is LOGSIZE; start and size are log.start and log.size. */
  datatype Geometry = Geometry(words: nat, logSize: nat, start: nat, size: nat)

  /** initlog() panics unless struct logheader is smaller than a block. */
  predicate GoodGeometry(g: Geometry) {
    g.logSize + 1 < g.words && 1 <= g.size
  }

  predicate ValidDisk(g: Geometry, d: Disk) {
    && g.start + g.size <= |d|
    && forall b :: 0 <= b < |d| ==> |d[b]| == g.words
  }

  /** Blocks outside the log area, which is where file system data lives. */
  predicate IsHome(g: Geometry, d: Disk, b: int) {
    0 <= b < |d| && !(g.start <= b < g.start + g.size)
  }

  /** The j-th log block: bread(log.dev, log.start+tail+1). */
  function LogBlock(g: Geometry, j: int): int {
    g.start + 1 + j
  }

  predicate Distinct(h: seq<int>) {
    forall i, j :: 0 <= i < j < |h| ==> h[i] != h[j]
  }

  /** A header log_write() can build: distinct home blocks that fit the log. */
  predicate GoodHeader(g: Geometry, d: Disk, h: seq<int>) {
    && |h| <= g.logSize && |h| < g.size
    && Distinct(h)
    && forall i :: 0 <= i < |h| ==> IsHome(g, d, h[i])
  }

  lemma GoodHeaderBySize(g: Geometry, d: Disk, e: Disk, h: seq<int>)
    requires GoodHeader(g, d, h) && |d| == |e|
    ensures GoodHeader(g, e, h)
  {
  }

  predicate HasHeader(g: Geometry, d: Disk) {
    GoodGeometry(g) && ValidDisk(g, d) && 0 <= d[g.start][0] && d[g.start][0] < |d[g.start]|
  }

  /** read_head(): word 0 is the count, the block numbers follow it. */
  function HeaderOf(b: Block): (h: seq<int>)
    requires |b| > 0 && 0 <= b[0] < |b|
  {
    b[1..1 + b[0]]
  }

  /** write_head(): only the count and the first n entries are stored. */
  function Stamp(b: Block, h: seq<int>): (r: Block)
    requires |h| < |b|
    ensures |r| == |b|
  {
    [|h|] + h + b[1 + |h|..]
  }

  lemma HeaderRoundTrip(b: Block, h: seq<int>)
    requires |h| < |b|
    ensures Stamp(b, h)[0] == |h| && HeaderOf(Stamp(b, h)) == h
    ensures forall i :: 1 + |h| <= i < |b| ==> Stamp(b, h)[i] == b[i]
  {
    assert Stamp(b, h)[1..1 + |h|] == h;
  }

  function WithHeader(g: Geometry, d: Disk, h: seq<int>): (r: Disk)
    requires ValidDisk(g, d) && |h| < g.words && 1 <= g.size
    ensures ValidDisk(g, r) && |r| == |d|
  {
    d[g.start := Stamp(d[g.start], h)]
  }

  /** The disk after i iterations of write_log(). */
  function LogCopied(g: Geometry, d: Disk, vals: seq<Block>, i: nat): (r: Disk)
    requires ValidDisk(g, d) && i <= |vals| < g.size
    requires forall j :: 0 <= j < |vals| ==> |vals[j]| == g.words
    ensures ValidDisk(g, r) && |r| == |d|
  {
    if i == 0 then d else LogCopied(g, d, vals, i - 1)[g.start + i := vals[i - 1]]
  }

  /** The disk after i iterations of install_trans(). */
  function Installed(g: Geometry, d: Disk, h: seq<int>, i: nat): (r: Disk)
    requires ValidDisk(g, d) && GoodHeader(g, d, h) && i <= |h|
    ensures ValidDisk(g, r) && |r| == |d|
  {
    if i == 0 then d else
      var p := Installed(g, d, h, i - 1);
      p[h[i - 1] := p[g.start + i]]
  }

  /** Home blocks h[i] hold vals[i]; nothing else differs from d. */
  function Applied(g: Geometry, d: Disk, h: seq<int>, vals: seq<Block>): (r: Disk)
    requires GoodHeader(g, d, h) && |vals| == |h|
    ensures |r| == |d|
    ensures forall i :: 0 <= i < |h| ==> r[h[i]] == vals[i]
    ensures forall b :: 0 <= b < |d| && b !in h ==> r[b] == d[b]
    decreases |h|
  {
    if |h| == 0 then d else
      var n := |h| - 1;
      Applied(g, d, h[..n], vals[..n])[h[n] := vals[n]]
  }

  ghost predicate SameHome(g: Geometry, d: Disk, e: Disk) {
    |d| == |e| && forall b :: IsHome(g, d, b) ==> d[b] == e[b]
  }

  lemma {:induction false} LogCopiedAt(g: Geometry, d: Disk, vals: seq<Block>, i: nat)
    requires ValidDisk(g, d) && i <= |vals| < g.size
    requires forall j :: 0 <= j < |vals| ==> |vals[j]| == g.words
    ensures forall j :: 0 <= j < i ==> LogCopied(g, d, vals, i)[LogBlock(g, j)] == vals[j]
    ensures forall b :: 0 <= b < |d| && !(g.start < b <= g.start + i) ==> LogCopied(g, d, vals, i)[b] == d[b]
  {
    if i > 0 { LogCopiedAt(g, d, vals, i - 1); }
  }

  lemma {:induction false} InstalledAt(g: Geometry, d: Disk, h: seq<int>, i: nat)
    requires ValidDisk(g, d) && GoodHeader(g, d, h) && i <= |h|
    ensures forall j :: 0 <= j < i ==> Installed(g, d, h, i)[h[j]] == d[LogBlock(g, j)]
    ensures forall b :: 0 <= b < |d| && b !in h[..i] ==> Installed(g, d, h, i)[b] == d[b]
  {
    if i > 0 {
      InstalledAt(g, d, h, i - 1);
      assert h[..i] == h[..i - 1] + [h[i - 1]];
      var p := Installed(g, d, h, i - 1);
      assert !IsHome(g, d, g.start + i);
      assert g.start + i !in h[..i - 1];
      assert p[g.start + i] == d[g.start + i];
    }
  }

  predicate Recoverable(g: Geometry, d: Disk) {
    HasHeader(g, d) && GoodHeader(g, d, HeaderOf(d[g.start]))
  }

  /** The disk recover_from_log() leaves when it is not interrupted. */
  function Recovered(g: Geometry, d: Disk): (r: Disk)
    requires GoodGeometry(g) && Recoverable(g, d)
    ensures ValidDisk(g, r) && |r| == |d|
  {
    var h := HeaderOf(d[g.start]);
    WithHeader(g, Installed(g, d, h, |h|), [])
  }

  /** The disk after the first k of the |h| + 1 writes of recover_from_log(). */
  function RecoveryDisk(g: Geometry, d: Disk, k: nat): (r: Disk)
    requires GoodGeometry(g) && Recoverable(g, d)
    requires k <= |HeaderOf(d[g.start])| + 1
    ensures ValidDisk(g, r) && |r| == |d|
  {
    var h := HeaderOf(d[g.start]);
    if k <= |h| then Installed(g, d, h, k) else Recovered(g, d)
  }

  /** The disk after the first k of the 2|h| + 2 writes of commit(). */
  function CommitDisk(g: Geometry, d: Disk, h: seq<int>, vals: seq<Block>, k: nat): (r: Disk)
    requires GoodGeometry(g) && ValidDisk(g, d) && GoodHeader(g, d, h) && |vals| == |h|
    requires forall j :: 0 <= j < |vals| ==> |vals[j]| == g.words
    requires k <= 2 * |h| + 2
    ensures ValidDisk(g, r) && |r| == |d|
  {
    var n := |h|;
    if k <= n then LogCopied(g, d, vals, k) else
      var e := WithHeader(g, LogCopied(g, d, vals, n), h);
      if k <= 2 * n + 1 then Installed(g, e, h, k - n - 1) else WithHeader(g, Installed(g, e, h, n), [])
  }

  /** What recovery makes of a disk, block by block. */
  lemma RecoveredAt(g: Geometry, d: Disk)
    requires GoodGeometry(g) && Recoverable(g, d)
    ensures var h := HeaderOf(d[g.start]); var r := Recovered(g, d);
            && Recoverable(g, r) && HeaderOf(r[g.start]) == []
            && (forall j :: 0 <= j < |h| ==> r[h[j]] == d[LogBlock(g, j)])
            && (forall b :: IsHome(g, d, b) && b !in h ==> r[b] == d[b])
  {
    var h := HeaderOf(d[g.start]);
    InstalledAt(g, d, h, |h|);
    assert h[..|h|] == h;
    HeaderRoundTrip(Installed(g, d, h, |h|)[g.start], []);
  }

  /** Interrupting recovery and running it again gives the same home blocks. */
  lemma RecoveryRestarts(g: Geometry, d: Disk, k: nat)
    requires GoodGeometry(g) && Recoverable(g, d)
    requires k <= |HeaderOf(d[g.start])| + 1
    ensures Recoverable(g, RecoveryDisk(g, d, k))
    ensures SameHome(g, Recovered(g, RecoveryDisk(g, d, k)), Recovered(g, d))
  {
    var h := HeaderOf(d[g.start]);
    var e := RecoveryDisk(g, d, k);
    RecoveredAt(g, d);
    if k <= |h| {
      InstalledAt(g, d, h, k);
      assert !IsHome(g, d, g.start);
      assert g.start !in h[..k];
      assert e[g.start] == d[g.start];
      forall j | 0 <= j < |h| ensures e[LogBlock(g, j)] == d[LogBlock(g, j)] {
        assert !IsHome(g, d, LogBlock(g, j));
      }
    }
    RecoveredAt(g, e);
  }

  /**
   ds[i + 1] is what a crash during the recovery of ds[i] left behind.  However
   many such crashes there are, the last, uninterrupted recovery ends in the
   home blocks that an uninterrupted first recovery would have produced.
   */
  lemma {:induction false} RecoverySurvivesCrashes(g: Geometry, ds: seq<Disk>, ks: seq<nat>)
    requires GoodGeometry(g) && |ds| == |ks| + 1 && Recoverable(g, ds[0])
    requires forall i :: 0 <= i < |ks| ==>
                           && Recoverable(g, ds[i])
                           && ks[i] <= |HeaderOf(ds[i][g.start])| + 1
                           && ds[i + 1] == RecoveryDisk(g, ds[i], ks[i])
    ensures Recoverable(g, ds[|ks|])
    ensures SameHome(g, Recovered(g, ds[|ks|]), Recovered(g, ds[0]))
    decreases |ks|
  {
    var n := |ks|;
    if n > 0 {
      RecoverySurvivesCrashes(g, ds[..n], ks[..n - 1]);
      RecoveryRestarts(g, ds[n - 1], ks[n - 1]);
    }
  }

  lemma CommitBeforeHeader(g: Geometry, d: Disk, h: seq<int>, vals: seq<Block>, k: nat)
    requires GoodGeometry(g) && Recoverable(g, d) && HeaderOf(d[g.start]) == []
    requires GoodHeader(g, d, h) && |vals| == |h|
    requires forall j :: 0 <= j < |vals| ==> |vals[j]| == g.words
    requires k <= |h|
    ensures Recoverable(g, CommitDisk(g, d, h, vals, k))
    ensures SameHome(g, Recovered(g, CommitDisk(g, d, h, vals, k)), d)
  {
    LogCopiedAt(g, d, vals, k);
    RecoveredAt(g, CommitDisk(g, d, h, vals, k));
  }

  /** The disk right after the header write, which is the commit point. */
  lemma CommitPoint(g: Geometry, d: Disk, h: seq<int>, vals: seq<Block>, e: Disk)
    requires GoodGeometry(g) && Recoverable(g, d)
    requires GoodHeader(g, d, h) && |vals| == |h|
    requires forall j :: 0 <= j < |vals| ==> |vals[j]| == g.words
    requires e == WithHeader(g, LogCopied(g, d, vals, |h|), h)
    ensures Recoverable(g, e) && HeaderOf(e[g.start]) == h
    ensures SameHome(g, Recovered(g, e), Applied(g, d, h, vals))
  {
    LogCopiedAt(g, d, vals, |h|);
    HeaderRoundTrip(LogCopied(g, d, vals, |h|)[g.start], h);
    RecoveredIsApplied(g, d, h, vals, e);
  }

  /**
   Commit is all or nothing.  The log is empty when it starts; if it stops after
   k of its writes, recovery produces the old home blocks when the header write
   (write |h| + 1) had not happened, and the new ones when it had.
   */
  lemma CommitAtomic(g: Geometry, d: Disk, h: seq<int>, vals: seq<Block>, k: nat)
    requires GoodGeometry(g) && Recoverable(g, d) && HeaderOf(d[g.start]) == []
    requires GoodHeader(g, d, h) && |vals| == |h|
    requires forall j :: 0 <= j < |vals| ==> |vals[j]| == g.words
    requires k <= 2 * |h| + 2
    ensures Recoverable(g, CommitDisk(g, d, h, vals, k))
    ensures SameHome(g, Recovered(g, CommitDisk(g, d, h, vals, k)),
                     if k <= |h| then d else Applied(g, d, h, vals))
    ensures k == 2 * |h| + 2 ==>
              && HeaderOf(CommitDisk(g, d, h, vals, k)[g.start]) == []
              && SameHome(g, CommitDisk(g, d, h, vals, k), Applied(g, d, h, vals))
  {
    if k <= |h| {
      CommitBeforeHeader(g, d, h, vals, k);
    } else {
      var e := WithHeader(g, LogCopied(g, d, vals, |h|), h);
      CommitPoint(g, d, h, vals, e);
      RecoveryRestarts(g, e, k - |h| - 1);
      RecoveredAt(g, e);
    }
  }

  lemma RecoveredIsApplied(g: Geometry, d: Disk, h: seq<int>, vals: seq<Block>, e: Disk)
    requires GoodGeometry(g) && ValidDisk(g, d) && GoodHeader(g, d, h) && |vals| == |h|
    requires Recoverable(g, e) && |e| == |d| && HeaderOf(e[g.start]) == h
    requires forall j :: 0 <= j < |h| ==> e[LogBlock(g, j)] == vals[j]
    requires SameHome(g, d, e)
    ensures SameHome(g, Recovered(g, e), Applied(g, d, h, vals))
  {
    RecoveredAt(g, e);
    var r, a := Recovered(g, e), Applied(g, d, h, vals);
    forall b | IsHome(g, d, b) ensures r[b] == a[b] {
      if b in h {
        var j :| 0 <= j < |h| && h[j] == b;
        assert r[h[j]] == vals[j];
      }
    }
  }
}
