/** The on-disk format of the redo log of log.c, and what recovering a disk means. */
module LogFormat {
  import opened Common
  import opened Params
  import opened Blocks

  type Disk = seq<Block>

  /** Where the log lives: log.start and log.size. The header is block `start`, and the log blocks
      are start + 1, start + 2, and so on. */
  datatype Geometry = Geometry(start: nat, size: nat)

  /** Block b of a disk of n blocks is outside the log area. */
  predicate Home(g: Geometry, n: nat, b: nat) {
    b < n && !(g.start <= b < g.start + g.size)
  }

  ghost predicate GoodGeometry(g: Geometry, n: nat) {
    0 < g.size && g.start + g.size <= n <= UINT
  }

  /** A list of logged blocks fits the log, has no repetition, and names home blocks only. */
  ghost predicate GoodHeader(g: Geometry, n: nat, h: seq<nat>) {
    && |h| <= LOGSIZE
    && |h| <= g.size - 1
    && Distinct(h)
    && forall j :: 0 <= j < |h| ==> Home(g, n, h[j])
  }

  /** The first n block numbers in a header block. */
  function Entries(b: Block, n: nat): (h: seq<nat>)
    requires n < WORDS
    ensures |h| == n
  {
    if n == 0 then [] else Entries(b, n - 1) + [GetWord(b, n)]
  }

  /** The block numbers a header block lists: read_head. */
  function HeaderOf(b: Block): seq<nat> {
    var n := GetWord(b, 0);
    if n <= LOGSIZE then Entries(b, n) else []
  }

  /** The header block that write_head leaves after copying the count and the first k entries of h;
      the rest of the sector keeps what it held. */
  function PutHeader(b: Block, h: seq<nat>, k: nat): Block
    requires k <= |h| <= LOGSIZE
    requires forall i :: 0 <= i < |h| ==> h[i] < UINT
  {
    if k == 0 then PutWord(b, 0, |h|) else PutWord(PutHeader(b, h, k - 1), k, h[k - 1])
  }

  lemma {:induction false} PutHeaderWords(b: Block, h: seq<nat>, k: nat)
    requires k <= |h| <= LOGSIZE
    requires forall i :: 0 <= i < |h| ==> h[i] < UINT
    ensures GetWord(PutHeader(b, h, k), 0) == |h|
    ensures Entries(PutHeader(b, h, k), k) == h[..k]
  {
    if k > 0 {
      PutHeaderWords(b, h, k - 1);
      EntriesSame(PutHeader(b, h, k - 1), PutHeader(b, h, k), k - 1);
    }
  }

  lemma {:induction false} EntriesSame(b: Block, c: Block, n: nat)
    requires n < WORDS
    requires forall i: nat :: 1 <= i <= n ==> GetWord(b, i) == GetWord(c, i)
    ensures Entries(b, n) == Entries(c, n)
  {
    if n > 0 {
      EntriesSame(b, c, n - 1);
    }
  }

  /** Reading back a header gives the list that was written, whatever the sector held before. */
  lemma HeaderRoundTrip(b: Block, h: seq<nat>)
    requires |h| <= LOGSIZE
    requires forall i :: 0 <= i < |h| ==> h[i] < UINT
    ensures HeaderOf(PutHeader(b, h, |h|)) == h
  {
    PutHeaderWords(b, h, |h|);
    assert h[..|h|] == h;
  }

  /** The disk after install_trans has copied the first k log blocks to their home locations. */
  function Install(g: Geometry, d: Disk, h: seq<nat>, k: nat): (d': Disk)
    requires k <= |h| && g.start + k < |d|
    requires forall j :: 0 <= j < |h| ==> h[j] < |d|
    ensures |d'| == |d|
  {
    if k == 0 then d
    else var p := Install(g, d, h, k - 1); p[h[k - 1] := p[g.start + k]]
  }

  /** Install changes exactly the home blocks listed, each to its own log block. */
  lemma {:induction false} InstallAt(g: Geometry, d: Disk, h: seq<nat>, k: nat)
    requires GoodGeometry(g, |d|) && GoodHeader(g, |d|, h) && k <= |h|
    ensures forall j :: 0 <= j < k ==> Install(g, d, h, k)[h[j]] == d[g.start + 1 + j]
    ensures forall b :: 0 <= b < |d| && b !in h[..k] ==> Install(g, d, h, k)[b] == d[b]
  {
    if k > 0 {
      InstallAt(g, d, h, k - 1);
      assert g.start + k !in h[..k - 1];
      assert forall j :: 0 <= j < k - 1 ==> h[..k][j] == h[j];
      forall b | 0 <= b < |d| && b !in h[..k]
        ensures Install(g, d, h, k)[b] == d[b]
      {
        assert h[..k][k - 1] == h[k - 1];
        assert h[..k - 1] == h[..k][..k - 1];
      }
    }
  }

  /** A completed recover_from_log: read the header, install what it lists, erase the header. */
  function Recover(g: Geometry, d: Disk): (d': Disk)
    requires GoodGeometry(g, |d|) && GoodHeader(g, |d|, HeaderOf(d[g.start]))
    ensures |d'| == |d|
  {
    var h := HeaderOf(d[g.start]);
    var d1 := Install(g, d, h, |h|);
    d1[g.start := PutHeader(d1[g.start], [], 0)]
  }
}
