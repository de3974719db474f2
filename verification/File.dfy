/** filewrite of file.c: a write of any length as a run of transactions, each small enough for the log. */
module File {
  import opened Params
  import opened Blocks
  import opened FsLayout
  import opened FsState
  import opened FsWrite
  import opened FsLog
  import opened FsTrunc
  import opened Fs

  /** ((MAXOPBLOCKS-1-1-2) / 2) * 512. */
  const MAXCHUNK: nat := ((MAXOPBLOCKS - 1 - 1 - 2) / 2) * 512

  lemma OverwriteTwice(s: seq<Byte>, off: nat, a: seq<Byte>, b: seq<Byte>)
    requires off <= |s|
    ensures off + |a| <= |Overwrite(s, off, a)|
    ensures Overwrite(Overwrite(s, off, a), off + |a|, b) == Overwrite(s, off, a + b)
  {
    var t := Overwrite(s, off, a);
    assert t[..off + |a|] == s[..off] + a;
  }

  /** Everything but file i is as it was. */
  ghost predicate OthersSame(sb: Super, v0: Vol, v: Vol, i: nat)
    requires Shaped(sb, v0) && Shaped(sb, v)
  {
    && (forall j :: 0 <= j < sb.ninodes && j != i ==>
         v.ino[j] == v0.ino[j] && DiskInode(sb, v.blk, j) == DiskInode(sb, v0.blk, j))
    && (forall j, k :: 0 <= j < sb.ninodes && j != i && 0 <= k < MAXFILE * BSIZE ==>
         FileByte(sb, v, j, k) == FileByte(sb, v0, j, k))
    && OtherSlots(sb, v0, v, i)
  }

  /** What filewrite needs of its file, and keeps. */
  ghost predicate Writable(sb: Super, v: Vol, i: nat) {
    && Owned(sb, v) && i < sb.ninodes && v.ino[i].typ != T_DEV && v.ino[i].size <= MAXFILE * BSIZE
    && NoHoles(sb, v, i) && DiskInode(sb, v.blk, i) == v.ino[i]
  }

  /** A transaction of filewrite: the file system before and after it; src[at..end], which it wrote at offset
      `pos` of the file; the file's blocks lo to hi - 1, which hold these bytes; and the blocks it logged. */
  datatype Txn = Txn(before: Vol, after: Vol, at: nat, end: nat, pos: nat, piece: seq<Byte>, lo: nat, hi: nat,
                     log: set<nat>)

  /** It did so: it filled the slots it needed with free blocks, left the file as filewrite needs it, and
      logged exactly what that takes, which is no more than a transaction may. */
  ghost predicate Did(sb: Super, t: Txn, i: nat) {
    && WroteFile(sb, t.before, t.after, i, t.pos, t.piece)
    && Spans(t.pos, |t.piece|, t.lo, t.hi) && t.hi <= MAXFILE
    && Fills(sb, t.before, t.after, Needs(sb, t.before, i, t.lo, t.hi))
    && t.log == BlocksCost(sb, t.before, t.after, i, t.lo, t.hi, t.pos + |t.piece| > t.before.ino[i].size)
    && |t.log| <= MAXOPBLOCKS
  }

  /** It wrote the chunk of src that starts at t.at, to a file open at offset off. */
  predicate ChunkOf(t: Txn, off: nat, src: seq<Byte>) {
    t.at < t.end == Min(|src|, t.at + MAXCHUNK) && t.pos == off + t.at && t.piece == src[t.at..t.end]
  }

  /** One transaction after the other has written a chunk of src[..k], and together they take v0 to v. */
  ghost predicate Chain(v0: Vol, v: Vol, off: nat, src: seq<Byte>, txns: seq<Txn>, k: nat) {
    && (if txns == [] then v == v0 && k == 0
        else txns[0].before == v0 && txns[0].at == 0 && txns[|txns| - 1].after == v && txns[|txns| - 1].end == k)
    && (forall j :: 1 <= j < |txns| ==> txns[j].before == txns[j - 1].after && txns[j].at == txns[j - 1].end)
    && (forall j :: 0 <= j < |txns| ==> ChunkOf(txns[j], off, src))
  }

  /** filewrite has written src[..k] at offset off of file i, in whole transactions. An offset past the
      end of the file gets nowhere. */
  ghost predicate Reached(sb: Super, v0: Vol, v: Vol, i: nat, off: nat, src: seq<Byte>, k: nat)
    requires Writable(sb, v0, i)
  {
    && Writable(sb, v, i) && k <= |src|
    && OthersSame(sb, v0, v, i)
    && if off <= v0.ino[i].size then
         off + k <= v.ino[i].size && Content(sb, v, i) == Overwrite(Content(sb, v0, i), off, src[..k])
       else
         v == v0 && k == 0
  }

  lemma ReachedMore(sb: Super, v0: Vol, v: Vol, v': Vol, i: nat, off: nat, src: seq<Byte>, k: nat, end: nat, pos: nat,
                    piece: seq<Byte>)
    requires Writable(sb, v0, i) && Reached(sb, v0, v, i, off, src, k) && k < end <= |src| && piece == src[k..end]
    requires WroteFile(sb, v, v', i, pos, piece) && pos == off + k
    requires NoHoles(sb, v', i) && DiskInode(sb, v'.blk, i) == v'.ino[i]
    ensures Reached(sb, v0, v', i, off, src, end)
  {
    ChunksContent(Content(sb, v0, i), off, src, k, end);
    OthersTwice(sb, v0, v, v', i);
  }

  lemma ChunksContent(c: seq<Byte>, off: nat, src: seq<Byte>, k: nat, end: nat)
    requires off <= |c| && k <= end <= |src|
    ensures off + k <= |Overwrite(c, off, src[..k])|
    ensures Overwrite(Overwrite(c, off, src[..k]), off + k, src[k..end]) == Overwrite(c, off, src[..end])
  {
    OverwriteTwice(c, off, src[..k], src[k..end]);
    assert src[..k] + src[k..end] == src[..end];
  }

  lemma OthersTwice(sb: Super, v0: Vol, v1: Vol, v2: Vol, i: nat)
    requires Shaped(sb, v0) && Shaped(sb, v1) && Shaped(sb, v2) && OthersSame(sb, v0, v1, i)
    requires OthersSame(sb, v1, v2, i)
    ensures OthersSame(sb, v0, v2, i)
  {
  }

  /** Writing to one file, and truncating one, leaves every file writable that was. */
  lemma OthersWritable(sb: Super, v0: Vol, v: Vol, i: nat, j: nat)
    requires Owned(sb, v) && Writable(sb, v0, j) && j != i && OthersSame(sb, v0, v, i)
    ensures Writable(sb, v, j) && Content(sb, v, j) == Content(sb, v0, j)
  {
    OtherNoHoles(sb, v0, v, i, j);
  }

  lemma TruncatedWritable(sb: Super, v0: Vol, v: Vol, i: nat, j: nat)
    requires Truncated(sb, v0, v, i) && Writable(sb, v0, j)
    ensures Writable(sb, v, j) && Content(sb, v, j) == if j == i then [] else Content(sb, v0, j)
  {
    if j != i {
      OthersWritable(sb, v0, v, i, j);
    }
  }

  lemma AppendDid(sb: Super, i: nat, txns: seq<Txn>, t: Txn)
    requires (forall x :: x in txns ==> Did(sb, x, i)) && Did(sb, t, i)
    ensures forall x :: x in txns + [t] ==> Did(sb, x, i)
  {
    forall x | x in txns + [t]
      ensures Did(sb, x, i) == true
    {
      assert x in txns || x == t;
    }
  }

  lemma ChainMore(v0: Vol, v: Vol, off: nat, src: seq<Byte>, txns: seq<Txn>, k: nat, t: Txn)
    requires Chain(v0, v, off, src, txns, k) && t.before == v && t.at == k && ChunkOf(t, off, src)
    ensures Chain(v0, t.after, off, src, txns + [t], t.end)
  {
  }

  /** The number of chunks k bytes take. */
  function Chunks(k: nat): nat {
    if k == 0 then 0 else if k <= MAXCHUNK then 1 else 1 + Chunks(k - MAXCHUNK)
  }

  predicate Whole(k: nat) {
    k == 0 || (k >= MAXCHUNK && Whole(k - MAXCHUNK))
  }

  /** A chunk that starts where whole chunks end is one more. */
  lemma {:induction false} NextChunks(n: nat, k: nat)
    requires k < n && Whole(k)
    ensures var end := Min(n, k + MAXCHUNK); Chunks(end) == Chunks(k) + 1 && (end == n || Whole(end))
    decreases k
  {
    if k > 0 {
      NextChunks(n - MAXCHUNK, k - MAXCHUNK);
    }
  }

  lemma ReachedNothing(sb: Super, v: Vol, i: nat, off: nat, src: seq<Byte>)
    requires Writable(sb, v, i)
    ensures Reached(sb, v, v, i, off, src, 0)
  {
    if off <= v.ino[i].size {
      var c := Content(sb, v, i);
      assert Overwrite(c, off, src[..0]) == c;
    }
  }

  /** One iteration of filewrite: one transaction, from begin_op to end_op, for src[at..end]. */
  method WriteChunk(fs: FileSystem, i: nat, pos: nat, piece: seq<Byte>, ghost at: nat, ghost end: nat)
    returns (w: int, panicked: bool, ghost t: Txn)
    requires Writable(fs.sb, fs.V(), i) && pos < UINT && 0 < |piece| <= MAXCHUNK
    modifies fs
    ensures w < 0 && !panicked ==> fs.V() == old(fs.V()) && fs.logged == {}
    ensures w < 0 && !panicked ==> i < |fs.ino| && Refused(pos, |piece|, fs.ino[i].size)
    ensures w >= 0 && !panicked ==> t == Txn(old(fs.V()), fs.V(), at, end, pos, piece, t.lo, t.hi, fs.logged)
    ensures w >= 0 && !panicked ==> Did(fs.sb, t, i)
    ensures w >= 0 && !panicked ==> NoHoles(fs.sb, fs.V(), i) && DiskInode(fs.sb, fs.blk, i) == fs.ino[i]
    ensures panicked ==> Shaped(fs.sb, fs.V()) && FreeBlocks(fs.sb, fs.blk) == {}
    ensures panicked ==> Spans(pos, |piece|, t.lo, t.hi) && t.hi <= MAXFILE && fs.TooFew(old(fs.V()), i, t.lo, t.hi)
  {
    fs.logged := {}; // begin_op
    ghost var v := fs.V();
    ghost var lo, hi;
    w, panicked, lo, hi := fs.Writei(i, piece, pos);
    t := Txn(v, fs.V(), at, end, pos, piece, lo, hi, fs.logged);
  }

  /** writei turns down the chunk at k. */
  predicate Turned(fs: FileSystem, i: nat, off: nat, src: seq<Byte>, k: nat)
    reads fs
    requires k <= |src|
  {
    i < |fs.ino| && Refused(off + k, Min(|src|, k + MAXCHUNK) - k, fs.ino[i].size)
  }

  /** The chunk that starts at k: where the next one starts, unless this one is turned down. */
  method NextChunk(fs: FileSystem, i: nat, off: nat, src: seq<Byte>, k: nat, ghost v0: Vol)
    returns (k': nat, stop: bool, panicked: bool, ghost t: Txn)
    requires Writable(fs.sb, v0, i) && Reached(fs.sb, v0, fs.V(), i, off, src, k)
    requires k < |src| < 0x8000_0000 && off < UINT
    modifies fs
    ensures (panicked ==> stop) && (stop ==> k' == k) && (!stop ==> k < k' == Min(|src|, k + MAXCHUNK))
    ensures !panicked ==> Reached(fs.sb, v0, fs.V(), i, off, src, k')
    ensures stop && !panicked ==> fs.V() == old(fs.V()) && fs.logged == {} && Turned(fs, i, off, src, k)
    ensures !stop ==> t.before == old(fs.V()) && t.after == fs.V() && t.at == k && t.end == k' && t.log == fs.logged
    ensures !stop ==> ChunkOf(t, off, src) && Did(fs.sb, t, i)
    ensures panicked ==> Shaped(fs.sb, fs.V()) && FreeBlocks(fs.sb, fs.blk) == {}
  {
    var end, pos, w := Min(|src|, k + MAXCHUNK), off + k, 0;
    var piece := src[k..end];
    ghost var v := fs.V();
    w, panicked, t := WriteChunk(fs, i, pos, piece, k, end);
    stop := panicked || w < 0;
    k' := if stop then k else end;
    if !stop {
      ghost var v' := fs.V();
      ReachedMore(fs.sb, v0, v, v', i, off, src, k, end, pos, piece);
    }
  }

  /** filewrite's loop: the chunks up to the first that writei turns down, a transaction for each. */
  method WriteChunks(fs: FileSystem, i: nat, off: nat, src: seq<Byte>)
    returns (k: nat, panicked: bool, ghost txns: seq<Txn>)
    requires Writable(fs.sb, fs.V(), i) && |src| < 0x8000_0000 && off < UINT
    modifies fs
    ensures k <= |src| && |txns| == Chunks(k)
    ensures !panicked ==> Reached(fs.sb, old(fs.V()), fs.V(), i, off, src, k)
    ensures !panicked ==> Chain(old(fs.V()), fs.V(), off, src, txns, k)
    ensures forall t :: t in txns ==> Did(fs.sb, t, i)
    ensures !panicked && k < |src| ==> Turned(fs, i, off, src, k)
    ensures panicked ==> k < |src| && Shaped(fs.sb, fs.V()) && FreeBlocks(fs.sb, fs.blk) == {}
  {
    ghost var v0 := fs.V();
    ReachedNothing(fs.sb, v0, i, off, src);
    txns, panicked := [], false;
    k := 0;
    var stop := false;
    while k < |src| && !stop
      invariant k <= |src| && (!panicked ==> Reached(fs.sb, v0, fs.V(), i, off, src, k))
      invariant !panicked ==> Chain(v0, fs.V(), off, src, txns, k)
      invariant forall t :: t in txns ==> Did(fs.sb, t, i)
      invariant panicked ==> stop && Shaped(fs.sb, fs.V()) && FreeBlocks(fs.sb, fs.blk) == {}
      invariant stop ==> k < |src| && (!panicked ==> Turned(fs, i, off, src, k))
      invariant (k == |src| || Whole(k)) && |txns| == Chunks(k)
      decreases |src| - k, !stop
    {
      NextChunks(|src|, k);
      ghost var v, at, t := fs.V(), k, *;
      k, stop, panicked, t := NextChunk(fs, i, off, src, k, v0);
      if !stop {
        ChainMore(v0, v, off, src, txns, at, t);
        AppendDid(fs.sb, i, txns, t);
        txns := txns + [t];
      }
    }
  }

  /** filewrite on an inode opened for writing, from file offset off. It returns n or -1 and the new
      offset; `txns` are its transactions, one a chunk, each with exactly the blocks it logged. It stops short
      only where writei turns the next chunk down, and then the chunks before it are in the file. */
  method Filewrite(fs: FileSystem, i: nat, off: nat, src: seq<Byte>)
    returns (r: int, k: nat, panicked: bool, ghost txns: seq<Txn>)
    requires Writable(fs.sb, fs.V(), i) && |src| < 0x8000_0000 && off < UINT
    modifies fs
    ensures k <= |src| && |txns| == Chunks(k)
    ensures !panicked ==> Chain(old(fs.V()), fs.V(), off, src, txns, k)
    ensures forall t :: t in txns ==> Did(fs.sb, t, i) && |t.log| <= MAXOPBLOCKS
    ensures !panicked ==> Reached(fs.sb, old(fs.V()), fs.V(), i, off, src, k)
    ensures r == if k == |src| then |src| else -1
    ensures !panicked && k < |src| ==> Turned(fs, i, off, src, k)
    ensures panicked ==> Shaped(fs.sb, fs.V()) && FreeBlocks(fs.sb, fs.blk) == {}
  {
    k, panicked, txns := WriteChunks(fs, i, off, src);
    r := if k == |src| then |src| else -1;
  }
}
