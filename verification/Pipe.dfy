/** pipe.c: a ring buffer whose counters are 32-bit and wrap, between sleeps. */
module Pipe {
  import opened Params
  import opened Blocks

  const PIPESIZE: nat := 512

  /** Why a call lets go of the lock: it is done, it sleeps, or it fails. */
  datatype Outcome = Done | Sleep | Fail

  /** wr are all the bytes ever stored and rd those ever read, in order. The counters are their lengths
      modulo 2^32, and the bytes in between are in the buffer. */
  ghost predicate Holds(data: seq<Byte>, nread: nat, nwrite: nat, wr: seq<Byte>, rd: seq<Byte>) {
    && |data| == PIPESIZE && nwrite == |wr| % UINT && nread == |rd| % UINT
    && |rd| <= |wr| <= |rd| + PIPESIZE && rd == wr[..|rd|]
    && forall k :: |rd| <= k < |wr| ==> data[k % PIPESIZE] == wr[k]
  }

  /** A 32-bit counter goes on as if it had not wrapped. */
  lemma Wraps(r: nat, d: nat)
    requires d <= PIPESIZE
    ensures (r % UINT + d) % UINT == (r + d) % UINT
  {
  }

  /** Two counters at most PIPESIZE apart are told apart although they wrap. */
  lemma Apart(r: nat, d: nat, e: nat)
    requires d <= PIPESIZE && e <= PIPESIZE
    ensures (r + d) % UINT == (r + e) % UINT <==> d == e
  {
  }

  /** PIPESIZE divides 2^32, so slots are found by the wrapped counter too. */
  lemma Slot(x: nat)
    ensures x % UINT % PIPESIZE == x % PIPESIZE
  {
    var q := x / UINT;
    assert x == q * UINT + x % UINT;
    assert q * UINT == (q * 8388608) * PIPESIZE;
    AddMultiple(x % UINT, q * 8388608);
  }

  lemma {:induction false} AddMultiple(x: nat, q: nat)
    ensures (x + q * PIPESIZE) % PIPESIZE == x % PIPESIZE
    decreases q
  {
    if q > 0 {
      AddMultiple(x, q - 1);
      assert (x + q * PIPESIZE) == (x + (q - 1) * PIPESIZE) + PIPESIZE;
    }
  }

  /** The tests for a full and for an empty pipe. */
  lemma Tests(data: seq<Byte>, nread: nat, nwrite: nat, wr: seq<Byte>, rd: seq<Byte>)
    requires Holds(data, nread, nwrite, wr, rd)
    ensures nwrite == (nread + PIPESIZE) % UINT <==> |wr| == |rd| + PIPESIZE
    ensures nwrite == nread <==> |wr| == |rd|
  {
    Wraps(|rd|, PIPESIZE);
    Apart(|rd|, |wr| - |rd|, PIPESIZE);
    Apart(|rd|, |wr| - |rd|, 0);
  }

  /** Two indices less than PIPESIZE apart have different slots. */
  lemma OtherSlot(k: nat, w: nat)
    requires k < w < k + PIPESIZE
    ensures k % PIPESIZE != w % PIPESIZE
  {
  }

  lemma Stored(data: seq<Byte>, nread: nat, nwrite: nat, wr: seq<Byte>, rd: seq<Byte>, x: Byte)
    requires Holds(data, nread, nwrite, wr, rd) && |wr| < |rd| + PIPESIZE
    ensures Holds(data[nwrite % PIPESIZE := x], nread, (nwrite + 1) % UINT, wr + [x], rd)
  {
    Wraps(|wr|, 1);
    Slot(|wr|);
    var wr', data' := wr + [x], data[nwrite % PIPESIZE := x];
    forall k | |rd| <= k < |wr'|
      ensures data'[k % PIPESIZE] == wr'[k]
    {
      if k < |wr| {
        OtherSlot(k, |wr|);
      }
    }
  }

  lemma Taken(data: seq<Byte>, nread: nat, nwrite: nat, wr: seq<Byte>, rd: seq<Byte>)
    requires Holds(data, nread, nwrite, wr, rd) && |rd| < |wr|
    ensures data[nread % PIPESIZE] == wr[|rd|] && Holds(data, (nread + 1) % UINT, nwrite, wr, rd + [wr[|rd|]])
  {
    Wraps(|rd|, 1);
    Slot(|rd|);
  }

  /** p->lock is held from one end of each method to the other. */
  class Pipe {
    const data: array<Byte>
    var nread: nat
    var nwrite: nat
    var readopen: bool
    var writeopen: bool
    ghost var wr: seq<Byte>
    ghost var rd: seq<Byte>

    ghost predicate Valid()
      reads this, data
    {
      data.Length == PIPESIZE && Holds(data[..], nread, nwrite, wr, rd)
    }

    constructor ()
      ensures Valid() && wr == [] && readopen && writeopen && fresh(data)
    {
      data := new Byte[PIPESIZE](_ => 0);
      nread, nwrite, readopen, writeopen := 0, 0, true, true;
      wr, rd := [], [];
    }

    /** pipewrite, from its start or from its return from sleep with addr[..start] stored, to the next
        release of the lock. */
    method Write(addr: seq<Byte>, start: nat, killed: bool) returns (i: nat, out: Outcome)
      requires Valid() && start <= |addr|
      modifies this`nwrite, this`wr, data
      ensures Valid() && start <= i <= |addr|
      ensures wr == old(wr) + addr[start..i]
      ensures out == Done <==> i == |addr|
      ensures out != Done ==> |wr| == |rd| + PIPESIZE && (out == Fail <==> !readopen || killed)
    {
      i := start;
      while i < |addr|
        invariant Valid() && start <= i <= |addr| && wr == old(wr) + addr[start..i]
      {
        Tests(data[..], nread, nwrite, wr, rd);
        if nwrite == (nread + PIPESIZE) % UINT {
          out := if !readopen || killed then Fail else Sleep;
          return;
        }
        Stored(data[..], nread, nwrite, wr, rd, addr[i]);
        data[nwrite % PIPESIZE] := addr[i];
        nwrite := (nwrite + 1) % UINT;
        wr := wr + [addr[i]];
        i := i + 1;
      }
      out := Done;
    }

    /** piperead's wait: whether it sleeps, fails or goes on to copy. */
    method Await(killed: bool) returns (out: Outcome)
      requires Valid()
      ensures out != Done <==> |rd| == |wr| && writeopen
      ensures out != Done ==> (out == Fail <==> killed)
    {
      Tests(data[..], nread, nwrite, wr, rd);
      if nread == nwrite && writeopen {
        out := if killed then Fail else Sleep;
      } else {
        out := Done;
      }
    }

    /** piperead's copy: the bytes stored longest ago, as many as there are and fit. */
    method Copy(n: nat) returns (addr: seq<Byte>)
      requires Valid()
      modifies this`nread, this`rd
      ensures Valid() && rd == old(rd) + addr
      ensures |addr| == if n < |wr| - |old(rd)| then n else |wr| - |old(rd)|
      ensures addr == wr[|old(rd)|..|old(rd)| + |addr|]
    {
      addr := [];
      while |addr| < n
        invariant Valid() && rd == old(rd) + addr && |addr| <= n && |rd| <= |wr|
        decreases n - |addr|
      {
        Tests(data[..], nread, nwrite, wr, rd);
        if nread == nwrite {
          break;
        }
        Taken(data[..], nread, nwrite, wr, rd);
        addr := addr + [data[nread % PIPESIZE]];
        rd := rd + [data[nread % PIPESIZE]];
        nread := (nread + 1) % UINT;
      }
    }

    /** piperead, from its start or from its return from sleep, to the next release of the lock. A read of at
        least one byte returns 0 only if the pipe is empty and its write end closed. */
    method Read(n: nat, killed: bool) returns (out: Outcome, addr: seq<Byte>)
      requires Valid()
      modifies this`nread, this`rd
      ensures Valid() && rd == old(rd) + addr && addr == wr[|old(rd)|..|old(rd)| + |addr|]
      ensures out != Done <==> |old(rd)| == |wr| && writeopen
      ensures out != Done ==> addr == [] && (out == Fail <==> killed)
      ensures out == Done ==> |addr| == if n < |wr| - |old(rd)| then n else |wr| - |old(rd)|
    {
      addr := [];
      out := Await(killed);
      if out == Done {
        addr := Copy(n);
      }
    }

    /** pipeclose; the result says whether the pipe is freed. */
    method Close(writable: bool) returns (freed: bool)
      requires Valid()
      modifies `readopen, `writeopen
      ensures Valid() && writeopen == (old(writeopen) && !writable) && readopen == (old(readopen) && writable)
      ensures freed <==> !readopen && !writeopen
    {
      if writable {
        writeopen := false;
      } else {
        readopen := false;
      }
      freed := !readopen && !writeopen;
    }
  }
}
