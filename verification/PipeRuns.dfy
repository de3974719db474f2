/** Any number of readers and writers of one pipe: a step is what one call does while it holds p->lock. */
module PipeRuns {
  import opened Blocks
  import opened Pipe

  datatype Status = Active | Asleep | Returned(r: int)

  /** A call of pipewrite that has stored addr[..i]. */
  datatype WriteCall = WriteCall(addr: seq<Byte>, i: nat, st: Status)

  datatype ReadCall = ReadCall(n: nat, st: Status)

  /** wr: the bytes ever stored; src: the write call that stored each; out: what the reads returned, one
      after the other; dst: the read call that took each. */
  datatype Sys = Sys(wr: seq<Byte>, src: seq<nat>, out: seq<Byte>, dst: seq<nat>, readopen: bool, writeopen: bool,
                     writers: seq<WriteCall>, readers: seq<ReadCall>)

  datatype Step =
    | OpenWrite(addr: seq<Byte>)
    | OpenRead(n: nat)
    | Write(c: nat, killed: bool)
    | Read(c: nat, killed: bool)
    | Close(writable: bool)
    | WakeWriter(c: nat)  // by kill
    | WakeReader(c: nat)

  function Min(a: int, b: int): int {
    if a < b then a else b
  }

  /** The bytes a write can store before the pipe is full. */
  function Fits(s: Sys, c: nat): int
    requires c < |s.writers|
  {
    Min(|s.writers[c].addr| - s.writers[c].i, PIPESIZE - (|s.wr| - |s.out|))
  }

  /** Room for the bytes already stored, and for their readers. */
  predicate Shaped(s: Sys) {
    && |s.src| == |s.wr| && |s.dst| == |s.out| && |s.out| <= |s.wr| <= |s.out| + PIPESIZE
    && (forall c :: 0 <= c < |s.writers| ==> s.writers[c].i <= |s.writers[c].addr|)
  }

  predicate Enabled(s: Sys, step: Step)
    requires Shaped(s)
  {
    match step
    case Write(c, _) => c < |s.writers| && s.writers[c].st == Active
    case Read(c, _) => c < |s.readers| && s.readers[c].st == Active
    case WakeWriter(c) => c < |s.writers| && s.writers[c].st == Asleep
    case WakeReader(c) => c < |s.readers| && s.readers[c].st == Asleep
    case _ => true
  }

  function Woken(st: Status): Status {
    if st == Asleep then Active else st
  }

  function WakeReaders(readers: seq<ReadCall>): (r: seq<ReadCall>)
    ensures |r| == |readers| && forall c :: 0 <= c < |r| ==> r[c] == readers[c].(st := Woken(readers[c].st))
  {
    seq(|readers|, c requires 0 <= c < |readers| => readers[c].(st := Woken(readers[c].st)))
  }

  function WakeWriters(writers: seq<WriteCall>): (w: seq<WriteCall>)
    ensures |w| == |writers| && forall c :: 0 <= c < |w| ==> w[c] == writers[c].(st := Woken(writers[c].st))
  {
    seq(|writers|, c requires 0 <= c < |writers| => writers[c].(st := Woken(writers[c].st)))
  }

  /** pipewrite between two waits: it fills the pipe as far as it can, then is done, sleeps or fails. */
  function WriteNext(s: Sys, c: nat, killed: bool): Sys
    requires Shaped(s) && c < |s.writers|
  {
    var call, k := s.writers[c], Fits(s, c);
    var i := call.i + k;
    var failed := i < |call.addr| && (!s.readopen || killed);
    var st := if i == |call.addr| then Returned(|call.addr|) else if failed then Returned(-1) else Asleep;
    s.(wr := s.wr + call.addr[call.i..i], src := s.src + seq(k, _ => c),
      writers := s.writers[c := WriteCall(call.addr, i, st)],
       readers := if failed then s.readers else WakeReaders(s.readers))
  }

  function ReadNext(s: Sys, c: nat, killed: bool): Sys
    requires Shaped(s) && c < |s.readers|
  {
    if |s.wr| == |s.out| && s.writeopen then
      s.(readers := s.readers[c := s.readers[c].(st := if killed then Returned(-1) else Asleep)])
    else
      var m := Min(s.readers[c].n, |s.wr| - |s.out|);
      s.(out := s.out + s.wr[|s.out|..|s.out| + m], dst := s.dst + seq(m, _ => c),
         readers := s.readers[c := s.readers[c].(st := Returned(m))], writers := WakeWriters(s.writers))
  }

  function Next(s: Sys, step: Step): Sys
    requires Shaped(s) && Enabled(s, step)
  {
    match step
    case OpenWrite(addr) => s.(writers := s.writers + [WriteCall(addr, 0, Active)])
    case OpenRead(n) => s.(readers := s.readers + [ReadCall(n, Active)])
    case Write(c, killed) => WriteNext(s, c, killed)
    case Read(c, killed) => ReadNext(s, c, killed)
    case Close(writable) =>
      if writable then s.(writeopen := false, readers := WakeReaders(s.readers))
        else s.(readopen := false, writers := WakeWriters(s.writers))
    case WakeWriter(c) => s.(writers := s.writers[c := s.writers[c].(st := Active)])
    case WakeReader(c) => s.(readers := s.readers[c := s.readers[c].(st := Active)])
  }

  ghost predicate Run(steps: seq<Step>, s: Sys)
    decreases |steps|
  {
    if steps == [] then s == Sys([], [], [], [], true, true, [], [])
    else
      var rest, last := steps[..|steps| - 1], steps[|steps| - 1];
      exists m :: Run(rest, m) && Shaped(m) && Enabled(m, last) && s == Next(m, last)
  }

  // ---------- The invariant ----------

  /** The bytes among wr that call c stored, in order. */
  function Of(wr: seq<Byte>, src: seq<nat>, c: nat): seq<Byte>
    requires |src| == |wr|
  {
    if wr == [] then []
    else Of(wr[..|wr| - 1], src[..|wr| - 1], c) + if src[|wr| - 1] == c then [wr[|wr| - 1]] else []
  }

  ghost predicate Fifo(s: Sys) {
    Shaped(s) && s.out == s.wr[..|s.out|]
  }

  /** Each call's bytes are stored in the order of its buffer. */
  ghost predicate InOrder(s: Sys) {
    && Shaped(s) && (forall k :: 0 <= k < |s.src| ==> s.src[k] < |s.writers|)
    && forall c :: 0 <= c < |s.writers| ==> Of(s.wr, s.src, c) == s.writers[c].addr[..s.writers[c].i]
  }

  /** A writer sleeps only while the pipe is full and has a reader. */
  ghost predicate WritersAwake(s: Sys) {
    && Shaped(s)
    && forall c :: 0 <= c < |s.writers| && s.writers[c].st == Asleep ==> |s.wr| == |s.out| + PIPESIZE && s.readopen
  }

  /** A call of piperead has taken as many bytes as it has returned, at most those it asked for; one that has
      not returned, or has failed, none. */
  ghost predicate ReadsOk(s: Sys) {
    && Shaped(s) && (forall k :: 0 <= k < |s.dst| ==> s.dst[k] < |s.readers|)
    && forall c :: 0 <= c < |s.readers| ==> ReadOk(s, c)
  }

  ghost predicate ReadOk(s: Sys, c: nat)
    requires |s.dst| == |s.out| && c < |s.readers|
  {
    var st, taken := s.readers[c].st, |Of(s.out, s.dst, c)|;
    if st.Returned? then (st.r == -1 && taken == 0) || 0 <= st.r == taken <= s.readers[c].n else taken == 0
  }

  /** A call of pipewrite has returned its length exactly if it has stored everything, and -1 otherwise. */
  ghost predicate WritesOk(s: Sys) {
    && Shaped(s)
    && forall c :: 0 <= c < |s.writers| ==>
         match s.writers[c].st
         case Active => true
         case Asleep => s.writers[c].i < |s.writers[c].addr|
         case Returned(r) => r == if s.writers[c].i == |s.writers[c].addr| then |s.writers[c].addr| else -1
  }

  ghost predicate Inv(s: Sys) {
    Fifo(s) && InOrder(s) && WritersAwake(s) && ReadsOk(s) && WritesOk(s)
  }

  lemma {:induction false} OfMore(wr: seq<Byte>, src: seq<nat>, more: seq<Byte>, d: nat, c: nat)
    requires |src| == |wr|
    ensures Of(wr + more, src + seq(|more|, _ => d), c) == Of(wr, src, c) + if c == d then more else []
    decreases |more|
  {
    if more == [] {
      assert wr + more == wr && src + seq(|more|, _ => d) == src;
    } else {
      var init := more[..|more| - 1];
      OfMore(wr, src, init, d, c);
      var wr', src' := wr + more, src + seq(|more|, _ => d);
      assert wr'[..|wr'| - 1] == wr + init;
      assert src'[..|wr'| - 1] == src + seq(|init|, _ => d);
      assert more == init + [more[|more| - 1]];
    }
  }

  lemma {:induction false} OfNone(wr: seq<Byte>, src: seq<nat>, c: nat)
    requires |src| == |wr| && forall k :: 0 <= k < |src| ==> src[k] < c
    ensures Of(wr, src, c) == []
    decreases |wr|
  {
    if wr != [] {
      OfNone(wr[..|wr| - 1], src[..|wr| - 1], c);
    }
  }

  lemma WriteOrder(s: Sys, c: nat, killed: bool)
    requires InOrder(s) && c < |s.writers|
    ensures InOrder(WriteNext(s, c, killed))
  {
    var s', call, k := WriteNext(s, c, killed), s.writers[c], Fits(s, c);
    var more := call.addr[call.i..call.i + k];
    assert s'.src == s.src + seq(|more|, _ => c);
    assert call.addr[..call.i] + more == call.addr[..call.i + k];
    forall d | 0 <= d < |s.writers|
      ensures Of(s'.wr, s'.src, d) == s'.writers[d].addr[..s'.writers[d].i]
    {
      OfMore(s.wr, s.src, more, c, d);
    }
  }

  lemma WriteAwake(s: Sys, c: nat, killed: bool)
    requires WritersAwake(s) && c < |s.writers|
    ensures WritersAwake(WriteNext(s, c, killed))
  {
  }

  lemma WriteInv(s: Sys, c: nat, killed: bool)
    requires Inv(s) && c < |s.writers|
    ensures Inv(WriteNext(s, c, killed))
  {
    WriteOrder(s, c, killed);
    WriteAwake(s, c, killed);
    WriteReads(s, c, killed);
    var s' := WriteNext(s, c, killed);
    assert s'.wr[..|s.wr|] == s.wr;
  }

  lemma WriteReads(s: Sys, c: nat, killed: bool)
    requires ReadsOk(s) && WritesOk(s) && c < |s.writers|
    ensures ReadsOk(WriteNext(s, c, killed)) && WritesOk(WriteNext(s, c, killed))
  {
    WokenReads(s, WriteNext(s, c, killed));
  }

  /** Readers are at most woken, and no byte is taken. */
  lemma WokenReads(s: Sys, s': Sys)
    requires ReadsOk(s) && Shaped(s') && s'.out == s.out && s'.dst == s.dst && |s'.readers| == |s.readers|
    requires forall c :: 0 <= c < |s.readers| ==>
               s'.readers[c].n == s.readers[c].n
               && (s'.readers[c].st == s.readers[c].st || (s'.readers[c].st == Active && !s.readers[c].st.Returned?))
    ensures ReadsOk(s')
  {
    forall c | 0 <= c < |s'.readers|
      ensures ReadOk(s', c)
    {
      assert ReadOk(s, c);
    }
  }

  lemma ReadReads(s: Sys, c: nat, killed: bool)
    requires ReadsOk(s) && c < |s.readers| && s.readers[c].st == Active
    ensures ReadsOk(ReadNext(s, c, killed))
  {
    var s' := ReadNext(s, c, killed);
    var more := s'.out[|s.out|..];
    assert s'.out == s.out + more && s'.dst == s.dst + seq(|more|, _ => c);
    forall d | 0 <= d < |s'.readers|
      ensures ReadOk(s', d)
    {
      assert ReadOk(s, d);
      OfMore(s.out, s.dst, more, c, d);
    }
  }

  lemma ReadInv(s: Sys, c: nat, killed: bool)
    requires Inv(s) && c < |s.readers| && s.readers[c].st == Active
    ensures Inv(ReadNext(s, c, killed))
  {
    ReadReads(s, c, killed);
  }

  lemma OpenReadInv(s: Sys, n: nat)
    requires Inv(s)
    ensures Inv(s.(readers := s.readers + [ReadCall(n, Active)]))
  {
    var s' := s.(readers := s.readers + [ReadCall(n, Active)]);
    OfNone(s.out, s.dst, |s.readers|);
    forall d | 0 <= d < |s'.readers|
      ensures ReadOk(s', d)
    {
      assert d < |s.readers| ==> ReadOk(s, d);
    }
  }

  lemma WakeInv(s: Sys, step: Step)
    requires Inv(s) && Enabled(s, step) && (step.Close? || step.WakeWriter? || step.WakeReader?)
    ensures Inv(Next(s, step))
  {
    WokenReads(s, Next(s, step));
  }

  lemma OpenWriteOrder(s: Sys, addr: seq<Byte>)
    requires InOrder(s) && WritersAwake(s) && WritesOk(s)
    ensures var s' := s.(writers := s.writers + [WriteCall(addr, 0, Active)]);
            InOrder(s') && WritersAwake(s') && WritesOk(s')
  {
    OfNone(s.wr, s.src, |s.writers|);
  }

  lemma OpenWriteInv(s: Sys, addr: seq<Byte>)
    requires Inv(s)
    ensures Inv(s.(writers := s.writers + [WriteCall(addr, 0, Active)]))
  {
    OpenWriteOrder(s, addr);
    WokenReads(s, s.(writers := s.writers + [WriteCall(addr, 0, Active)]));
  }

  lemma StepInv(s: Sys, step: Step)
    requires Inv(s) && Enabled(s, step)
    ensures Inv(Next(s, step))
  {
    match step
    case Write(c, killed) => WriteInv(s, c, killed);
    case Read(c, killed) => ReadInv(s, c, killed);
    case OpenWrite(addr) => OpenWriteInv(s, addr);
    case OpenRead(n) => OpenReadInv(s, n);
    case _ => WakeInv(s, step);
  }

  lemma {:induction false} RunInv(steps: seq<Step>, s: Sys)
    requires Run(steps, s)
    ensures Inv(s)
    decreases |steps|
  {
    if steps != [] {
      var rest, last := steps[..|steps| - 1], steps[|steps| - 1];
      var m :| Run(rest, m) && Shaped(m) && Enabled(m, last) && s == Next(m, last);
      RunInv(rest, m);
      StepInv(m, last);
    }
  }

  /** In every interleaving of readers and writers, what has been read is a first part of what has been
      stored, in order, at most PIPESIZE bytes behind; and the bytes of each write are stored in order. */
  lemma PipeFifo(steps: seq<Step>, s: Sys)
    requires Run(steps, s)
    ensures |s.src| == |s.wr| && s.out <= s.wr && |s.wr| <= |s.out| + PIPESIZE
    ensures forall c :: 0 <= c < |s.writers| ==>
              s.writers[c].addr[..Min(s.writers[c].i, |s.writers[c].addr|)] == Of(s.wr, s.src, c)
  {
    RunInv(steps, s);
  }

  /** In every interleaving a writer sleeps only while the pipe is full and its read end open. */
  lemma WriterSleepsOnFull(steps: seq<Step>, s: Sys, c: nat)
    requires Run(steps, s) && c < |s.writers| && s.writers[c].st == Asleep
    ensures |s.wr| == |s.out| + PIPESIZE && s.readopen
  {
    RunInv(steps, s);
  }

  // ---------- What the calls return ----------

  /** In every interleaving a read that has returned r >= 0 has taken r bytes, at most those it asked for, and
      one that has failed or not returned none; a write has returned its length exactly if it has stored
      everything, and a write that sleeps, or has returned -1, has not. */
  lemma CountsReturned(steps: seq<Step>, s: Sys)
    requires Run(steps, s)
    ensures |s.dst| == |s.out| && |s.src| == |s.wr|
    ensures forall c: nat :: c < |s.readers| ==>
              var st, taken := s.readers[c].st, |Of(s.out, s.dst, c)|;
              if st.Returned? && st.r != -1 then st.r == taken <= s.readers[c].n else taken == 0
    ensures forall c: nat :: c < |s.writers| && s.writers[c].st != Active ==>
              var call := s.writers[c];
              && (call.st == Returned(|call.addr|) <==> Of(s.wr, s.src, c) == call.addr)
              && (call.st.Returned? ==> call.st.r == |call.addr| || call.st.r == -1)
  {
    RunInv(steps, s);
    forall c: nat | c < |s.readers|
      ensures var st, taken := s.readers[c].st, |Of(s.out, s.dst, c)|;
              if st.Returned? && st.r != -1 then st.r == taken <= s.readers[c].n else taken == 0
    {
      assert ReadOk(s, c);
    }
    forall c: nat | c < |s.writers| && s.writers[c].st != Active
      ensures var call := s.writers[c];
              && (call.st == Returned(|call.addr|) <==> Of(s.wr, s.src, c) == call.addr)
              && (call.st.Returned? ==> call.st.r == |call.addr| || call.st.r == -1)
    {
      var call := s.writers[c];
      assert Of(s.wr, s.src, c) == call.addr[..call.i];
    }
  }

  predicate IsEmpty(s: Sys) {
    |s.wr| == |s.out|
  }

  predicate IsFull(s: Sys) {
    |s.wr| == |s.out| + PIPESIZE
  }

  /** What a read of n bytes may return in state m: -1 exactly for a killed process and an empty pipe that can
      still be written; 0, if it asked for something, exactly at the end of the file; else all it asked for
      or all there is; and nothing while the pipe is empty and can still be written. */
  ghost predicate ReadAnswer(m: Sys, n: nat, killed: bool, r: int) {
    && (r == -1 <==> IsEmpty(m) && m.writeopen && killed)
    && (r != -1 ==> !(IsEmpty(m) && m.writeopen))
    && (n > 0 && r != -1 ==> (r == 0 <==> IsEmpty(m) && !m.writeopen))
    && (r != -1 ==> 0 <= r <= n && r <= |m.wr| - |m.out| && (r == n || r == |m.wr| - |m.out|))
  }

  /** At step k of the run the read call c returned r. */
  ghost predicate ReadAt(steps: seq<Step>, k: nat, c: nat, r: int) {
    && k < |steps| && steps[k].Read? && steps[k].c == c
    && exists m :: Run(steps[..k], m) && c < |m.readers| && m.readers[c].st == Active
                   && ReadAnswer(m, m.readers[c].n, steps[k].killed, r)
  }

  lemma ReadSays(m: Sys, c: nat, killed: bool)
    requires Shaped(m) && c < |m.readers|
    ensures var st := ReadNext(m, c, killed).readers[c].st;
            if st.Returned? then ReadAnswer(m, m.readers[c].n, killed, st.r)
            else st == Asleep && IsEmpty(m) && m.writeopen && !killed
  {
  }

  lemma ReaderStays(m: Sys, step: Step, c: nat)
    requires Shaped(m) && Enabled(m, step) && !(step.Read? && step.c == c)
    requires c < |Next(m, step).readers| && Next(m, step).readers[c].st.Returned?
    ensures c < |m.readers| && m.readers[c].st == Next(m, step).readers[c].st
  {
  }

  lemma ReadLast(m: Sys, step: Step, s: Sys, c: nat)
    requires Shaped(m) && Enabled(m, step) && s == Next(m, step) && c < |s.readers| && s.readers[c].st.Returned?
    ensures c < |m.readers|
    ensures if step.Read? && step.c == c then
              m.readers[c].st == Active && ReadAnswer(m, m.readers[c].n, step.killed, s.readers[c].st.r)
            else m.readers[c].st == s.readers[c].st
  {
    if step.Read? && step.c == c {
      ReadSays(m, c, step.killed);
    } else {
      ReaderStays(m, step, c);
    }
  }

  lemma ReadMore(steps: seq<Step>, rest: seq<Step>, k: nat, c: nat, r: int)
    requires ReadAt(rest, k, c, r) && rest <= steps
    ensures ReadAt(steps, k, c, r)
  {
    assert steps[..k] == rest[..k];
  }

  lemma ReadHere(steps: seq<Step>, m: Sys, k: nat, c: nat, r: int)
    requires k + 1 == |steps| && steps[k].Read? && steps[k].c == c && Run(steps[..k], m)
    requires c < |m.readers| && m.readers[c].st == Active && ReadAnswer(m, m.readers[c].n, steps[k].killed, r)
    ensures ReadAt(steps, k, c, r)
  {
  }

  lemma WriterStays(m: Sys, step: Step, c: nat)
    requires Shaped(m) && Enabled(m, step) && !(step.Write? && step.c == c)
    requires c < |Next(m, step).writers| && Next(m, step).writers[c].st.Returned?
    ensures c < |m.writers| && m.writers[c].st == Next(m, step).writers[c].st
  {
  }

  lemma WriteSays(m: Sys, step: Step, s: Sys, c: nat)
    requires Shaped(m) && Enabled(m, step) && s == Next(m, step) && c < |s.writers| && s.writers[c].st == Returned(-1)
    ensures if step.Write? && step.c == c then IsFull(s) && (!m.readopen || step.killed)
            else c < |m.writers| && m.writers[c].st == Returned(-1)
  {
    if !(step.Write? && step.c == c) {
      WriterStays(m, step, c);
    }
  }

  /** In every interleaving, what a read has returned is right for the state in which it returned. */
  lemma {:induction false} ReadReturned(steps: seq<Step>, s: Sys, c: nat) returns (k: nat)
    requires Run(steps, s) && c < |s.readers| && s.readers[c].st.Returned?
    ensures ReadAt(steps, k, c, s.readers[c].st.r)
    decreases |steps|
  {
    var rest, last := steps[..|steps| - 1], steps[|steps| - 1];
    var m :| Run(rest, m) && Shaped(m) && Enabled(m, last) && s == Next(m, last);
    ReadLast(m, last, s, c);
    if last.Read? && last.c == c {
      k := |rest|;
      ReadHere(steps, m, k, c, s.readers[c].st.r);
    } else {
      k := ReadReturned(rest, m, c);
      ReadMore(steps, rest, k, c, s.readers[c].st.r);
    }
  }

  /** At step k of the run the write call c gave up: the pipe was full, and its read end closed or the process
      killed. */
  ghost predicate GaveUpAt(steps: seq<Step>, k: nat, c: nat) {
    && k < |steps| && steps[k].Write? && steps[k].c == c
    && exists m, s :: && Run(steps[..k], m) && Run(steps[..k + 1], s) && IsFull(s)
                      && (!m.readopen || steps[k].killed)
  }

  lemma GaveUpMore(steps: seq<Step>, rest: seq<Step>, k: nat, c: nat)
    requires GaveUpAt(rest, k, c) && rest <= steps
    ensures GaveUpAt(steps, k, c)
  {
    assert steps[..k] == rest[..k] && steps[..k + 1] == rest[..k + 1];
  }

  lemma GaveUpHere(steps: seq<Step>, m: Sys, s: Sys, k: nat, c: nat)
    requires k + 1 == |steps| && steps[k].Write? && steps[k].c == c && Run(steps[..k], m) && Run(steps, s)
    requires IsFull(s) && (!m.readopen || steps[k].killed)
    ensures GaveUpAt(steps, k, c)
  {
    assert steps[..k + 1] == steps;
  }

  /** And a write has returned -1 only on giving up. */
  lemma {:induction false} WriteGaveUp(steps: seq<Step>, s: Sys, c: nat) returns (k: nat)
    requires Run(steps, s) && c < |s.writers| && s.writers[c].st == Returned(-1)
    ensures GaveUpAt(steps, k, c)
    decreases |steps|
  {
    var rest, last := steps[..|steps| - 1], steps[|steps| - 1];
    var m :| Run(rest, m) && Shaped(m) && Enabled(m, last) && s == Next(m, last);
    WriteSays(m, last, s, c);
    if last.Write? && last.c == c {
      k := |rest|;
      GaveUpHere(steps, m, s, k, c);
    } else {
      k := WriteGaveUp(rest, m, c);
      GaveUpMore(steps, rest, k, c);
    }
  }

  // ---------- Readers that sleep on a pipe with bytes in it ----------

  /** A reader is asleep although there is something to read. */
  ghost predicate ReaderMissed(s: Sys) {
    exists c :: 0 <= c < |s.readers| && s.readers[c].st == Asleep && (|s.wr| > |s.out| || !s.writeopen)
  }

  /** The one step that can leave a reader asleep: a write that has stored bytes, finds the pipe full and
      gives up, because its process is killed or the read end is closed, returns without a wakeup. */
  ghost predicate GivesUp(s: Sys, step: Step)
    requires Shaped(s)
  {
    && step.Write? && step.c < |s.writers| && Fits(s, step.c) > 0
    && s.writers[step.c].i + Fits(s, step.c) < |s.writers[step.c].addr| && (!s.readopen || step.killed)
    && exists c :: 0 <= c < |s.readers| && s.readers[c].st == Asleep
  }

  lemma MissedIff(s: Sys, step: Step)
    requires Inv(s) && Enabled(s, step) && !ReaderMissed(s)
    ensures ReaderMissed(Next(s, step)) <==> GivesUp(s, step)
  {
    var s' := Next(s, step);
    if c :| 0 <= c < |s.readers| && s.readers[c].st == Asleep {
      assert |s.wr| == |s.out| && s.writeopen;
      if GivesUp(s, step) {
        assert s'.readers[c].st == Asleep;
      }
    }
    if c :| 0 <= c < |s'.readers| && s'.readers[c].st == Asleep && (|s'.wr| > |s'.out| || !s'.writeopen) {
      assert c < |s.readers| && s.readers[c].st == Asleep;
    }
  }

  /** A run in which no write gives up so; each step is judged in the state it is taken in. */
  ghost predicate PatientRun(steps: seq<Step>, s: Sys)
    decreases |steps|
  {
    if steps == [] then s == Sys([], [], [], [], true, true, [], [])
    else
      var rest, last := steps[..|steps| - 1], steps[|steps| - 1];
      exists m :: PatientRun(rest, m) && Shaped(m) && Enabled(m, last) && !GivesUp(m, last) && s == Next(m, last)
  }

  /** While no write gives up so, a reader sleeps only while the pipe is empty and its write end open. */
  lemma {:induction false} ReaderSleepsOnEmpty(steps: seq<Step>, s: Sys)
    requires PatientRun(steps, s)
    ensures Inv(s) && !ReaderMissed(s)
    decreases |steps|
  {
    if steps != [] {
      var rest, last := steps[..|steps| - 1], steps[|steps| - 1];
      var m :| PatientRun(rest, m) && Shaped(m) && Enabled(m, last) && !GivesUp(m, last) && s == Next(m, last);
      ReaderSleepsOnEmpty(rest, m);
      StepInv(m, last);
      MissedIff(m, last);
    }
  }

  lemma RunMore(steps: seq<Step>, m: Sys, step: Step)
    requires Run(steps, m) && Shaped(m) && Enabled(m, step)
    ensures Run(steps + [step], Next(m, step))
  {
    assert (steps + [step])[..|steps + [step]| - 1] == steps;
  }

  /** A run that leaves a reader asleep on a full pipe: it waits for a byte, and a killed process writes
      one byte more than the pipe holds. */
  lemma ReaderLost() returns (steps: seq<Step>, s: Sys)
    ensures Run(steps, s) && |s.readers| == 1 && s.readers[0].st == Asleep && |s.wr| == |s.out| + PIPESIZE
    ensures s.writeopen
  {
    var s0 := Sys([], [], [], [], true, true, [], []);
    var addr := seq<Byte>(PIPESIZE + 1, _ => 0);
    RunMore([], s0, OpenRead(1));
    var s1 := Next(s0, OpenRead(1));
    RunMore([OpenRead(1)], s1, Read(0, false));
    var s2 := Next(s1, Read(0, false));
    RunMore([OpenRead(1)] + [Read(0, false)], s2, OpenWrite(addr));
    var s3 := Next(s2, OpenWrite(addr));
    RunMore([OpenRead(1)] + [Read(0, false)] + [OpenWrite(addr)], s3, Write(0, true));
    steps, s := [OpenRead(1)] + [Read(0, false)] + [OpenWrite(addr)] + [Write(0, true)], Next(s3, Write(0, true));
  }

  // ---------- The pipe and its calls ----------

  /** The pipe of pipe.c with the calls that are under way: each method is what one of them does while it
      holds p->lock, and takes the step of the machine. */
  class Calls {
    const p: Pipe
    var writers: seq<WriteCall>
    var readers: seq<ReadCall>
    ghost var src: seq<nat>
    ghost var dst: seq<nat>
    ghost var steps: seq<Step>

    ghost function S(): Sys
      reads this, p
    {
      Sys(p.wr, src, p.rd, dst, p.readopen, p.writeopen, writers, readers)
    }

    ghost predicate Valid()
      reads this, p, p.data
    {
      p.Valid() && Shaped(S()) && Run(steps, S())
    }

    constructor ()
      ensures Valid() && steps == [] && fresh(p) && fresh(p.data)
    {
      p := new Pipe();
      writers, readers := [], [];
      src, dst, steps := [], [], [];
    }

    /** A call of pipewrite begins. */
    method OpenWrite(addr: seq<Byte>)
      requires Valid()
      modifies `writers, `steps
      ensures Valid() && S() == Next(old(S()), Step.OpenWrite(addr)) && steps == old(steps) + [Step.OpenWrite(addr)]
    {
      RunStep(steps, S(), Step.OpenWrite(addr));
      writers := writers + [WriteCall(addr, 0, Active)];
      steps := steps + [Step.OpenWrite(addr)];
    }

    method OpenRead(n: nat)
      requires Valid()
      modifies `readers, `steps
      ensures Valid() && S() == Next(old(S()), Step.OpenRead(n)) && steps == old(steps) + [Step.OpenRead(n)]
    {
      RunStep(steps, S(), Step.OpenRead(n));
      readers := readers + [ReadCall(n, Active)];
      steps := steps + [Step.OpenRead(n)];
    }

    /** pipewrite up to its next sleep or its end. */
    method DoWrite(c: nat, killed: bool)
      requires p.Valid() && Shaped(S()) && Enabled(S(), Step.Write(c, killed))
      modifies `writers, `readers, `src, p, p.data
      ensures p.Valid() && S() == Next(old(S()), Step.Write(c, killed))
    {
      ghost var s := S();
      var call := writers[c];
      var i, out := p.Write(call.addr, call.i, killed);
      src := src + seq(i - call.i, _ => c);
      var st := if out == Done then Returned(|call.addr|) else if out == Fail then Returned(-1) else Asleep;
      writers := writers[c := WriteCall(call.addr, i, st)];
      if out != Fail {
        readers := WakeReaders(readers); // wakeup(&p->nread)
      }
      WriteIs(s, S(), c, killed, i, out);
    }

    method Write(c: nat, killed: bool)
      requires Valid() && Enabled(S(), Step.Write(c, killed))
      modifies this, p, p.data
      ensures Valid() && S() == Next(old(S()), Step.Write(c, killed)) && steps == old(steps) + [Step.Write(c, killed)]
    {
      RunStep(steps, S(), Step.Write(c, killed));
      DoWrite(c, killed);
      steps := steps + [Step.Write(c, killed)];
    }

    /** piperead up to its next sleep or its end; `addr` are the bytes it delivers. */
    method DoRead(c: nat, killed: bool) returns (addr: seq<Byte>)
      requires p.Valid() && Shaped(S()) && Enabled(S(), Step.Read(c, killed))
      modifies `writers, `readers, `dst, p
      ensures p.Valid() && S() == Next(old(S()), Step.Read(c, killed)) && p.rd == old(p.rd) + addr
    {
      var out;
      out, addr := p.Read(readers[c].n, killed);
      var st := if out == Done then Returned(|addr|) else if out == Fail then Returned(-1) else Asleep;
      readers := readers[c := readers[c].(st := st)];
      dst := dst + seq(|addr|, _ => c);
      if out == Done {
        writers := WakeWriters(writers); // wakeup(&p->nwrite)
      }
    }

    method Read(c: nat, killed: bool) returns (addr: seq<Byte>)
      requires Valid() && Enabled(S(), Step.Read(c, killed))
      modifies this, p
      ensures Valid() && S() == Next(old(S()), Step.Read(c, killed)) && steps == old(steps) + [Step.Read(c, killed)]
      ensures p.rd == old(p.rd) + addr
      ensures readers[c].st.Returned? && readers[c].st.r != -1 ==> readers[c].st.r == |addr|
    {
      RunStep(steps, S(), Step.Read(c, killed));
      addr := DoRead(c, killed);
      steps := steps + [Step.Read(c, killed)];
    }

    /** pipeclose. */
    method Close(writable: bool) returns (freed: bool)
      requires Valid()
      modifies this, p
      ensures Valid() && S() == Next(old(S()), Step.Close(writable)) && steps == old(steps) + [Step.Close(writable)]
      ensures freed <==> !p.readopen && !p.writeopen
    {
      ghost var s := S();
      RunStep(steps, s, Step.Close(writable));
      freed := p.Close(writable);
      if writable {
        readers := WakeReaders(readers);
      } else {
        writers := WakeWriters(writers);
      }
      steps := steps + [Step.Close(writable)];
    }

    /** kill wakes a sleeping call. */
    method Kill(c: nat, writer: bool)
      requires Valid() && Enabled(S(), if writer then WakeWriter(c) else WakeReader(c))
      modifies this
      ensures Valid() && S() == Next(old(S()), if writer then WakeWriter(c) else WakeReader(c))
      ensures steps == old(steps) + [if writer then WakeWriter(c) else WakeReader(c)]
    {
      ghost var step := if writer then WakeWriter(c) else WakeReader(c);
      RunStep(steps, S(), step);
      if writer {
        writers := writers[c := writers[c].(st := Active)];
      } else {
        readers := readers[c := readers[c].(st := Active)];
      }
      steps := steps + [step];
    }
  }

  lemma RunStep(steps: seq<Step>, s: Sys, step: Step)
    requires Run(steps, s)
    ensures Shaped(s) && (Enabled(s, step) ==> Run(steps + [step], Next(s, step)) && Shaped(Next(s, step)))
  {
    RunInv(steps, s);
    if Enabled(s, step) {
      RunMore(steps, s, step);
      StepInv(s, step);
    }
  }

  /** What pipewrite did to the ring is the step. */
  lemma WriteIs(s: Sys, s': Sys, c: nat, killed: bool, i: nat, out: Outcome)
    requires Shaped(s) && Enabled(s, Step.Write(c, killed)) && s.writers[c].i <= i <= |s.writers[c].addr|
    requires |s'.out| <= |s'.wr| <= |s'.out| + PIPESIZE
    requires s'.wr == s.wr + s.writers[c].addr[s.writers[c].i..i] && s'.src == s.src + seq(i - s.writers[c].i, _ => c)
    requires out == Done <==> i == |s.writers[c].addr|
    requires out != Done ==> |s'.wr| == |s'.out| + PIPESIZE && (out == Fail <==> !s.readopen || killed)
    requires var n := |s.writers[c].addr|;
             var st := if out == Done then Returned(n) else if out == Fail then Returned(-1) else Asleep;
             && s' == s.(wr := s'.wr, src := s'.src, writers := s.writers[c := WriteCall(s.writers[c].addr, i, st)],
                         readers := if out == Fail then s.readers else WakeReaders(s.readers))
    ensures s' == Next(s, Step.Write(c, killed))
  {
    assert i - s.writers[c].i == Fits(s, c);
  }
}
