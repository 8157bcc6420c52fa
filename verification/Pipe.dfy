/** The pipe of pipe.c: a ring of 512 bytes with 32-bit counters, used by any number of readers and
    writers. The lock is held from entry, or waking, to return, or sleeping: such a stretch is one
    step here. */
module PipeSpec {
  import opened Words

  const PIPESIZE := 512

  datatype Pipe = Pipe(data: seq<byte>, nread: word, nwrite: word, readopen: bool, writeopen: bool)

  function Next(n: word): word { (n + 1) % TWO32 }

  predicate IsFull(p: Pipe) { p.nwrite == (p.nread + PIPESIZE) % TWO32 }
  predicate IsEmpty(p: Pipe) { p.nread == p.nwrite }

  function Put(p: Pipe, b: byte): Pipe
    requires |p.data| == PIPESIZE
  { p.(data := p.data[p.nwrite % PIPESIZE := b], nwrite := Next(p.nwrite)) }

  function Take(p: Pipe): Pipe { p.(nread := Next(p.nread)) }

  // A stretch of pipewrite: bytes of src go in until there are no more or the pipe is full.
  function Fill(p: Pipe, src: seq<byte>): (r: (Pipe, nat))
    requires |p.data| == PIPESIZE
    ensures |r.0.data| == PIPESIZE && r.1 <= |src|
    decreases |src|
  {
    if src == [] || IsFull(p) then (p, 0)
    else
      var (q, k) := Fill(Put(p, src[0]), src[1..]);
      (q, k + 1)
  }

  // A stretch of piperead: up to n bytes come out until the pipe is empty.
  function Drain(p: Pipe, n: nat): (r: (Pipe, seq<byte>))
    requires |p.data| == PIPESIZE
    ensures |r.0.data| == PIPESIZE && |r.1| <= n
    decreases n
  {
    if n == 0 || IsEmpty(p) then (p, [])
    else
      var (q, s) := Drain(Take(p), n - 1);
      (q, [p.data[p.nread % PIPESIZE]] + s)
  }

  // ---- the pipe as a queue ----

  // Of the bytes input so far, the first out have been taken, and the rest are in the ring.
  predicate Holds(p: Pipe, input: seq<byte>, out: nat) {
    && |p.data| == PIPESIZE && out <= |input| <= out + PIPESIZE
    && p.nread == out % TWO32 && p.nwrite == |input| % TWO32
    && forall k :: out <= k < |input| ==> p.data[k % PIPESIZE] == input[k]
  }

  // The counters tell full from empty from neither, wrap around or not.
  lemma CountersTell(p: Pipe, input: seq<byte>, out: nat)
    requires Holds(p, input, out)
    ensures IsFull(p) <==> |input| == out + PIPESIZE
    ensures IsEmpty(p) <==> |input| == out
  {
    Apart(out, |input| - out, 0);
    Apart(out, |input| - out, PIPESIZE);
  }

  // Two numbers a little above n differ also modulo 2^32.
  lemma Apart(n: nat, a: nat, b: nat)
    requires a <= PIPESIZE && b <= PIPESIZE
    ensures (n + a) % TWO32 == (n % TWO32 + b) % TWO32 <==> a == b
  {
    var q, r := n / TWO32, n % TWO32;
    assert n == TWO32 * q + r;
    ModAdd(q, r + a);
    assert (n + a) % TWO32 == (r + a) % TWO32;
  }

  lemma ModAdd(q: nat, r: nat)
    ensures (TWO32 * q + r) % TWO32 == r % TWO32
  {}

  lemma ModNext(n: nat)
    ensures (n + 1) % TWO32 == (n % TWO32 + 1) % TWO32
  {
    var q, r := n / TWO32, n % TWO32;
    assert n == TWO32 * q + r;
    ModAdd(q, r + 1);
  }

  // The size of the ring divides 2^32, so wrapping does not move a byte's place.
  lemma ModSlot(n: nat)
    ensures n % TWO32 % PIPESIZE == n % PIPESIZE
  {
    var q, r := n / TWO32, n % TWO32;
    assert n == PIPESIZE * (0x80_0000 * q) + r;
    SlotAdd(0x80_0000 * q, r);
  }

  lemma SlotAdd(m: nat, r: nat)
    ensures (PIPESIZE * m + r) % PIPESIZE == r % PIPESIZE
  {}

  lemma PutHolds(p: Pipe, input: seq<byte>, out: nat, b: byte)
    requires Holds(p, input, out) && !IsFull(p)
    ensures Holds(Put(p, b), input + [b], out)
  {
    CountersTell(p, input, out);
    ModNext(|input|);
    ModSlot(|input|);
    var q := Put(p, b);
    forall k | out <= k < |input| + 1 ensures q.data[k % PIPESIZE] == (input + [b])[k] {
      if k < |input| { Slots(k, |input|); }
    }
  }

  // Fewer than 512 apart, two bytes have different places.
  lemma Slots(k: nat, n: nat)
    requires k < n < k + PIPESIZE
    ensures k % PIPESIZE != n % PIPESIZE
  {}

  lemma TakeHolds(p: Pipe, input: seq<byte>, out: nat)
    requires Holds(p, input, out) && !IsEmpty(p)
    ensures out < |input| && p.data[p.nread % PIPESIZE] == input[out] && Holds(Take(p), input, out + 1)
  {
    CountersTell(p, input, out);
    ModNext(out);
    ModSlot(out);
  }

  // Filling appends what it takes of src, and stops early only at a full pipe.
  lemma {:induction false} FillHolds(p: Pipe, input: seq<byte>, out: nat, src: seq<byte>)
    requires Holds(p, input, out)
    ensures var (q, k) := Fill(p, src);
            Holds(q, input + src[..k], out) && (k < |src| ==> IsFull(q)) && q.readopen == p.readopen &&
                q.writeopen == p.writeopen
    decreases |src|
  {
    if src == [] || IsFull(p) {
      assert input + src[..0] == input;
    } else {
      PutHolds(p, input, out, src[0]);
      FillHolds(Put(p, src[0]), input + [src[0]], out, src[1..]);
      var k := Fill(p, src).1;
      assert input + [src[0]] + src[1..][..k - 1] == input + src[..k];
    }
  }

  // Draining takes the next bytes of the input, and stops early only at an empty pipe.
  lemma {:induction false} DrainHolds(p: Pipe, input: seq<byte>, out: nat, n: nat)
    requires Holds(p, input, out)
    ensures var (q, s) := Drain(p, n);
            && out + |s| <= |input| && s == input[out..out + |s|] && Holds(q, input, out + |s|)
            && (|s| < n ==> IsEmpty(q)) && q.readopen == p.readopen && q.writeopen == p.writeopen
    decreases n
  {
    if n > 0 && !IsEmpty(p) {
      TakeHolds(p, input, out);
      DrainHolds(Take(p), input, out + 1, n - 1);
    }
  }

  // ---- runs: stretches of any callers in any order ----

  datatype Event =
    | Writes(src: seq<byte>)              // a stretch of pipewrite that has src left to write
    | Reads(n: nat)                       // a stretch of piperead that finds bytes, or the end
    | CloseRead
    | CloseWrite

  // piperead() goes on to copy only when there is something, or nothing will come.
  predicate Enabled(p: Pipe, ev: Event) {
    |p.data| == PIPESIZE && (ev.Reads? ==> !IsEmpty(p) || !p.writeopen)
  }

  function Do(p: Pipe, ev: Event): Pipe
    requires Enabled(p, ev)
  {
    match ev
    case Writes(src) => Fill(p, src).0
    case Reads(n) => Drain(p, n).0
    case CloseRead => p.(readopen := false)
    case CloseWrite => p.(writeopen := false)
  }

  // What an event puts into the pipe, and what it gets out.
  function In(p: Pipe, ev: Event): seq<byte>
    requires Enabled(p, ev)
  { if ev.Writes? then ev.src[..Fill(p, ev.src).1] else [] }

  function Out(p: Pipe, ev: Event): seq<byte>
    requires Enabled(p, ev)
  { if ev.Reads? then Drain(p, ev.n).1 else [] }

  // The pipe, and all bytes that have gone in and come out, after a run.
  datatype Run = Run(p: Pipe, input: seq<byte>, output: seq<byte>)

  predicate Created(p: Pipe) { |p.data| == PIPESIZE && p.nread == 0 && p.nwrite == 0 && p.readopen && p.writeopen }

  ghost predicate Reached(r: Run, p0: Pipe, evs: seq<Event>)
    decreases |evs|
  {
    if evs == [] then r == Run(p0, [], [])
    else
      var ev := evs[|evs| - 1];
      exists r0 :: Reached(r0, p0, evs[..|evs| - 1]) && Enabled(r0.p, ev)
                   && r == Run(Do(r0.p, ev), r0.input + In(r0.p, ev), r0.output + Out(r0.p, ev))
  }

  // In every run the bytes taken out are a prefix of the bytes put in, and at most 512 are held; a
  // read of at least one byte gets none only if the pipe is empty and the write end closed.
  lemma {:induction false} QueueRuns(r: Run, p0: Pipe, evs: seq<Event>)
    requires Created(p0) && Reached(r, p0, evs)
    ensures r.output <= r.input && |r.input| - |r.output| <= PIPESIZE && Holds(r.p, r.input, |r.output|)
    ensures forall n :: n > 0 && Enabled(r.p, Reads(n)) && Out(r.p, Reads(n)) == [] ==>
            IsEmpty(r.p) && !r.p.writeopen && r.output == r.input
    decreases |evs|
  {
    if evs != [] {
      var ev := evs[|evs| - 1];
      var r0 :| Reached(r0, p0, evs[..|evs| - 1]) && Enabled(r0.p, ev)
                && r == Run(Do(r0.p, ev), r0.input + In(r0.p, ev), r0.output + Out(r0.p, ev));
      QueueRuns(r0, p0, evs[..|evs| - 1]);
      EventHolds(r0, ev);
    }
    CountersTell(r.p, r.input, |r.output|);
  }

  lemma EventHolds(r0: Run, ev: Event)
    requires Enabled(r0.p, ev) && r0.output <= r0.input && Holds(r0.p, r0.input, |r0.output|)
    ensures r0.output + Out(r0.p, ev) <= r0.input + In(r0.p, ev)
    ensures Holds(Do(r0.p, ev), r0.input + In(r0.p, ev), |r0.output + Out(r0.p, ev)|)
  {
    match ev
    case Writes(src) => FillHolds(r0.p, r0.input, |r0.output|, src);
    case Reads(n) =>
      DrainHolds(r0.p, r0.input, |r0.output|, n);
      var s := Drain(r0.p, n).1;
      assert r0.output + s == r0.input[..|r0.output| + |s|];
      assert r0.input + [] == r0.input;
    case _ =>
      assert r0.input + [] == r0.input && r0.output + [] == r0.output;
  }
}

module Pipes {
  import opened Words
  import opened PipeSpec

  // What a stretch ends with: the call's result, or sleep.
  datatype End = Ret(n: int) | Sleep

  class PipeBuffer {
    var data: array<byte>
    var nread: word
    var nwrite: word
    var readopen: bool
    var writeopen: bool

    ghost predicate Valid()
      reads this
    { data.Length == PIPESIZE }

    ghost function View(): Pipe
      reads this, data
      requires Valid()
    { PipeSpec.Pipe(data[..], nread, nwrite, readopen, writeopen) }

    // pipealloc
    constructor ()
      ensures Valid() && Created(View()) && fresh(data)
    {
      data := new byte[PIPESIZE];
      nread, nwrite, readopen, writeopen := 0, 0, true, true;
    }

    // pipewrite from byte i of src on, until it returns or sleeps with j bytes written.
    method Write(src: seq<byte>, i: nat, killed: bool) returns (j: nat, end: End)
      requires Valid() && i <= |src|
      modifies this`nwrite, data
      ensures Valid()
      ensures var (q, k) := Fill(old(View()), src[i..]);
              && View() == q && j == i + k
              && end == if j == |src| then Ret(|src|) else if !readopen || killed then Ret(-1) else Sleep
    {
      j := i;
      while j < |src|
        invariant i <= j <= |src| && Valid() && unchanged(`nread) && unchanged(`readopen) && unchanged(`writeopen)
        invariant Fill(old(View()), src[i..]) == (Fill(View(), src[j..]).0, j - i + Fill(View(), src[j..]).1)
        modifies this`nwrite, data
      {
        if nwrite == (nread + PIPESIZE) % TWO32 {
          return j, if !readopen || killed then Ret(-1) else Sleep;
        }
        ghost var v, rest := View(), src[j..];
        data[nwrite % PIPESIZE] := src[j];
        nwrite := (nwrite + 1) % TWO32;
        assert View() == Put(v, rest[0]) && rest[1..] == src[j + 1..];
        j := j + 1;
      }
      end := Ret(|src|);
    }

    // piperead of n bytes, until it returns or sleeps.
    method Read(n: nat, killed: bool) returns (out: seq<byte>, end: End)
      requires Valid()
      modifies this`nread
      ensures Valid()
      ensures IsEmpty(old(View())) && writeopen ==> out == [] && View() == old(View()) && end == if killed then Ret(-1)
              else Sleep
      ensures !IsEmpty(old(View())) || !writeopen ==> (View(), out) == Drain(old(View()), n) && end == Ret(|out|)
    {
      out := [];
      if nread == nwrite && writeopen {
        return out, if killed then Ret(-1) else Sleep;
      }
      var i := 0;
      ghost var all := Drain(View(), n);
      assert [] + all.1 == all.1;
      while i < n
        invariant i <= n && Valid() && |out| == i
        invariant all == (Drain(View(), n - i).0, out + Drain(View(), n - i).1)
        modifies this`nread
      {
        if nread == nwrite { break; }
        ghost var v, rest := View(), Drain(Take(View()), n - i - 1).1;
        assert out + ([data[nread % PIPESIZE]] + rest) == out + [data[nread % PIPESIZE]] + rest;
        out := out + [data[nread % PIPESIZE]];
        nread := (nread + 1) % TWO32;
        assert View() == Take(v);
        i := i + 1;
      }
      assert out + [] == out;
      end := Ret(i);
    }

    // pipeclose of one end: the pipe goes when both ends are closed, and until then keeps what it holds.
    method Close(writable: bool) returns (gone: bool)
      requires Valid()
      modifies this`readopen, this`writeopen
      ensures Valid() && View() == Do(old(View()), if writable then CloseWrite else CloseRead)
      ensures gone <==> if writable then !old(readopen) else !old(writeopen)
      ensures forall input, out :: Holds(old(View()), input, out) ==> Holds(View(), input, out)
    {
      if writable { writeopen := false; } else { readopen := false; }
      gone := !readopen && !writeopen;
    }
  }
}
