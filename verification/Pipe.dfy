/** The pipe of kernel/pipe.c: a ring of 512 bytes under two 32-bit counters that wrap. */
module Pipe {

  type Counter = x: int | 0 <= x < 0x1_0000_0000

  // ----- The ring as a value -----

  datatype Ring = Ring(data: seq<int>, nread: Counter, nwrite: Counter)

  predicate Full(r: Ring) { r.nwrite == (r.nread + 512) % 0x1_0000_0000 }

  predicate Empty(r: Ring) { r.nread == r.nwrite }

  function Inc(x: Counter): Counter { (x + 1) % 0x1_0000_0000 }

  function Put(r: Ring, ch: int): Ring
    requires |r.data| == 512
  {
    Ring(r.data[r.nwrite % 512 := ch], r.nread, Inc(r.nwrite))
  }

  function Head(r: Ring): int
    requires |r.data| == 512
  {
    r.data[r.nread % 512]
  }

  function Get(r: Ring): Ring { r.(nread := Inc(r.nread)) }

  /** How far the writer is ahead of the reader, across a wrap of the counters. */
  function Count(r: Ring): nat {
    if r.nread <= r.nwrite then r.nwrite - r.nread else r.nwrite + 0x1_0000_0000 - r.nread
  }

  predicate Ok(r: Ring) { |r.data| == 512 && Count(r) <= 512 }

  /** The bytes in the pipe, oldest first. */
  function Queue(r: Ring): (q: seq<int>)
    requires Ok(r)
    ensures |q| == Count(r)
  {
    seq(Count(r), k requires 0 <= k < Count(r) => r.data[(r.nread + k) % 512])
  }

  /** A quotient and a remainder by 512 are what division gives. */
  lemma Remainder(q: nat, r: nat)
    requires r < 512
    ensures (512 * q + r) % 512 == r
  {
  }

  lemma Wraps(x: nat)
    ensures x % 0x1_0000_0000 % 512 == x % 512
  {
    var q, y := x / 0x1_0000_0000, x % 0x1_0000_0000;
    WrapsBy(q, y / 512, y % 512);
  }

  lemma WrapsBy(q: nat, a: nat, b: nat)
    requires b < 512
    ensures (0x1_0000_0000 * q + (512 * a + b)) % 512 == b
  {
    Remainder(0x80_0000 * q + a, b);
  }

  lemma DistinctSlots(a: nat, k: nat, n: nat)
    requires k < n < 512
    ensures (a + k) % 512 != (a + n) % 512
  {
    var d := (a + n) / 512 - (a + k) / 512;
    assert (a + k) % 512 == (a + n) % 512 ==> n - k == 512 * d;
  }

  lemma WriteSlot(r: Ring)
    requires Ok(r)
    ensures r.nwrite % 512 == (r.nread + Count(r)) % 512
  {
    Wraps(r.nread + Count(r));
  }

  /** The pipe is full or empty by its counters exactly when it holds 512 bytes or none. */
  lemma FullEmpty(r: Ring)
    requires Ok(r)
    ensures Full(r) <==> |Queue(r)| == 512
    ensures Empty(r) <==> Queue(r) == []
  {
  }

  lemma PutAppends(r: Ring, ch: int)
    requires Ok(r) && !Full(r)
    ensures Ok(Put(r, ch)) && Queue(Put(r, ch)) == Queue(r) + [ch]
  {
    var r', n := Put(r, ch), Count(r);
    assert n < 512 && Count(r') == n + 1;
    WriteSlot(r);
    forall k: nat | k < n + 1 ensures Queue(r')[k] == (Queue(r) + [ch])[k] {
      if k < n {
        DistinctSlots(r.nread, k, n);
      }
    }
  }

  lemma GetRemoves(r: Ring)
    requires Ok(r) && !Empty(r)
    ensures Ok(Get(r)) && Queue(r) == [Head(r)] + Queue(Get(r))
  {
    var r', n := Get(r), Count(r);
    assert Count(r') == n - 1;
    forall k: nat | k < n - 1 ensures Queue(r')[k] == Queue(r)[k + 1] {
      Wraps(r.nread + 1);
      assert (r'.nread + k) % 512 == (r.nread + 1 + k) % 512;
    }
  }

  // ----- All runs -----

  /** What happens to the ring under the pipe's lock: a byte goes in or out. Sleeps,
      failed copies and closing an end leave it alone. */
  datatype Step = Write(ch: int) | Read | Other

  predicate Enabled(r: Ring, t: Step) {
    match t
    case Write(_) => !Full(r)
    case Read => !Empty(r)
    case Other => true
  }

  function Next(r: Ring, t: Step): Ring
    requires |r.data| == 512
  {
    match t
    case Write(ch) => Put(r, ch)
    case Read => Get(r)
    case Other => r
  }

  predicate Runs(r: Ring, steps: seq<Step>, r': Ring)
    requires |r.data| == 512
    decreases |steps|
  {
    if steps == [] then r' == r
    else Enabled(r, steps[0]) && Runs(Next(r, steps[0]), steps[1..], r')
  }

  function Accepted(steps: seq<Step>): seq<int> {
    if steps == [] then []
    else (if steps[0].Write? then [steps[0].ch] else []) + Accepted(steps[1..])
  }

  function Delivered(r: Ring, steps: seq<Step>): seq<int>
    requires |r.data| == 512
    decreases |steps|
  {
    if steps == [] then []
    else (if steps[0].Read? then [Head(r)] else []) + Delivered(Next(r, steps[0]), steps[1..])
  }

  /** Over any run, what was in the pipe and what was accepted is exactly what was
      delivered and what is still in the pipe, in order; at most 512 bytes are in it. */
  lemma {:induction false} FifoRuns(r: Ring, steps: seq<Step>, r': Ring)
    requires Ok(r) && Runs(r, steps, r')
    ensures Ok(r') && Queue(r) + Accepted(steps) == Delivered(r, steps) + Queue(r')
    decreases |steps|
  {
    if steps != [] {
      var t, rest := steps[0], steps[1..];
      if t.Write? {
        PutAppends(r, t.ch);
      } else if t.Read? {
        GetRemoves(r);
      }
      FifoRuns(Next(r, t), rest, r');
      FifoStep(Queue(r), Queue(Next(r, t)), if t.Write? then [t.ch] else [], if t.Read? then [Head(r)] else [],
               Accepted(rest), Delivered(Next(r, t), rest), Queue(r'));
    }
  }

  lemma FifoStep(q: seq<int>, q1: seq<int>, a: seq<int>, d: seq<int>, acc: seq<int>, del: seq<int>, q': seq<int>)
    requires q + a == d + q1 && q1 + acc == del + q'
    ensures q + (a + acc) == (d + del) + q'
  {
    calc {
      q + (a + acc);
      (q + a) + acc;
      d + (q1 + acc);
      (d + del) + q';
    }
  }

  /** From an empty pipe, the bytes delivered are a prefix of the bytes accepted. */
  lemma DeliveredIsPrefix(r: Ring, steps: seq<Step>, r': Ring)
    requires Ok(r) && Empty(r) && Runs(r, steps, r')
    ensures Delivered(r, steps) <= Accepted(steps)
    ensures |Accepted(steps)| <= |Delivered(r, steps)| + 512
  {
    FifoRuns(r, steps, r');
    assert Queue(r) + Accepted(steps) == Accepted(steps);
  }

  // ----- The operations -----

  /** How a call leaves the lock: asleep, to go on later, or returning a value. */
  datatype Outcome = Sleeps | Returns(value: int)

  class PipeBuffer {
    const data: array<int>
    var nread: Counter
    var nwrite: Counter
    var readopen: bool
    var writeopen: bool

    function R(): Ring
      reads this, data
    {
      Ring(data[..], nread, nwrite)
    }

    ghost predicate Valid()
      reads this, data
    {
      data.Length == 512 && Ok(R())
    }

    constructor ()
      ensures Valid() && fresh(data) && Queue(R()) == [] && readopen && writeopen
    {
      data := new int[512];
      nread, nwrite, readopen, writeopen := 0, 0, true, true;
    }

    /** pipeclose; the pipe is freed when both ends are closed. */
    method Close(writable: bool) returns (freed: bool)
      requires Valid()
      modifies `readopen, `writeopen
      ensures Valid() && R() == old(R())
      ensures writeopen == (old(writeopen) && !writable) && readopen == (old(readopen) && writable)
      ensures freed <==> !readopen && !writeopen
    {
      if writable {
        writeopen := false;
      } else {
        readopen := false;
      }
      freed := !readopen && !writeopen;
    }

    /** pipewrite from its i-th byte on, until it sleeps or returns. The writer is killed
        once `stop` bytes are in, and byte `bad` is the first that cannot be copied in. */
    method Write(src: seq<int>, i: nat, stop: nat, bad: nat) returns (i': nat, out: Outcome)
      requires Valid() && i <= |src|
      modifies `nwrite, data
      ensures Valid() && i <= i' <= |src|
      ensures Queue(R()) == old(Queue(R())) + src[i..i']
      ensures if i' == |src| then out == Returns(i')
              else if !readopen || i' >= stop then out == Returns(-1)
              else if |Queue(R())| == 512 then out == Sleeps
              else out == Returns(i') && i' >= bad
    {
      hide Queue, Ok;
      i' := i;
      assert src[i..i'] == [];
      while i' < |src|
        invariant Valid() && i <= i' <= |src|
        invariant Queue(R()) == old(Queue(R())) + src[i..i']
      {
        FullEmpty(R());
        if !readopen || i' >= stop {
          return i', Returns(-1);
        }
        if nwrite == (nread + 512) % 0x1_0000_0000 {
          return i', Sleeps;
        }
        if i' >= bad {
          break;
        }
        PutAppends(R(), src[i']);
        ghost var r := Put(R(), src[i']);
        data[nwrite % 512] := src[i'];
        nwrite := (nwrite + 1) % 0x1_0000_0000;
        assert R() == r;
        assert src[i..i' + 1] == src[i..i'] + [src[i']];
        i' := i' + 1;
      }
      out := Returns(i');
    }

    /** piperead of `n` bytes, until it sleeps or returns; byte `bad` is the first that
        cannot be copied out. What is not delivered stays in the pipe. */
    method Read(n: int, killed: bool, bad: nat) returns (dst: seq<int>, out: Outcome)
      requires Valid()
      modifies `nread
      ensures Valid() && old(Queue(R())) == dst + Queue(R())
      ensures if old(Queue(R())) == [] && writeopen
              then dst == [] && out == if killed then Returns(-1) else Sleeps
              else if bad == 0 && 0 < n && old(Queue(R())) != [] then dst == [] && out == Returns(-1)
              else out == Returns(|dst|) && Copied(n, bad, |dst|, Queue(R()))
    {
      hide Queue, Ok;
      FullEmpty(R());
      if nread == nwrite && writeopen {
        return [], if killed then Returns(-1) else Sleeps;
      }
      var failed;
      dst, failed := Copy(n, bad);
      out := Returns(if failed && dst == [] then -1 else |dst|);
    }

    /** The copy loop of piperead, until a copy fails. */
    method Copy(n: int, bad: nat) returns (dst: seq<int>, failed: bool)
      requires Valid()
      modifies `nread
      ensures Valid() && old(Queue(R())) == dst + Queue(R()) && Copied(n, bad, |dst|, Queue(R()))
      ensures failed <==> |dst| == bad && |dst| < n && Queue(R()) != []
    {
      hide Queue, Ok;
      dst, failed := [], false;
      var i := 0;
      while i < n
        invariant Valid() && i == |dst| && (n >= 0 ==> i <= n) && i <= bad
        invariant old(Queue(R())) == dst + Queue(R())
      {
        FullEmpty(R());
        if nread == nwrite {
          break;
        }
        if i == bad {
          return dst, true;
        }
        GetRemoves(R());
        ghost var r := Get(R());
        dst := dst + [data[nread % 512]];
        nread := (nread + 1) % 0x1_0000_0000;
        assert R() == r;
        i := i + 1;
      }
    }
  }

  /** `k` bytes of `n` were copied: all, or up to the first that fails, or all there were. */
  predicate Copied(n: int, bad: nat, k: nat, left: seq<int>) {
    k <= bad && (n >= 0 ==> k <= n) && (k < n ==> k == bad || left == [])
  }
}
