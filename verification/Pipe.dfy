/**
  A pipe: a ring of 512 bytes with two 32-bit counters that wrap around. Each method is one
  stretch under pi->lock, from taking it to sleeping or releasing it, and asks for no more than
  Valid(), so readers and writers may be interleaved in any way.
 */
module Pipe {
  import opened Blocks

  const PIPESIZE := 512

  /** A counter as its 32 bits show it, and the place in the ring it names. */
  function Wrap(n: nat): (r: nat)
  {
    n % TWO32
  }

  function Place(n: nat): (r: nat)
    ensures r < PIPESIZE
  {
    n % PIPESIZE
  }

  lemma {:induction false} PlaceOfWrap(n: nat)
    ensures Place(Wrap(n)) == Place(n)
    ensures Wrap(Wrap(n) + 1) == Wrap(n + 1)
  {
    var q, m := n / TWO32, n % TWO32;
    assert n == TWO32 * q + m;
    Multiple(0x80_0000 * q, m);
    if m == TWO32 - 1 {
      assert n + 1 == TWO32 * (q + 1);
    } else {
      assert n + 1 == TWO32 * q + (m + 1);
    }
  }

  lemma {:induction false} Multiple(k: nat, m: nat)
    ensures (PIPESIZE * k + m) % PIPESIZE == m % PIPESIZE
  {
  }

  /** nwrite == nread and nwrite == nread + PIPESIZE, as 32-bit comparisons, mean empty and full. */
  lemma {:induction false} EmptyAndFull(r: nat, w: nat)
    requires r <= w <= r + PIPESIZE
    ensures Wrap(r) == Wrap(w) <==> r == w
    ensures Wrap(w) == Wrap(Wrap(r) + PIPESIZE) <==> w == r + PIPESIZE
    ensures Wrap(Wrap(w) + TWO32 - Wrap(r)) == w - r
  {
    var a, b := w / TWO32, r / TWO32;
    var x, y := w % TWO32, r % TWO32;
    assert w == TWO32 * a + x && r == TWO32 * b + y;
    assert a == b || a == b + 1;
  }

  /** The ring holds exactly the bytes produced and not yet consumed. */
  ghost predicate Holds(ring: seq<Byte>, produced: seq<Byte>, consumed: seq<Byte>)
    requires |ring| == PIPESIZE
  {
    && |consumed| <= |produced| <= |consumed| + PIPESIZE
    && consumed == produced[..|consumed|]
    && forall k :: |consumed| <= k < |produced| ==> ring[Place(k)] == produced[k]
  }

  lemma {:induction false} Pushed(ring: seq<Byte>, produced: seq<Byte>, consumed: seq<Byte>, x: Byte)
    requires |ring| == PIPESIZE && Holds(ring, produced, consumed) && |produced| < |consumed| + PIPESIZE
    ensures Holds(ring[Place(|produced|) := x], produced + [x], consumed)
  {
    var ring' := ring[Place(|produced|) := x];
    forall k | |consumed| <= k < |produced| + 1
      ensures ring'[Place(k)] == (produced + [x])[k]
    {
      assert k < |produced| ==> Place(k) != Place(|produced|);
    }
  }

  lemma {:induction false} Popped(ring: seq<Byte>, produced: seq<Byte>, consumed: seq<Byte>)
    requires |ring| == PIPESIZE && Holds(ring, produced, consumed) && |consumed| < |produced|
    ensures Holds(ring, produced, consumed + [ring[Place(|consumed|)]])
  {
    var consumed' := consumed + [ring[Place(|consumed|)]];
    assert consumed' == produced[..|consumed'|];
  }

  datatype Written = Done | Full | ReaderGone

  class Pipe {
    const data: array<Byte>
    var nread: nat
    var nwrite: nat
    var readopen: bool
    var writeopen: bool
    ghost var produced: seq<Byte>
    ghost var consumed: seq<Byte>

    ghost predicate Valid()
      reads this, data
    {
      && data.Length == PIPESIZE
      && nread == Wrap(|consumed|) && nwrite == Wrap(|produced|)
      && Holds(data[..], produced, consumed)
    }

    constructor ()
      ensures Valid() && fresh(data) && produced == [] && consumed == [] && readopen && writeopen
    {
      data := new Byte[PIPESIZE](_ => 0);
      nread, nwrite := 0, 0;
      readopen, writeopen := true, true;
      produced, consumed := [], [];
    }

    /** How many bytes are in the pipe, by the counters alone. */
    method Size() returns (n: nat)
      requires Valid()
      ensures n == |produced| - |consumed| <= PIPESIZE
    {
      EmptyAndFull(|consumed|, |produced|);
      n := Wrap(nwrite + TWO32 - nread);
    }

    /** One byte goes into the ring, and the write counter on by one. */
    method Push(x: Byte)
      requires Valid() && |produced| < |consumed| + PIPESIZE
      modifies this`nwrite, this`produced, data
      ensures Valid() && produced == old(produced) + [x]
    {
      hide Holds, Wrap, Place;
      PlaceOfWrap(|produced|);
      Pushed(data[..], produced, consumed, x);
      ghost var ring := data[..];
      data[Place(nwrite)] := x;
      assert data[..] == ring[Place(|produced|) := x];
      nwrite := Wrap(nwrite + 1);
      produced := produced + [x];
    }

    /**
      pipewrite, from byte i of src on, up to the point where it is done, sleeps on a full pipe
      or finds no reader: the bytes before the new i are in the pipe, in order.
     */
    method Write(src: seq<Byte>, i0: nat) returns (i: nat, r: Written)
      requires Valid() && i0 <= |src|
      modifies this`nwrite, this`produced, data
      ensures Valid() && i0 <= i <= |src| && produced == old(produced) + src[i0..i]
      ensures r == Done ==> i == |src|
      ensures r == Full ==> i < |src| && |produced| == |consumed| + PIPESIZE
      ensures r == ReaderGone <==> !readopen && i0 < |src|
      ensures r == ReaderGone ==> i == i0
    {
      hide Holds, Wrap;
      i := i0;
      while i < |src|
        invariant Valid() && i0 <= i <= |src| && produced == old(produced) + src[i0..i]
        invariant i > i0 ==> readopen
      {
        if !readopen {
          return i, ReaderGone;
        }
        InPipe(data[..], produced, consumed);
        EmptyAndFull(|consumed|, |produced|);
        if nwrite == Wrap(nread + PIPESIZE) {
          return i, Full;
        }
        Push(src[i]);
        assert src[i0..i + 1] == src[i0..i] + [src[i]];
        i := i + 1;
      }
      return i, Done;
    }

    /** One byte comes out of the ring, and the read counter goes on by one. */
    method Pop() returns (x: Byte)
      requires Valid() && |consumed| < |produced|
      modifies this`nread, this`consumed
      ensures Valid() && consumed == old(consumed) + [x] && x == produced[old(|consumed|)]
    {
      PlaceOfWrap(|consumed|);
      Popped(data[..], produced, consumed);
      hide Wrap, Place;
      x := data[Place(nread)];
      nread := Wrap(nread + 1);
      consumed := consumed + [x];
    }

    /**
      piperead, when it does not sleep: the next bytes produced, as many as there are up to n.
      It sleeps, as None says, exactly on an empty pipe that a writer may still fill.
     */
    method Read(n: nat) returns (r: Option<seq<Byte>>)
      requires Valid()
      modifies this`nread, this`consumed
      ensures Valid()
      ensures r.None? <==> old(consumed) == produced && writeopen
      ensures r.None? ==> consumed == old(consumed)
      ensures r.Some? ==>
        && consumed == old(consumed) + r.value && r.value == produced[|old(consumed)|..|consumed|]
        && |r.value| == if n < |produced| - |old(consumed)| then n else |produced| - |old(consumed)|
    {
      hide Holds, Wrap;
      InPipe(data[..], produced, consumed);
      EmptyAndFull(|consumed|, |produced|);
      if nread == nwrite && writeopen {
        return None;
      }
      var out: seq<Byte> := [];
      var i := 0;
      while i < n
        invariant 0 <= i <= n && |out| == i && Valid() && consumed == old(consumed) + out && |consumed| <= |produced|
        invariant out == produced[|old(consumed)|..|consumed|]
      {
        InPipe(data[..], produced, consumed);
        EmptyAndFull(|consumed|, |produced|);
        if nread == nwrite {
          break;
        }
        var ch := Pop();
        InPipe(data[..], produced, consumed);
        assert out + [ch] == produced[|old(consumed)|..|consumed|];
        out := out + [ch];
        i := i + 1;
      }
      return Some(out);
    }

    /** pipeclose: the pipe is freed when both ends are closed. */
    method Close(writable: bool) returns (freed: bool)
      requires Valid()
      modifies this`readopen, this`writeopen
      ensures Valid() && freed == (!readopen && !writeopen)
      ensures writeopen == (old(writeopen) && !writable) && readopen == (old(readopen) && writable)
    {
      if writable {
        writeopen := false;
      } else {
        readopen := false;
      }
      return !readopen && !writeopen;
    }
  }

  /** Consumed bytes are a prefix of produced bytes, at most 512 behind. */
  lemma {:induction false} InPipe(ring: seq<Byte>, produced: seq<Byte>, consumed: seq<Byte>)
    requires |ring| == PIPESIZE && Holds(ring, produced, consumed)
    ensures |consumed| <= |produced| <= |consumed| + PIPESIZE && consumed == produced[..|consumed|]
  {
  }
}
