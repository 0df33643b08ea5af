/** Byte strings and ropes (sequences of frames) shared by the data-path and
    metadata modules, together with the small result types they return. */
module Bytes {

  type byte = bv8

  type Bytes = seq<byte>

  datatype Option<+T> = None | Some(value: T)

  datatype Result<+T, +E> = Ok(value: T) | Err(error: E)

  function Min(a: nat, b: nat): nat {
    if a <= b then a else b
  }

  function Max(a: nat, b: nat): nat {
    if a <= b then b else a
  }

  /** The bytes of a rope, in order. */
  function Concat(frames: seq<Bytes>): Bytes {
    if frames == [] then [] else frames[0] + Concat(frames[1..])
  }

  lemma {:induction false} ConcatAppend(a: seq<Bytes>, b: seq<Bytes>)
    ensures Concat(a + b) == Concat(a) + Concat(b)
  {
    if a == [] {
      assert a + b == b;
    } else {
      ConcatAppend(a[1..], b);
      assert (a + b)[1..] == a[1..] + b;
    }
  }

  function Zeros(n: nat): (z: Bytes)
    ensures |z| == n
    ensures forall i :: 0 <= i < n ==> z[i] == 0
  {
    seq(n, _ => 0)
  }

  /** Number of slots that hold a value. */
  function CountSome<T>(slots: seq<Option<T>>): nat {
    if slots == [] then 0
    else (if slots[0].Some? then 1 else 0) + CountSome(slots[1..])
  }

  lemma {:induction false} CountSomeBound<T>(slots: seq<Option<T>>)
    ensures CountSome(slots) <= |slots|
  {
    if slots != [] {
      CountSomeBound(slots[1..]);
    }
  }

  lemma {:induction false} CountSomeAppend<T>(a: seq<Option<T>>, b: seq<Option<T>>)
    ensures CountSome(a + b) == CountSome(a) + CountSome(b)
  {
    if a == [] {
      assert a + b == b;
    } else {
      assert (a + b)[1..] == a[1..] + b;
      CountSomeAppend(a[1..], b);
    }
  }

  lemma {:induction false} CountSomeFull<T>(slots: seq<Option<T>>)
    ensures CountSome(slots) == |slots| <==> forall i :: 0 <= i < |slots| ==> slots[i].Some?
  {
    CountSomeBound(slots);
    if slots != [] {
      CountSomeBound(slots[1..]);
      CountSomeFull(slots[1..]);
      assert forall i :: 0 <= i < |slots| - 1 ==> slots[1..][i] == slots[i + 1];
      if forall i :: 0 <= i < |slots[1..]| ==> slots[1..][i].Some? {
        assert forall i :: 1 <= i < |slots| ==> slots[i] == slots[1..][i - 1];
      }
    }
  }

  lemma {:induction false} SubsetSize<T>(a: set<T>, b: set<T>)
    requires a <= b
    ensures |a| <= |b|
  {
    if a != {} {
      var x :| x in a;
      SubsetSize(a - {x}, b - {x});
    }
  }
}
