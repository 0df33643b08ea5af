/** `sort_by(|a, b| b.time.cmp(&a.time))`: the stable newest-first order in which
    version lists are kept (crates/openlake_io/src/xl_meta.rs:432,
    crates/openlake_io/src/local_fs.rs:1106). */
module NewestFirst {
  predicate Sorted<T>(s: seq<T>, time: T -> nat) {
    forall i, j :: 0 <= i < j < |s| ==> time(s[i]) >= time(s[j])
  }

  /** Puts `x` before the first element that is not newer. */
  function Insert<T>(x: T, s: seq<T>, time: T -> nat): seq<T> {
    if s == [] || time(s[0]) <= time(x) then [x] + s else [s[0]] + Insert(x, s[1..], time)
  }

  function Sort<T>(s: seq<T>, time: T -> nat): seq<T> {
    if s == [] then [] else Insert(s[0], Sort(s[1..], time), time)
  }

  /** The elements with time t, in order. */
  function At<T>(s: seq<T>, time: T -> nat, t: nat): seq<T> {
    if s == [] then [] else (if time(s[0]) == t then [s[0]] else []) + At(s[1..], time, t)
  }

  lemma {:induction false} InsertPermutes<T>(x: T, s: seq<T>, time: T -> nat)
    ensures multiset(Insert(x, s, time)) == multiset{x} + multiset(s)
  {
    if !(s == [] || time(s[0]) <= time(x)) {
      InsertPermutes(x, s[1..], time);
      assert s == [s[0]] + s[1..];
    }
  }

  lemma {:induction false} SortPermutes<T>(s: seq<T>, time: T -> nat)
    ensures multiset(Sort(s, time)) == multiset(s)
    ensures |Sort(s, time)| == |s|
  {
    if s != [] {
      SortPermutes(s[1..], time);
      InsertPermutes(s[0], Sort(s[1..], time), time);
      assert s == [s[0]] + s[1..];
    }
    assert |multiset(Sort(s, time))| == |Sort(s, time)|;
  }

  lemma SameElements<T>(s: seq<T>, time: T -> nat)
    ensures forall x :: x in Sort(s, time) <==> x in s
  {
    SortPermutes(s, time);
    assert forall x :: x in Sort(s, time) <==> x in multiset(Sort(s, time));
    assert forall x :: x in s <==> x in multiset(s);
  }

  lemma {:induction false} InsertSorted<T>(x: T, s: seq<T>, time: T -> nat)
    requires Sorted(s, time)
    ensures Sorted(Insert(x, s, time), time)
  {
    if !(s == [] || time(s[0]) <= time(x)) {
      var r := Insert(x, s[1..], time);
      InsertSorted(x, s[1..], time);
      InsertPermutes(x, s[1..], time);
      forall i | 0 <= i < |r|
        ensures time(r[i]) <= time(s[0])
      {
        assert r[i] in multiset(r);
        if r[i] != x {
          assert r[i] in s[1..];
        }
      }
    }
  }

  lemma {:induction false} SortSorted<T>(s: seq<T>, time: T -> nat)
    ensures Sorted(Sort(s, time), time)
  {
    if s != [] {
      SortSorted(s[1..], time);
      InsertSorted(s[0], Sort(s[1..], time), time);
    }
  }

  lemma {:induction false} InsertStable<T>(x: T, s: seq<T>, time: T -> nat, t: nat)
    ensures At(Insert(x, s, time), time, t) == (if time(x) == t then [x] else []) + At(s, time, t)
  {
    if s == [] || time(s[0]) <= time(x) {
      assert ([x] + s)[1..] == s;
    } else {
      InsertStable(x, s[1..], time, t);
      assert ([s[0]] + Insert(x, s[1..], time))[1..] == Insert(x, s[1..], time);
    }
  }

  /** Elements of equal time keep their order. */
  lemma {:induction false} SortStable<T>(s: seq<T>, time: T -> nat, t: nat)
    ensures At(Sort(s, time), time, t) == At(s, time, t)
  {
    if s != [] {
      SortStable(s[1..], time, t);
      InsertStable(s[0], Sort(s[1..], time), time, t);
    }
  }

  lemma {:induction false} AtOlder<T>(s: seq<T>, time: T -> nat, t: nat)
    requires forall i :: 0 <= i < |s| ==> time(s[i]) < t
    ensures At(s, time, t) == []
  {
    if s != [] {
      AtOlder(s[1..], time, t);
    }
  }

  lemma {:induction false} AtMember<T>(s: seq<T>, time: T -> nat, t: nat, i: nat)
    requires i < |s| && time(s[i]) == t
    ensures At(s, time, t) != []
  {
    if i > 0 {
      AtMember(s[1..], time, t, i - 1);
    }
  }

  lemma AtTail<T>(r: seq<T>, s: seq<T>, time: T -> nat, t: nat)
    requires r != [] && s != [] && r[0] == s[0] && At(r, time, t) == At(s, time, t)
    ensures At(r[1..], time, t) == At(s[1..], time, t)
  {
    var head := if time(r[0]) == t then [r[0]] else [];
    assert At(r, time, t)[|head|..] == At(r[1..], time, t);
    assert At(s, time, t)[|head|..] == At(s[1..], time, t);
  }

  /** Newest first and stable determine the result. */
  lemma {:induction false} SortUnique<T>(r: seq<T>, s: seq<T>, time: T -> nat)
    requires Sorted(r, time) && Sorted(s, time)
    requires forall t :: At(r, time, t) == At(s, time, t)
    ensures r == s
  {
    if r != [] {
      HeadNoNewer(r, s, time);
    }
    if s != [] {
      HeadNoNewer(s, r, time);
      var t := time(r[0]);
      assert At(r, time, t)[0] == r[0] && At(s, time, t)[0] == s[0];
      forall t
        ensures At(r[1..], time, t) == At(s[1..], time, t)
      {
        AtTail(r, s, time, t);
      }
      SortUnique(r[1..], s[1..], time);
    }
  }

  lemma HeadNoNewer<T>(r: seq<T>, s: seq<T>, time: T -> nat)
    requires r != [] && Sorted(s, time) && At(r, time, time(r[0])) == At(s, time, time(r[0]))
    ensures s != [] && time(s[0]) >= time(r[0])
  {
    if s == [] || time(s[0]) < time(r[0]) {
      AtOlder(s, time, time(r[0]));
    }
    AtMember(r, time, time(r[0]), 0);
  }

  /** A list that is already newest first stays as it is. */
  lemma SortFixed<T>(s: seq<T>, time: T -> nat)
    requires Sorted(s, time)
    ensures Sort(s, time) == s
  {
    SortSorted(s, time);
    forall t
      ensures At(Sort(s, time), time, t) == At(s, time, t)
    {
      SortStable(s, time, t);
    }
    SortUnique(Sort(s, time), s, time);
  }

  function Map<T, U>(s: seq<T>, f: T -> U): (r: seq<U>)
    ensures |r| == |s| && forall i :: 0 <= i < |r| ==> r[i] == f(s[i])
  {
    seq(|s|, i requires 0 <= i < |s| => f(s[i]))
  }

  lemma {:induction false} InsertMap<T, U>(x: T, s: seq<T>, time: T -> nat, f: T -> U, time': U -> nat)
    requires forall y :: time'(f(y)) == time(y)
    ensures Map(Insert(x, s, time), f) == Insert(f(x), Map(s, f), time')
  {
    if s == [] || time(s[0]) <= time(x) {
      assert Map([x] + s, f) == [f(x)] + Map(s, f);
    } else {
      InsertMap(x, s[1..], time, f, time');
      assert Map(s, f)[1..] == Map(s[1..], f);
      assert Map([s[0]] + Insert(x, s[1..], time), f) == [f(s[0])] + Map(Insert(x, s[1..], time), f);
    }
  }

  /** Converting the elements commutes with sorting. */
  lemma {:induction false} SortMap<T, U>(s: seq<T>, time: T -> nat, f: T -> U, time': U -> nat)
    requires forall y :: time'(f(y)) == time(y)
    ensures Map(Sort(s, time), f) == Sort(Map(s, f), time')
  {
    if s != [] {
      SortMap(s[1..], time, f, time');
      InsertMap(s[0], Sort(s[1..], time), time, f, time');
      assert Map(s, f)[1..] == Map(s[1..], f);
    }
  }
}
