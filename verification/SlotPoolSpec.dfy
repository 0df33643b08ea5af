/** What the KV slot allocator does, on values: a free queue, reservations with
    deadlines, and the committed slots with their keys from least to most
    recently used (crates/openlake_io/src/kv.rs:14-181). */
module SlotPoolSpec {
  import opened Bytes

  type KeyHash = k: Bytes | |k| == 54 witness seq(54, _ => 0)

  /** `lru` lists the committed slots with their keys, least recently used first. */
  datatype Pool = Pool(
    n: nat,
    ttl: nat,
    free: seq<nat>,
    pending: map<nat, nat>,
    lru: seq<(nat, KeyHash)>)

  predicate NoDup<T(==)>(s: seq<T>) {
    forall i, j :: 0 <= i < j < |s| ==> s[i] != s[j]
  }

  function Elems(s: seq<nat>): set<nat> {
    set x | x in s
  }

  function Slots(lru: seq<(nat, KeyHash)>): (s: seq<nat>)
    ensures |s| == |lru|
    ensures forall i :: 0 <= i < |s| ==> s[i] == lru[i].0
  {
    seq(|lru|, i requires 0 <= i < |lru| => lru[i].0)
  }

  function Keys(lru: seq<(nat, KeyHash)>): (s: seq<KeyHash>)
    ensures |s| == |lru|
    ensures forall i :: 0 <= i < |s| ==> s[i] == lru[i].1
  {
    seq(|lru|, i requires 0 <= i < |lru| => lru[i].1)
  }

  /** Free, pending and committed slots partition 0..n, none listed twice, and no
      key is bound to two slots. */
  ghost predicate Inv(p: Pool) {
    && NoDup(p.free)
    && NoDup(Slots(p.lru))
    && NoDup(Keys(p.lru))
    && (forall s :: s in p.free ==> s < p.n && s !in p.pending && s !in Slots(p.lru))
    && (forall s :: s in p.pending ==> s < p.n && s !in Slots(p.lru))
    && (forall s :: s in Slots(p.lru) ==> s < p.n)
    && (forall s {:trigger Held(p, s)} :: 0 <= s < p.n ==> Held(p, s))
  }

  predicate Held(p: Pool, s: nat) {
    s in p.free || s in p.pending || s in Slots(p.lru)
  }

  function Upto(n: nat): (s: seq<nat>)
    ensures |s| == n
    ensures forall i :: 0 <= i < n ==> s[i] == i
  {
    seq(n, i => i)
  }

  function Fresh(n: nat, ttl: nat): Pool {
    Pool(n, ttl, Upto(n), map[], [])
  }

  lemma FreshInv(n: nat, ttl: nat)
    ensures Inv(Fresh(n, ttl))
  {
    forall s | 0 <= s < n
      ensures Held(Fresh(n, ttl), s)
    {
      assert Upto(n)[s] == s;
    }
  }

  // ----- The recency list

  function FindSlot(lru: seq<(nat, KeyHash)>, s: nat): (r: Option<nat>)
    ensures r.Some? ==> r.value < |lru| && lru[r.value].0 == s
    ensures r.None? <==> s !in Slots(lru)
  {
    if lru == [] then None
    else if lru[0].0 == s then Some(0)
    else
      assert Slots(lru) == [lru[0].0] + Slots(lru[1..]);
      match FindSlot(lru[1..], s)
      case Some(i) => Some(i + 1)
      case None => None
  }

  function FindKey(lru: seq<(nat, KeyHash)>, k: KeyHash): (r: Option<nat>)
    ensures r.Some? ==> r.value < |lru| && lru[r.value].1 == k
    ensures r.None? <==> k !in Keys(lru)
  {
    if lru == [] then None
    else if lru[0].1 == k then Some(0)
    else
      assert Keys(lru) == [lru[0].1] + Keys(lru[1..]);
      match FindKey(lru[1..], k)
      case Some(i) => Some(i + 1)
      case None => None
  }

  function Without<T>(s: seq<T>, i: nat): (r: seq<T>)
    requires i < |s|
    ensures |r| == |s| - 1
  {
    s[..i] + s[i + 1..]
  }

  function Touch<T>(s: seq<T>, i: nat): seq<T>
    requires i < |s|
  {
    Without(s, i) + [s[i]]
  }

  // ----- Operations

  function Lookup(p: Pool, k: KeyHash): (Pool, Option<nat>) {
    match FindKey(p.lru, k)
    case None => (p, None)
    case Some(i) => (p.(lru := Touch(p.lru, i)), Some(p.lru[i].0))
  }

  /** True iff `s` is committed under `k`. */
  predicate Bound(p: Pool, s: nat, k: KeyHash) {
    FindSlot(p.lru, s).Some? && p.lru[FindSlot(p.lru, s).value].1 == k
  }

  function Commit(p: Pool, s: nat, k: KeyHash): (Pool, bool) {
    if Bound(p, s, k) then
      (p.(pending := p.pending - {s}, lru := Touch(p.lru, FindSlot(p.lru, s).value)), true)
    else if s !in p.pending then (p, false)
    else
      match FindKey(p.lru, k)
      case None => (p.(pending := p.pending - {s}, lru := p.lru + [(s, k)]), true)
      case Some(i) =>
        (p.(pending := p.pending - {s}, free := p.free + [p.lru[i].0], lru := Without(p.lru, i) + [(s, k)]), true)
  }

  function Release(p: Pool, s: nat): Pool {
    match FindSlot(p.lru, s)
    case Some(i) => p.(lru := Without(p.lru, i), free := p.free + [s])
    case None =>
      if s in p.pending then p.(pending := p.pending - {s}, free := p.free + [s]) else p
  }

  function Clear(p: Pool): Pool {
    Fresh(p.n, p.ttl)
  }

  function Expired(p: Pool, now: nat): set<nat> {
    set s | s in p.pending && p.pending[s] <= now
  }

  /** `order` lists the expired slots in the order the map was walked. */
  predicate ReclaimOrder(p: Pool, now: nat, order: seq<nat>) {
    NoDup(order) && Elems(order) == Expired(p, now)
  }

  function Reclaim(p: Pool, now: nat, order: seq<nat>): Pool {
    p.(pending := p.pending - Expired(p, now), free := p.free + order)
  }

  /** One round of the reserve loop: the oldest free slot, else the least
      recently used committed one. */
  function Take(p: Pool, now: nat): (Pool, Option<nat>) {
    if p.free != [] then
      (p.(free := p.free[1..], pending := p.pending[p.free[0] := now + p.ttl]), Some(p.free[0]))
    else if p.lru != [] then
      (p.(lru := p.lru[1..], pending := p.pending[p.lru[0].0 := now + p.ttl]), Some(p.lru[0].0))
    else (p, None)
  }

  /** A round, in two steps: a slot leaves the free queue or the recency list, and
      is then reserved. */
  lemma TakeIs(p: Pool, now: nat, m: Pool, r: Option<nat>)
    requires m.n == p.n && m.ttl == p.ttl && m.pending == p.pending
    requires p.free != [] ==> r == Some(p.free[0]) && m.free == p.free[1..] && m.lru == p.lru
    requires p.free == [] && p.lru != [] ==> r == Some(p.lru[0].0) && m.free == [] && m.lru == p.lru[1..]
    requires p.free == [] && p.lru == [] ==> r.None? && m.free == [] && m.lru == []
    ensures Take(p, now)
         == (if r.Some? then m.(pending := m.pending[r.value := now + p.ttl]) else m, r)
  {
  }

  /** One round per requested slot; `clocks` is what the rounds read from the clock. */
  function TakeMany(p: Pool, clocks: seq<nat>): (Pool, seq<nat>)
    decreases |clocks|
  {
    if clocks == [] then (p, [])
    else
      match Take(p, clocks[0]) {
        case (_, None) => (p, [])
        case (q, Some(s)) =>
          var rest := TakeMany(q, clocks[1..]);
          (rest.0, [s] + rest.1)
      }
  }

  /** With `out` taken so far, the remaining rounds from `p` make up `goal`. */
  ghost predicate Taking(goal: (Pool, seq<nat>), out: seq<nat>, p: Pool, clocks: seq<nat>) {
    goal == (TakeMany(p, clocks).0, out + TakeMany(p, clocks).1)
  }

  lemma StartTaking(p: Pool, clocks: seq<nat>)
    ensures Taking(TakeMany(p, clocks), [], p, clocks)
  {
    assert [] + TakeMany(p, clocks).1 == TakeMany(p, clocks).1;
  }

  lemma KeepTaking(goal: (Pool, seq<nat>), out: seq<nat>, p: Pool, clocks: seq<nat>, q: Pool, r: Option<nat>)
    requires Taking(goal, out, p, clocks) && clocks != [] && Take(p, clocks[0]) == (q, r)
    ensures r.None? ==> goal == (q, out)
    ensures r.Some? ==> Taking(goal, out + [r.value], q, clocks[1..])
  {
    if r.None? {
      assert out + [] == out;
    } else {
      var rest := TakeMany(q, clocks[1..]).1;
      assert out + ([r.value] + rest) == out + [r.value] + rest;
    }
  }

  lemma StopTaking(goal: (Pool, seq<nat>), out: seq<nat>, p: Pool)
    requires Taking(goal, out, p, [])
    ensures goal == (p, out)
  {
    assert out + [] == out;
  }

  function AfterReclaim(p: Pool, count: nat, now: nat, order: seq<nat>): Pool {
    if |p.free| < count then Reclaim(p, now, order) else p
  }

  /** Asks for |clocks| slots; `now` is what a reclaim reads from the clock. */
  function Reserve(p: Pool, now: nat, clocks: seq<nat>, order: seq<nat>): (Pool, seq<nat>) {
    TakeMany(AfterReclaim(p, |clocks|, now, order), clocks)
  }

  // ----- Every operation keeps the invariant

  lemma WithoutFacts<T>(s: seq<T>, i: nat)
    requires i < |s|
    ensures forall j :: 0 <= j < |Without(s, i)| ==> Without(s, i)[j] == s[if j < i then j else j + 1]
    ensures NoDup(s) ==> NoDup(Without(s, i)) && s[i] !in Without(s, i)
    ensures forall x :: x in s ==> x == s[i] || x in Without(s, i)
    ensures forall x :: x in Without(s, i) ==> x in s
  {
    var r := Without(s, i);
    forall x | x in s
      ensures x == s[i] || x in r
    {
      var j :| 0 <= j < |s| && s[j] == x;
      if j < i {
        assert r[j] == x;
      } else if j > i {
        assert r[j - 1] == x;
      }
    }
  }

  lemma NoDupAppend<T>(a: seq<T>, b: seq<T>)
    requires NoDup(a) && NoDup(b) && forall x :: x in a ==> x !in b
    ensures NoDup(a + b)
  {
    forall i, j | 0 <= i < j < |a + b|
      ensures (a + b)[i] != (a + b)[j]
    {
      if i < |a| <= j {
        assert a[i] in a && b[j - |a|] in b;
      }
    }
  }

  lemma TouchSame<T>(s: seq<T>, i: nat)
    requires i < |s| && NoDup(s)
    ensures s[i] !in Without(s, i)
    ensures NoDup(Touch(s, i))
    ensures forall x :: x in Touch(s, i) <==> x in s
  {
    WithoutFacts(s, i);
    NoDupAppend(Without(s, i), [s[i]]);
  }

  lemma WithoutSlots(lru: seq<(nat, KeyHash)>, i: nat)
    requires i < |lru|
    ensures Slots(Without(lru, i)) == Without(Slots(lru), i)
    ensures Keys(Without(lru, i)) == Without(Keys(lru), i)
  {
  }

  lemma SnocSlots(lru: seq<(nat, KeyHash)>, s: nat, k: KeyHash)
    ensures Slots(lru + [(s, k)]) == Slots(lru) + [s]
    ensures Keys(lru + [(s, k)]) == Keys(lru) + [k]
  {
  }

  lemma TouchFacts(lru: seq<(nat, KeyHash)>, i: nat)
    requires i < |lru| && NoDup(Slots(lru)) && NoDup(Keys(lru))
    ensures NoDup(Slots(Touch(lru, i))) && NoDup(Keys(Touch(lru, i)))
    ensures forall s :: s in Slots(Touch(lru, i)) <==> s in Slots(lru)
    ensures forall k :: k in Keys(Touch(lru, i)) <==> k in Keys(lru)
  {
    WithoutSlots(lru, i);
    WithoutFacts(Slots(lru), i);
    WithoutFacts(Keys(lru), i);
    SnocSlots(Without(lru, i), lru[i].0, lru[i].1);
  }

  lemma LookupInv(p: Pool, k: KeyHash)
    requires Inv(p)
    ensures Inv(Lookup(p, k).0)
  {
    match FindKey(p.lru, k)
    case None =>
    case Some(i) =>
      var q := Lookup(p, k).0;
      TouchFacts(p.lru, i);
      assert forall s :: Held(p, s) ==> Held(q, s);
  }

  /** Binding a reserved slot to a key that another slot held frees that slot. */
  lemma RebindInv(p: Pool, s: nat, k: KeyHash, i: nat)
    requires Inv(p) && s in p.pending && i < |p.lru| && p.lru[i].1 == k
    ensures Inv(p.(pending := p.pending - {s}, free := p.free + [p.lru[i].0], lru := Without(p.lru, i) + [(s, k)]))
  {
    var was := p.lru[i].0;
    var q := p.(pending := p.pending - {s}, free := p.free + [was], lru := Without(p.lru, i) + [(s, k)]);
    WithoutSlots(p.lru, i);
    WithoutFacts(Slots(p.lru), i);
    WithoutFacts(Keys(p.lru), i);
    SnocSlots(Without(p.lru, i), s, k);
    assert Slots(p.lru)[i] == was && Keys(p.lru)[i] == k;
    assert was in Slots(p.lru) && was !in Slots(q.lru);
    NoDupAppend(p.free, [was]);
    NoDupAppend(Without(Slots(p.lru), i), [s]);
    NoDupAppend(Without(Keys(p.lru), i), [k]);
    assert forall x :: Held(p, x) ==> Held(q, x);
  }

  /** A committed slot is never pending, so committing it again only touches it. */
  lemma CommitInv(p: Pool, s: nat, k: KeyHash)
    requires Inv(p)
    ensures Inv(Commit(p, s, k).0)
  {
    var q := Commit(p, s, k).0;
    if Bound(p, s, k) {
      TouchFacts(p.lru, FindSlot(p.lru, s).value);
      assert forall x :: Held(p, x) ==> Held(q, x);
    } else if s in p.pending {
      match FindKey(p.lru, k)
      case None =>
        SnocSlots(p.lru, s, k);
        assert forall x :: Held(p, x) ==> Held(q, x);
      case Some(i) => RebindInv(p, s, k, i);
    }
  }

  lemma PendingUnlisted(p: Pool, s: nat)
    requires Inv(p)
    ensures s in p.pending ==> s < p.n && s !in Slots(p.lru)
  {
  }

  lemma ReleaseInv(p: Pool, s: nat)
    requires Inv(p)
    ensures Inv(Release(p, s))
  {
    var q := Release(p, s);
    match FindSlot(p.lru, s)
    case Some(i) =>
      WithoutSlots(p.lru, i);
      WithoutFacts(Slots(p.lru), i);
      WithoutFacts(Keys(p.lru), i);
      assert forall x :: Held(p, x) ==> Held(q, x);
    case None =>
      assert forall x :: Held(p, x) ==> Held(q, x);
  }

  lemma ReclaimInv(p: Pool, now: nat, order: seq<nat>)
    requires Inv(p) && ReclaimOrder(p, now, order)
    ensures Inv(Reclaim(p, now, order))
  {
    var q := Reclaim(p, now, order);
    assert forall s :: s in order <==> s in Expired(p, now);
    NoDupAppend(p.free, order);
    assert forall x :: Held(p, x) ==> Held(q, x);
  }

  lemma TakeInv(p: Pool, now: nat)
    requires Inv(p)
    ensures Inv(Take(p, now).0)
    ensures Take(p, now).1.Some? ==> Take(p, now).1.value !in p.pending && Take(p, now).1.value < p.n
  {
    var q := Take(p, now).0;
    if p.free != [] {
      WithoutFacts(p.free, 0);
      assert Without(p.free, 0) == p.free[1..];
      assert forall x :: Held(p, x) ==> Held(q, x);
    } else if p.lru != [] {
      WithoutSlots(p.lru, 0);
      WithoutFacts(Slots(p.lru), 0);
      WithoutFacts(Keys(p.lru), 0);
      assert Without(p.lru, 0) == p.lru[1..];
      assert p.lru[0].0 in Slots(p.lru) by {
        assert Slots(p.lru)[0] == p.lru[0].0;
      }
      assert forall x :: Held(p, x) ==> Held(q, x);
    }
  }

  lemma {:induction false} TakeManyInv(p: Pool, clocks: seq<nat>)
    requires Inv(p)
    ensures Inv(TakeMany(p, clocks).0)
    decreases |clocks|
  {
    if clocks != [] && Take(p, clocks[0]).1.Some? {
      TakeInv(p, clocks[0]);
      TakeManyInv(Take(p, clocks[0]).0, clocks[1..]);
    }
  }

  lemma ReserveInv(p: Pool, now: nat, clocks: seq<nat>, order: seq<nat>)
    requires Inv(p) && ReclaimOrder(p, now, order)
    ensures Inv(Reserve(p, now, clocks, order).0)
  {
    ReclaimInv(p, now, order);
    TakeManyInv(AfterReclaim(p, |clocks|, now, order), clocks);
  }

  /** The reclaim order matters only when there is a reclaim. */
  lemma ReserveKeepsInv(p: Pool, now: nat, clocks: seq<nat>, order: seq<nat>)
    requires Inv(p) && (|p.free| < |clocks| ==> ReclaimOrder(p, now, order))
    ensures Inv(Reserve(p, now, clocks, order).0)
  {
    if |p.free| < |clocks| {
      ReserveInv(p, now, clocks, order);
    } else {
      TakeManyInv(p, clocks);
    }
  }

  // ----- What reserve guarantees

  /** What a request for `count` slots leaves of the free queue and of the recency
      list, and what it takes: free slots in queue order, and only when those run
      out committed ones, least recently used first. */
  function Expect(free: seq<nat>, lru: seq<(nat, KeyHash)>, count: nat): (seq<nat>, seq<(nat, KeyHash)>, seq<nat>) {
    var f := Min(count, |free|);
    var e := Min(count - f, |lru|);
    (free[f..], lru[e..], free[..f] + Slots(lru[..e]))
  }

  predicate Took(p: Pool, q: Pool, out: seq<nat>, count: nat) {
    (q.free, q.lru, out) == Expect(p.free, p.lru, count) && q.n == p.n && q.ttl == p.ttl
  }

  lemma ExpectFree(free: seq<nat>, lru: seq<(nat, KeyHash)>, count: nat)
    requires count > 0 && free != []
    ensures
      var r := Expect(free[1..], lru, count - 1);
      Expect(free, lru, count) == (r.0, r.1, [free[0]] + r.2)
  {
    var f := Min(count, |free|);
    var e := Min(count - f, |lru|);
    HeadSlice(free, f);
    assert [free[0]] + (free[1..][..f - 1] + Slots(lru[..e])) == [free[0]] + free[1..][..f - 1] + Slots(lru[..e]);
  }

  lemma ExpectCommitted(lru: seq<(nat, KeyHash)>, count: nat)
    requires count > 0 && lru != []
    ensures
      var r := Expect([], lru[1..], count - 1);
      Expect([], lru, count) == (r.0, r.1, [lru[0].0] + r.2)
  {
    var e := Min(count, |lru|);
    HeadSlice(lru, e);
    assert Slots(lru[..e]) == [lru[0].0] + Slots(lru[1..][..e - 1]);
    assert [] + Slots(lru[..e]) == Slots(lru[..e]);
    assert [] + Slots(lru[1..][..e - 1]) == Slots(lru[1..][..e - 1]);
  }

  lemma ExpectNothing(free: seq<nat>, lru: seq<(nat, KeyHash)>, count: nat)
    requires count == 0 || (free == [] && lru == [])
    ensures Expect(free, lru, count) == (free, lru, [])
  {
    assert free[..0] + Slots(lru[..0]) == [];
  }

  ghost predicate TookMany(p: Pool, clocks: seq<nat>) {
    Took(p, TakeMany(p, clocks).0, TakeMany(p, clocks).1, |clocks|)
  }

  lemma TookFree(p: Pool, clocks: seq<nat>)
    requires clocks != [] && p.free != []
    requires TookMany(Take(p, clocks[0]).0, clocks[1..])
    ensures TookMany(p, clocks)
  {
    ExpectFree(p.free, p.lru, |clocks|);
  }

  lemma TookCommitted(p: Pool, clocks: seq<nat>)
    requires clocks != [] && p.free == [] && p.lru != []
    requires TookMany(Take(p, clocks[0]).0, clocks[1..])
    ensures TookMany(p, clocks)
  {
    ExpectCommitted(p.lru, |clocks|);
  }

  lemma {:induction false} TakeManyTakes(p: Pool, clocks: seq<nat>)
    ensures TookMany(p, clocks)
    decreases |clocks|
  {
    hide Expect;
    if clocks == [] {
      ExpectNothing(p.free, p.lru, 0);
    } else if p.free != [] {
      TakeManyTakes(Take(p, clocks[0]).0, clocks[1..]);
      TookFree(p, clocks);
    } else if p.lru != [] {
      TakeManyTakes(Take(p, clocks[0]).0, clocks[1..]);
      TookCommitted(p, clocks);
    } else {
      ExpectNothing(p.free, p.lru, |clocks|);
    }
  }

  lemma HeadSlice<T>(s: seq<T>, f: nat)
    requires 0 < f <= |s|
    ensures s[..f] == [s[0]] + s[1..][..f - 1] && s[1..][f - 1..] == s[f..]
  {
  }

  /** Reserve in one piece. Expired reservations are reclaimed only when the free
      queue cannot cover the request; committed slots are evicted only when both
      together cannot, as few as possible and least recently used first; and a
      short result means that every slot of the pool is reserved. */
  ghost predicate Guaranteed(p: Pool, q: Pool, out: seq<nat>, count: nat, now: nat) {
    var evicted := |p.lru| - |q.lru|;
    && |out| <= count && NoDup(out)
    && (count <= |p.free| ==> out == p.free[..count] && q.lru == p.lru && q.free == p.free[count..])
    && 0 <= evicted && q.lru == p.lru[evicted..]
    && (evicted > 0 ==> |p.free| + |Expired(p, now)| + evicted == |out|)
    && (forall i :: 0 <= i < evicted ==> p.lru[i].0 in out)
    && (|out| < count ==> q.free == [] && q.lru == [] && forall s :: 0 <= s < p.n ==> s in q.pending)
  }

  lemma ReserveGuarantees(p: Pool, now: nat, clocks: seq<nat>, order: seq<nat>)
    requires Inv(p) && (|p.free| < |clocks| ==> ReclaimOrder(p, now, order))
    ensures Guaranteed(p, Reserve(p, now, clocks, order).0, Reserve(p, now, clocks, order).1, |clocks|, now)
  {
    var a := AfterReclaim(p, |clocks|, now, order);
    TakeManyTakes(a, clocks);
    if |p.free| < |clocks| {
      ReclaimInv(p, now, order);
      SeqCard(order);
    }
    ReserveKeepsInv(p, now, clocks, order);
    TookGuarantees(p, a, TakeMany(a, clocks).0, TakeMany(a, clocks).1, |clocks|, now);
  }

  lemma TookGuarantees(p: Pool, a: Pool, q: Pool, out: seq<nat>, count: nat, now: nat)
    requires Took(a, q, out, count) && Inv(a) && Inv(q)
    requires a.n == p.n && a.lru == p.lru
    requires if |p.free| < count then |a.free| == |p.free| + |Expired(p, now)| else a == p
    ensures Guaranteed(p, q, out, count, now)
  {
    hide Expect, Inv, NoDup, Expired;
    TookFacts(a, q, out, count);
    TakenDistinct(a, Min(count, |a.free|), |a.lru| - |q.lru|);
    if |out| < count {
      AllPending(q);
    }
  }

  lemma AllPending(q: Pool)
    requires Inv(q) && q.free == [] && q.lru == []
    ensures forall s :: 0 <= s < q.n ==> s in q.pending
  {
    forall s | 0 <= s < q.n
      ensures s in q.pending
    {
      assert Held(q, s);
    }
  }

  lemma TookFacts(p: Pool, q: Pool, out: seq<nat>, count: nat)
    requires Took(p, q, out, count)
    ensures
      var f, evicted := Min(count, |p.free|), |p.lru| - |q.lru|;
      && 0 <= evicted && q.lru == p.lru[evicted..]
      && out == p.free[..f] + Slots(p.lru[..evicted])
      && (count <= |p.free| ==> evicted == 0 && out == p.free[..count] && q.free == p.free[count..])
      && (evicted > 0 ==> |p.free| + evicted == |out|)
      && (forall i :: 0 <= i < evicted ==> p.lru[i].0 in out)
      && (|out| < count ==> q.free == [] && q.lru == [])
      && |out| <= count
  {
    var f := Min(count, |p.free|);
    var e := Min(count - f, |p.lru|);
    forall i | 0 <= i < e
      ensures p.lru[i].0 in out
    {
      assert out[f + i] == p.lru[i].0;
    }
    assert e == 0 ==> p.free[..f] + Slots(p.lru[..0]) == p.free[..f];
  }

  lemma TakenDistinct(a: Pool, f: nat, e: nat)
    requires Inv(a) && f <= |a.free| && e <= |a.lru|
    ensures NoDup(a.free[..f] + Slots(a.lru[..e]))
  {
    assert Slots(a.lru[..e]) == Slots(a.lru)[..e];
    assert forall x :: x in a.free[..f] ==> x in a.free;
    assert forall x :: x in Slots(a.lru)[..e] ==> x in Slots(a.lru);
    NoDupAppend(a.free[..f], Slots(a.lru)[..e]);
  }

  lemma {:induction false} SeqCard(s: seq<nat>)
    requires NoDup(s)
    ensures |Elems(s)| == |s|
  {
    if s != [] {
      var last := |s| - 1;
      SeqCard(s[..last]);
      assert s == s[..last] + [s[last]];
      assert Elems(s) == Elems(s[..last]) + {s[last]};
      assert s[last] !in Elems(s[..last]);
    }
  }

  // ----- Runs

  datatype Op =
    | OpReserve(now: nat, clocks: seq<nat>, order: seq<nat>)
    | OpCommit(slot: nat, key: KeyHash)
    | OpLookup(key: KeyHash)
    | OpRelease(slot: nat)
    | OpClear

  /** The map walk of a reclaim may list the expired slots in any order. */
  ghost predicate Enabled(p: Pool, op: Op) {
    op.OpReserve? && |p.free| < |op.clocks| ==> ReclaimOrder(p, op.now, op.order)
  }

  function Apply(p: Pool, op: Op): Pool {
    match op
    case OpReserve(now, clocks, order) => Reserve(p, now, clocks, order).0
    case OpCommit(slot, key) => Commit(p, slot, key).0
    case OpLookup(key) => Lookup(p, key).0
    case OpRelease(slot) => Release(p, slot)
    case OpClear => Clear(p)
  }

  /** The slots an operation hands out. */
  function Granted(p: Pool, op: Op): seq<nat> {
    if op.OpReserve? then Reserve(p, op.now, op.clocks, op.order).1 else []
  }

  /** `states[i + 1]` is what the i-th operation makes of `states[i]`. */
  ghost predicate Run(states: seq<Pool>, ops: seq<Op>) {
    && |states| == |ops| + 1
    && forall i :: 0 <= i < |ops| ==> Enabled(states[i], ops[i]) && states[i + 1] == Apply(states[i], ops[i])
  }

  lemma ApplyInv(p: Pool, op: Op)
    requires Inv(p) && Enabled(p, op)
    ensures Inv(Apply(p, op))
  {
    match op
    case OpReserve(now, clocks, order) => ReserveKeepsInv(p, now, clocks, order);
    case OpCommit(slot, key) => CommitInv(p, slot, key);
    case OpLookup(key) => LookupInv(p, key);
    case OpRelease(slot) => ReleaseInv(p, slot);
    case OpClear => FreshInv(p.n, p.ttl);
  }

  /** Over every run from a fresh pool, free, pending and committed slots
      partition 0..n and keys and committed slots correspond one to one. */
  lemma {:induction false} RunInv(states: seq<Pool>, ops: seq<Op>, i: nat)
    requires Run(states, ops) && Inv(states[0]) && i < |states|
    ensures Inv(states[i])
  {
    if i > 0 {
      RunInv(states, ops, i - 1);
      ApplyInv(states[i - 1], ops[i - 1]);
    }
  }

  /** The operations that end the reservation of `s` with deadline `d`. */
  predicate Ends(op: Op, s: nat, d: nat) {
    match op
    case OpReserve(now, _, _) => d <= now
    case OpCommit(slot, _) => slot == s
    case OpRelease(slot) => slot == s
    case OpClear => true
    case OpLookup(_) => false
  }

  lemma {:induction false} TakeManyKeeps(p: Pool, clocks: seq<nat>, s: nat)
    requires Inv(p) && s in p.pending
    ensures
      var (q, out) := TakeMany(p, clocks);
      s !in out && s in q.pending && q.pending[s] == p.pending[s]
    decreases |clocks|
  {
    if clocks != [] && Take(p, clocks[0]).1.Some? {
      TakeInv(p, clocks[0]);
      TakeManyKeeps(Take(p, clocks[0]).0, clocks[1..], s);
    }
  }

  lemma ReservationKept(p: Pool, op: Op, s: nat)
    requires Inv(p) && Enabled(p, op) && s in p.pending && !Ends(op, s, p.pending[s])
    ensures s !in Granted(p, op)
    ensures s in Apply(p, op).pending && Apply(p, op).pending[s] == p.pending[s]
  {
    if op.OpReserve? {
      if |p.free| < |op.clocks| {
        ReclaimInv(p, op.now, op.order);
      }
      TakeManyKeeps(AfterReclaim(p, |op.clocks|, op.now, op.order), op.clocks, s);
    }
  }

  /** Over every run: until an operation ends its reservation, a reserved slot is
      never handed out again and keeps its deadline. */
  lemma {:induction false} ReservedNotReissued(states: seq<Pool>, ops: seq<Op>, s: nat, j: nat)
    requires Run(states, ops) && Inv(states[0]) && s in states[0].pending
    requires forall i :: 0 <= i < |ops| ==> !Ends(ops[i], s, states[0].pending[s])
    requires j < |states|
    ensures s in states[j].pending && states[j].pending[s] == states[0].pending[s]
    ensures forall i :: 0 <= i < j ==> s !in Granted(states[i], ops[i])
  {
    if j > 0 {
      ReservedNotReissued(states, ops, s, j - 1);
      RunInv(states, ops, j - 1);
      ReservationKept(states[j - 1], ops[j - 1], s);
    }
  }

  // ----- Recency

  /** The slot an operation uses: the one a successful commit binds or a lookup finds. */
  function Used(p: Pool, op: Op): Option<nat> {
    match op
    case OpCommit(slot, key) => if Commit(p, slot, key).1 then Some(slot) else None
    case OpLookup(key) => Lookup(p, key).1
    case _ => None
  }

  function Uses(states: seq<Pool>, ops: seq<Op>): (u: seq<Option<nat>>)
    requires |states| == |ops| + 1
    ensures |u| == |ops|
  {
    seq(|ops|, i requires 0 <= i < |ops| => Used(states[i], ops[i]))
  }

  /** Index of the last use of `s`, or -1. */
  function LastUse(uses: seq<Option<nat>>, s: nat): (r: int)
    ensures -1 <= r < |uses|
  {
    if uses == [] then -1
    else if uses[|uses| - 1] == Some(s) then |uses| - 1
    else LastUse(uses[..|uses| - 1], s)
  }

  ghost predicate ByRecency(lru: seq<(nat, KeyHash)>, uses: seq<Option<nat>>) {
    && (forall i :: 0 <= i < |lru| ==> 0 <= LastUse(uses, lru[i].0))
    && (forall i, j :: 0 <= i < j < |lru| ==> LastUse(uses, lru[i].0) < LastUse(uses, lru[j].0))
  }

  /** After an operation that used slot `u`, or none, every other slot's last use
      is as before. */
  lemma LastUseSnoc(uses: seq<Option<nat>>, u: Option<nat>, s: nat)
    ensures LastUse(uses + [u], s) == (if u == Some(s) then |uses| else LastUse(uses, s))
  {
    assert (uses + [u])[..|uses|] == uses;
  }

  lemma RecencySnoc(before: seq<(nat, KeyHash)>, uses: seq<Option<nat>>, u: nat, k: KeyHash)
    requires ByRecency(before, uses) && u !in Slots(before)
    ensures ByRecency(before + [(u, k)], uses + [Some(u)])
  {
    forall s
      ensures LastUse(uses + [Some(u)], s) == (if u == s then |uses| else LastUse(uses, s))
    {
      LastUseSnoc(uses, Some(u), s);
    }
    assert forall i :: 0 <= i < |before| ==> Slots(before)[i] == before[i].0;
  }

  lemma RecencyIdle(lru: seq<(nat, KeyHash)>, uses: seq<Option<nat>>)
    requires ByRecency(lru, uses)
    ensures ByRecency(lru, uses + [None])
  {
    forall s
      ensures LastUse(uses + [None], s) == LastUse(uses, s)
    {
      LastUseSnoc(uses, None, s);
    }
  }

  lemma RecencyWithout(lru: seq<(nat, KeyHash)>, uses: seq<Option<nat>>, i: nat)
    requires ByRecency(lru, uses) && i < |lru|
    ensures ByRecency(Without(lru, i), uses)
  {
    var r := Without(lru, i);
    assert forall j :: 0 <= j < |r| ==> r[j] == lru[if j < i then j else j + 1];
  }

  lemma RecencySuffix(lru: seq<(nat, KeyHash)>, uses: seq<Option<nat>>, e: nat)
    requires ByRecency(lru, uses) && e <= |lru|
    ensures ByRecency(lru[e..], uses)
  {
  }

  lemma RecencyTouch(lru: seq<(nat, KeyHash)>, uses: seq<Option<nat>>, i: nat)
    requires ByRecency(lru, uses) && i < |lru| && NoDup(Slots(lru))
    ensures ByRecency(Touch(lru, i), uses + [Some(lru[i].0)])
  {
    RecencyWithout(lru, uses, i);
    WithoutSlots(lru, i);
    WithoutFacts(Slots(lru), i);
    RecencySnoc(Without(lru, i), uses, lru[i].0, lru[i].1);
  }

  lemma RecencyCommit(p: Pool, s: nat, k: KeyHash, uses: seq<Option<nat>>)
    requires Inv(p) && ByRecency(p.lru, uses)
    ensures ByRecency(Commit(p, s, k).0.lru, uses + [Used(p, OpCommit(s, k))])
  {
    if Bound(p, s, k) {
      RecencyTouch(p.lru, uses, FindSlot(p.lru, s).value);
    } else if s !in p.pending {
      RecencyIdle(p.lru, uses);
    } else {
      match FindKey(p.lru, k)
      case None => RecencySnoc(p.lru, uses, s, k);
      case Some(i) =>
        RecencyWithout(p.lru, uses, i);
        WithoutSlots(p.lru, i);
        WithoutFacts(Slots(p.lru), i);
        RecencySnoc(Without(p.lru, i), uses, s, k);
    }
  }

  lemma RecencyStep(p: Pool, op: Op, uses: seq<Option<nat>>)
    requires Inv(p) && Enabled(p, op) && ByRecency(p.lru, uses)
    ensures ByRecency(Apply(p, op).lru, uses + [Used(p, op)])
  {
    match op
    case OpReserve(now, clocks, order) =>
      ReserveGuarantees(p, now, clocks, order);
      var q := Reserve(p, now, clocks, order).0;
      RecencySuffix(p.lru, uses, |p.lru| - |q.lru|);
      RecencyIdle(q.lru, uses);
    case OpCommit(slot, key) => RecencyCommit(p, slot, key, uses);
    case OpLookup(key) =>
      match FindKey(p.lru, key) {
        case None => RecencyIdle(p.lru, uses);
        case Some(i) => RecencyTouch(p.lru, uses, i);
      }
    case OpRelease(slot) =>
      match FindSlot(p.lru, slot) {
        case None =>
        case Some(i) => RecencyWithout(p.lru, uses, i);
      }
      RecencyIdle(Release(p, slot).lru, uses);
    case OpClear =>
  }

  lemma PrefixRun(states: seq<Pool>, ops: seq<Op>)
    requires Run(states, ops) && ops != []
    ensures Run(states[..|ops|], ops[..|ops| - 1])
    ensures Uses(states, ops)
         == Uses(states[..|ops|], ops[..|ops| - 1]) + [Used(states[|ops| - 1], ops[|ops| - 1])]
  {
  }

  /** Over every run from a fresh pool the committed slots are listed in the order
      of their last commit or lookup, so the one reserve evicts first is the one
      whose last use is furthest back. */
  lemma {:induction false} RunByRecency(states: seq<Pool>, ops: seq<Op>, n: nat, ttl: nat)
    requires Run(states, ops) && states[0] == Fresh(n, ttl)
    ensures ByRecency(states[|ops|].lru, Uses(states, ops))
    decreases |ops|
  {
    if ops != [] {
      var k := |ops| - 1;
      var states', ops' := states[..|ops|], ops[..k];
      PrefixRun(states, ops);
      RunByRecency(states', ops', n, ttl);
      FreshInv(n, ttl);
      RunInv(states, ops, k);
      RecencyStep(states[k], ops[k], Uses(states', ops'));
    }
  }
}
