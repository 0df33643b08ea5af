/** The slot pool as its callers see it: which key is found in which slot, and
    which slots may be written (crates/openlake_io/src/kv.rs:41-146). */
module SlotDirectory {
  import opened Bytes
  import opened SlotPoolSpec

  /** Slot s is committed under k. */
  predicate Binds(p: Pool, k: KeyHash, s: nat) {
    (s, k) in p.lru
  }

  /** The directory of q is that of p. */
  ghost predicate SameDirectory(p: Pool, q: Pool) {
    forall k, s {:trigger Binds(q, k, s)} :: Binds(q, k, s) <==> Binds(p, k, s)
  }

  lemma BindsListed(p: Pool, k: KeyHash, s: nat)
    ensures Binds(p, k, s) ==> s in Slots(p.lru) && k in Keys(p.lru)
  {
    if Binds(p, k, s) {
      var j :| 0 <= j < |p.lru| && p.lru[j] == (s, k);
      assert Slots(p.lru)[j] == s && Keys(p.lru)[j] == k;
    }
  }

  lemma BindsOnce(p: Pool, i: nat, j: nat)
    requires Inv(p) && i < |p.lru| && j < |p.lru| && (p.lru[i].0 == p.lru[j].0 || p.lru[i].1 == p.lru[j].1)
    ensures i == j
  {
    assert Slots(p.lru)[i] == p.lru[i].0 && Slots(p.lru)[j] == p.lru[j].0;
    assert Keys(p.lru)[i] == p.lru[i].1 && Keys(p.lru)[j] == p.lru[j].1;
  }

  /** What a lookup answers is the slot the key is committed in, and nothing but the
      order of use changes. */
  lemma LookupFinds(p: Pool, k: KeyHash)
    requires Inv(p)
    ensures forall s: nat :: Lookup(p, k).1 == Some(s) <==> Binds(p, k, s)
    ensures
      var q := Lookup(p, k).0;
      SameDirectory(p, q) && q.free == p.free && q.pending == p.pending && q.n == p.n && q.ttl == p.ttl
  {
    forall s: nat
      ensures Lookup(p, k).1 == Some(s) <==> Binds(p, k, s)
    {
      if Binds(p, k, s) {
        var j :| 0 <= j < |p.lru| && p.lru[j] == (s, k);
        assert Keys(p.lru)[j] == k;
        BindsOnce(p, FindKey(p.lru, k).value, j);
      }
    }
    if FindKey(p.lru, k).Some? {
      TouchMembers(p.lru, FindKey(p.lru, k).value);
    }
  }

  lemma TouchMembers<T>(s: seq<T>, i: nat)
    requires i < |s|
    ensures forall x :: x in Touch(s, i) <==> x in s
  {
    WithoutFacts(s, i);
    forall x | x in s
      ensures x in Touch(s, i)
    {
      if x != s[i] {
        assert x in Without(s, i);
      } else {
        assert Touch(s, i)[|s| - 1] == x;
      }
    }
  }

  lemma WithoutMembers(p: Pool, i: nat)
    requires Inv(p) && i < |p.lru|
    ensures forall e :: e in Without(p.lru, i) <==> e in p.lru && e != p.lru[i]
    ensures forall e :: e in p.lru && (e.0 == p.lru[i].0 || e.1 == p.lru[i].1) ==> e == p.lru[i]
  {
    hide Inv;
    WithoutFacts(p.lru, i);
    forall e | e in p.lru && (e.0 == p.lru[i].0 || e.1 == p.lru[i].1)
      ensures e == p.lru[i]
    {
      var j :| 0 <= j < |p.lru| && p.lru[j] == e;
      BindsOnce(p, i, j);
    }
    forall e | e in Without(p.lru, i)
      ensures e != p.lru[i]
    {
      var j :| 0 <= j < |Without(p.lru, i)| && Without(p.lru, i)[j] == e;
      if e == p.lru[i] {
        BindsOnce(p, i, if j < i then j else j + 1);
      }
    }
  }

  /** A commit succeeds exactly for a reserved slot, or one that already holds the
      key; then the key is found in that slot and nowhere else, every other key is
      found where it was, and a slot the key held before is free. */
  lemma CommitBinds(p: Pool, s: nat, k: KeyHash)
    requires Inv(p)
    ensures
      var (q, ok) := Commit(p, s, k);
      && (ok <==> s in p.pending || Binds(p, k, s))
      && (!ok ==> q == p)
      && (ok ==>
            && (forall l, x {:trigger Binds(q, l, x)} :: Binds(q, l, x) <==> (if l == k then x == s else Binds(p, l, x)))
            && q.pending == p.pending - {s}
            && (forall x :: x in q.free <==> x in p.free || (x != s && Binds(p, k, x))))
  {
    var (q, ok) := Commit(p, s, k);
    BoundMeans(p, s, k);
    if Bound(p, s, k) {
      var i := FindSlot(p.lru, s).value;
      TouchMembers(p.lru, i);
      WithoutMembers(p, i);
    } else if s in p.pending {
      NotListed(p, s);
      match FindKey(p.lru, k) {
        case None => NoKey(p, k);
        case Some(i) => WithoutMembers(p, i);
      }
    }
  }

  lemma BoundMeans(p: Pool, s: nat, k: KeyHash)
    requires Inv(p)
    ensures Bound(p, s, k) <==> Binds(p, k, s)
  {
    if Binds(p, k, s) {
      var j :| 0 <= j < |p.lru| && p.lru[j] == (s, k);
      assert Slots(p.lru)[j] == s;
      BindsOnce(p, FindSlot(p.lru, s).value, j);
    }
  }

  lemma NotListed(p: Pool, s: nat)
    requires Inv(p) && s in p.pending
    ensures forall k :: !Binds(p, k, s)
  {
    forall k
      ensures !Binds(p, k, s)
    {
      BindsListed(p, k, s);
    }
  }

  lemma NoKey(p: Pool, k: KeyHash)
    requires FindKey(p.lru, k).None?
    ensures forall s: nat :: !Binds(p, k, s)
  {
    forall s: nat
      ensures !Binds(p, k, s)
    {
      BindsListed(p, k, s);
    }
  }

  /** A release forgets the slot's key and frees the slot, if it was committed or
      reserved, and changes nothing else. */
  lemma ReleaseFrees(p: Pool, s: nat)
    requires Inv(p)
    ensures
      var q := Release(p, s);
      && (forall k, x {:trigger Binds(q, k, x)} :: Binds(q, k, x) <==> Binds(p, k, x) && x != s)
      && q.pending == p.pending - {s}
      && (forall x :: x in q.free <==> x in p.free || (x == s && (s in p.pending || exists k :: Binds(p, k, s))))
  {
    var q := Release(p, s);
    match FindSlot(p.lru, s) {
      case Some(i) =>
        WithoutMembers(p, i);
        assert Binds(p, p.lru[i].1, s);
        assert Slots(p.lru)[i] == s;
      case None =>
        forall k
          ensures !Binds(p, k, s)
        {
          BindsListed(p, k, s);
        }
    }
  }

  /** A clear forgets every key and frees every slot. */
  lemma ClearFrees(p: Pool)
    ensures
      var q := Clear(p);
      && (forall k, x :: !Binds(q, k, x)) && q.pending == map[] && (forall x: nat :: x in q.free <==> x < p.n) && q.n == p.n && q.ttl == p.ttl
  {
    forall x: nat
      ensures x in Clear(p).free <==> x < p.n
    {
      if x < p.n {
        assert Upto(p.n)[x] == x;
      }
    }
  }

  // ----- Reservations

  /** The slots handed out are reserved until their own clock plus the lifetime. */
  lemma {:induction false} TakeManyReserves(p: Pool, clocks: seq<nat>)
    requires Inv(p)
    ensures
      var (q, out) := TakeMany(p, clocks);
      && |out| <= |clocks| && q.ttl == p.ttl && q.n == p.n
      && (forall i :: 0 <= i < |out| ==> out[i] in q.pending && q.pending[out[i]] == clocks[i] + p.ttl)
      && (forall s :: s in q.pending <==> s in out || s in p.pending)
      && (forall s :: s in p.pending ==> s !in out && q.pending[s] == p.pending[s])
      && (forall k, x {:trigger Binds(q, k, x)} :: Binds(q, k, x) <==> Binds(p, k, x) && x !in out)
    decreases |clocks|
  {
    if clocks != [] && Take(p, clocks[0]).1.Some? {
      var (m, s) := Take(p, clocks[0]);
      TakeInv(p, clocks[0]);
      TakeManyReserves(m, clocks[1..]);
      TakeManyKeeps(m, clocks[1..], s.value);
      TakeUnbinds(p, clocks[0]);
      var (q, rest) := TakeMany(m, clocks[1..]);
      assert TakeMany(p, clocks) == (q, [s.value] + rest);
      assert s.value !in p.pending by {
        NotReserved(p, clocks[0]);
      }
    }
  }

  lemma NotReserved(p: Pool, now: nat)
    requires Inv(p) && Take(p, now).1.Some?
    ensures Take(p, now).1.value !in p.pending
  {
    if p.free != [] {
      assert p.free[0] in p.free;
    } else {
      assert Slots(p.lru)[0] == p.lru[0].0;
    }
  }

  lemma TakeUnbinds(p: Pool, now: nat)
    requires Inv(p) && Take(p, now).1.Some?
    ensures
      var (q, s) := Take(p, now);
      && s.value in q.pending && q.pending == p.pending[s.value := now + p.ttl] && q.ttl == p.ttl && q.n == p.n
      && forall k, x {:trigger Binds(q, k, x)} :: Binds(q, k, x) <==> Binds(p, k, x) && x != s.value
  {
    if p.free != [] {
      var s := p.free[0];
      forall k
        ensures !Binds(p, k, s)
      {
        assert s in p.free;
        BindsListed(p, k, s);
      }
    } else {
      WithoutMembers(p, 0);
      assert Without(p.lru, 0) == p.lru[1..];
    }
  }

  /** A reclaim frees exactly the slots whose deadline is not ahead. */
  lemma ReclaimFrees(p: Pool, now: nat, order: seq<nat>)
    requires ReclaimOrder(p, now, order)
    ensures
      var q := Reclaim(p, now, order);
      && (forall s :: s in q.pending <==> s in p.pending && now < p.pending[s])
      && (forall s :: s in q.pending ==> q.pending[s] == p.pending[s])
      && (forall x :: x in q.free <==> x in p.free || (x in p.pending && p.pending[x] <= now))
      && SameDirectory(p, q) && q.n == p.n && q.ttl == p.ttl
  {
    forall x
      ensures x in order <==> x in p.pending && p.pending[x] <= now
    {
      assert x in order <==> x in Elems(order);
    }
  }

  /** A reserve hands out slots that are reserved from then on, and takes away no
      key but those of the slots it hands out. Another reservation ends only if it
      is past its deadline and the free slots do not cover the request. */
  lemma ReserveReserves(p: Pool, now: nat, clocks: seq<nat>, order: seq<nat>)
    requires Inv(p) && Enabled(p, OpReserve(now, clocks, order))
    ensures
      var (q, out) := Reserve(p, now, clocks, order);
      && |out| <= |clocks|
      && (forall i :: 0 <= i < |out| ==> out[i] in q.pending && q.pending[out[i]] == clocks[i] + p.ttl)
      && (forall s :: s in q.pending <==> s in out || (s in p.pending && (|p.free| >= |clocks| || now < p.pending[s])))
      && (forall s :: s in q.pending && s !in out ==> q.pending[s] == p.pending[s])
      && (forall k, x {:trigger Binds(q, k, x)} :: Binds(q, k, x) <==> Binds(p, k, x) && x !in out)
  {
    hide Inv, Reclaim, TakeMany, ReclaimOrder;
    if |p.free| < |clocks| {
      ReclaimInv(p, now, order);
      ReclaimFrees(p, now, order);
    }
    TakeManyReserves(AfterReclaim(p, |clocks|, now, order), clocks);
  }

  // ----- Over runs

  /** The operations after which k is no longer to be found in s: s is released or
      handed out again, the pool is cleared, or k is committed elsewhere. */
  ghost predicate Unbinds(p: Pool, op: Op, k: KeyHash, s: nat) {
    match op
    case OpReserve(_, _, _) => s in Granted(p, op)
    case OpCommit(slot, key) => key == k && slot != s && slot in p.pending
    case OpRelease(slot) => slot == s
    case OpClear => true
    case OpLookup(_) => false
  }

  lemma StaysBound(p: Pool, op: Op, k: KeyHash, s: nat)
    requires Inv(p) && Enabled(p, op) && Binds(p, k, s)
    ensures Binds(Apply(p, op), k, s) <==> !Unbinds(p, op, k, s)
  {
    hide Inv, Enabled;
    match op {
      case OpReserve(now, clocks, order) => ReserveReserves(p, now, clocks, order);
      case OpCommit(slot, key) =>
        CommitBinds(p, slot, key);
        if key == k && slot != s && Binds(p, k, slot) {
          OneSlot(p, k, s, slot);
        }
      case OpRelease(slot) => ReleaseFrees(p, slot);
      case OpClear => ClearFrees(p);
      case OpLookup(key) => LookupFinds(p, key);
    }
  }

  lemma OneSlot(p: Pool, k: KeyHash, s: nat, x: nat)
    requires Inv(p) && Binds(p, k, s) && Binds(p, k, x)
    ensures x == s
  {
    var i :| 0 <= i < |p.lru| && p.lru[i] == (s, k);
    var j :| 0 <= j < |p.lru| && p.lru[j] == (x, k);
    BindsOnce(p, i, j);
  }

  /** Over every run: once k has been committed in s, a lookup of k gives s until an
      operation unbinds it, and not after that operation. */
  lemma {:induction false} FoundUntilUnbound(states: seq<Pool>, ops: seq<Op>, k: KeyHash, s: nat, j: nat)
    requires Run(states, ops) && Inv(states[0]) && ops != [] && ops[0] == OpCommit(s, k) && Commit(states[0], s, k).1
    requires 1 <= j < |states| && forall i :: 1 <= i < j - 1 ==> !Unbinds(states[i], ops[i], k, s)
    ensures Lookup(states[j], k).1 == Some(s) <==> j == 1 || !Unbinds(states[j - 1], ops[j - 1], k, s)
  {
    hide Inv, Enabled, Unbinds, Binds;
    RunInv(states, ops, j);
    LookupFinds(states[j], k);
    RunInv(states, ops, j - 1);
    if j == 1 {
      CommitBinds(states[0], s, k);
    } else {
      FoundUntilUnbound(states, ops, k, s, j - 1);
      LookupFinds(states[j - 1], k);
      StaysBound(states[j - 1], ops[j - 1], k, s);
    }
  }
}
