/** One node's lock table: at most one holder per resource, with the time of its
    last refresh (crates/openlake_server/src/lock_server.rs:28-99). */
module LockTable {
  import opened Bytes

  datatype Entry<U> = Entry(uid: U, stamp: nat)

  type Table<U> = map<string, Entry<U>>

  /** `saturating_duration_since`. */
  function Age(now: nat, stamp: nat): nat {
    if stamp <= now then now - stamp else 0
  }

  predicate Live<U>(e: Entry<U>, now: nat, validity: nat) {
    Age(now, e.stamp) < validity
  }

  /** The resource is taken: its entry is younger than `validity`. */
  predicate Taken<U>(t: Table<U>, now: nat, validity: nat, resource: string) {
    resource in t && Live(t[resource], now, validity)
  }

  predicate HeldBy<U(==)>(t: Table<U>, resource: string, uid: U) {
    resource in t && t[resource].uid == uid
  }

  function Acquire<U>(t: Table<U>, now: nat, validity: nat, resource: string, uid: U): (Table<U>, bool) {
    if Taken(t, now, validity, resource) then (t, false) else (t[resource := Entry(uid, now)], true)
  }

  function Refresh<U(==)>(t: Table<U>, now: nat, resource: string, uid: U): (Table<U>, bool) {
    if HeldBy(t, resource, uid) then (t[resource := Entry(uid, now)], true) else (t, false)
  }

  function Release<U(==)>(t: Table<U>, resource: string, uid: U): Table<U> {
    if HeldBy(t, resource, uid) then t - {resource} else t
  }

  function ExpireOld<U>(t: Table<U>, now: nat, validity: nat): Table<U> {
    map r | r in t && Live(t[r], now, validity) :: t[r]
  }

  lemma ExpireCount<U>(t: Table<U>, now: nat, validity: nat)
    ensures |ExpireOld(t, now, validity)| <= |t|
  {
    var kept := ExpireOld(t, now, validity);
    assert kept.Keys <= t.Keys;
    SubsetSize(kept.Keys, t.Keys);
    assert |kept| == |kept.Keys| && |t| == |t.Keys|;
  }

  class LockServer {
    var locks: Table<string>
    const validity: nat

    constructor (validity: nat)
      ensures this.validity == validity && locks == map[]
    {
      this.validity := validity;
      locks := map[];
    }

    /** Grants iff no live entry is in the way; only this resource's entry changes. */
    method TryAcquire(now: nat, resource: string, uid: string) returns (ok: bool)
      modifies this
      ensures ok <==> resource !in old(locks) || validity == 0 || old(locks)[resource].stamp + validity <= now
      ensures ok ==> locks == old(locks)[resource := Entry(uid, now)]
      ensures !ok ==> locks == old(locks)
      ensures (locks, ok) == Acquire(old(locks), now, validity, resource, uid)
    {
      if resource in locks && Age(now, locks[resource].stamp) < validity {
        return false;
      }
      locks := locks[resource := Entry(uid, now)];
      return true;
    }

    method TryRefresh(now: nat, resource: string, uid: string) returns (ok: bool)
      modifies this
      ensures ok <==> resource in old(locks) && old(locks)[resource].uid == uid
      ensures locks == if ok then old(locks)[resource := Entry(uid, now)] else old(locks)
      ensures (locks, ok) == Refresh(old(locks), now, resource, uid)
    {
      if resource in locks && locks[resource].uid == uid {
        locks := locks[resource := Entry(uid, now)];
        return true;
      }
      return false;
    }

    method DoRelease(resource: string, uid: string)
      modifies this
      ensures forall r :: r in locks <==> r in old(locks) && (r == resource ==> old(locks)[r].uid != uid)
      ensures forall r :: r in locks ==> locks[r] == old(locks)[r]
      ensures locks == Release(old(locks), resource, uid)
      ensures !HeldBy(locks, resource, uid)
    {
      if resource in locks && locks[resource].uid == uid {
        locks := locks - {resource};
      }
    }

    /** Drops every entry past its validity and counts them. */
    method Sweep(now: nat) returns (reclaimed: nat)
      modifies this
      ensures forall r :: r in locks <==> r in old(locks) && validity > 0 && now < old(locks)[r].stamp + validity
      ensures forall r :: r in locks ==> locks[r] == old(locks)[r]
      ensures locks == ExpireOld(old(locks), now, validity)
      ensures reclaimed == |old(locks)| - |locks|
    {
      ghost var before := locks;
      var kept: Table<string> := map[];
      var todo := locks.Keys;
      while todo != {}
        invariant todo <= locks.Keys && locks == before
        invariant forall r :: r in kept <==> r in locks && r !in todo && Live(locks[r], now, validity)
        invariant forall r :: r in kept ==> kept[r] == locks[r]
        decreases |todo|
      {
        var r :| r in todo;
        if Age(now, locks[r].stamp) < validity {
          kept := kept[r := locks[r]];
        }
        todo := todo - {r};
      }
      assert kept == ExpireOld(locks, now, validity);
      ExpireCount(locks, now, validity);
      reclaimed := |locks| - |kept|;
      locks := kept;
    }
  }
}
