/** The KV slot allocator as it is: a queue, three maps and a doubly linked
    recency list held in two arrays, updated in place
    (crates/openlake_io/src/kv.rs:10-181). */
module SlotPool {
  import opened Bytes
  import Spec = SlotPoolSpec

  type KeyHash = Spec.KeyHash

  /** `u32::MAX`, the end marker of the links. */
  const NIL: nat := 0xFFFF_FFFF

  /** Keys and committed slots correspond one to one, and the list holds exactly
      the committed slots. */
  ghost predicate Inverse(order: seq<nat>, byHash: map<KeyHash, nat>, bySlot: map<nat, KeyHash>) {
    && (forall s :: s in order <==> s in bySlot)
    && (forall k :: k in byHash ==> byHash[k] in bySlot && bySlot[byHash[k]] == k)
    && (forall s :: s in bySlot ==> bySlot[s] in byHash && byHash[bySlot[s]] == s)
  }

  /** Slots with their keys. */
  function Pairs(order: seq<nat>, bySlot: map<nat, KeyHash>): (lru: seq<(nat, KeyHash)>)
    requires forall s :: s in order ==> s in bySlot
    ensures |lru| == |order|
    ensures forall i :: 0 <= i < |lru| ==> lru[i] == (order[i], bySlot[order[i]])
  {
    seq(|order|, i requires 0 <= i < |order| => (order[i], bySlot[order[i]]))
  }

  /** Entry i of the list, NIL outside it. */
  function At(order: seq<nat>, i: int): nat {
    if 0 <= i < |order| then order[i] else NIL
  }

  /** The i-th listed slot is linked to its neighbours. */
  ghost predicate LinkAt(prev: seq<nat>, next: seq<nat>, order: seq<nat>, i: nat)
    requires i < |order|
  {
    && order[i] < |prev| && order[i] < |next|
    && next[order[i]] == At(order, i + 1) && prev[order[i]] == At(order, i - 1)
  }

  /** The links spell out `order` in both directions, end in NIL, and every slot
      that is not listed is unlinked. */
  ghost predicate Links(prev: seq<nat>, next: seq<nat>, head: nat, tail: nat, order: seq<nat>) {
    && |prev| == |next| <= NIL
    && Spec.NoDup(order)
    && (forall i :: 0 <= i < |order| ==> order[i] < |prev|)
    && head == At(order, 0) && tail == At(order, |order| - 1)
    && (forall i {:trigger LinkAt(prev, next, order, i)} :: 0 <= i < |order| ==> LinkAt(prev, next, order, i))
    && (forall s :: 0 <= s < |prev| && s !in order ==> prev[s] == NIL && next[s] == NIL)
  }

  /** `b` is `a` with the links of two entries set. */
  ghost predicate Relinked(a: seq<nat>, b: seq<nat>, x: nat, vx: nat, y: nat, vy: nat) {
    && |b| == |a|
    && forall s :: 0 <= s < |a| ==> b[s] == (if s == x then vx else if s == y then vy else a[s])
  }

  lemma EmptyLinks(prev: seq<nat>, next: seq<nat>)
    requires |prev| == |next| <= NIL
    requires forall s :: 0 <= s < |prev| ==> prev[s] == NIL && next[s] == NIL
    ensures Links(prev, next, NIL, NIL, [])
  {
  }

  lemma AttachAt(prev: seq<nat>, next: seq<nat>, head: nat, tail: nat, order: seq<nat>, slot: nat,
                 prev': seq<nat>, next': seq<nat>, i: nat)
    requires Links(prev, next, head, tail, order) && slot < |prev| && slot !in order
    requires Relinked(prev, prev', slot, tail, slot, tail) && Relinked(next, next', slot, NIL, tail, slot)
    requires i <= |order|
    ensures LinkAt(prev', next', order + [slot], i)
  {
    if i < |order| {
      assert LinkAt(prev, next, order, i);
      assert (order + [slot])[i] == order[i];
      if i < |order| - 1 {
        assert order[i] != order[|order| - 1];
      }
    }
  }

  lemma AttachLinks(prev: seq<nat>, next: seq<nat>, head: nat, tail: nat, order: seq<nat>, slot: nat,
                    prev': seq<nat>, next': seq<nat>)
    requires Links(prev, next, head, tail, order) && slot < |prev| && slot !in order
    requires Relinked(prev, prev', slot, tail, slot, tail) && Relinked(next, next', slot, NIL, tail, slot)
    ensures Links(prev', next', if tail != NIL then head else slot, slot, order + [slot])
  {
    forall i | 0 <= i < |order + [slot]|
      ensures LinkAt(prev', next', order + [slot], i)
    {
      AttachAt(prev, next, head, tail, order, slot, prev', next', i);
    }
  }

  lemma AtWithout(order: seq<nat>, i: nat, m: int)
    requires i < |order|
    ensures At(Spec.Without(order, i), m) == At(order, if m < i then m else m + 1)
  {
  }

  lemma DetachAt(prev: seq<nat>, next: seq<nat>, head: nat, tail: nat, order: seq<nat>, i: nat,
                 prev': seq<nat>, next': seq<nat>, j: nat)
    requires Links(prev, next, head, tail, order) && i < |order|
    requires Relinked(prev, prev', order[i], NIL, At(order, i + 1), At(order, i - 1))
    requires Relinked(next, next', order[i], NIL, At(order, i - 1), At(order, i + 1))
    requires j < |order| - 1
    ensures LinkAt(prev', next', Spec.Without(order, i), j)
  {
    var k := if j < i then j else j + 1;
    assert LinkAt(prev, next, order, k);
    AtWithout(order, i, j - 1);
    AtWithout(order, i, j);
    AtWithout(order, i, j + 1);
    assert order[k] != order[i];
    assert order[k] == At(order, i - 1) <==> k == i - 1;
    assert order[k] == At(order, i + 1) <==> k == i + 1;
  }

  /** Taking entry i out: its neighbours are linked to each other. */
  lemma DetachLinks(prev: seq<nat>, next: seq<nat>, head: nat, tail: nat, order: seq<nat>, i: nat,
                    prev': seq<nat>, next': seq<nat>)
    requires Links(prev, next, head, tail, order) && i < |order|
    requires Relinked(prev, prev', order[i], NIL, At(order, i + 1), At(order, i - 1))
    requires Relinked(next, next', order[i], NIL, At(order, i - 1), At(order, i + 1))
    ensures
      var p, n := At(order, i - 1), At(order, i + 1);
      Links(prev', next', if p != NIL then head else n, if n != NIL then tail else p, Spec.Without(order, i))
  {
    var order' := Spec.Without(order, i);
    Spec.WithoutFacts(order, i);
    forall j | 0 <= j < |order'|
      ensures LinkAt(prev', next', order', j)
    {
      DetachAt(prev, next, head, tail, order, i, prev', next', j);
    }
    DetachOthers(prev, next, head, tail, order, i, prev', next');
    AtWithout(order, i, 0);
    AtWithout(order, i, |order| - 2);
  }

  lemma DetachOthers(prev: seq<nat>, next: seq<nat>, head: nat, tail: nat, order: seq<nat>, i: nat,
                     prev': seq<nat>, next': seq<nat>)
    requires Links(prev, next, head, tail, order) && i < |order|
    requires Relinked(prev, prev', order[i], NIL, At(order, i + 1), At(order, i - 1))
    requires Relinked(next, next', order[i], NIL, At(order, i - 1), At(order, i + 1))
    ensures forall s :: 0 <= s < |prev| && s !in Spec.Without(order, i) ==> prev'[s] == NIL && next'[s] == NIL
  {
    Spec.WithoutFacts(order, i);
    forall s | 0 <= s < |prev| && s !in Spec.Without(order, i)
      ensures prev'[s] == NIL && next'[s] == NIL
    {
      if s != order[i] {
        assert s !in order;
      }
    }
  }

  // ----- The maps and the abstract list

  /** The maps and the list say what `lru` says. */
  ghost predicate Tied(order: seq<nat>, byHash: map<KeyHash, nat>, bySlot: map<nat, KeyHash>, lru: seq<(nat, KeyHash)>) {
    && Spec.NoDup(order)
    && Inverse(order, byHash, bySlot)
    && lru == Pairs(order, bySlot)
  }

  lemma FindSlotIs(order: seq<nat>, byHash: map<KeyHash, nat>, bySlot: map<nat, KeyHash>, lru: seq<(nat, KeyHash)>, slot: nat)
    requires Tied(order, byHash, bySlot, lru)
    ensures slot in bySlot <==> Spec.FindSlot(lru, slot).Some?
    ensures slot in bySlot ==>
      var i := Spec.FindSlot(lru, slot).value;
      i < |order| && order[i] == slot && lru[i].1 == bySlot[slot]
    ensures slot in bySlot <==> slot in Spec.Slots(lru)
    ensures slot in bySlot <==> slot in order
  {
    assert Spec.Slots(lru) == order;
  }

  lemma FindKeyIs(order: seq<nat>, byHash: map<KeyHash, nat>, bySlot: map<nat, KeyHash>, lru: seq<(nat, KeyHash)>, k: KeyHash)
    requires Tied(order, byHash, bySlot, lru)
    ensures k in byHash <==> Spec.FindKey(lru, k).Some?
    ensures k in byHash ==>
      var i := Spec.FindKey(lru, k).value;
      i < |order| && order[i] == byHash[k] && lru[i].0 == byHash[k]
  {
    if k in byHash {
      var i :| 0 <= i < |order| && order[i] == byHash[k];
      assert Spec.Keys(lru)[i] == k;
    }
    if k in Spec.Keys(lru) {
      var i :| 0 <= i < |lru| && Spec.Keys(lru)[i] == k;
      assert order[i] in bySlot && bySlot[order[i]] == k;
    }
  }

  /** Removing entry i and its bindings. */
  lemma UnbindMaps(order: seq<nat>, byHash: map<KeyHash, nat>, bySlot: map<nat, KeyHash>, lru: seq<(nat, KeyHash)>, i: nat)
    requires Tied(order, byHash, bySlot, lru) && i < |order|
    ensures order[i] in bySlot
    ensures Tied(Spec.Without(order, i), byHash - {bySlot[order[i]]}, bySlot - {order[i]}, Spec.Without(lru, i))
  {
    Spec.WithoutFacts(order, i);
    var bySlot' := bySlot - {order[i]};
    assert Pairs(Spec.Without(order, i), bySlot') == Spec.Without(lru, i);
  }

  /** Appending a slot bound to a key no other slot has. */
  lemma BindMaps(order: seq<nat>, byHash: map<KeyHash, nat>, bySlot: map<nat, KeyHash>, lru: seq<(nat, KeyHash)>, slot: nat, k: KeyHash)
    requires Tied(order, byHash, bySlot, lru) && slot !in order && k !in byHash
    ensures Tied(order + [slot], byHash[k := slot], bySlot[slot := k], lru + [(slot, k)])
  {
    assert Pairs(order + [slot], bySlot[slot := k]) == lru + [(slot, k)];
  }

  lemma TouchPairs(order: seq<nat>, bySlot: map<nat, KeyHash>, i: nat)
    requires i < |order| && forall s :: s in order ==> s in bySlot
    ensures forall s :: s in Spec.Touch(order, i) ==> s in bySlot
    ensures Pairs(Spec.Touch(order, i), bySlot) == Spec.Touch(Pairs(order, bySlot), i)
  {
  }

  lemma TouchMaps(order: seq<nat>, byHash: map<KeyHash, nat>, bySlot: map<nat, KeyHash>, lru: seq<(nat, KeyHash)>, i: nat)
    requires Tied(order, byHash, bySlot, lru) && i < |order|
    ensures order[i] !in Spec.Without(order, i)
    ensures Tied(Spec.Touch(order, i), byHash, bySlot, Spec.Touch(lru, i))
  {
    TouchPairs(order, bySlot, i);
    Spec.TouchSame(order, i);
  }

  class SlotPool {
    var free: seq<nat>
    var byHash: map<KeyHash, nat>
    var bySlot: map<nat, KeyHash>
    var pending: map<nat, nat>
    const ttl: nat
    const lruPrev: array<nat>
    const lruNext: array<nat>
    var lruHead: nat
    var lruTail: nat
    /** The slots the links enumerate, from head to tail, and those with their keys. */
    ghost var order: seq<nat>
    ghost var lru: seq<(nat, KeyHash)>

    ghost predicate Linked()
      reads this, lruPrev, lruNext
    {
      && lruPrev != lruNext
      && Links(lruPrev[..], lruNext[..], lruHead, lruTail, order)
      && Tied(order, byHash, bySlot, lru)
    }

    /** What this pool is as a value. */
    ghost function View(): Spec.Pool
      reads this
    {
      Spec.Pool(lruPrev.Length, ttl, free, pending, lru)
    }

    ghost predicate Valid()
      reads this, lruPrev, lruNext
    {
      Linked() && Spec.Inv(View())
    }

    constructor (slotCount: nat, reserveTtl: nat)
      requires slotCount <= NIL
      ensures Valid() && fresh(lruPrev) && fresh(lruNext)
      ensures View() == Spec.Fresh(slotCount, reserveTtl)
    {
      free := Spec.Upto(slotCount);
      byHash, bySlot, pending := map[], map[], map[];
      ttl := reserveTtl;
      lruPrev := new nat[slotCount](_ => NIL);
      lruNext := new nat[slotCount](_ => NIL);
      lruHead, lruTail := NIL, NIL;
      order, lru := [], [];
      new;
      Spec.FreshInv(slotCount, reserveTtl);
    }

    /** Appends an unlinked slot at the most recently used end. */
    method LruAttachTail(slot: nat)
      requires lruPrev != lruNext && Links(lruPrev[..], lruNext[..], lruHead, lruTail, order)
      requires slot < lruPrev.Length && slot !in order
      modifies lruPrev, lruNext, this`lruHead, this`lruTail, this`order
      ensures Links(lruPrev[..], lruNext[..], lruHead, lruTail, order) && order == old(order) + [slot]
    {
      ghost var prev, next, head, tail, listed := lruPrev[..], lruNext[..], lruHead, lruTail, order;
      lruPrev[slot] := lruTail;
      lruNext[slot] := NIL;
      if lruTail != NIL {
        lruNext[lruTail] := slot;
      } else {
        lruHead := slot;
      }
      lruTail := slot;
      order := order + [slot];
      AttachLinks(prev, next, head, tail, listed, slot, lruPrev[..], lruNext[..]);
    }

    /** Unlinks a slot; a slot that is not linked is left alone. */
    method LruDetach(slot: nat)
      requires lruPrev != lruNext && Links(lruPrev[..], lruNext[..], lruHead, lruTail, order)
      requires slot < lruPrev.Length
      modifies lruPrev, lruNext, this`lruHead, this`lruTail, this`order
      ensures Links(lruPrev[..], lruNext[..], lruHead, lruTail, order)
      ensures slot !in old(order) ==> order == old(order)
      ensures forall i :: 0 <= i < |old(order)| && old(order)[i] == slot ==> order == Spec.Without(old(order), i)
    {
      ghost var prev, next, head, tail, listed := lruPrev[..], lruNext[..], lruHead, lruTail, order;
      if lruPrev[slot] == NIL && lruHead != slot {
        NotListed(prev, next, head, tail, listed, slot);
        return;
      }
      ghost var i := Listed(prev, next, head, tail, listed, slot);
      var p, n := lruPrev[slot], lruNext[slot];
      if p != NIL {
        lruNext[p] := n;
      } else {
        lruHead := n;
      }
      if n != NIL {
        lruPrev[n] := p;
      } else {
        lruTail := p;
      }
      lruPrev[slot] := NIL;
      lruNext[slot] := NIL;
      order := Spec.Without(order, i);
      DetachLinks(prev, next, head, tail, listed, i, lruPrev[..], lruNext[..]);
    }

    method Touch(slot: nat, ghost i: nat)
      requires lruPrev != lruNext && Links(lruPrev[..], lruNext[..], lruHead, lruTail, order)
      requires i < |order| && order[i] == slot && slot !in Spec.Without(order, i)
      modifies lruPrev, lruNext, this`lruHead, this`lruTail, this`order
      ensures Links(lruPrev[..], lruNext[..], lruHead, lruTail, order) && order == Spec.Touch(old(order), i)
    {
      LruDetach(slot);
      LruAttachTail(slot);
    }

    /** Makes a committed slot the most recently used one. */
    method Use(slot: nat, ghost i: nat)
      requires Linked() && i < |order| && order[i] == slot
      modifies lruPrev, lruNext, this`lruHead, this`lruTail, this`order, this`lru
      ensures Linked() && lru == Spec.Touch(old(lru), i)
    {
      TouchMaps(order, byHash, bySlot, lru, i);
      Touch(slot, i);
      lru := Spec.Touch(lru, i);
    }

    /** Unlinks a committed slot and drops its bindings. */
    method Unbind(slot: nat, ghost i: nat)
      requires Linked() && i < |order| && order[i] == slot
      modifies this`byHash, this`bySlot, lruPrev, lruNext, this`lruHead, this`lruTail, this`order, this`lru
      ensures Linked() && lru == Spec.Without(old(lru), i) && order == Spec.Without(old(order), i)
      ensures byHash == old(byHash) - {old(bySlot)[slot]}
    {
      UnbindMaps(order, byHash, bySlot, lru, i);
      var hash := bySlot[slot];
      bySlot := bySlot - {slot};
      byHash := byHash - {hash};
      LruDetach(slot);
      lru := Spec.Without(lru, i);
    }

    /** Binds an unlisted slot to a key and lists it as most recently used. */
    method Bind(slot: nat, k: KeyHash)
      requires Linked() && slot < lruPrev.Length && slot !in order && k !in byHash
      modifies this`byHash, this`bySlot, lruPrev, lruNext, this`lruHead, this`lruTail, this`order, this`lru
      ensures Linked() && lru == old(lru) + [(slot, k)]
    {
      BindMaps(order, byHash, bySlot, lru, slot, k);
      bySlot := bySlot[slot := k];
      byHash := byHash[k := slot];
      LruAttachTail(slot);
      lru := lru + [(slot, k)];
    }

    method Lookup(k: KeyHash) returns (r: Option<nat>)
      requires Valid()
      modifies this, lruPrev, lruNext
      ensures Valid()
      ensures (View(), r) == Spec.Lookup(old(View()), k)
    {
      hide Spec.Inv, Links, Tied;
      Spec.LookupInv(View(), k);
      FindKeyIs(order, byHash, bySlot, lru, k);
      if k !in byHash {
        return None;
      }
      var slot := byHash[k];
      Use(slot, Spec.FindKey(lru, k).value);
      return Some(slot);
    }

    method Commit(slot: nat, k: KeyHash) returns (ok: bool)
      requires Valid()
      modifies this, lruPrev, lruNext
      ensures Valid()
      ensures (View(), ok) == Spec.Commit(old(View()), slot, k)
    {
      hide Spec.Inv, Links, Tied;
      Spec.CommitInv(View(), slot, k);
      Spec.PendingUnlisted(View(), slot);
      FindSlotIs(order, byHash, bySlot, lru, slot);
      if slot in bySlot && bySlot[slot] == k {
        pending := pending - {slot};
        Use(slot, Spec.FindSlot(lru, slot).value);
        return true;
      }
      if slot !in pending {
        return false;
      }
      pending := pending - {slot};
      Displace(k);
      Bind(slot, k);
      return true;
    }

    /** Frees the slot a key is bound to, if there is one. */
    method Displace(k: KeyHash)
      requires Linked()
      modifies this`free, this`byHash, this`bySlot, lruPrev, lruNext, this`lruHead, this`lruTail, this`order, this`lru
      ensures Linked() && k !in byHash
      ensures forall s :: s in order ==> s in old(order)
      ensures
        match Spec.FindKey(old(lru), k)
        case None => lru == old(lru) && free == old(free)
        case Some(i) => lru == Spec.Without(old(lru), i) && free == old(free) + [old(lru)[i].0]
    {
      hide Links;
      FindKeyIs(order, byHash, bySlot, lru, k);
      if k in byHash {
        var prevSlot := byHash[k];
        ghost var i := Spec.FindKey(lru, k).value;
        Spec.WithoutFacts(order, i);
        Unbind(prevSlot, i);
        free := free + [prevSlot];
      }
    }

    method Release(slot: nat)
      requires Valid()
      modifies this, lruPrev, lruNext
      ensures Valid()
      ensures View() == Spec.Release(old(View()), slot)
    {
      hide Spec.Inv, Links, Tied;
      Spec.ReleaseInv(View(), slot);
      FindSlotIs(order, byHash, bySlot, lru, slot);
      if slot in bySlot {
        Unbind(slot, Spec.FindSlot(lru, slot).value);
        free := free + [slot];
      } else if slot in pending {
        pending := pending - {slot};
        free := free + [slot];
      }
    }

    method Clear()
      requires Valid()
      modifies this, lruPrev, lruNext
      ensures Valid()
      ensures View() == Spec.Clear(old(View()))
    {
      Spec.FreshInv(lruPrev.Length, ttl);
      Reset();
    }

    method Reset()
      requires lruPrev != lruNext && lruPrev.Length == lruNext.Length <= NIL
      modifies this, lruPrev, lruNext
      ensures Linked() && View() == Spec.Fresh(lruPrev.Length, ttl)
    {
      Unlink();
      EmptyLinks(lruPrev[..], lruNext[..]);
      free := Spec.Upto(lruPrev.Length);
      byHash, bySlot, pending := map[], map[], map[];
      lruHead, lruTail := NIL, NIL;
      order, lru := [], [];
    }

    /** Fills both link arrays with NIL. */
    method Unlink()
      modifies lruPrev, lruNext
      ensures forall s :: 0 <= s < lruPrev.Length ==> lruPrev[s] == NIL
      ensures forall s :: 0 <= s < lruNext.Length ==> lruNext[s] == NIL
    {
      forall s | 0 <= s < lruPrev.Length {
        lruPrev[s] := NIL;
      }
      forall s | 0 <= s < lruNext.Length {
        lruNext[s] := NIL;
      }
    }

    /** Frees the reservations whose deadline has passed, in whatever order the map
        is walked; `walk` is that order. */
    method ReclaimExpired(now: nat) returns (ghost walk: seq<nat>)
      requires Linked()
      modifies this`free, this`pending
      ensures Linked()
      ensures Spec.ReclaimOrder(old(View()), now, walk)
      ensures View() == Spec.Reclaim(old(View()), now, walk)
    {
      ghost var before := View();
      var live, queue;
      live, queue, walk := SplitExpired(pending, free, now);
      assert live == before.pending - Spec.Expired(before, now);
      free, pending := queue, live;
    }

    method EvictOne() returns (r: Option<nat>)
      requires Linked()
      modifies this`byHash, this`bySlot, lruPrev, lruNext, this`lruHead, this`lruTail, this`order, this`lru
      ensures Linked()
      ensures old(lru) == [] ==> r.None? && lru == []
      ensures old(lru) != [] ==> r == Some(old(lru)[0].0) && lru == old(lru)[1..]
    {
      var slot := lruHead;
      if slot == NIL {
        return None;
      }
      Unbind(slot, 0);
      return Some(slot);
    }

    /** Takes the oldest free slot, else the least recently used committed one. */
    method PopOrEvict() returns (r: Option<nat>)
      requires Linked()
      modifies this, lruPrev, lruNext
      ensures Linked() && pending == old(pending)
      ensures old(free) != [] ==> r == Some(old(free)[0]) && free == old(free)[1..] && lru == old(lru)
      ensures old(free) == [] && old(lru) != [] ==> r == Some(old(lru)[0].0) && free == [] && lru == old(lru)[1..]
      ensures old(free) == [] && old(lru) == [] ==> r.None? && free == [] && lru == []
    {
      if free != [] {
        r := Some(free[0]);
        free := free[1..];
      } else {
        r := EvictOne();
      }
    }

    /** One round of the reserve loop. */
    method TakeOne(now: nat) returns (r: Option<nat>)
      requires Linked()
      modifies this, lruPrev, lruNext
      ensures Linked()
      ensures (View(), r) == Spec.Take(old(View()), now)
    {
      hide Links, Tied;
      ghost var before := View();
      r := PopOrEvict();
      ghost var middle := View();
      if r.Some? {
        pending := pending[r.value := now + ttl];
      }
      Spec.TakeIs(before, now, middle, r);
    }

    /** Reserves |clocks| slots, or fewer. `now` and `clocks` are the clock readings
        of the reclaim and of the loop's rounds; `walk` is the order in which
        expired reservations were reclaimed, if any were. */
    method Reserve(now: nat, clocks: seq<nat>) returns (out: seq<nat>, ghost walk: seq<nat>)
      requires Valid()
      modifies this, lruPrev, lruNext
      ensures Valid()
      ensures |old(free)| < |clocks| ==> Spec.ReclaimOrder(old(View()), now, walk)
      ensures (View(), out) == Spec.Reserve(old(View()), now, clocks, walk)
    {
      ghost var before := View();
      walk := [];
      if |free| < |clocks| {
        walk := ReclaimExpired(now);
      }
      out := TakeSlots(clocks);
      Spec.ReserveKeepsInv(before, now, clocks, walk);
    }

    method TakeSlots(clocks: seq<nat>) returns (out: seq<nat>)
      requires Linked()
      modifies this, lruPrev, lruNext
      ensures Linked()
      ensures (View(), out) == Spec.TakeMany(old(View()), clocks)
    {
      ghost var goal := Spec.TakeMany(View(), clocks);
      out := [];
      Spec.StartTaking(View(), clocks);
      assert clocks[0..] == clocks;
      for i := 0 to |clocks|
        invariant Linked()
        invariant Spec.Taking(goal, out, View(), clocks[i..])
      {
        ghost var before := View();
        var slot := TakeOne(clocks[i]);
        assert clocks[i..][1..] == clocks[i + 1..];
        Spec.KeepTaking(goal, out, before, clocks[i..], View(), slot);
        if slot.None? {
          return;
        }
        out := out + [slot.value];
      }
      Spec.StopTaking(goal, out, View());
    }
  }

  /** Walks the reservations in any order, keeping the live ones and queueing the others. */
  method SplitExpired(pending: map<nat, nat>, free: seq<nat>, now: nat)
    returns (live: map<nat, nat>, queue: seq<nat>, ghost walk: seq<nat>)
    ensures queue == free + walk && Spec.NoDup(walk)
    ensures forall s :: s in walk <==> s in pending && pending[s] <= now
    ensures forall s :: s in live <==> s in pending && now < pending[s]
    ensures forall s :: s in live ==> live[s] == pending[s]
  {
    var todo := pending.Keys;
    live, queue, walk := map[], free, [];
    while todo != {}
      invariant todo <= pending.Keys
      invariant queue == free + walk && Spec.NoDup(walk)
      invariant forall s :: s in walk <==> s in pending && s !in todo && pending[s] <= now
      invariant forall s :: s in live <==> s in pending && s !in todo && now < pending[s]
      invariant forall s :: s in live ==> live[s] == pending[s]
      decreases |todo|
    {
      var slot :| slot in todo;
      if now < pending[slot] {
        live := live[slot := pending[slot]];
      } else {
        queue := queue + [slot];
        walk := walk + [slot];
      }
      todo := todo - {slot};
    }
  }

  lemma HasPredecessor(prev: seq<nat>, next: seq<nat>, head: nat, tail: nat, order: seq<nat>, i: nat)
    requires Links(prev, next, head, tail, order) && i < |order|
    ensures order[i] == head || prev[order[i]] != NIL
  {
    assert LinkAt(prev, next, order, i);
  }

  /** A slot without predecessor that is not the head is not on the list. */
  lemma NotListed(prev: seq<nat>, next: seq<nat>, head: nat, tail: nat, order: seq<nat>, slot: nat)
    requires Links(prev, next, head, tail, order) && slot < |prev|
    requires prev[slot] == NIL && head != slot
    ensures slot !in order
  {
    if i: nat :| i < |order| && order[i] == slot {
      HasPredecessor(prev, next, head, tail, order, i);
      assert false;
    }
  }

  lemma Listed(prev: seq<nat>, next: seq<nat>, head: nat, tail: nat, order: seq<nat>, slot: nat) returns (i: nat)
    requires Links(prev, next, head, tail, order) && slot < |prev|
    requires prev[slot] != NIL || head == slot
    ensures i < |order| && order[i] == slot
    ensures prev[slot] == At(order, i - 1) && next[slot] == At(order, i + 1)
    ensures prev[slot] == NIL || prev[slot] < |prev|
    ensures next[slot] == NIL || next[slot] < |prev|
  {
    assert slot in order;
    i :| 0 <= i < |order| && order[i] == slot;
    assert LinkAt(prev, next, order, i);
  }
}
