/** From scatter lists to batches: what the plan check accepts, over distinct slots
    of the slab, is a batch whose operations reach only where they should
    (crates/openlake_kv_client/src/protocol.rs:493-529, 551-615, 690-745). */
module KvBatch {
  import opened Bytes
  import SlotPoolSpec
  import opened KvPlan

  /** The registered regions lie in local memory, which ends below the top of the
      address space. */
  ghost predicate Registered(mrs: seq<Region>, local: Bytes) {
    |local| < U64_MODULUS - 1 && forall k :: 0 <= k < |mrs| ==> mrs[k].addr + mrs[k].len <= |local|
  }

  predicate ShortLists(scatters: seq<seq<Strip>>) {
    forall j :: 0 <= j < |scatters| ==> |scatters[j]| <= U32_MAX + 1
  }

  /** Slot x lies in the peer's memory. */
  predicate InMemory(slab: Slab, x: nat, remote: Bytes) {
    Dst(slab, x) + slab.slotBytes <= |remote|
  }

  lemma PlanInside(mrs: seq<Region>, scatter: seq<Strip>, plan: seq<Planned>, local: Bytes)
    requires Registered(mrs, local) && PlanFor(mrs, scatter, plan)
    ensures StripsFit(local, plan)
  {
    forall i | 0 <= i < |plan|
      ensures plan[i].addr + plan[i].len <= |local|
    {
      assert PlannedOk(mrs, scatter[i], plan[i]);
      var k :| 0 <= k < |mrs| && Contains(mrs[k], plan[i].addr, plan[i].len) && plan[i].lkey == mrs[k].lkey;
      ContainsIsInside(mrs[k], plan[i].addr, plan[i].len);
    }
  }

  ghost predicate PlanAccepted(mrs: seq<Region>, scatter: seq<Strip>, plan: seq<Planned>, cap: nat) {
    Resolvable(mrs, scatter, cap) && PlanFor(mrs, scatter, plan)
  }

  /** Accepted plans over distinct slots make a put that stays inside its slots. */
  lemma PutPlansValid(b: PutBatch, mrs: seq<Region>, scatters: seq<seq<Strip>>, local: Bytes, remote: Bytes)
    requires |b.slots| == |b.plans| == |scatters| && SlotPoolSpec.NoDup(b.slots) && ShortLists(scatters) && b.slab.slotBytes >= KEY_BYTES
    requires Registered(mrs, local) && b.staging.addr + |b.slots| * KEY_BYTES <= |local|
    requires forall j :: 0 <= j < |b.slots| ==> InMemory(b.slab, b.slots[j], remote)
    requires forall j :: 0 <= j < |scatters| ==> PlanAccepted(mrs, scatters[j], b.plans[j], b.slab.slotBytes - KEY_BYTES)
    ensures b.Valid(local, remote)
  {
    hide PlanFor, StripsFit, Dst, Length;
    forall j | 0 <= j < |b.slots|
      ensures b.KeyValid(local, remote, j)
    {
      assert InMemory(b.slab, b.slots[j], remote);
      assert PlanAccepted(mrs, scatters[j], b.plans[j], b.slab.slotBytes - KEY_BYTES);
      PlanFits(mrs, scatters[j], b.plans[j], b.slab);
      PlanInside(mrs, scatters[j], b.plans[j], local);
    }
  }

  // ----- Gets

  /** Two strips share no local byte. */
  predicate ApartStrips(a: Planned, b: Planned) {
    a.addr + a.len <= b.addr || b.addr + b.len <= a.addr
  }

  /** The strips a get is to fill do not overlap each other. */
  ghost predicate AllStripsApart(plans: seq<seq<Planned>>) {
    forall j, i, h, k :: 0 <= j < |plans| && 0 <= i < |plans[j]| && 0 <= h < |plans| && 0 <= k < |plans[h]| && (j, i) != (h, k) ==>
      ApartStrips(plans[j][i], plans[h][k])
  }

  /** The staging buffer is its own. */
  ghost predicate StagingApart(plans: seq<seq<Planned>>, staging: Staging, n: nat) {
    forall j, i :: 0 <= j < |plans| && 0 <= i < |plans[j]| ==>
      plans[j][i].addr + plans[j][i].len <= staging.addr || staging.addr + n * KEY_BYTES <= plans[j][i].addr
  }

  /** `op` is key j's: its header, or a strip of its plan. */
  ghost predicate OpOf(plans: seq<seq<Planned>>, staging: Staging, j: nat, op: Op)
    requires j < |plans|
  {
    || (op.laddr == staging.addr + j * KEY_BYTES && op.len == KEY_BYTES)
    || IsStrip(plans[j], op)
  }

  ghost predicate IsStrip(plan: seq<Planned>, op: Op) {
    exists i :: 0 <= i < |plan| && op.laddr == plan[i].addr && op.len == plan[i].len
  }

  lemma KeyOpsOf(slots: seq<Option<nat>>, plans: seq<seq<Planned>>, slab: Slab, staging: Staging, j: nat)
    requires j < |slots| == |plans|
    ensures forall op :: op in KeyGet(slots[j], plans[j], slab, staging, j) ==> OpOf(plans, staging, j, op)
  {
    hide PayloadOps, Dst;
    if slots[j].Some? {
      var at := Dst(slab, slots[j].value) + KEY_BYTES;
      forall op | op in PayloadOps(plans[j], at)
        ensures IsStrip(plans[j], op)
      {
        var i :| 0 <= i < |plans[j]| && PayloadOps(plans[j], at)[i] == op;
        PayloadReach(plans[j], at, i);
      }
    }
  }

  lemma KeysApart(plans: seq<seq<Planned>>, staging: Staging, j: nat, h: nat, a: Op, b: Op)
    requires j < h < |plans| && AllStripsApart(plans) && StagingApart(plans, staging, |plans|)
    requires OpOf(plans, staging, j, a) && OpOf(plans, staging, h, b)
    ensures ApartLocally(a, b)
  {
    assert j * KEY_BYTES + KEY_BYTES <= h * KEY_BYTES && h * KEY_BYTES + KEY_BYTES <= |plans| * KEY_BYTES;
    if IsStrip(plans[j], a) {
      var i :| 0 <= i < |plans[j]| && a.laddr == plans[j][i].addr && a.len == plans[j][i].len;
      if IsStrip(plans[h], b) {
        var k :| 0 <= k < |plans[h]| && b.laddr == plans[h][k].addr && b.len == plans[h][k].len;
        assert ApartStrips(plans[j][i], plans[h][k]);
      }
    } else if IsStrip(plans[h], b) {
      var k :| 0 <= k < |plans[h]| && b.laddr == plans[h][k].addr && b.len == plans[h][k].len;
    }
  }

  lemma KeyApart(slots: seq<Option<nat>>, plans: seq<seq<Planned>>, slab: Slab, staging: Staging, j: nat)
    requires j < |slots| == |plans| && AllStripsApart(plans) && StagingApart(plans, staging, |plans|)
    ensures AllApart(KeyGet(slots[j], plans[j], slab, staging, j))
  {
    hide PayloadOps, Dst;
    if slots[j].Some? {
      var at := Dst(slab, slots[j].value) + KEY_BYTES;
      var ops := KeyGet(slots[j], plans[j], slab, staging, j);
      assert j * KEY_BYTES + KEY_BYTES <= |plans| * KEY_BYTES;
      forall i, k | 0 <= i < k < |ops|
        ensures ApartLocally(ops[i], ops[k])
      {
        PayloadReach(plans[j], at, i);
        if k < |plans[j]| {
          PayloadReach(plans[j], at, k);
          assert ApartStrips(plans[j][i], plans[j][k]);
        }
      }
    }
  }

  lemma ApartAppend(a: seq<Op>, b: seq<Op>)
    requires AllApart(a) && AllApart(b) && forall x, y :: x in a && y in b ==> ApartLocally(x, y)
    ensures AllApart(a + b)
  {
    var ops := a + b;
    forall i, j | 0 <= i < j < |ops|
      ensures ApartLocally(ops[i], ops[j])
    {
      if j < |a| {
        assert ApartLocally(a[i], a[j]);
      } else if i < |a| {
        assert a[i] in a && b[j - |a|] in b;
      } else {
        assert ApartLocally(b[i - |a|], b[j - |a|]);
      }
    }
  }

  /** Every operation of a get is of a key before `count`. */
  lemma {:induction false} GetOpOwner(slots: seq<Option<nat>>, plans: seq<seq<Planned>>, slab: Slab, staging: Staging, count: nat, op: Op)
    returns (j: nat)
    requires count <= |slots| == |plans| && op in GetOps(slots, plans, slab, staging, count)
    ensures j < count && op in KeyGet(slots[j], plans[j], slab, staging, j) && OpOf(plans, staging, j, op)
  {
    hide KeyGet, OpOf;
    if op in GetOps(slots, plans, slab, staging, count - 1) {
      j := GetOpOwner(slots, plans, slab, staging, count - 1, op);
    } else {
      j := count - 1;
      KeyOpsOf(slots, plans, slab, staging, j);
    }
  }

  lemma {:induction false} GetOpsApart(slots: seq<Option<nat>>, plans: seq<seq<Planned>>, slab: Slab, staging: Staging, count: nat)
    requires count <= |slots| == |plans| && AllStripsApart(plans) && StagingApart(plans, staging, |plans|)
    ensures AllApart(GetOps(slots, plans, slab, staging, count))
  {
    hide KeyGet, OpOf, AllApart, ApartLocally, AllStripsApart, StagingApart;
    if count == 0 {
      NothingApart();
    } else {
      var j := count - 1;
      var before, ops := GetOps(slots, plans, slab, staging, j), KeyGet(slots[j], plans[j], slab, staging, j);
      GetOpsApart(slots, plans, slab, staging, j);
      KeyApart(slots, plans, slab, staging, j);
      KeyOpsOf(slots, plans, slab, staging, j);
      forall x, y | x in before && y in ops
        ensures ApartLocally(x, y)
      {
        var h := GetOpOwner(slots, plans, slab, staging, j, x);
        KeysApart(plans, staging, h, j, x, y);
      }
      ApartAppend(before, ops);
    }
  }

  lemma NothingApart()
    ensures AllApart([])
  {
  }

  lemma KeyFits(slot: Option<nat>, plan: seq<Planned>, slab: Slab, staging: Staging, j: nat, local: Bytes, remote: Bytes, op: Op)
    requires op in KeyGet(slot, plan, slab, staging, j) && slot.Some?
    requires StripsFit(local, plan) && KEY_BYTES + Length(plan) <= slab.slotBytes && InMemory(slab, slot.value, remote)
    requires staging.addr + j * KEY_BYTES + KEY_BYTES <= |local|
    ensures op.laddr + op.len <= |local| && op.raddr + op.len <= |remote|
  {
    hide PayloadOps, Dst, Length;
    var at := Dst(slab, slot.value) + KEY_BYTES;
    if op in PayloadOps(plan, at) {
      var i :| 0 <= i < |plan| && PayloadOps(plan, at)[i] == op;
      PayloadReach(plan, at, i);
    }
  }

  /** Accepted plans over strips that do not overlap make a get that lands where it
      should. */
  lemma GetPlansValid(b: GetBatch, mrs: seq<Region>, scatters: seq<seq<Strip>>, local: Bytes, remote: Bytes)
    requires |b.slots| == |b.plans| == |scatters| && ShortLists(scatters) && b.slab.slotBytes >= KEY_BYTES
    requires Registered(mrs, local) && b.staging.addr + |b.slots| * KEY_BYTES <= |local|
    requires forall j :: 0 <= j < |b.slots| && b.slots[j].Some? ==> InMemory(b.slab, b.slots[j].value, remote)
    requires forall j :: 0 <= j < |scatters| ==> PlanAccepted(mrs, scatters[j], b.plans[j], b.slab.slotBytes - KEY_BYTES)
    requires AllStripsApart(b.plans) && StagingApart(b.plans, b.staging, |b.plans|)
    ensures b.Valid(local, remote)
  {
    hide AllApart, PlanFor, StripsFit, KeyGet, OpOf, Length, AllStripsApart, StagingApart;
    GetOpsApart(b.slots, b.plans, b.slab, b.staging, |b.slots|);
    forall j | 0 <= j < |b.plans|
      ensures StripsFit(local, b.plans[j])
    {
      assert PlanAccepted(mrs, scatters[j], b.plans[j], b.slab.slotBytes - KEY_BYTES);
      PlanInside(mrs, scatters[j], b.plans[j], local);
    }
    forall i | 0 <= i < |b.Ops()|
      ensures b.Ops()[i].laddr + b.Ops()[i].len <= |local| && b.Ops()[i].raddr + b.Ops()[i].len <= |remote|
    {
      var op := b.Ops()[i];
      var j := GetOpOwner(b.slots, b.plans, b.slab, b.staging, |b.slots|, op);
      assert PlanAccepted(mrs, scatters[j], b.plans[j], b.slab.slotBytes - KEY_BYTES);
      assert StripsFit(local, b.plans[j]);
      PlanFits(mrs, scatters[j], b.plans[j], b.slab);
      NotFoundNone(b.slots[j], b.plans[j], b.slab, b.staging, j, op);
      KeyFits(b.slots[j], b.plans[j], b.slab, b.staging, j, local, remote, op);
    }
  }

  lemma NotFoundNone(slot: Option<nat>, plan: seq<Planned>, slab: Slab, staging: Staging, j: nat, op: Op)
    requires op in KeyGet(slot, plan, slab, staging, j)
    ensures slot.Some?
  {
  }

  // ----- The batches the client builds

  /** A put: the plans, or the first key whose list is refused; and the chain, all of
      whose operations take effect inside the slots it was given. */
  method PreparePut(mrs: seq<Region>, scatters: seq<seq<Strip>>, slots: seq<nat>, slab: Slab, staging: Staging,
                    ghost local: Bytes, ghost remote: Bytes)
    returns (r: Result<seq<Op>, PlanError>, ghost plans: seq<seq<Planned>>)
    requires slab.slotBytes >= KEY_BYTES && |slots| == |scatters| && ShortLists(scatters)
    requires SlotPoolSpec.NoDup(slots) && forall j :: 0 <= j < |slots| ==> InMemory(slab, slots[j], remote)
    requires Registered(mrs, local) && staging.addr + |slots| * KEY_BYTES <= |local|
    ensures r.Ok? <==> forall i :: 0 <= i < |scatters| ==> Resolvable(mrs, scatters[i], slab.slotBytes - KEY_BYTES)
    ensures r.Err? ==> FirstFault(mrs, scatters, slab.slotBytes - KEY_BYTES, r.error)
    ensures r.Ok? ==> |plans| == |scatters| && forall j :: 0 <= j < |scatters| ==> PlanFor(mrs, scatters[j], plans[j])
    ensures r.Ok? ==>
      var b := PutBatch(slots, plans, slab, staging);
      b.Valid(local, remote) && r.value == BatchOps(b, local, remote)
  {
    hide Resolvable, PlanFor, InMemory, PutBatch.Valid, PutOps, Registered, FirstFault;
    var resolved := ResolvePlans(mrs, scatters, slab.slotBytes - KEY_BYTES);
    plans := [];
    if resolved.Err? {
      return Err(resolved.error), plans;
    }
    plans := resolved.value;
    ghost var b := PutBatch(slots, plans, slab, staging);
    PutPlansValid(b, mrs, scatters, local, remote);
    var ops := BuildPutOps(slots, resolved.value, slab, staging);
    return Ok(ops), plans;
  }

  /** A get over the slots that were found. */
  method PrepareGet(mrs: seq<Region>, scatters: seq<seq<Strip>>, slots: seq<Option<nat>>, slab: Slab, staging: Staging,
                    ghost local: Bytes, ghost remote: Bytes)
    returns (r: Result<seq<Op>, PlanError>, ghost plans: seq<seq<Planned>>)
    requires slab.slotBytes >= KEY_BYTES && |slots| == |scatters| && ShortLists(scatters)
    requires forall j :: 0 <= j < |slots| && slots[j].Some? ==> InMemory(slab, slots[j].value, remote)
    requires Registered(mrs, local) && staging.addr + |slots| * KEY_BYTES <= |local|
    ensures r.Ok? <==> forall i :: 0 <= i < |scatters| ==> Resolvable(mrs, scatters[i], slab.slotBytes - KEY_BYTES)
    ensures r.Err? ==> FirstFault(mrs, scatters, slab.slotBytes - KEY_BYTES, r.error)
    ensures r.Ok? ==> |plans| == |slots| && r.value == GetBatch(slots, plans, slab, staging).Ops()
    ensures r.Ok? ==> forall j :: 0 <= j < |scatters| ==> PlanFor(mrs, scatters[j], plans[j])
    ensures r.Ok? && AllStripsApart(plans) && StagingApart(plans, staging, |plans|) ==>
      GetBatch(slots, plans, slab, staging).Valid(local, remote)
  {
    hide Resolvable, PlanFor, InMemory, GetBatch.Valid, GetOps, Registered, FirstFault, AllStripsApart, StagingApart;
    var resolved := ResolvePlans(mrs, scatters, slab.slotBytes - KEY_BYTES);
    plans := [];
    if resolved.Err? {
      return Err(resolved.error), plans;
    }
    plans := resolved.value;
    ghost var b := GetBatch(slots, plans, slab, staging);
    if AllStripsApart(plans) && StagingApart(plans, staging, |plans|) {
      GetPlansValid(b, mrs, scatters, local, remote);
    }
    var ops := BuildGetOps(slots, resolved.value, slab, staging);
    return Ok(ops), plans;
  }
}
