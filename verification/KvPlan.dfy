/** How the client checks scatter lists against the registered memory and lays
    out the remote operations of a put and of a get
    (crates/openlake_kv_client/src/protocol.rs:493-529, 531-775). */
module KvPlan {
  import opened Bytes
  import opened SlotPoolSpec

  const KEY_BYTES: nat := 54
  const U32_MAX: nat := 0xFFFF_FFFF
  const U64_MODULUS: nat := 0x1_0000_0000_0000_0000

  type Strip = (nat, nat)

  /** A registered memory region. */
  datatype Region = Region(addr: nat, len: nat, lkey: nat)

  /** A strip with the key of a region it lies in. */
  datatype Planned = Planned(addr: nat, len: nat, lkey: nat)

  datatype PlanError = BadTotal(key: nat) | BadStrip(key: nat) | Unregistered(key: nat)

  /** `saturating_add` on u64. */
  function SaturatingAdd(a: nat, b: nat): nat {
    Min(a + b, U64_MODULUS - 1)
  }

  predicate Contains(m: Region, addr: nat, len: nat) {
    m.addr <= addr && SaturatingAdd(addr, len) <= m.addr + m.len
  }

  /** A region that ends below the top of the address space contains, by this
      test, exactly the strips that lie inside it. */
  lemma ContainsIsInside(m: Region, addr: nat, len: nat)
    requires m.addr + m.len < U64_MODULUS - 1
    ensures Contains(m, addr, len) <==> m.addr <= addr && addr + len <= m.addr + m.len
  {
  }

  function Total(scatter: seq<Strip>): nat {
    if scatter == [] then 0 else Total(scatter[..|scatter| - 1]) + scatter[|scatter| - 1].1
  }

  /** The u64 sum of the lengths. */
  function WrappedTotal(scatter: seq<Strip>): nat {
    Total(scatter) % U64_MODULUS
  }

  predicate SizeOk(scatter: seq<Strip>, cap: nat) {
    0 < WrappedTotal(scatter) <= cap
  }

  predicate StripOk(mrs: seq<Region>, strip: Strip) {
    0 < strip.1 <= U32_MAX && exists k :: 0 <= k < |mrs| && Contains(mrs[k], strip.0, strip.1)
  }

  /** A plan keeps every strip and gives it the key of a region it lies in. */
  ghost predicate PlanFor(mrs: seq<Region>, scatter: seq<Strip>, plan: seq<Planned>) {
    && |plan| == |scatter|
    && forall j :: 0 <= j < |plan| ==> PlannedOk(mrs, scatter[j], plan[j])
  }

  ghost predicate PlannedOk(mrs: seq<Region>, strip: Strip, p: Planned) {
    && p.addr == strip.0 && p.len == strip.1 && 0 < p.len <= U32_MAX
    && exists k :: 0 <= k < |mrs| && Contains(mrs[k], p.addr, p.len) && p.lkey == mrs[k].lkey
  }

  /** The first region that contains the strip. */
  method Position(mrs: seq<Region>, strip: Strip) returns (r: Option<nat>)
    ensures r.None? <==> forall k :: 0 <= k < |mrs| ==> !Contains(mrs[k], strip.0, strip.1)
    ensures r.Some? ==> r.value < |mrs| && Contains(mrs[r.value], strip.0, strip.1)
    ensures r.Some? ==> forall k :: 0 <= k < r.value ==> !Contains(mrs[k], strip.0, strip.1)
  {
    for k := 0 to |mrs|
      invariant forall i :: 0 <= i < k ==> !Contains(mrs[i], strip.0, strip.1)
    {
      if Contains(mrs[k], strip.0, strip.1) {
        return Some(k);
      }
    }
    return None;
  }

  /** Moves the cursor to a region that contains the strip: it stays, steps on by
      one, or searches from the start. */
  method Seek(mrs: seq<Region>, cur: nat, strip: Strip) returns (r: Option<nat>)
    ensures r.None? <==> forall k :: 0 <= k < |mrs| ==> !Contains(mrs[k], strip.0, strip.1)
    ensures r.Some? ==> r.value < |mrs| && Contains(mrs[r.value], strip.0, strip.1)
  {
    if cur < |mrs| && Contains(mrs[cur], strip.0, strip.1) {
      return Some(cur);
    }
    if cur + 1 < |mrs| && Contains(mrs[cur + 1], strip.0, strip.1) {
      return Some(cur + 1);
    }
    r := Position(mrs, strip);
  }

  /** The strip j is the first that is not in order, and `e` is what is wrong. */
  ghost predicate StripFault(mrs: seq<Region>, i: nat, scatter: seq<Strip>, j: nat, e: PlanError) {
    && j < |scatter| && !StripOk(mrs, scatter[j]) && (forall h :: 0 <= h < j ==> StripOk(mrs, scatter[h]))
    && e == (if 0 < scatter[j].1 <= U32_MAX then Unregistered(i) else BadStrip(i))
  }

  /** `e` is the first thing wrong with key i's scatter list: its size, or a strip. */
  ghost predicate FaultOf(mrs: seq<Region>, i: nat, scatter: seq<Strip>, cap: nat, e: PlanError) {
    if !SizeOk(scatter, cap) then e == BadTotal(i) else exists j: nat :: StripFault(mrs, i, scatter, j, e)
  }

  /** The plan of one key, or the first thing wrong with its scatter list. */
  method ResolvePlan(mrs: seq<Region>, i: nat, scatter: seq<Strip>, cap: nat) returns (r: Result<seq<Planned>, PlanError>)
    ensures r.Ok? <==> SizeOk(scatter, cap) && forall j :: 0 <= j < |scatter| ==> StripOk(mrs, scatter[j])
    ensures r.Ok? ==> 0 < Total(scatter) % U64_MODULUS <= cap
    ensures 0 < Total(scatter) % U64_MODULUS <= cap ==> r != Err(BadTotal(i))
    ensures r.Ok? ==> PlanFor(mrs, scatter, r.value)
    ensures r.Err? ==> FaultOf(mrs, i, scatter, cap, r.error)
  {
    if !SizeOk(scatter, cap) {
      return Err(BadTotal(i));
    }
    var cur: nat := 0;
    var plan: seq<Planned> := [];
    for j := 0 to |scatter|
      invariant PlanFor(mrs, scatter[..j], plan)
      invariant forall h :: 0 <= h < j ==> StripOk(mrs, scatter[h])
    {
      if scatter[j].1 == 0 || scatter[j].1 > U32_MAX {
        assert StripFault(mrs, i, scatter, j, BadStrip(i));
        return Err(BadStrip(i));
      }
      var found := Seek(mrs, cur, scatter[j]);
      if found.None? {
        assert StripFault(mrs, i, scatter, j, Unregistered(i));
        return Err(Unregistered(i));
      }
      cur := found.value;
      plan := plan + [Planned(scatter[j].0, scatter[j].1, mrs[cur].lkey)];
      assert PlannedOk(mrs, scatter[j], plan[j]);
    }
    assert scatter[..|scatter|] == scatter;
    return Ok(plan);
  }

  method ResolvePlans(mrs: seq<Region>, scatters: seq<seq<Strip>>, cap: nat) returns (r: Result<seq<seq<Planned>>, PlanError>)
    ensures r.Ok? <==> forall i :: 0 <= i < |scatters| ==> Resolvable(mrs, scatters[i], cap)
    ensures r.Ok? ==> |r.value| == |scatters| && forall i :: 0 <= i < |scatters| ==> PlanFor(mrs, scatters[i], r.value[i])
    ensures r.Err? ==> FirstFault(mrs, scatters, cap, r.error)
  {
    var plans: seq<seq<Planned>> := [];
    for i := 0 to |scatters|
      invariant |plans| == i
      invariant forall h :: 0 <= h < i ==> Resolvable(mrs, scatters[h], cap) && PlanFor(mrs, scatters[h], plans[h])
    {
      hide FaultOf;
      var plan := ResolvePlan(mrs, i, scatters[i], cap);
      if plan.Err? {
        FaultNames(mrs, i, scatters[i], cap, plan.error);
        return Err(plan.error);
      }
      plans := plans + [plan.value];
    }
    return Ok(plans);
  }

  lemma FaultNames(mrs: seq<Region>, i: nat, scatter: seq<Strip>, cap: nat, e: PlanError)
    requires FaultOf(mrs, i, scatter, cap, e)
    ensures e.key == i && !Resolvable(mrs, scatter, cap)
  {
  }

  /** `e` names the first key whose list is refused, and the first thing wrong with it. */
  ghost predicate FirstFault(mrs: seq<Region>, scatters: seq<seq<Strip>>, cap: nat, e: PlanError) {
    && e.key < |scatters| && FaultOf(mrs, e.key, scatters[e.key], cap, e)
    && !Resolvable(mrs, scatters[e.key], cap) && forall i :: 0 <= i < e.key ==> Resolvable(mrs, scatters[i], cap)
  }

  ghost predicate Resolvable(mrs: seq<Region>, scatter: seq<Strip>, cap: nat) {
    SizeOk(scatter, cap) && forall j :: 0 <= j < |scatter| ==> StripOk(mrs, scatter[j])
  }

  // ----- The operations

  /** One operation of a chain: `len` bytes at the local and at the remote address. */
  datatype Op = Op(laddr: nat, len: nat, lkey: nat, raddr: nat)

  datatype Slab = Slab(base: nat, slotBytes: nat)

  datatype Staging = Staging(addr: nat, lkey: nat)

  function Dst(slab: Slab, slot: nat): nat {
    slab.base + slot * slab.slotBytes
  }

  function Length(plan: seq<Planned>): nat {
    if plan == [] then 0 else Length(plan[..|plan| - 1]) + plan[|plan| - 1].len
  }

  /** Strip after strip from remote address `at` on. */
  function PayloadOps(plan: seq<Planned>, at: nat): (ops: seq<Op>)
    ensures |ops| == |plan|
  {
    if plan == [] then []
    else
      var last, rest := plan[|plan| - 1], plan[..|plan| - 1];
      PayloadOps(rest, at) + [Op(last.addr, last.len, last.lkey, at + Length(rest))]
  }

  function HeaderOp(staging: Staging, j: nat, dst: nat): Op {
    Op(staging.addr + j * KEY_BYTES, KEY_BYTES, staging.lkey, dst)
  }

  /** A put of the first `count` keys: for each, the header and then the payload. */
  function PutOps(slots: seq<nat>, plans: seq<seq<Planned>>, slab: Slab, staging: Staging, count: nat): seq<Op>
    requires count <= |slots| && count <= |plans|
  {
    if count == 0 then []
    else
      var j := count - 1;
      PutOps(slots, plans, slab, staging, j) + KeyPut(slots[j], plans[j], slab, staging, j)
  }

  function KeyPut(slot: nat, plan: seq<Planned>, slab: Slab, staging: Staging, j: nat): seq<Op> {
    var dst := Dst(slab, slot);
    [HeaderOp(staging, j, dst)] + PayloadOps(plan, dst + KEY_BYTES)
  }

  /** A get: for each key that was found, the payload and then the header. */
  function GetOps(slots: seq<Option<nat>>, plans: seq<seq<Planned>>, slab: Slab, staging: Staging, count: nat): seq<Op>
    requires count <= |slots| && count <= |plans|
  {
    if count == 0 then []
    else
      var j := count - 1;
      GetOps(slots, plans, slab, staging, j) + KeyGet(slots[j], plans[j], slab, staging, j)
  }

  function KeyGet(slot: Option<nat>, plan: seq<Planned>, slab: Slab, staging: Staging, j: nat): seq<Op> {
    if slot.None? then []
    else
      var dst := Dst(slab, slot.value);
      PayloadOps(plan, dst + KEY_BYTES) + [HeaderOp(staging, j, dst)]
  }

  /** Appends the operations of one plan, with a running offset. */
  method AddPayload(ops: seq<Op>, plan: seq<Planned>, dst: nat) returns (r: seq<Op>)
    ensures r == ops + PayloadOps(plan, dst + KEY_BYTES)
  {
    r := ops;
    var off := KEY_BYTES;
    for i := 0 to |plan|
      invariant r == ops + PayloadOps(plan[..i], dst + KEY_BYTES)
      invariant off == KEY_BYTES + Length(plan[..i])
    {
      assert plan[..i + 1][..i] == plan[..i];
      r := r + [Op(plan[i].addr, plan[i].len, plan[i].lkey, dst + off)];
      off := off + plan[i].len;
    }
    assert plan[..|plan|] == plan;
  }

  method BuildPutOps(slots: seq<nat>, plans: seq<seq<Planned>>, slab: Slab, staging: Staging) returns (ops: seq<Op>)
    requires |slots| == |plans|
    ensures ops == PutOps(slots, plans, slab, staging, |slots|)
  {
    ops := [];
    for j := 0 to |slots|
      invariant ops == PutOps(slots, plans, slab, staging, j)
    {
      hide PayloadOps;
      var dst := Dst(slab, slots[j]);
      ghost var before := ops;
      ops := ops + [HeaderOp(staging, j, dst)];
      ops := AddPayload(ops, plans[j], dst);
      assert ops == before + ([HeaderOp(staging, j, dst)] + PayloadOps(plans[j], dst + KEY_BYTES));
    }
  }

  /** A key that was not found gets no operation. */
  method AddGet(ops: seq<Op>, slot: Option<nat>, plan: seq<Planned>, slab: Slab, staging: Staging, j: nat) returns (r: seq<Op>)
    ensures r == ops + KeyGet(slot, plan, slab, staging, j)
  {
    hide PayloadOps, Dst, HeaderOp;
    if slot.None? {
      return ops;
    }
    var dst := Dst(slab, slot.value);
    r := AddPayload(ops, plan, dst);
    r := r + [HeaderOp(staging, j, dst)];
  }

  method BuildGetOps(slots: seq<Option<nat>>, plans: seq<seq<Planned>>, slab: Slab, staging: Staging) returns (ops: seq<Op>)
    requires |slots| == |plans|
    ensures ops == GetOps(slots, plans, slab, staging, |slots|)
  {
    hide KeyGet;
    ops := [];
    for j := 0 to |slots|
      invariant ops == GetOps(slots, plans, slab, staging, j)
    {
      ops := AddGet(ops, slots[j], plans[j], slab, staging, j);
    }
  }

  /** The codes of a get: 0 for a key whose slot was found and whose header is the
      key, -1 for every other. */
  method CheckHeaders(keys: seq<KeyHash>, slots: seq<Option<nat>>, headers: seq<Bytes>) returns (out: seq<int>)
    requires |slots| == |keys| == |headers|
    ensures |out| == |keys|
    ensures forall j :: 0 <= j < |keys| ==> out[j] == (if slots[j].Some? && headers[j] == keys[j] then 0 else -1)
  {
    out := seq(|keys|, j requires 0 <= j < |keys| => if slots[j].Some? then 0 else -1);
    for j := 0 to |keys|
      invariant |out| == |keys|
      invariant forall h :: 0 <= h < j ==> out[h] == (if slots[h].Some? && headers[h] == keys[h] then 0 else -1)
      invariant forall h :: j <= h < |keys| ==> out[h] == (if slots[h].Some? then 0 else -1)
    {
      if slots[j].Some? && headers[j] != keys[j] {
        out := out[j := -1];
      }
    }
  }

  // ----- Where the operations reach

  lemma SlotsApart(slab: Slab, a: nat, b: nat)
    requires a < b
    ensures Dst(slab, a) + slab.slotBytes <= Dst(slab, b)
  {
    assert (a + 1) * slab.slotBytes <= b * slab.slotBytes;
  }

  /** With at most 2^32 strips the u64 sum does not wrap: an accepted payload fits
      its slot behind the header. */
  lemma {:induction false} AcceptedFits(mrs: seq<Region>, scatter: seq<Strip>, plan: seq<Planned>)
    requires PlanFor(mrs, scatter, plan)
    ensures Length(plan) == Total(scatter) <= |scatter| * U32_MAX
  {
    if scatter != [] {
      var n := |scatter| - 1;
      assert PlannedOk(mrs, scatter[n], plan[n]);
      AcceptedFits(mrs, scatter[..n], plan[..n]);
    }
  }

  lemma PlanFits(mrs: seq<Region>, scatter: seq<Strip>, plan: seq<Planned>, slab: Slab)
    requires slab.slotBytes >= KEY_BYTES && |scatter| <= U32_MAX + 1
    requires SizeOk(scatter, slab.slotBytes - KEY_BYTES) && PlanFor(mrs, scatter, plan)
    ensures 0 < KEY_BYTES + Length(plan) <= slab.slotBytes
  {
    AcceptedFits(mrs, scatter, plan);
    assert |scatter| * U32_MAX < U64_MODULUS;
  }

  lemma {:induction false} PayloadReach(plan: seq<Planned>, at: nat, i: nat)
    requires i < |plan|
    ensures
      var op := PayloadOps(plan, at)[i];
      && op.laddr == plan[i].addr && op.len == plan[i].len && op.lkey == plan[i].lkey
      && op.raddr == at + Length(plan[..i]) && op.raddr + op.len == at + Length(plan[..i + 1]) <= at + Length(plan)
  {
    var n := |plan| - 1;
    if i < n {
      PayloadReach(plan[..n], at, i);
      assert plan[..n][..i] == plan[..i] && plan[..n][..i + 1] == plan[..i + 1];
    } else {
      assert plan[..i + 1] == plan && plan[..i + 1][..i] == plan[..i];
    }
  }

  /** Operation `op` stays inside slot x. */
  predicate InSlot(slab: Slab, x: nat, op: Op) {
    Dst(slab, x) <= op.raddr && op.raddr + op.len <= Dst(slab, x) + slab.slotBytes
  }

  /** Every operation of a put is of one of its keys and stays inside the slot of
      that key. */
  lemma {:induction false} PutInSlots(slots: seq<nat>, plans: seq<seq<Planned>>, slab: Slab, staging: Staging, count: nat, op: Op)
    returns (j: nat)
    requires count <= |slots| == |plans| && slab.slotBytes >= KEY_BYTES
    requires forall j :: 0 <= j < |plans| ==> KEY_BYTES + Length(plans[j]) <= slab.slotBytes
    requires op in PutOps(slots, plans, slab, staging, count)
    ensures j < count && op in KeyPut(slots[j], plans[j], slab, staging, j) && InSlot(slab, slots[j], op)
  {
    j := count - 1;
    var dst := Dst(slab, slots[j]);
    if op in PutOps(slots, plans, slab, staging, j) {
      j := PutInSlots(slots, plans, slab, staging, j, op);
    } else if op != HeaderOp(staging, j, dst) {
      var ops := PayloadOps(plans[j], dst + KEY_BYTES);
      var i :| 0 <= i < |ops| && ops[i] == op;
      PayloadReach(plans[j], dst + KEY_BYTES, i);
    }
  }

  // ----- What the chains do to memory

  /** `m` with its bytes from `at` on replaced by `data`. */
  function Splice(m: Bytes, at: nat, data: Bytes): (r: Bytes)
    requires at + |data| <= |m|
    ensures |r| == |m|
  {
    m[..at] + data + m[at + |data|..]
  }

  lemma SpliceSplice(m: Bytes, at: nat, a: Bytes, b: Bytes)
    requires at + |a| + |b| <= |m|
    ensures Splice(Splice(m, at, a), at + |a|, b) == Splice(m, at, a + b)
  {
    var r := Splice(m, at, a);
    assert r[..at + |a|] == m[..at] + a;
    assert r[at + |a| + |b|..] == m[at + |a| + |b|..];
  }

  lemma SpliceNothing(m: Bytes, at: nat)
    requires at <= |m|
    ensures Splice(m, at, []) == m
  {
  }

  /** `dst` with the bytes of `src` at `from` copied to `to`. */
  function Copied(dst: Bytes, src: Bytes, from: nat, to: nat, len: nat): (r: Bytes)
    requires from + len <= |src| && to + len <= |dst|
    ensures |r| == |dst|
  {
    Splice(dst, to, src[from..from + len])
  }

  predicate Fits(local: Bytes, remote: Bytes, ops: seq<Op>) {
    forall i :: 0 <= i < |ops| ==> ops[i].laddr + ops[i].len <= |local| && ops[i].raddr + ops[i].len <= |remote|
  }

  /** Remote memory after a write chain, whose operations take effect in order. */
  function Written(remote: Bytes, local: Bytes, ops: seq<Op>): (r: Bytes)
    requires Fits(local, remote, ops)
    ensures |r| == |remote|
  {
    if ops == [] then remote
    else
      var op := ops[|ops| - 1];
      Copied(Written(remote, local, ops[..|ops| - 1]), local, op.laddr, op.raddr, op.len)
  }

  /** Local memory after a read chain. */
  function ReadInto(local: Bytes, remote: Bytes, ops: seq<Op>): (r: Bytes)
    requires Fits(local, remote, ops)
    ensures |r| == |local|
  {
    if ops == [] then local
    else
      var op := ops[|ops| - 1];
      Copied(ReadInto(local, remote, ops[..|ops| - 1]), remote, op.raddr, op.laddr, op.len)
  }

  predicate StripsFit(local: Bytes, plan: seq<Planned>) {
    forall i :: 0 <= i < |plan| ==> plan[i].addr + plan[i].len <= |local|
  }

  /** The payload a plan stands for: its strips one after the other. */
  function Gathered(local: Bytes, plan: seq<Planned>): (r: Bytes)
    requires StripsFit(local, plan)
    ensures |r| == Length(plan)
  {
    if plan == [] then []
    else
      var last := plan[|plan| - 1];
      Gathered(local, plan[..|plan| - 1]) + local[last.addr..last.addr + last.len]
  }

  lemma {:induction false} WrittenAppend(remote: Bytes, local: Bytes, a: seq<Op>, b: seq<Op>)
    requires Fits(local, remote, a + b)
    ensures Fits(local, remote, a) && Fits(local, Written(remote, local, a), b)
    ensures Written(remote, local, a + b) == Written(Written(remote, local, a), local, b)
    decreases |b|
  {
    assert forall i :: 0 <= i < |a| ==> (a + b)[i] == a[i];
    assert forall i :: 0 <= i < |b| ==> (a + b)[|a| + i] == b[i];
    if b == [] {
      assert a + b == a;
    } else {
      var n := |b| - 1;
      assert (a + b)[..|a + b| - 1] == a + b[..n];
      WrittenAppend(remote, local, a, b[..n]);
    }
  }

  lemma PayloadFits(local: Bytes, remote: Bytes, plan: seq<Planned>, at: nat)
    requires StripsFit(local, plan) && at + Length(plan) <= |remote|
    ensures Fits(local, remote, PayloadOps(plan, at))
  {
    forall i | 0 <= i < |plan|
      ensures
        var op := PayloadOps(plan, at)[i];
        op.laddr + op.len <= |local| && op.raddr + op.len <= |remote|
    {
      PayloadReach(plan, at, i);
    }
  }

  /** The payload operations tile: they replace exactly the bytes from `at` on by
      the gathered payload. */
  lemma {:induction false} PayloadTiles(local: Bytes, remote: Bytes, plan: seq<Planned>, at: nat)
    requires StripsFit(local, plan) && at + Length(plan) <= |remote|
    ensures Fits(local, remote, PayloadOps(plan, at))
    ensures Written(remote, local, PayloadOps(plan, at)) == Splice(remote, at, Gathered(local, plan))
  {
    hide Splice;
    PayloadFits(local, remote, plan, at);
    if plan == [] {
      SpliceNothing(remote, at);
    } else {
      var n := |plan| - 1;
      PayloadTiles(local, remote, plan[..n], at);
      assert PayloadOps(plan, at)[..n] == PayloadOps(plan[..n], at);
      SpliceSplice(remote, at, Gathered(local, plan[..n]), local[plan[n].addr..plan[n].addr + plan[n].len]);
    }
  }

  predicate HoldsAt(remote: Bytes, at: nat, content: Bytes) {
    at + |content| <= |remote| && remote[at..at + |content|] == content
  }

  /** A put batch as the protocol makes it: distinct slots of the slab, payloads
      that fit, and strips and staged keys inside local memory. */
  datatype PutBatch = PutBatch(slots: seq<nat>, plans: seq<seq<Planned>>, slab: Slab, staging: Staging) {
    ghost predicate Valid(local: Bytes, remote: Bytes) {
      && |slots| == |plans| && NoDup(slots)
      && staging.addr + |slots| * KEY_BYTES <= |local|
      && forall j :: 0 <= j < |slots| ==> KeyValid(local, remote, j)
    }

    ghost predicate KeyValid(local: Bytes, remote: Bytes, j: nat)
      requires j < |slots| && |slots| == |plans|
    {
      && KEY_BYTES + Length(plans[j]) <= slab.slotBytes
      && Dst(slab, slots[j]) + slab.slotBytes <= |remote|
      && StripsFit(local, plans[j])
      && staging.addr + j * KEY_BYTES + KEY_BYTES <= |local|
    }

    /** What slot j is to hold: the staged key and the gathered payload. */
    ghost function Content(local: Bytes, remote: Bytes, j: nat): (r: Bytes)
      requires Valid(local, remote) && j < |slots|
      ensures |r| == KEY_BYTES + Length(plans[j])
    {
      assert KeyValid(local, remote, j);
      local[staging.addr + j * KEY_BYTES..staging.addr + j * KEY_BYTES + KEY_BYTES] + Gathered(local, plans[j])
    }
  }

  /** The operations of one key replace exactly the start of its slot. */
  lemma KeyTiles(local: Bytes, remote: Bytes, header: Op, plan: seq<Planned>)
    requires header.len == KEY_BYTES && header.laddr + KEY_BYTES <= |local| && StripsFit(local, plan)
    requires header.raddr + KEY_BYTES + Length(plan) <= |remote|
    ensures
      var ops := [header] + PayloadOps(plan, header.raddr + KEY_BYTES);
      var content := local[header.laddr..header.laddr + KEY_BYTES] + Gathered(local, plan);
      && Fits(local, remote, ops)
      && Written(remote, local, ops) == Splice(remote, header.raddr, content)
  {
    hide Splice, PayloadOps, Gathered, Written, Length;
    var at := header.raddr + KEY_BYTES;
    PayloadFits(local, remote, plan, at);
    assert Fits(local, remote, [header]);
    FitsAppend(local, remote, [header], PayloadOps(plan, at));
    WrittenAppend(remote, local, [header], PayloadOps(plan, at));
    OneWritten(remote, local, header);
    var staged := local[header.laddr..header.laddr + KEY_BYTES];
    PayloadTiles(local, Splice(remote, header.raddr, staged), plan, at);
    SpliceSplice(remote, header.raddr, staged, Gathered(local, plan));
  }

  lemma OneWritten(remote: Bytes, local: Bytes, op: Op)
    requires Fits(local, remote, [op])
    ensures op.laddr + op.len <= |local| && op.raddr + op.len <= |remote|
    ensures Written(remote, local, [op]) == Splice(remote, op.raddr, local[op.laddr..op.laddr + op.len])
  {
    hide Splice;
    assert [op][..0] == [];
    assert [op][0] == op;
  }

  /** Replacing a range changes nothing outside it. */
  lemma OutsideKept(m: Bytes, at: nat, content: Bytes, lo: nat, hi: nat)
    requires at + |content| <= |m| && lo <= hi <= |m| && (hi <= at || at + |content| <= lo)
    ensures Splice(m, at, content)[lo..hi] == m[lo..hi]
  {
  }

  /** After the first `count` keys of a put, `after` is the remote memory: each of
      their slots holds its content and every other slot is as before. */
  ghost predicate Landed(b: PutBatch, local: Bytes, remote: Bytes, after: Bytes, count: nat)
    requires b.Valid(local, remote) && count <= |b.slots|
  {
    && |after| == |remote|
    && (forall j :: 0 <= j < count ==> HoldsAt(after, Dst(b.slab, b.slots[j]), b.Content(local, remote, j)))
    && (forall x {:trigger Dst(b.slab, x)} :: 0 <= x && x !in b.slots[..count] && Dst(b.slab, x) + b.slab.slotBytes <= |remote| ==>
          after[Dst(b.slab, x)..Dst(b.slab, x) + b.slab.slotBytes] == remote[Dst(b.slab, x)..Dst(b.slab, x) + b.slab.slotBytes])
  }

  lemma LandOther(b: PutBatch, mid: Bytes, after: Bytes, j: nat, content: Bytes, x: nat, n: nat)
    requires j < |b.slots| && x != b.slots[j] && n <= b.slab.slotBytes
    requires |content| <= b.slab.slotBytes && Dst(b.slab, b.slots[j]) + b.slab.slotBytes <= |mid|
    requires Dst(b.slab, x) + n <= |mid|
    requires after == Splice(mid, Dst(b.slab, b.slots[j]), content)
    ensures after[Dst(b.slab, x)..Dst(b.slab, x) + n] == mid[Dst(b.slab, x)..Dst(b.slab, x) + n]
  {
    hide Dst, Splice;
    if x < b.slots[j] {
      SlotsApart(b.slab, x, b.slots[j]);
    } else {
      SlotsApart(b.slab, b.slots[j], x);
    }
    OutsideKept(mid, Dst(b.slab, b.slots[j]), content, Dst(b.slab, x), Dst(b.slab, x) + n);
  }

  /** Key j's bytes went into its slot. */
  ghost predicate Replaced(b: PutBatch, local: Bytes, remote: Bytes, mid: Bytes, after: Bytes, j: nat)
    requires b.Valid(local, remote) && j < |b.slots|
  {
    var dst, content := Dst(b.slab, b.slots[j]), b.Content(local, remote, j);
    && |mid| == |remote| && dst + b.slab.slotBytes <= |mid| && |content| <= b.slab.slotBytes
    && after == Splice(mid, dst, content)
  }

  lemma LandHeld(b: PutBatch, local: Bytes, remote: Bytes, mid: Bytes, after: Bytes, j: nat, h: nat)
    requires b.Valid(local, remote) && h <= j < |b.slots| && Replaced(b, local, remote, mid, after, j)
    requires h < j ==> HoldsAt(mid, Dst(b.slab, b.slots[h]), b.Content(local, remote, h))
    ensures HoldsAt(after, Dst(b.slab, b.slots[h]), b.Content(local, remote, h))
  {
    hide Dst, Length;
    if h < j {
      assert b.KeyValid(local, remote, h);
      LandOther(b, mid, after, j, b.Content(local, remote, j), b.slots[h], |b.Content(local, remote, h)|);
    }
  }

  lemma LandOne(b: PutBatch, local: Bytes, remote: Bytes, mid: Bytes, after: Bytes, j: nat)
    requires b.Valid(local, remote) && j < |b.slots| && Landed(b, local, remote, mid, j)
    requires Replaced(b, local, remote, mid, after, j)
    ensures Landed(b, local, remote, after, j + 1)
  {
    hide Dst, Length, HoldsAt, Splice;
    forall h | 0 <= h < j + 1
      ensures HoldsAt(after, Dst(b.slab, b.slots[h]), b.Content(local, remote, h))
    {
      LandHeld(b, local, remote, mid, after, j, h);
    }
    forall x {:trigger Dst(b.slab, x)} | 0 <= x && x !in b.slots[..j + 1] && Dst(b.slab, x) + b.slab.slotBytes <= |remote|
      ensures after[Dst(b.slab, x)..Dst(b.slab, x) + b.slab.slotBytes] == remote[Dst(b.slab, x)..Dst(b.slab, x) + b.slab.slotBytes]
    {
      assert b.slots[..j + 1] == b.slots[..j] + [b.slots[j]];
      LandOther(b, mid, after, j, b.Content(local, remote, j), x, b.slab.slotBytes);
    }
  }

  lemma FitsAppend(local: Bytes, remote: Bytes, a: seq<Op>, b: seq<Op>)
    requires Fits(local, remote, a) && Fits(local, remote, b)
    ensures Fits(local, remote, a + b)
  {
  }

  lemma PutLandsNext(b: PutBatch, local: Bytes, remote: Bytes, ops: seq<Op>, j: nat)
    requires b.Valid(local, remote) && j < |b.slots| && Fits(local, remote, ops)
    requires Landed(b, local, remote, Written(remote, local, ops), j)
    ensures
      var dst := Dst(b.slab, b.slots[j]);
      var more := [HeaderOp(b.staging, j, dst)] + PayloadOps(b.plans[j], dst + KEY_BYTES);
      && Fits(local, remote, ops + more)
      && Landed(b, local, remote, Written(remote, local, ops + more), j + 1)
  {
    hide Dst, Length, Landed, Written, PayloadOps, Fits;
    var mid := Written(remote, local, ops);
    var header := HeaderOp(b.staging, j, Dst(b.slab, b.slots[j]));
    var more := [header] + PayloadOps(b.plans[j], header.raddr + KEY_BYTES);
    assert b.KeyValid(local, remote, j);
    KeyTiles(local, mid, header, b.plans[j]);
    SameFit(local, mid, remote, more);
    FitsAppend(local, remote, ops, more);
    WrittenAppend(remote, local, ops, more);
    LandOne(b, local, remote, mid, Written(remote, local, ops + more), j);
  }

  lemma SameFit(local: Bytes, a: Bytes, b: Bytes, ops: seq<Op>)
    requires Fits(local, a, ops) && |a| == |b|
    ensures Fits(local, b, ops)
  {
  }

  /** A put leaves in every slot of its batch the staged key followed by the
      payload, and leaves every other slot alone. */
  lemma {:induction false} PutLands(b: PutBatch, local: Bytes, remote: Bytes, count: nat)
    requires b.Valid(local, remote) && count <= |b.slots|
    ensures
      var ops := PutOps(b.slots, b.plans, b.slab, b.staging, count);
      Fits(local, remote, ops) && Landed(b, local, remote, Written(remote, local, ops), count)
  {
    hide Dst, Landed, PayloadOps;
    if count == 0 {
      NothingLanded(b, local, remote);
    } else {
      PutLands(b, local, remote, count - 1);
      PutLandsNext(b, local, remote, PutOps(b.slots, b.plans, b.slab, b.staging, count - 1), count - 1);
    }
  }

  lemma NothingLanded(b: PutBatch, local: Bytes, remote: Bytes)
    requires b.Valid(local, remote)
    ensures Landed(b, local, remote, remote, 0)
  {
  }

  predicate ApartLocally(a: Op, b: Op) {
    a.laddr + a.len <= b.laddr || b.laddr + b.len <= a.laddr
  }

  /** No two reads of the chain land on the same local byte. */
  predicate AllApart(ops: seq<Op>) {
    forall i, j :: 0 <= i < j < |ops| ==> ApartLocally(ops[i], ops[j])
  }

  lemma CopiedAt(dst: Bytes, src: Bytes, from: nat, to: nat, len: nat)
    requires from + len <= |src| && to + len <= |dst|
    ensures Copied(dst, src, from, to, len)[to..to + len] == src[from..from + len]
  {
  }

  lemma {:induction false} ReadLands(local: Bytes, remote: Bytes, ops: seq<Op>, i: nat)
    requires Fits(local, remote, ops) && AllApart(ops) && i < |ops|
    ensures ReadInto(local, remote, ops)[ops[i].laddr..ops[i].laddr + ops[i].len]
         == remote[ops[i].raddr..ops[i].raddr + ops[i].len]
  {
    hide Copied;
    var n := |ops| - 1;
    var op, mid := ops[n], ReadInto(local, remote, ops[..n]);
    if i == n {
      CopiedAt(mid, remote, op.raddr, op.laddr, op.len);
    } else {
      ReadLands(local, remote, ops[..n], i);
      assert ApartLocally(ops[i], ops[n]);
      CopyKeeps(mid, remote, op, ops[i].laddr, ops[i].laddr + ops[i].len);
    }
  }

  lemma CopyKeeps(mid: Bytes, remote: Bytes, op: Op, lo: nat, hi: nat)
    requires op.raddr + op.len <= |remote| && op.laddr + op.len <= |mid| && lo <= hi <= |mid|
    requires hi <= op.laddr || op.laddr + op.len <= lo
    ensures Copied(mid, remote, op.raddr, op.laddr, op.len)[lo..hi] == mid[lo..hi]
  {
    OutsideKept(mid, op.laddr, remote[op.raddr..op.raddr + op.len], lo, hi);
  }

  lemma {:induction false} KeyInBatch(slots: seq<Option<nat>>, plans: seq<seq<Planned>>, slab: Slab, staging: Staging, count: nat, j: nat)
    requires j < count <= |slots| && count <= |plans|
    ensures forall op :: op in KeyGet(slots[j], plans[j], slab, staging, j) ==> op in GetOps(slots, plans, slab, staging, count)
  {
    hide KeyGet;
    if j < count - 1 {
      KeyInBatch(slots, plans, slab, staging, count - 1, j);
    }
  }

  /** Strips that each hold their stretch of the slot gather to the whole stretch. */
  lemma {:induction false} GatherStretch(local: Bytes, remote: Bytes, plan: seq<Planned>, at: nat, n: nat)
    requires StripsFit(local, plan) && n <= |plan|
    requires forall i :: 0 <= i < |plan| ==> StripHolds(local, remote, plan, at, i)
    ensures n == 0 || at + Length(plan[..n]) <= |remote|
    ensures n == 0 || Gathered(local, plan[..n]) == remote[at..at + Length(plan[..n])]
  {
    if n > 0 {
      assert plan[..n][..n - 1] == plan[..n - 1];
      GatherStretch(local, remote, plan, at, n - 1);
      assert StripHolds(local, remote, plan, at, n - 1);
    }
  }

  ghost predicate StripHolds(local: Bytes, remote: Bytes, plan: seq<Planned>, at: nat, i: nat)
    requires i < |plan| && StripsFit(local, plan)
  {
    var from := at + Length(plan[..i]);
    from + plan[i].len <= |remote| && local[plan[i].addr..plan[i].addr + plan[i].len] == remote[from..from + plan[i].len]
  }

  /** A get, as the protocol makes it: its reads stay inside both memories and do
      not overlap locally. */
  datatype GetBatch = GetBatch(slots: seq<Option<nat>>, plans: seq<seq<Planned>>, slab: Slab, staging: Staging) {
    function Ops(): seq<Op>
      requires |slots| == |plans|
    {
      GetOps(slots, plans, slab, staging, |slots|)
    }

    ghost predicate Valid(local: Bytes, remote: Bytes) {
      && |slots| == |plans|
      && Fits(local, remote, Ops()) && AllApart(Ops())
      && forall j :: 0 <= j < |plans| ==> StripsFit(local, plans[j])
    }
  }

  lemma OpLands(b: GetBatch, local: Bytes, remote: Bytes, op: Op)
    requires b.Valid(local, remote) && op in b.Ops()
    ensures op.laddr + op.len <= |local| && op.raddr + op.len <= |remote|
    ensures ReadInto(local, remote, b.Ops())[op.laddr..op.laddr + op.len] == remote[op.raddr..op.raddr + op.len]
  {
    hide GetOps, ReadInto;
    var i :| 0 <= i < |b.Ops()| && b.Ops()[i] == op;
    ReadLands(local, remote, b.Ops(), i);
  }

  /** After a get, the strips of every key that was found gather to the bytes
      behind its slot's header, and its staging entry is the header. */
  lemma GetReturns(b: GetBatch, local: Bytes, remote: Bytes, j: nat)
    requires b.Valid(local, remote) && j < |b.slots| && b.slots[j].Some?
    requires Dst(b.slab, b.slots[j].value) + KEY_BYTES + Length(b.plans[j]) <= |remote|
    ensures
      var after := ReadInto(local, remote, b.Ops());
      var dst, h := Dst(b.slab, b.slots[j].value), b.staging.addr + j * KEY_BYTES;
      && StripsFit(after, b.plans[j])
      && Gathered(after, b.plans[j]) == remote[dst + KEY_BYTES..dst + KEY_BYTES + Length(b.plans[j])]
      && h + KEY_BYTES <= |after| && after[h..h + KEY_BYTES] == remote[dst..dst + KEY_BYTES]
  {
    hide Dst, KeyGet, ReadInto, StripHolds, Gathered, Length;
    var plan, dst := b.plans[j], Dst(b.slab, b.slots[j].value);
    var after, at := ReadInto(local, remote, b.Ops()), dst + KEY_BYTES;
    HeaderReturned(b, local, remote, j);
    forall i | 0 <= i < |plan|
      ensures StripHolds(after, remote, plan, at, i)
    {
      StripReturned(b, local, remote, j, i);
    }
    GatherStretch(after, remote, plan, at, |plan|);
    assert plan[..|plan|] == plan;
    if plan == [] {
      assert Gathered(after, plan) == [] by {
        NothingGathered(after);
      }
    }
  }

  lemma NothingGathered(local: Bytes)
    ensures Gathered(local, []) == [] && Length([]) == 0
  {
  }

  lemma HeaderReturned(b: GetBatch, local: Bytes, remote: Bytes, j: nat)
    requires b.Valid(local, remote) && j < |b.slots| && b.slots[j].Some?
    ensures
      var h, dst := b.staging.addr + j * KEY_BYTES, Dst(b.slab, b.slots[j].value);
      && h + KEY_BYTES <= |local| && dst + KEY_BYTES <= |remote|
      && ReadInto(local, remote, b.Ops())[h..h + KEY_BYTES] == remote[dst..dst + KEY_BYTES]
  {
    hide Dst, GetOps, ReadInto, PayloadOps, Fits, AllApart;
    KeyInBatch(b.slots, b.plans, b.slab, b.staging, |b.slots|, j);
    OpLands(b, local, remote, HeaderOp(b.staging, j, Dst(b.slab, b.slots[j].value)));
  }

  lemma StripReturned(b: GetBatch, local: Bytes, remote: Bytes, j: nat, i: nat)
    requires b.Valid(local, remote) && j < |b.slots| && b.slots[j].Some? && i < |b.plans[j]|
    ensures StripHolds(ReadInto(local, remote, b.Ops()), remote, b.plans[j], Dst(b.slab, b.slots[j].value) + KEY_BYTES, i)
  {
    hide Dst, GetOps, ReadInto, PayloadOps, Fits, AllApart, Length;
    var plan, at := b.plans[j], Dst(b.slab, b.slots[j].value) + KEY_BYTES;
    KeyInBatch(b.slots, b.plans, b.slab, b.staging, |b.slots|, j);
    PayloadReach(plan, at, i);
    assert PayloadOps(plan, at)[i] in KeyGet(b.slots[j], plan, b.slab, b.staging, j);
    OpLands(b, local, remote, PayloadOps(plan, at)[i]);
  }

  /** Put, then get, with any two ways of scattering the same bytes over local
      memory: a get of the j-th key of the put from the slot it was put into finds
      its key in the header, and gathers the first bytes of what was put. */
  lemma PutThenGet(p: PutBatch, putLocal: Bytes, remote: Bytes, g: GetBatch, getLocal: Bytes, j: nat, i: nat)
    requires p.Valid(putLocal, remote) && j < |p.slots|
    requires
      var written := Written(remote, putLocal, BatchOps(p, putLocal, remote));
      g.Valid(getLocal, written)
    requires g.slab == p.slab && i < |g.slots| && g.slots[i] == Some(p.slots[j])
    requires Length(g.plans[i]) <= Length(p.plans[j])
    ensures
      var written := Written(remote, putLocal, BatchOps(p, putLocal, remote));
      var after := ReadInto(getLocal, written, g.Ops());
      var h := g.staging.addr + i * KEY_BYTES;
      && h + KEY_BYTES <= |after| && StripsFit(after, g.plans[i])
      && after[h..h + KEY_BYTES] == p.Content(putLocal, remote, j)[..KEY_BYTES]
      && Gathered(after, g.plans[i]) == p.Content(putLocal, remote, j)[KEY_BYTES..KEY_BYTES + Length(g.plans[i])]
  {
    hide Dst, Length, PutOps, Written, ReadInto, Gathered, GetOps;
    PutLands(p, putLocal, remote, |p.slots|);
    var written := Written(remote, putLocal, BatchOps(p, putLocal, remote));
    var content, dst := p.Content(putLocal, remote, j), Dst(p.slab, p.slots[j]);
    assert HoldsAt(written, dst, content);
    GetReturns(g, getLocal, written, i);
    InnerSlice(written, dst, content, 0, KEY_BYTES);
    InnerSlice(written, dst, content, KEY_BYTES, KEY_BYTES + Length(g.plans[i]));
  }

  ghost function BatchOps(p: PutBatch, local: Bytes, remote: Bytes): (ops: seq<Op>)
    requires p.Valid(local, remote)
    ensures Fits(local, remote, ops)
  {
    PutLands(p, local, remote, |p.slots|);
    PutOps(p.slots, p.plans, p.slab, p.staging, |p.slots|)
  }

  lemma InnerSlice(m: Bytes, at: nat, content: Bytes, lo: nat, hi: nat)
    requires HoldsAt(m, at, content) && lo <= hi <= |content|
    ensures m[at + lo..at + hi] == content[lo..hi]
  {
    forall k | 0 <= k < hi - lo
      ensures m[at + lo..at + hi][k] == content[lo..hi][k]
    {
      assert m[at..at + |content|][lo + k] == content[lo + k];
    }
  }
}
