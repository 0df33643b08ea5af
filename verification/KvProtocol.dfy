/** One-sided puts and gets over the slot pool, as interleaved steps: a put
    reserves slots, writes a header and then the payload of each slot remotely,
    and commits; a get looks a slot up, reads the payload and then the header
    remotely, and trusts what it read iff the header is its key
    (crates/openlake_kv_client/src/protocol.rs:531-775). A header transfer is one
    step; a payload moves byte by byte, in any order. */
module KvProtocol {
  import opened Bytes
  import opened SlotPoolSpec

  datatype Phase = Reserved | Writing | Committed | Aborted

  /** One key of a put batch; `written` are the payload positions written so far. */
  datatype Put = Put(slot: nat, deadline: nat, key: KeyHash, payload: Bytes, written: set<nat>, phase: Phase)

  /** One key of a get batch that the lookup found. `source` is the put that had
      committed the key, and `overtaken` records whether a later put of the same
      key has written its header into the slot before this get read it. */
  datatype Get = Get(key: KeyHash, slot: nat, source: Option<nat>, overtaken: bool, got: map<nat, byte>, header: Option<KeyHash>)

  /** `wrote` and `binder` record, for every slot, the put whose header it holds
      and the put that last committed it. */
  datatype Kv = Kv(
    clock: nat,
    cap: nat,
    pool: Pool,
    header: seq<KeyHash>,
    bytes: seq<Bytes>,
    wrote: seq<Option<nat>>,
    binder: seq<Option<nat>>,
    puts: seq<Put>,
    gets: seq<Get>)

  datatype Step =
    | Tick
    | ReserveSlots(clocks: seq<nat>, order: seq<nat>, after: nat, jobs: seq<(KeyHash, Bytes)>)
    | WriteHeader(put: nat)
    | WriteByte(put: nat, at: nat)
    | CommitSlot(put: nat)
    | Abort(put: nat)
    | LookupKey(key: KeyHash)
    | ReadByte(get: nat, at: nat)
    | ReadHeader(get: nat)

  /** A put that still acts on its slot: no put outlives its reservation. */
  predicate Live(s: Kv, i: nat) {
    && i < |s.puts|
    && (s.puts[i].phase.Reserved? || s.puts[i].phase.Writing?)
    && s.clock < s.puts[i].deadline
  }

  ghost predicate Shape(s: Kv) {
    && |s.header| == |s.bytes| == |s.wrote| == |s.binder| == s.pool.n
    && (forall x :: 0 <= x < |s.bytes| ==> |s.bytes[x]| == s.cap)
    && (forall i :: 0 <= i < |s.puts| ==> s.puts[i].slot < s.pool.n && |s.puts[i].payload| <= s.cap)
    && (forall g :: 0 <= g < |s.gets| ==> s.gets[g].slot < s.pool.n)
    && (forall x :: 0 <= x < s.pool.n && s.wrote[x].Some? ==> s.wrote[x].value < |s.puts|)
  }

  /** What a reserve grants: slots whose payloads fit. */
  function Grant(s: Kv, clocks: seq<nat>, order: seq<nat>): (Pool, seq<nat>) {
    Reserve(s.pool, s.clock, clocks, order)
  }

  ghost predicate CanReserve(s: Kv, clocks: seq<nat>, order: seq<nat>, after: nat, jobs: seq<(KeyHash, Bytes)>) {
    && (|s.pool.free| < |clocks| ==> ReclaimOrder(s.pool, s.clock, order))
    && s.clock <= after
    && (forall i :: 0 <= i < |clocks| ==> s.clock <= clocks[i] <= after)
    && |jobs| == |Grant(s, clocks, order).1|
    && (forall i :: 0 <= i < |jobs| ==> |jobs[i].1| <= s.cap)
  }

  ghost predicate Enabled(s: Kv, step: Step) {
    match step
    case Tick => true
    case ReserveSlots(clocks, order, after, jobs) => CanReserve(s, clocks, order, after, jobs)
    case WriteHeader(i) => Live(s, i) && s.puts[i].phase.Reserved?
    case WriteByte(i, j) => Live(s, i) && s.puts[i].phase.Writing? && j < |s.puts[i].payload|
    case CommitSlot(i) =>
      && Live(s, i) && s.puts[i].phase.Writing?
      && forall j :: 0 <= j < |s.puts[i].payload| ==> j in s.puts[i].written
    case Abort(i) => Live(s, i)
    case LookupKey(key) => true
    case ReadByte(g, j) => g < |s.gets| && s.gets[g].header.None? && j < s.cap
    case ReadHeader(g) => g < |s.gets| && s.gets[g].header.None?
  }

  /** The puts a granted batch starts. */
  function Started(pending: map<nat, nat>, out: seq<nat>, jobs: seq<(KeyHash, Bytes)>): (r: seq<Put>)
    requires |jobs| == |out|
    ensures |r| == |out|
  {
    seq(|out|, i requires 0 <= i < |out| =>
      Put(out[i], if out[i] in pending then pending[out[i]] else 0, jobs[i].0, jobs[i].1, {}, Reserved))
  }

  /** Gets of `key` at `slot` that have not read their header are overtaken. */
  function Overtake(gets: seq<Get>, slot: nat, key: KeyHash): (r: seq<Get>)
    ensures |r| == |gets|
  {
    seq(|gets|, g requires 0 <= g < |gets| =>
      if gets[g].slot == slot && gets[g].key == key && gets[g].header.None? then gets[g].(overtaken := true) else gets[g])
  }

  function BeginGet(s: Kv, key: KeyHash): Kv
    requires |s.binder| == s.pool.n
  {
    match Lookup(s.pool, key)
    case (_, None) => s
    case (q, Some(x)) =>
      var source := if x < |s.binder| then s.binder[x] else None;
      s.(pool := q, gets := s.gets + [Get(key, x, source, false, map[], None)])
  }

  ghost function Apply(s: Kv, step: Step): Kv
    requires Shape(s) && Enabled(s, step)
  {
    match step
    case Tick => s.(clock := s.clock + 1)
    case ReserveSlots(clocks, order, after, jobs) =>
      var (q, out) := Grant(s, clocks, order);
      s.(clock := after, pool := q, puts := s.puts + Started(q.pending, out, jobs))
    case WriteHeader(i) =>
      var p := s.puts[i];
      s.(header := s.header[p.slot := p.key], wrote := s.wrote[p.slot := Some(i)],
         puts := s.puts[i := p.(phase := Writing, written := {})], gets := Overtake(s.gets, p.slot, p.key))
    case WriteByte(i, j) =>
      var p := s.puts[i];
      s.(bytes := s.bytes[p.slot := s.bytes[p.slot][j := p.payload[j]]],
         puts := s.puts[i := p.(written := p.written + {j})])
    case CommitSlot(i) =>
      var p := s.puts[i];
      s.(pool := Commit(s.pool, p.slot, p.key).0, binder := s.binder[p.slot := Some(i)],
         puts := s.puts[i := p.(phase := Committed)])
    case Abort(i) =>
      var p := s.puts[i];
      s.(pool := Release(s.pool, p.slot), puts := s.puts[i := p.(phase := Aborted)])
    case LookupKey(key) => BeginGet(s, key)
    case ReadByte(g, j) =>
      var r := s.gets[g];
      s.(gets := s.gets[g := r.(got := r.got[j := s.bytes[r.slot][j]])])
    case ReadHeader(g) =>
      var r := s.gets[g];
      s.(gets := s.gets[g := r.(header := Some(s.header[r.slot]))])
  }

  // ----- The invariant

  /** Slot x holds the whole payload of the committed put i, under its header. */
  ghost predicate Holds(s: Kv, x: nat, i: nat)
    requires Shape(s)
  {
    && i < |s.puts| && s.puts[i].slot == x && s.puts[i].phase.Committed?
    && s.wrote[x] == Some(i)
    && forall j :: 0 <= j < |s.puts[i].payload| ==> s.bytes[x][j] == s.puts[i].payload[j]
  }

  /** A live put owns its reservation; once its header is out, the slot is its own. */
  ghost predicate PutOk(s: Kv, i: nat)
    requires Shape(s) && i < |s.puts|
  {
    var p := s.puts[i];
    Live(s, i) ==>
      && p.slot in s.pool.pending && s.pool.pending[p.slot] == p.deadline
      && (p.phase.Writing? ==>
            && s.wrote[p.slot] == Some(i)
            && forall j :: j in p.written ==> j < |p.payload| && s.bytes[p.slot][j] == p.payload[j])
  }

  ghost predicate Exclusive(s: Kv) {
    forall i, j :: 0 <= i < j < |s.puts| && Live(s, i) && Live(s, j) ==> s.puts[i].slot != s.puts[j].slot
  }

  ghost predicate BindingOk(s: Kv, x: nat, k: KeyHash)
    requires Shape(s)
  {
    x < s.pool.n && s.binder[x].Some? && Holds(s, x, s.binder[x].value) && s.puts[s.binder[x].value].key == k
  }

  predicate Matches(got: map<nat, byte>, payload: Bytes) {
    forall j :: j in got && j < |payload| ==> got[j] == payload[j]
  }

  /** What an unovertaken get has read are bytes of its source, unless the slot
      has meanwhile been given another key. */
  ghost predicate GetOk(s: Kv, r: Get)
    requires Shape(s) && r.slot < s.pool.n
  {
    !r.overtaken ==>
      && r.source.Some? && r.source.value < |s.puts|
      && var p := s.puts[r.source.value];
      && p.key == r.key && p.slot == r.slot && p.phase.Committed?
      && (r.header.None? && s.header[r.slot] == r.key ==> Holds(s, r.slot, r.source.value) && Matches(r.got, p.payload))
      && (r.header == Some(r.key) ==> Matches(r.got, p.payload))
  }

  ghost predicate HeadersOk(s: Kv)
    requires Shape(s)
  {
    forall x :: 0 <= x < s.pool.n && s.wrote[x].Some? ==> s.header[x] == s.puts[s.wrote[x].value].key
  }

  ghost predicate PutsOk(s: Kv)
    requires Shape(s)
  {
    forall i :: 0 <= i < |s.puts| ==> PutOk(s, i)
  }

  ghost predicate BindingsOk(s: Kv)
    requires Shape(s)
  {
    forall t :: 0 <= t < |s.pool.lru| ==> BindingOk(s, s.pool.lru[t].0, s.pool.lru[t].1)
  }

  ghost predicate GetsOk(s: Kv)
    requires Shape(s)
  {
    forall g :: 0 <= g < |s.gets| ==> GetOk(s, s.gets[g])
  }

  ghost predicate KvInv(s: Kv) {
    && Inv(s.pool) && Shape(s) && HeadersOk(s) && PutsOk(s) && Exclusive(s) && BindingsOk(s) && GetsOk(s)
  }

  /** An empty pool over slots with arbitrary contents. */
  ghost predicate Initial(s: Kv) {
    && s.pool == Fresh(s.pool.n, s.pool.ttl)
    && Shape(s) && s.puts == [] && s.gets == []
    && forall x :: 0 <= x < |s.wrote| ==> s.wrote[x].None?
  }

  lemma InitialInv(s: Kv)
    requires Initial(s)
    ensures KvInv(s)
  {
    FreshInv(s.pool.n, s.pool.ttl);
  }

  // ----- Every step keeps it

  lemma TickKeeps(s: Kv)
    requires KvInv(s)
    ensures KvInv(Apply(s, Tick))
  {
    var s' := Apply(s, Tick);
    forall i | 0 <= i < |s'.puts|
      ensures PutOk(s', i)
    {
      assert PutOk(s, i);
    }
    SameSlots(s, s');
  }

  /** Bindings and gets survive a step that leaves the slots' contents, the
      committed puts and the gets alone and commits no slot. */
  lemma SameSlots(s: Kv, s': Kv)
    requires KvInv(s) && Shape(s') && s'.cap == s.cap && s'.pool.n == s.pool.n
    requires s'.header == s.header && s'.bytes == s.bytes && s'.wrote == s.wrote && s'.binder == s.binder
    requires |s.puts| <= |s'.puts|
    requires forall i :: 0 <= i < |s.puts| ==> Successor(s.puts[i], s'.puts[i])
    requires forall t :: 0 <= t < |s'.pool.lru| ==> s'.pool.lru[t] in s.pool.lru
    requires s'.gets == s.gets
    ensures HeadersOk(s') && BindingsOk(s') && GetsOk(s')
  {
    hide Inv, PutsOk, Exclusive;
    forall t | 0 <= t < |s'.pool.lru|
      ensures BindingOk(s', s'.pool.lru[t].0, s'.pool.lru[t].1)
    {
      var u :| 0 <= u < |s.pool.lru| && s.pool.lru[u] == s'.pool.lru[t];
      assert BindingOk(s, s.pool.lru[u].0, s.pool.lru[u].1);
    }
    forall g | 0 <= g < |s'.gets|
      ensures GetOk(s', s'.gets[g])
    {
      assert GetOk(s, s.gets[g]);
    }
  }

  /** What never changes about a put, and that a committed put stays committed. */
  predicate Successor(p: Put, p': Put) {
    && p'.slot == p.slot && p'.deadline == p.deadline && p'.key == p.key && p'.payload == p.payload
    && (p.phase.Committed? ==> p'.phase.Committed?)
  }

  lemma HeldSlotUnlisted(s: Kv, i: nat)
    requires KvInv(s) && Live(s, i)
    ensures s.puts[i].slot in s.pool.pending
    ensures forall t :: 0 <= t < |s.pool.lru| ==> s.pool.lru[t].0 != s.puts[i].slot
    ensures forall k: nat :: i != k && Live(s, k) ==> s.puts[k].slot != s.puts[i].slot
  {
    hide HeadersOk, BindingsOk, GetsOk;
    assert PutOk(s, i);
    PendingUnlisted(s.pool, s.puts[i].slot);
    assert forall t :: 0 <= t < |s.pool.lru| ==> Slots(s.pool.lru)[t] == s.pool.lru[t].0;
  }

  /** Writing a header gives the slot to the put: the gets that look for another
      key will see it, and those that look for this key are overtaken. */
  lemma WriteHeaderKeeps(s: Kv, i: nat)
    requires KvInv(s) && Enabled(s, WriteHeader(i))
    ensures KvInv(Apply(s, WriteHeader(i)))
  {
    var s' := Apply(s, WriteHeader(i));
    HeldSlotUnlisted(s, i);
    WriteHeaderPuts(s, i);
    WriteHeaderSlots(s, i);
  }

  lemma WriteHeaderPuts(s: Kv, i: nat)
    requires KvInv(s) && Enabled(s, WriteHeader(i))
    requires forall k: nat :: i != k && Live(s, k) ==> s.puts[k].slot != s.puts[i].slot
    ensures
      var s' := Apply(s, WriteHeader(i));
      Shape(s') && HeadersOk(s') && PutsOk(s') && Exclusive(s')
  {
    hide Inv, BindingsOk, GetsOk;
    var s' := Apply(s, WriteHeader(i));
    forall k | 0 <= k < |s'.puts|
      ensures PutOk(s', k)
    {
      assert PutOk(s, k);
      assert Live(s', k) ==> Live(s, k);
    }
    assert forall k: nat :: Live(s', k) ==> Live(s, k);
  }

  lemma WriteHeaderSlots(s: Kv, i: nat)
    requires KvInv(s) && Enabled(s, WriteHeader(i))
    requires forall t :: 0 <= t < |s.pool.lru| ==> s.pool.lru[t].0 != s.puts[i].slot
    requires Shape(Apply(s, WriteHeader(i)))
    ensures
      var s' := Apply(s, WriteHeader(i));
      BindingsOk(s') && GetsOk(s')
  {
    hide Inv, PutsOk, HeadersOk, Exclusive;
    var s' := Apply(s, WriteHeader(i));
    forall t | 0 <= t < |s'.pool.lru|
      ensures BindingOk(s', s'.pool.lru[t].0, s'.pool.lru[t].1)
    {
      assert BindingOk(s, s.pool.lru[t].0, s.pool.lru[t].1);
    }
    forall g | 0 <= g < |s'.gets|
      ensures GetOk(s', s'.gets[g])
    {
      assert GetOk(s, s.gets[g]);
    }
  }

  /** A payload byte goes into a slot no get can be trusting any more. */
  lemma WriteByteKeeps(s: Kv, i: nat, j: nat)
    requires KvInv(s) && Enabled(s, WriteByte(i, j))
    ensures KvInv(Apply(s, WriteByte(i, j)))
  {
    HeldSlotUnlisted(s, i);
    WriteBytePuts(s, i, j);
    WriteByteSlots(s, i, j);
  }

  lemma WriteBytePuts(s: Kv, i: nat, j: nat)
    requires KvInv(s) && Enabled(s, WriteByte(i, j))
    requires forall k: nat :: i != k && Live(s, k) ==> s.puts[k].slot != s.puts[i].slot
    ensures
      var s' := Apply(s, WriteByte(i, j));
      Shape(s') && HeadersOk(s') && PutsOk(s') && Exclusive(s')
  {
    hide Inv, BindingsOk, GetsOk;
    var s' := Apply(s, WriteByte(i, j));
    forall k | 0 <= k < |s'.puts|
      ensures PutOk(s', k)
    {
      assert PutOk(s, k);
      assert Live(s', k) ==> Live(s, k);
    }
    assert forall k: nat :: Live(s', k) ==> Live(s, k);
  }

  lemma WriteByteSlots(s: Kv, i: nat, j: nat)
    requires KvInv(s) && Enabled(s, WriteByte(i, j))
    requires forall t :: 0 <= t < |s.pool.lru| ==> s.pool.lru[t].0 != s.puts[i].slot
    requires Shape(Apply(s, WriteByte(i, j)))
    ensures
      var s' := Apply(s, WriteByte(i, j));
      BindingsOk(s') && GetsOk(s')
  {
    hide Inv, HeadersOk, Exclusive;
    var s' := Apply(s, WriteByte(i, j));
    assert PutOk(s, i);
    forall t | 0 <= t < |s'.pool.lru|
      ensures BindingOk(s', s'.pool.lru[t].0, s'.pool.lru[t].1)
    {
      assert BindingOk(s, s.pool.lru[t].0, s.pool.lru[t].1);
    }
    forall g | 0 <= g < |s'.gets|
      ensures GetOk(s', s'.gets[g])
    {
      assert GetOk(s, s.gets[g]);
    }
  }

  /** A commit lists the slot of a fully written put. */
  lemma CommitKeeps(s: Kv, i: nat)
    requires KvInv(s) && Enabled(s, CommitSlot(i))
    ensures KvInv(Apply(s, CommitSlot(i)))
  {
    var p := s.puts[i];
    HeldSlotUnlisted(s, i);
    CommitInv(s.pool, p.slot, p.key);
    CommitReserved(s.pool, p.slot, p.key);
    CommitPuts(s, i);
    CommitSlots(s, i);
  }

  /** Committing a reserved slot ends its reservation and lists it. */
  lemma CommitReserved(p: Pool, x: nat, k: KeyHash)
    requires Inv(p) && x in p.pending
    ensures
      var q := Commit(p, x, k).0;
      && q.n == p.n && q.pending == p.pending - {x}
      && forall t :: 0 <= t < |q.lru| ==> q.lru[t] == (x, k) || q.lru[t] in p.lru
  {
    PendingUnlisted(p, x);
    if FindKey(p.lru, k).Some? {
      WithoutFacts(p.lru, FindKey(p.lru, k).value);
    }
  }

  lemma CommitPuts(s: Kv, i: nat)
    requires KvInv(s) && Enabled(s, CommitSlot(i))
    requires forall k: nat :: i != k && Live(s, k) ==> s.puts[k].slot != s.puts[i].slot
    requires Commit(s.pool, s.puts[i].slot, s.puts[i].key).0.n == s.pool.n
    requires Commit(s.pool, s.puts[i].slot, s.puts[i].key).0.pending == s.pool.pending - {s.puts[i].slot}
    ensures
      var s' := Apply(s, CommitSlot(i));
      Shape(s') && HeadersOk(s') && PutsOk(s') && Exclusive(s')
  {
    hide Inv, BindingsOk, GetsOk, Commit;
    var s' := Apply(s, CommitSlot(i));
    assert forall k: nat :: Live(s', k) ==> Live(s, k) && k != i;
    forall k | 0 <= k < |s'.puts|
      ensures PutOk(s', k)
    {
      assert PutOk(s, k);
    }
  }

  lemma CommitSlots(s: Kv, i: nat)
    requires KvInv(s) && Enabled(s, CommitSlot(i))
    requires forall t :: 0 <= t < |s.pool.lru| ==> s.pool.lru[t].0 != s.puts[i].slot
    requires
      var q := Commit(s.pool, s.puts[i].slot, s.puts[i].key).0;
      forall t :: 0 <= t < |q.lru| ==> q.lru[t] == (s.puts[i].slot, s.puts[i].key) || q.lru[t] in s.pool.lru
    requires Shape(Apply(s, CommitSlot(i)))
    ensures
      var s' := Apply(s, CommitSlot(i));
      BindingsOk(s') && GetsOk(s')
  {
    hide Inv, HeadersOk, Exclusive, Commit;
    var s' := Apply(s, CommitSlot(i));
    assert PutOk(s, i);
    forall t | 0 <= t < |s'.pool.lru|
      ensures BindingOk(s', s'.pool.lru[t].0, s'.pool.lru[t].1)
    {
      if s'.pool.lru[t] != (s.puts[i].slot, s.puts[i].key) {
        var u :| 0 <= u < |s.pool.lru| && s.pool.lru[u] == s'.pool.lru[t];
        assert BindingOk(s, s.pool.lru[u].0, s.pool.lru[u].1);
      }
    }
    forall g | 0 <= g < |s'.gets|
      ensures GetOk(s', s'.gets[g])
    {
      assert GetOk(s, s.gets[g]);
    }
  }

  lemma AbortKeeps(s: Kv, i: nat)
    requires KvInv(s) && Enabled(s, Abort(i))
    ensures KvInv(Apply(s, Abort(i)))
  {
    var s' := Apply(s, Abort(i));
    HeldSlotUnlisted(s, i);
    ReleaseInv(s.pool, s.puts[i].slot);
    ReleaseReserved(s.pool, s.puts[i].slot);
    AbortPuts(s, i);
    SameSlots(s, s');
  }

  /** Releasing a reserved slot ends its reservation and lists nothing. */
  lemma ReleaseReserved(p: Pool, x: nat)
    requires Inv(p) && x in p.pending
    ensures
      var q := Release(p, x);
      q.n == p.n && q.pending == p.pending - {x} && q.lru == p.lru
  {
    PendingUnlisted(p, x);
  }

  lemma AbortPuts(s: Kv, i: nat)
    requires KvInv(s) && Enabled(s, Abort(i))
    requires forall k: nat :: i != k && Live(s, k) ==> s.puts[k].slot != s.puts[i].slot
    requires
      var q := Release(s.pool, s.puts[i].slot);
      q.n == s.pool.n && q.pending == s.pool.pending - {s.puts[i].slot}
    ensures
      var s' := Apply(s, Abort(i));
      Shape(s') && PutsOk(s') && Exclusive(s')
  {
    hide Inv, BindingsOk, GetsOk, HeadersOk, Release;
    var s' := Apply(s, Abort(i));
    assert forall k: nat :: Live(s', k) ==> Live(s, k) && k != i;
    forall k | 0 <= k < |s'.puts|
      ensures PutOk(s', k)
    {
      assert PutOk(s, k);
    }
  }

  lemma TouchedSame(p: Pool, key: KeyHash)
    ensures
      var q := Lookup(p, key).0;
      q.n == p.n && q.pending == p.pending && forall t :: 0 <= t < |q.lru| ==> q.lru[t] in p.lru
  {
    if FindKey(p.lru, key).Some? {
      WithoutFacts(p.lru, FindKey(p.lru, key).value);
    }
  }

  /** A lookup only moves its slot in the recency list. */
  lemma LookupPool(s: Kv, key: KeyHash)
    requires KvInv(s)
    ensures KvInv(s.(pool := Lookup(s.pool, key).0))
  {
    hide Inv, HeadersOk, PutsOk, Exclusive, BindingsOk, GetsOk, Lookup;
    var s' := s.(pool := Lookup(s.pool, key).0);
    LookupInv(s.pool, key);
    TouchedSame(s.pool, key);
    LookupPuts(s, s');
    SameSlots(s, s');
  }

  lemma LookupKeeps(s: Kv, key: KeyHash)
    requires KvInv(s)
    ensures KvInv(Apply(s, LookupKey(key)))
  {
    hide Inv, HeadersOk, PutsOk, Exclusive, GetsOk;
    LookupPool(s, key);
    match FindKey(s.pool.lru, key)
    case None =>
    case Some(t) =>
      assert BindingOk(s, s.pool.lru[t].0, s.pool.lru[t].1);
      var r := Get(key, s.pool.lru[t].0, s.binder[s.pool.lru[t].0], false, map[], None);
      GetAdded(s.(pool := Lookup(s.pool, key).0), r);
  }

  lemma LookupPuts(s: Kv, s': Kv)
    requires KvInv(s) && s' == s.(pool := s'.pool) && s'.pool.n == s.pool.n && s'.pool.pending == s.pool.pending
    ensures Shape(s') && PutsOk(s') && Exclusive(s')
  {
    hide Inv, BindingsOk, GetsOk, HeadersOk;
    assert forall k: nat :: Live(s', k) ==> Live(s, k);
    forall k | 0 <= k < |s'.puts|
      ensures PutOk(s', k)
    {
      assert PutOk(s, k);
    }
  }

  /** A new get at a slot that holds its source. */
  lemma GetAdded(s: Kv, r: Get)
    requires KvInv(s) && r.slot < s.pool.n && r.source.Some? && Holds(s, r.slot, r.source.value)
    requires s.puts[r.source.value].key == r.key && r.got == map[] && r.header.None?
    ensures KvInv(s.(gets := s.gets + [r]))
  {
    hide Inv, HeadersOk;
    var s' := s.(gets := s.gets + [r]);
    GetsOnly(s, s');
    forall g | 0 <= g < |s'.gets|
      ensures GetOk(s', s'.gets[g])
    {
      if g < |s.gets| {
        assert GetOk(s, s.gets[g]);
      }
    }
  }

  /** A change to the gets alone leaves the rest of the invariant. */
  lemma GetsOnly(s: Kv, s': Kv)
    requires KvInv(s) && s' == s.(gets := s'.gets) && forall g :: 0 <= g < |s'.gets| ==> s'.gets[g].slot < s.pool.n
    ensures Inv(s'.pool) && Shape(s') && HeadersOk(s') && PutsOk(s') && Exclusive(s') && BindingsOk(s')
  {
    hide Inv, GetsOk;
    assert forall k: nat :: Live(s', k) ==> Live(s, k);
    forall k | 0 <= k < |s'.puts|
      ensures PutOk(s', k)
    {
      assert PutOk(s, k);
    }
    forall t | 0 <= t < |s'.pool.lru|
      ensures BindingOk(s', s'.pool.lru[t].0, s'.pool.lru[t].1)
    {
      assert BindingOk(s, s.pool.lru[t].0, s.pool.lru[t].1);
    }
  }

  lemma ReadByteKeeps(s: Kv, g: nat, j: nat)
    requires KvInv(s) && Enabled(s, ReadByte(g, j))
    ensures KvInv(Apply(s, ReadByte(g, j)))
  {
    hide Inv, HeadersOk, PutsOk, Exclusive, BindingsOk;
    var s' := Apply(s, ReadByte(g, j));
    GetsOnly(s, s');
    forall h | 0 <= h < |s'.gets|
      ensures GetOk(s', s'.gets[h])
    {
      assert GetOk(s, s.gets[h]);
    }
  }

  lemma ReadHeaderKeeps(s: Kv, g: nat)
    requires KvInv(s) && Enabled(s, ReadHeader(g))
    ensures KvInv(Apply(s, ReadHeader(g)))
  {
    hide Inv, HeadersOk, PutsOk, Exclusive, BindingsOk;
    var s' := Apply(s, ReadHeader(g));
    GetsOnly(s, s');
    forall h | 0 <= h < |s'.gets|
      ensures GetOk(s', s'.gets[h])
    {
      assert GetOk(s, s.gets[h]);
    }
  }

  lemma {:induction false} TakenArePending(p: Pool, clocks: seq<nat>, x: nat)
    requires Inv(p) && x in TakeMany(p, clocks).1
    ensures x in TakeMany(p, clocks).0.pending
    decreases |clocks|
  {
    var (q, r) := Take(p, clocks[0]);
    TakeInv(p, clocks[0]);
    if x == r.value {
      TakeManyKeeps(q, clocks[1..], x);
    } else {
      TakenArePending(q, clocks[1..], x);
    }
  }

  /** What a reserve does to reservations and bindings. */
  ghost predicate Reserving(p: Pool, q: Pool, out: seq<nat>, now: nat) {
    && Inv(q) && q.n == p.n && NoDup(out)
    && (forall x :: x in out ==> x in q.pending)
    && (forall x :: x in p.pending && now < p.pending[x] ==> x !in out && x in q.pending && q.pending[x] == p.pending[x])
    && (forall t :: 0 <= t < |q.lru| ==> q.lru[t] in p.lru)
  }

  lemma ReserveDoes(p: Pool, now: nat, clocks: seq<nat>, order: seq<nat>)
    requires Inv(p) && (|p.free| < |clocks| ==> ReclaimOrder(p, now, order))
    ensures
      var (q, out) := Reserve(p, now, clocks, order);
      Reserving(p, q, out, now)
  {
    hide Inv, NoDup, Reclaim, TakeMany;
    var (q, out) := Reserve(p, now, clocks, order);
    var a := AfterReclaim(p, |clocks|, now, order);
    var op := OpReserve(now, clocks, order);
    assert Inv(a) by {
      if |p.free| < |clocks| {
        ReclaimInv(p, now, order);
      }
    }
    ReserveKeepsInv(p, now, clocks, order);
    ReserveLists(p, now, clocks, order);
    forall x | x in out
      ensures x in q.pending
    {
      TakenArePending(a, clocks, x);
    }
    forall x | x in p.pending && now < p.pending[x]
      ensures x !in out && x in q.pending && q.pending[x] == p.pending[x]
    {
      ReservationKept(p, op, x);
    }
  }

  lemma ReserveLists(p: Pool, now: nat, clocks: seq<nat>, order: seq<nat>)
    requires Inv(p) && (|p.free| < |clocks| ==> ReclaimOrder(p, now, order))
    ensures
      var (q, out) := Reserve(p, now, clocks, order);
      q.n == p.n && NoDup(out) && forall t :: 0 <= t < |q.lru| ==> q.lru[t] in p.lru
  {
    hide Inv, TakeMany, Expect, Guaranteed, NoDup;
    TakeManyTakes(AfterReclaim(p, |clocks|, now, order), clocks);
    ReserveGuarantees(p, now, clocks, order);
    var (q, out) := Reserve(p, now, clocks, order);
    GuaranteedLists(p, q, out, |clocks|, now);
  }

  lemma GuaranteedLists(p: Pool, q: Pool, out: seq<nat>, count: nat, now: nat)
    requires Guaranteed(p, q, out, count, now)
    ensures NoDup(out) && forall t :: 0 <= t < |q.lru| ==> q.lru[t] in p.lru
  {
    hide NoDup, Expired;
  }

  lemma ReserveKeeps(s: Kv, clocks: seq<nat>, order: seq<nat>, after: nat, jobs: seq<(KeyHash, Bytes)>)
    requires KvInv(s) && Enabled(s, ReserveSlots(clocks, order, after, jobs))
    ensures KvInv(Apply(s, ReserveSlots(clocks, order, after, jobs)))
  {
    hide Inv, Reserve;
    ReserveDoes(s.pool, s.clock, clocks, order);
    var (q, out) := Grant(s, clocks, order);
    ReservePuts(s, q, out, after, jobs);
    SameSlots(s, Apply(s, ReserveSlots(clocks, order, after, jobs)));
  }

  /** The started puts hold the granted slots, which no live put holds. */
  lemma ReservePuts(s: Kv, q: Pool, out: seq<nat>, after: nat, jobs: seq<(KeyHash, Bytes)>)
    requires KvInv(s) && Reserving(s.pool, q, out, s.clock) && s.clock <= after
    requires |jobs| == |out| && forall i :: 0 <= i < |jobs| ==> |jobs[i].1| <= s.cap
    ensures
      var s' := s.(clock := after, pool := q, puts := s.puts + Started(q.pending, out, jobs));
      Shape(s') && PutsOk(s') && Exclusive(s')
  {
    hide BindingsOk, GetsOk, HeadersOk;
    var s' := s.(clock := after, pool := q, puts := s.puts + Started(q.pending, out, jobs));
    forall k | |s.puts| <= k < |s'.puts|
      ensures s'.puts[k].slot == out[k - |s.puts|] && out[k - |s.puts|] in q.pending
      ensures s'.puts[k].slot < q.n && s'.puts[k].deadline == q.pending[s'.puts[k].slot]
    {
      assert out[k - |s.puts|] in out;
    }
    forall k: nat | k < |s.puts| && Live(s', k)
      ensures Live(s, k) && s'.puts[k].slot !in out
      ensures s'.puts[k].slot in q.pending && q.pending[s'.puts[k].slot] == s'.puts[k].deadline
    {
      assert PutOk(s, k);
    }
    forall k | 0 <= k < |s'.puts|
      ensures PutOk(s', k)
    {
      if k < |s.puts| {
        assert PutOk(s, k);
      }
    }
  }

  lemma StepKeeps(s: Kv, step: Step)
    requires KvInv(s) && Enabled(s, step)
    ensures KvInv(Apply(s, step))
  {
    match step
    case Tick => TickKeeps(s);
    case ReserveSlots(clocks, order, after, jobs) => ReserveKeeps(s, clocks, order, after, jobs);
    case WriteHeader(i) => WriteHeaderKeeps(s, i);
    case WriteByte(i, j) => WriteByteKeeps(s, i, j);
    case CommitSlot(i) => CommitKeeps(s, i);
    case Abort(i) => AbortKeeps(s, i);
    case LookupKey(key) => LookupKeeps(s, key);
    case ReadByte(g, j) => ReadByteKeeps(s, g, j);
    case ReadHeader(g) => ReadHeaderKeeps(s, g);
  }

  // ----- Runs

  ghost predicate Moves(s: Kv, step: Step, s': Kv) {
    Shape(s) && Enabled(s, step) && s' == Apply(s, step)
  }

  ghost predicate Path(states: seq<Kv>, steps: seq<Step>) {
    |states| == |steps| + 1 && forall i :: 0 <= i < |steps| ==> Moves(states[i], steps[i], states[i + 1])
  }

  ghost predicate Run(states: seq<Kv>, steps: seq<Step>) {
    Path(states, steps) && Initial(states[0])
  }

  lemma {:induction false} RunKeeps(states: seq<Kv>, steps: seq<Step>, i: nat)
    requires Run(states, steps) && i < |states|
    ensures KvInv(states[i])
  {
    if i == 0 {
      InitialInv(states[0]);
    } else {
      RunKeeps(states, steps, i - 1);
      assert Moves(states[i - 1], steps[i - 1], states[i]);
      StepKeeps(states[i - 1], steps[i - 1]);
    }
  }

  /** Step m of the run writes the header of a put of the key and slot of get g,
      after the lookup of g. */
  ghost predicate OvertakesAt(states: seq<Kv>, steps: seq<Step>, g: nat, m: nat)
    requires |states| == |steps| + 1 && m < |steps|
  {
    && steps[m].WriteHeader? && steps[m].put < |states[m].puts|
    && g < |states[m].gets|
    && states[m].puts[steps[m].put].slot == states[m].gets[g].slot
    && states[m].puts[steps[m].put].key == states[m].gets[g].key
  }

  lemma OvertakenByStep(s: Kv, step: Step, g: nat)
    requires Shape(s) && Enabled(s, step) && g < |Apply(s, step).gets| && Apply(s, step).gets[g].overtaken
    ensures g < |s.gets|
    ensures s.gets[g].overtaken
         || (step.WriteHeader? && s.puts[step.put].slot == s.gets[g].slot && s.puts[step.put].key == s.gets[g].key)
  {
  }

  /** A get is overtaken only by such a step. */
  lemma {:induction false} OvertakenMeans(states: seq<Kv>, steps: seq<Step>, g: nat, i: nat) returns (m: nat)
    requires Run(states, steps) && i < |states| && g < |states[i].gets| && states[i].gets[g].overtaken
    ensures m < i && OvertakesAt(states, steps, g, m)
  {
    OvertakenByStep(states[i - 1], steps[i - 1], g);
    if states[i - 1].gets[g].overtaken {
      m := OvertakenMeans(states, steps, g, i - 1);
    } else {
      m := i - 1;
    }
  }

  /** Read validation, over every run: if the header a get read is its key, and no
      put of that key has written its header into the slot since the lookup, then
      every byte it read within the length of the put that had committed the key
      is that put's byte, whatever was evicted, reserved and written meanwhile. */
  lemma ReadValidation(states: seq<Kv>, steps: seq<Step>, g: nat)
    requires Run(states, steps) && g < |states[|steps|].gets|
    requires forall m :: 0 <= m < |steps| ==> !OvertakesAt(states, steps, g, m)
    requires states[|steps|].gets[g].header == Some(states[|steps|].gets[g].key)
    ensures
      var s := states[|steps|];
      var r := s.gets[g];
      && r.source.Some? && r.source.value < |s.puts|
      && var p := s.puts[r.source.value];
      && p.phase.Committed? && p.key == r.key && p.slot == r.slot
      && forall j :: j in r.got && j < |p.payload| ==> r.got[j] == p.payload[j]
  {
    var s := states[|steps|];
    RunKeeps(states, steps, |steps|);
    if s.gets[g].overtaken {
      var m := OvertakenMeans(states, steps, g, |steps|);
      assert false;
    }
    assert GetOk(s, s.gets[g]);
  }

  /** The check is exact: for a get that has not been overtaken, the header will
      be found to be its key iff the slot still holds its source. */
  lemma CheckIsExact(states: seq<Kv>, steps: seq<Step>, g: nat)
    requires Run(states, steps) && g < |states[|steps|].gets|
    requires forall m :: 0 <= m < |steps| ==> !OvertakesAt(states, steps, g, m)
    requires states[|steps|].gets[g].header.None?
    ensures
      var s := states[|steps|];
      var r := s.gets[g];
      && Shape(s)
      && (s.header[r.slot] == r.key <==> s.wrote[r.slot] == r.source)
  {
    var s := states[|steps|];
    RunKeeps(states, steps, |steps|);
    if s.gets[g].overtaken {
      var m := OvertakenMeans(states, steps, g, |steps|);
      assert false;
    }
    assert GetOk(s, s.gets[g]);
  }

  // ----- The exclusion is needed

  /** One slot of two payload bytes; time stands still. */
  function OneSlot(pool: Pool, h: KeyHash, b: Bytes, wrote: Option<nat>, binder: Option<nat>, puts: seq<Put>, gets: seq<Get>): Kv {
    Kv(0, 2, pool, [h], [b], [wrote], [binder], puts, gets)
  }

  function EmptyPool(): Pool { Pool(1, 1, [0], map[], []) }
  function ReservedPool(): Pool { Pool(1, 1, [], map[0 := 1], []) }
  function BoundPool(k: KeyHash): Pool { Pool(1, 1, [], map[], [(0, k)]) }
  function PutOf(k: KeyHash, b: byte, written: set<nat>, phase: Phase): Put { Put(0, 1, k, [b, b], written, phase) }

  lemma Extended(states: seq<Kv>, steps: seq<Step>, step: Step, s: Kv)
    requires Path(states, steps) && Moves(states[|steps|], step, s)
    ensures Path(states + [s], steps + [step])
  {
    hide Moves;
  }

  /** A put writes the only slot, byte after byte. */
  lemma PutWrites(k: KeyHash, h: KeyHash)
    ensures
      var before := OneSlot(ReservedPool(), h, [0, 0], None, None, [PutOf(k, 1, {}, Reserved)], []);
      Moves(before, WriteHeader(0), OneSlot(ReservedPool(), k, [0, 0], Some(0), None, [PutOf(k, 1, {}, Writing)], []))
  {
  }

  lemma PutWritesByte(k: KeyHash, b: Bytes, b': Bytes, j: nat, written: set<nat>)
    requires |b| == 2 && j < 2 && b' == b[j := 1]
    ensures Moves(OneSlot(ReservedPool(), k, b, Some(0), None, [PutOf(k, 1, written, Writing)], []), WriteByte(0, j),
                  OneSlot(ReservedPool(), k, b', Some(0), None, [PutOf(k, 1, written + {j}, Writing)], []))
  {
  }

  lemma PutCommits(k: KeyHash)
    ensures Moves(OneSlot(ReservedPool(), k, [1, 1], Some(0), None, [PutOf(k, 1, {0, 1}, Writing)], []), CommitSlot(0),
                  OneSlot(BoundPool(k), k, [1, 1], Some(0), Some(0), [PutOf(k, 1, {0, 1}, Committed)], []))
  {
  }

  lemma PutReserves(k: KeyHash, h: KeyHash)
    ensures
      var before := OneSlot(EmptyPool(), h, [0, 0], None, None, [], []);
      && Initial(before)
      && Moves(before, ReserveSlots([0], [], 0, [(k, [1, 1])]),
               OneSlot(ReservedPool(), h, [0, 0], None, None, [PutOf(k, 1, {}, Reserved)], []))
  {
    assert Upto(1) == [0];
    TakesOneFree();
  }

  lemma FirstPut(k: KeyHash, h: KeyHash) returns (states: seq<Kv>, steps: seq<Step>)
    ensures Path(states, steps) && Initial(states[0])
    ensures states[|steps|] == OneSlot(BoundPool(k), k, [1, 1], Some(0), Some(0), [PutOf(k, 1, {0, 1}, Committed)], [])
  {
    hide Moves, Initial, OneSlot, BoundPool, ReservedPool, PutOf;
    var s1 := OneSlot(ReservedPool(), h, [0, 0], None, None, [PutOf(k, 1, {}, Reserved)], []);
    var s2 := OneSlot(ReservedPool(), k, [0, 0], Some(0), None, [PutOf(k, 1, {}, Writing)], []);
    var s3 := OneSlot(ReservedPool(), k, [1, 0], Some(0), None, [PutOf(k, 1, {0}, Writing)], []);
    var s4 := OneSlot(ReservedPool(), k, [1, 1], Some(0), None, [PutOf(k, 1, {0, 1}, Writing)], []);
    var s5 := OneSlot(BoundPool(k), k, [1, 1], Some(0), Some(0), [PutOf(k, 1, {0, 1}, Committed)], []);
    states, steps := [OneSlot(EmptyPool(), h, [0, 0], None, None, [], [])], [];
    PutReserves(k, h);
    Extended(states, steps, ReserveSlots([0], [], 0, [(k, [1, 1])]), s1);
    states, steps := states + [s1], steps + [ReserveSlots([0], [], 0, [(k, [1, 1])])];
    PutWrites(k, h);
    Extended(states, steps, WriteHeader(0), s2);
    states, steps := states + [s2], steps + [WriteHeader(0)];
    PutWritesByte(k, [0, 0], [1, 0], 0, {});
    assert {} + {0 as nat} == {0};
    Extended(states, steps, WriteByte(0, 0), s3);
    states, steps := states + [s3], steps + [WriteByte(0, 0)];
    PutWritesByte(k, [1, 0], [1, 1], 1, {0});
    assert {0 as nat} + {1} == {0, 1};
    Extended(states, steps, WriteByte(0, 1), s4);
    states, steps := states + [s4], steps + [WriteByte(0, 1)];
    PutCommits(k);
    Extended(states, steps, CommitSlot(0), s5);
    states, steps := states + [s5], steps + [CommitSlot(0)];
  }

  lemma TakesOneFree()
    ensures Reserve(EmptyPool(), 0, [0], []) == (ReservedPool(), [0])
  {
    TakesOne(EmptyPool());
  }

  /** One round from either pool leaves its only slot reserved. */
  lemma TakesOne(p: Pool)
    requires p == EmptyPool() || exists k :: p == BoundPool(k)
    ensures TakeMany(p, [0]) == (ReservedPool(), [0])
  {
    var m: map<nat, nat> := map[];
    assert m[0 := 1] == map[0 := 1];
    assert [0 as nat][1..] == [];
    assert p.lru != [] ==> p.lru[1..] == [];
    assert Take(p, 0) == (ReservedPool(), Some(0));
    assert TakeMany(ReservedPool(), [0 as nat][1..]) == (ReservedPool(), []);
    assert [0 as nat] + [] == [0];
  }

  lemma EvictsOne(k: KeyHash)
    ensures ReclaimOrder(BoundPool(k), 0, [])
    ensures Reserve(BoundPool(k), 0, [0], []) == (ReservedPool(), [0])
  {
    assert Elems([]) == Expired(BoundPool(k), 0);
    assert Reclaim(BoundPool(k), 0, []) == BoundPool(k);
    TakesOne(BoundPool(k));
  }

  function GetOf(k: KeyHash, overtaken: bool, got: map<nat, byte>, header: Option<KeyHash>): Get {
    Get(k, 0, Some(0), overtaken, got, header)
  }

  lemma Joined(states: seq<Kv>, steps: seq<Step>, states': seq<Kv>, steps': seq<Step>)
    requires Path(states, steps) && Path(states', steps') && states[|steps|] == states'[0]
    ensures Path(states + states'[1..], steps + steps')
    ensures (states + states'[1..])[0] == states[0]
    ensures (states + states'[1..])[|steps + steps'|] == states'[|steps'|]
  {
    var joined, all := states + states'[1..], steps + steps';
    forall i | 0 <= i < |all|
      ensures Moves(joined[i], all[i], joined[i + 1])
    {
      if i < |steps| {
        assert Moves(states[i], steps[i], states[i + 1]);
      } else {
        var j := i - |steps|;
        assert Moves(states'[j], steps'[j], states'[j + 1]);
      }
    }
  }

  lemma GetLooksUp(k: KeyHash)
    ensures
      var a := PutOf(k, 1, {0, 1}, Committed);
      Moves(OneSlot(BoundPool(k), k, [1, 1], Some(0), Some(0), [a], []), LookupKey(k),
            OneSlot(BoundPool(k), k, [1, 1], Some(0), Some(0), [a], [GetOf(k, false, map[], None)]))
  {
    assert Touch([(0 as nat, k)], 0) == [(0, k)];
  }

  lemma NextPutEvicts(k: KeyHash)
    ensures
      var a, g := PutOf(k, 1, {0, 1}, Committed), GetOf(k, false, map[], None);
      Moves(OneSlot(BoundPool(k), k, [1, 1], Some(0), Some(0), [a], [g]), ReserveSlots([0], [], 0, [(k, [2, 2])]),
            OneSlot(ReservedPool(), k, [1, 1], Some(0), Some(0), [a, PutOf(k, 2, {}, Reserved)], [g]))
  {
    hide Reserve, ReclaimOrder;
    EvictsOne(k);
  }

  lemma NextPutOvertakes(k: KeyHash)
    ensures
      var a := PutOf(k, 1, {0, 1}, Committed);
      Moves(OneSlot(ReservedPool(), k, [1, 1], Some(0), Some(0), [a, PutOf(k, 2, {}, Reserved)], [GetOf(k, false, map[], None)]),
            WriteHeader(1),
            OneSlot(ReservedPool(), k, [1, 1], Some(1), Some(0), [a, PutOf(k, 2, {}, Writing)], [GetOf(k, true, map[], None)]))
  {
  }

  lemma NextPutWrites(k: KeyHash)
    ensures
      var a, g := PutOf(k, 1, {0, 1}, Committed), GetOf(k, true, map[], None);
      Moves(OneSlot(ReservedPool(), k, [1, 1], Some(1), Some(0), [a, PutOf(k, 2, {}, Writing)], [g]), WriteByte(1, 0),
            OneSlot(ReservedPool(), k, [2, 1], Some(1), Some(0), [a, PutOf(k, 2, {0}, Writing)], [g]))
  {
    assert [1 as byte, 1][0 := 2] == [2, 1];
    assert {} + {0 as nat} == {0};
  }

  lemma SecondPut(k: KeyHash) returns (states: seq<Kv>, steps: seq<Step>)
    ensures Path(states, steps)
    ensures states[0] == OneSlot(BoundPool(k), k, [1, 1], Some(0), Some(0), [PutOf(k, 1, {0, 1}, Committed)], [])
    ensures states[|steps|]
         == OneSlot(ReservedPool(), k, [2, 1], Some(1), Some(0),
                    [PutOf(k, 1, {0, 1}, Committed), PutOf(k, 2, {0}, Writing)], [GetOf(k, true, map[], None)])
  {
    hide Moves, OneSlot, BoundPool, ReservedPool, PutOf, GetOf;
    var a, g, g' := PutOf(k, 1, {0, 1}, Committed), GetOf(k, false, map[], None), GetOf(k, true, map[], None);
    var s1 := OneSlot(BoundPool(k), k, [1, 1], Some(0), Some(0), [a], [g]);
    var s2 := OneSlot(ReservedPool(), k, [1, 1], Some(0), Some(0), [a, PutOf(k, 2, {}, Reserved)], [g]);
    var s3 := OneSlot(ReservedPool(), k, [1, 1], Some(1), Some(0), [a, PutOf(k, 2, {}, Writing)], [g']);
    var s4 := OneSlot(ReservedPool(), k, [2, 1], Some(1), Some(0), [a, PutOf(k, 2, {0}, Writing)], [g']);
    states, steps := [OneSlot(BoundPool(k), k, [1, 1], Some(0), Some(0), [a], [])], [];
    GetLooksUp(k);
    Extended(states, steps, LookupKey(k), s1);
    states, steps := states + [s1], steps + [LookupKey(k)];
    NextPutEvicts(k);
    Extended(states, steps, ReserveSlots([0], [], 0, [(k, [2, 2])]), s2);
    states, steps := states + [s2], steps + [ReserveSlots([0], [], 0, [(k, [2, 2])])];
    NextPutOvertakes(k);
    Extended(states, steps, WriteHeader(1), s3);
    states, steps := states + [s3], steps + [WriteHeader(1)];
    NextPutWrites(k);
    Extended(states, steps, WriteByte(1, 0), s4);
    states, steps := states + [s4], steps + [WriteByte(1, 0)];
  }

  lemma ReadBoth(k: KeyHash, s: Kv) returns (states: seq<Kv>, steps: seq<Step>)
    requires Shape(s) && s.cap == 2 && s.pool.n == 1 && s.bytes[0] == [2, 1] && s.header[0] == k
    requires s.gets == [GetOf(k, true, map[], None)]
    ensures Path(states, steps) && states[0] == s
    ensures states[|steps|] == s.(gets := [GetOf(k, true, map[0 := 2, 1 := 1], Some(k))])
  {
    var s1 := s.(gets := [GetOf(k, true, map[0 := 2], None)]);
    var s2 := s.(gets := [GetOf(k, true, map[0 := 2, 1 := 1], None)]);
    var s3 := s.(gets := [GetOf(k, true, map[0 := 2, 1 := 1], Some(k))]);
    assert Moves(s, ReadByte(0, 0), s1);
    assert Moves(s1, ReadByte(0, 1), s2);
    assert Moves(s2, ReadHeader(0), s3);
    states := [s, s1, s2, s3];
    steps := [ReadByte(0, 0), ReadByte(0, 1), ReadHeader(0)];
  }

  /** Without the exclusion the check can pass on bytes that no put wrote
      together: a put of 1, 1 is committed, looked up and evicted by a put of 2, 2
      under the same key, and the get returns 2, 1. */
  lemma OvertakenGetMixes(k: KeyHash, h: KeyHash) returns (states: seq<Kv>, steps: seq<Step>)
    ensures Run(states, steps)
    ensures
      var s := states[|steps|];
      && |s.gets| == 1 && s.gets[0].header == Some(s.gets[0].key)
      && s.gets[0].got == map[0 := 2, 1 := 1]
      && forall i :: 0 <= i < |s.puts| ==> !Matches(s.gets[0].got, s.puts[i].payload)
  {
    hide Moves;
    var states1, steps1 := FirstPut(k, h);
    var states2, steps2 := SecondPut(k);
    Joined(states1, steps1, states2, steps2);
    states, steps := states1 + states2[1..], steps1 + steps2;
    var states3, steps3 := ReadBoth(k, states[|steps|]);
    Joined(states, steps, states3, steps3);
    states, steps := states + states3[1..], steps + steps3;
    var got: map<nat, byte> := map[0 := 2, 1 := 1];
    assert 0 in got && 1 in got;
  }
}
