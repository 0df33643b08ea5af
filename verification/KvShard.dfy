/** How a client spreads a batch of keys over the nodes by hash and puts the
    nodes' answers back in the order of the batch
    (crates/openlake_kv_client/src/client.rs:49-112). */
module KvShard {
  import opened Bytes

  type Strip = (nat, nat)

  type Hash = Bytes -> nat

  /** What becomes of one node's request: it is not taken, its thread dies, or it is answered. */
  datatype Outcome = Refused(reason: string) | Died | Answered(reply: Result<seq<int>, string>)

  type Op = (nat, seq<Bytes>, seq<seq<Strip>>) -> Outcome

  datatype ShardError = NoNodes | OpRefused(reason: string) | ThreadDied | WrongCount(node: nat) | OpFailed(reason: string)

  predicate Increasing(s: seq<nat>) {
    forall i, j :: 0 <= i < j < |s| ==> s[i] < s[j]
  }

  predicate Below(s: seq<nat>, n: nat) {
    forall j :: 0 <= j < |s| ==> s[j] < n
  }

  function NodeOf(key: Bytes, n: nat, hash: Hash): (g: nat)
    requires n > 0
    ensures g < n
  {
    hash(key) % n
  }

  /** The indices of the keys that hash to node g of n, in order. */
  function Group(keys: seq<Bytes>, n: nat, hash: Hash, g: nat): (r: seq<nat>)
    requires n > 0
    ensures Below(r, |keys|) && Increasing(r)
  {
    if keys == [] then []
    else
      var last := |keys| - 1;
      Group(keys[..last], n, hash, g) + (if NodeOf(keys[last], n, hash) == g then [last] else [])
  }

  /** The groups partition the batch: index i is in the group its key's hash names, in no other. */
  lemma GroupMembers(keys: seq<Bytes>, n: nat, hash: Hash, g: nat, i: nat)
    requires n > 0
    ensures i in Group(keys, n, hash, g) <==> i < |keys| && hash(keys[i]) % n == g
  {
    GroupNodes(keys, n, hash, g, i);
  }

  lemma {:induction false} GroupNodes(keys: seq<Bytes>, n: nat, hash: Hash, g: nat, i: nat)
    requires n > 0
    ensures i in Group(keys, n, hash, g) <==> i < |keys| && NodeOf(keys[i], n, hash) == g
  {
    hide NodeOf;
    if keys != [] {
      GroupNodes(keys[..|keys| - 1], n, hash, g, i);
    }
  }

  method Owners(nodes: seq<nat>, keys: seq<Bytes>, hash: Hash) returns (r: Result<seq<seq<nat>>, ShardError>)
    ensures r.Err? <==> nodes == []
    ensures r.Err? ==> r.error == NoNodes
    ensures r.Ok? ==> |r.value| == |nodes| && forall g :: 0 <= g < |nodes| ==> r.value[g] == Group(keys, |nodes|, hash, g)
    ensures r.Ok? ==> forall g, i: nat :: 0 <= g < |nodes| ==> (i in r.value[g] <==> i < |keys| && hash(keys[i]) % |nodes| == g)
  {
    if nodes == [] {
      return Err(NoNodes);
    }
    var groups: seq<seq<nat>> := seq(|nodes|, _ => []);
    for i := 0 to |keys|
      invariant |groups| == |nodes|
      invariant forall g :: 0 <= g < |nodes| ==> groups[g] == Group(keys[..i], |nodes|, hash, g)
    {
      assert keys[..i + 1][..i] == keys[..i];
      var g := NodeOf(keys[i], |nodes|, hash);
      groups := groups[g := groups[g] + [i]];
    }
    assert keys[..|keys|] == keys;
    forall g, i: nat | 0 <= g < |nodes|
      ensures i in groups[g] <==> i < |keys| && hash(keys[i]) % |nodes| == g
    {
      GroupMembers(keys, |nodes|, hash, g, i);
    }
    return Ok(groups);
  }

  function Pick<T>(s: seq<T>, idxs: seq<nat>): (r: seq<T>)
    requires Below(idxs, |s|)
    ensures |r| == |idxs| && forall j :: 0 <= j < |r| ==> r[j] == s[idxs[j]]
  {
    seq(|idxs|, j requires 0 <= j < |idxs| => s[idxs[j]])
  }

  /** The outcome of the request made for node g. */
  function Ask(nodes: seq<nat>, keys: seq<Bytes>, scatters: Option<seq<seq<Strip>>>, hash: Hash, op: Op, g: nat): Outcome
    requires g < |nodes| && (scatters.Some? ==> |scatters.value| == |keys|)
  {
    var idxs := Group(keys, |nodes|, hash, g);
    op(nodes[g], Pick(keys, idxs), if scatters.Some? then Pick(scatters.value, idxs) else [])
  }

  /** A node's request was answered with one result per key. */
  predicate Fits(o: Outcome, count: nat) {
    o.Answered? && o.reply.Ok? && |o.reply.value| == count
  }

  /** Answers go to the indices their keys came from. */
  ghost predicate Scattered(out: seq<int>, idxs: seq<nat>, o: Outcome) {
    && Below(idxs, |out|) && Fits(o, |idxs|)
    && forall j :: 0 <= j < |idxs| ==> out[idxs[j]] == o.reply.value[j]
  }

  method ScatterInto(out: seq<int>, idxs: seq<nat>, results: seq<int>) returns (r: seq<int>)
    requires Below(idxs, |out|) && Increasing(idxs) && |results| == |idxs|
    ensures |r| == |out|
    ensures forall j :: 0 <= j < |idxs| ==> r[idxs[j]] == results[j]
    ensures forall i :: 0 <= i < |out| && i !in idxs ==> r[i] == out[i]
  {
    r := out;
    for m := 0 to |idxs|
      invariant |r| == |out|
      invariant forall j :: 0 <= j < m ==> r[idxs[j]] == results[j]
      invariant forall i :: 0 <= i < |out| && i !in idxs ==> r[i] == out[i]
    {
      r := r[idxs[m] := results[m]];
    }
  }

  datatype Batch = Batch(nodes: seq<nat>, keys: seq<Bytes>, scatters: Option<seq<seq<Strip>>>, hash: Hash, op: Op) {
    predicate Valid() {
      nodes != [] && (scatters.Some? ==> |scatters.value| == |keys|)
    }

    function Idxs(g: nat): seq<nat>
      requires Valid()
    {
      Group(keys, |nodes|, hash, g)
    }

    function Reply(g: nat): Outcome
      requires Valid() && g < |nodes|
    {
      Ask(nodes, keys, scatters, hash, op, g)
    }

    /** Node g is asked something. */
    predicate Busy(g: nat)
      requires Valid()
    {
      g < |nodes| && Idxs(g) != []
    }

    predicate Good(g: nat)
      requires Valid() && g < |nodes|
    {
      Fits(Reply(g), |Idxs(g)|)
    }

    /** The error that node g's answer gives rise to. */
    ghost predicate Blamed(g: nat, e: ShardError)
      requires Valid() && g < |nodes|
    {
      match Reply(g)
      case Refused(reason) => e == OpRefused(reason)
      case Died => e == ThreadDied
      case Answered(Err(reason)) => e == OpFailed(reason)
      case Answered(Ok(results)) => |results| != |Idxs(g)| && e == WrongCount(nodes[g])
    }
  }

  /** Node g decides the error: the first refusal, else the first dead thread,
      else the first answer that is an error or has the wrong length. */
  ghost predicate Culprit(b: Batch, g: nat)
    requires b.Valid()
  {
    && b.Busy(g) && !b.Good(g)
    && (forall h :: 0 <= h < g && b.Busy(h) ==> !b.Reply(h).Refused?)
    && (b.Reply(g).Refused? || forall h: nat :: b.Busy(h) ==> !b.Reply(h).Refused?)
    && (b.Reply(g).Died? ==> forall h :: 0 <= h < g && b.Busy(h) ==> !b.Reply(h).Died?)
    && (b.Reply(g).Answered? ==> forall h: nat :: b.Busy(h) ==> b.Reply(h).Answered? && (h < g ==> b.Good(h)))
  }

  /** All requests made, lowest node first. */
  ghost predicate Sent(b: Batch, pending: seq<(nat, Outcome)>, upto: nat)
    requires b.Valid()
  {
    && upto <= |b.nodes|
    && (forall e :: e in pending ==> e.0 < upto && b.Busy(e.0) && e.1 == b.Reply(e.0) && !e.1.Refused?)
    && (forall g :: 0 <= g < upto && b.Busy(g) ==> (g, b.Reply(g)) in pending)
    && (forall m, m' :: 0 <= m < m' < |pending| ==> pending[m].0 < pending[m'].0)
  }

  /** Sends every node its keys, stopping at the first that refuses. */
  method Send(b: Batch, groups: seq<seq<nat>>) returns (r: Result<seq<(nat, Outcome)>, ShardError>)
    requires b.Valid() && |groups| == |b.nodes| && forall g :: 0 <= g < |groups| ==> groups[g] == b.Idxs(g)
    ensures r.Ok? ==> Sent(b, r.value, |b.nodes|)
    ensures r.Err? ==> exists g: nat :: Culprit(b, g) && b.Blamed(g, r.error)
  {
    hide Culprit;
    var pending: seq<(nat, Outcome)> := [];
    for g := 0 to |groups|
      invariant Sent(b, pending, g)
    {
      hide Sent, Group;
      ghost var before := pending;
      if groups[g] != [] {
        var scatters := if b.scatters.Some? then Pick(b.scatters.value, groups[g]) else [];
        var outcome := b.op(b.nodes[g], Pick(b.keys, groups[g]), scatters);
        assert outcome == b.Reply(g);
        if outcome.Refused? {
          RefusedCulprit(b, pending, g);
          return Err(OpRefused(outcome.reason));
        }
        pending := pending + [(g, outcome)];
      }
      SentNext(b, before, pending, g);
    }
    return Ok(pending);
  }

  lemma RefusedCulprit(b: Batch, pending: seq<(nat, Outcome)>, g: nat)
    requires b.Valid() && Sent(b, pending, g) && b.Busy(g) && b.Reply(g).Refused?
    ensures Culprit(b, g)
  {
  }

  lemma SentNext(b: Batch, before: seq<(nat, Outcome)>, after: seq<(nat, Outcome)>, g: nat)
    requires b.Valid() && g < |b.nodes| && Sent(b, before, g)
    requires b.Busy(g) ==> after == before + [(g, b.Reply(g))] && !b.Reply(g).Refused?
    requires !b.Busy(g) ==> after == before
    ensures Sent(b, after, g + 1)
  {
    hide Ask, Group, NodeOf, Pick;
    forall h | 0 <= h < g + 1 && b.Busy(h)
      ensures (h, b.Reply(h)) in after
    {
      if h < g {
        assert (h, b.Reply(h)) in before;
      } else {
        assert after[|before|] == (h, b.Reply(h));
      }
    }
    forall m, m' | 0 <= m < m' < |after|
      ensures after[m].0 < after[m'].0
    {
      if m' == |before| {
        assert before[m] in before;
      }
    }
  }

  lemma Disjoint(b: Batch, g: nat, g': nat)
    requires b.Valid() && g != g'
    ensures forall i :: i in b.Idxs(g) ==> i !in b.Idxs(g')
  {
    forall i | i in b.Idxs(g)
      ensures i !in b.Idxs(g')
    {
      GroupNodes(b.keys, |b.nodes|, b.hash, g, i);
      GroupNodes(b.keys, |b.nodes|, b.hash, g', i);
    }
  }

  /** The results so far: every answer that fits is in place, and the first that
      does not fit is remembered. */
  ghost predicate Gathered(b: Batch, done: seq<(nat, Outcome)>, out: seq<int>, firstErr: Option<ShardError>)
    requires b.Valid()
  {
    && |out| == |b.keys|
    && (forall e :: e in done ==> e.0 < |b.nodes| && e.1 == b.Reply(e.0) && e.1.Answered?)
    && (firstErr.None? ==> forall e :: e in done ==> Scattered(out, b.Idxs(e.0), e.1))
    && (firstErr.Some? ==> exists e :: e in done && !b.Good(e.0) && b.Blamed(e.0, firstErr.value)
                             && forall e' :: e' in done && e'.0 < e.0 ==> b.Good(e'.0))
  }

  /** Putting one more node's answer in place leaves the others' where they are. */
  lemma GatherOne(b: Batch, done: seq<(nat, Outcome)>, e: (nat, Outcome), out: seq<int>, out': seq<int>)
    requires b.Valid() && Gathered(b, done, out, None) && e.0 < |b.nodes| && e.1 == b.Reply(e.0) && b.Good(e.0)
    requires forall d :: d in done ==> d.0 != e.0
    requires |out'| == |out| && Scattered(out', b.Idxs(e.0), e.1)
    requires forall i :: 0 <= i < |out| && i !in b.Idxs(e.0) ==> out'[i] == out[i]
    ensures Gathered(b, done + [e], out', None)
  {
    forall d | d in done
      ensures Scattered(out', b.Idxs(d.0), d.1)
    {
      Disjoint(b, d.0, e.0);
      var idxs := b.Idxs(d.0);
      assert forall j :: 0 <= j < |idxs| ==> idxs[j] in idxs;
    }
  }

  lemma SentCovers(b: Batch, pending: seq<(nat, Outcome)>)
    requires b.Valid() && Sent(b, pending, |b.nodes|)
    ensures forall h: nat :: b.Busy(h) ==> (h, b.Reply(h)) in pending && !b.Reply(h).Refused?
  {
  }

  lemma EarlierDone(b: Batch, pending: seq<(nat, Outcome)>, m: nat)
    requires b.Valid() && Sent(b, pending, |b.nodes|) && m < |pending|
    ensures forall h :: 0 <= h < pending[m].0 && b.Busy(h) ==> (h, b.Reply(h)) in pending[..m]
  {
    forall h | 0 <= h < pending[m].0 && b.Busy(h)
      ensures (h, b.Reply(h)) in pending[..m]
    {
      var t :| 0 <= t < |pending| && pending[t] == (h, b.Reply(h));
      assert t < m;
    }
  }

  lemma DeadCulprit(b: Batch, pending: seq<(nat, Outcome)>, m: nat, out: seq<int>, firstErr: Option<ShardError>)
    requires b.Valid() && Sent(b, pending, |b.nodes|) && m < |pending| && pending[m].1.Died?
    requires Gathered(b, pending[..m], out, firstErr)
    ensures Culprit(b, pending[m].0) && b.Blamed(pending[m].0, ThreadDied)
  {
    assert pending[m] in pending;
    SentCovers(b, pending);
    EarlierDone(b, pending, m);
  }

  lemma FaultCulprit(b: Batch, pending: seq<(nat, Outcome)>, out: seq<int>, error: ShardError)
    requires b.Valid() && Sent(b, pending, |b.nodes|) && Gathered(b, pending, out, Some(error))
    ensures exists g: nat :: Culprit(b, g) && b.Blamed(g, error)
  {
    SentCovers(b, pending);
    var e :| e in pending && !b.Good(e.0) && b.Blamed(e.0, error)
          && forall e' :: e' in pending && e'.0 < e.0 ==> b.Good(e'.0);
    assert Culprit(b, e.0);
  }

  /** A bad answer is remembered if it is the first. */
  lemma RememberBad(b: Batch, done: seq<(nat, Outcome)>, e: (nat, Outcome), out: seq<int>, firstErr: Option<ShardError>, error: ShardError)
    requires b.Valid() && Gathered(b, done, out, firstErr) && e.0 < |b.nodes| && e.1 == b.Reply(e.0) && e.1.Answered?
    requires !b.Good(e.0) && b.Blamed(e.0, error) && forall d :: d in done ==> d.0 < e.0
    ensures Gathered(b, done + [e], out, if firstErr.None? then Some(error) else firstErr)
  {
    if firstErr.None? {
      assert e in done + [e];
    } else {
      KeepBad(b, done, e, out, out, firstErr.value);
    }
  }

  /** Once an error is remembered the results no longer matter. */
  lemma KeepBad(b: Batch, done: seq<(nat, Outcome)>, e: (nat, Outcome), out: seq<int>, out': seq<int>, error: ShardError)
    requires b.Valid() && Gathered(b, done, out, Some(error)) && e.0 < |b.nodes| && e.1 == b.Reply(e.0) && e.1.Answered?
    requires |out'| == |out| && forall d :: d in done ==> d.0 < e.0
    ensures Gathered(b, done + [e], out', Some(error))
  {
    var d :| d in done && !b.Good(d.0) && b.Blamed(d.0, error)
          && forall e' :: e' in done && e'.0 < d.0 ==> b.Good(e'.0);
    assert d in done + [e];
  }

  /** Takes in the answer of one node. */
  method GatherAnswer(b: Batch, ghost done: seq<(nat, Outcome)>, e: (nat, Outcome), out: seq<int>, firstErr: Option<ShardError>)
    returns (out': seq<int>, firstErr': Option<ShardError>)
    requires b.Valid() && Gathered(b, done, out, firstErr) && e.0 < |b.nodes| && e.1 == b.Reply(e.0) && e.1.Answered?
    requires forall d :: d in done ==> d.0 < e.0
    ensures Gathered(b, done + [e], out', firstErr')
  {
    hide Gathered;
    assert |out| == |b.keys| by {
      GatheredLength(b, done, out, firstErr);
    }
    var idxs := Group(b.keys, |b.nodes|, b.hash, e.0);
    out', firstErr' := out, firstErr;
    match e.1.reply {
      case Err(reason) =>
        firstErr' := if firstErr.None? then Some(OpFailed(reason)) else firstErr;
        RememberBad(b, done, e, out, firstErr, OpFailed(reason));
      case Ok(results) =>
        if |results| == |idxs| {
          out' := ScatterInto(out, idxs, results);
          if firstErr.None? {
            GatherOne(b, done, e, out, out');
          } else {
            KeepBad(b, done, e, out, out', firstErr.value);
          }
        } else {
          firstErr' := if firstErr.None? then Some(WrongCount(b.nodes[e.0])) else firstErr;
          RememberBad(b, done, e, out, firstErr, WrongCount(b.nodes[e.0]));
        }
    }
  }

  lemma GatheredLength(b: Batch, done: seq<(nat, Outcome)>, out: seq<int>, firstErr: Option<ShardError>)
    requires b.Valid() && Gathered(b, done, out, firstErr)
    ensures |out| == |b.keys|
  {
  }

  /** Waits for every answer; a dead client thread ends the wait. */
  method Gather(b: Batch, pending: seq<(nat, Outcome)>) returns (r: Result<seq<int>, ShardError>)
    requires b.Valid() && Sent(b, pending, |b.nodes|)
    ensures r.Ok? ==> Gathered(b, pending, r.value, None)
    ensures r.Err? ==> exists g: nat :: Culprit(b, g) && b.Blamed(g, r.error)
  {
    hide Culprit;
    var out := seq(|b.keys|, _ => 0);
    var firstErr: Option<ShardError> := None;
    for m := 0 to |pending|
      invariant Gathered(b, pending[..m], out, firstErr)
    {
      hide Gathered;
      assert pending[m] in pending && pending[..m + 1] == pending[..m] + [pending[m]];
      assert forall d :: d in pending[..m] ==> d.0 < pending[m].0;
      if pending[m].1.Died? {
        DeadCulprit(b, pending, m, out, firstErr);
        return Err(ThreadDied);
      }
      out, firstErr := GatherAnswer(b, pending[..m], pending[m], out, firstErr);
    }
    assert pending[..|pending|] == pending;
    if firstErr.Some? {
      FaultCulprit(b, pending, out, firstErr.value);
      return Err(firstErr.value);
    }
    return Ok(out);
  }

  /** Every result is at the index of its key: index i of a group holds what the
      key's node answered for it. */
  method Sharded(b: Batch) returns (r: Result<seq<int>, ShardError>)
    requires b.scatters.Some? ==> |b.scatters.value| == |b.keys|
    ensures b.nodes == [] ==> r == Err(NoNodes)
    ensures b.nodes != [] ==> (r.Ok? <==> forall g :: b.Busy(g) ==> b.Good(g))
    ensures b.nodes != [] && r.Ok? ==>
      && |r.value| == |b.keys|
      && forall g :: 0 <= g < |b.nodes| && b.Busy(g) ==> Scattered(r.value, b.Idxs(g), b.Reply(g))
    ensures b.nodes != [] && r.Err? ==> exists g: nat :: Culprit(b, g) && b.Blamed(g, r.error)
  {
    var owners := Owners(b.nodes, b.keys, b.hash);
    if owners.Err? {
      return Err(NoNodes);
    }
    var sent := Send(b, owners.value);
    if sent.Err? {
      return Err(sent.error);
    }
    r := Gather(b, sent.value);
  }

  /** What a node answers to each of its keys, and the key's scatter list if it has one. */
  type Answer = (nat, Bytes, Option<seq<Strip>>) -> int

  function Alone(node: nat, keys: seq<Bytes>, scatters: seq<seq<Strip>>, answer: Answer): (r: seq<int>)
    ensures |r| == |keys|
    ensures forall j :: 0 <= j < |r| ==> r[j] == answer(node, keys[j], if j < |scatters| then Some(scatters[j]) else None)
  {
    seq(|keys|, j requires 0 <= j < |keys| => answer(node, keys[j], if j < |scatters| then Some(scatters[j]) else None))
  }

  /** Every node answers a batch by answering its keys one by one. */
  ghost predicate OneByOne(op: Op, scattered: bool, answer: Answer) {
    forall node, keys, scatters {:trigger op(node, keys, scatters)} :: |scatters| == (if scattered then |keys| else 0) ==>
      op(node, keys, scatters) == Answered(Ok(Alone(node, keys, scatters, answer)))
  }

  /** Asking in shards is asking for each key alone: when every node answers its
      keys one by one the batch succeeds, and result i is what the node that key i
      hashes to answers to it and its own scatter list. */
  lemma ShardedPointwise(b: Batch, out: seq<int>, answer: Answer, i: nat)
    requires b.Valid() && i < |b.keys| && |out| == |b.keys| && OneByOne(b.op, b.scatters.Some?, answer)
    ensures forall g :: b.Busy(g) ==> b.Good(g)
    ensures (forall g :: 0 <= g < |b.nodes| && b.Busy(g) ==> Scattered(out, b.Idxs(g), b.Reply(g))) ==>
      out[i] == answer(b.nodes[b.hash(b.keys[i]) % |b.nodes|], b.keys[i],
                       if b.scatters.Some? then Some(b.scatters.value[i]) else None)
  {
    hide NodeOf, OneByOne;
    forall g | b.Busy(g)
      ensures b.Good(g)
    {
      RepliesAlone(b, g, answer);
    }
    if forall g :: 0 <= g < |b.nodes| && b.Busy(g) ==> Scattered(out, b.Idxs(g), b.Reply(g)) {
      var g := b.hash(b.keys[i]) % |b.nodes|;
      GroupMembers(b.keys, |b.nodes|, b.hash, g, i);
      var j :| 0 <= j < |b.Idxs(g)| && b.Idxs(g)[j] == i;
      assert b.Busy(g);
      RepliesAlone(b, g, answer);
    }
  }

  lemma RepliesAlone(b: Batch, g: nat, answer: Answer)
    requires b.Valid() && g < |b.nodes| && OneByOne(b.op, b.scatters.Some?, answer)
    ensures b.Good(g)
    ensures forall j :: 0 <= j < |b.Idxs(g)| ==>
      b.Reply(g).reply.value[j]
      == answer(b.nodes[g], b.keys[b.Idxs(g)[j]], if b.scatters.Some? then Some(b.scatters.value[b.Idxs(g)[j]]) else None)
  {
  }
}
