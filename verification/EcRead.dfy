/** Reading one part back: `EcReadStream` refills a stripe from sources that may
    end or fail, keeping what a source over-delivered, decodes it and serves the
    decoded shards frame by frame
    (crates/openlake_storage/src/engine.rs:1891-2114, 2211-2239). */
module EcRead {
  import opened Bytes
  import opened ErasureCode
  import opened StripeLayout
  import opened StripeWrite

  datatype ReadError = NotEnoughShards | TooFewOpened

  /** What each backend's stream still delivers; None once it is dead. */
  type Deliveries = seq<Option<Bytes>>

  predicate Supplies(d: Option<Bytes>, unit: nat) {
    d.Some? && |d.value| >= unit
  }

  /** A source survives a stripe iff it delivered a whole shard for it. */
  function AfterStripe(d: Option<Bytes>, unit: nat): Option<Bytes> {
    if Supplies(d, unit) then Some(d.value[unit..]) else None
  }

  function Advance(left: Deliveries, unit: nat): (r: Deliveries)
    ensures |r| == |left|
  {
    seq(|left|, i requires 0 <= i < |left| => AfterStripe(left[i], unit))
  }

  /** What is left to deliver after `k` stripes were read. */
  function AfterStripes(left: Deliveries, unit: nat, k: nat): (r: Deliveries)
    ensures |r| == |left|
  {
    if k == 0 then left else Advance(AfterStripes(left, unit, k - 1), unit)
  }

  /** Number of sources that deliver a whole shard for the next stripe. */
  function LiveCount(left: Deliveries, unit: nat): nat {
    CountSome(Advance(left, unit))
  }

  /** How many bytes of `rest` can be read before a stripe with fewer than D
      live sources. */
  ghost function Readable(c: Code, unit: nat, left: Deliveries, rest: Bytes): (n: nat)
    requires c.dataShards * unit > 0
    ensures n <= |rest|
    decreases |rest|
  {
    var sd := c.dataShards * unit;
    if LiveCount(left, unit) < c.dataShards then 0
    else if |rest| <= sd then |rest|
    else sd + Readable(c, unit, Advance(left, unit), rest[sd..])
  }

  /** After k + 1 stripes as after one and then k. */
  lemma {:induction false} AfterOneMore(left: Deliveries, unit: nat, k: nat)
    ensures AfterStripes(left, unit, k + 1) == AfterStripes(Advance(left, unit), unit, k)
  {
    if k > 0 {
      AfterOneMore(left, unit, k - 1);
    }
  }

  /** The sources that deliver at least n bytes in all. */
  ghost function Reaching(left: Deliveries, n: nat): set<nat> {
    set i: nat | i < |left| && left[i].Some? && |left[i].value| >= n
  }

  /** Every stripe that starts within the first `need` bytes has D sources that
      deliver the bytes up to its end. */
  ghost predicate StripesLive(c: Code, unit: nat, sd: nat, left: Deliveries, need: nat) {
    forall k: nat {:trigger AfterStripes(left, unit, k)} {:trigger Reaching(left, (k + 1) * unit)} ::
      k * sd < need ==> |Reaching(left, (k + 1) * unit)| >= c.dataShards
  }

  /** What is left of a source after k stripes: it has delivered k * unit bytes. */
  lemma {:induction false} SurvivesStripes(left: Deliveries, unit: nat, k: nat, i: nat)
    requires i < |left|
    ensures AfterStripes(left, unit, k)[i].Some? <==> left[i].Some? && |left[i].value| >= k * unit
    ensures AfterStripes(left, unit, k)[i].Some? ==> AfterStripes(left, unit, k)[i].value == left[i].value[k * unit..]
  {
    if k > 0 {
      SurvivesStripes(left, unit, k - 1, i);
      MulStep(k, unit);
    }
  }

  /** Counting the slots that are filled. */
  lemma {:induction false} CountIsSize<T>(slots: seq<Option<T>>, filled: set<nat>)
    requires forall i: nat :: i in filled <==> i < |slots| && slots[i].Some?
    ensures CountSome(slots) == |filled|
    decreases |slots|
  {
    if slots == [] {
      assert filled == {};
    } else {
      var n := |slots| - 1;
      assert slots == slots[..n] + [slots[n]];
      CountSomeAppend(slots[..n], [slots[n]]);
      CountIsSize(slots[..n], filled - {n});
      CountOne(slots[n]);
      assert slots[n].Some? ==> filled == (filled - {n}) + {n};
      assert slots[n].None? ==> filled == filled - {n};
    }
  }

  lemma CountOne<T>(slot: Option<T>)
    ensures CountSome([slot]) == if slot.Some? then 1 else 0
  {
    assert [slot][1..] == [];
  }

  /** The sources live for stripe k are those that deliver (k + 1) * unit bytes. */
  lemma LiveReaching(left: Deliveries, unit: nat, k: nat)
    ensures LiveCount(AfterStripes(left, unit, k), unit) == |Reaching(left, (k + 1) * unit)|
  {
    var after, reaching := AfterStripes(left, unit, k + 1), Reaching(left, (k + 1) * unit);
    assert Advance(AfterStripes(left, unit, k), unit) == after;
    forall i | 0 <= i < |left|
      ensures after[i].Some? <==> i in reaching
    {
      SurvivesStripes(left, unit, k + 1, i);
    }
    CountIsSize(after, reaching);
  }

  lemma LiveAt(c: Code, unit: nat, sd: nat, left: Deliveries, need: nat, k: nat)
    requires StripesLive(c, unit, sd, left, need) && k * sd < need
    ensures LiveCount(AfterStripes(left, unit, k), unit) >= c.dataShards
  {
    LiveReaching(left, unit, k);
    var _ := AfterStripes(left, unit, k);
  }

  lemma LiveTail(c: Code, unit: nat, sd: nat, left: Deliveries, need: nat)
    requires sd > 0 && need > sd && StripesLive(c, unit, sd, left, need)
    ensures StripesLive(c, unit, sd, Advance(left, unit), need - sd)
  {
    hide Reaching, LiveCount;
    forall k: nat | k * sd < need - sd
      ensures |Reaching(Advance(left, unit), (k + 1) * unit)| >= c.dataShards
    {
      MulStep(k + 1, sd);
      AfterOneMore(left, unit, k);
      LiveAt(c, unit, sd, left, need, k + 1);
      LiveReaching(Advance(left, unit), unit, k);
    }
  }

  lemma LiveCons(c: Code, unit: nat, sd: nat, left: Deliveries, need: nat)
    requires sd > 0 && LiveCount(left, unit) >= c.dataShards
    requires need > sd ==> StripesLive(c, unit, sd, Advance(left, unit), need - sd)
    ensures StripesLive(c, unit, sd, left, need)
  {
    hide Reaching, LiveCount;
    forall k: nat | k * sd < need
      ensures |Reaching(left, (k + 1) * unit)| >= c.dataShards
    {
      LiveReaching(left, unit, k);
      if k > 0 {
        MulStep(k, sd);
        AfterOneMore(left, unit, k - 1);
        LiveAt(c, unit, sd, Advance(left, unit), need - sd, k - 1);
      }
    }
  }

  /** The first `need` bytes are readable exactly when every stripe they come from
      has D sources that deliver the bytes up to its end. */
  lemma {:induction false} ReadableIffLive(c: Code, unit: nat, sd: nat, left: Deliveries, rest: Bytes, need: nat)
    requires sd == c.dataShards * unit > 0 && need <= |rest|
    ensures Readable(c, unit, left, rest) >= need <==> StripesLive(c, unit, sd, left, need)
    decreases |rest|
  {
    hide StripesLive, LiveCount;
    if need == 0 {
      NothingNeeded(c, unit, sd, left);
    } else if LiveCount(left, unit) < c.dataShards {
      if StripesLive(c, unit, sd, left, need) {
        LiveAt(c, unit, sd, left, need, 0);
      }
    } else if need <= sd {
      LiveCons(c, unit, sd, left, need);
    } else {
      ReadableIffLive(c, unit, sd, Advance(left, unit), rest[sd..], need - sd);
      if StripesLive(c, unit, sd, left, need) {
        LiveTail(c, unit, sd, left, need);
      } else if StripesLive(c, unit, sd, Advance(left, unit), need - sd) {
        LiveCons(c, unit, sd, left, need);
      }
    }
  }

  lemma NothingNeeded(c: Code, unit: nat, sd: nat, left: Deliveries)
    ensures StripesLive(c, unit, sd, left, 0)
  {
    assert forall k: nat :: k * sd >= 0;
  }

  /** Each surviving source delivers a prefix of its shard file of `rest`. */
  ghost predicate Faithful(c: Code, rest: Bytes, unit: nat, left: Deliveries)
    requires ParityShape(c) && unit > 0
  {
    && |left| == c.Total()
    && forall i :: 0 <= i < |left| && left[i].Some? ==> left[i].value <= ShardFile(c, rest, unit, i)
  }

  /** The shards read for the next stripe. */
  function Slots(left: Deliveries, unit: nat): (slots: seq<Option<Bytes>>)
    ensures |slots| == |left|
  {
    seq(|left|, i requires 0 <= i < |left| =>
      if Supplies(left[i], unit) then Some(left[i].value[..unit]) else None)
  }

  lemma {:induction false} SameCount(a: seq<Option<Bytes>>, b: seq<Option<Bytes>>)
    requires |a| == |b| && forall i :: 0 <= i < |a| ==> (a[i].Some? <==> b[i].Some?)
    ensures CountSome(a) == CountSome(b)
  {
    if a != [] {
      SameCount(a[1..], b[1..]);
    }
  }

  lemma SlotsAgree(c: Code, rest: Bytes, unit: nat, left: Deliveries)
    requires ParityShape(c) && unit > 0 && Faithful(c, rest, unit, left)
    ensures Agrees(Slots(left, unit), Encoded(c, HeadStripe(rest, c.dataShards * unit), unit))
    ensures CountSome(Slots(left, unit)) == LiveCount(left, unit)
  {
    EncodedShape(c, HeadStripe(rest, c.dataShards * unit), unit);
    SameCount(Slots(left, unit), Advance(left, unit));
  }

  /** After a stripe the survivors deliver prefixes of the remaining files. */
  lemma FaithfulAdvance(c: Code, rest: Bytes, unit: nat, left: Deliveries)
    requires ParityShape(c) && unit > 0 && Faithful(c, rest, unit, left)
    requires |rest| > c.dataShards * unit
    ensures Faithful(c, rest[c.dataShards * unit..], unit, Advance(left, unit))
  {
    forall i | 0 <= i < |left| && Supplies(left[i], unit)
      ensures left[i].value[unit..] <= ShardFile(c, rest[c.dataShards * unit..], unit, i)
    {
      ShardFileTail(c, rest, unit, i);
    }
  }

  lemma NextContent(events: seq<Event>)
    ensures Content(events)
         == if events == [] || events[0].Fail? || events[0].bytes == [] then [] else events[0].bytes + Content(events[1..])
  {
  }

  /** One source's share of a refill: the carry first, then chunks until `unit`
      bytes are there; what a chunk has beyond that becomes the new carry. */
  method PullShard(script: seq<Event>, initialCarry: Bytes, unit: nat)
    returns (source: Option<seq<Event>>, shard: Option<Bytes>, carry: Bytes)
    ensures |initialCarry + Content(script)| >= unit ==>
      && shard == Some((initialCarry + Content(script))[..unit])
      && source.Some?
      && carry + Content(source.value) == (initialCarry + Content(script))[unit..]
    ensures |initialCarry + Content(script)| < unit ==> shard.None? && source.None?
  {
    hide Content;
    ghost var all := initialCarry + Content(script);
    carry := initialCarry;
    var buf: Bytes := [];
    if carry != [] {
      var take := Min(unit, |carry|);
      buf := carry[..take];
      carry := carry[take..];
    }
    var events := script;
    assert buf + (carry + Content(events)) == all;
    while |buf| < unit
      invariant |buf| <= unit
      invariant |buf| < unit ==> carry == []
      invariant buf + (carry + Content(events)) == all
      decreases |events|
    {
      NextContent(events);
      if events == [] || events[0].Fail? {
        return None, None, carry;
      }
      var chunk := events[0].bytes;
      if chunk == [] {
        return None, None, carry;
      }
      var take := Min(unit - |buf|, |chunk|);
      MoveBytes(buf, chunk, Content(events[1..]), take);
      events := events[1..];
      buf := buf + chunk[..take];
      carry := chunk[take..];
    }
    return Some(events), Some(buf), carry;
  }

  /** Each open source with its carry delivers what is left of its file. */
  ghost predicate Tracks(sources: seq<Option<seq<Event>>>, carries: seq<Bytes>, left: Deliveries) {
    && |sources| == |carries| == |left|
    && forall i :: 0 <= i < |sources| ==>
         if sources[i].Some? then left[i] == Some(carries[i] + Content(sources[i].value))
         else left[i].None?
  }

  /** Bytes of a decoded stripe from shard `k`, byte `pos` on. */
  function From(decoded: seq<Bytes>, k: nat, pos: nat): Bytes {
    if k >= |decoded| || pos > |decoded[k]| then []
    else decoded[k][pos..] + Concat(decoded[k + 1..])
  }

  /** The decoded bytes and the stripes still to come make up `pending`: the
      last stripe is served up to its padding, every other one completely. */
  ghost predicate Serving(c: Code, unit: nat, left: Deliveries, unserved: Bytes, stripes: nat, rest: Bytes, pending: Bytes)
  {
    if stripes == 0 then pending <= unserved
    else
      && pending == unserved + rest
      && ParityShape(c) && unit > 0 && c.dataShards * unit > 0
      && stripes == NumStripes(|rest|, c.dataShards * unit)
      && Faithful(c, rest, unit, left)
  }

  /** How many of the pending bytes can be read. */
  ghost function StillReadable(c: Code, unit: nat, left: Deliveries, unserved: Bytes, stripes: nat, rest: Bytes, pending: Bytes): (n: nat)
    requires c.dataShards * unit > 0
  {
    if stripes == 0 then |pending| else |unserved| + Readable(c, unit, left, rest)
  }

  lemma WholeStripe(decoded: seq<Bytes>)
    requires |decoded| > 0
    ensures From(decoded, 0, 0) == Concat(decoded)
  {
    assert decoded[0][0..] == decoded[0];
  }

  lemma FromNextShard(decoded: seq<Bytes>, k: nat)
    requires k < |decoded|
    ensures From(decoded, k + 1, 0) == Concat(decoded[k + 1..])
  {
    if k + 1 < |decoded| {
      assert decoded[k + 1..][1..] == decoded[k + 2..];
      assert decoded[k + 1][0..] == decoded[k + 1];
    }
  }

  lemma TakeDrop(a: Bytes, b: Bytes, n: nat)
    requires n <= |a|
    ensures (a + b)[..n] == a[..n] && (a + b)[n..] == a[n..] + b
  {
  }

  /** Serving `n` bytes of shard `k` moves on by exactly those bytes. */
  lemma ServeFrame(decoded: seq<Bytes>, k: nat, pos: nat, n: nat, k': nat, pos': nat)
    requires k < |decoded| && pos + n <= |decoded[k]|
    requires if pos + n == |decoded[k]| then k' == k + 1 && pos' == 0 else k' == k && pos' == pos + n
    ensures n <= |From(decoded, k, pos)|
    ensures From(decoded, k, pos)[..n] == decoded[k][pos..pos + n]
    ensures From(decoded, k, pos)[n..] == From(decoded, k', pos')
  {
    var shard, tail := decoded[k], Concat(decoded[k + 1..]);
    TakeDrop(shard[pos..], tail, n);
    assert shard[pos..][..n] == shard[pos..pos + n];
    assert shard[pos..][n..] == shard[pos + n..];
    if pos + n == |shard| {
      FromNextShard(decoded, k);
      assert shard[pos + n..] + tail == tail;
    }
  }

  /** Taking `n` unserved bytes leaves the rest pending and readable. */
  lemma ServingTake(c: Code, unit: nat, left: Deliveries, u: Bytes, u': Bytes, stripes: nat, rest: Bytes, pending: Bytes, n: nat)
    requires Serving(c, unit, left, u, stripes, rest, pending)
    requires n <= |u| && n <= |pending| && u' == u[n..] && c.dataShards * unit > 0
    ensures pending[..n] == u[..n]
    ensures Serving(c, unit, left, u', stripes, rest, pending[n..])
    ensures n + StillReadable(c, unit, left, u', stripes, rest, pending[n..])
         == StillReadable(c, unit, left, u, stripes, rest, pending)
  {
    if stripes > 0 {
      TakeDrop(u, rest, n);
    }
  }

  lemma {:induction false} ServeNext(c: Code, unit: nat, left: Deliveries, stripes: nat, rest: Bytes, stripe: Bytes)
    requires stripes > 0 && Serving(c, unit, left, [], stripes, rest, rest)
    requires stripe == HeadStripe(rest, c.dataShards * unit)
    ensures
      var sd := c.dataShards * unit;
      Serving(c, unit, Advance(left, unit), stripe, stripes - 1, if |rest| > sd then rest[sd..] else [], rest)
    ensures LiveCount(left, unit) >= c.dataShards ==>
      var sd := c.dataShards * unit;
      Readable(c, unit, left, rest)
      == StillReadable(c, unit, Advance(left, unit), stripe, stripes - 1, if |rest| > sd then rest[sd..] else [], rest)
  {
    var sd := c.dataShards * unit;
    if |rest| > sd {
      FaithfulAdvance(c, rest, unit, left);
      assert rest == stripe + rest[sd..];
      assert NumStripes(|rest|, sd) == 1 + NumStripes(|rest[sd..]|, sd);
    }
  }

  class EcReadStream {
    const code: Code
    const unit: nat
    var sources: seq<Option<seq<Event>>>
    var carries: seq<Bytes>
    var stripesRemaining: nat
    var totalRemaining: nat
    var decoded: seq<Bytes>
    var decodeShard: nat
    var shardPos: nat
    /** What the sources still deliver. */
    ghost var left: Deliveries
    /** The decoded bytes not yet served, the part's bytes after the decoded
        stripes, and all bytes still due. */
    ghost var unserved: Bytes
    ghost var rest: Bytes
    ghost var pending: Bytes

    ghost function StripeData(): nat {
      code.dataShards * unit
    }

    ghost predicate SourcesValid()
      reads this
    {
      |sources| == code.Total() && Tracks(sources, carries, left)
    }

    /** `unserved` is what the shards from the current position on hold. */
    ghost predicate Positioned()
      reads this
    {
      && unit > 0
      && Uniform(decoded, unit)
      && (decodeShard < |decoded| ==> shardPos < unit)
      && unserved == From(decoded, decodeShard, shardPos)
    }

    ghost predicate Valid()
      reads this
    {
      && AnyDRestore(code) && unit > 0 && unit % 2 == 0
      && StripeData() > 0
      && SourcesValid()
      && Positioned()
      && |pending| == totalRemaining
      && Serving(code, unit, left, unserved, stripesRemaining, rest, pending)
    }

    ghost function CanRead(): nat
      requires StripeData() > 0
      reads this
    {
      StillReadable(code, unit, left, unserved, stripesRemaining, rest, pending)
    }

    /** The next `Read` has to decode a stripe. */
    ghost predicate NeedsStripe()
      reads this
    {
      pending != [] && unserved == []
    }

    /** Opens the stream at stripe `start` of a part holding `payload`. */
    constructor (c: Code, u: nat, scripts: seq<Option<seq<Event>>>, ghost payload: Bytes, actualSize: nat, start: nat)
      requires AnyDRestore(c) && u > 0 && u % 2 == 0 && c.dataShards * u > 0
      requires |payload| == actualSize
      requires start == 0 || start * (c.dataShards * u) < actualSize
      requires |scripts| == c.Total()
      requires start * (c.dataShards * u) <= |payload|
      requires Faithful(c, payload[start * (c.dataShards * u)..], u, Offered(scripts))
      ensures Valid() && code == c && unit == u
      ensures pending == payload[start * (c.dataShards * u)..]
      ensures CanRead() == Readable(c, u, Offered(scripts), pending)
    {
      code, unit := c, u;
      sources := scripts;
      carries := seq(|scripts|, _ => []);
      SeekCount(actualSize, c.dataShards * u, start);
      stripesRemaining := NumStripes(actualSize, c.dataShards * u) - start;
      totalRemaining := actualSize - start * (c.dataShards * u);
      decoded, decodeShard, shardPos := [], 0, 0;
      left := Offered(scripts);
      unserved := [];
      rest := payload[start * (c.dataShards * u)..];
      pending := payload[start * (c.dataShards * u)..];
      new;
      forall i | 0 <= i < |sources| && sources[i].Some?
        ensures left[i] == Some(carries[i] + Content(sources[i].value))
      {
        assert [] + Content(sources[i].value) == Content(sources[i].value);
      }
      assert [] + rest == rest;
    }

    method StripeRemainingBytes() returns (r: nat)
      requires Valid()
      ensures r == |unserved|
    {
      if decodeShard >= |decoded| {
        return 0;
      }
      r := |decoded[decodeShard]| - shardPos;
      var tail := decoded[decodeShard + 1..];
      for k := 0 to |tail|
        invariant r == |decoded[decodeShard]| - shardPos + |Concat(tail[..k])|
      {
        assert tail[..k + 1] == tail[..k] + [tail[k]];
        ConcatAppend(tail[..k], [tail[k]]);
        r := r + |tail[k]|;
      }
      assert tail[..|tail|] == tail;
    }

    /** Pulls one shard from every surviving source. */
    method PullAll() returns (slots: seq<Option<Bytes>>)
      requires SourcesValid()
      modifies this`sources, this`carries, this`left
      ensures SourcesValid() && left == Advance(old(left), unit)
      ensures slots == Slots(old(left), unit)
    {
      var oldSources, oldCarries := sources, carries;
      slots := [];
      ghost var before := left;
      var newSources: seq<Option<seq<Event>>> := [];
      var newCarries: seq<Bytes> := [];
      for i := 0 to |oldSources|
        invariant |slots| == i && slots == Slots(before, unit)[..i]
        invariant Tracks(newSources, newCarries, Advance(before, unit)[..i])
      {
        if oldSources[i].Some? {
          var source, shard, carry := PullShard(oldSources[i].value, oldCarries[i], unit);
          slots, newSources, newCarries := slots + [shard], newSources + [source], newCarries + [carry];
        } else {
          slots, newSources, newCarries := slots + [None], newSources + [None], newCarries + [oldCarries[i]];
        }
      }
      sources, carries, left := newSources, newCarries, Advance(before, unit);
    }

    /** Decodes the next stripe; succeeds iff D sources still deliver a shard. */
    method Refill() returns (r: Result<(), ReadError>)
      requires Valid() && stripesRemaining > 0
      modifies this
      ensures r.Ok? <==> LiveCount(old(left), unit) >= code.dataShards
      ensures r.Ok? <==> |Reaching(old(left), unit)| >= code.dataShards
      ensures r.Ok? ==>
        && SourcesValid() && left == Advance(old(left), unit)
        && decoded == Cut(HeadStripe(old(rest), StripeData()), code.dataShards, unit)
        && decodeShard == 0 && shardPos == 0
        && unserved == HeadStripe(old(rest), StripeData()) && Positioned()
        && stripesRemaining == old(stripesRemaining) - 1
        && pending == old(pending) && totalRemaining == old(totalRemaining)
        && rest == (if |old(rest)| > StripeData() then old(rest)[StripeData()..] else [])
    {
      hide AnswersAsGiven, AnyDRestore, Readable, Reaching;
      ghost var stripe := HeadStripe(rest, StripeData());
      SlotsAgree(code, rest, unit, left);
      LiveReaching(left, unit, 0);
      var slots := PullAll();
      if CountSome(slots) < code.dataShards {
        return Err(NotEnoughShards);
      }
      var shards := DecodeStripe(code, slots, unit, stripe);
      if shards.Err? {
        assert false;
      }
      decoded, decodeShard, shardPos := shards.value, 0, 0;
      ConcatCut(stripe, code.dataShards, unit);
      WholeStripe(decoded);
      unserved := stripe;
      stripesRemaining := stripesRemaining - 1;
      rest := if |rest| > StripeData() then rest[StripeData()..] else [];
      return Ok(());
    }

    /** A refilled stripe is served next and keeps the stream valid. */
    method NextStripe() returns (r: Result<(), ReadError>)
      requires Valid() && stripesRemaining > 0 && NeedsStripe()
      modifies this
      ensures r.Ok? <==> LiveCount(old(left), unit) >= code.dataShards
      ensures r.Ok? ==> Valid() && pending == old(pending) && decodeShard < |decoded| && CanRead() == old(CanRead())
    {
      ghost var stripe := HeadStripe(rest, StripeData());
      assert pending == [] + rest == rest;
      ServeNext(code, unit, left, stripesRemaining, rest, stripe);
      r := Refill();
    }

    /** Serves the rest of the current shard, cut to the bytes still due. */
    method Serve() returns (frame: Bytes)
      requires Positioned() && 0 < totalRemaining && decodeShard < |decoded|
      modifies this`shardPos, this`totalRemaining, this`decodeShard, this`unserved
      ensures Positioned()
      ensures 0 < |frame| <= |old(unserved)| && |frame| <= old(totalRemaining)
      ensures frame == old(unserved)[..|frame|] && unserved == old(unserved)[|frame|..]
      ensures totalRemaining == old(totalRemaining) - |frame|
    {
      var shard := decoded[decodeShard];
      var serve := Min(|shard| - shardPos, totalRemaining);
      frame := shard[shardPos..shardPos + serve];
      var drained := shardPos + serve == |shard|;
      var k := if drained then decodeShard + 1 else decodeShard;
      var pos := if drained then 0 else shardPos + serve;
      ServeFrame(decoded, decodeShard, shardPos, serve, k, pos);
      unserved := unserved[serve..];
      decodeShard, shardPos, totalRemaining := k, pos, totalRemaining - serve;
    }

    method ServePending() returns (frame: Bytes)
      requires Valid() && pending != [] && decodeShard < |decoded|
      modifies this`shardPos, this`totalRemaining, this`decodeShard, this`unserved, this`pending
      ensures Valid() && frame != [] && frame + pending == old(pending)
      ensures |frame| + CanRead() == old(CanRead())
    {
      ghost var before, due := unserved, pending;
      frame := Serve();
      ServingTake(code, unit, left, before, unserved, stripesRemaining, rest, due, |frame|);
      pending := due[|frame|..];
      assert due == due[..|frame|] + due[|frame|..];
    }

    /** One `read` call. Whatever the sources do, it serves the next bytes of
        the part and nothing else; with bytes pending it fails iff none of them
        is readable, that is, the next stripe has fewer than D live sources. */
    method Read() returns (r: Result<Bytes, ReadError>)
      requires Valid()
      modifies this
      ensures r.Err? <==> old(pending) != [] && old(CanRead()) == 0
      ensures r.Ok? ==>
        && Valid()
        && r.value + pending == old(pending)
        && (r.value == [] <==> old(pending) == [])
        && |r.value| + CanRead() == old(CanRead())
    {
      if totalRemaining == 0 {
        return Ok([]);
      }
      var available := StripeRemainingBytes();
      if available == 0 {
        if stripesRemaining == 0 {
          assert false;
        }
        var next := NextStripe();
        if next.Err? {
          return Err(next.error);
        }
      }
      var frame := ServePending();
      return Ok(frame);
    }
  }

  /** What freshly offered streams deliver. */
  function Offered(scripts: seq<Option<seq<Event>>>): (d: Deliveries)
    ensures |d| == |scripts|
  {
    seq(|scripts|, i requires 0 <= i < |scripts| =>
      if scripts[i].Some? then Some(Content(scripts[i].value)) else None)
  }
}
