/** The erasure-coded PUT loop: a chunked source is cut into zero-padded
    stripes whose shards go to D+P sinks
    (crates/openlake_storage/src/engine.rs:2718-2829,
    crates/openlake_io/src/local_fs.rs:561-601). */
module StripeWrite {
  import opened Bytes
  import opened ErasureCode
  import opened StripeLayout

  /** What one `read` call on a byte source yields. */
  datatype Event = Chunk(bytes: Bytes) | Fail

  datatype WriteError = SourceEnded(at: nat) | SourceFailed | EncodeFailed | SinkFailed | ShortFile

  /** The bytes a source delivers before it ends (an empty chunk) or fails. */
  function Content(events: seq<Event>): Bytes {
    if events == [] || events[0].Fail? || events[0].bytes == [] then []
    else events[0].bytes + Content(events[1..])
  }

  /** True iff the source stops delivering because a read fails. */
  predicate EndsInFailure(events: seq<Event>) {
    events != [] && (events[0].Fail? || (events[0].bytes != [] && EndsInFailure(events[1..])))
  }

  class ByteSource {
    var events: seq<Event>

    constructor (script: seq<Event>)
      ensures events == script
    {
      events := script;
    }

    method Read() returns (r: Result<Bytes, WriteError>)
      modifies this
      ensures r.Ok? && r.value != [] ==>
        Content(old(events)) == r.value + Content(events) && (EndsInFailure(old(events)) <==> EndsInFailure(events))
      ensures r.Ok? && r.value == [] ==> Content(old(events)) == [] && !EndsInFailure(old(events))
      ensures r.Err? ==> Content(old(events)) == [] && EndsInFailure(old(events)) && r.error == SourceFailed
    {
      if events == [] {
        return Ok([]);
      }
      var e := events[0];
      events := events[1..];
      match e {
        case Chunk(b) => return Ok(b);
        case Fail => return Err(SourceFailed);
      }
    }
  }

  class FileSink {
    var data: Bytes
    var written: nat
    const expected: nat
    /** Writes to an unhealthy sink may fail. */
    const healthy: bool

    constructor (size: nat, healthy: bool)
      ensures data == [] && written == 0 && expected == size && this.healthy == healthy
    {
      data, written, expected, this.healthy := [], 0, size, healthy;
    }

    ghost predicate Valid()
      reads this
    {
      written == |data|
    }

    /** A write may fail part-way; when it succeeds it appended all of `buf`. */
    method WriteAll(buf: Bytes) returns (ok: bool)
      requires Valid()
      modifies this
      ensures ok ==> Valid() && data == old(data) + buf
      ensures !ok ==> !healthy && old(data) <= data
    {
      if !healthy {
        if * {
          return false;
        }
      }
      data := data + buf;
      written := written + |buf|;
      return true;
    }

    /** The length check of `finish`. */
    method Finish() returns (r: Result<(), WriteError>)
      requires Valid()
      ensures r.Ok? <==> |data| == expected
      ensures r.Err? ==> r.error == ShortFile
    {
      if written != expected {
        return Err(ShortFile);
      }
      return Ok(());
    }
  }

  /** `dst[at..at + src.len()].copy_from_slice(src)`. */
  method CopyInto(dst: array<byte>, at: nat, src: Bytes)
    requires at + |src| <= dst.Length
    modifies dst
    ensures dst[..at + |src|] == old(dst[..at]) + src
  {
    forall k | 0 <= k < |src| {
      dst[at + k] := src[k];
    }
  }

  /** Zeroes `dst[at..]`. */
  method ZeroTail(dst: array<byte>, at: nat)
    requires at <= dst.Length
    modifies dst
    ensures dst[..] == Padded(old(dst[..at]), dst.Length)
  {
    forall k | at <= k < dst.Length {
      dst[k] := 0;
    }
  }

  lemma SplitAt(all: Bytes, front: Bytes, back: Bytes)
    requires all == front + back
    ensures all[..|front|] == front && all[|front|..] == back
  {
  }

  lemma MoveBytes(kept: Bytes, carry: Bytes, rest: Bytes, take: nat)
    requires take <= |carry|
    ensures kept + carry[..take] + (carry[take..] + rest) == kept + (carry + rest)
  {
    assert carry == carry[..take] + carry[take..];
  }

  /** Reads the next chunk unless some of the last one is left. */
  method NextCarry(src: ByteSource, carry: Bytes) returns (r: Result<Bytes, WriteError>)
    modifies src
    ensures r.Ok? ==>
      && r.value != []
      && r.value + Content(src.events) == carry + Content(old(src.events))
      && (EndsInFailure(src.events) <==> EndsInFailure(old(src.events)))
    ensures r.Err? ==>
      && carry + Content(old(src.events)) == []
      && r.error == (if EndsInFailure(old(src.events)) then SourceFailed else SourceEnded(0))
  {
    if carry != [] {
      return Ok(carry);
    }
    assert carry + Content(src.events) == Content(src.events);
    r := src.Read();
    if r.Ok? && r.value == [] {
      return Err(SourceEnded(0));
    }
  }

  /** Fills one stripe buffer with `want` source bytes and zeroes its tail. The
      buffer starts with arbitrary contents; none of them reach the result. */
  method FillStripe(src: ByteSource, initialCarry: Bytes, want: nat, stripeData: nat)
    returns (r: Result<Bytes, WriteError>, carry: Bytes)
    requires want <= stripeData
    modifies src
    ensures r.Ok? ==>
      && want <= |initialCarry + Content(old(src.events))|
      && r.value == Padded((initialCarry + Content(old(src.events)))[..want], stripeData)
      && carry + Content(src.events) == (initialCarry + Content(old(src.events)))[want..]
      && (EndsInFailure(src.events) <==> EndsInFailure(old(src.events)))
    ensures r.Err? ==>
      && |initialCarry + Content(old(src.events))| < want
      && (if EndsInFailure(old(src.events)) then r.error == SourceFailed
          else r.error == SourceEnded(|initialCarry + Content(old(src.events))|))
  {
    hide Content, EndsInFailure, Padded;
    var stripeBuf := new byte[stripeData];
    carry := initialCarry;
    var filled := 0;
    ghost var all := initialCarry + Content(src.events);
    assert [] + all == all;
    while filled < want
      invariant 0 <= filled <= want
      invariant stripeBuf[..filled] + (carry + Content(src.events)) == all
      invariant EndsInFailure(src.events) <==> EndsInFailure(old(src.events))
      decreases want - filled
    {
      var next := NextCarry(src, carry);
      if next.Err? {
        return if next.error == SourceFailed then Err(SourceFailed) else Err(SourceEnded(filled)), [];
      }
      carry := next.value;
      var take := Min(want - filled, |carry|);
      MoveBytes(stripeBuf[..filled], carry, Content(src.events), take);
      CopyInto(stripeBuf, filled, carry[..take]);
      filled := filled + take;
      carry := carry[take..];
    }
    SplitAt(all, stripeBuf[..want], carry + Content(src.events));
    ZeroTail(stripeBuf, want);
    r := Ok(stripeBuf[..]);
  }

  /** Sends shard i to sink i, for all sinks; succeeds iff every write did. */
  method WriteShards(sinks: seq<FileSink>, shards: seq<Bytes>) returns (ok: bool)
    requires |shards| == |sinks|
    requires Distinct(sinks)
    requires forall i :: 0 <= i < |sinks| ==> sinks[i].Valid()
    modifies sinks
    ensures ok ==> forall i :: 0 <= i < |sinks| ==> sinks[i].Valid() && sinks[i].data == old(sinks[i].data) + shards[i]
    ensures AllHealthy(sinks) ==> ok
  {
    ok := true;
    for n := 0 to |sinks|
      invariant ok ==> forall i :: 0 <= i < n ==> sinks[i].Valid() && sinks[i].data == old(sinks[i].data) + shards[i]
      invariant forall i :: n <= i < |sinks| ==> sinks[i].Valid() && sinks[i].data == old(sinks[i].data)
      invariant AllHealthy(sinks) ==> ok
    {
      var written := sinks[n].WriteAll(shards[n]);
      ok := ok && written;
    }
  }

  /** Every sink is at the end of what was written before `rest`. */
  ghost predicate SinksAwait(c: Code, sinks: seq<FileSink>, payload: Bytes, rest: Bytes, unit: nat)
    requires ParityShape(c) && unit > 0 && |sinks| == c.Total()
    reads sinks
  {
    forall i :: 0 <= i < |sinks| ==>
      sinks[i].Valid() && sinks[i].data + ShardFile(c, rest, unit, i) == ShardFile(c, payload, unit, i)
  }

  /** Every sink holds its whole shard file. */
  ghost predicate SinksHold(c: Code, sinks: seq<FileSink>, payload: Bytes, unit: nat)
    requires ParityShape(c) && unit > 0 && |sinks| == c.Total()
    reads sinks
  {
    forall i :: 0 <= i < |sinks| ==>
      sinks[i].Valid() && sinks[i].data == ShardFile(c, payload, unit, i)
  }

  ghost predicate AllHealthy(sinks: seq<FileSink>) {
    forall i :: 0 <= i < |sinks| ==> sinks[i].healthy
  }

  ghost predicate Distinct(sinks: seq<FileSink>) {
    forall i, j :: 0 <= i < j < |sinks| ==> sinks[i] != sinks[j]
  }

  /** Encodes one stripe and sends its shards out. */
  method WriteStripe(c: Code, stripe: Bytes, unit: nat, sinks: seq<FileSink>, ghost payload: Bytes, ghost rest: Bytes)
    returns (r: Result<(), WriteError>)
    requires ParityShape(c) && unit > 0 && unit % 2 == 0
    requires |sinks| == c.Total() && Distinct(sinks)
    requires SinksAwait(c, sinks, payload, rest, unit)
    requires stripe == HeadStripe(rest, c.dataShards * unit)
    modifies sinks
    ensures r.Ok? ==>
      if |rest| <= c.dataShards * unit then SinksHold(c, sinks, payload, unit)
      else SinksAwait(c, sinks, payload, rest[c.dataShards * unit..], unit)
    ensures r.Err? ==> r.error == SinkFailed && !AllHealthy(sinks)
  {
    var shards := EncodeFull(c, stripe, unit);
    ghost var before := seq(|sinks|, i requires 0 <= i < |sinks| reads sinks => sinks[i].data);
    var ok := WriteShards(sinks, shards);
    if !ok {
      return Err(SinkFailed);
    }
    forall i | 0 <= i < |sinks|
      ensures if |rest| <= c.dataShards * unit then sinks[i].data == ShardFile(c, payload, unit, i)
              else sinks[i].data + ShardFile(c, rest[c.dataShards * unit..], unit, i) == ShardFile(c, payload, unit, i)
    {
      SinkStep(c, before[i], shards, payload, rest, unit, i);
    }
    return Ok(());
  }

  /** A whole stripe always encodes. */
  method EncodeFull(c: Code, stripe: Bytes, unit: nat) returns (shards: seq<Bytes>)
    requires ParityShape(c) && unit > 0 && unit % 2 == 0 && |stripe| == c.dataShards * unit
    ensures |shards| == c.Total() && shards == Encoded(c, stripe, unit)
  {
    hide ParityShape, Encoded;
    FullStripeEncodes(c, |stripe|, unit);
    var r := EncodeStripe(c, stripe);
    if r.Err? {
      assert false;
    }
    EncodedShape(c, stripe, unit);
    shards := r.value;
  }

  lemma FullStripeEncodes(c: Code, length: nat, unit: nat)
    requires ParityShape(c) && unit > 0 && unit % 2 == 0 && length == c.dataShards * unit
    ensures c.dataShards > 0 && length > 0 && length % c.dataShards == 0 && length / c.dataShards == unit
  {
    MulDiv(c.dataShards, unit);
    StripePositive(c.dataShards, unit);
  }

  lemma SinkStep(c: Code, before: Bytes, shards: seq<Bytes>, payload: Bytes, rest: Bytes, unit: nat, i: nat)
    requires ParityShape(c) && unit > 0 && i < c.Total() == |shards|
    requires shards == Encoded(c, HeadStripe(rest, c.dataShards * unit), unit)
    requires before + ShardFile(c, rest, unit, i) == ShardFile(c, payload, unit, i)
    ensures if |rest| <= c.dataShards * unit then before + shards[i] == ShardFile(c, payload, unit, i)
            else before + shards[i] + ShardFile(c, rest[c.dataShards * unit..], unit, i) == ShardFile(c, payload, unit, i)
  {
    hide ParityShape, HeadStripe, Encoded;
  }

  /** The bytes the PUT is to store: the first `size` source bytes, made up with
      zero bytes when the source is too short (the loop then fails). */
  function Target(content: Bytes, size: nat): (p: Bytes)
    ensures |p| == size
  {
    if size <= |content| then content[..size] else Padded(content, size)
  }

  /** The stripe filled from the source is the next stripe of the target. */
  lemma TargetStripe(content: Bytes, size: nat, consumed: nat, stripeData: nat)
    requires consumed <= |content| && consumed <= size
    requires Min(size - consumed, stripeData) <= |content| - consumed
    ensures
      Padded(content[consumed..][..Min(size - consumed, stripeData)], stripeData)
      == HeadStripe(Target(content, size)[consumed..], stripeData)
  {
    var want := Min(size - consumed, stripeData);
    var rest := Target(content, size)[consumed..];
    assert content[consumed..][..want] == rest[..want];
    if |rest| <= stripeData {
      assert rest[..want] == rest;
    } else {
      assert Padded(rest[..want], stripeData) == rest[..want];
    }
  }

  lemma AdvanceSlice(s: Bytes, at: nat, n: nat)
    requires at + n <= |s|
    ensures s[..at] + s[at..][..n] == s[..at + n]
    ensures s[at..][n..] == s[at + n..]
  {
  }

  lemma StartAwaiting(c: Code, sinks: seq<FileSink>, payload: Bytes, unit: nat)
    requires ParityShape(c) && unit > 0 && |sinks| == c.Total()
    requires forall i :: 0 <= i < |sinks| ==> sinks[i].Valid() && sinks[i].data == []
    ensures SinksAwait(c, sinks, payload, payload[0..], unit)
  {
    assert payload[0..] == payload;
    forall i | 0 <= i < |sinks|
      ensures sinks[i].data + ShardFile(c, payload, unit, i) == ShardFile(c, payload, unit, i)
    {
      assert [] + ShardFile(c, payload, unit, i) == ShardFile(c, payload, unit, i);
    }
  }

  /** A premature end of the source, counted from the start of the PUT. */
  function Later(e: WriteError, consumed: nat): WriteError {
    if e.SourceEnded? then SourceEnded(consumed + e.at) else e
  }

  /** The PUT loop. On success the sinks hold exactly the D+P shard files of the
      first `size` source bytes, and the etag hasher saw exactly those bytes,
      without padding. It fails only when the source delivers fewer than `size`
      bytes or a sink write fails. */
  method EncodeAndWriteStripes(c: Code, src: ByteSource, size: nat, unit: nat, stripes: nat, sinks: seq<FileSink>)
    returns (r: Result<Bytes, WriteError>)
    requires ParityShape(c) && unit > 0 && unit % 2 == 0
    requires c.dataShards * unit > 0
    requires stripes == NumStripes(size, c.dataShards * unit)
    requires |sinks| == c.Total() && Distinct(sinks)
    requires forall i :: 0 <= i < |sinks| ==> sinks[i].Valid() && sinks[i].data == []
    modifies src, sinks
    ensures r.Ok? ==>
      && size <= |Content(old(src.events))|
      && r.value == Content(old(src.events))[..size]
      && SinksHold(c, sinks, r.value, unit)
    ensures |Content(old(src.events))| < size ==> r.Err?
    ensures r.Err? && r.error == SinkFailed ==> !AllHealthy(sinks)
    ensures r.Err? && r.error != SinkFailed ==>
      && |Content(old(src.events))| < size
      && (if EndsInFailure(old(src.events)) then r.error == SourceFailed
          else r.error == SourceEnded(|Content(old(src.events))|))
  {
    hide SinksAwait, SinksHold, EndsInFailure, Content, ParityShape;
    var stripeData := c.dataShards * unit;
    ghost var content := Content(src.events);
    ghost var payload := Target(content, size);
    ghost var rest := payload[0..];
    var consumed, carry, hashed, left := 0, [], [], stripes;
    StartAwaiting(c, sinks, payload, unit);
    assert content[0..] == content;
    while left > 0
      invariant 0 <= left
      invariant 0 <= consumed <= |content| && consumed <= size
      invariant carry + Content(src.events) == content[consumed..]
      invariant EndsInFailure(src.events) <==> EndsInFailure(old(src.events))
      invariant hashed == content[..consumed]
      invariant left > 0 ==> left == NumStripes(size - consumed, stripeData)
      invariant rest == payload[consumed..]
      invariant left > 0 ==> SinksAwait(c, sinks, payload, rest, unit)
      invariant left == 0 ==> consumed == size && SinksHold(c, sinks, payload, unit)
    {
      var want := Min(size - consumed, stripeData);
      var filled;
      filled, carry := FillStripe(src, carry, want, stripeData);
      if filled.Err? {
        return Err(Later(filled.error, consumed));
      }
      TargetStripe(content, size, consumed, stripeData);
      var sent := WriteStripe(c, filled.value, unit, sinks, payload, rest);
      if sent.Err? {
        return Err(sent.error);
      }
      AdvanceSlice(content, consumed, want);
      rest := rest[want..];
      hashed := hashed + filled.value[..want];
      consumed := consumed + want;
      left := left - 1;
    }
    return Ok(hashed);
  }

  /** Opens one sink per shard for stripes * unit bytes. */
  method OpenSinks(n: nat, size: nat, healthy: bool) returns (sinks: seq<FileSink>)
    ensures |sinks| == n && Distinct(sinks) && (healthy ==> AllHealthy(sinks))
    ensures forall i :: 0 <= i < n ==>
      fresh(sinks[i]) && sinks[i].Valid() && sinks[i].data == [] && sinks[i].expected == size
  {
    sinks := [];
    for k := 0 to n
      invariant |sinks| == k && Distinct(sinks) && (healthy ==> AllHealthy(sinks))
      invariant forall i :: 0 <= i < k ==>
        fresh(sinks[i]) && sinks[i].Valid() && sinks[i].data == [] && sinks[i].expected == size
    {
      var sink := new FileSink(size, healthy);
      sinks := sinks + [sink];
    }
  }

  /** Finishes every sink; fails iff one of them is short or too long. */
  method FinishSinks(sinks: seq<FileSink>) returns (r: Result<seq<Bytes>, WriteError>)
    requires forall i :: 0 <= i < |sinks| ==> sinks[i].Valid()
    ensures r.Err? <==> exists i :: 0 <= i < |sinks| && |sinks[i].data| != sinks[i].expected
    ensures r.Ok? ==> |r.value| == |sinks| && forall i :: 0 <= i < |sinks| ==> r.value[i] == sinks[i].data
  {
    var files: seq<Bytes> := [];
    for n := 0 to |sinks|
      invariant |files| == n
      invariant forall i :: 0 <= i < n ==> files[i] == sinks[i].data && |sinks[i].data| == sinks[i].expected
    {
      var done := sinks[n].Finish();
      if done.Err? {
        return Err(ShortFile);
      }
      files := files + [sinks[n].data];
    }
    return Ok(files);
  }

  /** One part: open the sinks for stripes * unit bytes, run the loop, finish.
      The sinks' length check never fails after the loop succeeded, and with
      healthy sinks the put succeeds iff the source has `size` bytes. */
  method PutPart(c: Code, src: ByteSource, size: nat, unit: nat, healthy: bool)
    returns (r: Result<(Bytes, seq<Bytes>), WriteError>)
    requires ParityShape(c) && unit > 0 && unit % 2 == 0
    modifies src
    ensures r.Ok? ==>
      && size <= |Content(old(src.events))|
      && r.value.0 == Content(old(src.events))[..size]
      && |r.value.1| == c.Total()
      && forall i :: 0 <= i < c.Total() ==> r.value.1[i] == ShardFile(c, r.value.0, unit, i)
    ensures r.Err? ==> (r.error == SinkFailed && !healthy) || |Content(old(src.events))| < size
  {
    StripePositive(c.dataShards, unit);
    var stripes := NumStripes(size, c.dataShards * unit);
    var sinks := OpenSinks(c.Total(), stripes * unit, healthy);
    var written := EncodeAndWriteStripes(c, src, size, unit, stripes, sinks);
    if written.Err? {
      return Err(written.error);
    }
    forall i | 0 <= i < |sinks|
      ensures |sinks[i].data| == sinks[i].expected
    {
      ShardFileLength(c, written.value, unit, i);
    }
    var files := FinishSinks(sinks);
    if files.Err? {
      assert false;
    }
    return Ok((written.value, files.value));
  }
}
