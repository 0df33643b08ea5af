/** Ranged, multipart reads: the window of a Range request, the seek to a part
    and a stripe, the walk over parts, and skip/take
    (crates/openlake_storage/src/engine.rs:48-86, 1104-1252, 2124-2208;
    crates/openlake_io/src/stream.rs:152-223). */
module RangedGet {
  import opened Bytes
  import opened ErasureCode
  import opened StripeLayout
  import opened StripeWrite
  import opened EcRead

  // ----- The requested window

  datatype ByteRange =
    | Bounded(start: nat, end: nat)
    | OpenEnded(start: nat)
    | Suffix(lastN: nat)

  /** Byte `p` of an object of `size` bytes is asked for (RFC 7233, section 2.1). */
  predicate Requested(r: ByteRange, size: nat, p: nat) {
    && p < size
    && match r
       case Bounded(start, end) => start <= p <= end
       case OpenEnded(start) => start <= p
       case Suffix(lastN) => size <= p + lastN
  }

  /** The concrete (offset, length) window; None is unsatisfiable. */
  function Resolve(r: ByteRange, size: nat): (w: Option<(nat, nat)>)
    requires r.Bounded? ==> r.start <= r.end
    ensures w.Some? ==> w.value.1 > 0 && w.value.0 + w.value.1 <= size
    ensures w.Some? ==> forall p :: 0 <= p ==> (Requested(r, size, p) <==> w.value.0 <= p < w.value.0 + w.value.1)
    ensures w.None? ==> forall p :: 0 <= p ==> !Requested(r, size, p)
  {
    match r
    case Bounded(start, end) =>
      if size == 0 || start >= size then None
      else Some((start, Min(end, size - 1) - start + 1))
    case OpenEnded(start) =>
      if size == 0 || start >= size then None
      else Some((start, size - start))
    case Suffix(lastN) =>
      if size == 0 || lastN == 0 then None
      else Some((size - Min(lastN, size), Min(lastN, size)))
  }

  // ----- Whole-part skipping

  function TotalSize(sizes: seq<nat>): nat {
    if sizes == [] then 0 else sizes[0] + TotalSize(sizes[1..])
  }

  lemma {:induction false} TotalSizeSnoc(sizes: seq<nat>, k: nat)
    requires k < |sizes|
    ensures TotalSize(sizes[..k + 1]) == TotalSize(sizes[..k]) + sizes[k]
  {
    if k > 0 {
      TotalSizeSnoc(sizes[1..], k - 1);
      assert sizes[1..][..k] == sizes[..k + 1][1..];
      assert sizes[1..][..k - 1] == sizes[..k][1..];
    } else {
      assert sizes[..1][1..] == [];
    }
  }

  /** The part that contains byte `offset`, and the offset inside it. */
  method FindStart(sizes: seq<nat>, offset: nat) returns (startPart: nat, intraPart: nat)
    requires offset < TotalSize(sizes)
    ensures startPart < |sizes| && intraPart < sizes[startPart]
    ensures TotalSize(sizes[..startPart]) + intraPart == offset
  {
    startPart, intraPart := 0, offset;
    assert sizes[..|sizes|] == sizes;
    for i := 0 to |sizes|
      invariant TotalSize(sizes[..i]) + intraPart == offset
      invariant startPart == 0
    {
      if intraPart < sizes[i] {
        return i, intraPart;
      }
      TotalSizeSnoc(sizes, i);
      intraPart := intraPart - sizes[i];
    }
    assert false;
  }

  // ----- Parts

  /** What the backends' streams deliver for one part that is read from stripe
      `start` on, and the bytes the part holds. */
  datatype PartSource = PartSource(actualSize: nat, start: nat, scripts: seq<Option<seq<Event>>>)

  ghost predicate PartOk(c: Code, unit: nat, p: PartSource, payload: Bytes) {
    && ParityShape(c) && unit > 0 && c.dataShards * unit > 0
    && |payload| == p.actualSize
    && (p.start == 0 || p.start * (c.dataShards * unit) < p.actualSize)
    && p.start * (c.dataShards * unit) <= p.actualSize
    && |p.scripts| == c.Total()
    && Faithful(c, Wanted(c, unit, p, payload), unit, Offered(p.scripts))
  }

  /** The bytes of the part from the seek position on. */
  ghost function Wanted(c: Code, unit: nat, p: PartSource, payload: Bytes): Bytes {
    if p.start * (c.dataShards * unit) <= |payload| then payload[p.start * (c.dataShards * unit)..] else []
  }

  ghost function AllWanted(c: Code, unit: nat, ps: seq<PartSource>, payloads: seq<Bytes>): Bytes
    requires |ps| == |payloads|
  {
    if ps == [] then []
    else Wanted(c, unit, ps[0], payloads[0]) + AllWanted(c, unit, ps[1..], payloads[1..])
  }

  ghost predicate PartsOk(c: Code, unit: nat, ps: seq<PartSource>, payloads: seq<Bytes>) {
    && |ps| == |payloads|
    && forall j :: 0 <= j < |ps| ==> PartOk(c, unit, ps[j], payloads[j])
  }

  /** How many of a part's `size` bytes and of the `more` after it can be read,
      when `n` of the part's own can. */
  function Joined(n: nat, size: nat, more: nat): nat {
    if n < size then n else size + more
  }

  /** How many bytes of the parts can be read before one of them does not open on
      D backends or has a stripe with fewer than D live sources. */
  ghost function PartsReadable(c: Code, unit: nat, ps: seq<PartSource>, payloads: seq<Bytes>): nat
    requires |ps| == |payloads| && c.dataShards * unit > 0
  {
    if ps == [] || CountSome(Offered(ps[0].scripts)) < c.dataShards then 0
    else
      var wanted := Wanted(c, unit, ps[0], payloads[0]);
      Joined(Readable(c, unit, Offered(ps[0].scripts), wanted), |wanted|,
             PartsReadable(c, unit, ps[1..], payloads[1..]))
  }

  /** Every part opens on at least D backends, also those without bytes. */
  ghost predicate AllOpen(c: Code, ps: seq<PartSource>) {
    forall j :: 0 <= j < |ps| ==> CountSome(Offered(ps[j].scripts)) >= c.dataShards
  }

  lemma {:induction false} PartsReadableBound(c: Code, unit: nat, ps: seq<PartSource>, payloads: seq<Bytes>)
    requires |ps| == |payloads| && c.dataShards * unit > 0
    ensures PartsReadable(c, unit, ps, payloads) <= |AllWanted(c, unit, ps, payloads)|
  {
    if ps != [] {
      PartsReadableBound(c, unit, ps[1..], payloads[1..]);
    }
  }

  class MultiPartEcStream {
    const code: Code
    const unit: nat
    const parts: seq<PartSource>
    var nextIdx: nat
    var current: EcReadStream?
    ghost const payloads: seq<Bytes>
    /** The bytes of the parts not opened yet, how many of them can be read, and
        whether all of those parts will open. */
    ghost var ahead: Bytes
    ghost var aheadReadable: nat
    ghost var aheadOpen: bool
    ghost var pending: Bytes

    ghost predicate AheadOk()
      reads this
    {
      && code.dataShards * unit > 0
      && PartsOk(code, unit, parts, payloads)
      && nextIdx <= |parts|
      && ahead == AllWanted(code, unit, parts[nextIdx..], payloads[nextIdx..])
      && aheadReadable == PartsReadable(code, unit, parts[nextIdx..], payloads[nextIdx..])
      && aheadOpen == AllOpen(code, parts[nextIdx..])
    }

    ghost predicate CurrentOk()
      reads this, current
    {
      current != null ==> current.Valid() && current.code == code && current.unit == unit
    }

    ghost predicate Valid()
      reads this, current
    {
      && AnyDRestore(code) && unit > 0 && unit % 2 == 0
      && AheadOk()
      && CurrentOk()
      && pending == (if current == null then [] else current.pending) + ahead
    }

    /** How many of the pending bytes can be read. */
    ghost function CanRead(): nat
      requires CurrentOk()
      reads this, current
    {
      if current == null then aheadReadable
      else Joined(current.CanRead(), |current.pending|, aheadReadable)
    }

    constructor (c: Code, u: nat, ps: seq<PartSource>, ghost ds: seq<Bytes>)
      requires AnyDRestore(c) && u > 0 && u % 2 == 0 && c.dataShards * u > 0
      requires PartsOk(c, u, ps, ds)
      ensures Valid() && current == null
      ensures pending == AllWanted(c, u, ps, ds) && CanRead() == PartsReadable(c, u, ps, ds) && aheadOpen == AllOpen(c, ps)
    {
      code, unit, parts, payloads, nextIdx, current := c, u, ps, ds, 0, null;
      ahead, aheadReadable, aheadOpen := AllWanted(c, u, ps, ds), PartsReadable(c, u, ps, ds), AllOpen(c, ps);
      pending := [] + AllWanted(c, u, ps, ds);
      new;
      assert parts[0..] == parts && payloads[0..] == payloads;
    }

    /** Opens the next part's streams; fails iff fewer than D of them open. */
    method OpenNext() returns (r: Result<(), ReadError>)
      requires Valid() && current == null && nextIdx < |parts|
      modifies this`current, this`nextIdx, this`ahead, this`aheadReadable, this`aheadOpen
      ensures r.Ok? ==>
        && Valid() && current != null && fresh(current) && nextIdx == old(nextIdx) + 1
        && CanRead() == old(CanRead()) && aheadOpen == old(aheadOpen)
      ensures r.Err? ==> old(CanRead()) == 0 && !old(aheadOpen)
    {
      hide AnyDRestore, AllOpen, AllWanted, PartsReadable, Faithful, EcReadStream.Valid;
      var p := parts[nextIdx];
      ghost var payload := payloads[nextIdx];
      assert PartOk(code, unit, p, payload);
      SameOpens(p.scripts);
      AheadTail(code, unit, parts, payloads, nextIdx);
      if CountSome(p.scripts) < code.dataShards {
        return Err(TooFewOpened);
      }
      var stream := new EcReadStream(code, unit, p.scripts, payload, p.actualSize, p.start);
      nextIdx := nextIdx + 1;
      ahead := AllWanted(code, unit, parts[nextIdx..], payloads[nextIdx..]);
      aheadReadable := PartsReadable(code, unit, parts[nextIdx..], payloads[nextIdx..]);
      aheadOpen := AllOpen(code, parts[nextIdx..]);
      current := stream;
      assert pending == [] + (stream.pending + ahead);
      return Ok(());
    }

    /** Reads from the open part. */
    method ReadCurrent() returns (r: Result<Bytes, ReadError>)
      requires Valid() && current != null
      modifies this`pending, current
      ensures r.Ok? ==>
        && Valid() && r.value + pending == old(pending)
        && |r.value| + CanRead() == old(CanRead())
        && (r.value == [] ==> current.pending == [])
      ensures r.Err? ==> old(CanRead()) == 0 && old(pending) != []
    {
      hide AnyDRestore, PartsOk, AllWanted, PartsReadable, AllOpen, EcReadStream.Valid;
      ghost var before := current.pending;
      r := current.Read();
      if r.Ok? {
        pending := current.pending + ahead;
        assert r.value + pending == before + ahead;
      }
    }

    /** Drops a drained part. */
    method ClosePart()
      requires Valid() && current != null && current.pending == []
      modifies this`current
      ensures Valid() && current == null && CanRead() == old(CanRead())
    {
      current := null;
    }

    /** Opens a part if none is open and reads from it; a drained part is closed. */
    method Step() returns (r: Result<Bytes, ReadError>)
      requires Valid() && (current != null || nextIdx < |parts|)
      modifies this, current
      ensures r.Ok? ==> Valid() && r.value + pending == old(pending) && |r.value| + CanRead() == old(CanRead())
      ensures r.Ok? ==> current == null || current == old(current) || fresh(current)
      ensures r.Ok? && r.value == [] ==>
        current == null && nextIdx >= old(nextIdx) && (old(current) == null ==> nextIdx > old(nextIdx))
      ensures r.Ok? ==> aheadOpen == old(aheadOpen)
      ensures r.Err? ==> old(CanRead()) == 0 && (old(pending) != [] || !old(aheadOpen))
    {
      hide AnyDRestore, PartsOk, AllWanted, PartsReadable, AllOpen, EcReadStream.Valid;
      if current == null {
        var open := OpenNext();
        if open.Err? {
          return Err(open.error);
        }
      }
      r := ReadCurrent();
      if r.Ok? && r.value == [] {
        ClosePart();
      }
    }

    /** One `read` call: the next bytes of the object, across part boundaries.
        With bytes pending, it fails iff none of them can be read. */
    method Read() returns (r: Result<Bytes, ReadError>)
      requires Valid()
      modifies this, current
      ensures r.Ok? ==> Valid() && r.value + pending == old(pending)
      ensures r.Ok? ==> (r.value == [] <==> old(pending) == [])
      ensures r.Ok? ==> current == null || current == old(current) || fresh(current)
      ensures r.Ok? ==> |r.value| + CanRead() == old(CanRead()) && aheadOpen == old(aheadOpen)
      ensures r.Ok? && r.value == [] ==> aheadOpen
      ensures r.Err? ==> old(CanRead()) == 0 && (old(pending) != [] || !old(aheadOpen))
    {
      r := Ok([]);
      while current != null || nextIdx < |parts|
        invariant Valid() && pending == old(pending) && CanRead() == old(CanRead()) && aheadOpen == old(aheadOpen)
        invariant current == null || current == old(current) || fresh(current)
        invariant r == Ok([])
        decreases |parts| - nextIdx, if current == null then 0 else 1
      {
        var chunk := Step();
        if chunk.Err? || chunk.value != [] {
          return chunk;
        }
      }
    }
  }

  /** What opening the next part takes off what lies ahead. */
  lemma AheadTail(c: Code, unit: nat, parts: seq<PartSource>, payloads: seq<Bytes>, i: nat)
    requires |parts| == |payloads| && i < |parts| && c.dataShards * unit > 0
    ensures
      var ps, ds, ps', ds' := parts[i..], payloads[i..], parts[i + 1..], payloads[i + 1..];
      var wanted, opens := Wanted(c, unit, parts[i], payloads[i]), CountSome(Offered(parts[i].scripts)) >= c.dataShards;
      && AllWanted(c, unit, ps, ds) == wanted + AllWanted(c, unit, ps', ds')
      && PartsReadable(c, unit, ps, ds)
         == (if opens then Joined(Readable(c, unit, Offered(parts[i].scripts), wanted), |wanted|, PartsReadable(c, unit, ps', ds')) else 0)
      && (AllOpen(c, ps) <==> opens && AllOpen(c, ps'))
  {
    OpenTail(c, parts[i..]);
    assert parts[i..][1..] == parts[i + 1..] && payloads[i..][1..] == payloads[i + 1..];
  }

  lemma OpenTail(c: Code, ps: seq<PartSource>)
    requires ps != []
    ensures AllOpen(c, ps) <==> CountSome(Offered(ps[0].scripts)) >= c.dataShards && AllOpen(c, ps[1..])
  {
    assert forall j :: 0 <= j < |ps| - 1 ==> ps[1..][j] == ps[j + 1];
    if AllOpen(c, ps[1..]) {
      assert forall j :: 1 <= j < |ps| ==> ps[j] == ps[1..][j - 1];
    }
  }

  lemma {:induction false} SameOpens(scripts: seq<Option<seq<Event>>>)
    ensures CountSome(scripts) == CountSome(Offered(scripts))
  {
    if scripts != [] {
      SameOpens(scripts[1..]);
      assert Offered(scripts)[1..] == Offered(scripts[1..]);
    }
  }

  /** Every part the first `need` bytes come from opens on D backends, and every
      stripe they come from has D live sources when its turn comes. */
  ghost predicate NeededLive(c: Code, unit: nat, sd: nat, ps: seq<PartSource>, payloads: seq<Bytes>, need: nat)
    requires |ps| == |payloads|
  {
    need == 0 ||
    (&& ps != []
     && CountSome(Offered(ps[0].scripts)) >= c.dataShards
     && var own := Min(need, |Wanted(c, unit, ps[0], payloads[0])|);
        && StripesLive(c, unit, sd, Offered(ps[0].scripts), own)
        && NeededLive(c, unit, sd, ps[1..], payloads[1..], need - own))
  }

  /** Counting readable bytes and asking which parts and stripes are live is the same. */
  lemma {:induction false} ReadableIffNeededLive(c: Code, unit: nat, sd: nat, ps: seq<PartSource>, payloads: seq<Bytes>, need: nat)
    requires |ps| == |payloads| && sd == c.dataShards * unit > 0
    requires need <= |AllWanted(c, unit, ps, payloads)|
    ensures need <= PartsReadable(c, unit, ps, payloads) <==> NeededLive(c, unit, sd, ps, payloads, need)
    decreases |ps|
  {
    if need > 0 && CountSome(Offered(ps[0].scripts)) >= c.dataShards {
      var wanted := Wanted(c, unit, ps[0], payloads[0]);
      var own := Min(need, |wanted|);
      ReadableIffLive(c, unit, sd, Offered(ps[0].scripts), wanted, own);
      ReadableIffNeededLive(c, unit, sd, ps[1..], payloads[1..], need - own);
    }
  }

  // ----- Skip and take

  predicate NoEmptyFrame(frames: seq<Bytes>) {
    forall i :: 0 <= i < |frames| ==> frames[i] != []
  }

  /** The stream behind a GET: the inline rope, or the parts of an erasure-coded
      object. A reader takes an empty frame as the end, so a rope has none: the
      metadata decoder yields at most one frame, of positive length. */
  class ByteStream {
    var frames: seq<Bytes>
    const parts: MultiPartEcStream?
    /** The bytes still to come, how many of them can be read, and whether the
        parts they come from all open. */
    ghost var pending: Bytes
    ghost var readable: nat
    ghost var allOpen: bool

    ghost function Repr(): set<object>
      reads this, parts
    {
      {this} + (if parts == null then {} else {parts} + if parts.current == null then {} else {parts.current})
    }

    ghost predicate Valid()
      reads this, parts, Repr()
    {
      if parts == null then NoEmptyFrame(frames) && pending == Concat(frames) && readable == |pending| && allOpen
      else parts.Valid() && pending == parts.pending && readable == parts.CanRead() && allOpen == parts.aheadOpen
    }

    constructor Rope(rope: seq<Bytes>)
      requires NoEmptyFrame(rope)
      ensures Valid() && parts == null && fresh(Repr()) && pending == Concat(rope) && readable == |pending| && allOpen
    {
      frames, parts, pending, readable, allOpen := rope, null, Concat(rope), |Concat(rope)|, true;
    }

    constructor Parts(stream: MultiPartEcStream)
      requires stream.Valid()
      ensures Valid() && parts == stream && pending == stream.pending && readable == stream.CanRead() && allOpen == stream.aheadOpen
    {
      frames, parts, pending, readable, allOpen := [], stream, stream.pending, stream.CanRead(), stream.aheadOpen;
    }

    /** `frames.pop_front().unwrap_or_default()`. */
    method PopFrame() returns (frame: Bytes)
      requires parts == null && Valid()
      modifies this
      ensures Valid() && frame + pending == old(pending)
      ensures frame == [] <==> old(pending) == []
    {
      allOpen := true;
      if frames == [] {
        return [];
      }
      frame := frames[0];
      frames := frames[1..];
      pending, readable := Concat(frames), |Concat(frames)|;
    }

    method Read() returns (r: Result<Bytes, ReadError>)
      requires Valid()
      modifies Repr()
      ensures r.Ok? ==>
        && Valid() && fresh(Repr() - old(Repr()))
        && r.value + pending == old(pending)
        && (r.value == [] <==> old(pending) == [])
        && |r.value| + readable == old(readable) && allOpen == old(allOpen)
        && (r.value == [] ==> allOpen)
      ensures r.Err? ==> old(readable) == 0 && parts != null && (old(pending) != [] || !old(allOpen))
    {
      hide MultiPartEcStream.Valid;
      if parts == null {
        var frame := PopFrame();
        return Ok(frame);
      }
      r := parts.Read();
      if r.Ok? {
        pending, readable, allOpen := parts.pending, parts.CanRead(), parts.aheadOpen;
      }
    }
  }

  /** The bytes of `p` after `skip`, at most `take` of them. */
  function Window(p: Bytes, skip: nat, take: nat): Bytes {
    if skip >= |p| then [] else p[skip..Min(skip + take, |p|)]
  }

  /** What skip and take make of one non-empty chunk: None when it is skipped
      whole, and the counters afterwards. */
  predicate CutTo(c: Bytes, skip: nat, take: nat, frame: Option<Bytes>, skip': nat, take': nat) {
    if skip >= |c| then frame.None? && skip' == skip - |c| && take' == take
    else
      var n := Min(take, |c| - skip);
      frame == Some(c[skip..skip + n]) && skip' == 0 && take' == take - n
  }

  function Frame(f: Option<Bytes>): Bytes {
    if f.Some? then f.value else []
  }

  lemma WindowCut(whole: Bytes, c: Bytes, p: Bytes, skip: nat, take: nat, frame: Option<Bytes>, skip': nat, take': nat)
    requires whole == c + p && CutTo(c, skip, take, frame, skip', take')
    ensures frame.Some? ==> Window(whole, skip, take) == frame.value + Window(p, skip', take')
    ensures frame.None? ==> Window(whole, skip, take) == Window(p, skip', take')
  {
    if frame.Some? {
      var n := Min(take, |c| - skip);
      assert whole[skip..skip + n] == c[skip..skip + n];
      if take > n {
        var end := Min(skip + take, |whole|);
        assert whole[skip + n..end] == p[..end - |c|];
        assert whole[skip..end] == whole[skip..skip + n] + whole[skip + n..end];
      } else {
        assert Window(p, 0, 0) == [];
      }
    }
  }

  lemma EnoughCut(c: Bytes, readable: nat, skip: nat, take: nat, frame: Option<Bytes>, skip': nat, take': nat)
    requires take > 0 && CutTo(c, skip, take, frame, skip', take')
    ensures skip + take <= |c| + readable <==> take' == 0 || skip' + take' <= readable
  {
  }

  class SkipTakeStream {
    const inner: ByteStream
    var toSkip: nat
    var remaining: nat

    constructor (stream: ByteStream, skip: nat, take: nat)
      ensures inner == stream && toSkip == skip && remaining == take
    {
      inner, toSkip, remaining := stream, skip, take;
    }

    ghost predicate Valid()
      reads this, inner, inner.parts, inner.Repr()
    {
      this !in inner.Repr() && inner.Valid()
    }

    /** What is still to be delivered. */
    ghost function Due(): Bytes
      reads this, inner
    {
      Window(inner.pending, toSkip, remaining)
    }

    /** Everything up to the end of the window can be read. */
    ghost predicate Enough()
      reads this, inner
    {
      remaining == 0 || toSkip + remaining <= inner.readable
    }

    /** Applies skip and take to one non-empty chunk. */
    method Cut(c: Bytes) returns (frame: Option<Bytes>)
      modifies this
      ensures CutTo(c, old(toSkip), old(remaining), frame, toSkip, remaining)
    {
      if toSkip >= |c| {
        toSkip := toSkip - |c|;
        return None;
      }
      var kept := c[toSkip..];
      var take := Min(remaining, |kept|);
      assert kept[..take] == c[toSkip..toSkip + take];
      toSkip := 0;
      remaining := remaining - take;
      assert take == |kept| ==> kept == kept[..take];
      return Some(if take == |kept| then kept else kept[..take]);
    }

    /** Reads one chunk and cuts it: Ok(None) when it was skipped whole. */
    method Step() returns (r: Result<Option<Bytes>, ReadError>)
      requires Valid() && remaining > 0
      modifies this, inner.Repr()
      ensures r.Ok? ==> Valid() && fresh(inner.Repr() - old(inner.Repr()))
      ensures r.Ok? && r.value.Some? ==> r.value.value + Due() == old(Due())
      ensures r.Ok? && r.value.None? ==> Due() == old(Due())
      ensures r.Ok? ==> (Enough() <==> old(Enough()))
      ensures r.Ok? && r.value.None? ==> |inner.pending| < |old(inner.pending)|
      ensures r.Ok? ==> remaining == old(remaining) - |Frame(r.value)|
      ensures r.Ok? && r.value == Some([]) ==> old(Due()) == []
      ensures r.Err? ==> !old(Enough())
    {
      hide ByteStream.Valid;
      ghost var before, skip, take := inner.pending, toSkip, remaining;
      var chunk := inner.Read();
      if chunk.Err? {
        return Err(chunk.error);
      }
      if chunk.value == [] {
        return Ok(Some([]));
      }
      var frame := Cut(chunk.value);
      WindowCut(before, chunk.value, inner.pending, skip, take, frame, toSkip, remaining);
      EnoughCut(chunk.value, inner.readable, skip, take, frame, toSkip, remaining);
      return Ok(frame);
    }

    /** One `read` call. It loops over chunks that fall inside the skipped part. */
    method Read() returns (r: Result<Bytes, ReadError>)
      requires Valid()
      modifies this, inner.Repr()
      ensures r.Ok? ==> Valid() && fresh(inner.Repr() - old(inner.Repr()))
      ensures r.Ok? ==> r.value + Due() == old(Due()) && (r.value == [] ==> old(Due()) == [])
      ensures r.Ok? ==> (Enough() <==> old(Enough()))
      ensures r.Ok? && |old(Due())| == old(remaining) ==> |Due()| == remaining
      ensures r.Err? ==> !old(Enough())
    {
      hide ByteStream.Valid;
      while remaining > 0
        invariant Valid() && fresh(inner.Repr() - old(inner.Repr()))
        invariant Due() == old(Due()) && (Enough() <==> old(Enough()))
        invariant remaining == old(remaining)
        decreases |inner.pending|
      {
        var step := Step();
        if step.Err? {
          return Err(step.error);
        }
        if step.value.Some? {
          return Ok(step.value.value);
        }
      }
      return Ok([]);
    }
  }

  /** Drains a windowed stream. The result is the window; it fails iff some byte
      up to the window's end cannot be read. */
  method DrainWindow(stream: SkipTakeStream) returns (r: Result<Bytes, ReadError>)
    requires stream.Valid() && stream.toSkip + stream.remaining <= |stream.inner.pending|
    modifies stream, stream.inner.Repr()
    ensures r.Ok? <==> old(stream.Enough())
    ensures r.Ok? ==> r.value == old(stream.Due())
  {
    hide ByteStream.Valid;
    ghost var goal, enough := stream.Due(), stream.Enough();
    var out: Bytes := [];
    while true
      invariant stream.Valid() && fresh(stream.inner.Repr() - old(stream.inner.Repr()))
      invariant out + stream.Due() == goal && stream.Enough() == enough
      invariant |stream.Due()| == stream.remaining
      decreases |stream.Due()|
    {
      ghost var due := stream.Due();
      var frame := stream.Read();
      if frame.Err? {
        return Err(frame.error);
      }
      if frame.value == [] {
        return Ok(out);
      }
      AppendFrame(out, frame.value, stream.Due(), due, goal);
      out := out + frame.value;
    }
  }

  /** Drains a stream to its end. A success is everything that was pending; it
      fails iff some of that cannot be read or some part does not open. */
  method DrainAll(stream: ByteStream) returns (r: Result<Bytes, ReadError>)
    requires stream.Valid() && stream.readable <= |stream.pending|
    modifies stream.Repr()
    ensures r.Ok? <==> old(stream.readable) == |old(stream.pending)| && old(stream.allOpen)
    ensures r.Ok? ==> r.value == old(stream.pending)
  {
    hide ByteStream.Valid;
    ghost var goal, lost, open := stream.pending, |stream.pending| - stream.readable, stream.allOpen;
    var out: Bytes := [];
    while true
      invariant stream.Valid() && fresh(stream.Repr() - old(stream.Repr()))
      invariant out + stream.pending == goal
      invariant |stream.pending| - stream.readable == lost && stream.allOpen == open
      decreases |stream.pending|
    {
      ghost var before := stream.pending;
      var frame := stream.Read();
      if frame.Err? {
        return Err(frame.error);
      }
      if frame.value == [] {
        return Ok(out);
      }
      AppendFrame(out, frame.value, stream.pending, before, goal);
      out := out + frame.value;
    }
  }

  lemma AppendFrame(out: Bytes, frame: Bytes, due: Bytes, before: Bytes, goal: Bytes)
    requires frame + due == before && out + before == goal
    ensures out + frame + due == goal
  {
  }
}
