/** The read side of the engine put together: range, seek, degraded decode and
    skip/take against the shard files a PUT left behind
    (crates/openlake_storage/src/engine.rs:1104-1252, 2051-2114). */
module GetObject {
  import opened Bytes
  import opened ErasureCode
  import opened StripeLayout
  import opened StripeWrite
  import opened EcRead
  import opened RangedGet

  /** What each backend's `read_file_stream` returns for part `j` opened at
      stripe `s`: None when the open fails, else its chunks and failures. */
  type Backends = (nat, nat) -> seq<Option<seq<Event>>>

  ghost predicate StoredPart(c: Code, unit: nat, shards: seq<Bytes>, payload: Bytes)
    requires ParityShape(c) && unit > 0
  {
    && |shards| == c.Total()
    && forall i :: 0 <= i < c.Total() ==> shards[i] == ShardFile(c, payload, unit, i)
  }

  /** The shard files of all parts are the ones the PUT loop writes. */
  ghost predicate Stored(c: Code, unit: nat, files: seq<seq<Bytes>>, payloads: seq<Bytes>) {
    && ParityShape(c) && unit > 0
    && |files| == |payloads|
    && forall j :: 0 <= j < |files| ==> StoredPart(c, unit, files[j], payloads[j])
  }

  predicate SeekOk(size: nat, sd: nat, s: nat) {
    s == 0 || s * sd < size
  }

  /** A backend may fail to open, fail half-way or stop early, and may chunk as it
      likes, but what it delivers is what the file holds in the opened range. */
  ghost predicate Delivers(c: Code, unit: nat, sd: nat, files: seq<seq<Bytes>>, sizes: seq<nat>, open: Backends) {
    && sd > 0 && |files| == |sizes|
    && forall j: nat, s: nat {:trigger open(j, s)} :: j < |sizes| && SeekOk(sizes[j], sd, s) ==>
         && |open(j, s)| == c.Total() == |files[j]|
         && forall i :: 0 <= i < c.Total() && open(j, s)[i].Some? ==>
              InRange(Content(open(j, s)[i].value), files[j][i], s * unit, (NumStripes(sizes[j], sd) - s) * unit)
  }

  /** `got` is a prefix of file[off..off + len], and that range is inside the file. */
  predicate InRange(got: Bytes, file: Bytes, off: nat, len: int) {
    0 <= len && off + len <= |file| && got <= file[off..off + len]
  }

  /** The offset and length the read side asks for stay inside every shard file
      and reach exactly to its end. */
  lemma ShardRangeInFile(c: Code, payload: Bytes, unit: nat, sd: nat, i: nat, s: nat)
    requires ParityShape(c) && unit > 0 && i < c.Total() && sd == c.dataShards * unit > 0
    requires SeekOk(|payload|, sd, s)
    ensures s <= NumStripes(|payload|, sd)
    ensures s * unit + (NumStripes(|payload|, sd) - s) * unit == |ShardFile(c, payload, unit, i)|
  {
    SeekCount(|payload|, sd, s);
    ShardFileLength(c, payload, unit, i);
    var n := NumStripes(|payload|, sd);
    assert s * unit + (n - s) * unit == n * unit;
  }

  function PartSources(sizes: seq<nat>, open: Backends, startPart: nat, startStripe: nat): (ps: seq<PartSource>)
    requires startPart <= |sizes|
    ensures |ps| == |sizes| - startPart
  {
    seq(|sizes| - startPart, j requires 0 <= j < |sizes| - startPart =>
      var s := if j == 0 then startStripe else 0;
      PartSource(sizes[startPart + j], s, open(startPart + j, s)))
  }

  ghost predicate SizesOf(sizes: seq<nat>, payloads: seq<Bytes>) {
    |sizes| == |payloads| && forall j :: 0 <= j < |sizes| ==> sizes[j] == |payloads[j]|
  }

  lemma PrefixToEnd(got: Bytes, file: Bytes, off: nat, len: nat)
    requires InRange(got, file, off, len) && off + len == |file|
    ensures got <= file[off..]
  {
    assert file[off..off + len] == file[off..];
  }

  /** What a backend delivers of its file is a prefix of the remaining file. */
  lemma ShardFaithful(c: Code, payload: Bytes, unit: nat, sd: nat, i: nat, s: nat, got: Bytes)
    requires ParityShape(c) && unit > 0 && i < c.Total() && sd == c.dataShards * unit > 0
    requires SeekOk(|payload|, sd, s)
    requires InRange(got, ShardFile(c, payload, unit, i), s * unit, (NumStripes(|payload|, sd) - s) * unit)
    ensures s * sd <= |payload| && got <= ShardFile(c, payload[s * sd..], unit, i)
  {
    ShardRangeInFile(c, payload, unit, sd, i, s);
    PrefixToEnd(got, ShardFile(c, payload, unit, i), s * unit, (NumStripes(|payload|, sd) - s) * unit);
    SeekStripes(c, payload, unit, sd, i, s);
  }

  /** Streams over stored files satisfy what the reader needs of a part. */
  lemma PartOkFromFiles(c: Code, unit: nat, sd: nat, file: seq<Bytes>, payload: Bytes, p: PartSource)
    requires ParityShape(c) && unit > 0 && sd == c.dataShards * unit > 0
    requires p.actualSize == |payload| && SeekOk(|payload|, sd, p.start)
    requires StoredPart(c, unit, file, payload) && |p.scripts| == c.Total()
    requires forall i :: 0 <= i < c.Total() && p.scripts[i].Some? ==>
      InRange(Content(p.scripts[i].value), file[i], p.start * unit, (NumStripes(|payload|, sd) - p.start) * unit)
    ensures PartOk(c, unit, p, payload)
  {
    SeekCount(|payload|, sd, p.start);
    forall i | 0 <= i < c.Total() && p.scripts[i].Some?
      ensures Content(p.scripts[i].value) <= ShardFile(c, payload[p.start * sd..], unit, i)
    {
      ShardFaithful(c, payload, unit, sd, i, p.start, Content(p.scripts[i].value));
    }
  }

  lemma SourcesOk(c: Code, unit: nat, sd: nat, files: seq<seq<Bytes>>, payloads: seq<Bytes>, sizes: seq<nat>,
                  open: Backends, startPart: nat, startStripe: nat)
    requires Stored(c, unit, files, payloads) && SizesOf(sizes, payloads)
    requires sd == c.dataShards * unit > 0 && Delivers(c, unit, sd, files, sizes, open)
    requires startPart < |sizes| && SeekOk(sizes[startPart], sd, startStripe)
    ensures PartsOk(c, unit, PartSources(sizes, open, startPart, startStripe), payloads[startPart..])
  {
    var ps := PartSources(sizes, open, startPart, startStripe);
    forall j | 0 <= j < |ps|
      ensures PartOk(c, unit, ps[j], payloads[startPart..][j])
    {
      var k := startPart + j;
      assert SeekOk(sizes[k], sd, ps[j].start);
      var _ := open(k, ps[j].start);
      PartOkFromFiles(c, unit, sd, files[k], payloads[k], ps[j]);
    }
  }

  // ----- The stream's bytes are a suffix of the object

  lemma {:induction false} ConcatPrefixLength(payloads: seq<Bytes>, sizes: seq<nat>, k: nat)
    requires SizesOf(sizes, payloads) && k <= |sizes|
    ensures |Concat(payloads[..k])| == TotalSize(sizes[..k])
  {
    if k > 0 {
      ConcatPrefixLength(payloads, sizes, k - 1);
      assert payloads[..k] == payloads[..k - 1] + [payloads[k - 1]];
      ConcatAppend(payloads[..k - 1], [payloads[k - 1]]);
      TotalSizeSnoc(sizes, k - 1);
    }
  }

  /** Parts read from their first stripe on give all their bytes. */
  lemma {:induction false} AllFromStart(c: Code, unit: nat, ps: seq<PartSource>, payloads: seq<Bytes>)
    requires |ps| == |payloads| && forall j :: 0 <= j < |ps| ==> ps[j].start == 0
    ensures AllWanted(c, unit, ps, payloads) == Concat(payloads)
  {
    if ps != [] {
      AllFromStart(c, unit, ps[1..], payloads[1..]);
      assert payloads[0][0..] == payloads[0];
    }
  }

  lemma FirstFromSeek(c: Code, unit: nat, sd: nat, payloads: seq<Bytes>, sizes: seq<nat>, open: Backends, start: nat, s: nat)
    requires SizesOf(sizes, payloads) && start < |sizes| && sd == c.dataShards * unit
    requires s * sd <= sizes[start]
    ensures AllWanted(c, unit, PartSources(sizes, open, start, s), payloads[start..])
         == payloads[start][s * sd..] + Concat(payloads[start + 1..])
  {
    var ps := PartSources(sizes, open, start, s);
    assert payloads[start..][1..] == payloads[start + 1..];
    AllFromStart(c, unit, ps[1..], payloads[start + 1..]);
  }

  lemma SuffixFrom(payloads: seq<Bytes>, sizes: seq<nat>, start: nat, n: nat)
    requires SizesOf(sizes, payloads) && start < |sizes| && n <= sizes[start]
    ensures TotalSize(sizes[..start]) + n <= |Concat(payloads)|
    ensures Concat(payloads)[TotalSize(sizes[..start]) + n..] == payloads[start][n..] + Concat(payloads[start + 1..])
  {
    var first, tail := payloads[start], payloads[start + 1..];
    ConcatPrefixLength(payloads, sizes, start);
    assert payloads == payloads[..start] + ([first] + tail);
    ConcatAppend(payloads[..start], [first] + tail);
    assert ([first] + tail)[1..] == tail;
    SuffixOf(Concat(payloads[..start]), first, Concat(tail), n);
  }

  lemma StreamIsSuffix(c: Code, unit: nat, sd: nat, payloads: seq<Bytes>, sizes: seq<nat>, open: Backends, start: nat, s: nat)
    requires SizesOf(sizes, payloads) && start < |sizes| && sd == c.dataShards * unit
    requires s * sd <= sizes[start]
    ensures TotalSize(sizes[..start]) + s * sd <= |Concat(payloads)|
    ensures AllWanted(c, unit, PartSources(sizes, open, start, s), payloads[start..])
         == Concat(payloads)[TotalSize(sizes[..start]) + s * sd..]
  {
    FirstFromSeek(c, unit, sd, payloads, sizes, open, start, s);
    SuffixFrom(payloads, sizes, start, s * sd);
  }

  lemma SuffixOf(a: Bytes, b: Bytes, c: Bytes, n: nat)
    requires n <= |b|
    ensures (a + (b + c))[|a| + n..] == b[n..] + c
  {
  }

  // ----- Which streams a GET needs

  /** The backends whose stream was opened and delivers at least n bytes. */
  ghost function Delivering(scripts: seq<Option<seq<Event>>>, n: nat): set<nat> {
    set i: nat | i < |scripts| && scripts[i].Some? && |Content(scripts[i].value)| >= n
  }

  /** The stripe at which part j is opened by a read that starts at `stripe` of `part`. */
  function OpenedAt(part: nat, stripe: nat, j: nat): nat {
    if j == part then stripe else 0
  }

  /** Part j opens on D backends, and for every stripe of it that starts before
      position `end` of the part, D of them deliver all bytes up to the stripe's end. */
  ghost predicate PartDelivers(c: Code, unit: nat, sd: nat, size: nat, s: nat, scripts: seq<Option<seq<Event>>>, end: int) {
    && |Delivering(scripts, 0)| >= c.dataShards
    && forall k: nat {:trigger Delivering(scripts, (k + 1) * unit)} :: (s + k) * sd < size && (s + k) * sd < end ==>
         |Delivering(scripts, (k + 1) * unit)| >= c.dataShards
  }

  /** Every part that holds bytes before position `end` of the object, from the one
      the read starts in, delivers its stripes up to there. */
  ghost predicate StreamsDeliver(c: Code, unit: nat, sd: nat, sizes: seq<nat>, open: Backends, part: nat, stripe: nat, end: nat) {
    forall j: nat {:trigger open(j, OpenedAt(part, stripe, j))} :: part <= j < |sizes| && (j == part || TotalSize(sizes[..j]) < end) ==>
      PartDelivers(c, unit, sd, sizes[j], OpenedAt(part, stripe, j), open(j, OpenedAt(part, stripe, j)), end - TotalSize(sizes[..j]))
  }

  /** Every part from the given one on opens on D backends. */
  ghost predicate PartsOpen(c: Code, sizes: seq<nat>, open: Backends, part: nat, stripe: nat) {
    forall j: nat {:trigger open(j, OpenedAt(part, stripe, j))} :: part <= j < |sizes| ==>
      |Delivering(open(j, OpenedAt(part, stripe, j)), 0)| >= c.dataShards
  }

  lemma DeliveringIs(scripts: seq<Option<seq<Event>>>, n: nat)
    ensures Delivering(scripts, n) == Reaching(Offered(scripts), n)
    ensures CountSome(Offered(scripts)) == |Delivering(scripts, 0)|
  {
    hide Content;
    assert forall i: nat :: i in Delivering(scripts, 0) <==> i < |Offered(scripts)| && Offered(scripts)[i].Some?;
    CountIsSize(Offered(scripts), Delivering(scripts, 0));
  }

  /** One part, in the terms of its stream. */
  lemma PartDeliversIs(c: Code, unit: nat, sd: nat, size: nat, s: nat, scripts: seq<Option<seq<Event>>>, own: nat, end: int)
    requires s * sd <= size && own == (if end <= s * sd then 0 else if end <= size then end - s * sd else size - s * sd)
    ensures PartDelivers(c, unit, sd, size, s, scripts, end) <==>
      CountSome(Offered(scripts)) >= c.dataShards && StripesLive(c, unit, sd, Offered(scripts), own)
  {
    hide Delivering, Reaching, CountSome;
    DeliveringIs(scripts, 0);
    if PartDelivers(c, unit, sd, size, s, scripts, end) {
      forall k: nat | k * sd < own
        ensures |Reaching(Offered(scripts), (k + 1) * unit)| >= c.dataShards
      {
        DeliveringIs(scripts, (k + 1) * unit);
        assert (s + k) * sd == s * sd + k * sd;
      }
    }
    if StripesLive(c, unit, sd, Offered(scripts), own) {
      forall k: nat {:trigger Delivering(scripts, (k + 1) * unit)} | (s + k) * sd < size && (s + k) * sd < end
        ensures |Delivering(scripts, (k + 1) * unit)| >= c.dataShards
      {
        DeliveringIs(scripts, (k + 1) * unit);
        assert (s + k) * sd == s * sd + k * sd && k * sd < own;
      }
    }
  }

  lemma {:induction false} TotalGrows(sizes: seq<nat>, i: nat, j: nat)
    requires i <= j <= |sizes|
    ensures TotalSize(sizes[..i]) <= TotalSize(sizes[..j])
    decreases j
  {
    if i < j {
      TotalGrows(sizes, i, j - 1);
      TotalSizeSnoc(sizes, j - 1);
    }
  }

  lemma NextSources(sizes: seq<nat>, open: Backends, part: nat, stripe: nat)
    requires part < |sizes|
    ensures PartSources(sizes, open, part, stripe)[1..] == PartSources(sizes, open, part + 1, 0)
  {
  }

  /** The parts a read goes through are those that hold bytes before its end. */
  lemma StreamsSplit(c: Code, unit: nat, sd: nat, sizes: seq<nat>, open: Backends, part: nat, stripe: nat, end: nat)
    requires part < |sizes|
    ensures
      var next := TotalSize(sizes[..part + 1]);
      StreamsDeliver(c, unit, sd, sizes, open, part, stripe, end) <==>
        && PartDelivers(c, unit, sd, sizes[part], stripe, open(part, stripe), end - TotalSize(sizes[..part]))
        && (next < end ==> StreamsDeliver(c, unit, sd, sizes, open, part + 1, 0, end))
  {
    hide PartDelivers, TotalSize;
    var next := TotalSize(sizes[..part + 1]);
    if StreamsDeliver(c, unit, sd, sizes, open, part, stripe, end) {
      var _ := open(part, OpenedAt(part, stripe, part));
      forall j: nat {:trigger open(j, OpenedAt(part + 1, 0, j))} | next < end && part + 1 <= j < |sizes| && (j == part + 1 || TotalSize(sizes[..j]) < end)
        ensures PartDelivers(c, unit, sd, sizes[j], 0, open(j, OpenedAt(part + 1, 0, j)), end - TotalSize(sizes[..j]))
      {
        var _ := open(j, OpenedAt(part, stripe, j));
      }
    } else {
      var j: nat :| part <= j < |sizes| && (j == part || TotalSize(sizes[..j]) < end)
        && !PartDelivers(c, unit, sd, sizes[j], OpenedAt(part, stripe, j), open(j, OpenedAt(part, stripe, j)), end - TotalSize(sizes[..j]));
      if j > part {
        TotalGrows(sizes, part + 1, j);
        var _ := open(j, OpenedAt(part + 1, 0, j));
      }
    }
  }

  /** What the parts' streams must deliver for `need` bytes from the sought stripe on. */
  lemma {:induction false} NeededIsDelivered(c: Code, unit: nat, sd: nat, sizes: seq<nat>, payloads: seq<Bytes>, open: Backends,
                                             part: nat, stripe: nat, need: nat)
    requires SizesOf(sizes, payloads) && sd == c.dataShards * unit && part < |sizes| && stripe * sd <= sizes[part]
    requires 0 < need && TotalSize(sizes[..part]) + stripe * sd + need <= TotalSize(sizes)
    ensures NeededLive(c, unit, sd, PartSources(sizes, open, part, stripe), payloads[part..], need) <==>
      StreamsDeliver(c, unit, sd, sizes, open, part, stripe, TotalSize(sizes[..part]) + stripe * sd + need)
    decreases |sizes| - part
  {
    hide PartDelivers, StripesLive, StreamsDeliver, TotalSize, CountSome;
    var size, start := sizes[part], TotalSize(sizes[..part]);
    var end, own := start + stripe * sd + need, Min(need, size - stripe * sd);
    TotalSizeSnoc(sizes, part);
    NextSources(sizes, open, part, stripe);
    assert payloads[part..][1..] == payloads[part + 1..];
    PartDeliversIs(c, unit, sd, size, stripe, open(part, stripe), own, end - start);
    StreamsSplit(c, unit, sd, sizes, open, part, stripe, end);
    if own < need {
      assert start + size < end;
      LastPart(sizes, part);
      NeededIsDelivered(c, unit, sd, sizes, payloads, open, part + 1, 0, need - own);
    }
  }

  lemma LastPart(sizes: seq<nat>, part: nat)
    requires part < |sizes| && TotalSize(sizes[..part + 1]) < TotalSize(sizes)
    ensures part + 1 < |sizes|
  {
    assert sizes[..|sizes|] == sizes;
  }

  lemma OpenIsOpen(c: Code, sizes: seq<nat>, open: Backends, part: nat, stripe: nat)
    requires part < |sizes|
    ensures AllOpen(c, PartSources(sizes, open, part, stripe)) <==> PartsOpen(c, sizes, open, part, stripe)
  {
    hide CountSome, Delivering;
    var ps := PartSources(sizes, open, part, stripe);
    forall j | part <= j < |sizes|
      ensures CountSome(Offered(ps[j - part].scripts)) == |Delivering(open(j, OpenedAt(part, stripe, j)), 0)|
    {
      DeliveringIs(open(j, OpenedAt(part, stripe, j)), 0);
    }
    if AllOpen(c, ps) {
      forall j: nat {:trigger open(j, OpenedAt(part, stripe, j))} | part <= j < |sizes|
        ensures |Delivering(open(j, OpenedAt(part, stripe, j)), 0)| >= c.dataShards
      {
        assert CountSome(Offered(ps[j - part].scripts)) >= c.dataShards;
      }
    }
    if PartsOpen(c, sizes, open, part, stripe) {
      forall i | 0 <= i < |ps|
        ensures CountSome(Offered(ps[i].scripts)) >= c.dataShards
      {
        var _ := open(part + i, OpenedAt(part, stripe, part + i));
      }
    }
  }

  // ----- Healthy backends deliver

  /** The backends that deliver all of their shard file from offset `off` on. */
  ghost function WholeStreams(scripts: seq<Option<seq<Event>>>, shards: seq<Bytes>, off: nat): set<nat> {
    set i: nat | i < |scripts| && i < |shards| && scripts[i].Some? && off <= |shards[i]| && Content(scripts[i].value) == shards[i][off..]
  }

  /** Wherever a part is opened, D backends deliver their whole file from there. */
  ghost predicate Healthy(c: Code, unit: nat, sd: nat, files: seq<seq<Bytes>>, sizes: seq<nat>, open: Backends) {
    |files| == |sizes| && forall j: nat, s: nat {:trigger open(j, s)} :: j < |sizes| && SeekOk(sizes[j], sd, s) ==>
      |WholeStreams(open(j, s), files[j], s * unit)| >= c.dataShards
  }

  lemma WholeDelivers(scripts: seq<Option<seq<Event>>>, shards: seq<Bytes>, off: nat, len: nat, n: nat)
    requires (forall i :: 0 <= i < |shards| ==> |shards[i]| == len) && off + n <= len
    ensures |WholeStreams(scripts, shards, off)| <= |Delivering(scripts, n)|
  {
    hide Content;
    assert WholeStreams(scripts, shards, off) <= Delivering(scripts, n);
    SubsetSize(WholeStreams(scripts, shards, off), Delivering(scripts, n));
  }

  lemma Below(a: nat, b: nat, sd: nat)
    requires a * sd < b * sd
    ensures a < b
  {
    if a >= b {
      Scaled(b, a, sd);
    }
  }

  lemma Scaled(a: nat, b: nat, unit: nat)
    requires a <= b
    ensures a * unit <= b * unit
  {
    assert (b - a) * unit >= 0;
    assert b * unit == a * unit + (b - a) * unit;
  }

  /** A stripe that starts inside the part ends inside its shard files. */
  lemma StripeInside(size: nat, sd: nat, unit: nat, s: nat, k: nat)
    requires sd > 0 && (s + k) * sd < size
    ensures s * unit + (k + 1) * unit <= NumStripes(size, sd) * unit
  {
    hide NumStripes;
    var n := NumStripes(size, sd);
    NumStripesIsCeiling(size, sd);
    Below(s + k, n, sd);
    Scaled(s + k + 1, n, unit);
    assert s * unit + (k + 1) * unit == (s + k + 1) * unit;
  }

  lemma HealthyPart(c: Code, unit: nat, sd: nat, payload: Bytes, shards: seq<Bytes>, s: nat, scripts: seq<Option<seq<Event>>>, end: int)
    requires ParityShape(c) && unit > 0 && sd == c.dataShards * unit > 0 && SeekOk(|payload|, sd, s) && StoredPart(c, unit, shards, payload)
    requires |WholeStreams(scripts, shards, s * unit)| >= c.dataShards
    ensures PartDelivers(c, unit, sd, |payload|, s, scripts, end)
  {
    hide WholeStreams, Delivering, ShardFile, NumStripes, ParityShape;
    var n := NumStripes(|payload|, sd);
    SeekCount(|payload|, sd, s);
    Scaled(s, n, unit);
    forall i | 0 <= i < |shards|
      ensures |shards[i]| == n * unit
    {
      ShardFileLength(c, payload, unit, i);
    }
    WholeDelivers(scripts, shards, s * unit, n * unit, 0);
    forall k: nat {:trigger Delivering(scripts, (k + 1) * unit)} | (s + k) * sd < |payload| && (s + k) * sd < end
      ensures |Delivering(scripts, (k + 1) * unit)| >= c.dataShards
    {
      StripeInside(|payload|, sd, unit, s, k);
      WholeDelivers(scripts, shards, s * unit, n * unit, (k + 1) * unit);
    }
  }

  /** Backends of which D deliver their whole files are all that a GET needs. */
  lemma HealthyDelivers(c: Code, unit: nat, sd: nat, files: seq<seq<Bytes>>, payloads: seq<Bytes>, sizes: seq<nat>, open: Backends,
                        part: nat, stripe: nat, end: nat)
    requires Stored(c, unit, files, payloads) && SizesOf(sizes, payloads) && sd == c.dataShards * unit > 0
    requires part < |sizes| && SeekOk(sizes[part], sd, stripe) && Healthy(c, unit, sd, files, sizes, open)
    ensures StreamsDeliver(c, unit, sd, sizes, open, part, stripe, end) && PartsOpen(c, sizes, open, part, stripe)
  {
    hide PartDelivers, Delivering, WholeStreams;
    forall j: nat {:trigger open(j, OpenedAt(part, stripe, j))} | part <= j < |sizes|
      ensures PartDelivers(c, unit, sd, sizes[j], OpenedAt(part, stripe, j), open(j, OpenedAt(part, stripe, j)), end - TotalSize(sizes[..j]))
      ensures |Delivering(open(j, OpenedAt(part, stripe, j)), 0)| >= c.dataShards
    {
      var s := OpenedAt(part, stripe, j);
      assert SeekOk(sizes[j], sd, s) && StoredPart(c, unit, files[j], payloads[j]);
      HealthyPart(c, unit, sd, payloads[j], files[j], s, open(j, s), end - TotalSize(sizes[..j]));
      DeliversOpens(c, unit, sd, sizes[j], s, open(j, s), end - TotalSize(sizes[..j]));
    }
  }

  lemma DeliversOpens(c: Code, unit: nat, sd: nat, size: nat, s: nat, scripts: seq<Option<seq<Event>>>, end: int)
    requires PartDelivers(c, unit, sd, size, s, scripts, end)
    ensures |Delivering(scripts, 0)| >= c.dataShards
  {
  }

  // ----- GET

  /** Reads `length` bytes of the parts after the first `skip`. */
  method ReadParts(c: Code, unit: nat, ps: seq<PartSource>, skip: nat, length: nat, ghost payloads: seq<Bytes>)
    returns (r: Result<Bytes, ReadError>)
    requires AnyDRestore(c) && unit > 0 && unit % 2 == 0 && c.dataShards * unit > 0
    requires PartsOk(c, unit, ps, payloads)
    requires length > 0 && skip + length <= |AllWanted(c, unit, ps, payloads)|
    ensures r.Ok? <==> skip + length <= PartsReadable(c, unit, ps, payloads)
    ensures r.Ok? ==> r.value == Window(AllWanted(c, unit, ps, payloads), skip, length)
  {
    hide AnyDRestore, PartsOk, AllWanted, PartsReadable, AllOpen, MultiPartEcStream.Valid;
    var parts := new MultiPartEcStream(c, unit, ps, payloads);
    var inner := new ByteStream.Parts(parts);
    var stream := new SkipTakeStream(inner, skip, length);
    r := DrainWindow(stream);
  }

  method ReadAllParts(c: Code, unit: nat, ps: seq<PartSource>, ghost payloads: seq<Bytes>)
    returns (r: Result<Bytes, ReadError>)
    requires AnyDRestore(c) && unit > 0 && unit % 2 == 0 && c.dataShards * unit > 0
    requires PartsOk(c, unit, ps, payloads)
    ensures r.Ok? <==> PartsReadable(c, unit, ps, payloads) == |AllWanted(c, unit, ps, payloads)| && AllOpen(c, ps)
    ensures r.Ok? ==> r.value == AllWanted(c, unit, ps, payloads)
  {
    hide AnyDRestore, PartOk, AllWanted, PartsReadable, AllOpen, MultiPartEcStream.Valid, ByteStream.Valid;
    var parts := new MultiPartEcStream(c, unit, ps, payloads);
    var stream := new ByteStream.Parts(parts);
    PartsReadableBound(c, unit, ps, payloads);
    r := DrainAll(stream);
  }

  /** Where the stripe holding byte `offset` starts in the object. */
  ghost predicate StartsAt(sizes: seq<nat>, sd: nat, offset: nat, part: nat, stripe: nat, base: nat) {
    && part < |sizes|
    && base == TotalSize(sizes[..part]) + stripe * sd
    && base <= offset < base + sd
    && offset < TotalSize(sizes[..part]) + sizes[part]
  }

  /** The part, the stripe inside it and the rest of the offset. */
  method Seek(sizes: seq<nat>, offset: nat, sd: nat)
    returns (part: nat, stripe: nat, sub: nat, ghost base: nat)
    requires sd > 0 && offset < TotalSize(sizes)
    ensures StartsAt(sizes, sd, offset, part, stripe, base) && base + sub == offset
    ensures stripe * sd <= sizes[part] && SeekOk(sizes[part], sd, stripe)
  {
    var intra;
    part, intra := FindStart(sizes, offset);
    stripe, sub := intra / sd, intra % sd;
    base := TotalSize(sizes[..part]) + stripe * sd;
    assert intra == stripe * sd + sub;
  }

  /** The stream opened for a window holds it, `sub` bytes in. */
  lemma WindowInStream(c: Code, unit: nat, sd: nat, files: seq<seq<Bytes>>, payloads: seq<Bytes>, sizes: seq<nat>,
                       open: Backends, part: nat, stripe: nat, base: nat, sub: nat, length: nat)
    requires Stored(c, unit, files, payloads) && SizesOf(sizes, payloads)
    requires sd == c.dataShards * unit > 0 && Delivers(c, unit, sd, files, sizes, open)
    requires part < |sizes| && SeekOk(sizes[part], sd, stripe) && stripe * sd <= sizes[part]
    requires base == TotalSize(sizes[..part]) + stripe * sd
    requires length > 0 && base + sub + length <= TotalSize(sizes)
    ensures PartsOk(c, unit, PartSources(sizes, open, part, stripe), payloads[part..])
    ensures TotalSize(sizes) == |Concat(payloads)|
    ensures
      var stream := AllWanted(c, unit, PartSources(sizes, open, part, stripe), payloads[part..]);
      && sub + length <= |stream|
      && Window(stream, sub, length) == Concat(payloads)[base + sub..base + sub + length]
    ensures
      var ps := PartSources(sizes, open, part, stripe);
      sub + length <= PartsReadable(c, unit, ps, payloads[part..])
      <==> StreamsDeliver(c, unit, sd, sizes, open, part, stripe, base + sub + length)
  {
    hide NeededLive, StreamsDeliver, PartsReadable, Delivers, Stored;
    SourcesOk(c, unit, sd, files, payloads, sizes, open, part, stripe);
    StreamIsSuffix(c, unit, sd, payloads, sizes, open, part, stripe);
    WholeLength(payloads, sizes);
    WindowOfSuffix(Concat(payloads), base, sub, length);
    ReadableIffNeededLive(c, unit, sd, PartSources(sizes, open, part, stripe), payloads[part..], sub + length);
    NeededIsDelivered(c, unit, sd, sizes, payloads, open, part, stripe, sub + length);
  }

  /** A satisfiable window of an erasure-coded object. Whatever the backends do,
      the result is exactly that slice of the object, or an error; and it succeeds
      iff the streams deliver every stripe from the one the window starts in up to
      the window's end, D of them in each part, as D healthy backends do. */
  method GetWindow(c: Code, unit: nat, blockSize: nat, sizes: seq<nat>, open: Backends, offset: nat, length: nat,
                   ghost files: seq<seq<Bytes>>, ghost payloads: seq<Bytes>)
    returns (r: Result<Bytes, ReadError>, ghost part: nat, ghost stripe: nat, ghost base: nat)
    requires AnyDRestore(c) && unit > 0 && unit % 2 == 0 && blockSize == c.dataShards * unit > 0
    requires Stored(c, unit, files, payloads) && SizesOf(sizes, payloads)
    requires Delivers(c, unit, blockSize, files, sizes, open)
    requires length > 0 && offset + length <= TotalSize(sizes)
    ensures TotalSize(sizes) == |Concat(payloads)|
    ensures r.Ok? ==> r.value == Concat(payloads)[offset..offset + length]
    ensures StartsAt(sizes, blockSize, offset, part, stripe, base)
    ensures r.Ok? <==> StreamsDeliver(c, unit, blockSize, sizes, open, part, stripe, offset + length)
    ensures Healthy(c, unit, blockSize, files, sizes, open) ==> r.Ok?
  {
    hide AnyDRestore, Stored, Delivers, StreamsDeliver, PartsOk, PartsReadable, Healthy;
    var startPart, startStripe, sub, begin := Seek(sizes, offset, blockSize);
    part, stripe, base := startPart, startStripe, begin;
    WindowInStream(c, unit, blockSize, files, payloads, sizes, open, startPart, startStripe, base, sub, length);
    r := ReadParts(c, unit, PartSources(sizes, open, startPart, startStripe), sub, length, payloads[startPart..]);
    if Healthy(c, unit, blockSize, files, sizes, open) {
      HealthyDelivers(c, unit, blockSize, files, payloads, sizes, open, startPart, startStripe, offset + length);
    }
  }

  lemma WholeLength(payloads: seq<Bytes>, sizes: seq<nat>)
    requires SizesOf(sizes, payloads)
    ensures |Concat(payloads)| == TotalSize(sizes)
  {
    ConcatPrefixLength(payloads, sizes, |sizes|);
    assert payloads[..|sizes|] == payloads && sizes[..|sizes|] == sizes;
  }

  lemma WindowOfSuffix(p: Bytes, base: nat, sub: nat, length: nat)
    requires base + sub + length <= |p| && length > 0
    ensures Window(p[base..], sub, length) == p[base + sub..base + sub + length]
  {
  }

  /** A GET without a range drains all parts to their end, so it needs all of them. */
  method GetWhole(c: Code, unit: nat, blockSize: nat, sizes: seq<nat>, open: Backends,
                  ghost files: seq<seq<Bytes>>, ghost payloads: seq<Bytes>)
    returns (r: Result<Bytes, ReadError>, ghost part: nat, ghost stripe: nat)
    requires AnyDRestore(c) && unit > 0 && unit % 2 == 0 && blockSize == c.dataShards * unit > 0
    requires Stored(c, unit, files, payloads) && SizesOf(sizes, payloads)
    requires Delivers(c, unit, blockSize, files, sizes, open)
    requires TotalSize(sizes) > 0
    ensures StartsAt(sizes, blockSize, 0, part, stripe, 0)
    ensures r.Ok? ==> r.value == Concat(payloads)
    ensures r.Ok? <==>
      && StreamsDeliver(c, unit, blockSize, sizes, open, part, stripe, TotalSize(sizes))
      && PartsOpen(c, sizes, open, part, stripe)
    ensures Healthy(c, unit, blockSize, files, sizes, open) ==> r.Ok?
  {
    hide AnyDRestore, Stored, Delivers, StreamsDeliver, PartsOpen, PartsOk, PartsReadable, AllOpen, Healthy;
    var startPart, startStripe, sub, base := Seek(sizes, 0, blockSize);
    part, stripe := startPart, startStripe;
    assert base == 0;
    WholeInStream(c, unit, blockSize, files, payloads, sizes, open, startPart, startStripe);
    r := ReadAllParts(c, unit, PartSources(sizes, open, startPart, startStripe), payloads[startPart..]);
    OpenIsOpen(c, sizes, open, startPart, startStripe);
    if Healthy(c, unit, blockSize, files, sizes, open) {
      HealthyDelivers(c, unit, blockSize, files, payloads, sizes, open, startPart, startStripe, TotalSize(sizes));
    }
  }

  lemma WholeInStream(c: Code, unit: nat, sd: nat, files: seq<seq<Bytes>>, payloads: seq<Bytes>, sizes: seq<nat>,
                      open: Backends, part: nat, stripe: nat)
    requires Stored(c, unit, files, payloads) && SizesOf(sizes, payloads)
    requires sd == c.dataShards * unit > 0 && Delivers(c, unit, sd, files, sizes, open)
    requires TotalSize(sizes) > 0 && StartsAt(sizes, sd, 0, part, stripe, 0) && SeekOk(sizes[part], sd, stripe) && stripe * sd <= sizes[part]
    ensures
      var ps := PartSources(sizes, open, part, stripe);
      && PartsOk(c, unit, ps, payloads[part..])
      && AllWanted(c, unit, ps, payloads[part..]) == Concat(payloads)
      && (PartsReadable(c, unit, ps, payloads[part..]) == |Concat(payloads)|
          <==> StreamsDeliver(c, unit, sd, sizes, open, part, stripe, TotalSize(sizes)))
  {
    hide NeededLive, StreamsDeliver, PartsReadable, AllWanted, PartsOk, Stored, Delivers;
    var ps := PartSources(sizes, open, part, stripe);
    SourcesOk(c, unit, sd, files, payloads, sizes, open, part, stripe);
    StreamIsSuffix(c, unit, sd, payloads, sizes, open, part, stripe);
    assert Concat(payloads)[0..] == Concat(payloads);
    WholeLength(payloads, sizes);
    PartsReadableBound(c, unit, ps, payloads[part..]);
    ReadableIffNeededLive(c, unit, sd, ps, payloads[part..], TotalSize(sizes));
    NeededIsDelivered(c, unit, sd, sizes, payloads, open, part, stripe, TotalSize(sizes));
  }

  function WindowStart(window: Option<(nat, nat)>): nat {
    if window.Some? then window.value.0 else 0
  }

  /** The streams deliver all that a GET reads, starting at the given stripe of the
      given part: up to the end of its window, or everything. */
  ghost predicate Live(c: Code, unit: nat, sd: nat, sizes: seq<nat>, open: Backends, window: Option<(nat, nat)>, part: nat, stripe: nat) {
    match window
    case Some((offset, length)) => StreamsDeliver(c, unit, sd, sizes, open, part, stripe, offset + length)
    case None => StreamsDeliver(c, unit, sd, sizes, open, part, stripe, TotalSize(sizes)) && PartsOpen(c, sizes, open, part, stripe)
  }

  /** The bytes of an erasure-coded object, all of them or a window. */
  method ReadObject(c: Code, unit: nat, blockSize: nat, sizes: seq<nat>, open: Backends, window: Option<(nat, nat)>,
                    ghost files: seq<seq<Bytes>>, ghost payloads: seq<Bytes>)
    returns (r: Result<Bytes, ReadError>, ghost part: nat, ghost stripe: nat, ghost base: nat)
    requires AnyDRestore(c) && unit > 0 && unit % 2 == 0 && blockSize == c.dataShards * unit > 0
    requires Stored(c, unit, files, payloads) && SizesOf(sizes, payloads)
    requires Delivers(c, unit, blockSize, files, sizes, open)
    requires 0 < |Concat(payloads)|
    requires window.Some? ==> 0 < window.value.1 && window.value.0 + window.value.1 <= |Concat(payloads)|
    ensures r.Ok? ==> r.value == Slice(Concat(payloads), window)
    ensures StartsAt(sizes, blockSize, WindowStart(window), part, stripe, base)
    ensures r.Ok? <==> Live(c, unit, blockSize, sizes, open, window, part, stripe)
    ensures Healthy(c, unit, blockSize, files, sizes, open) ==> r.Ok?
  {
    hide AnyDRestore, Stored, Delivers, StreamsDeliver, Healthy;
    WholeLength(payloads, sizes);
    if window.Some? {
      r, part, stripe, base := GetWindow(c, unit, blockSize, sizes, open, window.value.0, window.value.1, files, payloads);
    } else {
      r, part, stripe := GetWhole(c, unit, blockSize, sizes, open, files, payloads);
      base := 0;
    }
  }

  /** The bytes of a window, or all of them. */
  function Slice(b: Bytes, window: Option<(nat, nat)>): Bytes
    requires window.Some? ==> window.value.0 + window.value.1 <= |b|
  {
    if window.Some? then b[window.value.0..window.value.0 + window.value.1] else b
  }

  /** The window a GET asks for; `Resolve` says which bytes that is. */
  function WindowOf(range: Option<ByteRange>, size: nat): Option<(nat, nat)>
    requires range.Some? && range.value.Bounded? ==> range.value.start <= range.value.end
  {
    if range.Some? then Resolve(range.value, size) else None
  }

  /** GET with an optional range. `size` is the recorded object size. None is the
      answer to an unsatisfiable range; otherwise the bytes are exactly the
      requested ones of the object, inline or erasure-coded. */
  method Get(c: Code, unit: nat, blockSize: nat, size: nat, sizes: seq<nat>, open: Backends,
             rope: seq<Bytes>, range: Option<ByteRange>, ghost files: seq<seq<Bytes>>, ghost payloads: seq<Bytes>)
    returns (r: Result<Option<Bytes>, ReadError>, ghost part: nat, ghost stripe: nat, ghost base: nat)
    requires AnyDRestore(c) && unit > 0 && unit % 2 == 0 && blockSize == c.dataShards * unit > 0
    requires range.Some? && range.value.Bounded? ==> range.value.start <= range.value.end
    requires NoEmptyFrame(rope)
    requires size == |Object(rope, payloads)|
    requires rope == [] ==> Stored(c, unit, files, payloads) && SizesOf(sizes, payloads)
    requires rope == [] ==> Delivers(c, unit, blockSize, files, sizes, open)
    ensures r == Ok(None) <==> range.Some? && WindowOf(range, size).None?
    ensures r.Ok? && r.value.Some? ==> r.value.value == Slice(Object(rope, payloads), WindowOf(range, size))
    ensures rope != [] || size == 0 ==> r.Ok?
    ensures rope == [] && size > 0 && (range.Some? ==> WindowOf(range, size).Some?) ==>
      && StartsAt(sizes, blockSize, WindowStart(WindowOf(range, size)), part, stripe, base)
      && (r.Ok? <==> Live(c, unit, blockSize, sizes, open, WindowOf(range, size), part, stripe))
    ensures rope == [] && Healthy(c, unit, blockSize, files, sizes, open) ==> r.Ok?
  {
    hide AnyDRestore, Stored, Delivers, Live, StartsAt, Healthy;
    part, stripe, base := 0, 0, 0;
    var window := WindowOf(range, size);
    if range.Some? && window.None? {
      r := Ok(None);
    } else if rope != [] {
      var bytes := GetInline(rope, window);
      r := Ok(Some(bytes));
    } else if size == 0 {
      r := Ok(Some([]));
    } else {
      var got;
      got, part, stripe, base := ReadObject(c, unit, blockSize, sizes, open, window, files, payloads);
      r := if got.Ok? then Ok(Some(got.value)) else Err(got.error);
    }
  }

  ghost function Object(rope: seq<Bytes>, payloads: seq<Bytes>): Bytes {
    if rope != [] then Concat(rope) else Concat(payloads)
  }

  /** An inline payload, or a window of it. */
  method GetInline(rope: seq<Bytes>, window: Option<(nat, nat)>) returns (bytes: Bytes)
    requires NoEmptyFrame(rope)
    requires window.Some? ==> 0 < window.value.1 && window.value.0 + window.value.1 <= |Concat(rope)|
    ensures bytes == Slice(Concat(rope), window)
  {
    if window.Some? {
      bytes := InlineWindow(rope, window.value.0, window.value.1);
    } else {
      bytes := InlineAll(rope);
    }
  }

  method InlineAll(rope: seq<Bytes>) returns (bytes: Bytes)
    requires NoEmptyFrame(rope)
    ensures bytes == Concat(rope)
  {
    var stream := new ByteStream.Rope(rope);
    var r := DrainAll(stream);
    if r.Err? {
      assert false;
    }
    bytes := r.value;
  }

  method InlineWindow(rope: seq<Bytes>, offset: nat, length: nat) returns (bytes: Bytes)
    requires NoEmptyFrame(rope) && 0 < length && offset + length <= |Concat(rope)|
    ensures bytes == Concat(rope)[offset..offset + length]
  {
    var inner := new ByteStream.Rope(rope);
    var stream := new SkipTakeStream(inner, offset, length);
    var r := DrainWindow(stream);
    if r.Err? {
      assert false;
    }
    bytes := r.value;
  }

  // ----- PUT, then GET

  /** What the backends deliver once the given shard files are on their disks. */
  type Disks = seq<seq<Bytes>> -> Backends

  ghost predicate FileShape(c: Code, unit: nat, sizes: seq<nat>, files: seq<seq<Bytes>>)
    requires c.dataShards * unit > 0
  {
    && |files| == |sizes|
    && forall j :: 0 <= j < |files| ==>
         |files[j]| == c.Total() && Uniform(files[j], NumStripes(sizes[j], c.dataShards * unit) * unit)
  }

  /** Whatever files of the right lengths are stored, the backends deliver those. */
  ghost predicate Serves(c: Code, unit: nat, sizes: seq<nat>, disks: Disks)
    requires c.dataShards * unit > 0
  {
    forall files :: FileShape(c, unit, sizes, files) ==> Delivers(c, unit, c.dataShards * unit, files, sizes, disks(files))
  }

  predicate AllDistinct(srcs: seq<ByteSource>) {
    forall i, j :: 0 <= i < j < |srcs| ==> srcs[i] != srcs[j]
  }

  /** Every part's source holds the bytes announced for it. */
  ghost predicate Enough(srcs: seq<ByteSource>, sizes: seq<nat>)
    requires |srcs| == |sizes|
    reads srcs
  {
    forall j :: 0 <= j < |srcs| ==> sizes[j] <= |Content(srcs[j].events)|
  }

  /** The first `sizes[j]` bytes of each source. */
  ghost function Sent(srcs: seq<ByteSource>, sizes: seq<nat>): (payloads: seq<Bytes>)
    requires |srcs| == |sizes| && Enough(srcs, sizes)
    reads srcs
    ensures SizesOf(sizes, payloads)
  {
    seq(|srcs|, j requires 0 <= j < |srcs| && sizes[j] <= |Content(srcs[j].events)| reads srcs => Content(srcs[j].events)[..sizes[j]])
  }

  /** Writes each part's shard files from its own source. */
  method PutParts(c: Code, unit: nat, srcs: seq<ByteSource>, sizes: seq<nat>, healthy: bool)
    returns (put: bool, files: seq<seq<Bytes>>)
    requires ParityShape(c) && unit > 0 && unit % 2 == 0 && |srcs| == |sizes| && AllDistinct(srcs)
    modifies srcs
    ensures put ==> old(Enough(srcs, sizes)) && Stored(c, unit, files, old(Sent(srcs, sizes)))
    ensures healthy && old(Enough(srcs, sizes)) ==> put
  {
    files := [];
    ghost var contents := seq(|srcs|, j requires 0 <= j < |srcs| reads srcs => Content(srcs[j].events));
    for n := 0 to |srcs|
      invariant |files| == n
      invariant forall j :: n <= j < |srcs| ==> Content(srcs[j].events) == contents[j]
      invariant forall j :: 0 <= j < n ==> sizes[j] <= |contents[j]| && StoredPart(c, unit, files[j], contents[j][..sizes[j]])
    {
      var r := PutPart(c, srcs[n], sizes[n], unit, healthy);
      if r.Err? {
        return false, files;
      }
      files := files + [r.value.1];
    }
    return true, files;
  }

  lemma StoredShape(c: Code, unit: nat, files: seq<seq<Bytes>>, payloads: seq<Bytes>, sizes: seq<nat>)
    requires c.dataShards * unit > 0 && Stored(c, unit, files, payloads) && SizesOf(sizes, payloads)
    ensures FileShape(c, unit, sizes, files)
  {
    forall j, i | 0 <= j < |files| && 0 <= i < c.Total()
      ensures |files[j]| == c.Total() && |files[j][i]| == NumStripes(sizes[j], c.dataShards * unit) * unit
    {
      assert StoredPart(c, unit, files[j], payloads[j]);
      ShardFileLength(c, payloads[j], unit, i);
    }
  }

  lemma RestoreShape(c: Code)
    requires AnyDRestore(c)
    ensures ParityShape(c)
  {
  }

  /** End to end: the parts are written from chunked sources, and whatever the disks
      then do with the files that were written, a GET of any range of the object
      returns exactly those bytes of what was sent, or an error; it succeeds iff the
      disks still deliver, D in each part, the stripes it has to read, and so always
      while D disks of each part deliver their whole files. */
  method PutThenGet(c: Code, unit: nat, srcs: seq<ByteSource>, sizes: seq<nat>, healthy: bool, disks: Disks, range: Option<ByteRange>)
    returns (put: bool, files: seq<seq<Bytes>>, r: Result<Option<Bytes>, ReadError>, ghost part: nat, ghost stripe: nat, ghost base: nat)
    requires AnyDRestore(c) && unit > 0 && unit % 2 == 0 && c.dataShards * unit > 0
    requires |srcs| == |sizes| && AllDistinct(srcs) && Serves(c, unit, sizes, disks)
    requires range.Some? && range.value.Bounded? ==> range.value.start <= range.value.end
    modifies srcs
    ensures put ==> old(Enough(srcs, sizes)) && Stored(c, unit, files, old(Sent(srcs, sizes)))
    ensures healthy && old(Enough(srcs, sizes)) ==> put
    ensures put ==> (r == Ok(None) <==> range.Some? && WindowOf(range, TotalSize(sizes)).None?)
    ensures put && r.Ok? && r.value.Some? ==>
      && TotalSize(sizes) == |Concat(old(Sent(srcs, sizes)))|
      && r.value.value == Slice(Concat(old(Sent(srcs, sizes))), WindowOf(range, TotalSize(sizes)))
    ensures put && TotalSize(sizes) == 0 ==> r.Ok?
    ensures put && TotalSize(sizes) > 0 && (range.Some? ==> WindowOf(range, TotalSize(sizes)).Some?) ==>
      var window, sd := WindowOf(range, TotalSize(sizes)), c.dataShards * unit;
      && StartsAt(sizes, sd, WindowStart(window), part, stripe, base)
      && (r.Ok? <==> Live(c, unit, sd, sizes, disks(files), window, part, stripe))
    ensures put && Healthy(c, unit, c.dataShards * unit, files, sizes, disks(files)) ==> r.Ok?
  {
    hide AnyDRestore, Stored, Delivers, Live, StartsAt, Healthy;
    part, stripe, base, r := 0, 0, 0, Ok(None);
    RestoreShape(c);
    put, files := PutParts(c, unit, srcs, sizes, healthy);
    if put {
      ghost var payloads := old(Sent(srcs, sizes));
      StoredShape(c, unit, files, payloads, sizes);
      WholeLength(payloads, sizes);
      r, part, stripe, base := Get(c, unit, c.dataShards * unit, TotalSize(sizes), sizes, disks(files), [], range, files, payloads);
    }
  }
}
