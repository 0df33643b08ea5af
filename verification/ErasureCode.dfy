/** Erasure coding of one stripe (crates/openlake_storage/src/ec.rs).

    The Reed-Solomon library is not part of the repository, so it is a value of
    type `Code`: any parity function together with a restore function, of which
    `AnyDRestore` says that every D of the D+P shards determine the data.
    `XorCode` is an instance with one parity shard. */
module ErasureCode {
  import opened Bytes

  datatype Code = Code(
    dataShards: nat,
    parityShards: nat,
    parity: seq<Bytes> -> seq<Bytes>,
    restore: seq<Option<Bytes>> -> seq<Bytes>)
  {
    function Total(): nat { dataShards + parityShards }
  }

  datatype CodeError =
    | BadStripeLength | OddUnit | WrongSlotCount | BadUnit | ShardLength(slot: nat) | BelowQuorum

  /** All shards have the same length. */
  predicate Uniform(shards: seq<Bytes>, unit: nat) {
    forall i :: 0 <= i < |shards| ==> |shards[i]| == unit
  }

  /** Every present slot holds the shard that was encoded for it. */
  predicate Agrees(slots: seq<Option<Bytes>>, shards: seq<Bytes>) {
    && |slots| == |shards|
    && forall i :: 0 <= i < |slots| && slots[i].Some? ==> slots[i].value == shards[i]
  }

  /** A full codeword: the data shards followed by their parity. */
  function Codeword(c: Code, data: seq<Bytes>): seq<Bytes> {
    data + c.parity(data)
  }

  /** D shards of one common length. */
  predicate DataShape(c: Code, data: seq<Bytes>) {
    |data| == c.dataShards > 0 && Uniform(data, |data[0]|)
  }

  ghost predicate ParityShape(c: Code) {
    && c.dataShards >= 1
    && c.parityShards >= 1
    && forall data: seq<Bytes> {:trigger c.parity(data)} :: DataShape(c, data) ==>
         |c.parity(data)| == c.parityShards && Uniform(c.parity(data), |data[0]|)
  }

  /** What the library promises: any D shards of a codeword give back the data. */
  ghost predicate AnyDRestore(c: Code) {
    && ParityShape(c)
    && forall data: seq<Bytes>, slots: seq<Option<Bytes>> {:trigger Agrees(slots, Codeword(c, data))} ::
         DataShape(c, data) && Agrees(slots, Codeword(c, data)) && CountSome(slots) >= c.dataShards
         ==> c.restore(slots) == data
  }

  lemma CodewordShape(c: Code, data: seq<Bytes>, unit: nat)
    requires ParityShape(c) && |data| == c.dataShards && Uniform(data, unit)
    ensures |Codeword(c, data)| == c.Total() && Uniform(Codeword(c, data), unit)
  {
    assert DataShape(c, data);
  }

  /** `stripe` cut into `d` consecutive shards of `unit` bytes. */
  function Cut(stripe: Bytes, d: nat, unit: nat): (shards: seq<Bytes>)
    requires |stripe| == d * unit
    ensures |shards| == d && Uniform(shards, unit)
    decreases d
  {
    if d == 0 then []
    else
      assert d * unit == unit + (d - 1) * unit;
      [stripe[..unit]] + Cut(stripe[unit..], d - 1, unit)
  }

  /** Cutting loses nothing: the shards concatenate back to the stripe. */
  lemma {:induction false} ConcatCut(stripe: Bytes, d: nat, unit: nat)
    requires |stripe| == d * unit
    ensures Concat(Cut(stripe, d, unit)) == stripe
    decreases d
  {
    if d == 0 {
      assert stripe == [];
    } else {
      assert d * unit == unit + (d - 1) * unit;
      ConcatCut(stripe[unit..], d - 1, unit);
      assert Cut(stripe, d, unit)[1..] == Cut(stripe[unit..], d - 1, unit);
      assert stripe == stripe[..unit] + stripe[unit..];
    }
  }

  lemma MulLess(i: nat, d: nat, unit: nat)
    requires i < d
    ensures 0 <= i * unit <= (i + 1) * unit <= d * unit
    ensures (i + 1) * unit == i * unit + unit
  {
    assert d * unit - (i + 1) * unit == (d - i - 1) * unit;
  }

  lemma {:induction false} CutAt(stripe: Bytes, d: nat, unit: nat, i: nat)
    requires |stripe| == d * unit && i < d
    ensures 0 <= i * unit <= (i + 1) * unit <= |stripe|
    ensures Cut(stripe, d, unit)[i] == stripe[i * unit..(i + 1) * unit]
    decreases d
  {
    MulLess(i, d, unit);
    MulLess(0, d, unit);
    if i > 0 {
      MulLess(i - 1, d, unit);
      assert (d - 1) * unit == d * unit - unit;
      CutAt(stripe[unit..], d - 1, unit, i - 1);
      assert stripe[unit..][(i - 1) * unit..i * unit] == stripe[i * unit..(i + 1) * unit];
    }
  }

  /** The D+P shards stored for one full stripe. */
  function Encoded(c: Code, stripe: Bytes, unit: nat): seq<Bytes>
    requires |stripe| == c.dataShards * unit
  {
    Codeword(c, Cut(stripe, c.dataShards, unit))
  }

  lemma EncodedShape(c: Code, stripe: Bytes, unit: nat)
    requires ParityShape(c) && |stripe| == c.dataShards * unit
    ensures |Encoded(c, stripe, unit)| == c.Total() && Uniform(Encoded(c, stripe, unit), unit)
  {
    CodewordShape(c, Cut(stripe, c.dataShards, unit), unit);
  }

  /** Encodes one zero-padded stripe: D slices of it, then P parity shards. */
  method EncodeStripe(c: Code, stripe: Bytes) returns (r: Result<seq<Bytes>, CodeError>)
    requires ParityShape(c)
    ensures r.Err? <==> |stripe| == 0 || |stripe| % c.dataShards != 0 || (|stripe| / c.dataShards) % 2 != 0
    ensures r.Ok? ==>
      var unit := |stripe| / c.dataShards;
      |stripe| == c.dataShards * unit && r.value == Encoded(c, stripe, unit)
  {
    var n := c.dataShards;
    var total := |stripe|;
    if total == 0 || total % n != 0 {
      return Err(BadStripeLength);
    }
    var unit := total / n;
    if unit % 2 != 0 {
      return Err(OddUnit);
    }
    assert total == n * unit;
    var out: seq<Bytes> := [];
    for i := 0 to n
      invariant out == Cut(stripe, n, unit)[..i]
    {
      CutAt(stripe, n, unit, i);
      out := out + [stripe[i * unit..(i + 1) * unit]];
    }
    assert out == Cut(stripe, n, unit);
    var recovery := c.parity(out);
    CodewordShape(c, out, unit);
    for i := 0 to c.parityShards
      invariant out == Cut(stripe, n, unit) + recovery[..i]
    {
      out := out + [recovery[i]];
    }
    return Ok(out);
  }

  /** Index of the first present shard whose length is not `unit`, scanning the
      originals before the recovery shards. */
  function FirstBadLength(slots: seq<Option<Bytes>>, unit: nat, from: nat): (r: Option<nat>)
    requires from <= |slots|
    ensures r.None? <==> forall i :: from <= i < |slots| && slots[i].Some? ==> |slots[i].value| == unit
    ensures r.Some? ==> from <= r.value < |slots| && slots[r.value].Some? && |slots[r.value].value| != unit
    decreases |slots| - from
  {
    if from == |slots| then None
    else if slots[from].Some? && |slots[from].value| != unit then Some(from)
    else FirstBadLength(slots, unit, from + 1)
  }

  /** What the slots contribute directly, and what was restored for the gaps. */
  function Patched(slots: seq<Option<Bytes>>, restored: seq<Bytes>, n: nat): (out: seq<Bytes>)
    requires n <= |slots|
    ensures |out| == n
  {
    seq(n, i requires 0 <= i < n =>
      if slots[i].Some? then slots[i].value else if i < |restored| then restored[i] else [])
  }

  lemma PatchedIsData(slots: seq<Option<Bytes>>, data: seq<Bytes>, word: seq<Bytes>, restored: seq<Bytes>)
    requires Agrees(slots, word) && data <= word
    requires restored == data || forall i :: 0 <= i < |data| ==> slots[i].Some?
    ensures Patched(slots, restored, |data|) == data
  {
  }

  predicate OriginalsPresent(slots: seq<Option<Bytes>>, n: nat) {
    n <= |slots| && forall i :: 0 <= i < n ==> slots[i].Some?
  }

  /** The originals if all are there; else the first shard of the wrong width, too
      few shards, or success. */
  predicate AnswersAsGiven(n: nat, slots: seq<Option<Bytes>>, unit: nat, r: Result<seq<Bytes>, CodeError>) {
    if OriginalsPresent(slots, n) then
      r.Ok? && |r.value| == n && forall i :: 0 <= i < n ==> r.value[i] == slots[i].value
    else match FirstBadLength(slots, unit, 0)
      case Some(i) => r == Err(ShardLength(i))
      case None => (if CountSome(slots) < n then r == Err(BelowQuorum) else r.Ok?)
  }

  /** Decodes one stripe from the slots that were read. When all D originals are
      there they are returned as they are, whatever their widths; otherwise the
      coder restores the missing ones, which needs D shards in all, each of the
      right width. Slots that agree with the
      encoding of any `stripe` give back that stripe's data shards. */
  method DecodeStripe(c: Code, slots: seq<Option<Bytes>>, unit: nat, ghost stripe: Bytes)
    returns (r: Result<seq<Bytes>, CodeError>)
    requires AnyDRestore(c) && |stripe| == c.dataShards * unit
    ensures |slots| != c.Total() ==> r == Err(WrongSlotCount)
    ensures |slots| == c.Total() && (unit == 0 || unit % 2 != 0) ==> r == Err(BadUnit)
    ensures |slots| == c.Total() && unit > 0 && unit % 2 == 0 ==> AnswersAsGiven(c.dataShards, slots, unit, r)
    ensures
      && unit > 0 && unit % 2 == 0
      && Agrees(slots, Encoded(c, stripe, unit)) && CountSome(slots) >= c.dataShards
      ==> r == Ok(Cut(stripe, c.dataShards, unit))
  {
    EncodedShape(c, stripe, unit);
    var n := c.dataShards;
    if |slots| != c.Total() {
      return Err(WrongSlotCount);
    }
    if unit == 0 || unit % 2 != 0 {
      return Err(BadUnit);
    }
    assert slots == slots[..n] + slots[n..];
    CountSomeAppend(slots[..n], slots[n..]);
    ghost var data, word := Cut(stripe, n, unit), Encoded(c, stripe, unit);
    CountSomeFull(slots[..n]);
    assert forall i :: 0 <= i < n ==> slots[i] == slots[..n][i];
    if CountSome(slots[..n]) == n {
      if Agrees(slots, word) {
        PatchedIsData(slots, data, word, []);
      }
      return Ok(Patched(slots, [], n));
    }
    var bad := FirstBadLength(slots, unit, 0);
    if bad.Some? {
      return Err(ShardLength(bad.value));
    }
    if CountSome(slots) < n {
      return Err(BelowQuorum);
    }
    var restored := c.restore(slots);
    var out: seq<Bytes> := [];
    for i := 0 to n
      invariant out == Patched(slots, restored, n)[..i]
    {
      if slots[i].Some? {
        out := out + [slots[i].value];
      } else {
        out := out + [if i < |restored| then restored[i] else []];
      }
    }
    assert out == Patched(slots, restored, n);
    if Agrees(slots, word) {
      assert DataShape(c, data) && Agrees(slots, Codeword(c, data));
      PatchedIsData(slots, data, word, restored);
    }
    return Ok(out);
  }

  // ----- One parity shard: the exclusive or of the data shards

  function XorBytes(a: Bytes, b: Bytes): (x: Bytes)
    requires |a| == |b|
    ensures |x| == |a|
  {
    seq(|a|, i requires 0 <= i < |a| => a[i] ^ b[i])
  }

  /** Exclusive or of all shards of length `unit`. */
  function XorAll(shards: seq<Bytes>, unit: nat): (x: Bytes)
    requires Uniform(shards, unit)
    ensures |x| == unit
  {
    if shards == [] then Zeros(unit)
    else
      assert Uniform(shards[1..], unit);
      XorBytes(shards[0], XorAll(shards[1..], unit))
  }

  lemma ByteXor(x: byte, y: byte, z: byte)
    ensures x ^ (y ^ z) == y ^ (x ^ z)
    ensures (x ^ y) ^ y == x
  {
  }

  lemma XorSwap(a: Bytes, b: Bytes, c: Bytes)
    requires |a| == |b| == |c|
    ensures XorBytes(a, XorBytes(b, c)) == XorBytes(b, XorBytes(a, c))
  {
    forall i | 0 <= i < |a|
      ensures XorBytes(a, XorBytes(b, c))[i] == XorBytes(b, XorBytes(a, c))[i]
    {
      ByteXor(a[i], b[i], c[i]);
    }
  }

  lemma XorCancel(a: Bytes, b: Bytes)
    requires |a| == |b|
    ensures XorBytes(XorBytes(a, b), b) == a
  {
    forall i | 0 <= i < |a|
      ensures XorBytes(XorBytes(a, b), b)[i] == a[i]
    {
      ByteXor(a[i], b[i], b[i]);
    }
  }

  /** Taking shard `i` out of the fold and putting it in front changes nothing. */
  lemma {:induction false} XorPull(shards: seq<Bytes>, unit: nat, i: nat)
    requires Uniform(shards, unit) && i < |shards|
    ensures Uniform(shards[..i] + shards[i + 1..], unit)
    ensures XorAll(shards, unit) == XorBytes(shards[i], XorAll(shards[..i] + shards[i + 1..], unit))
  {
    if i == 0 {
      assert shards[..i] + shards[i + 1..] == shards[1..];
    } else {
      var rest := shards[1..];
      XorPull(rest, unit, i - 1);
      var without := shards[..i] + shards[i + 1..];
      assert without[1..] == rest[..i - 1] + rest[i..];
      XorSwap(shards[0], shards[i], XorAll(without[1..], unit));
    }
  }

  lemma {:induction false} XorSnoc(shards: seq<Bytes>, last: Bytes, unit: nat)
    requires Uniform(shards, unit) && |last| == unit
    ensures Uniform(shards + [last], unit)
    ensures XorAll(shards + [last], unit) == XorBytes(last, XorAll(shards, unit))
  {
    var all := shards + [last];
    XorPull(all, unit, |shards|);
    assert all[..|shards|] + all[|shards| + 1..] == shards;
  }

  /** The shards that are present, in slot order. */
  function Present(slots: seq<Option<Bytes>>): seq<Bytes> {
    if slots == [] then []
    else (if slots[0].Some? then [slots[0].value] else []) + Present(slots[1..])
  }

  function UnitOf(slots: seq<Option<Bytes>>): nat {
    if slots == [] then 0
    else if slots[0].Some? then |slots[0].value|
    else UnitOf(slots[1..])
  }

  /** Replaces the one missing slot by the exclusive or of all the others. */
  function XorRestore(d: nat, slots: seq<Option<Bytes>>): seq<Bytes> {
    var present := Present(slots);
    var unit := UnitOf(slots);
    var missing := if Uniform(present, unit) then XorAll(present, unit) else [];
    seq(Min(d, |slots|), i requires 0 <= i < Min(d, |slots|) =>
      if slots[i].Some? then slots[i].value else missing)
  }

  function XorParity(data: seq<Bytes>): seq<Bytes> {
    var unit := if data == [] then 0 else |data[0]|;
    if Uniform(data, unit) then [XorAll(data, unit)] else [[]]
  }

  function XorCode(d: nat): Code {
    Code(d, 1, data => XorParity(data), slots => XorRestore(d, slots))
  }

  lemma {:induction false} PresentWithoutGap(slots: seq<Option<Bytes>>, shards: seq<Bytes>)
    requires Agrees(slots, shards) && CountSome(slots) == |slots|
    ensures Present(slots) == shards
  {
    if slots != [] {
      CountSomeBound(slots[1..]);
      PresentWithoutGap(slots[1..], shards[1..]);
      assert shards == [shards[0]] + shards[1..];
    }
  }

  /** With exactly slot `m` missing, the present shards are all but shard `m`. */
  lemma {:induction false} PresentWithGap(slots: seq<Option<Bytes>>, shards: seq<Bytes>, m: nat)
    requires Agrees(slots, shards) && m < |slots| && slots[m].None?
    requires CountSome(slots) == |slots| - 1
    ensures Present(slots) == shards[..m] + shards[m + 1..]
  {
    CountSomeBound(slots[1..]);
    if m == 0 {
      PresentWithoutGap(slots[1..], shards[1..]);
      assert shards[..0] + shards[1..] == shards[1..];
    } else {
      CountSomeFull(slots[1..]);
      assert slots[1..][m - 1].None?;
      PresentWithGap(slots[1..], shards[1..], m - 1);
      assert shards[..m] + shards[m + 1..] == [shards[0]] + (shards[1..][..m - 1] + shards[1..][m..]);
    }
  }

  lemma {:induction false} UnitOfAgrees(slots: seq<Option<Bytes>>, shards: seq<Bytes>, unit: nat)
    requires Agrees(slots, shards) && Uniform(shards, unit) && CountSome(slots) >= 1
    ensures UnitOf(slots) == unit
  {
    if slots[0].None? {
      UnitOfAgrees(slots[1..], shards[1..], unit);
    }
  }

  /** The exclusive or of all shards but one of a codeword is that one. */
  lemma XorOfTheOthers(data: seq<Bytes>, unit: nat, m: nat)
    requires |data| >= 1 && Uniform(data, unit) && m < |data|
    ensures
      var word := data + [XorAll(data, unit)];
      var others := word[..m] + word[m + 1..];
      Uniform(others, unit) && XorAll(others, unit) == data[m]
  {
    var p := XorAll(data, unit);
    var word := data + [p];
    var rest := data[..m] + data[m + 1..];
    XorPull(data, unit, m);
    XorSnoc(rest, p, unit);
    assert word[..m] + word[m + 1..] == rest + [p];
    XorCancel(data[m], XorAll(rest, unit));
  }

  lemma XorRestores(d: nat, data: seq<Bytes>, unit: nat, slots: seq<Option<Bytes>>)
    requires d >= 1 && |data| == d && Uniform(data, unit)
    requires Agrees(slots, data + XorParity(data)) && CountSome(slots) >= d
    ensures XorRestore(d, slots) == data
  {
    var word := data + [XorAll(data, unit)];
    assert XorParity(data) == [XorAll(data, unit)];
    CountSomeBound(slots);
    UnitOfAgrees(slots, word, unit);
    forall i | 0 <= i < d
      ensures XorRestore(d, slots)[i] == data[i]
    {
      assert word[i] == data[i];
      if slots[i].None? {
        CountSomeFull(slots);
        PresentWithGap(slots, word, i);
        XorOfTheOthers(data, unit, i);
      }
    }
  }

  /** The promise asked of the coder is consistent: for every D the XOR code
      with one parity shard meets it. */
  lemma XorCodeRestores(d: nat)
    requires d >= 1
    ensures AnyDRestore(XorCode(d))
  {
    var c := XorCode(d);
    forall data: seq<Bytes>, slots: seq<Option<Bytes>> |
      DataShape(c, data) && Agrees(slots, Codeword(c, data)) && CountSome(slots) >= d
      ensures c.restore(slots) == data
    {
      XorRestores(d, data, |data[0]|, slots);
    }
  }
}
