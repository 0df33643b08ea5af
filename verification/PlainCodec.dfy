/** A serializer for version records, so that the codec the xl.meta proofs ask for
    exists: every value is written so that it can be read off the front of what
    follows it. */
module PlainCodec {
  import opened Bytes
  import opened Uuid
  import opened XlMeta

  /** A way to write values, and to read one off the front of the input. */
  datatype Pickle<!T> = Pickle(write: T -> Bytes, read: Bytes -> Option<(T, Bytes)>)

  ghost predicate Good<T(!new)>(p: Pickle<T>) {
    forall x: T, rest: Bytes {:trigger p.read(p.write(x) + rest)} :: p.read(p.write(x) + rest) == Some((x, rest))
  }

  // ----- Numbers and characters

  function WriteNat(n: nat): Bytes {
    if n == 0 then [0] else [1] + WriteNat(n - 1)
  }

  function ReadNat(b: Bytes): Option<(nat, Bytes)> {
    if b == [] then None
    else if b[0] == 0 then Some((0, b[1..]))
    else
      var r := ReadNat(b[1..]);
      if r.None? then None else Some((r.value.0 + 1, r.value.1))
  }

  lemma {:induction false} NatBack(n: nat, rest: Bytes)
    ensures ReadNat(WriteNat(n) + rest) == Some((n, rest))
  {
    hide ReadNat;
    if n == 0 {
      ReadStops(rest);
    } else {
      NatBack(n - 1, rest);
      ReadGoesOn(WriteNat(n - 1) + rest);
      assert WriteNat(n) + rest == [1] + (WriteNat(n - 1) + rest);
    }
  }

  lemma ReadStops(rest: Bytes)
    ensures ReadNat([0] + rest) == Some((0, rest))
  {
    var b: Bytes := [0] + rest;
    assert b[1..] == rest;
  }

  lemma ReadGoesOn(b: Bytes)
    requires ReadNat(b).Some?
    ensures ReadNat([1] + b) == Some((ReadNat(b).value.0 + 1, ReadNat(b).value.1))
  {
    var c: Bytes := [1] + b;
    assert c[1..] == b && c[0] == 1;
  }

  function Nats(): Pickle<nat> {
    Pickle(WriteNat, ReadNat)
  }

  lemma NatsGood()
    ensures Good(Nats())
  {
    forall n: nat, rest: Bytes
      ensures Nats().read(Nats().write(n) + rest) == Some((n, rest))
    {
      NatBack(n, rest);
    }
  }

  // ----- Through another type

  /** Values of A written as values of B. */
  function Via<A, B>(p: Pickle<B>, to: A -> B, back: B -> A): Pickle<A> {
    Pickle((x: A) => p.write(to(x)),
           (b: Bytes) => var r := p.read(b); if r.None? then None else Some((back(r.value.0), r.value.1)))
  }

  lemma ViaGood<A(!new), B(!new)>(p: Pickle<B>, to: A -> B, back: B -> A)
    requires Good(p) && forall x :: back(to(x)) == x
    ensures Good(Via(p, to, back))
  {
    var q := Via(p, to, back);
    forall x: A, rest: Bytes
      ensures q.read(q.write(x) + rest) == Some((x, rest))
    {
      assert p.read(p.write(to(x)) + rest) == Some((to(x), rest));
    }
  }

  // ----- Pairs, sequences and maps

  function Pairs<A, B>(p: Pickle<A>, q: Pickle<B>): Pickle<(A, B)> {
    Pickle((x: (A, B)) => p.write(x.0) + q.write(x.1),
           (b: Bytes) =>
             var first := p.read(b);
             if first.None? then None
             else
               var second := q.read(first.value.1);
               if second.None? then None else Some(((first.value.0, second.value.0), second.value.1)))
  }

  lemma PairsGood<A(!new), B(!new)>(p: Pickle<A>, q: Pickle<B>)
    requires Good(p) && Good(q)
    ensures Good(Pairs(p, q))
  {
    var r := Pairs(p, q);
    forall x: (A, B), rest: Bytes
      ensures r.read(r.write(x) + rest) == Some((x, rest))
    {
      assert r.write(x) + rest == p.write(x.0) + (q.write(x.1) + rest);
      assert p.read(p.write(x.0) + (q.write(x.1) + rest)) == Some((x.0, q.write(x.1) + rest));
    }
  }

  function WriteItems<T>(p: Pickle<T>, s: seq<T>): Bytes {
    if s == [] then [] else p.write(s[0]) + WriteItems(p, s[1..])
  }

  function ReadItems<T>(p: Pickle<T>, n: nat, b: Bytes): Option<(seq<T>, Bytes)> {
    if n == 0 then Some(([], b))
    else
      var first := p.read(b);
      if first.None? then None
      else
        var others := ReadItems(p, n - 1, first.value.1);
        if others.None? then None else Some(([first.value.0] + others.value.0, others.value.1))
  }

  lemma {:induction false} ItemsBack<T(!new)>(p: Pickle<T>, s: seq<T>, rest: Bytes)
    requires Good(p)
    ensures ReadItems(p, |s|, WriteItems(p, s) + rest) == Some((s, rest))
  {
    if s == [] {
      assert WriteItems(p, s) + rest == rest;
    } else {
      ItemsBack(p, s[1..], rest);
      assert WriteItems(p, s) + rest == p.write(s[0]) + (WriteItems(p, s[1..]) + rest);
      assert p.read(p.write(s[0]) + (WriteItems(p, s[1..]) + rest)) == Some((s[0], WriteItems(p, s[1..]) + rest));
      assert s == [s[0]] + s[1..];
    }
  }

  function Seqs<T>(p: Pickle<T>): Pickle<seq<T>> {
    Pickle((s: seq<T>) => WriteNat(|s|) + WriteItems(p, s),
           (b: Bytes) => var n := ReadNat(b); if n.None? then None else ReadItems(p, n.value.0, n.value.1))
  }

  lemma SeqsGood<T(!new)>(p: Pickle<T>)
    requires Good(p)
    ensures Good(Seqs(p))
  {
    hide WriteNat, ReadNat, WriteItems, ReadItems;
    var q := Seqs(p);
    forall s: seq<T>, rest: Bytes
      ensures q.read(q.write(s) + rest) == Some((s, rest))
    {
      SeqBack(p, s, rest);
    }
  }

  lemma SeqBack<T(!new)>(p: Pickle<T>, s: seq<T>, rest: Bytes)
    requires Good(p)
    ensures Seqs(p).read(Seqs(p).write(s) + rest) == Some((s, rest))
  {
    hide WriteNat, ReadNat, WriteItems, ReadItems, Good;
    var items := WriteItems(p, s) + rest;
    assert Seqs(p).write(s) + rest == WriteNat(|s|) + items;
    NatBack(|s|, items);
    ItemsBack(p, s, rest);
  }

  /** The entries of a map, in some order. */
  ghost function Listed<K, V>(m: map<K, V>): seq<(K, V)>
    decreases |m|
  {
    if m == map[] then []
    else
      var k :| k in m;
      [(k, m[k])] + Listed(m - {k})
  }

  function Collected<K, V>(s: seq<(K, V)>): map<K, V> {
    if s == [] then map[] else Collected(s[1..])[s[0].0 := s[0].1]
  }

  lemma {:induction false} MapBack<K, V>(m: map<K, V>)
    ensures Collected(Listed(m)) == m
    decreases |m|
  {
    if m != map[] {
      var k := Listed(m)[0].0;
      MapBack(m - {k});
      assert Listed(m)[1..] == Listed(m - {k});
      assert (m - {k})[k := m[k]] == m;
    }
  }

  ghost function Maps<K, V>(p: Pickle<(K, V)>): Pickle<map<K, V>> {
    Via(Seqs(p), (m: map<K, V>) => Listed(m), (s: seq<(K, V)>) => Collected(s))
  }

  lemma MapsGood<K(!new), V(!new)>(p: Pickle<(K, V)>)
    requires Good(p)
    ensures Good(Maps(p))
  {
    SeqsGood(p);
    forall m: map<K, V>
      ensures Collected(Listed(m)) == m
    {
      MapBack(m);
    }
    ViaGood(Seqs(p), (m: map<K, V>) => Listed(m), (s: seq<(K, V)>) => Collected(s));
  }

  // ----- The records

  function FromInt(z: int): (nat, nat) {
    if z >= 0 then (0, z) else (1, -z)
  }

  function ToInt(p: (nat, nat)): int {
    if p.0 == 0 then p.1 else 0 - p.1
  }

  function Ints(): Pickle<int> {
    Via(Pairs(Nats(), Nats()), FromInt, ToInt)
  }

  lemma IntsGood()
    ensures Good(Ints())
  {
    hide Good;
    NatsGood();
    PairsGood(Nats(), Nats());
    ViaGood(Pairs(Nats(), Nats()), FromInt, ToInt);
  }

  /** A byte is its own encoding. */
  function RawByte(): Pickle<byte> {
    Pickle((x: byte) => [x], (b: Bytes) => if b == [] then None else Some((b[0], b[1..])))
  }

  lemma RawByteGood()
    ensures Good(RawByte())
  {
    forall x: byte, rest: Bytes
      ensures RawByte().read(RawByte().write(x) + rest) == Some((x, rest))
    {
      assert ([x] + rest)[1..] == rest;
    }
  }

  function ToChar(n: nat): char {
    if n < 0xD800 || 0xE000 <= n < 0x11_0000 then n as char else ' '
  }

  function Chars(): Pickle<char> {
    Via(Nats(), (c: char) => c as nat, (n: nat) => ToChar(n))
  }

  lemma CharsGood()
    ensures Good(Chars())
  {
    hide Good;
    NatsGood();
    ViaGood(Nats(), (c: char) => c as nat, (n: nat) => ToChar(n));
  }

  function FromId(u: Id): seq<nat> {
    u
  }

  function ToId(s: seq<nat>): Id {
    if |s| == 16 && forall i :: 0 <= i < |s| ==> s[i] < 256 then s else Zero()
  }

  function Ids(): Pickle<Id> {
    Via(Seqs(Nats()), FromId, ToId)
  }

  lemma IdsGood()
    ensures Good(Ids())
  {
    hide Good;
    NatsGood();
    SeqsGood(Nats());
    ViaGood(Seqs(Nats()), FromId, ToId);
  }

  function Strings(): Pickle<string> {
    Seqs(Chars())
  }

  function Blobs(): Pickle<Bytes> {
    Seqs(RawByte())
  }

  lemma TextGood()
    ensures Good(Strings()) && Good(Blobs())
  {
    hide Good;
    CharsGood();
    SeqsGood(Chars());
    RawByteGood();
    SeqsGood(RawByte());
  }

  function FromChecksum(c: Checksum): (int, (string, Bytes)) {
    (c.partNumber, (c.algorithm, c.hash))
  }

  function ToChecksum(p: (int, (string, Bytes))): Checksum {
    Checksum(p.0, p.1.0, p.1.1)
  }

  function Checksums(): Pickle<Checksum> {
    Via(Pairs(Ints(), Pairs(Strings(), Blobs())), FromChecksum, ToChecksum)
  }

  lemma ChecksumsGood()
    ensures Good(Checksums())
  {
    hide Good, Ints, Strings, Blobs;
    IntsGood();
    TextGood();
    PairsGood(Strings(), Blobs());
    PairsGood(Ints(), Pairs(Strings(), Blobs()));
    ViaGood(Pairs(Ints(), Pairs(Strings(), Blobs())), FromChecksum, ToChecksum);
  }

  type ErasureTuple = (string, ((nat, nat), ((nat, nat), (seq<nat>, seq<Checksum>))))

  function FromErasure(e: Erasure): ErasureTuple {
    (e.algorithm, ((e.dataBlocks, e.parityBlocks), ((e.index, e.blockSize), (e.distribution, e.checksums))))
  }

  function ToErasure(t: ErasureTuple): Erasure {
    Erasure(t.0, t.1.0.0, t.1.0.1, t.1.1.0.0, t.1.1.0.1, t.1.1.1.0, t.1.1.1.1)
  }

  function TwoNats(): Pickle<(nat, nat)> {
    Pairs(Nats(), Nats())
  }

  function Lists(): Pickle<(seq<nat>, seq<Checksum>)> {
    Pairs(Seqs(Nats()), Seqs(Checksums()))
  }

  lemma ListsGood()
    ensures Good(Lists()) && Good(TwoNats())
  {
    hide Good, Nats, Checksums;
    NatsGood();
    ChecksumsGood();
    SeqsGood(Nats());
    SeqsGood(Checksums());
    PairsGood(Seqs(Nats()), Seqs(Checksums()));
    PairsGood(Nats(), Nats());
  }

  function Erasures(): Pickle<Erasure> {
    Via(Pairs(Strings(), Pairs(TwoNats(), Pairs(TwoNats(), Lists()))), FromErasure, ToErasure)
  }

  lemma ErasuresGood()
    ensures Good(Erasures())
  {
    hide Good, Strings, TwoNats, Lists;
    TextGood();
    ListsGood();
    PairsGood(TwoNats(), Lists());
    PairsGood(TwoNats(), Pairs(TwoNats(), Lists()));
    PairsGood(Strings(), Pairs(TwoNats(), Pairs(TwoNats(), Lists())));
    ViaGood(Pairs(Strings(), Pairs(TwoNats(), Pairs(TwoNats(), Lists()))), FromErasure, ToErasure);
  }

  ghost function TextMaps(): Pickle<map<string, string>> {
    Maps(Pairs(Strings(), Strings()))
  }

  ghost function BlobMaps(): Pickle<map<string, Bytes>> {
    Maps(Pairs(Strings(), Blobs()))
  }

  lemma TextMapsGood()
    ensures Good(TextMaps()) && Good(BlobMaps())
  {
    hide Good, Strings, Blobs;
    TextGood();
    PairsGood(Strings(), Strings());
    PairsGood(Strings(), Blobs());
    MapsGood(Pairs(Strings(), Strings()));
    MapsGood(Pairs(Strings(), Blobs()));
  }

  type PartTuple = ((string, int), ((int, int), ((nat, Bytes), map<string, string>)))

  function FromPart(p: Part): PartTuple {
    ((p.etag, p.number), ((p.size, p.actualSize), ((p.modTime, p.index), p.checksums)))
  }

  function ToPart(t: PartTuple): Part {
    Part(t.0.0, t.0.1, t.1.0.0, t.1.0.1, t.1.1.0.0, t.1.1.0.1, t.1.1.1)
  }

  ghost function PartTuples(): Pickle<PartTuple> {
    Pairs(Pairs(Strings(), Ints()), Pairs(Pairs(Ints(), Ints()), Pairs(Pairs(Nats(), Blobs()), TextMaps())))
  }

  ghost function Parts(): Pickle<Part> {
    Via(PartTuples(), FromPart, ToPart)
  }

  lemma PartsGood()
    ensures Good(Parts())
  {
    hide Good, Strings, Ints, Nats, Blobs, TextMaps;
    TextGood();
    IntsGood();
    NatsGood();
    TextMapsGood();
    PairsGood(Strings(), Ints());
    PairsGood(Ints(), Ints());
    PairsGood(Nats(), Blobs());
    PairsGood(Pairs(Nats(), Blobs()), TextMaps());
    PairsGood(Pairs(Ints(), Ints()), Pairs(Pairs(Nats(), Blobs()), TextMaps()));
    PairsGood(Pairs(Strings(), Ints()), Pairs(Pairs(Ints(), Ints()), Pairs(Pairs(Nats(), Blobs()), TextMaps())));
    ViaGood(PartTuples(), FromPart, ToPart);
  }

  type HeadTuple = ((Id, Id), ((nat, nat), ((nat, nat), int)))
  type BodyTuple = ((Erasure, seq<Part>), (map<string, string>, map<string, Bytes>))

  function FromRecord(r: Record): (HeadTuple, BodyTuple) {
    (((r.id, r.dataDir), ((r.ty, r.modTime), ((r.offset, r.length), r.size))), ((r.erasure, r.parts), (r.metadata, r.metaSys)))
  }

  function ToRecord(t: (HeadTuple, BodyTuple)): Record {
    Record(t.0.0.0, t.0.1.0.0, t.0.1.0.1, t.0.0.1, t.0.1.1.1, t.1.0.0, t.1.0.1, t.1.1.0, t.1.1.1, t.0.1.1.0.0, t.0.1.1.0.1)
  }

  function Heads(): Pickle<HeadTuple> {
    Pairs(Pairs(Ids(), Ids()), Pairs(TwoNats(), Pairs(TwoNats(), Ints())))
  }

  ghost function Bodies(): Pickle<BodyTuple> {
    Pairs(Pairs(Erasures(), Seqs(Parts())), Pairs(TextMaps(), BlobMaps()))
  }

  lemma HeadsGood()
    ensures Good(Heads())
  {
    hide Good, Ids, TwoNats, Ints;
    IdsGood();
    ListsGood();
    IntsGood();
    PairsGood(Ids(), Ids());
    PairsGood(TwoNats(), Ints());
    PairsGood(TwoNats(), Pairs(TwoNats(), Ints()));
    PairsGood(Pairs(Ids(), Ids()), Pairs(TwoNats(), Pairs(TwoNats(), Ints())));
  }

  lemma BodiesGood()
    ensures Good(Bodies())
  {
    hide Good, Erasures, Parts, TextMaps, BlobMaps;
    ErasuresGood();
    PartsGood();
    TextMapsGood();
    SeqsGood(Parts());
    PairsGood(Erasures(), Seqs(Parts()));
    PairsGood(TextMaps(), BlobMaps());
    PairsGood(Pairs(Erasures(), Seqs(Parts())), Pairs(TextMaps(), BlobMaps()));
  }

  ghost function AllRecords(): Pickle<seq<Record>> {
    Seqs(Via(Pairs(Heads(), Bodies()), FromRecord, ToRecord))
  }

  lemma AllRecordsGood()
    ensures Good(AllRecords())
  {
    hide Good, Heads, Bodies;
    HeadsGood();
    BodiesGood();
    PairsGood(Heads(), Bodies());
    ViaGood(Pairs(Heads(), Bodies()), FromRecord, ToRecord);
    SeqsGood(Via(Pairs(Heads(), Bodies()), FromRecord, ToRecord));
  }

  /** A codec as the proofs about xl.meta ask for. */
  ghost function PlainBody(): Codec {
    Codec((records: seq<Record>) => AllRecords().write(records),
          (b: Bytes) => var r := AllRecords().read(b); if r.None? then None else Some(r.value.0),
          (b: Bytes) => |b|)
  }

  lemma PlainBodyInvertible()
    ensures PlainBody().Invertible()
  {
    hide AllRecords;
    AllRecordsGood();
    forall records: seq<Record>
      ensures PlainBody().read(PlainBody().write(records)) == Some(records)
    {
      var b := AllRecords().write(records);
      assert b + [] == b;
      assert AllRecords().read(AllRecords().write(records) + []) == Some((records, []));
    }
  }
}
