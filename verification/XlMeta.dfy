/** The xl.meta file: a header, the encoded version records, a checksum, and the
    inline payloads of the versions one after the other
    (crates/openlake_io/src/xl_meta.rs:113-705). */
module XlMeta {
  import opened Bytes
  import opened NewestFirst
  import opened Uuid

  datatype Checksum = Checksum(partNumber: int, algorithm: string, hash: Bytes)

  datatype Erasure = Erasure(
    algorithm: string,
    dataBlocks: nat,
    parityBlocks: nat,
    index: nat,
    blockSize: nat,
    distribution: seq<nat>,
    checksums: seq<Checksum>)

  datatype Part = Part(
    etag: string,
    number: int,
    size: int,
    actualSize: int,
    modTime: nat,
    index: Bytes,
    checksums: map<string, string>)

  /** A version as the engine handles it. */
  datatype FileInfo = FileInfo(
    versionId: string,
    dataDir: string,
    deleted: bool,
    size: int,
    modTime: nat,
    metadata: map<string, string>,
    metaSys: map<string, Bytes>,
    erasure: Erasure,
    parts: seq<Part>,
    data: Option<seq<Bytes>>)

  /** A version as the body of the file records it. */
  datatype Record = Record(
    id: Id,
    ty: nat,
    modTime: nat,
    dataDir: Id,
    size: int,
    erasure: Erasure,
    parts: seq<Part>,
    metadata: map<string, string>,
    metaSys: map<string, Bytes>,
    offset: nat,
    length: nat)

  /** A version as it is read back. */
  datatype Decoded = Decoded(
    versionId: string,
    dataDir: string,
    deleted: bool,
    size: int,
    modTime: nat,
    metadata: map<string, string>,
    metaSys: map<string, Bytes>,
    erasure: Erasure,
    parts: seq<Part>,
    inlined: Option<seq<Bytes>>,
    numVersions: nat)

  /** The serializer of the body, and the checksum over it. */
  datatype Codec = Codec(write: seq<Record> -> Bytes, read: Bytes -> Option<seq<Record>>, digest: Bytes -> nat) {
    ghost predicate Invertible() {
      forall records :: read(write(records)) == Some(records)
    }
  }

  datatype EncodeError = NoVersionsGiven | InvalidVersion | BadId(id: IdError)

  datatype DecodeError =
    | TooShort | BadMagic | UnsupportedVersion(found: nat) | MinorMismatch | NoBodyMark | Truncated
    | NoCrcMark | CrcMismatch | BadBody | NoVersions | InvalidRecord | RangeOverflow | RangeExceedsTail

  const U32: nat := 0x1_0000_0000
  const U64: nat := 0x1_0000_0000_0000_0000

  // ----- Validators

  predicate ErasureOk(e: Erasure) {
    && e.algorithm != ""
    && e.dataBlocks > 0 && e.parityBlocks <= e.dataBlocks
    && |e.distribution| == e.dataBlocks + e.parityBlocks
    && 1 <= e.index <= e.dataBlocks + e.parityBlocks
    && e.blockSize > 0
  }

  predicate HasInline(fi: FileInfo) {
    fi.data.Some? && fi.data.value != []
  }

  function Payload(fi: FileInfo): Bytes {
    if fi.data.Some? then Concat(fi.data.value) else []
  }

  predicate EncodeOk(fi: FileInfo) {
    && fi.size >= 0 && fi.modTime != 0 && ErasureOk(fi.erasure)
    && (if fi.deleted then fi.parts == [] && fi.size == 0 && !HasInline(fi) else fi.size > 0 ==> fi.parts != [])
    && !(HasInline(fi) && fi.dataDir != "")
    && (!fi.deleted && fi.size > 0 && !HasInline(fi) ==> fi.dataDir != "")
    && (HasInline(fi) ==> |Payload(fi)| == fi.size)
    && forall i :: 0 <= i < |fi.parts| ==> fi.parts[i].number > 0 && fi.parts[i].size >= 0 && fi.parts[i].actualSize >= 0
  }

  predicate DecodeOk(r: Record) {
    && r.ty <= 1 && r.size >= 0 && r.modTime != 0 && ErasureOk(r.erasure)
    && (if r.ty == 1 then r.parts == [] && r.size == 0 && r.length == 0 else r.size > 0 ==> r.parts != [])
    && !(r.length > 0 && r.dataDir != Zero())
    && (r.length > 0 ==> r.size == r.length)
    && forall i :: 0 <= i < |r.parts| ==> r.parts[i].number > 0 && r.parts[i].size >= 0
  }

  // ----- Layout

  /** The inline payloads of all versions, in order. */
  function Tail(versions: seq<FileInfo>): Bytes {
    if versions == [] then [] else Tail(versions[..|versions| - 1]) + Payload(versions[|versions| - 1])
  }

  /** Where version i's payload starts in the tail, and its length. */
  function Slot(versions: seq<FileInfo>, i: nat): (nat, nat)
    requires i < |versions|
  {
    var n := |Payload(versions[i])|;
    (if n == 0 then 0 else |Tail(versions[..i])|, n)
  }

  predicate IdsParse(fi: FileInfo) {
    Parse(fi.versionId).Ok? && Parse(fi.dataDir).Ok?
  }

  /** The record of a version with its place in the tail. */
  function RecordOf(fi: FileInfo, slot: (nat, nat)): Record
    requires IdsParse(fi)
  {
    Record(Parse(fi.versionId).value, if fi.deleted then 1 else 0, fi.modTime, Parse(fi.dataDir).value, fi.size,
           fi.erasure, fi.parts, fi.metadata, fi.metaSys, slot.0, slot.1)
  }

  ghost predicate AllParse(versions: seq<FileInfo>) {
    forall i :: 0 <= i < |versions| ==> IdsParse(versions[i])
  }

  function Records(versions: seq<FileInfo>): (r: seq<Record>)
    requires AllParse(versions)
    ensures |r| == |versions|
    ensures forall i :: 0 <= i < |r| ==> r[i] == RecordOf(versions[i], Slot(versions, i))
  {
    seq(|versions|, i requires 0 <= i < |versions| => RecordOf(versions[i], Slot(versions, i)))
  }

  /** The byte of value n, counted up from zero. */
  function ToByte(n: nat): byte
    requires n < 0x100
  {
    if n == 0 then 0 else ToByte(n - 1) + 1
  }

  function Be32(n: nat): (b: Bytes)
    requires n < U32
    ensures |b| == 4
  {
    [ToByte(n / 0x100_0000), ToByte(n / 0x1_0000 % 0x100), ToByte(n / 0x100 % 0x100), ToByte(n % 0x100)]
  }

  function FromBe32(b: Bytes): nat
    requires |b| == 4
  {
    b[0] as nat * 0x100_0000 + b[1] as nat * 0x1_0000 + b[2] as nat * 0x100 + b[3] as nat
  }

  lemma FromBe32Be32(n: nat)
    requires n < U32
    ensures FromBe32(Be32(n)) == n
  {
    hide ToByte;
    ByteBack(n / 0x100_0000);
    ByteBack(n / 0x1_0000 % 0x100);
    ByteBack(n / 0x100 % 0x100);
    ByteBack(n % 0x100);
    Digits(n);
  }

  lemma NextByte(b: byte)
    requires b != 0xff
    ensures (b + 1) as nat == b as nat + 1
  {
  }

  lemma {:induction false} ByteBack(n: nat)
    requires n < 0x100
    ensures ToByte(n) as nat == n
  {
    if n > 0 {
      ByteBack(n - 1);
      NextByte(ToByte(n - 1));
    }
  }

  lemma Digits(n: nat)
    ensures n / 0x100_0000 * 0x100_0000 + n / 0x1_0000 % 0x100 * 0x1_0000 + n / 0x100 % 0x100 * 0x100 + n % 0x100 == n
  {
    var a := n / 0x100;
    var b := a / 0x100;
    assert b == n / 0x1_0000 && b / 0x100 == n / 0x100_0000;
    assert n == a * 0x100 + n % 0x100 && a == b * 0x100 + a % 0x100 && b == b / 0x100 * 0x100 + b % 0x100;
  }

  /** "XL2 ". */
  function Magic(): (b: Bytes)
    ensures |b| == 4
  {
    [0x58, 0x4c, 0x32, 0x20]
  }

  /** Magic, format 1.3, and the body framed by its length and its checksum. */
  function Head(body: Bytes, digest: nat): (h: Bytes)
    ensures |h| == 18 + |body|
  {
    Magic() + [1, 0, 3, 0] + [0xc6] + Be32(|body| % U32) + body + [0xce] + Be32(digest % U32)
  }

  // ----- Encoding

  /** The bytes a file of accepted versions consists of. */
  function FileBytes(versions: seq<FileInfo>, c: Codec): Bytes
    requires AllParse(versions)
  {
    var body := c.write(Records(versions));
    Head(body, c.digest(body)) + Tail(versions)
  }

  /** A file as it is written: the head and a rope of payload frames. */
  datatype Encoded = Encoded(head: Bytes, tail: seq<Bytes>)

  /** Adds the non-empty frames of one version to the rope. */
  method AddFrames(tail: seq<Bytes>, fi: FileInfo) returns (tail': seq<Bytes>, length: nat)
    ensures Concat(tail') == Concat(tail) + Payload(fi) && length == |Payload(fi)|
    ensures (forall f :: f in tail ==> f != []) ==> forall f :: f in tail' ==> f != []
  {
    tail', length := tail, 0;
    if fi.data.None? {
      return;
    }
    var frames := fi.data.value;
    for i := 0 to |frames|
      invariant Concat(tail') == Concat(tail) + Concat(frames[..i]) && length == |Concat(frames[..i])|
      invariant (forall f :: f in tail ==> f != []) ==> forall f :: f in tail' ==> f != []
    {
      assert frames[..i + 1] == frames[..i] + [frames[i]];
      ConcatAppend(frames[..i], [frames[i]]);
      ConcatAppend(tail', [frames[i]]);
      assert Concat([frames[i]]) == frames[i] + Concat([frames[i]][1..]) == frames[i];
      if frames[i] != [] {
        length := length + |frames[i]|;
        tail' := tail' + [frames[i]];
      }
    }
    assert frames[..|frames|] == frames;
  }

  lemma TailSnoc(versions: seq<FileInfo>, i: nat)
    requires i < |versions|
    ensures Tail(versions[..i + 1]) == Tail(versions[..i]) + Payload(versions[i])
  {
    assert versions[..i + 1][..i] == versions[..i];
  }

  /** Lays the payloads out one after the other. */
  method LayOut(versions: seq<FileInfo>) returns (slots: seq<(nat, nat)>, tail: seq<Bytes>)
    ensures Concat(tail) == Tail(versions) && forall f :: f in tail ==> f != []
    ensures |slots| == |versions| && forall i :: 0 <= i < |slots| ==> slots[i] == Slot(versions, i)
  {
    slots, tail := [], [];
    var pos := 0;
    for i := 0 to |versions|
      invariant Concat(tail) == Tail(versions[..i]) && pos == |Tail(versions[..i])|
      invariant forall f :: f in tail ==> f != []
      invariant |slots| == i && forall j :: 0 <= j < i ==> slots[j] == Slot(versions, j)
    {
      hide Payload, Tail, Concat;
      TailSnoc(versions, i);
      var length;
      tail, length := AddFrames(tail, versions[i]);
      slots := slots + [(if length == 0 then 0 else pos, length)];
      pos := pos + length;
    }
    assert versions[..|versions|] == versions;
  }

  method BuildRecords(versions: seq<FileInfo>, slots: seq<(nat, nat)>) returns (r: Result<seq<Record>, EncodeError>)
    requires |slots| == |versions| && forall i :: 0 <= i < |slots| ==> slots[i] == Slot(versions, i)
    ensures r.Ok? <==> AllParse(versions)
    ensures r.Ok? ==> r.value == Records(versions)
    ensures r.Err? ==> r.error.BadId?
  {
    hide Slot, Parse;
    var records: seq<Record> := [];
    for i := 0 to |versions|
      invariant forall j :: 0 <= j < i ==> IdsParse(versions[j])
      invariant |records| == i && forall j :: 0 <= j < i ==> records[j] == RecordOf(versions[j], Slot(versions, j))
    {
      var id, dataDir := Parse(versions[i].versionId), Parse(versions[i].dataDir);
      if id.Err? {
        return Err(BadId(id.error));
      }
      if dataDir.Err? {
        return Err(BadId(dataDir.error));
      }
      records := records + [RecordOf(versions[i], slots[i])];
    }
    return Ok(records);
  }

  /** Accepts exactly the lists that are not empty, whose versions are valid and
      whose ids parse, and writes their records and payloads. */
  method EncodeVersions(versions: seq<FileInfo>, c: Codec) returns (r: Result<Encoded, EncodeError>)
    ensures r.Ok? <==> versions != [] && (forall i :: 0 <= i < |versions| ==> EncodeOk(versions[i])) && AllParse(versions)
    ensures r.Ok? ==> AllParse(versions) && r.value.head + Concat(r.value.tail) == FileBytes(versions, c)
    ensures r.Ok? ==> forall f :: f in r.value.tail ==> f != []
    ensures versions == [] ==> r == Err(NoVersionsGiven)
    ensures (exists i :: 0 <= i < |versions| && !EncodeOk(versions[i])) ==> r == Err(InvalidVersion)
  {
    hide EncodeOk, AllParse, Tail, Head;
    if versions == [] {
      return Err(NoVersionsGiven);
    }
    for i := 0 to |versions|
      invariant forall j :: 0 <= j < i ==> EncodeOk(versions[j])
    {
      if !EncodeOk(versions[i]) {
        return Err(InvalidVersion);
      }
    }
    var slots, tail := LayOut(versions);
    var records := BuildRecords(versions, slots);
    if records.Err? {
      return Err(records.error);
    }
    var body := c.write(records.value);
    return Ok(Encoded(Head(body, c.digest(body)), tail));
  }

  // ----- Decoding

  /** The body and the tail of a file, if its frame and checksum are in order. */
  function Unframe(file: Bytes, c: Codec): Result<(Bytes, Bytes), DecodeError> {
    if |file| < 18 then Err(TooShort)
    else if file[..4] != Magic() then Err(BadMagic)
    else if file[4..6] != [1, 0] then Err(UnsupportedVersion(file[4] as nat + 0x100 * file[5] as nat))
    else if file[6..8] != [3, 0] then Err(MinorMismatch)
    else if file[8] != 0xc6 then Err(NoBodyMark)
    else
      var bodyEnd := 13 + FromBe32(file[9..13]);
      if |file| < bodyEnd + 5 then Err(Truncated)
      else if file[bodyEnd] != 0xce then Err(NoCrcMark)
      else if c.digest(file[13..bodyEnd]) % U32 != FromBe32(file[bodyEnd + 1..bodyEnd + 5]) then Err(CrcMismatch)
      else Ok((file[13..bodyEnd], file[bodyEnd + 5..]))
  }

  /** The bytes of a sound file: the marks and versions in their places, the length
      of the body before it, and after it the digest of exactly those bytes. */
  ghost predicate WellFramed(file: Bytes, c: Codec, body: Bytes, tail: Bytes) {
    var n := |body|;
    && |file| == 18 + n + |tail|
    && file[0] == 0x58 && file[1] == 0x4c && file[2] == 0x32 && file[3] == 0x20
    && file[4] == 1 && file[5] == 0 && file[6] == 3 && file[7] == 0
    && file[8] == 0xc6 && FromBe32(file[9..13]) == n
    && file[13..13 + n] == body
    && file[13 + n] == 0xce && FromBe32(file[14 + n..18 + n]) == c.digest(body) % U32
    && file[18 + n..] == tail
  }

  /** A file is taken apart iff it is sound, and into those parts. */
  lemma FrameIff(file: Bytes, c: Codec, body: Bytes, tail: Bytes)
    ensures Unframe(file, c) == Ok((body, tail)) <==> WellFramed(file, c, body, tail)
  {
    hide FromBe32;
    if |file| >= 18 {
      assert file[..4] == [file[0], file[1], file[2], file[3]];
      assert file[4..6] == [file[4], file[5]];
      assert file[6..8] == [file[6], file[7]];
    }
  }

  /** A sound file around some body and tail. */
  ghost predicate Sound(file: Bytes, c: Codec) {
    exists body, tail :: WellFramed(file, c, body, tail)
  }

  predicate RangeOk(r: Record, tail: Bytes) {
    r.length == 0 || (r.offset + r.length < U64 && r.offset + r.length <= |tail|)
  }

  function DecodedOf(r: Record, tail: Bytes, n: nat): Decoded {
    Decoded(FormatVersionId(r.id), FormatDataDir(r.dataDir), r.ty == 1, r.size, r.modTime, r.metadata, r.metaSys,
            r.erasure, r.parts,
            if r.length > 0 && RangeOk(r, tail) then Some([tail[r.offset..r.offset + r.length]]) else None, n)
  }

  const RecordTime: Record -> nat := (r: Record) => r.modTime
  const InfoTime: FileInfo -> nat := (fi: FileInfo) => fi.modTime
  const DecodedTime: Decoded -> nat := (d: Decoded) => d.modTime

  function DecodeWith(tail: Bytes, n: nat): Record -> Decoded {
    (r: Record) => DecodedOf(r, tail, n)
  }

  predicate RecordsOk(records: seq<Record>, tail: Bytes) {
    records != [] && forall i :: 0 <= i < |records| ==> DecodeOk(records[i]) && RangeOk(records[i], tail)
  }

  function RangeError(r: Record): DecodeError {
    if r.offset + r.length >= U64 then RangeOverflow else RangeExceedsTail
  }

  /** `e` is what is wrong with the first inline range that is not in order. */
  predicate FirstBadRange(sorted: seq<Record>, tail: Bytes, e: DecodeError) {
    exists i :: 0 <= i < |sorted| && !RangeOk(sorted[i], tail) && (forall j :: 0 <= j < i ==> RangeOk(sorted[j], tail)) && e == RangeError(sorted[i])
  }

  /** Decodes the records of a file, in the order they are to be returned. */
  method DecodeRecords(sorted: seq<Record>, tail: Bytes) returns (r: Result<seq<Decoded>, DecodeError>)
    requires sorted != []
    ensures r.Ok? <==> RecordsOk(sorted, tail)
    ensures r.Ok? ==> r.value == Map(sorted, DecodeWith(tail, |sorted|))
    ensures r == Err(InvalidRecord) <==> exists i :: 0 <= i < |sorted| && !DecodeOk(sorted[i])
    ensures r.Err? && r.error != InvalidRecord ==> FirstBadRange(sorted, tail, r.error)
  {
    for i := 0 to |sorted|
      invariant forall j :: 0 <= j < i ==> DecodeOk(sorted[j])
    {
      if !DecodeOk(sorted[i]) {
        return Err(InvalidRecord);
      }
    }
    var out: seq<Decoded> := [];
    for i := 0 to |sorted|
      invariant |out| == i
      invariant forall j :: 0 <= j < i ==> RangeOk(sorted[j], tail) && out[j] == DecodedOf(sorted[j], tail, |sorted|)
    {
      hide DecodeOk, DecodedOf;
      var v := sorted[i];
      if v.length > 0 {
        if v.offset + v.length >= U64 {
          return Err(RangeOverflow);
        }
        if v.offset + v.length > |tail| {
          return Err(RangeExceedsTail);
        }
      }
      out := out + [DecodedOf(v, tail, |sorted|)];
    }
    return Ok(out);
  }

  /** What decoding a file yields, or what is wrong with it. */
  ghost predicate DecodesTo(file: Bytes, c: Codec, r: Result<seq<Decoded>, DecodeError>) {
    match Unframe(file, c)
    case Err(e) => r == Err(e)
    case Ok((body, tail)) =>
      match c.read(body)
      case None => r == Err(BadBody)
      case Some(records) =>
        var sorted := Sort(records, RecordTime);
        if records == [] then r == Err(NoVersions)
        else if RecordsOk(sorted, tail) then r == Ok(Map(sorted, DecodeWith(tail, |sorted|)))
        else if exists i :: 0 <= i < |sorted| && !DecodeOk(sorted[i]) then r == Err(InvalidRecord)
        else r.Err? && FirstBadRange(sorted, tail, r.error)
  }

  /** A version as readers may rely on it: it has a time, its inline bytes are all of
      it and then there is no data directory, a delete marker is empty, parts are
      numbered from one, and the code is one that exists. */
  predicate Sane(d: Decoded) {
    && d.modTime > 0 && d.size >= 0
    && (d.inlined.Some? ==> |Concat(d.inlined.value)| == d.size > 0 && d.dataDir == "" && !d.deleted)
    && (d.deleted ==> d.size == 0 && d.parts == [])
    && (!d.deleted && d.parts == [] ==> d.size == 0)
    && (forall i :: 0 <= i < |d.parts| ==> d.parts[i].number >= 1 && d.parts[i].size >= 0)
    && 0 < d.erasure.dataBlocks && d.erasure.parityBlocks <= d.erasure.dataBlocks && d.erasure.blockSize > 0
    && |d.erasure.distribution| == d.erasure.dataBlocks + d.erasure.parityBlocks
    && 1 <= d.erasure.index <= |d.erasure.distribution|
  }

  lemma DecodedSane(r: Record, tail: Bytes, n: nat)
    requires DecodeOk(r) && RangeOk(r, tail)
    ensures Sane(DecodedOf(r, tail, n))
  {
    if r.length > 0 {
      var b := tail[r.offset..r.offset + r.length];
      assert Concat([b]) == b;
    }
  }

  lemma AllSane(sorted: seq<Record>, tail: Bytes)
    requires RecordsOk(sorted, tail)
    ensures forall i :: 0 <= i < |sorted| ==> Sane(Map(sorted, DecodeWith(tail, |sorted|))[i])
  {
    hide DecodeOk, RangeOk, Sane, DecodedOf;
    forall i | 0 <= i < |sorted|
      ensures Sane(Map(sorted, DecodeWith(tail, |sorted|))[i])
    {
      DecodedSane(sorted[i], tail, |sorted|);
    }
  }

  method DecodeAll(file: Bytes, c: Codec) returns (r: Result<seq<Decoded>, DecodeError>)
    ensures r.Ok? ==> Sound(file, c) && forall i :: 0 <= i < |r.value| ==> Sane(r.value[i])
    ensures DecodesTo(file, c, r)
  {
    hide WellFramed, RecordsOk, FirstBadRange, Sort, Unframe, Sane;
    var frame := Unframe(file, c);
    if frame.Ok? {
      FrameIff(file, c, frame.value.0, frame.value.1);
    }
    if frame.Err? {
      return Err(frame.error);
    }
    var read := c.read(frame.value.0);
    if read.None? {
      return Err(BadBody);
    }
    if read.value == [] {
      return Err(NoVersions);
    }
    var sorted := Sort(read.value, RecordTime);
    SortPermutes(read.value, RecordTime);
    r := DecodeRecords(sorted, frame.value.1);
    if r.Ok? {
      AllSane(sorted, frame.value.1);
    }
  }

  // ----- Round trip

  /** What the encode validator accepts, the decode validator accepts. */
  lemma AcceptedBoth(fi: FileInfo, slot: (nat, nat))
    requires EncodeOk(fi) && IdsParse(fi) && slot.1 == |Payload(fi)|
    ensures DecodeOk(RecordOf(fi, slot))
  {
  }

  lemma HeadParts(body: Bytes, digest: nat, tail: Bytes)
    ensures
      var file, n := Head(body, digest) + tail, |body|;
      && |file| == 18 + n + |tail|
      && file[..4] == Magic() && file[4..6] == [1, 0] && file[6..8] == [3, 0] && file[8] == 0xc6
      && file[9..13] == Be32(n % U32) && file[13..13 + n] == body && file[13 + n] == 0xce
      && file[13 + n + 1..13 + n + 5] == Be32(digest % U32) && file[13 + n + 5..] == tail
  {
    hide Be32, Magic;
    var start := Magic() + [1, 0, 3, 0] + [0xc6] + Be32(|body| % U32);
    var end := [0xce] + Be32(digest % U32);
    var file := Head(body, digest) + tail;
    assert |start| == 13 && |end| == 5;
    assert file == start + (body + (end + tail));
    assert file[13..] == body + (end + tail);
    assert file[13 + |body|..] == end + tail;
  }

  lemma UnframeHead(body: Bytes, tail: Bytes, c: Codec)
    requires |body| < U32
    ensures Unframe(Head(body, c.digest(body)) + tail, c) == Ok((body, tail))
  {
    hide Head, Be32, FromBe32, Magic;
    HeadParts(body, c.digest(body), tail);
    FromBe32Be32(|body| % U32);
    FromBe32Be32(c.digest(body) % U32);
  }

  lemma {:induction false} TailSlice(versions: seq<FileInfo>, n: nat, i: nat)
    requires i < n <= |versions|
    ensures |Tail(versions[..i])| + |Payload(versions[i])| <= |Tail(versions[..n])|
    ensures Tail(versions[..n])[|Tail(versions[..i])|..|Tail(versions[..i])| + |Payload(versions[i])|] == Payload(versions[i])
  {
    hide Payload, Tail;
    TailSnoc(versions, n - 1);
    if i < n - 1 {
      TailSlice(versions, n - 1, i);
    }
  }

  /** A version as it comes back: ids as they are spelled on the way out, and the
      payload in one frame. */
  function Restored(fi: FileInfo, n: nat): Decoded {
    Decoded(VersionIdBack(fi.versionId), DataDirBack(fi.dataDir), fi.deleted, fi.size,
            fi.modTime, fi.metadata, fi.metaSys, fi.erasure, fi.parts,
            if Payload(fi) == [] then None else Some([Payload(fi)]), n)
  }

  function RestoreAll(n: nat): FileInfo -> Decoded {
    (fi: FileInfo) => Restored(fi, n)
  }

  /** Every record names its own version's bytes in the tail. */
  lemma RecordRestores(versions: seq<FileInfo>, i: nat, n: nat)
    requires i < |versions| && IdsParse(versions[i]) && |Tail(versions)| < U64
    ensures
      var r := RecordOf(versions[i], Slot(versions, i));
      RangeOk(r, Tail(versions)) && DecodedOf(r, Tail(versions), n) == Restored(versions[i], n)
  {
    hide Payload, Tail, Parse, FormatVersionId, FormatDataDir;
    TailSlice(versions, |versions|, i);
    assert versions[..|versions|] == versions;
  }

  ghost predicate Accepted(versions: seq<FileInfo>) {
    versions != [] && (forall i :: 0 <= i < |versions| ==> EncodeOk(versions[i])) && AllParse(versions)
  }

  lemma SortedRecordsOk(versions: seq<FileInfo>)
    requires Accepted(versions) && |Tail(versions)| < U64
    ensures RecordsOk(Sort(Records(versions), RecordTime), Tail(versions))
  {
    hide EncodeOk, DecodeOk, RecordOf, Tail, RangeOk;
    var records := Records(versions);
    var sorted := Sort(records, RecordTime);
    SortPermutes(records, RecordTime);
    SameElements(records, RecordTime);
    forall j | 0 <= j < |sorted|
      ensures DecodeOk(sorted[j]) && RangeOk(sorted[j], Tail(versions))
    {
      assert sorted[j] in records;
      var i :| 0 <= i < |records| && records[i] == sorted[j];
      AcceptedBoth(versions[i], Slot(versions, i));
      RecordRestores(versions, i, 0);
    }
  }

  /** Decoding what was encoded gives the versions newest first, those of equal
      time in the order they were given, each with its own inline bytes. */
  lemma RoundTrip(versions: seq<FileInfo>, c: Codec, r: Result<seq<Decoded>, DecodeError>)
    requires c.Invertible() && Accepted(versions)
    requires |c.write(Records(versions))| < U32 && |Tail(versions)| < U64
    requires DecodesTo(FileBytes(versions, c), c, r)
    ensures r == Ok(Map(Sort(versions, InfoTime), RestoreAll(|versions|)))
  {
    hide Head, Tail, RecordsOk, Accepted, Sort, Map;
    assert AllParse(versions) by {
      AcceptedFacts(versions);
    }
    var records, tail := Records(versions), Tail(versions);
    UnframeHead(c.write(records), tail, c);
    SortedRecordsOk(versions);
    SortPermutes(records, RecordTime);
    AcceptedFacts(versions);
    assert r == Ok(Map(Sort(records, RecordTime), DecodeWith(tail, |versions|)));
    SortMap(records, RecordTime, DecodeWith(tail, |versions|), DecodedTime);
    SortMap(versions, InfoTime, RestoreAll(|versions|), DecodedTime);
    SameRestored(versions);
  }

  lemma AcceptedFacts(versions: seq<FileInfo>)
    requires Accepted(versions)
    ensures AllParse(versions) && versions != []
  {
  }

  lemma SameRestored(versions: seq<FileInfo>)
    requires AllParse(versions) && |Tail(versions)| < U64
    ensures Map(Records(versions), DecodeWith(Tail(versions), |versions|)) == Map(versions, RestoreAll(|versions|))
  {
    hide Tail, DecodedOf, Restored, RecordOf;
    var a, b := Map(Records(versions), DecodeWith(Tail(versions), |versions|)), Map(versions, RestoreAll(|versions|));
    forall i | 0 <= i < |versions|
      ensures a[i] == b[i]
    {
      RecordRestores(versions, i, |versions|);
    }
  }

  /** With canonical ids nothing about a version changes but the framing of its
      payload. */
  lemma CanonicalRestored(fi: FileInfo, n: nat)
    requires IdsParse(fi) && (fi.versionId == NULL || CanonicalUuid(fi.versionId)) && (fi.dataDir == "" || CanonicalUuid(fi.dataDir))
    ensures
      var d := Restored(fi, n);
      && d.versionId == fi.versionId && d.dataDir == fi.dataDir
      && (if d.inlined.Some? then Concat(d.inlined.value) else []) == Payload(fi)
  {
    hide Parse, CanonicalUuid, Payload;
    VersionIdSurvives(fi.versionId);
    DataDirSurvives(fi.dataDir);
    if Payload(fi) != [] {
      assert [Payload(fi)][1..] == [];
      assert Concat([Payload(fi)]) == Payload(fi) + Concat([]) == Payload(fi);
    }
  }
}
