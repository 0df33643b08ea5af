/** Adding a version to an object's version list: decode the live file, replace or
    add, sort, and encode again (crates/openlake_io/src/local_fs.rs:1056-1108). */
module VersionMerge {
  import opened Bytes
  import opened NewestFirst
  import opened Uuid
  import opened XlMeta

  /** A decoded version, made ready to be encoded again. */
  function FromDecoded(d: Decoded): FileInfo {
    FileInfo(d.versionId, d.dataDir, d.deleted, d.size, d.modTime, d.metadata, d.metaSys, d.erasure, d.parts, d.inlined)
  }

  /** The versions with another id, in order. */
  function Others(versions: seq<FileInfo>, id: string): seq<FileInfo> {
    if versions == [] then []
    else
      var n := |versions| - 1;
      Others(versions[..n], id) + (if versions[n].versionId == id then [] else [versions[n]])
  }

  function Merged(existing: seq<FileInfo>, fi: FileInfo): seq<FileInfo> {
    Sort(Others(existing, fi.versionId) + [fi], InfoTime)
  }

  function Infos(existing: seq<Decoded>): (r: seq<FileInfo>)
    ensures |r| == |existing| && forall i :: 0 <= i < |r| ==> r[i] == FromDecoded(existing[i])
  {
    seq(|existing|, i requires 0 <= i < |existing| => FromDecoded(existing[i]))
  }

  method Merge(existing: seq<Decoded>, fi: FileInfo) returns (merged: seq<FileInfo>)
    ensures merged == Merged(Infos(existing), fi)
  {
    merged := [];
    for i := 0 to |existing|
      invariant merged == Others(Infos(existing)[..i], fi.versionId)
    {
      assert Infos(existing)[..i + 1][..i] == Infos(existing)[..i];
      if existing[i].versionId != fi.versionId {
        merged := merged + [FromDecoded(existing[i])];
      }
    }
    assert Infos(existing)[..|existing|] == Infos(existing);
    merged := merged + [fi];
    merged := Sort(merged, InfoTime);
  }

  lemma {:induction false} OthersAre(versions: seq<FileInfo>, id: string)
    ensures forall v :: v in Others(versions, id) <==> v in versions && v.versionId != id
  {
    if versions != [] {
      var n := |versions| - 1;
      OthersAre(versions[..n], id);
      assert versions == versions[..n] + [versions[n]];
    }
  }

  // ----- What decoding can yield

  /** A version whose ids and payload are spelled as decoding spells them. */
  predicate Settled(d: Decoded) {
    && VersionIdBack(d.versionId) == d.versionId && DataDirBack(d.dataDir) == d.dataDir
    && (d.inlined.Some? ==> |d.inlined.value| == 1 && d.inlined.value[0] != [])
  }

  lemma DecodedSettled(r: Record, tail: Bytes, n: nat)
    ensures Settled(DecodedOf(r, tail, n))
  {
    hide Parse, FormatVersionId, FormatDataDir;
    ParseFormat(r.id);
    ParseFormat(r.dataDir);
  }

  /** Decoding yields settled versions, newest first. */
  lemma DecodesSettled(file: Bytes, c: Codec, ds: seq<Decoded>)
    requires DecodesTo(file, c, Ok(ds))
    ensures forall i :: 0 <= i < |ds| ==> Settled(ds[i])
    ensures Sorted(ds, DecodedTime)
  {
    hide DecodedOf, Settled;
    var (body, tail) := Unframe(file, c).value;
    var records := c.read(body).value;
    var sorted := Sort(records, RecordTime);
    SortSorted(records, RecordTime);
    forall i | 0 <= i < |ds|
      ensures Settled(ds[i]) && ds[i].modTime == sorted[i].modTime
    {
      DecodedSettled(sorted[i], tail, |sorted|);
      TimeKept(sorted[i], tail, |sorted|);
    }
  }

  lemma TimeKept(r: Record, tail: Bytes, n: nat)
    ensures DecodedOf(r, tail, n).modTime == r.modTime
  {
  }

  /** A settled version comes through another round unchanged but for the count of
      versions beside it. */
  lemma SettledComesBack(d: Decoded, n: nat)
    requires Settled(d)
    ensures Restored(FromDecoded(d), n) == d.(numVersions := n)
  {
    hide VersionIdBack, DataDirBack;
    if d.inlined.Some? {
      var frame := d.inlined.value[0];
      assert d.inlined.value == [frame] && [frame][1..] == [];
      assert Concat([frame]) == frame + Concat([]) == frame;
    }
  }

  // ----- Distinct ids

  predicate Distinct(s: seq<Decoded>) {
    forall i, j :: 0 <= i < j < |s| ==> s[i].versionId != s[j].versionId
  }

  predicate Lacks(s: seq<Decoded>, id: string) {
    forall i :: 0 <= i < |s| ==> s[i].versionId != id
  }

  lemma LacksSame(r: seq<Decoded>, s: seq<Decoded>, id: string)
    requires forall d :: d in r ==> d in s
    requires Lacks(s, id)
    ensures Lacks(r, id)
  {
    forall i | 0 <= i < |r|
      ensures r[i].versionId != id
    {
      assert r[i] in s;
    }
  }

  lemma DistinctCons(d: Decoded, s: seq<Decoded>)
    ensures Distinct([d] + s) <==> Distinct(s) && Lacks(s, d.versionId)
  {
    var r := [d] + s;
    if Distinct(r) {
      forall i, j | 0 <= i < j < |s|
        ensures s[i].versionId != s[j].versionId
      {
        assert r[i + 1] == s[i] && r[j + 1] == s[j];
      }
      forall i | 0 <= i < |s|
        ensures s[i].versionId != d.versionId
      {
        assert r[i + 1] == s[i] && r[0] == d;
      }
    }
  }

  lemma {:induction false} InsertDistinct(d: Decoded, s: seq<Decoded>)
    ensures Distinct(Insert(d, s, DecodedTime)) <==> Distinct(s) && Lacks(s, d.versionId)
  {
    if s == [] || DecodedTime(s[0]) <= DecodedTime(d) {
      DistinctCons(d, s);
    } else {
      var rest := Insert(d, s[1..], DecodedTime);
      InsertDistinct(d, s[1..]);
      DistinctCons(s[0], rest);
      DistinctCons(s[0], s[1..]);
      assert s == [s[0]] + s[1..];
      InsertLacks(d, s[1..], s[0].versionId);
      LacksCons(s[0], s[1..], d.versionId);
    }
  }

  lemma LacksCons(d: Decoded, s: seq<Decoded>, id: string)
    ensures Lacks([d] + s, id) <==> d.versionId != id && Lacks(s, id)
  {
    var r := [d] + s;
    assert r[0] == d && forall i :: 0 <= i < |s| ==> r[i + 1] == s[i];
  }

  lemma {:induction false} InsertLacks(d: Decoded, s: seq<Decoded>, id: string)
    ensures Lacks(Insert(d, s, DecodedTime), id) <==> d.versionId != id && Lacks(s, id)
  {
    if s == [] || DecodedTime(s[0]) <= DecodedTime(d) {
      LacksCons(d, s, id);
    } else {
      InsertLacks(d, s[1..], id);
      LacksCons(s[0], Insert(d, s[1..], DecodedTime), id);
      LacksCons(s[0], s[1..], id);
      assert s == [s[0]] + s[1..];
    }
  }

  lemma {:induction false} SortDistinct(s: seq<Decoded>)
    ensures Distinct(Sort(s, DecodedTime)) <==> Distinct(s)
  {
    if s != [] {
      SortDistinct(s[1..]);
      InsertDistinct(s[0], Sort(s[1..], DecodedTime));
      DistinctCons(s[0], s[1..]);
      assert s == [s[0]] + s[1..];
      SameElements(s[1..], DecodedTime);
      if Lacks(s[1..], s[0].versionId) {
        LacksSame(Sort(s[1..], DecodedTime), s[1..], s[0].versionId);
      } else if Lacks(Sort(s[1..], DecodedTime), s[0].versionId) {
        LacksSame(s[1..], Sort(s[1..], DecodedTime), s[0].versionId);
      }
    }
  }

  // ----- The merge

  /** The versions with another id, exactly as they were but for the count of
      versions beside them. */
  function Kept(ds: seq<Decoded>, id: string, n: nat): seq<Decoded> {
    if ds == [] then []
    else
      var m := |ds| - 1;
      Kept(ds[..m], id, n) + (if ds[m].versionId == id then [] else [ds[m].(numVersions := n)])
  }

  lemma MapSnoc(s: seq<FileInfo>, fi: FileInfo, n: nat)
    ensures Map(s + [fi], RestoreAll(n)) == Map(s, RestoreAll(n)) + [Restored(fi, n)]
  {
    hide Restored;
  }

  lemma {:induction false} OthersBack(ds: seq<Decoded>, id: string, n: nat)
    requires forall i :: 0 <= i < |ds| ==> Settled(ds[i])
    ensures Map(Others(Infos(ds), id), RestoreAll(n)) == Kept(ds, id, n)
  {
    hide Settled, Restored, Map;
    if ds == [] {
      assert Map([], RestoreAll(n)) == [];
    } else {
      var m := |ds| - 1;
      assert Infos(ds)[..m] == Infos(ds[..m]);
      OthersBack(ds[..m], id, n);
      SettledComesBack(ds[m], n);
      MapSnoc(Others(Infos(ds[..m]), id), Infos(ds)[m], n);
      if ds[m].versionId == id {
        assert Others(Infos(ds[..m]), id) + [] == Others(Infos(ds[..m]), id);
      }
    }
  }

  /** A version of another id, as it was but for the count of versions. */
  ghost predicate IsKept(ds: seq<Decoded>, id: string, n: nat, d: Decoded) {
    d.versionId != id && exists e :: e in ds && d == e.(numVersions := n)
  }

  /** Which versions are kept, both ways. */
  lemma {:induction false} KeptAre(ds: seq<Decoded>, id: string, n: nat, d: Decoded)
    ensures d in Kept(ds, id, n) <==> IsKept(ds, id, n, d)
  {
    if ds != [] {
      var m := |ds| - 1;
      KeptAre(ds[..m], id, n, d);
      assert ds == ds[..m] + [ds[m]];
    }
  }

  lemma {:induction false} KeptLacks(ds: seq<Decoded>, id: string, n: nat, x: string)
    ensures Lacks(Kept(ds, id, n), x) <==> x == id || Lacks(ds, x)
  {
    if ds != [] {
      var m := |ds| - 1;
      KeptLacks(ds[..m], id, n, x);
      LacksSnoc(ds[..m], ds[m], x);
      assert ds == ds[..m] + [ds[m]];
      LacksSnoc(Kept(ds[..m], id, n), ds[m].(numVersions := n), x);
      assert Kept(ds[..m], id, n) + [] == Kept(ds[..m], id, n);
    }
  }

  lemma LacksSnoc(s: seq<Decoded>, d: Decoded, id: string)
    ensures Lacks(s + [d], id) <==> d.versionId != id && Lacks(s, id)
  {
    var r := s + [d];
    assert r[|s|] == d && forall i :: 0 <= i < |s| ==> r[i] == s[i];
  }

  lemma DistinctSnoc(s: seq<Decoded>, d: Decoded)
    ensures Distinct(s + [d]) <==> Distinct(s) && Lacks(s, d.versionId)
  {
    var r := s + [d];
    assert r[|s|] == d && forall i :: 0 <= i < |s| ==> r[i] == s[i];
    if Distinct(r) {
      forall i | 0 <= i < |s|
        ensures s[i].versionId != d.versionId
      {
        assert r[i].versionId != r[|s|].versionId;
      }
    }
  }

  lemma {:induction false} KeptDistinct(ds: seq<Decoded>, id: string, n: nat)
    requires Distinct(ds)
    ensures Distinct(Kept(ds, id, n))
  {
    if ds != [] {
      var m := |ds| - 1;
      assert ds == ds[..m] + [ds[m]];
      DistinctSnoc(ds[..m], ds[m]);
      KeptDistinct(ds[..m], id, n);
      KeptLacks(ds[..m], id, n, ds[m].versionId);
      DistinctSnoc(Kept(ds[..m], id, n), ds[m].(numVersions := n));
      assert Kept(ds[..m], id, n) + [] == Kept(ds[..m], id, n);
    }
  }

  /** Merging a version into a file and reading the new file back: the other
      versions are there exactly as they were, payload included, although the
      tail has been laid out anew; the new version is there; and the list is
      newest first. */
  lemma MergeKeepsHistory(file: Bytes, c: Codec, ds: seq<Decoded>, fi: FileInfo, r: Result<seq<Decoded>, DecodeError>)
    requires c.Invertible() && DecodesTo(file, c, Ok(ds))
    requires
      var merged := Merged(Infos(ds), fi);
      && Accepted(merged) && |c.write(Records(merged))| < U32 && |Tail(merged)| < U64
      && DecodesTo(FileBytes(merged, c), c, r)
    ensures
      var n := |Merged(Infos(ds), fi)|;
      r == Ok(Sort(Kept(ds, fi.versionId, n) + [Restored(fi, n)], DecodedTime))
    ensures
      var n := |Merged(Infos(ds), fi)|;
      forall d :: d in r.value <==> d == Restored(fi, n) || IsKept(ds, fi.versionId, n, d)
  {
    hide DecodesTo, Accepted, Settled, Restored, Sort, Tail, FileBytes;
    var merged := Merged(Infos(ds), fi);
    var n := |merged|;
    var all := Others(Infos(ds), fi.versionId) + [fi];
    RoundTrip(merged, c, r);
    SortSorted(all, InfoTime);
    SortFixed(merged, InfoTime);
    SortMap(all, InfoTime, RestoreAll(n), DecodedTime) by {
      KeepsTime(n);
    }
    MapSnoc(Others(Infos(ds), fi.versionId), fi, n);
    DecodesSettled(file, c, ds);
    OthersBack(ds, fi.versionId, n);
    MergedMembers(ds, fi, n);
  }

  lemma MergedMembers(ds: seq<Decoded>, fi: FileInfo, n: nat)
    ensures forall d :: d in Sort(Kept(ds, fi.versionId, n) + [Restored(fi, n)], DecodedTime) <==>
      d == Restored(fi, n) || IsKept(ds, fi.versionId, n, d)
  {
    hide Kept, Restored, Sort, IsKept;
    SameElements(Kept(ds, fi.versionId, n) + [Restored(fi, n)], DecodedTime);
    forall d
      ensures d in Kept(ds, fi.versionId, n) <==> IsKept(ds, fi.versionId, n, d)
    {
      KeptAre(ds, fi.versionId, n, d);
    }
  }

  lemma KeepsTime(n: nat)
    ensures forall fi :: DecodedTime(RestoreAll(n)(fi)) == InfoTime(fi)
  {
  }

  /** The ids stay unique exactly when the new version's id is spelled the way it
      is read back, or that spelling is not taken yet. */
  lemma MergedIdsUnique(ds: seq<Decoded>, fi: FileInfo, n: nat)
    requires Distinct(ds)
    ensures Distinct(Sort(Kept(ds, fi.versionId, n) + [Restored(fi, n)], DecodedTime))
       <==> VersionIdBack(fi.versionId) == fi.versionId || Lacks(ds, VersionIdBack(fi.versionId))
  {
    hide Sort, VersionIdBack, Distinct, Lacks;
    var kept := Kept(ds, fi.versionId, n);
    SortDistinct(kept + [Restored(fi, n)]);
    DistinctSnoc(kept, Restored(fi, n));
    KeptDistinct(ds, fi.versionId, n);
    KeptLacks(ds, fi.versionId, n, VersionIdBack(fi.versionId));
  }

  /** An empty version id, which names the null version too, does not replace a
      null version that is already there. */
  lemma EmptyIdDuplicates(d: Decoded, fi: FileInfo, n: nat)
    requires d.versionId == NULL && fi.versionId == ""
    ensures !Distinct(Sort(Kept([d], fi.versionId, n) + [Restored(fi, n)], DecodedTime))
  {
    MergedIdsUnique([d], fi, n);
    assert [d][0] == d;
  }

  // ----- A file as the next reader finds it

  /** A version after it was written and read again. */
  function Back(fi: FileInfo): FileInfo {
    FromDecoded(Restored(fi, 0))
  }

  function ReadBack(list: seq<FileInfo>): (r: seq<FileInfo>)
    ensures |r| == |list| && forall i :: 0 <= i < |r| ==> r[i] == Back(list[i])
  {
    seq(|list|, i requires 0 <= i < |list| => Back(list[i]))
  }

  /** What the live xl.meta lists once `fi` has been merged into `list`. */
  function NewList(list: seq<FileInfo>, fi: FileInfo): seq<FileInfo> {
    ReadBack(Merged(list, fi))
  }

  /** That is what decoding the written file gives. */
  lemma NewListDecoded(list: seq<FileInfo>, fi: FileInfo, c: Codec, r: Result<seq<Decoded>, DecodeError>)
    requires c.Invertible()
    requires
      var merged := Merged(list, fi);
      && Accepted(merged) && |c.write(Records(merged))| < U32 && |Tail(merged)| < U64
      && DecodesTo(FileBytes(merged, c), c, r)
    ensures r.Ok? && Infos(r.value) == NewList(list, fi)
  {
    hide DecodesTo, Accepted, Restored, Sort, Tail, FileBytes;
    var merged := Merged(list, fi);
    RoundTrip(merged, c, r);
    SortSorted(Others(list, fi.versionId) + [fi], InfoTime);
    SortFixed(merged, InfoTime);
    forall i | 0 <= i < |merged|
      ensures Infos(r.value)[i] == NewList(list, fi)[i]
    {
      CountForgotten(merged[i], |merged|);
    }
  }

  lemma CountForgotten(fi: FileInfo, n: nat)
    ensures FromDecoded(Restored(fi, n)) == Back(fi)
  {
  }
}
