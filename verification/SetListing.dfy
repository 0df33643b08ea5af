/** Listing one set: the disks' streams are merged key by key, and a key is listed
    when enough disks agree on what it is
    (crates/openlake_storage/src/engine.rs:1445-1482, 2354-2437). */
module SetListing {
  import opened Bytes
  import opened Consensus
  import opened Listing
  import opened XlMeta

  /** What disks must agree on. */
  datatype Signature = Signature(etag: string, modTime: nat, versionId: string, size: int, deleted: bool)

  function EtagOrEmpty(fi: FileInfo): string {
    if ETAG in fi.metadata then fi.metadata[ETAG] else ""
  }

  function SignatureOf(fi: FileInfo): Signature {
    Signature(EtagOrEmpty(fi), fi.modTime, fi.versionId, fi.size, fi.deleted)
  }

  function ToObjectInfo(fi: FileInfo): ObjectInfo {
    ObjectInfo(if fi.size < 0 then 0 else fi.size, EtagOrEmpty(fi), fi.data.Some?, fi.modTime,
               if "content-type" in fi.metadata then Some(fi.metadata["content-type"]) else None,
               fi.versionId, fi.deleted)
  }

  function Signatures(row: seq<Option<FileInfo>>): (v: seq<Option<Signature>>)
    ensures |v| == |row|
    ensures forall i :: 0 <= i < |v| ==> v[i] == (if row[i].Some? then Some(SignatureOf(row[i].value)) else None)
  {
    seq(|row|, i requires 0 <= i < |row| => if row[i].Some? then Some(SignatureOf(row[i].value)) else None)
  }

  /** The record of disk i is listed: it is the first with a signature that leads
      the vote with a quorum, and not a delete marker. */
  ghost predicate ListedFrom(row: seq<Option<FileInfo>>, quorum: nat, i: nat) {
    && i < |row| && row[i].Some? && !row[i].value.deleted
    && Leading(Signatures(row), SignatureOf(row[i].value), quorum)
    && FirstAt(Signatures(row), SignatureOf(row[i].value), i)
  }

  /** The key is not listed: no signature has a quorum, or a leading one is a
      delete marker's. */
  ghost predicate Withheld(row: seq<Option<FileInfo>>, quorum: nat) {
    || NoQuorum(Signatures(row), quorum)
    || exists sig: Signature :: Leading(Signatures(row), sig, quorum) && sig.deleted
  }

  /** The vote on one key: what to list under it, if anything. */
  method VoteFileInfo(row: seq<Option<FileInfo>>, quorum: nat) returns (r: Option<nat>)
    ensures r.Some? ==> ListedFrom(row, quorum, r.value)
    ensures r.Some? ==> r.value < |row| && row[r.value].Some? && ShownFrom(row, quorum, r.value, ToObjectInfo(row[r.value].value))
    ensures r.None? ==> Withheld(row, quorum) && NotShown(row, quorum)
  {
    hide NoQuorum, Leading, ShownFrom, NotShown;
    WithheldMeans(row, quorum);
    var sig := LeaderWith(Signatures(row), quorum);
    if sig.None? || sig.value.deleted {
      return None;
    }
    LeadingVotes(Signatures(row), sig.value, quorum);
    var i := FirstVoter(Signatures(row), sig.value);
    ListedShown(row, quorum, i);
    return Some(i);
  }

  /** What the disks' vote makes of every key. */
  ghost predicate IsSetListing(streams: seq<seq<Entry<FileInfo>>>, quorum: nat, out: seq<Entry<ObjectInfo>>) {
    && Ordered(out)
    && (forall j :: 0 <= j < |out| ==> EntryVoted(streams, quorum, out[j]))
    && (forall k {:trigger AnyHas(streams, k)} {:trigger HasKey(out, k)} ::
          AnyHas(streams, k) && !HasKey(out, k) ==> Withheld(Row(streams, k), quorum))
  }

  ghost predicate EntryVoted(streams: seq<seq<Entry<FileInfo>>>, quorum: nat, e: Entry<ObjectInfo>) {
    exists i: nat :: ListedFrom(Row(streams, e.key), quorum, i) && e.item == ToObjectInfo(Row(streams, e.key)[i].value)
  }

  /** The rows walked so far and what has been listed of them: entry j comes from
      row from[j], and the other rows were withheld. */
  ghost predicate Voted(out: seq<Entry<ObjectInfo>>, done: Rows<FileInfo>, from: seq<nat>, quorum: nat) {
    && |from| == |out|
    && (forall j, h :: 0 <= j < h < |from| ==> from[j] < from[h])
    && (forall j :: 0 <= j < |from| ==> from[j] < |done| && RowVoted(done[from[j]], quorum, out[j]))
    && (forall d :: 0 <= d < |done| ==> d in from || Withheld(done[d].1, quorum))
  }

  ghost predicate RowVoted(row: (string, seq<Option<FileInfo>>), quorum: nat, e: Entry<ObjectInfo>) {
    e.key == row.0 && exists i: nat :: ListedFrom(row.1, quorum, i) && e.item == ToObjectInfo(row.1[i].value)
  }

  lemma VotedLists(streams: seq<seq<Entry<FileInfo>>>, done: Rows<FileInfo>, out: seq<Entry<ObjectInfo>>, from: seq<nat>, quorum: nat)
    requires Walk(streams, done) && Voted(out, done, from, quorum)
    ensures IsSetListing(streams, quorum, out)
  {
    hide ListedFrom, Withheld, Row;
    forall j | 0 <= j < |out|
      ensures EntryVoted(streams, quorum, out[j])
    {
      assert RowVoted(done[from[j]], quorum, out[j]);
      assert done[from[j]].1 == Row(streams, done[from[j]].0);
    }
    forall k | AnyHas(streams, k) && !HasKey(out, k)
      ensures Withheld(Row(streams, k), quorum)
    {
      assert RowHas(done, k);
      var d :| 0 <= d < |done| && done[d].0 == k;
    }
  }

  lemma KeepVoting(out: seq<Entry<ObjectInfo>>, done: Rows<FileInfo>, from: seq<nat>, quorum: nat,
                   row: (string, seq<Option<FileInfo>>), more: seq<Entry<ObjectInfo>>)
    requires Voted(out, done, from, quorum) && |more| <= 1
    requires more == [] ==> Withheld(row.1, quorum)
    requires more != [] ==> RowVoted(row, quorum, more[0])
    ensures Voted(out + more, done + [row], if more == [] then from else from + [|done|], quorum)
  {
    hide Voted, RowVoted, Withheld;
    if more == [] {
      assert out + more == out;
      KeepWithholding(out, done, from, quorum, row);
    } else {
      assert more == [more[0]];
      KeepListing(out, done, from, quorum, row, more[0]);
    }
  }

  lemma KeepWithholding(out: seq<Entry<ObjectInfo>>, done: Rows<FileInfo>, from: seq<nat>, quorum: nat, row: (string, seq<Option<FileInfo>>))
    requires Voted(out, done, from, quorum) && Withheld(row.1, quorum)
    ensures Voted(out, done + [row], from, quorum)
  {
    hide RowVoted, Withheld;
  }

  lemma KeepListing(out: seq<Entry<ObjectInfo>>, done: Rows<FileInfo>, from: seq<nat>, quorum: nat,
                    row: (string, seq<Option<FileInfo>>), e: Entry<ObjectInfo>)
    requires Voted(out, done, from, quorum) && RowVoted(row, quorum, e)
    ensures Voted(out + [e], done + [row], from + [|done|], quorum)
  {
    hide RowVoted, Withheld;
    var done', from' := done + [row], from + [|done|];
    forall d | 0 <= d < |done'|
      ensures d in from' || Withheld(done'[d].1, quorum)
    {
      if d == |done| {
        assert from'[|from|] == d;
      } else if d in from {
        var j :| 0 <= j < |from| && from[j] == d;
        assert from'[j] == d;
      }
    }
  }

  /** The entry of a key, if it is to be listed. */
  method ListKey(k: string, row: seq<Option<FileInfo>>, quorum: nat) returns (more: seq<Entry<ObjectInfo>>)
    ensures |more| <= 1
    ensures more == [] ==> Withheld(row, quorum)
    ensures more != [] ==> RowVoted((k, row), quorum, more[0])
  {
    hide Withheld;
    var winner := VoteFileInfo(row, quorum);
    if winner.None? {
      return [];
    }
    more := [Entry(k, ToObjectInfo(row[winner.value].value))];
  }

  method MergeWithinSet(streams: seq<seq<Entry<FileInfo>>>, quorum: nat) returns (out: seq<Entry<ObjectInfo>>)
    requires AllOrdered(streams)
    ensures IsSetListing(streams, quorum, out)
    ensures forall j :: 0 <= j < |out| ==> EntryFrom(streams, quorum, out[j])
    ensures RestNotShown(streams, quorum, out)
  {
    hide EntryFrom, RestNotShown, IsSetListing, Left;
    hide Walk, Begun, Smallest, AllOrdered, AllEmpty, Row, AllPast, Withheld, Voted, RowVoted;
    var heads: seq<nat> := seq(|streams|, _ => 0);
    out := [];
    ghost var done: Rows<FileInfo>, from: seq<nat> := [], [];
    assert Rest(streams, heads) == streams;
    BeginWalk(streams);
    NothingVoted(quorum);
    while true
      invariant HeadsOk(streams, heads) && Begun(streams, done, Rest(streams, heads))
      invariant Voted(out, done, from, quorum)
      decreases Left(Rest(streams, heads))
    {
      var smallest := FindSmallest(streams, heads);
      if smallest.None? {
        AllVoted(streams, done, Rest(streams, heads), out, from, quorum);
        return;
      }
      var k := smallest.value;
      ghost var rest: seq<seq<Entry<FileInfo>>> := Rest(streams, heads);
      BegunOrdered(streams, done, rest);
      ContinueWalk(streams, done, rest, k);
      ShrinksAt(rest, k);
      var row;
      row, heads := TakeKey(streams, heads, k);
      var more := ListKey(k, row, quorum);
      KeepVoting(out, done, from, quorum, (k, row), more);
      out, done := out + more, done + [(k, row)];
      from := if more == [] then from else from + [|done| - 1];
    }
  }

  lemma AllVoted(streams: seq<seq<Entry<FileInfo>>>, done: Rows<FileInfo>, rest: seq<seq<Entry<FileInfo>>>,
                 out: seq<Entry<ObjectInfo>>, from: seq<nat>, quorum: nat)
    requires Begun(streams, done, rest) && AllEmpty(rest) && Voted(out, done, from, quorum)
    ensures IsSetListing(streams, quorum, out)
    ensures forall j :: 0 <= j < |out| ==> EntryFrom(streams, quorum, out[j])
    ensures RestNotShown(streams, quorum, out)
  {
    hide Begun, AllEmpty, Voted, Walk, IsSetListing, EntryFrom, RestNotShown;
    EndWalk(streams, done, rest);
    VotedLists(streams, done, out, from, quorum);
    ListingShown(streams, quorum, out);
  }

  lemma NothingVoted(quorum: nat)
    ensures Voted([], [], [], quorum)
  {
  }

  // ----- Which records count as the same

  /** Two records count as the same: equal etag, time, version, size and kind. */
  predicate SameEntry(a: FileInfo, b: FileInfo) {
    && (if "etag" in a.metadata then a.metadata["etag"] else "") == (if "etag" in b.metadata then b.metadata["etag"] else "")
    && a.modTime == b.modTime && a.versionId == b.versionId && a.size == b.size && a.deleted == b.deleted
  }

  /** The disks whose record of the key counts as the same as v. */
  ghost function Agreeing(row: seq<Option<FileInfo>>, v: FileInfo): set<nat> {
    set i: nat | i < |row| && row[i].Some? && SameEntry(row[i].value, v)
  }

  lemma AgreeingIs(row: seq<Option<FileInfo>>, v: FileInfo)
    ensures Count(Signatures(row), SignatureOf(v)) == |Agreeing(row, v)|
  {
    CountIsVoters(Signatures(row), SignatureOf(v));
    assert Voters(Signatures(row), SignatureOf(v)) == Agreeing(row, v);
  }

  /** Some record that is not a delete marker is agreed on by `quorum` disks. */
  ghost predicate Agreed(row: seq<Option<FileInfo>>, quorum: nat) {
    exists v: FileInfo :: !v.deleted && |Agreeing(row, v)| >= quorum
  }

  /** No delete marker is agreed on by `quorum` disks. */
  ghost predicate NoMarker(row: seq<Option<FileInfo>>, quorum: nat) {
    forall v: FileInfo {:trigger Agreeing(row, v)} :: v.deleted ==> |Agreeing(row, v)| < quorum
  }

  lemma SomeRecord(row: seq<Option<FileInfo>>, sig: Signature) returns (v: FileInfo)
    requires Count(Signatures(row), sig) > 0
    ensures SignatureOf(v) == sig
  {
    CountPositive(Signatures(row), sig);
    var i :| 0 <= i < |row| && Signatures(row)[i] == Some(sig);
    v := row[i].value;
  }

  lemma AgreedIff(row: seq<Option<FileInfo>>, quorum: nat)
    requires quorum > 0
    ensures Agreed(row, quorum) <==> exists sig: Signature :: !sig.deleted && Count(Signatures(row), sig) >= quorum
    ensures NoMarker(row, quorum) <==> NoMarkerLeads(Signatures(row), quorum)
  {
    hide Agreeing, Signatures;
    forall v: FileInfo
      ensures |Agreeing(row, v)| == Count(Signatures(row), SignatureOf(v))
    {
      AgreeingIs(row, v);
    }
    if sig: Signature :| !sig.deleted && Count(Signatures(row), sig) >= quorum {
      var v := SomeRecord(row, sig);
      assert |Agreeing(row, v)| >= quorum;
    }
    if v: FileInfo :| !v.deleted && |Agreeing(row, v)| >= quorum {
      assert Count(Signatures(row), SignatureOf(v)) >= quorum;
    }
    if NoMarker(row, quorum) {
      forall sig: Signature | sig.deleted
        ensures Count(Signatures(row), sig) < quorum
      {
        if Count(Signatures(row), sig) > 0 {
          var v := SomeRecord(row, sig);
          assert |Agreeing(row, v)| < quorum;
        }
      }
    }
  }

  // ----- What is listed

  /** The vote on k has one result: two quorums cannot fit, or no delete marker has a
      quorum. */
  ghost predicate Decisive(streams: seq<seq<Entry<FileInfo>>>, quorum: nat, k: string) {
    || 2 * quorum > |streams|
    || (quorum > 0 && NoMarker(Row(streams, k), quorum))
  }

  ghost predicate NoMarkerLeads(votes: seq<Option<Signature>>, quorum: nat) {
    forall sig: Signature {:trigger Count(votes, sig)} :: sig.deleted ==> Count(votes, sig) < quorum
  }

  /** When the vote on it has one result, a key is listed exactly when a quorum of
      disks agree on a record of it that is not a delete marker. */
  lemma ListedIff(streams: seq<seq<Entry<FileInfo>>>, quorum: nat, out: seq<Entry<ObjectInfo>>, k: string)
    requires IsSetListing(streams, quorum, out) && Decisive(streams, quorum, k)
    ensures HasKey(out, k) <==> Agreed(Row(streams, k), quorum)
  {
    hide Agreed, Signatures, Row, IsSetListing, HasKey, NoMarker, NoMarkerLeads;
    AgreedIff(Row(streams, k), quorum);
    SignatureListed(streams, quorum, out, k);
  }

  lemma SignatureListed(streams: seq<seq<Entry<FileInfo>>>, quorum: nat, out: seq<Entry<ObjectInfo>>, k: string)
    requires IsSetListing(streams, quorum, out)
    requires 2 * quorum > |streams| || (quorum > 0 && NoMarkerLeads(Signatures(Row(streams, k)), quorum))
    ensures HasKey(out, k) <==> exists sig: Signature :: !sig.deleted && Count(Signatures(Row(streams, k)), sig) >= quorum
  {
    hide Signatures, Row;
    var votes := Signatures(Row(streams, k));
    if HasKey(out, k) {
      var j :| 0 <= j < |out| && out[j].key == k;
      assert EntryVoted(streams, quorum, out[j]);
      var i: nat :| ListedFrom(Row(streams, k), quorum, i);
      SignatureKept(Row(streams, k), i);
      assert Count(votes, SignatureOf(Row(streams, k)[i].value)) >= quorum;
    }
    if sig: Signature :| !sig.deleted && Count(votes, sig) >= quorum {
      QuorumKnown(streams, k, sig, quorum);
      if !HasKey(out, k) {
        NotWithheld(Row(streams, k), quorum, sig);
      }
    }
  }

  lemma SignatureKept(row: seq<Option<FileInfo>>, i: nat)
    requires i < |row| && row[i].Some?
    ensures SignatureOf(row[i].value).deleted == row[i].value.deleted
  {
  }

  lemma QuorumKnown(streams: seq<seq<Entry<FileInfo>>>, k: string, sig: Signature, quorum: nat)
    requires Count(Signatures(Row(streams, k)), sig) >= quorum > 0
    ensures AnyHas(streams, k)
  {
    var row := Row(streams, k);
    CountPositive(Signatures(row), sig);
    var i :| 0 <= i < |row| && Signatures(row)[i] == Some(sig);
    assert HasKey(streams[i], k);
  }

  lemma NotWithheld(row: seq<Option<FileInfo>>, quorum: nat, sig: Signature)
    requires 2 * quorum > |row| || (quorum > 0 && NoMarkerLeads(Signatures(row), quorum))
    requires !sig.deleted && Count(Signatures(row), sig) >= quorum
    ensures !Withheld(row, quorum)
  {
    var votes := Signatures(row);
    forall other: Signature | Leading(votes, other, quorum)
      ensures !other.deleted
    {
      if other != sig {
        CountApart(votes, other, sig);
      }
    }
  }

  // ----- What an entry shows

  /** The entry shows v. */
  predicate Shows(item: ObjectInfo, v: FileInfo) {
    && item.size == (if v.size >= 0 then v.size else 0) && item.modified == v.modTime && item.versionId == v.versionId
    && item.etag == (if "etag" in v.metadata then v.metadata["etag"] else "")
    && item.inlined == v.data.Some? && item.deleteMarker == v.deleted
    && item.contentType == (if "content-type" in v.metadata then Some(v.metadata["content-type"]) else None)
  }

  /** An entry shows the record of the first of the disks that agree on it: at least
      a quorum, and no record of the key has more. */
  ghost predicate ShownFrom(row: seq<Option<FileInfo>>, quorum: nat, i: nat, item: ObjectInfo) {
    && i < |row| && row[i].Some? && !row[i].value.deleted && Shows(item, row[i].value)
    && |Agreeing(row, row[i].value)| >= quorum && (forall j :: j in Agreeing(row, row[i].value) ==> i <= j)
    && forall v: FileInfo {:trigger Agreeing(row, v)} :: |Agreeing(row, v)| <= |Agreeing(row, row[i].value)|
  }

  lemma ListedShown(row: seq<Option<FileInfo>>, quorum: nat, i: nat)
    requires ListedFrom(row, quorum, i)
    ensures ShownFrom(row, quorum, i, ToObjectInfo(row[i].value))
  {
    hide Agreeing, SignatureOf, Signatures;
    var w := row[i].value;
    AgreeingIs(row, w);
    forall v: FileInfo
      ensures |Agreeing(row, v)| <= |Agreeing(row, w)|
    {
      AgreeingIs(row, v);
    }
    FirstAgrees(row, i);
  }

  /** No record of the key has a quorum, or a delete marker has one and no record has
      more. */
  ghost predicate NotShown(row: seq<Option<FileInfo>>, quorum: nat) {
    || (forall v: FileInfo {:trigger Agreeing(row, v)} :: Agreeing(row, v) != {} ==> |Agreeing(row, v)| < quorum)
    || exists v: FileInfo :: v.deleted && MostAgreed(row, quorum, v)
  }

  ghost predicate MostAgreed(row: seq<Option<FileInfo>>, quorum: nat, v: FileInfo) {
    && |Agreeing(row, v)| >= quorum
    && forall w: FileInfo {:trigger Agreeing(row, w)} :: |Agreeing(row, w)| <= |Agreeing(row, v)|
  }

  lemma WithheldMeans(row: seq<Option<FileInfo>>, quorum: nat)
    ensures Withheld(row, quorum) ==> NotShown(row, quorum)
  {
    hide Agreeing, Signatures;
    forall v: FileInfo
      ensures |Agreeing(row, v)| == Count(Signatures(row), SignatureOf(v))
    {
      AgreeingIs(row, v);
    }
    if sig: Signature :| Leading(Signatures(row), sig, quorum) && sig.deleted {
      var v := SomeRecord(row, sig);
      assert MostAgreed(row, quorum, v);
    }
  }

  ghost predicate EntryFrom(streams: seq<seq<Entry<FileInfo>>>, quorum: nat, e: Entry<ObjectInfo>) {
    exists i: nat :: ShownFrom(Row(streams, e.key), quorum, i, e.item)
  }

  /** Every key that is not listed is one the vote does not show. */
  ghost predicate RestNotShown(streams: seq<seq<Entry<FileInfo>>>, quorum: nat, out: seq<Entry<ObjectInfo>>) {
    forall k {:trigger HasKey(out, k)} :: AnyHas(streams, k) && !HasKey(out, k) ==> NotShown(Row(streams, k), quorum)
  }

  lemma ListingShown(streams: seq<seq<Entry<FileInfo>>>, quorum: nat, out: seq<Entry<ObjectInfo>>)
    requires IsSetListing(streams, quorum, out)
    ensures forall j :: 0 <= j < |out| ==> EntryFrom(streams, quorum, out[j])
    ensures RestNotShown(streams, quorum, out)
  {
    hide ShownFrom, NotShown, Withheld, Row;
    forall j | 0 <= j < |out|
      ensures EntryFrom(streams, quorum, out[j])
    {
      EntryShown(streams, quorum, out, j);
    }
    forall k | AnyHas(streams, k) && !HasKey(out, k)
      ensures NotShown(Row(streams, k), quorum)
    {
      WithheldMeans(Row(streams, k), quorum);
    }
  }

  lemma FirstAgrees(row: seq<Option<FileInfo>>, i: nat)
    requires i < |row| && row[i].Some? && FirstAt(Signatures(row), SignatureOf(row[i].value), i)
    ensures forall j :: j in Agreeing(row, row[i].value) ==> i <= j
  {
  }

  /** Every entry of a listing. */
  lemma EntryShown(streams: seq<seq<Entry<FileInfo>>>, quorum: nat, out: seq<Entry<ObjectInfo>>, j: nat)
    requires IsSetListing(streams, quorum, out) && j < |out|
    ensures exists i: nat :: ShownFrom(Row(streams, out[j].key), quorum, i, out[j].item)
  {
    hide ShownFrom, Row;
    assert EntryVoted(streams, quorum, out[j]);
    var i: nat :| ListedFrom(Row(streams, out[j].key), quorum, i) && out[j].item == ToObjectInfo(Row(streams, out[j].key)[i].value);
    ListedShown(Row(streams, out[j].key), quorum, i);
  }

  /** When two quorums cannot fit: a record that a quorum of disks agree on, and that
      is not a delete marker, is what the listing shows under its key. */
  lemma AgreedIsShown(streams: seq<seq<Entry<FileInfo>>>, quorum: nat, out: seq<Entry<ObjectInfo>>, k: string, v: FileInfo)
    requires IsSetListing(streams, quorum, out) && 2 * quorum > |streams| && !v.deleted && |Agreeing(Row(streams, k), v)| >= quorum
    ensures exists j :: 0 <= j < |out| && EntryOf(out[j], k, v)
  {
    hide Agreeing, Row, IsSetListing, Signatures;
    var row := Row(streams, k);
    assert Agreed(row, quorum);
    ListedIff(streams, quorum, out, k);
    var j :| 0 <= j < |out| && out[j].key == k;
    EntryShown(streams, quorum, out, j);
    var i: nat :| ShownFrom(row, quorum, i, out[j].item);
    OneAgreed(row, quorum, row[i].value, v);
    assert EntryOf(out[j], k, v);
  }

  /** The entry is k's, with the size, time, version and etag of v. */
  predicate EntryOf(e: Entry<ObjectInfo>, k: string, v: FileInfo) {
    && e.key == k && e.item.size == (if v.size >= 0 then v.size else 0) && e.item.modified == v.modTime
    && e.item.versionId == v.versionId && e.item.etag == (if "etag" in v.metadata then v.metadata["etag"] else "")
  }

  lemma OneAgreed(row: seq<Option<FileInfo>>, quorum: nat, a: FileInfo, b: FileInfo)
    requires 2 * quorum > |row| && |Agreeing(row, a)| >= quorum && |Agreeing(row, b)| >= quorum
    ensures SameEntry(a, b)
  {
    hide Signatures;
    AgreeingIs(row, a);
    AgreeingIs(row, b);
    if SignatureOf(a) != SignatureOf(b) {
      CountApart(Signatures(row), SignatureOf(a), SignatureOf(b));
    }
  }

  // ----- Ties

  /** Two disks with a quorum of one, one of which has a delete marker: the key may
      be listed and it may be withheld. */
  lemma TieEitherWay(a: FileInfo, d: FileInfo)
    requires !a.deleted && d.deleted
    ensures
      var row := [Some(a), Some(d)];
      ListedFrom(row, 1, 0) && Withheld(row, 1)
  {
    var row := [Some(a), Some(d)];
    var sa, sd := SignatureOf(a), SignatureOf(d);
    assert Signatures(row) == [Some(sa), Some(sd)];
    forall x
      ensures Count(Signatures(row), x) == (if sa == x then 1 else 0) + (if sd == x then 1 else 0)
    {
      CountTwo(Some(sa), Some(sd), x);
    }
    assert Leading(Signatures(row), sd, 1);
  }

  // ----- Pages: every disk is asked for its first c keys only

  function KeysOf<T>(s: seq<Entry<T>>): (keys: seq<string>)
    ensures |keys| == |s| && forall i :: 0 <= i < |s| ==> keys[i] == s[i].key
  {
    seq(|s|, i requires 0 <= i < |s| => s[i].key)
  }

  /** How many keys of an ordered stream come before k. */
  function Rank<T>(s: seq<Entry<T>>, k: string): nat {
    if s == [] || !Less(s[0].key, k) then 0 else 1 + Rank(s[1..], k)
  }

  lemma {:induction false} RankAt<T>(s: seq<Entry<T>>, i: nat)
    requires Ordered(s) && i < |s|
    ensures Rank(s, s[i].key) == i
  {
    LessIrreflexive(s[i].key);
    if i > 0 {
      RankAt(s[1..], i - 1);
    }
  }

  /** What disk i says about k when it is asked for c keys. */
  lemma CutSays<T>(s: seq<Entry<T>>, c: nat, k: string)
    requires Ordered(s)
    ensures Lookup(Take(s, c), k) == (if Rank(s, k) < c then Lookup(s, k) else None)
  {
    hide Lookup;
    if HasKey(s, k) {
      var i :| 0 <= i < |s| && s[i].key == k;
      RankAt(s, i);
      LookupAt(s, i);
      if i < c {
        CutLookup(s, c, i);
      } else {
        BeyondCut(s, c, i);
      }
    } else {
      CutMisses(s, c, k);
      assert Lookup(s, k).None?;
    }
  }

  lemma BeyondCut<T>(s: seq<Entry<T>>, c: nat, i: nat)
    requires Ordered(s) && c <= i < |s|
    ensures Lookup(Take(s, c), s[i].key) == None
  {
    forall h | 0 <= h < |Take(s, c)|
      ensures Take(s, c)[h].key != s[i].key
    {
      LessNot(s[h].key, s[i].key);
    }
  }

  /** The disks' records of k, without those that have c smaller keys. */
  function NearRow(streams: seq<seq<Entry<FileInfo>>>, c: nat, k: string): (r: seq<Option<FileInfo>>)
    ensures |r| == |streams|
    ensures forall i :: 0 <= i < |r| ==> r[i] == (if Rank(streams[i], k) < c then Lookup(streams[i], k) else None)
  {
    seq(|streams|, i requires 0 <= i < |streams| => if Rank(streams[i], k) < c then Lookup(streams[i], k) else None)
  }

  /** A quorum of disks agree on k, and each has fewer than c keys before it. */
  ghost predicate Near(streams: seq<seq<Entry<FileInfo>>>, quorum: nat, c: nat, k: string) {
    Agreed(NearRow(streams, c, k), quorum)
  }

  lemma CutRowIs(streams: seq<seq<Entry<FileInfo>>>, c: nat, k: string)
    requires AllOrdered(streams)
    ensures Row(CutAll(streams, c), k) == NearRow(streams, c, k)
  {
    hide Lookup, Rank, Take;
    forall i | 0 <= i < |streams|
      ensures Row(CutAll(streams, c), k)[i] == NearRow(streams, c, k)[i]
    {
      CutSays(streams[i], c, k);
    }
  }

  /** A vote among fewer voters has fewer votes. */
  lemma {:induction false} CountFewer<T>(a: seq<Option<T>>, b: seq<Option<T>>, x: T)
    requires |a| == |b| && forall i :: 0 <= i < |a| ==> a[i] == b[i] || a[i].None?
    ensures Count(a, x) <= Count(b, x)
  {
    if a != [] {
      CountFewer(a[..|a| - 1], b[..|a| - 1], x);
    }
  }

  /** What one result was before the cut has one after it. */
  lemma CutDecisive(streams: seq<seq<Entry<FileInfo>>>, quorum: nat, c: nat, k: string)
    requires AllOrdered(streams) && Decisive(streams, quorum, k)
    ensures Decisive(CutAll(streams, c), quorum, k)
  {
    hide Agreeing, AllOrdered, NearRow;
    if 2 * quorum <= |streams| {
      CutRowIs(streams, c, k);
      forall v: FileInfo | v.deleted
        ensures |Agreeing(NearRow(streams, c, k), v)| < quorum
      {
        FewerNear(streams, c, k, v);
      }
    }
  }

  lemma FewerNear(streams: seq<seq<Entry<FileInfo>>>, c: nat, k: string, v: FileInfo)
    ensures |Agreeing(NearRow(streams, c, k), v)| <= |Agreeing(Row(streams, k), v)|
  {
    hide Rank, Lookup, Agreeing;
    AgreeingIs(NearRow(streams, c, k), v);
    AgreeingIs(Row(streams, k), v);
    CountFewer(Signatures(NearRow(streams, c, k)), Signatures(Row(streams, k)), SignatureOf(v));
  }

  lemma NearIsListed(streams: seq<seq<Entry<FileInfo>>>, quorum: nat, out: seq<Entry<ObjectInfo>>, c: nat, k: string)
    requires IsSetListing(streams, quorum, out) && Decisive(streams, quorum, k) && Near(streams, quorum, c, k)
    ensures HasKey(out, k)
  {
    hide IsSetListing, HasKey;
    var v: FileInfo :| !v.deleted && |Agreeing(NearRow(streams, c, k), v)| >= quorum;
    FewerNear(streams, c, k, v);
    ListedIff(streams, quorum, out, k);
  }

  /** When each disk is asked for its first c keys, the first c keys listed are
      those of the whole listing exactly when each of these is held, in agreement
      and with fewer than c keys before it, by a quorum of the disks. */
  lemma SetPageIff(streams: seq<seq<Entry<FileInfo>>>, quorum: nat, out: seq<Entry<ObjectInfo>>, cut: seq<Entry<ObjectInfo>>, c: nat)
    requires AllOrdered(streams) && forall k :: Decisive(streams, quorum, k)
    requires IsSetListing(streams, quorum, out) && IsSetListing(CutAll(streams, c), quorum, cut)
    ensures KeysOf(Take(cut, c)) == KeysOf(Take(out, c)) <==>
      forall j :: 0 <= j < |out| && j < c ==> Near(streams, quorum, c, out[j].key)
  {
    hide Near, EntryVoted, Row, CutAll, Withheld, Decisive;
    var m := Min(c, |out|);
    forall k
      ensures HasKey(cut, k) <==> Near(streams, quorum, c, k)
    {
      CutListed(streams, quorum, cut, c, k);
    }
    forall i | 0 <= i < |cut|
      ensures HasKey(out, cut[i].key)
    {
      assert HasKey(cut, cut[i].key) && Decisive(streams, quorum, cut[i].key);
      NearIsListed(streams, quorum, out, c, cut[i].key);
    }
    PageKeys(out, cut, c);
  }

  lemma CutListed(streams: seq<seq<Entry<FileInfo>>>, quorum: nat, cut: seq<Entry<ObjectInfo>>, c: nat, k: string)
    requires AllOrdered(streams) && Decisive(streams, quorum, k) && IsSetListing(CutAll(streams, c), quorum, cut)
    ensures HasKey(cut, k) <==> Near(streams, quorum, c, k)
  {
    hide IsSetListing, HasKey, AllOrdered;
    CutDecisive(streams, quorum, c, k);
    ListedIff(CutAll(streams, c), quorum, cut, k);
    CutRowIs(streams, c, k);
  }

  /** A list whose keys are all keys of another has the same first c keys exactly
      when it has the other's first c. */
  lemma PageKeys<T>(out: seq<Entry<T>>, cut: seq<Entry<T>>, c: nat)
    requires Ordered(out) && Ordered(cut)
    requires forall i :: 0 <= i < |cut| ==> HasKey(out, cut[i].key)
    ensures KeysOf(Take(cut, c)) == KeysOf(Take(out, c)) <==>
      forall j :: 0 <= j < |out| && j < c ==> HasKey(cut, out[j].key)
  {
    hide Ordered;
    var m := Min(c, |out|);
    if KeysOf(Take(cut, c)) == KeysOf(Take(out, c)) {
      forall j | 0 <= j < |out| && j < c
        ensures HasKey(cut, out[j].key)
      {
        assert KeysOf(Take(out, c))[j] == out[j].key;
        assert KeysOf(Take(cut, c))[j] == cut[j].key;
      }
    }
    if forall j :: 0 <= j < |out| && j < c ==> HasKey(cut, out[j].key) {
      SameStart(out, cut, m);
      NoMore(out, cut, c);
    }
  }

  lemma NoMore<T>(out: seq<Entry<T>>, cut: seq<Entry<T>>, c: nat)
    requires Ordered(out) && Ordered(cut)
    requires forall i :: 0 <= i < |cut| ==> HasKey(out, cut[i].key)
    requires Min(c, |out|) <= |cut| && forall j :: 0 <= j < Min(c, |out|) ==> cut[j].key == out[j].key
    ensures KeysOf(Take(cut, c)) == KeysOf(Take(out, c))
  {
    if |out| < c && |cut| > |out| {
      var i := |out|;
      assert HasKey(out, cut[i].key);
      var j :| 0 <= j < |out| && out[j].key == cut[i].key;
      LessNot(cut[j].key, cut[i].key);
    }
  }

  /** Where every key of every disk is listed, pages are exact. */
  lemma SetPageWithoutStale(streams: seq<seq<Entry<FileInfo>>>, quorum: nat, out: seq<Entry<ObjectInfo>>, cut: seq<Entry<ObjectInfo>>, c: nat)
    requires AllOrdered(streams) && forall k :: Decisive(streams, quorum, k)
    requires IsSetListing(streams, quorum, out) && IsSetListing(CutAll(streams, c), quorum, cut)
    requires forall i, p :: 0 <= i < |streams| && 0 <= p < |streams[i]| ==> HasKey(out, streams[i][p].key)
    ensures KeysOf(Take(cut, c)) == KeysOf(Take(out, c))
  {
    hide IsSetListing;
    forall j | 0 <= j < |out| && j < c
      ensures Near(streams, quorum, c, out[j].key)
    {
      AllNear(streams, quorum, out, c, j);
    }
    SetPageIff(streams, quorum, out, cut, c);
  }

  lemma AllNear(streams: seq<seq<Entry<FileInfo>>>, quorum: nat, out: seq<Entry<ObjectInfo>>, c: nat, j: nat)
    requires AllOrdered(streams) && IsSetListing(streams, quorum, out) && j < |out| && j < c && Decisive(streams, quorum, out[j].key)
    requires forall i, p :: 0 <= i < |streams| && 0 <= p < |streams[i]| ==> HasKey(out, streams[i][p].key)
    ensures Near(streams, quorum, c, out[j].key)
  {
    hide Lookup, Rank, EntryVoted, Withheld;
    var k := out[j].key;
    assert HasKey(out, k);
    ListedIff(streams, quorum, out, k);
    forall i | 0 <= i < |streams|
      ensures NearRow(streams, c, k)[i] == Row(streams, k)[i]
    {
      if HasKey(streams[i], k) {
        var p :| 0 <= p < |streams[i]| && streams[i][p].key == k;
        RankAt(streams[i], p);
        NoLater(streams[i], out, p, j);
      } else {
        assert Lookup(streams[i], k).None?;
      }
    }
    assert NearRow(streams, c, k) == Row(streams, k);
  }

  lemma AloneWithheld(row: seq<Option<FileInfo>>)
    requires |row| == 2 && (row[0].None? || row[1].None?)
    ensures Withheld(row, 2)
  {
    var votes := Signatures(row);
    forall x
      ensures Count(votes, x) < 2
    {
      assert votes == [votes[0], votes[1]];
      CountTwo(votes[0], votes[1], x);
    }
  }

  lemma BothListed(v: FileInfo)
    requires !v.deleted
    ensures ListedFrom([Some(v), Some(v)], 2, 0)
  {
    var row := [Some(v), Some(v)];
    var sig := SignatureOf(v);
    assert Signatures(row) == [Some(sig), Some(sig)];
    forall x
      ensures Count(Signatures(row), x) == (if x == sig then 2 else 0)
    {
      CountTwo(Some(sig), Some(sig), x);
    }
  }

  /** n + 1 times the letter a. */
  function As(n: nat): string {
    if n == 0 then "a" else "a" + As(n - 1)
  }

  lemma {:induction false} AsRise(i: nat, j: nat)
    requires i < j
    ensures Less(As(i), As(j))
  {
    if i == 0 {
      assert As(j)[0] == 'a' && As(j)[1..] == As(j - 1) && As(j - 1) != [];
      assert "a"[1..] == [] && Less([], As(j - 1));
    } else {
      AsRise(i - 1, j - 1);
      assert As(i)[1..] == As(i - 1) && As(j)[1..] == As(j - 1);
    }
  }

  lemma AsBeforeB(i: nat)
    ensures Less(As(i), "b") && As(i) != "b"
  {
    assert As(i)[0] == 'a';
    assert "b"[0] == 'b';
  }

  /** c keys that only this disk still has, and then b. */
  function Behind(v: FileInfo, stale: FileInfo, c: nat): (s: seq<Entry<FileInfo>>)
    ensures |s| == c + 1 && s[c] == Entry("b", v) && forall i :: 0 <= i < c ==> s[i] == Entry(As(i), stale)
  {
    seq(c, i requires 0 <= i < c => Entry(As(i), stale)) + [Entry("b", v)]
  }

  lemma BehindOrdered(v: FileInfo, stale: FileInfo, c: nat)
    ensures Ordered(Behind(v, stale, c))
  {
    var s := Behind(v, stale, c);
    forall i, j | 0 <= i < j < |s|
      ensures Less(s[i].key, s[j].key)
    {
      if j < c {
        AsRise(i, j);
      } else {
        AsBeforeB(i);
      }
    }
  }

  lemma BehindSays(v: FileInfo, stale: FileInfo, c: nat)
    ensures Lookup(Behind(v, stale, c), "b") == Some(v)
    ensures Lookup(Take(Behind(v, stale, c), c), "b") == None
  {
    hide Lookup;
    var s := Behind(v, stale, c);
    BehindOrdered(v, stale, c);
    LookupAt(s, c);
    BeyondCut(s, c, c);
  }

  lemma AheadSays(v: FileInfo)
    ensures Ordered([Entry("b", v)])
    ensures forall k :: Lookup([Entry("b", v)], k) == (if k == "b" then Some(v) else None)
  {
    assert [Entry("b", v)][1..] == [];
  }

  /** A set of three with one disk offline, listed in pages of `maxKeys` keys, for
      which each disk is asked for one key more: that many stale keys on one of the
      other two hide a key that both hold, and the page is empty. */
  lemma StaleKeysHide(v: FileInfo, stale: FileInfo, maxKeys: nat)
    requires !v.deleted && maxKeys > 0
    ensures
      var streams := [[Entry("b", v)], Behind(v, stale, maxKeys + 1)];
      && AllOrdered(streams)
      && IsSetListing(streams, 2, [Entry("b", ToObjectInfo(v))])
      && IsSetListing(CutAll(streams, maxKeys + 1), 2, [])
  {
    hide ListedFrom, Withheld, ToObjectInfo, Lookup, Ordered;
    var c := maxKeys + 1;
    var one, two := [Entry("b", v)], Behind(v, stale, c);
    var streams, out := [one, two], [Entry("b", ToObjectInfo(v))];
    AheadSays(v);
    BehindOrdered(v, stale, c);
    BehindSays(v, stale, c);
    assert out[0].key == "b" && HasKey(out, "b");
    assert Row(streams, "b") == [Some(v), Some(v)];
    BothListed(v);
    assert EntryVoted(streams, 2, out[0]);
    OneOrdered(ToObjectInfo(v));
    forall k | AnyHas(streams, k) && !HasKey(out, k)
      ensures Withheld(Row(streams, k), 2)
    {
      AloneWithheld(Row(streams, k));
    }
    var cut := CutAll(streams, c);
    assert Take(one, c) == one;
    forall k
      ensures Withheld(Row(cut, k), 2)
    {
      AloneWithheld(Row(cut, k));
    }
  }

  lemma OneOrdered(info: ObjectInfo)
    ensures Ordered([Entry("b", info)]) && Ordered<ObjectInfo>([])
  {
  }
}
