/** Listing: walking key-ordered streams key by key, and the merge of the sets'
    lists (crates/openlake_storage/src/engine.rs:1412-1442, 2444-2482). */
module Listing {
  import opened Bytes

  // ----- Key order

  /** The order of keys: character by character, a proper prefix first. */
  predicate Less(a: string, b: string) {
    b != [] && (a == [] || a[0] < b[0] || (a[0] == b[0] && Less(a[1..], b[1..])))
  }

  lemma {:induction false} LessTrans(a: string, b: string, c: string)
    requires Less(a, b) && Less(b, c)
    ensures Less(a, c)
  {
    if a != [] && a[0] == b[0] && b[0] == c[0] {
      LessTrans(a[1..], b[1..], c[1..]);
    }
  }

  lemma {:induction false} LessIrreflexive(a: string)
    ensures !Less(a, a)
  {
    if a != [] {
      LessIrreflexive(a[1..]);
    }
  }

  lemma {:induction false} LessTotal(a: string, b: string)
    ensures a == b || Less(a, b) || Less(b, a)
  {
    if a != [] && b != [] && a[0] == b[0] {
      LessTotal(a[1..], b[1..]);
      assert a == [a[0]] + a[1..] && b == [b[0]] + b[1..];
    }
  }

  /** `a` ends, or has the smaller character, where the two first differ. */
  ghost predicate FirstDifference(a: string, b: string, i: nat) {
    i <= |a| && i < |b| && a[..i] == b[..i] && (i == |a| || a[i] < b[i])
  }

  lemma {:induction false} LessIff(a: string, b: string)
    ensures Less(a, b) <==> exists i: nat :: FirstDifference(a, b, i)
  {
    if b != [] {
      if a == [] || a[0] < b[0] {
        assert FirstDifference(a, b, 0);
      } else if a[0] == b[0] {
        LessIff(a[1..], b[1..]);
        if i: nat :| FirstDifference(a[1..], b[1..], i) {
          assert a[..i + 1] == [a[0]] + a[1..][..i] && b[..i + 1] == [b[0]] + b[1..][..i];
          assert FirstDifference(a, b, i + 1);
        }
        if i: nat :| FirstDifference(a, b, i) {
          assert i > 0;
          assert a[1..][..i - 1] == a[..i][1..] && b[1..][..i - 1] == b[..i][1..];
          assert FirstDifference(a[1..], b[1..], i - 1);
        }
      }
    }
  }

  lemma LessNot(a: string, b: string)
    requires Less(a, b)
    ensures a != b && !Less(b, a)
  {
    LessIrreflexive(a);
    if Less(b, a) {
      LessTrans(a, b, a);
    }
  }

  /** An entry of a stream: a key and what is known under it. */
  datatype Entry<T> = Entry(key: string, item: T)

  ghost predicate Ordered<T>(s: seq<Entry<T>>) {
    forall i, j :: 0 <= i < j < |s| ==> Less(s[i].key, s[j].key)
  }

  ghost predicate AllOrdered<T>(streams: seq<seq<Entry<T>>>) {
    forall i :: 0 <= i < |streams| ==> Ordered(streams[i])
  }

  predicate HasKey<T>(s: seq<Entry<T>>, k: string) {
    exists i :: 0 <= i < |s| && s[i].key == k
  }

  /** What a stream says about a key. */
  function Lookup<T>(s: seq<Entry<T>>, k: string): (r: Option<T>)
    ensures r.Some? <==> HasKey(s, k)
  {
    if s == [] then None
    else if s[0].key == k then assert s[0].key == k; Some(s[0].item)
    else
      assert HasKey(s[1..], k) ==> HasKey(s, k) by {
        if i :| 0 <= i < |s[1..]| && s[1..][i].key == k {
          assert s[i + 1].key == k;
        }
      }
      assert HasKey(s, k) ==> HasKey(s[1..], k) by {
        if i :| 0 <= i < |s| && s[i].key == k {
          assert s[1..][i - 1].key == k;
        }
      }
      Lookup(s[1..], k)
  }

  lemma {:induction false} LookupAt<T>(s: seq<Entry<T>>, i: nat)
    requires Ordered(s) && i < |s|
    ensures Lookup(s, s[i].key) == Some(s[i].item)
  {
    if i > 0 {
      LessNot(s[0].key, s[i].key);
      LookupAt(s[1..], i - 1);
    }
  }

  // ----- Walking several streams key by key

  /** What each stream says about a key. */
  function Row<T>(streams: seq<seq<Entry<T>>>, k: string): (r: seq<Option<T>>)
    ensures |r| == |streams| && forall i :: 0 <= i < |r| ==> r[i] == Lookup(streams[i], k)
  {
    seq(|streams|, i requires 0 <= i < |streams| => Lookup(streams[i], k))
  }

  predicate AnyHas<T>(streams: seq<seq<Entry<T>>>, k: string) {
    exists i :: 0 <= i < |streams| && HasKey(streams[i], k)
  }

  type Rows<T> = seq<(string, seq<Option<T>>)>

  predicate RowHas<T>(rows: Rows<T>, k: string) {
    exists i :: 0 <= i < |rows| && rows[i].0 == k
  }

  ghost predicate Rising<T>(rows: Rows<T>) {
    forall i, j :: 0 <= i < j < |rows| ==> Less(rows[i].0, rows[j].0)
  }

  /** The rows of all keys of the streams, in key order. */
  ghost predicate Walk<T>(streams: seq<seq<Entry<T>>>, rows: Rows<T>) {
    && Rising(rows)
    && (forall i :: 0 <= i < |rows| ==> rows[i].1 == Row(streams, rows[i].0))
    && (forall k {:trigger AnyHas(streams, k)} {:trigger RowHas(rows, k)} :: AnyHas(streams, k) <==> RowHas(rows, k))
  }

  /** A stream without its first entry, if that has key k. */
  function Past<T>(s: seq<Entry<T>>, k: string): seq<Entry<T>> {
    if s != [] && s[0].key == k then s[1..] else s
  }

  function AllPast<T>(streams: seq<seq<Entry<T>>>, k: string): (r: seq<seq<Entry<T>>>)
    ensures |r| == |streams| && forall i :: 0 <= i < |r| ==> r[i] == Past(streams[i], k)
  {
    seq(|streams|, i requires 0 <= i < |streams| => Past(streams[i], k))
  }

  /** k is the smallest key at the head of a stream. */
  ghost predicate Smallest<T>(streams: seq<seq<Entry<T>>>, k: string) {
    && (exists i :: 0 <= i < |streams| && streams[i] != [] && streams[i][0].key == k)
    && (forall i :: 0 <= i < |streams| && streams[i] != [] ==> !Less(streams[i][0].key, k))
  }

  lemma PastOrdered<T>(s: seq<Entry<T>>, k: string)
    requires Ordered(s) && (s != [] ==> !Less(s[0].key, k))
    ensures Ordered(Past(s, k))
    ensures forall i :: 0 <= i < |Past(s, k)| ==> Less(k, Past(s, k)[i].key)
  {
    if s != [] {
      LessTotal(s[0].key, k);
      forall i | 0 <= i < |Past(s, k)|
        ensures Less(k, Past(s, k)[i].key)
      {
        if s[0].key != k && i > 0 {
          LessTrans(k, s[0].key, s[i].key);
        }
      }
    }
  }

  /** At the smallest key, a stream knows the key iff it is at its head. */
  lemma HeadIsLookup<T>(s: seq<Entry<T>>, k: string)
    requires Ordered(s) && (s != [] ==> !Less(s[0].key, k))
    ensures Lookup(s, k) == (if s != [] && s[0].key == k then Some(s[0].item) else None)
  {
    LessIrreflexive(k);
    PastOrdered(s, k);
    assert s != [] && s[0].key != k ==> Past(s, k) == s;
  }

  lemma PastKeeps<T>(s: seq<Entry<T>>, k: string, x: string)
    requires x != k
    ensures Lookup(Past(s, k), x) == Lookup(s, x)
  {
  }

  lemma AnyPast<T>(streams: seq<seq<Entry<T>>>, k: string, x: string)
    requires x != k
    ensures AnyHas(AllPast(streams, k), x) <==> AnyHas(streams, x)
    ensures Row(AllPast(streams, k), x) == Row(streams, x)
  {
    forall i | 0 <= i < |streams|
      ensures Lookup(AllPast(streams, k)[i], x) == Lookup(streams[i], x)
      ensures HasKey(AllPast(streams, k)[i], x) <==> HasKey(streams[i], x)
    {
      PastKeeps(streams[i], k, x);
    }
  }

  lemma PastBeyond<T>(streams: seq<seq<Entry<T>>>, k: string, x: string)
    requires AllOrdered(streams) && Smallest(streams, k) && AnyHas(AllPast(streams, k), x)
    ensures Less(k, x)
  {
    var i :| 0 <= i < |streams| && HasKey(AllPast(streams, k)[i], x);
    PastOrdered(streams[i], k);
  }

  lemma RowHasCons<T>(row: (string, seq<Option<T>>), rows: Rows<T>, x: string)
    ensures RowHas([row] + rows, x) <==> row.0 == x || RowHas(rows, x)
  {
    var all := [row] + rows;
    if row.0 == x {
      assert all[0].0 == x;
    }
    if i :| 0 <= i < |rows| && rows[i].0 == x {
      assert all[i + 1].0 == x;
    }
    if i :| 0 <= i < |all| && all[i].0 == x {
      if i > 0 {
        assert rows[i - 1].0 == x;
      }
    }
  }

  /** One step: the smallest key first, then a walk of what is left. */
  lemma WalkStep<T>(streams: seq<seq<Entry<T>>>, k: string, rows: Rows<T>)
    requires AllOrdered(streams) && Smallest(streams, k) && Walk(AllPast(streams, k), rows)
    ensures Walk(streams, [(k, Row(streams, k))] + rows)
  {
    hide Lookup, HasKey, Smallest, AllOrdered;
    var all := [(k, Row(streams, k))] + rows;
    forall x
      ensures AnyHas(streams, x) <==> RowHas(all, x)
    {
      RowHasCons((k, Row(streams, k)), rows, x);
      if x == k {
        SmallestKnown(streams, k);
      } else {
        AnyPast(streams, k, x);
        assert AnyHas(AllPast(streams, k), x) <==> RowHas(rows, x);
      }
    }
    forall i | 0 <= i < |rows|
      ensures Less(k, rows[i].0) && rows[i].1 == Row(streams, rows[i].0)
    {
      assert RowHas(rows, rows[i].0);
      PastBeyond(streams, k, rows[i].0);
      LessNot(k, rows[i].0);
      AnyPast(streams, k, rows[i].0);
    }
  }

  lemma SmallestKnown<T>(streams: seq<seq<Entry<T>>>, k: string)
    requires Smallest(streams, k)
    ensures AnyHas(streams, k)
  {
    var i :| 0 <= i < |streams| && streams[i] != [] && streams[i][0].key == k;
    assert HasKey(streams[i], k);
  }

  lemma WalkNothing<T>(streams: seq<seq<Entry<T>>>)
    requires forall i :: 0 <= i < |streams| ==> streams[i] == []
    ensures Walk(streams, [])
  {
  }

  // ----- The loops

  /** What is left of each stream beyond its head position. */
  ghost function Rest<T>(streams: seq<seq<Entry<T>>>, heads: seq<nat>): (r: seq<seq<Entry<T>>>)
    requires |heads| == |streams| && forall i :: 0 <= i < |heads| ==> heads[i] <= |streams[i]|
    ensures |r| == |streams| && forall i :: 0 <= i < |r| ==> r[i] == streams[i][heads[i]..]
  {
    seq(|streams|, i requires 0 <= i < |streams| => streams[i][heads[i]..])
  }

  predicate HeadsOk<T>(streams: seq<seq<Entry<T>>>, heads: seq<nat>) {
    |heads| == |streams| && forall i :: 0 <= i < |heads| ==> heads[i] <= |streams[i]|
  }

  ghost predicate AllEmpty<T>(streams: seq<seq<Entry<T>>>) {
    forall i :: 0 <= i < |streams| ==> streams[i] == []
  }

  /** The smallest key at the heads. */
  method FindSmallest<T>(streams: seq<seq<Entry<T>>>, heads: seq<nat>) returns (r: Option<string>)
    requires HeadsOk(streams, heads)
    ensures r.None? <==> AllEmpty(Rest(streams, heads))
    ensures r.Some? ==> Smallest(Rest(streams, heads), r.value)
  {
    r := None;
    ghost var rest: seq<seq<Entry<T>>> := Rest(streams, heads);
    for i := 0 to |streams|
      invariant r.None? <==> forall j :: 0 <= j < i ==> rest[j] == []
      invariant r.Some? ==> exists j :: 0 <= j < i && rest[j] != [] && rest[j][0].key == r.value
      invariant r.Some? ==> forall j :: 0 <= j < i && rest[j] != [] ==> !Less(rest[j][0].key, r.value)
    {
      if heads[i] < |streams[i]| {
        var name := streams[i][heads[i]].key;
        assert rest[i] != [] && rest[i][0].key == name;
        if r.None? || Less(name, r.value) {
          Lower(rest, i, r, name);
          r := Some(name);
        }
      }
    }
  }

  lemma Lower<T>(rest: seq<seq<Entry<T>>>, i: nat, r: Option<string>, name: string)
    requires i < |rest| && (r.Some? ==> Less(name, r.value))
    requires r.None? ==> forall j :: 0 <= j < i ==> rest[j] == []
    requires r.Some? ==> forall j :: 0 <= j < i && rest[j] != [] ==> !Less(rest[j][0].key, r.value)
    requires rest[i] != [] && rest[i][0].key == name
    ensures forall j :: 0 <= j < i + 1 && rest[j] != [] ==> !Less(rest[j][0].key, name)
  {
    LessIrreflexive(name);
    forall j | 0 <= j < i && rest[j] != []
      ensures !Less(rest[j][0].key, name)
    {
      if Less(rest[j][0].key, name) {
        LessTrans(rest[j][0].key, name, r.value);
      }
    }
  }

  /** Takes key k off every stream that has it at its head. */
  method TakeKey<T>(streams: seq<seq<Entry<T>>>, heads: seq<nat>, k: string) returns (row: seq<Option<T>>, heads': seq<nat>)
    requires HeadsOk(streams, heads) && AllOrdered(Rest(streams, heads)) && Smallest(Rest(streams, heads), k)
    ensures HeadsOk(streams, heads') && row == Row(Rest(streams, heads), k)
    ensures Rest(streams, heads') == AllPast(Rest(streams, heads), k)
  {
    ghost var rest: seq<seq<Entry<T>>> := Rest(streams, heads);
    row, heads' := [], heads;
    for i := 0 to |streams|
      invariant HeadsOk(streams, heads') && |row| == i
      invariant forall j :: 0 <= j < i ==> row[j] == Lookup(rest[j], k) && streams[j][heads'[j]..] == Past(rest[j], k)
      invariant forall j :: i <= j < |streams| ==> heads'[j] == heads[j]
    {
      hide Lookup;
      HeadIsLookup(rest[i], k);
      if heads[i] < |streams[i]| && streams[i][heads[i]].key == k {
        row := row + [Some(streams[i][heads[i]].item)];
        heads' := heads'[i := heads[i] + 1];
      } else {
        row := row + [None];
      }
    }
  }

  /** Entries left to walk. */
  ghost function Left<T>(streams: seq<seq<Entry<T>>>): nat {
    if streams == [] then 0 else Left(streams[..|streams| - 1]) + |streams[|streams| - 1]|
  }

  lemma {:induction false} LeftPast<T>(streams: seq<seq<Entry<T>>>, k: string)
    ensures Left(AllPast(streams, k)) <= Left(streams)
    ensures (exists i :: 0 <= i < |streams| && streams[i] != [] && streams[i][0].key == k) ==> Left(AllPast(streams, k)) < Left(streams)
  {
    if streams != [] {
      var n := |streams| - 1;
      assert AllPast(streams, k)[..n] == AllPast(streams[..n], k);
      LeftPast(streams[..n], k);
      if i :| 0 <= i < |streams| && streams[i] != [] && streams[i][0].key == k {
        if i < n {
          assert streams[..n][i] == streams[i];
        }
      }
    }
  }

  lemma PastAllOrdered<T>(streams: seq<seq<Entry<T>>>, k: string)
    requires AllOrdered(streams) && Smallest(streams, k)
    ensures AllOrdered(AllPast(streams, k))
  {
    forall i | 0 <= i < |streams|
      ensures Ordered(AllPast(streams, k)[i])
    {
      PastOrdered(streams[i], k);
    }
  }

  /** What has been walked is the beginning of every complete walk. */
  ghost predicate Begun<T(!new)>(streams: seq<seq<Entry<T>>>, done: Rows<T>, rest: seq<seq<Entry<T>>>) {
    AllOrdered(rest) && forall rows: Rows<T> {:trigger Walk(rest, rows)} :: Walk(rest, rows) ==> Walk(streams, done + rows)
  }

  lemma BeginWalk<T(!new)>(streams: seq<seq<Entry<T>>>)
    requires AllOrdered(streams)
    ensures Begun(streams, [], streams)
  {
    hide Walk;
    forall rows: Rows<T> | Walk(streams, rows)
      ensures Walk(streams, [] + rows)
    {
      assert [] + rows == rows;
    }
  }

  lemma ContinueWalk<T(!new)>(streams: seq<seq<Entry<T>>>, done: Rows<T>, rest: seq<seq<Entry<T>>>, k: string)
    requires Begun(streams, done, rest) && Smallest(rest, k)
    ensures Begun(streams, done + [(k, Row(rest, k))], AllPast(rest, k))
  {
    hide Walk, AllOrdered, Smallest;
    PastAllOrdered(rest, k);
    forall rows: Rows<T> | Walk(AllPast(rest, k), rows)
      ensures Walk(streams, done + [(k, Row(rest, k))] + rows)
    {
      WalkStep(rest, k, rows);
      assert done + [(k, Row(rest, k))] + rows == done + ([(k, Row(rest, k))] + rows);
    }
  }

  lemma EndWalk<T(!new)>(streams: seq<seq<Entry<T>>>, done: Rows<T>, rest: seq<seq<Entry<T>>>)
    requires Begun(streams, done, rest) && AllEmpty(rest)
    ensures Walk(streams, done)
  {
    WalkNothing(rest);
    assert done + [] == done;
  }

  // ----- Across sets

  datatype ObjectInfo = ObjectInfo(
    size: nat,
    etag: string,
    inlined: bool,
    modified: nat,
    contentType: Option<string>,
    versionId: string,
    deleteMarker: bool)

  /** The newest entry of a row; among equally new ones that of the first stream. */
  function Newest(row: seq<Option<ObjectInfo>>): Option<ObjectInfo> {
    if row == [] then None
    else
      var best, last := Newest(row[..|row| - 1]), row[|row| - 1];
      if last.None? || (best.Some? && last.value.modified <= best.value.modified) then best else last
  }

  /** No entry of the row is newer, and none before it is as new. */
  ghost predicate IsNewest(row: seq<Option<ObjectInfo>>, i: nat) {
    && i < |row| && row[i].Some?
    && (forall j :: 0 <= j < |row| && row[j].Some? ==> row[j].value.modified <= row[i].value.modified)
    && (forall j :: 0 <= j < i && row[j].Some? ==> row[j].value.modified < row[i].value.modified)
  }

  lemma {:induction false} NewestIs(row: seq<Option<ObjectInfo>>) returns (i: nat)
    requires exists j :: 0 <= j < |row| && row[j].Some?
    ensures IsNewest(row, i) && Newest(row) == row[i]
  {
    var n := |row| - 1;
    if exists j :: 0 <= j < n && row[j].Some? {
      var j :| 0 <= j < n && row[j].Some?;
      assert row[..n][j].Some?;
      i := NewestIs(row[..n]);
      assert forall j :: 0 <= j < n ==> row[..n][j] == row[j];
      if row[n].Some? && row[n].value.modified > row[i].value.modified {
        i := n;
      }
    } else {
      NewestNone(row[..n]);
      i := n;
    }
  }

  lemma {:induction false} NewestNone(row: seq<Option<ObjectInfo>>)
    requires forall j :: 0 <= j < |row| ==> row[j].None?
    ensures Newest(row).None?
  {
    if row != [] {
      NewestNone(row[..|row| - 1]);
    }
  }

  method ChooseNewest(row: seq<Option<ObjectInfo>>) returns (r: Option<ObjectInfo>)
    ensures r == Newest(row)
  {
    r := None;
    for i := 0 to |row|
      invariant r == Newest(row[..i])
    {
      assert row[..i + 1][..i] == row[..i];
      if row[i].Some? && (r.None? || row[i].value.modified > r.value.modified) {
        r := row[i];
      }
    }
    assert row[..|row|] == row;
  }

  /** The merge of sorted streams: sorted, one entry for every key of any stream,
      the newest. */
  ghost predicate IsMerge(streams: seq<seq<Entry<ObjectInfo>>>, out: seq<Entry<ObjectInfo>>) {
    && Ordered(out)
    && (forall k {:trigger AnyHas(streams, k)} {:trigger HasKey(out, k)} :: AnyHas(streams, k) <==> HasKey(out, k))
    && (forall i :: 0 <= i < |out| ==> Newest(Row(streams, out[i].key)) == Some(out[i].item))
  }

  /** One entry per row. */
  ghost predicate Picked(out: seq<Entry<ObjectInfo>>, done: Rows<ObjectInfo>) {
    |out| == |done| && forall i :: 0 <= i < |out| ==> out[i].key == done[i].0 && Newest(done[i].1) == Some(out[i].item)
  }

  lemma PickedMerges(streams: seq<seq<Entry<ObjectInfo>>>, done: Rows<ObjectInfo>, out: seq<Entry<ObjectInfo>>)
    requires Walk(streams, done) && Picked(out, done)
    ensures IsMerge(streams, out)
  {
    hide Newest;
    forall k
      ensures HasKey(out, k) <==> RowHas(done, k)
    {
      if i :| 0 <= i < |out| && out[i].key == k {
        assert done[i].0 == k;
      }
      if i :| 0 <= i < |done| && done[i].0 == k {
        assert out[i].key == k;
      }
    }
  }

  lemma RowNewest(rest: seq<seq<Entry<ObjectInfo>>>, k: string)
    requires Smallest(rest, k)
    ensures Newest(Row(rest, k)).Some?
  {
    var i :| 0 <= i < |rest| && rest[i] != [] && rest[i][0].key == k;
    assert HasKey(rest[i], k);
    assert Row(rest, k)[i].Some?;
    var j := NewestIs(Row(rest, k));
  }

  method MergeAcrossSets(streams: seq<seq<Entry<ObjectInfo>>>) returns (out: seq<Entry<ObjectInfo>>)
    requires AllOrdered(streams)
    ensures IsMerge(streams, out)
  {
    hide Walk, Begun, Smallest, AllOrdered, AllEmpty, Newest, Row, AllPast;
    var heads: seq<nat> := seq(|streams|, _ => 0);
    out := [];
    ghost var done: Rows<ObjectInfo> := [];
    assert Rest(streams, heads) == streams;
    BeginWalk(streams);
    while true
      invariant HeadsOk(streams, heads) && Begun(streams, done, Rest(streams, heads))
      invariant Picked(out, done)
      decreases Left(Rest(streams, heads))
    {
      var smallest := FindSmallest(streams, heads);
      if smallest.None? {
        EndWalk(streams, done, Rest(streams, heads));
        PickedMerges(streams, done, out);
        return;
      }
      var k := smallest.value;
      BegunOrdered(streams, done, Rest(streams, heads));
      ContinueWalk(streams, done, Rest(streams, heads), k);
      ShrinksAt(Rest(streams, heads), k);
      RowNewest(Rest(streams, heads), k);
      done := done + [(k, Row(Rest(streams, heads), k))];
      var row;
      row, heads := TakeKey(streams, heads, k);
      var chosen := ChooseNewest(row);
      out := out + [Entry(k, chosen.value)];
    }
  }

  lemma BegunOrdered<T(!new)>(streams: seq<seq<Entry<T>>>, done: Rows<T>, rest: seq<seq<Entry<T>>>)
    requires Begun(streams, done, rest)
    ensures AllOrdered(rest)
  {
  }

  lemma ShrinksAt<T>(rest: seq<seq<Entry<T>>>, k: string)
    requires Smallest(rest, k)
    ensures Left(AllPast(rest, k)) < Left(rest)
  {
    LeftPast(rest, k);
  }

  // ----- Pages

  function Take<T>(s: seq<T>, c: nat): seq<T> {
    if |s| <= c then s else s[..c]
  }

  /** Every stream cut to its first c entries. */
  function CutAll<T>(streams: seq<seq<Entry<T>>>, c: nat): (r: seq<seq<Entry<T>>>)
    ensures |r| == |streams| && forall i :: 0 <= i < |r| ==> r[i] == Take(streams[i], c)
  {
    seq(|streams|, i requires 0 <= i < |streams| => Take(streams[i], c))
  }

  /** An entry is no further along in its stream than in the merge. */
  lemma {:induction false} NoLater<T, U>(stream: seq<Entry<T>>, out: seq<Entry<U>>, pos: nat, j: nat)
    requires Ordered(stream) && Ordered(out) && pos < |stream| && j < |out| && stream[pos].key == out[j].key
    requires forall i :: 0 <= i < |stream| ==> HasKey(out, stream[i].key)
    ensures pos <= j
  {
    if pos > 0 {
      assert HasKey(out, stream[pos - 1].key);
      var h :| 0 <= h < |out| && out[h].key == stream[pos - 1].key;
      NoLater(stream, out, pos - 1, h);
      EarlierIndex(out, h, j);
    }
  }

  lemma EarlierIndex<T>(s: seq<Entry<T>>, i: nat, j: nat)
    requires Ordered(s) && i < |s| && j < |s| && Less(s[i].key, s[j].key)
    ensures i < j
  {
    if i == j {
      LessIrreflexive(s[i].key);
    } else if j < i {
      LessNot(s[j].key, s[i].key);
    }
  }

  lemma {:induction false} CutLookup<T>(s: seq<Entry<T>>, c: nat, pos: nat)
    requires Ordered(s) && pos < |s|
    ensures pos < c ==> Lookup(Take(s, c), s[pos].key) == Some(s[pos].item)
  {
    if pos < c {
      LookupAt(Take(s, c), pos);
    }
  }

  lemma CutMisses<T>(s: seq<Entry<T>>, c: nat, k: string)
    requires !HasKey(s, k)
    ensures Lookup(Take(s, c), k) == None
  {
    forall i | 0 <= i < |Take(s, c)|
      ensures Take(s, c)[i].key != k
    {
      assert Take(s, c)[i] == s[i];
    }
  }

  /** The cut streams still know everything about the first c merged keys. */
  lemma CutKnows(streams: seq<seq<Entry<ObjectInfo>>>, out: seq<Entry<ObjectInfo>>, c: nat, j: nat)
    requires AllOrdered(streams) && IsMerge(streams, out) && j < |out| && j < c
    ensures Row(CutAll(streams, c), out[j].key) == Row(streams, out[j].key)
  {
    hide Newest, Lookup, Take;
    var k := out[j].key;
    forall i | 0 <= i < |streams|
      ensures Lookup(CutAll(streams, c)[i], k) == Lookup(streams[i], k)
    {
      if HasKey(streams[i], k) {
        var pos :| 0 <= pos < |streams[i]| && streams[i][pos].key == k;
        StreamInMerge(streams, out, i);
        NoLater(streams[i], out, pos, j);
        CutLookup(streams[i], c, pos);
        LookupAt(streams[i], pos);
      } else {
        CutMisses(streams[i], c, k);
        assert Lookup(streams[i], k).None?;
      }
    }
  }

  lemma StreamInMerge(streams: seq<seq<Entry<ObjectInfo>>>, out: seq<Entry<ObjectInfo>>, i: nat)
    requires IsMerge(streams, out) && i < |streams|
    ensures forall p :: 0 <= p < |streams[i]| ==> HasKey(out, streams[i][p].key)
  {
    hide Newest;
    forall p | 0 <= p < |streams[i]|
      ensures HasKey(out, streams[i][p].key)
    {
      assert HasKey(streams[i], streams[i][p].key);
      assert AnyHas(streams, streams[i][p].key);
    }
  }

  /** An ordered list that has the first m keys of another, and no keys besides
      the other's, begins with them. */
  lemma {:induction false} SameStart<T>(out: seq<Entry<T>>, cut: seq<Entry<T>>, m: nat)
    requires Ordered(out) && Ordered(cut) && m <= |out|
    requires forall j :: 0 <= j < m ==> HasKey(cut, out[j].key)
    requires forall i :: 0 <= i < |cut| ==> HasKey(out, cut[i].key)
    ensures m <= |cut| && forall j :: 0 <= j < m ==> cut[j].key == out[j].key
  {
    if m > 0 {
      var j := m - 1;
      SameStart(out, cut, j);
      assert HasKey(cut, out[j].key);
      var t :| 0 <= t < |cut| && cut[t].key == out[j].key;
      InPlace(out, cut, j, t);
    }
  }

  lemma InPlace<T>(out: seq<Entry<T>>, cut: seq<Entry<T>>, j: nat, t: nat)
    requires Ordered(out) && Ordered(cut) && j < |out| && t < |cut| && cut[t].key == out[j].key && j <= |cut|
    requires forall i :: 0 <= i < j ==> cut[i].key == out[i].key
    requires forall i :: 0 <= i < |cut| ==> HasKey(out, cut[i].key)
    ensures t == j
  {
    if t < j {
      LessNot(out[t].key, out[j].key);
    } else if j < t {
      assert HasKey(out, cut[j].key);
      var s :| 0 <= s < |out| && out[s].key == cut[j].key;
      EarlierIndex(out, s, j);
      LessNot(cut[s].key, cut[j].key);
    }
  }

  lemma CutInMerge(streams: seq<seq<Entry<ObjectInfo>>>, out: seq<Entry<ObjectInfo>>, c: nat, k: string)
    requires IsMerge(streams, out) && AnyHas(CutAll(streams, c), k)
    ensures HasKey(out, k)
  {
    hide Newest;
    var i :| 0 <= i < |streams| && HasKey(CutAll(streams, c)[i], k);
    var p :| 0 <= p < |CutAll(streams, c)[i]| && CutAll(streams, c)[i][p].key == k;
    assert streams[i][p].key == k;
    StreamInMerge(streams, out, i);
  }

  /** The first c keys of the full merge are merged from the cut streams as well,
      with the same entries; the cut streams have no other keys. */
  lemma PageKeys(streams: seq<seq<Entry<ObjectInfo>>>, out: seq<Entry<ObjectInfo>>, cut: seq<Entry<ObjectInfo>>, c: nat)
    requires AllOrdered(streams) && IsMerge(streams, out) && IsMerge(CutAll(streams, c), cut)
    ensures forall j :: 0 <= j < Min(c, |out|) ==>
      HasKey(cut, out[j].key) && Row(CutAll(streams, c), out[j].key) == Row(streams, out[j].key)
    ensures forall i :: 0 <= i < |cut| ==> HasKey(out, cut[i].key)
  {
    hide Newest, AllOrdered, Ordered, Row, CutAll;
    forall j | 0 <= j < Min(c, |out|)
      ensures HasKey(cut, out[j].key) && Row(CutAll(streams, c), out[j].key) == Row(streams, out[j].key)
    {
      CutKnows(streams, out, c, j);
      assert HasKey(out, out[j].key);
      SameRowSameKeys(streams, CutAll(streams, c), out[j].key);
    }
    forall i | 0 <= i < |cut|
      ensures HasKey(out, cut[i].key)
    {
      assert HasKey(cut, cut[i].key);
      CutInMerge(streams, out, c, cut[i].key);
    }
  }

  /** Cutting every stream to c entries before the merge, and the merge to c
      entries after it, gives the first c entries of the full merge. */
  lemma PageOfMerge(streams: seq<seq<Entry<ObjectInfo>>>, out: seq<Entry<ObjectInfo>>, cut: seq<Entry<ObjectInfo>>, c: nat)
    requires AllOrdered(streams) && IsMerge(streams, out) && IsMerge(CutAll(streams, c), cut)
    ensures Take(cut, c) == Take(out, c)
  {
    hide Newest, AllOrdered, Ordered, Row, CutAll, HasKey, AnyHas;
    var m := Min(c, |out|);
    PageKeys(streams, out, cut, c);
    SameStart(out, cut, m);
    forall j | 0 <= j < m
      ensures cut[j] == out[j]
    {
      assert cut[j].key == out[j].key;
    }
    if |out| <= c && |cut| > |out| {
      SameStart(cut, out, |out| + 1);
    }
  }

  lemma SameRowSameKeys(a: seq<seq<Entry<ObjectInfo>>>, b: seq<seq<Entry<ObjectInfo>>>, k: string)
    requires |a| == |b| && Row(b, k) == Row(a, k) && AnyHas(a, k)
    ensures AnyHas(b, k)
  {
    var i :| 0 <= i < |a| && HasKey(a[i], k);
    assert Row(b, k)[i] == Row(a, k)[i];
  }

  /** The merge is determined by its streams. */
  lemma MergeUnique(streams: seq<seq<Entry<ObjectInfo>>>, a: seq<Entry<ObjectInfo>>, b: seq<Entry<ObjectInfo>>)
    requires IsMerge(streams, a) && IsMerge(streams, b)
    ensures a == b
  {
    hide Newest, Ordered, Row;
    forall i | 0 <= i < |a|
      ensures HasKey(b, a[i].key)
    {
      assert HasKey(a, a[i].key);
    }
    forall i | 0 <= i < |b|
      ensures HasKey(a, b[i].key)
    {
      assert HasKey(b, b[i].key);
    }
    SameStart(a, b, |a|);
    SameStart(b, a, |b|);
    forall i | 0 <= i < |a|
      ensures a[i] == b[i]
    {
      assert a[i].key == b[i].key;
    }
  }
}
