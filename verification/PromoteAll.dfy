/** Promoting a version on every disk of a set, and taking it back below quorum
    (crates/openlake_storage/src/engine.rs:2871-2959). */
module PromoteAll {
  import opened Bytes
  import opened Uuid
  import opened XlMeta
  import opened VersionMerge
  import opened Promotion
  import opened DiskLife

  ghost function Views(disks: seq<DiskDir>): (r: seq<Dir>)
    reads disks
    ensures |r| == |disks| && forall i :: 0 <= i < |r| ==> r[i] == disks[i].View()
  {
    seq(|disks|, i requires 0 <= i < |disks| reads disks => disks[i].View())
  }

  predicate Apart(disks: seq<DiskDir>) {
    forall i, j :: 0 <= i < j < |disks| ==> disks[i] != disks[j]
  }

  /** What became of the promotion on one disk. */
  ghost predicate Outcome(a: Dir, b: Dir, fi: FileInfo, staged: bool, r: Result<string, Failure>) {
    if r.Ok? then Promoted(a, b, fi, staged) && r.value == Replaced(Listed(a.live), fi) else NotPromoted(a, b, fi)
  }

  function Staged(disks: seq<DiskDir>): (r: seq<bool>)
    reads disks
    ensures |r| == |disks| && forall i :: 0 <= i < |r| ==> r[i] == disks[i].staged
  {
    seq(|disks|, i requires 0 <= i < |disks| reads disks => disks[i].staged)
  }

  ghost function Traces(disks: seq<DiskDir>): (r: seq<seq<Dir>>)
    reads disks
    ensures |r| == |disks| && forall i :: 0 <= i < |r| ==> r[i] == disks[i].trace
  {
    seq(|disks|, i requires 0 <= i < |disks| reads disks => disks[i].trace)
  }

  method RenameAll(disks: seq<DiskDir>, fis: seq<FileInfo>) returns (results: seq<Result<string, Failure>>)
    requires |fis| == |disks| && Apart(disks)
    modifies disks
    ensures |results| == |disks|
    ensures forall i :: 0 <= i < |disks| ==>
      Renamed(old(Views(disks))[i], disks[i].View(), fis[i], old(Staged(disks))[i], results[i], disks[i].healthy,
              old(Traces(disks))[i], disks[i].trace)
  {
    hide Renamed;
    ghost var before, staged, traces := Views(disks), Staged(disks), Traces(disks);
    results := [];
    for n := 0 to |disks|
      invariant |results| == n
      invariant forall i :: 0 <= i < n ==>
        Renamed(before[i], disks[i].View(), fis[i], staged[i], results[i], disks[i].healthy, traces[i], disks[i].trace)
      invariant forall i :: n <= i < |disks| ==>
        disks[i].View() == before[i] && disks[i].staged == staged[i] && disks[i].trace == traces[i]
    {
      var r := RenameOne(disks[n], fis[n]);
      results := results + [r];
    }
  }

  /** A put that is cut short here has ended in one of its ways. */
  ghost predicate Ends(a: Dir, fi: FileInfo, staged: bool, d: Dir) {
    exists ending :: Happens(a, Put(fi, staged, ending), d)
  }

  ghost predicate EndsSince(a: Dir, fi: FileInfo, staged: bool, t: seq<Dir>, t': seq<Dir>) {
    t <= t' && forall d :: d in t'[|t|..] ==> Ends(a, fi, staged, d)
  }

  lemma EndsIsPrefix(a: Dir, fi: FileInfo, staged: bool, t: seq<Dir>, t': seq<Dir>)
    requires EndsSince(a, fi, staged, t, t')
    ensures t <= t'
  {
  }

  lemma RenameEnds(a: Dir, fi: FileInfo, staged: bool, d: Dir)
    requires NotPromoted(a, d, fi) || Promoted(a, d, fi, staged)
    ensures Ends(a, fi, staged, d)
  {
    hide Mergeable, AfterPut, Replaced, HasId;
    if NotPromoted(a, d, fi) {
      assert Happens(a, Put(fi, staged, Failed), d);
    } else {
      assert Happens(a, Put(fi, staged, Stayed), d);
    }
  }

  lemma UndoEnds(a: Dir, b: Dir, fi: FileInfo, staged: bool, d: Dir)
    requires Promoted(a, b, fi, staged) && Undone(b, d, fi)
    ensures Ends(a, fi, staged, d)
  {
    hide Mergeable, AfterPut, Replaced, HasId;
    assert Happens(a, Put(fi, staged, TakenBack), d);
  }

  lemma PurgeEnds(a: Dir, b: Dir, fi: FileInfo, staged: bool, d: Dir)
    requires Promoted(a, b, fi, staged) && d == Purged(b, Replaced(Listed(a.live), fi))
    ensures Ends(a, fi, staged, d)
  {
    hide Mergeable, AfterPut, Replaced, HasId;
    assert Happens(a, Put(fi, staged, Stayed), d);
  }

  lemma EndsJoin(a: Dir, fi: FileInfo, staged: bool, t: seq<Dir>, t': seq<Dir>, t'': seq<Dir>)
    requires EndsSince(a, fi, staged, t, t') && EndsSince(a, fi, staged, t', t'')
    ensures EndsSince(a, fi, staged, t, t'')
  {
    hide Ends;
    forall d | d in t''[|t|..]
      ensures Ends(a, fi, staged, d)
    {
      var i :| 0 <= i < |t''[|t|..]| && t''[|t|..][i] == d;
      if |t| + i < |t'| {
        assert t'[|t|..][i] == t'[|t| + i] == d;
        assert d in t'[|t|..];
      } else {
        assert t''[|t'|..][|t| + i - |t'|] == d;
      }
    }
  }

  /** What a promotion did to one disk, and that its steps were safe. */
  ghost predicate Renamed(a: Dir, b: Dir, fi: FileInfo, staged: bool, r: Result<string, Failure>, healthy: bool, t: seq<Dir>, t': seq<Dir>) {
    && Outcome(a, b, fi, staged, r)
    && (healthy ==> (r.Ok? <==> Mergeable(a.live, fi))) && (healthy && r.Err? ==> b == a)
    && (r.Ok? ==> ToPurge(Listed(a.live), fi, r.value))
    && (Ready(a, staged, fi) ==> SafeSince(t, t'))
    && EndsSince(a, fi, staged, t, t') && Recorded(a, Since(t, t'), b)
  }

  method RenameOne(disk: DiskDir, fi: FileInfo) returns (r: Result<string, Failure>)
    modifies disk
    ensures Renamed(old(disk.View()), disk.View(), fi, old(disk.staged), r, disk.healthy, old(disk.trace), disk.trace)
  {
    hide Promoted, NotPromoted, Replaced, Ready, Mergeable, AllSafe, Ends, Recorded, ToPurge;
    ghost var a, staged, t := disk.View(), disk.staged, disk.trace;
    r := disk.RenameData(fi);
    forall d | d in disk.trace[|t|..]
      ensures Ends(a, fi, staged, d)
    {
      RenameEnds(a, fi, staged, d);
    }
  }

  /** What holds after the promotions have been tried on every disk. */
  lemma AllRenamed(s: Start, fis: seq<FileInfo>, results: seq<Result<string, Failure>>, views: seq<Dir>, traces: seq<seq<Dir>>, healthy: seq<bool>)
    requires |fis| == |results| == |views| == |traces| == |healthy| && Started(s, |fis|)
    requires forall i :: 0 <= i < |fis| ==>
      Renamed(s.views[i], views[i], fis[i], s.staged[i], results[i], healthy[i], s.traces[i], traces[i])
    ensures Tried(s, fis, results, views, traces)
    ensures forall i :: 0 <= i < |fis| && healthy[i] ==> (results[i].Ok? <==> Mergeable(s.views[i].live, fis[i]))
    ensures forall i :: 0 <= i < |fis| && results[i].Ok? ==> ToPurge(Listed(s.views[i].live), fis[i], results[i].value)
    ensures forall i :: 0 <= i < |fis| && healthy[i] && results[i].Err? ==> views[i] == s.views[i]
  {
    hide Promoted, NotPromoted, Replaced, Ready, Mergeable, SafeSince, EndsSince, Recorded, ToPurge;
    forall i | 0 <= i < |fis|
      ensures healthy[i] && results[i].Err? ==> views[i] == s.views[i]
      ensures Recorded(s.views[i], Since(s.traces[i], traces[i]), views[i])
      ensures Outcome(s.views[i], views[i], fis[i], s.staged[i], results[i])
      ensures EndsSince(s.views[i], fis[i], s.staged[i], s.traces[i], traces[i])
      ensures Ready(s.views[i], s.staged[i], fis[i]) ==> SafeSince(s.traces[i], traces[i])
      ensures healthy[i] ==> (results[i].Ok? <==> Mergeable(s.views[i].live, fis[i]))
      ensures results[i].Ok? ==> ToPurge(Listed(s.views[i].live), fis[i], results[i].value)
    {
      assert Renamed(s.views[i], views[i], fis[i], s.staged[i], results[i], healthy[i], s.traces[i], traces[i]);
    }
  }

  /** What an undo does to a disk. */
  ghost predicate UndoOutcome(b: Dir, c: Dir, fi: FileInfo, promoted: bool, undone: bool) {
    if promoted && undone then Undone(b, c, fi) else c == b
  }

  /** The same, with the disk's answer and its steps. */
  ghost predicate Undid(b: Dir, c: Dir, fi: FileInfo, promoted: bool, undone: bool, healthy: bool, t: seq<Dir>, t': seq<Dir>) {
    && UndoOutcome(b, c, fi, promoted, undone)
    && (healthy ==> undone && (promoted ==> UndoneWell(b, c, fi)))
    && (UndoReady(b, fi) ==> SafeSince(t, t'))
    && t <= t' && (forall d :: d in t'[|t|..] ==> promoted && Undone(b, d, fi)) && Recorded(b, Since(t, t'), c)
  }

  method UndoOne(disk: DiskDir, fi: FileInfo, promoted: bool) returns (ok: bool)
    modifies disk
    ensures Undid(old(disk.View()), disk.View(), fi, promoted, ok, disk.healthy, old(disk.trace), disk.trace)
  {
    hide Undone, UndoReady, AllSafe;
    RecordedNothing(disk.View(), disk.trace);
    ok := true;
    if promoted {
      ok := disk.Undo(fi);
    } else {
      NothingSince(disk.trace);
    }
  }

  /** Undoes every promotion that succeeded; the errors of undos are ignored. */
  method UndoAll(disks: seq<DiskDir>, fis: seq<FileInfo>, results: seq<Result<string, Failure>>) returns (undone: seq<bool>)
    requires |fis| == |disks| == |results| && Apart(disks)
    modifies disks
    ensures |undone| == |disks|
    ensures forall i :: 0 <= i < |disks| ==>
      Undid(old(Views(disks))[i], disks[i].View(), fis[i], results[i].Ok?, undone[i], disks[i].healthy, old(Traces(disks))[i], disks[i].trace)
  {
    hide Undid;
    ghost var before, traces := Views(disks), Traces(disks);
    undone := [];
    for n := 0 to |disks|
      invariant |undone| == n
      invariant forall i :: 0 <= i < n ==>
        Undid(before[i], disks[i].View(), fis[i], results[i].Ok?, undone[i], disks[i].healthy, traces[i], disks[i].trace)
      invariant forall i :: n <= i < |disks| ==> disks[i].View() == before[i] && disks[i].trace == traces[i]
    {
      var ok := UndoOne(disks[n], fis[n], results[n].Ok?);
      undone := undone + [ok];
    }
  }

  lemma RecordedNothing(a: Dir, t: seq<Dir>)
    ensures Recorded(a, Since(t, t), a)
  {
  }

  lemma NothingSince(t: seq<Dir>)
    ensures SafeSince(t, t)
  {
  }

  method CleanOne(disk: DiskDir, r: Result<string, Failure>)
    modifies disk
    ensures Cleaned(old(disk.View()), disk.View(), r, disk.healthy, old(disk.trace), disk.trace)
  {
    hide AllSafe, Safe, Unlisted, Recorded;
    RecordedNothing(disk.View(), disk.trace);
    NothingSince(disk.trace);
    if r.Ok? && r.value != "" {
      disk.CleanStale(r.value);
    }
  }

  /** Purges what the promotions replaced. */
  method CleanAll(disks: seq<DiskDir>, results: seq<Result<string, Failure>>)
    requires |disks| == |results| && Apart(disks)
    modifies disks
    ensures forall i :: 0 <= i < |disks| ==>
      Cleaned(old(Views(disks))[i], disks[i].View(), results[i], disks[i].healthy, old(Traces(disks))[i], disks[i].trace)
  {
    hide Cleaned;
    ghost var before, traces := Views(disks), Traces(disks);
    for n := 0 to |disks|
      invariant forall i :: 0 <= i < n ==> Cleaned(before[i], disks[i].View(), results[i], disks[i].healthy, traces[i], disks[i].trace)
      invariant forall i :: n <= i < |disks| ==> disks[i].View() == before[i] && disks[i].trace == traces[i]
    {
      CleanOne(disks[n], results[n]);
    }
  }

  /** What was replaced has been purged, if that worked. */
  ghost predicate Cleaned(b: Dir, c: Dir, r: Result<string, Failure>, healthy: bool, t: seq<Dir>, t': seq<Dir>) {
    && (c == b || (r.Ok? && c == Purged(b, r.value)))
    && (healthy ==> c == if r.Ok? && r.value != "" then Purged(b, r.value) else b)
    && (CleanReady(b, r) ==> SafeSince(t, t'))
    && t <= t' && (forall d :: d in t'[|t|..] ==> r.Ok? && d == Purged(b, r.value)) && Recorded(b, Since(t, t'), c)
  }

  ghost predicate CleanReady(b: Dir, r: Result<string, Failure>) {
    r.Ok? ==> Safe(b) && Unlisted(b.live, r.value)
  }

  function CountOk(results: seq<Result<string, Failure>>): (n: nat)
    ensures n <= |results|
  {
    if results == [] then 0
    else CountOk(results[..|results| - 1]) + (if results[|results| - 1].Ok? then 1 else 0)
  }

  ghost function OkDisks(results: seq<Result<string, Failure>>): set<nat> {
    set i: nat | i < |results| && results[i].Ok?
  }

  lemma {:induction false} CountIsOk(results: seq<Result<string, Failure>>)
    ensures CountOk(results) == |OkDisks(results)|
  {
    if results == [] {
      assert OkDisks(results) == {};
    } else {
      var n := |results| - 1;
      CountIsOk(results[..n]);
      assert OkDisks(results) == OkDisks(results[..n]) + (if results[n].Ok? then {n} else {});
    }
  }

  lemma {:induction false} CountAll(results: seq<Result<string, Failure>>)
    ensures CountOk(results) == |results| <==> forall i :: 0 <= i < |results| ==> results[i].Ok?
  {
    if results != [] {
      CountAll(results[..|results| - 1]);
    }
  }

  predicate FirstError(results: seq<Result<string, Failure>>, e: Failure) {
    exists i :: 0 <= i < |results| && results[i] == Err(e) && forall j :: 0 <= j < i ==> results[j].Ok?
  }

  method Tally(results: seq<Result<string, Failure>>) returns (successes: nat, firstErr: Option<Failure>)
    ensures successes == CountOk(results) == |OkDisks(results)|
    ensures firstErr.None? <==> CountOk(results) == |results|
    ensures firstErr.Some? ==> FirstError(results, firstErr.value)
  {
    successes, firstErr := 0, None;
    for i := 0 to |results|
      invariant successes == CountOk(results[..i])
      invariant firstErr.None? <==> successes == i
      invariant firstErr.None? ==> forall j :: 0 <= j < i ==> results[j].Ok?
      invariant firstErr.Some? ==> FirstError(results, firstErr.value)
    {
      assert results[..i + 1][..i] == results[..i];
      match results[i]
      case Ok(_) => successes := successes + 1;
      case Err(e) => firstErr := if firstErr.None? then Some(e) else firstErr;
    }
    assert results[..|results|] == results;
    CountIsOk(results);
  }

  /** The live list a disk is to end up with. */
  ghost predicate Settles(a: Dir, b: Dir, fi: FileInfo, promoted: bool) {
    b.live == (if promoted then Some(Versions(NewList(Listed(a.live), fi))) else a.live)
  }

  /** The condition under which a single disk's undo restores its live list. */
  ghost predicate Restorable(a: Dir, fi: FileInfo) {
    Prior(a, fi) || a.bkp == a.live
  }

  /** How the put ended on a disk. */
  function EndingOf(committed: bool, r: Result<string, Failure>, undone: bool): Ending {
    if r.Err? then Failed else if committed || !undone then Stayed else TakenBack
  }

  lemma TakenBackHappens(a: Dir, b: Dir, c: Dir, fi: FileInfo, staged: bool, r: Result<string, Failure>, undone: bool)
    requires Outcome(a, b, fi, staged, r) && UndoOutcome(b, c, fi, r.Ok?, undone)
    ensures Happens(a, Put(fi, staged, EndingOf(false, r, undone)), c)
    ensures r.Err? ==> Settles(a, c, fi, false)
    ensures r.Ok? && undone ==> (Settles(a, c, fi, false) <==> Restorable(a, fi))
  {
    hide NewList, Mergeable, HasId;
    if r.Ok? && undone {
      UndoRestoresIff(a, b, c, fi, staged);
    }
  }

  lemma CleanedHappens(a: Dir, b: Dir, c: Dir, fi: FileInfo, staged: bool, r: Result<string, Failure>, healthy: bool, t: seq<Dir>, t': seq<Dir>)
    requires Outcome(a, b, fi, staged, r) && Cleaned(b, c, r, healthy, t, t')
    ensures Happens(a, Put(fi, staged, EndingOf(true, r, true)), c)
    ensures Settles(a, c, fi, r.Ok?)
    ensures healthy && r.Ok? && r.value != "" ==> r.value !in c.dirs
  {
    hide NewList, Mergeable, HasId, Replaced, CleanReady, SafeSince;
  }

  lemma AfterRename(a: Dir, b: Dir, fi: FileInfo, staged: bool, r: Result<string, Failure>)
    requires Outcome(a, b, fi, staged, r) && PutReady(a, staged, fi)
    ensures r.Ok? ==> UndoReady(b, fi)
    ensures CleanReady(b, r)
  {
    hide NewList, Mergeable, SettledDir;
    if r.Ok? {
      PromotedUndoReady(a, b, fi, staged);
      SwapSafe(a, b, staged, fi);
      ReplacedUnlisted(a, b, fi, staged);
    }
  }

  /** What the disks were like before a put, what was staged, and their traces. */
  datatype Start = Start(views: seq<Dir>, staged: seq<bool>, traces: seq<seq<Dir>>)

  ghost predicate Started(s: Start, n: nat) {
    |s.views| == |s.staged| == |s.traces| == n
  }

  /** The promotions have been tried on every disk. */
  ghost predicate Tried(s: Start, fis: seq<FileInfo>, results: seq<Result<string, Failure>>, views: seq<Dir>, traces: seq<seq<Dir>>)
    requires |fis| == |results| == |views| == |traces| && Started(s, |fis|)
  {
    && (forall i :: 0 <= i < |fis| ==> Outcome(s.views[i], views[i], fis[i], s.staged[i], results[i]))
    && (forall i :: 0 <= i < |fis| && Ready(s.views[i], s.staged[i], fis[i]) ==> SafeSince(s.traces[i], traces[i]))
    && (forall i :: 0 <= i < |fis| ==> EndsSince(s.views[i], fis[i], s.staged[i], s.traces[i], traces[i]))
    && (forall i :: 0 <= i < |fis| ==> Recorded(s.views[i], Since(s.traces[i], traces[i]), views[i]))
  }

  /** Every file step on every disk is in the traces. */
  ghost predicate AllRecorded(s: Start, traces: seq<seq<Dir>>, views: seq<Dir>)
    requires |traces| == |views| && Started(s, |traces|)
  {
    forall i :: 0 <= i < |traces| ==> s.traces[i] <= traces[i] && Recorded(s.views[i], Since(s.traces[i], traces[i]), views[i])
  }

  /** Wherever the put is cut short, on any disk, it has ended in one of its ways. */
  ghost predicate AllEndSince(s: Start, fis: seq<FileInfo>, traces: seq<seq<Dir>>)
    requires |fis| == |traces| && Started(s, |fis|)
  {
    forall i :: 0 <= i < |fis| ==> EndsSince(s.views[i], fis[i], s.staged[i], s.traces[i], traces[i])
  }

  /** On every disk the put ended as one of the calls of its life. */
  ghost predicate AllEnded(s: Start, fis: seq<FileInfo>, committed: bool, results: seq<Result<string, Failure>>, undone: seq<bool>, views: seq<Dir>)
    requires |fis| == |results| == |undone| == |views| && Started(s, |fis|)
  {
    forall i :: 0 <= i < |fis| ==> Happens(s.views[i], Put(fis[i], s.staged[i], EndingOf(committed, results[i], undone[i])), views[i])
  }

  /** Every step of the put was safe on the disks that were ready for it. */
  ghost predicate AllSafeSince(s: Start, fis: seq<FileInfo>, traces: seq<seq<Dir>>)
    requires |fis| == |traces| && Started(s, |fis|)
  {
    forall i :: 0 <= i < |fis| && PutReady(s.views[i], s.staged[i], fis[i]) ==> SafeSince(s.traces[i], traces[i])
  }

  /** Below quorum, each disk whose undo worked has its list back exactly when it is
      restorable. */
  ghost predicate RestoredWhere(s: Start, fis: seq<FileInfo>, results: seq<Result<string, Failure>>, undone: seq<bool>, views: seq<Dir>)
    requires |fis| == |results| == |undone| == |views| && Started(s, |fis|)
  {
    && (forall i :: 0 <= i < |fis| && results[i].Err? ==> Settles(s.views[i], views[i], fis[i], false))
    && (forall i :: 0 <= i < |fis| && results[i].Ok? && undone[i] ==>
          (Settles(s.views[i], views[i], fis[i], false) <==> Restorable(s.views[i], fis[i])))
  }

  ghost function StartOf(disks: seq<DiskDir>): (s: Start)
    reads disks
    ensures Started(s, |disks|)
  {
    Start(Views(disks), Staged(disks), Traces(disks))
  }

  method TakeBack(disks: seq<DiskDir>, fis: seq<FileInfo>, results: seq<Result<string, Failure>>, ghost s: Start) returns (ghost undone: seq<bool>)
    requires |fis| == |disks| == |results| && Apart(disks) && Started(s, |disks|)
    requires Tried(s, fis, results, Views(disks), Traces(disks))
    modifies disks
    requires forall i :: 0 <= i < |disks| && disks[i].healthy && results[i].Err? ==> disks[i].View() == s.views[i]
    ensures |undone| == |disks| && forall i :: 0 <= i < |disks| && disks[i].healthy ==> undone[i]
    ensures AllEnded(s, fis, false, results, undone, Views(disks))
    ensures forall i :: 0 <= i < |disks| && disks[i].healthy ==>
      HappensWell(s.views[i], Put(fis[i], s.staged[i], EndingOf(false, results[i], undone[i])), disks[i].View())
    ensures RestoredWhere(s, fis, results, undone, Views(disks))
    ensures NullBucket(s.views, fis) && AllUndone(results, undone) ==> AllAsBefore(s.views, Views(disks))
    ensures AllSafeSince(s, fis, Traces(disks)) && AllEndSince(s, fis, Traces(disks)) && AllRecorded(s, Traces(disks), Views(disks))
  {
    hide Tried, Undid, AllEnded, RestoredWhere, NullBucket, AllAsBefore, AllUndone, AllSafeSince, AllEndSince, AllRecorded;
    ghost var middle, traces := Views(disks), Traces(disks);
    var done := UndoAll(disks, fis, results);
    undone := done;
    AllUndid(s, fis, results, done, middle, Views(disks), traces, Traces(disks), seq(|disks|, i requires 0 <= i < |disks| => disks[i].healthy));
  }

  /** What holds after every promotion that succeeded has been undone. */
  lemma AllUndid(s: Start, fis: seq<FileInfo>, results: seq<Result<string, Failure>>, undone: seq<bool>, middle: seq<Dir>, after: seq<Dir>,
                 traces: seq<seq<Dir>>, traces': seq<seq<Dir>>, healthy: seq<bool>)
    requires |fis| == |results| == |undone| == |middle| == |after| == |traces| == |traces'| == |healthy| && Started(s, |fis|)
    requires Tried(s, fis, results, middle, traces)
    requires forall i :: 0 <= i < |fis| ==>
      Undid(middle[i], after[i], fis[i], results[i].Ok?, undone[i], healthy[i], traces[i], traces'[i])
    requires forall i :: 0 <= i < |fis| && healthy[i] && results[i].Err? ==> middle[i] == s.views[i]
    ensures forall i :: 0 <= i < |fis| && healthy[i] ==> undone[i]
    ensures forall i :: 0 <= i < |fis| && healthy[i] ==>
      HappensWell(s.views[i], Put(fis[i], s.staged[i], EndingOf(false, results[i], undone[i])), after[i])
    ensures AllEnded(s, fis, false, results, undone, after) && RestoredWhere(s, fis, results, undone, after)
    ensures NullBucket(s.views, fis) && AllUndone(results, undone) ==> AllAsBefore(s.views, after)
    ensures AllSafeSince(s, fis, traces') && AllEndSince(s, fis, traces') && AllRecorded(s, traces', after)
  {
    hide Outcome, UndoOutcome, Ready, PutReady, SafeSince, EndsSince, UndoReady, Settles, Restorable, NullBucket, AllAsBefore, AllUndone, Happens,
      EndingOf, Undone, Recorded, HappensWell, UndoneWell;
    forall i | 0 <= i < |fis|
      ensures healthy[i] ==> HappensWell(s.views[i], Put(fis[i], s.staged[i], EndingOf(false, results[i], undone[i])), after[i])
      ensures UndoOutcome(middle[i], after[i], fis[i], results[i].Ok?, undone[i]) && (healthy[i] ==> undone[i])
      ensures UndoReady(middle[i], fis[i]) ==> SafeSince(traces[i], traces'[i])
      ensures results[i].Err? ==> traces'[i] == traces[i]
      ensures EndsSince(s.views[i], fis[i], s.staged[i], s.traces[i], traces'[i])
      ensures s.traces[i] <= traces'[i] && Recorded(s.views[i], Since(s.traces[i], traces'[i]), after[i])
    {
      EndsIsPrefix(s.views[i], fis[i], s.staged[i], s.traces[i], traces[i]);
      SinceJoins(s.views[i], s.traces[i], middle[i], traces[i], after[i], traces'[i]);
      assert Undid(middle[i], after[i], fis[i], results[i].Ok?, undone[i], healthy[i], traces[i], traces'[i]);
      if healthy[i] {
        TakenBackWell(s.views[i], middle[i], after[i], fis[i], s.staged[i], results[i]);
      }
      NoNews(results[i], traces[i], traces'[i], middle[i], fis[i]);
      UndidEnds(s.views[i], middle[i], fis[i], s.staged[i], results[i], s.traces[i], traces[i], traces'[i]);
    }
    RolledBack(s.views, middle, after, fis, s.staged, results, undone);
    RollBackSafe(s.views, middle, fis, s.staged, results, s.traces, traces, traces');
  }

  lemma TakenBackWell(a: Dir, b: Dir, c: Dir, fi: FileInfo, staged: bool, r: Result<string, Failure>)
    requires Outcome(a, b, fi, staged, r) && UndoOutcome(b, c, fi, r.Ok?, true)
    requires if r.Ok? then UndoneWell(b, c, fi) else b == a
    ensures HappensWell(a, Put(fi, staged, EndingOf(false, r, true)), c)
  {
    hide Mergeable, AfterPut, Replaced;
  }

  lemma KeptWell(a: Dir, b: Dir, c: Dir, fi: FileInfo, staged: bool, r: Result<string, Failure>, undone: bool)
    requires Outcome(a, b, fi, staged, r) && (r.Err? ==> b == a) && c == (if r.Ok? && r.value != "" then Purged(b, r.value) else b)
    ensures HappensWell(a, Put(fi, staged, EndingOf(true, r, undone)), c)
  {
    hide Mergeable, AfterPut, Replaced;
  }

  lemma NoNews(r: Result<string, Failure>, t: seq<Dir>, t': seq<Dir>, b: Dir, fi: FileInfo)
    requires t <= t' && forall d :: d in t'[|t|..] ==> r.Ok? && Undone(b, d, fi)
    ensures r.Err? ==> t' == t
  {
    hide Undone;
    if |t'| > |t| {
      assert t'[|t|..][0] in t'[|t|..];
    }
  }

  lemma UndidEnds(a: Dir, b: Dir, fi: FileInfo, staged: bool, r: Result<string, Failure>, t: seq<Dir>, t': seq<Dir>, t'': seq<Dir>)
    requires Outcome(a, b, fi, staged, r) && EndsSince(a, fi, staged, t, t')
    requires t' <= t'' && forall d :: d in t''[|t'|..] ==> r.Ok? && Undone(b, d, fi)
    ensures EndsSince(a, fi, staged, t, t'')
  {
    hide Ends, Undone, Promoted, NotPromoted, Replaced;
    forall d | d in t''[|t'|..]
      ensures Ends(a, fi, staged, d)
    {
      UndoEnds(a, b, fi, staged, d);
    }
    EndsJoin(a, fi, staged, t, t', t'');
  }

  lemma CleanedEnds(a: Dir, b: Dir, fi: FileInfo, staged: bool, r: Result<string, Failure>, t: seq<Dir>, t': seq<Dir>, t'': seq<Dir>)
    requires Outcome(a, b, fi, staged, r) && EndsSince(a, fi, staged, t, t')
    requires t' <= t'' && forall d :: d in t''[|t'|..] ==> r.Ok? && d == Purged(b, r.value)
    ensures EndsSince(a, fi, staged, t, t'')
  {
    hide Ends, Promoted, NotPromoted, Replaced;
    forall d | d in t''[|t'|..]
      ensures Ends(a, fi, staged, d)
    {
      PurgeEnds(a, b, fi, staged, d);
    }
    EndsJoin(a, fi, staged, t, t', t'');
  }

  method Keep(disks: seq<DiskDir>, fis: seq<FileInfo>, results: seq<Result<string, Failure>>, ghost s: Start, ghost undone: seq<bool>)
    requires |fis| == |disks| == |results| == |undone| && Apart(disks) && Started(s, |disks|)
    requires Tried(s, fis, results, Views(disks), Traces(disks))
    modifies disks
    ensures AllEnded(s, fis, true, results, undone, Views(disks))
    requires forall i :: 0 <= i < |disks| && disks[i].healthy && results[i].Err? ==> disks[i].View() == s.views[i]
    ensures forall i :: 0 <= i < |disks| ==> Settles(s.views[i], disks[i].View(), fis[i], results[i].Ok?)
    ensures forall i :: 0 <= i < |disks| && disks[i].healthy && results[i].Ok? && results[i].value != "" ==> results[i].value !in disks[i].dirs
    ensures forall i :: 0 <= i < |disks| && disks[i].healthy ==>
      HappensWell(s.views[i], Put(fis[i], s.staged[i], EndingOf(true, results[i], undone[i])), disks[i].View())
    ensures AllSafeSince(s, fis, Traces(disks)) && AllEndSince(s, fis, Traces(disks)) && AllRecorded(s, Traces(disks), Views(disks))
  {
    hide Tried, Cleaned, AllEnded, Settles, AllSafeSince, AllEndSince, AllRecorded;
    ghost var middle, traces := Views(disks), Traces(disks);
    CleanAll(disks, results);
    AllCleaned(s, fis, results, undone, middle, Views(disks), traces, Traces(disks), seq(|disks|, i requires 0 <= i < |disks| => disks[i].healthy));
  }

  /** What holds after the purges. */
  lemma AllCleaned(s: Start, fis: seq<FileInfo>, results: seq<Result<string, Failure>>, undone: seq<bool>, middle: seq<Dir>, after: seq<Dir>,
                   traces: seq<seq<Dir>>, traces': seq<seq<Dir>>, healthy: seq<bool>)
    requires |fis| == |results| == |undone| == |middle| == |after| == |traces| == |traces'| == |healthy| && Started(s, |fis|)
    requires Tried(s, fis, results, middle, traces)
    requires forall i :: 0 <= i < |fis| ==> Cleaned(middle[i], after[i], results[i], healthy[i], traces[i], traces'[i])
    requires forall i :: 0 <= i < |fis| && healthy[i] && results[i].Err? ==> middle[i] == s.views[i]
    ensures forall i :: 0 <= i < |fis| && healthy[i] ==>
      HappensWell(s.views[i], Put(fis[i], s.staged[i], EndingOf(true, results[i], undone[i])), after[i])
    ensures AllEnded(s, fis, true, results, undone, after)
    ensures forall i :: 0 <= i < |fis| ==> Settles(s.views[i], after[i], fis[i], results[i].Ok?)
    ensures forall i :: 0 <= i < |fis| && healthy[i] && results[i].Ok? && results[i].value != "" ==> results[i].value !in after[i].dirs
    ensures AllSafeSince(s, fis, traces') && AllEndSince(s, fis, traces') && AllRecorded(s, traces', after)
  {
    hide Outcome, Ready, PutReady, SafeSince, EndsSince, CleanReady, Settles, Happens, EndingOf, Purged, Recorded, HappensWell;
    forall i | 0 <= i < |fis|
      ensures healthy[i] ==> HappensWell(s.views[i], Put(fis[i], s.staged[i], EndingOf(true, results[i], undone[i])), after[i])
      ensures CleanReady(middle[i], results[i]) ==> SafeSince(traces[i], traces'[i])
      ensures EndsSince(s.views[i], fis[i], s.staged[i], s.traces[i], traces'[i])
      ensures s.traces[i] <= traces'[i] && Recorded(s.views[i], Since(s.traces[i], traces'[i]), after[i])
    {
      EndsIsPrefix(s.views[i], fis[i], s.staged[i], s.traces[i], traces[i]);
      SinceJoins(s.views[i], s.traces[i], middle[i], traces[i], after[i], traces'[i]);
      assert Cleaned(middle[i], after[i], results[i], healthy[i], traces[i], traces'[i]);
      if healthy[i] {
        KeptWell(s.views[i], middle[i], after[i], fis[i], s.staged[i], results[i], undone[i]);
      }
      CleanedEnds(s.views[i], middle[i], fis[i], s.staged[i], results[i], s.traces[i], traces[i], traces'[i]);
    }
    RolledForward(s.views, middle, after, fis, s.staged, results, undone, healthy, traces, traces');
    CleanSafe(s.views, middle, fis, s.staged, results, s.traces, traces, traces');
  }

  /** Promotes on every disk, and takes all of it back below quorum. `results` are
      the disks' answers and `undone` says whose undo succeeded; on each disk the
      put ends as one of the calls of its life. */
  method PromoteVersions(disks: seq<DiskDir>, fis: seq<FileInfo>, quorum: nat)
    returns (r: Result<(), Failure>, ghost results: seq<Result<string, Failure>>, ghost undone: seq<bool>)
    requires |fis| == |disks| && Apart(disks)
    modifies disks
    ensures |results| == |undone| == |disks|
    ensures r.Ok? <==> |OkDisks(results)| >= quorum
    ensures r.Err? && |OkDisks(results)| < |results| ==> FirstError(results, r.error)
    ensures forall i :: 0 <= i < |disks| && disks[i].healthy ==>
      undone[i] && (results[i].Ok? <==> Mergeable(old(Views(disks))[i].live, fis[i]))
    ensures forall i :: 0 <= i < |disks| && results[i].Ok? ==> ToPurge(Listed(old(Views(disks))[i].live), fis[i], results[i].value)
    ensures forall i :: 0 <= i < |disks| && disks[i].healthy ==>
      HappensWell(old(Views(disks))[i], Put(fis[i], old(Staged(disks))[i], EndingOf(r.Ok?, results[i], undone[i])), disks[i].View())
    ensures AllEnded(old(StartOf(disks)), fis, r.Ok?, results, undone, Views(disks))
    ensures r.Ok? ==> forall i :: 0 <= i < |disks| ==> Settles(old(Views(disks))[i], disks[i].View(), fis[i], results[i].Ok?)
    ensures r.Ok? ==> forall i :: 0 <= i < |disks| && disks[i].healthy && results[i].Ok? && results[i].value != "" ==>
      results[i].value !in disks[i].dirs
    ensures r.Ok? && quorum == |disks| ==> AllNew(old(Views(disks)), Views(disks), fis)
    ensures r.Err? ==> RestoredWhere(old(StartOf(disks)), fis, results, undone, Views(disks))
    ensures r.Err? && NullBucket(old(Views(disks)), fis) && AllUndone(results, undone) ==> AllAsBefore(old(Views(disks)), Views(disks))
    ensures AllSafeSince(old(StartOf(disks)), fis, Traces(disks))
    ensures AllEndSince(old(StartOf(disks)), fis, Traces(disks))
    ensures AllRecorded(old(StartOf(disks)), Traces(disks), Views(disks))
  {
    hide Renamed, Tried, Settles, NullBucket, AllNew, AllAsBefore, AllUndone, AllEnded, AllSafeSince, AllEndSince, AllRecorded, RestoredWhere,
      Mergeable, FirstError, ToPurge, HappensWell, EndingOf, OkDisks, CountOk;
    ghost var s := StartOf(disks);
    var answers := RenameAll(disks, fis);
    results, undone := answers, seq(|disks|, _ => true);
    AllRenamed(s, fis, answers, Views(disks), Traces(disks), seq(|disks|, i requires 0 <= i < |disks| => disks[i].healthy));
    var successes, firstErr := Tally(answers);
    if successes < quorum {
      undone := TakeBack(disks, fis, answers, s);
      return Err(if firstErr.Some? then firstErr.value else IoFailed), results, undone;
    }
    Keep(disks, fis, answers, s, undone);
    if quorum == |disks| {
      EveryNew(s.views, Views(disks), fis, answers);
    }
    return Ok(()), results, undone;
  }

  lemma RolledBack(before: seq<Dir>, middle: seq<Dir>, after: seq<Dir>, fis: seq<FileInfo>, staged: seq<bool>,
                   results: seq<Result<string, Failure>>, undone: seq<bool>)
    requires |before| == |middle| == |after| == |fis| == |staged| == |results| == |undone|
    requires forall i :: 0 <= i < |before| ==> Outcome(before[i], middle[i], fis[i], staged[i], results[i])
    requires forall i :: 0 <= i < |before| ==> UndoOutcome(middle[i], after[i], fis[i], results[i].Ok?, undone[i])
    ensures forall i :: 0 <= i < |before| ==> Happens(before[i], Put(fis[i], staged[i], EndingOf(false, results[i], undone[i])), after[i])
    ensures forall i :: 0 <= i < |before| && results[i].Err? ==> Settles(before[i], after[i], fis[i], false)
    ensures forall i :: 0 <= i < |before| && results[i].Ok? && undone[i] ==>
      (Settles(before[i], after[i], fis[i], false) <==> Restorable(before[i], fis[i]))
    ensures NullBucket(before, fis) && AllUndone(results, undone) ==> AllAsBefore(before, after)
  {
    hide Outcome, UndoOutcome, Settles, Restorable, Happens, EndingOf, NullVersioned;
    forall i | 0 <= i < |before|
      ensures Happens(before[i], Put(fis[i], staged[i], EndingOf(false, results[i], undone[i])), after[i])
      ensures results[i].Err? ==> Settles(before[i], after[i], fis[i], false)
      ensures results[i].Ok? && undone[i] ==> (Settles(before[i], after[i], fis[i], false) <==> Restorable(before[i], fis[i]))
    {
      TakenBackHappens(before[i], middle[i], after[i], fis[i], staged[i], results[i], undone[i]);
    }
    if NullBucket(before, fis) && AllUndone(results, undone) {
      forall i | 0 <= i < |before|
        ensures after[i].live == before[i].live
      {
        NullSettles(before[i], middle[i], after[i], fis[i], staged[i], results[i]);
      }
    }
  }

  lemma NullSettles(a: Dir, b: Dir, c: Dir, fi: FileInfo, staged: bool, r: Result<string, Failure>)
    requires NullVersioned(a, fi) && Outcome(a, b, fi, staged, r)
    requires r.Err? ==> Settles(a, c, fi, false)
    requires r.Ok? ==> (Settles(a, c, fi, false) <==> Restorable(a, fi))
    ensures c.live == a.live
  {
    hide NewList, Merged, Encodable;
    if r.Ok? && a.live.Some? {
      assert Listed(a.live)[0] in Listed(a.live);
    }
  }

  lemma RolledForward(before: seq<Dir>, middle: seq<Dir>, after: seq<Dir>, fis: seq<FileInfo>, staged: seq<bool>,
                      results: seq<Result<string, Failure>>, undone: seq<bool>, healthy: seq<bool>, t: seq<seq<Dir>>, t': seq<seq<Dir>>)
    requires |before| == |middle| == |after| == |fis| == |staged| == |results| == |undone| == |healthy| == |t| == |t'|
    requires forall i :: 0 <= i < |before| ==> Outcome(before[i], middle[i], fis[i], staged[i], results[i])
    requires forall i :: 0 <= i < |before| ==> Cleaned(middle[i], after[i], results[i], healthy[i], t[i], t'[i])
    ensures forall i :: 0 <= i < |before| ==> Happens(before[i], Put(fis[i], staged[i], EndingOf(true, results[i], undone[i])), after[i])
    ensures forall i :: 0 <= i < |before| ==> Settles(before[i], after[i], fis[i], results[i].Ok?)
    ensures forall i :: 0 <= i < |before| && healthy[i] && results[i].Ok? && results[i].value != "" ==> results[i].value !in after[i].dirs
  {
    hide Outcome, Cleaned, Happens, Settles;
    forall i | 0 <= i < |before|
      ensures Happens(before[i], Put(fis[i], staged[i], EndingOf(true, results[i], undone[i])), after[i])
      ensures Settles(before[i], after[i], fis[i], results[i].Ok?)
      ensures healthy[i] && results[i].Ok? && results[i].value != "" ==> results[i].value !in after[i].dirs
    {
      CleanedHappens(before[i], middle[i], after[i], fis[i], staged[i], results[i], healthy[i], t[i], t'[i]);
    }
  }

  lemma RollBackSafe(before: seq<Dir>, middle: seq<Dir>, fis: seq<FileInfo>, staged: seq<bool>,
                     results: seq<Result<string, Failure>>, t: seq<seq<Dir>>, t': seq<seq<Dir>>, t'': seq<seq<Dir>>)
    requires |before| == |middle| == |fis| == |staged| == |results| == |t| == |t'| == |t''|
    requires forall i :: 0 <= i < |before| ==> Outcome(before[i], middle[i], fis[i], staged[i], results[i])
    requires forall i :: 0 <= i < |before| && Ready(before[i], staged[i], fis[i]) ==> SafeSince(t[i], t'[i])
    requires forall i :: 0 <= i < |before| && UndoReady(middle[i], fis[i]) ==> SafeSince(t'[i], t''[i])
    requires forall i :: 0 <= i < |before| && results[i].Err? ==> t''[i] == t'[i]
    ensures forall i :: 0 <= i < |before| && PutReady(before[i], staged[i], fis[i]) ==> SafeSince(t[i], t''[i])
  {
    hide Outcome, SafeSince, UndoReady, Ready, DataDirsApart, OwnDataDir, HasId;
    forall i | 0 <= i < |before| && PutReady(before[i], staged[i], fis[i])
      ensures SafeSince(t[i], t''[i])
    {
      AfterRename(before[i], middle[i], fis[i], staged[i], results[i]);
      if results[i].Ok? {
        SafeSinceJoins(t[i], t'[i], t''[i]);
      }
    }
  }

  lemma CleanSafe(before: seq<Dir>, middle: seq<Dir>, fis: seq<FileInfo>, staged: seq<bool>,
                  results: seq<Result<string, Failure>>, t: seq<seq<Dir>>, t': seq<seq<Dir>>, t'': seq<seq<Dir>>)
    requires |before| == |middle| == |fis| == |staged| == |results| == |t| == |t'| == |t''|
    requires forall i :: 0 <= i < |before| ==> Outcome(before[i], middle[i], fis[i], staged[i], results[i])
    requires forall i :: 0 <= i < |before| && Ready(before[i], staged[i], fis[i]) ==> SafeSince(t[i], t'[i])
    requires forall i :: 0 <= i < |before| && CleanReady(middle[i], results[i]) ==> SafeSince(t'[i], t''[i])
    ensures forall i :: 0 <= i < |before| && PutReady(before[i], staged[i], fis[i]) ==> SafeSince(t[i], t''[i])
  {
    hide Outcome, SafeSince, CleanReady, Ready, DataDirsApart, OwnDataDir, HasId;
    forall i | 0 <= i < |before| && PutReady(before[i], staged[i], fis[i])
      ensures SafeSince(t[i], t''[i])
    {
      AfterRename(before[i], middle[i], fis[i], staged[i], results[i]);
      SafeSinceJoins(t[i], t'[i], t''[i]);
    }
  }

  ghost predicate NullBucket(before: seq<Dir>, fis: seq<FileInfo>)
    requires |before| == |fis|
  {
    forall i :: 0 <= i < |before| ==> NullVersioned(before[i], fis[i])
  }

  /** Every disk has the new version. */
  ghost predicate AllNew(before: seq<Dir>, after: seq<Dir>, fis: seq<FileInfo>)
    requires |before| == |after| == |fis|
  {
    forall i :: 0 <= i < |before| ==> after[i].live == Some(Versions(NewList(Listed(before[i].live), fis[i])))
  }

  /** Every disk has the list it had. */
  ghost predicate AllAsBefore(before: seq<Dir>, after: seq<Dir>)
    requires |before| == |after|
  {
    forall i :: 0 <= i < |before| ==> after[i].live == before[i].live
  }

  lemma EveryNew(before: seq<Dir>, after: seq<Dir>, fis: seq<FileInfo>, results: seq<Result<string, Failure>>)
    requires |before| == |after| == |fis| == |results| <= CountOk(results)
    requires forall i :: 0 <= i < |before| ==> Settles(before[i], after[i], fis[i], results[i].Ok?)
    ensures AllNew(before, after, fis)
  {
    hide NewList;
    CountAll(results);
  }

  /** Every promotion that succeeded has been undone. */
  predicate AllUndone(results: seq<Result<string, Failure>>, undone: seq<bool>)
    requires |results| == |undone|
  {
    forall i :: 0 <= i < |results| && results[i].Ok? ==> undone[i]
  }

  // ----- Puts over the life of an object

  /** The disks' directories are where their lives have brought them, and the next
      put is a fresh one with its data staged. */
  ghost predicate NextPut(l: Life, d: Dir, fi: FileInfo, staged: bool) {
    NullLife(l) && d == Now(l) && FreshPut(l.calls, fi) && (fi.dataDir != "" ==> staged)
  }

  /** In a bucket that was never version-enabled, every put on every disk, after any
      calls whatever, keeps the bytes of every live version in place at each of its
      file steps, leaves the new version everywhere or, when taken back, the version
      that was there, and continues the disks' lives. */
  method PutInLife(disks: seq<DiskDir>, fis: seq<FileInfo>, quorum: nat, ghost lives: seq<Life>)
    returns (r: Result<(), Failure>, ghost results: seq<Result<string, Failure>>, ghost undone: seq<bool>, ghost next: seq<Life>)
    requires |fis| == |disks| == |lives| && Apart(disks)
    requires forall i :: 0 <= i < |disks| ==> NextPut(lives[i], disks[i].View(), fis[i], disks[i].staged)
    modifies disks
    ensures |results| == |undone| == |next| == |disks|
    ensures r.Ok? <==> |OkDisks(results)| >= quorum
    ensures forall i :: 0 <= i < |disks| && disks[i].healthy ==>
      undone[i] && (results[i].Ok? <==> Mergeable(old(Views(disks))[i].live, fis[i]))
    ensures AllRecorded(old(StartOf(disks)), Traces(disks), Views(disks))
    ensures forall i :: 0 <= i < |disks| ==> SafeSince(old(Traces(disks))[i], disks[i].trace)
    ensures forall i :: 0 <= i < |disks| ==> LivesOnFrom(lives[i], fis[i], old(Staged(disks))[i], old(Traces(disks))[i], disks[i].trace)
    ensures r.Ok? && quorum == |disks| ==> AllNew(old(Views(disks)), Views(disks), fis)
    ensures r.Err? && AllUndone(results, undone) ==> AllAsBefore(old(Views(disks)), Views(disks))
    ensures forall i :: 0 <= i < |disks| && disks[i].healthy && Tidy(old(Views(disks))[i]) ==> Tidy(disks[i].View())
    ensures forall i :: 0 <= i < |disks| ==>
      && next[i] == Then(lives[i], Put(fis[i], old(Staged(disks))[i], EndingOf(r.Ok?, results[i], undone[i])), disks[i].View())
      && NullLife(next[i])
  {
    hide NextPut, PutReady, NullVersioned, Happens, NullLife, AllNew, AllAsBefore, AllUndone, Mergeable, Settles, RestoredWhere, SafeSince,
      EndingOf, FirstError, ToPurge, EndsSince, LivesOnFrom, AllRecorded, HappensWell, Tidy;
    ghost var before, staged, traces := Views(disks), Staged(disks), Traces(disks);
    ReadyEverywhere(lives, before, fis, staged);
    r, results, undone := PromoteVersions(disks, fis, quorum);
    ghost var after := Views(disks);
    next := seq(|disks|, i requires 0 <= i < |disks| =>
      Then(lives[i], Put(fis[i], staged[i], EndingOf(r.Ok?, results[i], undone[i])), after[i]));
    forall i | 0 <= i < |disks|
      ensures NullLife(next[i]) && LivesOnFrom(lives[i], fis[i], staged[i], traces[i], disks[i].trace)
      ensures disks[i].healthy && Tidy(before[i]) ==> Tidy(disks[i].View())
    {
      if disks[i].healthy && Tidy(before[i]) {
        PutTidies(lives[i], before[i], fis[i], staged[i], EndingOf(r.Ok?, results[i], undone[i]), after[i]);
      }
      CutShort(lives[i], before[i], fis[i], staged[i], traces[i], disks[i].trace);
      PutLivesOn(lives[i], before[i], fis[i], staged[i], EndingOf(r.Ok?, results[i], undone[i]), after[i]);
    }
  }

  /** The life goes on from d, the put having ended in one of its ways. */
  ghost predicate GoesOn(l: Life, fi: FileInfo, staged: bool, d: Dir) {
    exists ending :: NullLife(Then(l, Put(fi, staged, ending), d))
  }

  /** Wherever the put is cut short, the disk's life goes on from there. */
  ghost predicate LivesOnFrom(l: Life, fi: FileInfo, staged: bool, t: seq<Dir>, t': seq<Dir>) {
    t <= t' && forall d :: d in t'[|t|..] ==> GoesOn(l, fi, staged, d)
  }

  lemma CutShort(l: Life, a: Dir, fi: FileInfo, staged: bool, t: seq<Dir>, t': seq<Dir>)
    requires NextPut(l, a, fi, staged) && EndsSince(a, fi, staged, t, t')
    ensures LivesOnFrom(l, fi, staged, t, t')
  {
    hide NextPut, NullLife, Happens;
    forall d | d in t'[|t|..]
      ensures GoesOn(l, fi, staged, d)
    {
      assert Ends(a, fi, staged, d);
      var ending :| Happens(a, Put(fi, staged, ending), d);
      PutLivesOn(l, a, fi, staged, ending, d);
    }
  }

  lemma ReadyEverywhere(lives: seq<Life>, views: seq<Dir>, fis: seq<FileInfo>, staged: seq<bool>)
    requires |lives| == |views| == |fis| == |staged|
    requires forall i :: 0 <= i < |lives| ==> NextPut(lives[i], views[i], fis[i], staged[i])
    ensures forall i :: 0 <= i < |lives| ==> PutReady(views[i], staged[i], fis[i])
    ensures NullBucket(views, fis)
  {
    hide PutReady, NullVersioned, NullLife, FreshPut;
    forall i | 0 <= i < |lives|
      ensures PutReady(views[i], staged[i], fis[i]) && NullVersioned(views[i], fis[i])
    {
      NullReady(lives[i], fis[i], staged[i]);
    }
  }

  lemma PutTidies(l: Life, a: Dir, fi: FileInfo, staged: bool, ending: Ending, b: Dir)
    requires NextPut(l, a, fi, staged) && Tidy(a) && HappensWell(a, Put(fi, staged, ending), b)
    ensures Tidy(b)
  {
    hide NullLife, HappensWell, SettledDir, NullInv, Tidy;
    LifeEnds(l);
    NullRun(l, |l.calls|);
    assert l.calls[..|l.calls|] == l.calls;
    TidyStep(a, UsedDirs(l.calls), Put(fi, staged, ending), b);
  }

  lemma LifeEnds(l: Life)
    requires NullLife(l)
    ensures |l.states| == |l.calls| + 1
  {
  }

  lemma PutLivesOn(l: Life, d: Dir, fi: FileInfo, staged: bool, ending: Ending, b: Dir)
    requires NextPut(l, d, fi, staged) && Happens(d, Put(fi, staged, ending), b)
    ensures NullLife(Then(l, Put(fi, staged, ending), b))
  {
    hide NullLife, Happens, FreshPut;
    NullLivesOn(l, Put(fi, staged, ending), b);
  }
}
