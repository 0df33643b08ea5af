/** The life of one object's directory on one disk: whole calls, one after the
    other, each of which may fail, be taken back or be cut short
    (crates/openlake_io/src/local_fs.rs:354-390, 985-1184). */
module DiskLife {
  import opened Bytes
  import opened Uuid
  import opened NewestFirst
  import opened XlMeta
  import opened VersionMerge
  import opened Promotion

  /** How the put of a version ends on a disk: before its commit, with the version
      live, or with the version taken back. */
  datatype Ending = Failed | Stayed | TakenBack

  datatype Call =
    | Put(fi: FileInfo, staged: bool, ending: Ending)
    | Remove(metaRemoved: bool, backupRemoved: bool)

  /** A put that stays may have purged what it replaced. */
  ghost predicate Happens(a: Dir, call: Call, b: Dir) {
    match call
    case Put(fi, staged, Failed) => NotPromoted(a, b, fi)
    case Put(fi, staged, Stayed) =>
      && Mergeable(a.live, fi)
      && (b == AfterPut(a, fi, staged) || b == Purged(AfterPut(a, fi, staged), Replaced(Listed(a.live), fi)))
    case Put(fi, staged, TakenBack) => Mergeable(a.live, fi) && Undone(AfterPut(a, fi, staged), b, fi)
    case Remove(false, _) =>
      && a.live.Some? && b.live == a.live && b.bkp == a.bkp
      && a.dirs - DataDirs(Listed(a.live)) <= b.dirs <= a.dirs
    case Remove(true, removed) =>
      && a.live.Some? && b.live.None? && b.bkp == (if removed then None else a.bkp)
      && a.dirs - DataDirs(Listed(a.live)) <= b.dirs <= a.dirs
  }

  function Purged(d: Dir, stale: string): Dir {
    d.(dirs := d.dirs - {stale})
  }

  datatype Life = Life(states: seq<Dir>, calls: seq<Call>)

  /** The directory goes through the calls, starting with nothing. */
  ghost predicate Lived(l: Life) {
    && |l.states| == |l.calls| + 1 && l.states[0] == Dir(None, None, {})
    && forall j :: 0 <= j < |l.calls| ==> Happens(l.states[j], l.calls[j], l.states[j + 1])
  }

  ghost function Now(l: Life): Dir
    requires l.states != []
  {
    l.states[|l.states| - 1]
  }

  function Then(l: Life, call: Call, d: Dir): Life {
    Life(l.states + [d], l.calls + [call])
  }

  lemma LivesOn(l: Life, call: Call, d: Dir)
    requires Lived(l) && Happens(Now(l), call, d)
    ensures Lived(Then(l, call, d)) && Now(Then(l, call, d)) == d
  {
    hide Happens;
    var m := Then(l, call, d);
    forall j | 0 <= j < |m.calls|
      ensures Happens(m.states[j], m.calls[j], m.states[j + 1])
    {
      assert m.states[j] == l.states[j];
    }
  }

  // ----- Buckets that were never version-enabled

  /** At most the null version is listed. */
  ghost predicate OneVersion(meta: Option<Meta>) {
    meta.Some? ==> meta.value.Versions? && |meta.value.list| == 1 && meta.value.list[0].versionId == NULL
  }

  /** Data directories that puts have used. */
  ghost function UsedDirs(past: seq<Call>): set<string> {
    set j | 0 <= j < |past| && past[j].Put? :: past[j].fi.dataDir
  }

  /** A put of the null version under a data directory never used before. */
  ghost predicate FreshPut(past: seq<Call>, fi: FileInfo) {
    fi.versionId == NULL && SettledDir(fi) && (fi.dataDir != "" ==> fi.dataDir !in UsedDirs(past))
  }

  /** Puts stage their data first; a delete runs to the end, unless nothing it lists
      has a data directory. */
  ghost predicate NullCall(a: Dir, past: seq<Call>, call: Call) {
    match call
    case Put(fi, staged, _) => FreshPut(past, fi) && (fi.dataDir != "" ==> staged)
    case Remove(metaRemoved, backupRemoved) => if metaRemoved then backupRemoved || a.bkp.None? else AllInline(Listed(a.live))
  }

  ghost predicate NullLife(l: Life) {
    Lived(l) && forall j :: 0 <= j < |l.calls| ==> NullCall(l.states[j], l.calls[..j], l.calls[j])
  }

  /** The live version has its bytes, in a directory some put made for it, and a
      backup lies beside a live file. */
  ghost predicate NullInv(d: Dir, used: set<string>) {
    && OneVersion(d.live) && BackupBeside(d) && Safe(d) && AllSettled(Listed(d.live))
    && forall v :: v in Listed(d.live) && v.dataDir != "" ==> v.dataDir in used
  }

  lemma {:induction false} NoOthers(list: seq<FileInfo>, id: string)
    requires forall v :: v in list ==> v.versionId == id
    ensures Others(list, id) == []
  {
    if list != [] {
      NoOthers(list[..|list| - 1], id);
    }
  }

  lemma OnlyNew(list: seq<FileInfo>, fi: FileInfo)
    requires forall v :: v in list ==> v.versionId == fi.versionId
    ensures NewList(list, fi) == [Back(fi)]
  {
    hide Back;
    NoOthers(list, fi.versionId);
    assert Others(list, fi.versionId) + [fi] == [fi];
    SortFixed([fi], InfoTime);
  }

  lemma NullBack(fi: FileInfo)
    requires fi.versionId == NULL && SettledDir(fi)
    ensures Back(fi).versionId == NULL && Back(fi).dataDir == fi.dataDir && SettledDir(Back(fi))
  {
    hide Dashed, Hex, Unhex, Strip;
  }

  /** The directory right after the commit of a null version. */
  lemma NullCommitted(a: Dir, used: set<string>, fi: FileInfo, staged: bool)
    requires NullInv(a, used) && fi.versionId == NULL && SettledDir(fi) && (fi.dataDir != "" ==> staged)
    ensures
      var m := AfterPut(a, fi, staged);
      && NullInv(m, used + {fi.dataDir}) && Listed(m.live) == [Back(fi)] && m.bkp == a.live
      && Back(fi).dataDir == fi.dataDir
  {
    hide NewList, DataDirBack, Back;
    OnlyNew(Listed(a.live), fi);
    NullBack(fi);
    if a.live.Some? {
      assert Listed(a.live)[0] in Listed(a.live);
    }
  }

  lemma NullStep(a: Dir, used: set<string>, call: Call, b: Dir)
    requires NullInv(a, used) && Happens(a, call, b)
    requires call.Put? ==> call.fi.versionId == NULL && SettledDir(call.fi) && (call.fi.dataDir != "" ==> call.staged && call.fi.dataDir !in used)
    requires call.Remove? ==> if call.metaRemoved then call.backupRemoved || a.bkp.None? else AllInline(Listed(a.live))
    ensures NullInv(b, used + (if call.Put? then {call.fi.dataDir} else {}))
  {
    hide NewList, SettledDir, Mergeable, Replaced;
    if call.Put? && call.ending != Failed {
      NullCommitted(a, used, call.fi, call.staged);
      if call.ending == Stayed {
        NullStale(a, call.fi);
      }
    }
  }

  lemma NullStale(a: Dir, fi: FileInfo)
    requires OneVersion(a.live)
    ensures Replaced(Listed(a.live), fi) != "" ==> Replaced(Listed(a.live), fi) != fi.dataDir
  {
    if Replaced(Listed(a.live), fi) != "" {
      ReplacedIs(Listed(a.live), fi);
    }
  }

  lemma UsedSnoc(past: seq<Call>, call: Call)
    ensures UsedDirs(past + [call]) == UsedDirs(past) + (if call.Put? then {call.fi.dataDir} else {})
  {
    var all := past + [call];
    forall x | x in UsedDirs(past) + (if call.Put? then {call.fi.dataDir} else {})
      ensures x in UsedDirs(all)
    {
      if x in UsedDirs(past) {
        var j :| 0 <= j < |past| && past[j].Put? && past[j].fi.dataDir == x;
        assert all[j] == past[j];
      } else {
        assert all[|past|] == call;
      }
    }
  }

  /** In every state of every such life the live version has its bytes. */
  lemma {:induction false} NullRun(l: Life, i: nat)
    requires NullLife(l) && i < |l.states|
    ensures NullInv(l.states[i], UsedDirs(l.calls[..i]))
  {
    hide NullInv, Happens, SettledDir;
    if i == 0 {
      NothingYet();
    } else {
      NullRun(l, i - 1);
      assert l.calls[..i] == l.calls[..i - 1] + [l.calls[i - 1]];
      UsedSnoc(l.calls[..i - 1], l.calls[i - 1]);
      assert NullCall(l.states[i - 1], l.calls[..i - 1], l.calls[i - 1]);
      assert Happens(l.states[i - 1], l.calls[i - 1], l.states[i - 1 + 1]);
      NullStep(l.states[i - 1], UsedDirs(l.calls[..i - 1]), l.calls[i - 1], l.states[i]);
    }
  }

  lemma NothingYet()
    ensures NullInv(Dir(None, None, {}), UsedDirs([]))
  {
  }

  /** So the next put finds what it needs to be safe at every step and to be taken
      back, whatever happened before. */
  lemma NullReady(l: Life, fi: FileInfo, staged: bool)
    requires NullLife(l) && FreshPut(l.calls, fi) && (fi.dataDir != "" ==> staged)
    ensures PutReady(Now(l), staged, fi) && NullVersioned(Now(l), fi)
  {
    hide SettledDir;
    var i := |l.calls|;
    NullRun(l, i);
    assert l.calls[..i] == l.calls;
    var d := Now(l);
    if d.live.Some? {
      assert Listed(d.live)[0] in Listed(d.live);
    }
  }

  lemma NullLivesOn(l: Life, call: Call, d: Dir)
    requires NullLife(l) && NullCall(Now(l), l.calls, call) && Happens(Now(l), call, d)
    ensures NullLife(Then(l, call, d)) && Now(Then(l, call, d)) == d
  {
    hide Happens, NullCall;
    LivesOn(l, call, d);
    var m := Then(l, call, d);
    forall j | 0 <= j < |m.calls|
      ensures NullCall(m.states[j], m.calls[..j], m.calls[j])
    {
      if j < |l.calls| {
        assert m.calls[..j] == l.calls[..j] && m.states[j] == l.states[j];
      } else {
        assert m.calls[..j] == l.calls;
      }
    }
  }

  /** The call that a delete is when it is cut short with the directory as d. */
  function RemovedTo(d: Dir): Call {
    Remove(d.live.None?, d.live.None? && d.bkp.None?)
  }

  // ----- Nothing is left lying about

  /** A call that meets no failure of the disk: a put is refused before its first
      step, stays and purges what it replaced, or is taken back in full; a delete
      runs to its end. */
  ghost predicate HappensWell(a: Dir, call: Call, b: Dir) {
    match call
    case Put(fi, staged, Failed) => b == a
    case Put(fi, staged, Stayed) =>
      var m, stale := AfterPut(a, fi, staged), Replaced(Listed(a.live), fi);
      Mergeable(a.live, fi) && b == if stale == "" then m else Purged(m, stale)
    case Put(fi, staged, TakenBack) => Mergeable(a.live, fi) && UndoneWell(AfterPut(a, fi, staged), b, fi)
    case Remove(metaRemoved, backupRemoved) =>
      metaRemoved && backupRemoved && a.live.Some? && b == Dir(None, None, a.dirs - DataDirs(Listed(a.live)))
  }

  /** The data directories in place are exactly those of the live versions. */
  ghost predicate Tidy(d: Dir) {
    d.dirs == DataDirs(Listed(d.live))
  }

  lemma OnlyDir(v: FileInfo)
    ensures DataDirs([v]) == if v.dataDir == "" then {} else {v.dataDir}
  {
  }

  lemma TidyStep(a: Dir, used: set<string>, call: Call, b: Dir)
    requires NullInv(a, used) && Tidy(a) && HappensWell(a, call, b)
    requires call.Put? ==> call.fi.versionId == NULL && SettledDir(call.fi) && (call.fi.dataDir != "" ==> call.staged && call.fi.dataDir !in used)
    ensures Tidy(b)
  {
    hide NewList, SettledDir, Mergeable;
    if call.Put? && call.ending != Failed {
      var fi, m := call.fi, AfterPut(a, call.fi, call.staged);
      NullCommitted(a, used, fi, call.staged);
      OnlyDir(Back(fi));
      if a.live.Some? {
        var v := Listed(a.live)[0];
        assert Listed(a.live) == [v] && v in Listed(a.live);
        OnlyDir(v);
      }
    }
  }

  /** Over every such life on a disk without failures, with as many puts taken back
      as there may be, no data directory is in place but the live version's. */
  lemma {:induction false} TidyRun(l: Life, i: nat)
    requires NullLife(l) && i < |l.states|
    requires forall j :: 0 <= j < |l.calls| ==> HappensWell(l.states[j], l.calls[j], l.states[j + 1])
    ensures Tidy(l.states[i])
  {
    hide NullInv, Happens, HappensWell, SettledDir, Tidy;
    if i == 0 {
      NothingTidy();
    } else {
      TidyRun(l, i - 1);
      NullRun(l, i - 1);
      assert NullCall(l.states[i - 1], l.calls[..i - 1], l.calls[i - 1]);
      assert HappensWell(l.states[i - 1], l.calls[i - 1], l.states[i - 1 + 1]);
      TidyStep(l.states[i - 1], UsedDirs(l.calls[..i - 1]), l.calls[i - 1], l.states[i]);
    }
  }

  lemma NothingTidy()
    ensures Tidy(Dir(None, None, {}))
  {
  }

  /** A delete is a call of the directory's life, also when it is cut short at any of
      its file steps. It keeps the setting exactly when it finds nothing, runs to the
      end, as it does on a healthy disk, or stops with nothing but inline versions
      listed. */
  method DeleteInLife(disk: DiskDir, ghost l: Life) returns (r: Result<bool, Failure>, ghost next: Life, ghost steps: seq<Dir>)
    requires NullLife(l) && Now(l) == disk.View()
    modifies disk
    ensures r == Err(NotFound) <==> Now(l).live.None?
    ensures next == if r == Err(NotFound) then l else Then(l, Remove(r.Ok?, r == Ok(true)), disk.View())
    ensures Lived(next) && Now(next) == disk.View()
    ensures NullLife(next) <==>
      r == Err(NotFound) || (if r.Ok? then r.value || Now(l).bkp.None? else AllInline(Listed(Now(l).live)))
    ensures Recorded(Now(l), steps, disk.View())
    ensures forall d :: d in steps ==> Lived(Then(l, RemovedTo(d), d))
    ensures AllInline(Listed(Now(l).live)) ==> AllSafe(steps)
    ensures disk.healthy ==> r in {Err(NotFound), Ok(true)} && (AllSafe(steps) ==> AllInline(Listed(Now(l).live)))
    ensures disk.healthy && r == Ok(true) ==> HappensWell(Now(l), Remove(true, true), disk.View())
  {
    hide Recorded, AllSafe, AllInline, NullLife, Lived;
    LivedMeans(l);
    ghost var a := disk.View();
    r, steps := disk.Delete();
    next := l;
    if r != Err(NotFound) {
      next := RemovedNext(l, r, disk.View());
    } else {
      NothingInline(a.live);
    }
    forall d | d in steps
      ensures Lived(Then(l, RemovedTo(d), d))
    {
      DeletingHappens(a, d);
      LivesOn(l, RemovedTo(d), d);
    }
  }

  lemma LivedMeans(l: Life)
    requires NullLife(l)
    ensures Lived(l)
  {
  }

  lemma DeletingHappens(a: Dir, d: Dir)
    requires a.live.Some? && Deleting(a, d)
    ensures Happens(a, RemovedTo(d), d)
  {
  }

  lemma RemovedNext(l: Life, r: Result<bool, Failure>, d: Dir) returns (next: Life)
    requires NullLife(l) && Happens(Now(l), Remove(r.Ok?, r == Ok(true)), d)
    ensures next == Then(l, Remove(r.Ok?, r == Ok(true)), d) && Lived(next) && Now(next) == d
    ensures NullLife(next) <==> if r.Ok? then r.value || Now(l).bkp.None? else AllInline(Listed(Now(l).live))
  {
    hide Happens, AllInline;
    var call := Remove(r.Ok?, r == Ok(true));
    next := Then(l, call, d);
    LivesOn(l, call, d);
    if NullCall(Now(l), l.calls, call) {
      NullLivesOn(l, call, d);
    }
    if NullLife(next) {
      var j := |l.calls|;
      assert next.calls[..j] == l.calls && next.states[j] == Now(l) && next.calls[j] == call;
      assert NullCall(next.states[j], next.calls[..j], next.calls[j]);
    }
  }

  /** Every put of the null version can be taken back exactly when no backup lies
      without a live file. */
  lemma RestoresIffBeside(a: Dir)
    requires OneVersion(a.live)
    ensures (forall fi: FileInfo, staged, b :: fi.versionId == NULL && Happens(a, Put(fi, staged, TakenBack), b) ==> b.live == a.live)
       <==> BackupBeside(a)
  {
    hide NewList, Undone, Mergeable;
    if BackupBeside(a) {
      forall fi: FileInfo, staged, b | fi.versionId == NULL && Happens(a, Put(fi, staged, TakenBack), b)
        ensures b.live == a.live
      {
        TakenBackRestores(a, fi, staged, b);
      }
    } else {
      var fi := Sample(NULL, "", 1);
      SampleMerges(a, fi);
      var b := Dir(a.bkp, None, a.dirs);
      StaleTakenBack(a, fi, b);
      assert Happens(a, Put(fi, false, TakenBack), b);
    }
  }

  lemma TakenBackRestores(a: Dir, fi: FileInfo, staged: bool, b: Dir)
    requires OneVersion(a.live) && BackupBeside(a) && fi.versionId == NULL && Happens(a, Put(fi, staged, TakenBack), b)
    ensures b.live == a.live
  {
    hide NewList, Mergeable;
    if a.live.Some? {
      assert Listed(a.live)[0] in Listed(a.live);
    }
  }

  lemma StaleTakenBack(a: Dir, fi: FileInfo, b: Dir)
    requires a.live.None? && a.bkp.Some? && fi.dataDir == "" && b == Dir(a.bkp, None, a.dirs)
    ensures Undone(AfterPut(a, fi, false), b, fi)
  {
    hide NewList;
  }

  // ----- Lives outside that setting

  /** An empty version, which the encoder accepts when its ids parse. */
  function Sample(id: string, dir: string, time: nat): FileInfo {
    FileInfo(id, dir, false, 0, time, map[], map[], Erasure("rs", 1, 0, 1, 1, [1], []), [], None)
  }

  function SomeId(): Id {
    [1, 0, 0, 0, 0, 0, 0, 0, 0, 0, 0, 0, 0, 0, 0, 0]
  }

  /** The encoder takes the version, and it is read back as it is. */
  ghost predicate Plain(fi: FileInfo) {
    EncodeOk(fi) && IdsParse(fi) && Back(fi) == fi
  }

  lemma SamplePlain(time: nat)
    requires time > 0
    ensures Plain(Sample(NULL, "", time))
    ensures Plain(Sample(FormatVersionId(SomeId()), "", time)) && FormatVersionId(SomeId()) != NULL
    ensures Plain(Sample(NULL, FormatDataDir(SomeId()), time)) && FormatDataDir(SomeId()) != ""
  {
    hide Dashed, Hex, Unhex, Strip;
    assert SomeId()[0] != Zero()[0];
    ParseFormat(SomeId());
    NotSentinel(Hex(SomeId()));
  }

  lemma PlainMerges(live: Option<Meta>, fi: FileInfo)
    requires live != Some(Garbage) && Plain(fi) && forall v :: v in Listed(live) ==> Plain(v)
    ensures Mergeable(live, fi)
  {
    hide Merged, EncodeOk, IdsParse, Back;
    var merged := Merged(Listed(live), fi);
    MergedAre(Listed(live), fi);
    assert fi in merged;
    forall i | 0 <= i < |merged|
      ensures EncodeOk(merged[i]) && IdsParse(merged[i])
    {
      assert merged[i] in merged;
    }
  }

  lemma SampleMerges(a: Dir, fi: FileInfo)
    requires a.live.None? && fi == Sample(NULL, "", 1)
    ensures Mergeable(a.live, fi)
  {
    hide Plain;
    SamplePlain(1);
    PlainMerges(a.live, fi);
  }

  function Single(v: FileInfo): Option<Meta> {
    Some(Versions([v]))
  }

  lemma Begins(fi: FileInfo, staged: bool)
    requires Plain(fi)
    ensures Happens(Dir(None, None, {}), Put(fi, staged, Stayed),
                    Dir(Single(fi), None, if staged && fi.dataDir != "" then {fi.dataDir} else {}))
  {
    hide Mergeable, NewList, Back;
    PlainMerges(None, fi);
    OnlyNew([], fi);
  }

  lemma LosesAll(v: FileInfo, w: FileInfo)
    requires Plain(v) && Plain(w) && v.versionId != w.versionId
    ensures Happens(Dir(Single(v), None, {}), Put(w, false, TakenBack), Dir(None, None, {}))
  {
    hide Mergeable, NewList, Plain;
    PlainMerges(Single(v), w);
  }

  lemma Overwrites(v: FileInfo, w: FileInfo)
    requires Plain(v) && Plain(w) && v.versionId == w.versionId
    ensures Happens(Dir(Single(v), None, {}), Put(w, false, Stayed), Dir(Single(w), Single(v), {}))
  {
    hide Mergeable, NewList, Back;
    PlainMerges(Single(v), w);
    OnlyNew([v], w);
    assert v in Listed(Single(v));
  }

  lemma ReturnsOld(v: FileInfo, x: FileInfo)
    requires Plain(x) && x.dataDir == ""
    ensures Happens(Dir(None, Single(v), {}), Put(x, false, TakenBack), Dir(Single(v), None, {}))
  {
    hide Mergeable, NewList, Plain;
    PlainMerges(None, x);
  }

  /** In a version-enabled bucket, a put under a new id that is taken back loses
      every version the object had. */
  lemma UndoLosesHistory() returns (l: Life, v: FileInfo, w: FileInfo)
    ensures Lived(l) && l.calls == [Put(v, false, Stayed), Put(w, false, TakenBack)] && v.versionId != w.versionId
    ensures l.states[1].live == Single(v) && l.states[2].live == None
  {
    hide Plain, FormatVersionId, Lived;
    v, w := Sample(NULL, "", 1), Sample(FormatVersionId(SomeId()), "", 2);
    SamplePlain(1);
    SamplePlain(2);
    l := LosingLife(v, w);
  }

  lemma LosingLife(v: FileInfo, w: FileInfo) returns (l: Life)
    requires Plain(v) && Plain(w) && v.versionId != w.versionId
    ensures Lived(l) && l.calls == [Put(v, false, Stayed), Put(w, false, TakenBack)]
    ensures l.states == [Dir(None, None, {}), Dir(Single(v), None, {}), Dir(None, None, {})]
  {
    hide Happens, Plain;
    Begins(v, false);
    LosesAll(v, w);
    l := Life([Dir(None, None, {}), Dir(Single(v), None, {}), Dir(None, None, {})], [Put(v, false, Stayed), Put(w, false, TakenBack)]);
  }

  /** A delete that leaves its backup behind lets a later put that is taken back
      return a version that had been replaced and deleted. */
  lemma StaleBackupReturns() returns (l: Life, v: FileInfo, w: FileInfo, x: FileInfo)
    ensures Lived(l)
    ensures l.calls == [Put(v, false, Stayed), Put(w, false, Stayed), Remove(true, false), Put(x, false, TakenBack)]
    ensures v.versionId == w.versionId == x.versionId == NULL
    ensures l.states[3].live == None && l.states[4].live == Single(v)
  {
    hide Plain, Lived;
    v, w, x := Sample(NULL, "", 1), Sample(NULL, "", 2), Sample(NULL, "", 3);
    SamplePlain(1);
    SamplePlain(2);
    SamplePlain(3);
    l := StaleLife(v, w, x);
  }

  lemma StaleLife(v: FileInfo, w: FileInfo, x: FileInfo) returns (l: Life)
    requires Plain(v) && Plain(w) && Plain(x) && v.versionId == w.versionId && x.dataDir == ""
    ensures Lived(l)
    ensures l.calls == [Put(v, false, Stayed), Put(w, false, Stayed), Remove(true, false), Put(x, false, TakenBack)]
    ensures l.states == [Dir(None, None, {}), Dir(Single(v), None, {}), Dir(Single(w), Single(v), {}), Dir(None, Single(v), {}), Dir(Single(v), None, {})]
  {
    hide Happens, Plain;
    Begins(v, false);
    Overwrites(v, w);
    KeepsBackup(v, w);
    ReturnsOld(v, x);
    l := Life([Dir(None, None, {}), Dir(Single(v), None, {}), Dir(Single(w), Single(v), {}), Dir(None, Single(v), {}), Dir(Single(v), None, {})],
              [Put(v, false, Stayed), Put(w, false, Stayed), Remove(true, false), Put(x, false, TakenBack)]);
  }

  lemma KeepsBackup(v: FileInfo, w: FileInfo)
    ensures Happens(Dir(Single(w), Single(v), {}), Remove(true, false), Dir(None, Single(v), {}))
  {
  }

  /** A delete that stops before it removes the xl.meta leaves a version listed
      without its bytes. */
  lemma TornDeleteLosesBytes() returns (l: Life, v: FileInfo)
    ensures Lived(l) && l.calls == [Put(v, true, Stayed), Remove(false, false)] && v.versionId == NULL
    ensures Safe(l.states[1]) && Listed(l.states[2].live) == [v] && !Safe(l.states[2])
  {
    hide Plain, Lived, Safe, FormatDataDir;
    v := Sample(NULL, FormatDataDir(SomeId()), 1);
    SamplePlain(1);
    l := TornLife(v);
  }

  /** A delete that stops before it removes the xl.meta loses nothing, wherever it
      stops, exactly when no listed version has a data directory. */
  lemma TornDeleteSafeIff(a: Dir)
    requires a.live.Some? && Safe(a)
    ensures (forall b :: Happens(a, Remove(false, false), b) ==> Safe(b)) <==> AllInline(Listed(a.live))
  {
    if !AllInline(Listed(a.live)) {
      var v :| v in Listed(a.live) && v.dataDir != "";
      var b := Dir(a.live, a.bkp, a.dirs - DataDirs(Listed(a.live)));
      assert Happens(a, Remove(false, false), b);
      TrashedUnsafe(a, b, v);
    }
  }

  lemma TornLife(v: FileInfo) returns (l: Life)
    requires Plain(v) && v.dataDir != ""
    ensures Lived(l) && l.calls == [Put(v, true, Stayed), Remove(false, false)]
    ensures l.states == [Dir(None, None, {}), Dir(Single(v), None, {v.dataDir}), Dir(Single(v), None, {})]
    ensures Safe(l.states[1]) && !Safe(l.states[2])
  {
    hide Happens, Plain, Safe;
    Begins(v, true);
    Tears(v);
    l := Life([Dir(None, None, {}), Dir(Single(v), None, {v.dataDir}), Dir(Single(v), None, {})], [Put(v, true, Stayed), Remove(false, false)]);
  }

  lemma Tears(v: FileInfo)
    requires v.dataDir != ""
    ensures Happens(Dir(Single(v), None, {v.dataDir}), Remove(false, false), Dir(Single(v), None, {}))
    ensures Safe(Dir(Single(v), None, {v.dataDir})) && !Safe(Dir(Single(v), None, {}))
  {
    assert v in Listed(Single(v));
  }
}
