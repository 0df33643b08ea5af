/** Promoting a staged version into an object's directory on one disk, taking it
    back, and deleting the object (crates/openlake_io/src/local_fs.rs:354-390,
    985-1184). A file step is atomic and may fail; a step that fails changes
    nothing. */
module Promotion {
  import opened Bytes
  import opened NewestFirst
  import opened Uuid
  import opened XlMeta
  import opened VersionMerge

  /** What is read from an xl.meta file. */
  datatype Meta = Versions(list: seq<FileInfo>) | Garbage

  /** An object's directory on one disk: the live xl.meta, its backup, and the
      data directories in place. */
  datatype Dir = Dir(live: Option<Meta>, bkp: Option<Meta>, dirs: set<string>)

  datatype Failure = Corrupt | EncodeFailed | NotFound | IoFailed

  function Listed(meta: Option<Meta>): seq<FileInfo> {
    match meta
    case Some(Versions(list)) => list
    case _ => []
  }

  /** The version's bytes are inline, or its data directory is in place. */
  predicate Intact(v: FileInfo, dirs: set<string>) {
    v.dataDir == "" || v.dataDir in dirs
  }

  ghost predicate AllIntact(list: seq<FileInfo>, dirs: set<string>) {
    forall v :: v in list ==> Intact(v, dirs)
  }

  /** No version listed by the live xl.meta has lost its bytes. */
  ghost predicate Safe(d: Dir) {
    AllIntact(Listed(d.live), d.dirs)
  }

  ghost predicate AllSafe(trace: seq<Dir>) {
    forall d :: d in trace ==> Safe(d)
  }

  predicate HasId(list: seq<FileInfo>, id: string) {
    exists v :: v in list && v.versionId == id
  }

  /** The live list has a version of the same id. */
  predicate Prior(d: Dir, fi: FileInfo) {
    HasId(Listed(d.live), fi.versionId)
  }

  /** A new version's data directory is its own. */
  ghost predicate OwnDataDir(list: seq<FileInfo>, fi: FileInfo) {
    fi.dataDir != "" ==> forall v :: v in list ==> v.dataDir != fi.dataDir
  }

  /** No two versions share a data directory. */
  ghost predicate DataDirsApart(list: seq<FileInfo>) {
    forall i, j :: 0 <= i < j < |list| && list[i].dataDir != "" ==> list[i].dataDir != list[j].dataDir
  }

  /** The version's data directory is spelled the way it is read back. */
  predicate SettledDir(fi: FileInfo) {
    DataDirBack(fi.dataDir) == fi.dataDir
  }

  ghost predicate AllSettled(list: seq<FileInfo>) {
    forall v :: v in list ==> SettledDir(v)
  }

  lemma MergedAre(list: seq<FileInfo>, fi: FileInfo)
    ensures forall v :: v in Merged(list, fi) <==> v == fi || (v in list && v.versionId != fi.versionId)
  {
    OthersAre(list, fi.versionId);
    SameElements(Others(list, fi.versionId) + [fi], InfoTime);
  }

  /** Every version of the new list is the new one or one that was there. */
  lemma NewListFrom(list: seq<FileInfo>, fi: FileInfo, v: FileInfo) returns (u: FileInfo)
    requires AllSettled(list) && SettledDir(fi) && v in NewList(list, fi)
    ensures v == Back(u) && v.dataDir == u.dataDir && (u == fi || (u in list && u.versionId != fi.versionId))
  {
    hide Merged, Back, DataDirBack;
    var i :| 0 <= i < |NewList(list, fi)| && NewList(list, fi)[i] == v;
    u := Merged(list, fi)[i];
    MergedAre(list, fi);
    assert u in Merged(list, fi);
    BackDir(u);
  }

  lemma BackDir(u: FileInfo)
    ensures Back(u).dataDir == DataDirBack(u.dataDir) && Back(u).versionId == VersionIdBack(u.versionId)
  {
  }

  // ----- What each operation does to the directory

  /** The encoder accepts the list. */
  predicate Encodable(list: seq<FileInfo>) {
    list != [] && forall i :: 0 <= i < |list| ==> EncodeOk(list[i]) && IdsParse(list[i])
  }

  /** The live file can be read, and with the new version in it be written again. */
  predicate Mergeable(live: Option<Meta>, fi: FileInfo) {
    live != Some(Garbage) && Encodable(Merged(Listed(live), fi))
  }

  /** After a promotion the merged list is live, the list before it is the backup if
      it had a version of the same id, and the data is in place. */
  function AfterPut(a: Dir, fi: FileInfo, staged: bool): Dir {
    Dir(Some(Versions(NewList(Listed(a.live), fi))),
        if Prior(a, fi) then a.live else a.bkp,
        a.dirs + (if staged && fi.dataDir != "" then {fi.dataDir} else {}))
  }

  ghost predicate Promoted(a: Dir, b: Dir, fi: FileInfo, staged: bool) {
    Mergeable(a.live, fi) && b == AfterPut(a, fi, staged)
  }

  /** A promotion that failed before its commit: the live list is as it was. */
  ghost predicate NotPromoted(a: Dir, b: Dir, fi: FileInfo) {
    && b.live == a.live
    && (b.bkp == a.bkp || (Prior(a, fi) && b.bkp == a.live))
    && a.dirs <= b.dirs <= a.dirs + {fi.dataDir}
  }

  /** An undo that succeeded: the backup is live again, or, without one, the whole
      object directory is gone. */
  ghost predicate Undone(b: Dir, c: Dir, fi: FileInfo) {
    if b.bkp.Some? then c.live == b.bkp && c.bkp == None && b.dirs - {fi.dataDir} <= c.dirs <= b.dirs
    else c == Dir(None, None, {})
  }

  /** A backup exists only beside a live xl.meta. */
  predicate BackupBeside(d: Dir) {
    d.bkp.Some? ==> d.live.Some?
  }

  /** The data directory of the version that `fi` replaces, if it differs. */
  function Replaced(list: seq<FileInfo>, fi: FileInfo): string {
    if list == [] then ""
    else if list[0].versionId == fi.versionId then (if list[0].dataDir != fi.dataDir then list[0].dataDir else "")
    else Replaced(list[1..], fi)
  }

  /** Every live version has its bytes, and the new one's are staged or in place,
      all in directories that are read back under the same name. */
  ghost predicate Ready(a: Dir, staged: bool, fi: FileInfo) {
    Safe(a) && AllSettled(Listed(a.live)) && SettledDir(fi) && (fi.dataDir != "" ==> staged || fi.dataDir in a.dirs)
  }

  lemma SwapSafe(a: Dir, b: Dir, staged: bool, fi: FileInfo)
    requires b.live == Some(Versions(NewList(Listed(a.live), fi)))
    requires b.dirs == a.dirs + (if staged && fi.dataDir != "" then {fi.dataDir} else {})
    ensures Ready(a, staged, fi) ==> Safe(b)
  {
    hide NewList, SettledDir;
    if Ready(a, staged, fi) {
      forall v | v in Listed(b.live)
        ensures Intact(v, b.dirs)
      {
        var u := NewListFrom(Listed(a.live), fi, v);
      }
    }
  }

  /** A directory that a promotion passes through. */
  ghost predicate OnTheWay(a: Dir, d: Dir, fi: FileInfo, staged: bool) {
    (NotPromoted(a, d, fi) || Promoted(a, d, fi, staged)) && (Ready(a, staged, fi) ==> Safe(d))
  }

  lemma BeforeSwap(a: Dir, d: Dir, fi: FileInfo, staged: bool)
    requires d.live == a.live && (d.bkp == a.bkp || (Prior(a, fi) && d.bkp == a.live)) && a.dirs <= d.dirs <= a.dirs + {fi.dataDir}
    ensures OnTheWay(a, d, fi, staged) && NotPromoted(a, d, fi)
  {
    hide HasId, Promoted, AllSettled, SettledDir;
  }

  lemma AfterSwap(a: Dir, d: Dir, fi: FileInfo, staged: bool)
    requires Promoted(a, d, fi, staged)
    ensures OnTheWay(a, d, fi, staged)
  {
    hide HasId, Mergeable, AllSettled, SettledDir, NewList;
    SwapSafe(a, d, staged, fi);
  }

  /** Every step so far was recorded, and each led to a directory on the way. */
  ghost predicate WayFrom(a: Dir, t: seq<Dir>, b: Dir, t': seq<Dir>, fi: FileInfo, staged: bool) {
    && t <= t' && Recorded(a, Since(t, t'), b)
    && forall d :: d in Since(t, t') ==> OnTheWay(a, d, fi, staged)
  }

  lemma WayStarts(a: Dir, t: seq<Dir>, fi: FileInfo, staged: bool)
    ensures WayFrom(a, t, a, t, fi, staged)
  {
  }

  lemma WayGoesOn(a: Dir, t: seq<Dir>, b: Dir, t': seq<Dir>, c: Dir, t'': seq<Dir>, fi: FileInfo, staged: bool)
    requires WayFrom(a, t, b, t', fi, staged) && Noted(b, t', c, t'') && OnTheWay(a, c, fi, staged)
    ensures WayFrom(a, t, c, t'', fi, staged)
  {
    hide OnTheWay, FileStep, Recorded;
    NotedRecorded(b, t', c, t'');
    SinceJoins(a, t, b, t', c, t'');
    assert Since(t, t'') == Since(t, t') + Since(t', t'');
  }

  lemma WayMeans(a: Dir, t: seq<Dir>, b: Dir, t': seq<Dir>, fi: FileInfo, staged: bool)
    requires WayFrom(a, t, b, t', fi, staged)
    ensures t <= t' && Recorded(a, Since(t, t'), b)
    ensures Ready(a, staged, fi) ==> AllSafe(t'[|t|..])
    ensures forall d :: d in t'[|t|..] ==> NotPromoted(a, d, fi) || Promoted(a, d, fi, staged)
  {
    hide Promoted, NotPromoted, Ready, Safe, Recorded;
  }

  /** What a backup lists has its bytes, also without the new version's data. */
  ghost predicate UndoReady(b: Dir, fi: FileInfo) {
    AllIntact(Listed(b.bkp), b.dirs) && OwnDataDir(Listed(b.bkp), fi)
  }

  /** Entry i is the first with the given id. */
  predicate FirstWithId(list: seq<FileInfo>, id: string, i: nat) {
    i < |list| && list[i].versionId == id && forall j :: 0 <= j < i ==> list[j].versionId != id
  }

  /** `dir` is what a put of fi over the list leaves to be purged: the data directory
      of the first version of its id, if that has one of its own, and else nothing. */
  ghost predicate ToPurge(list: seq<FileInfo>, fi: FileInfo, dir: string) {
    && (forall i: nat {:trigger FirstWithId(list, fi.versionId, i)} :: FirstWithId(list, fi.versionId, i) ==>
          dir == if list[i].dataDir != "" && list[i].dataDir != fi.dataDir then list[i].dataDir else "")
    && ((forall v :: v in list ==> v.versionId != fi.versionId) ==> dir == "")
  }

  lemma {:induction false} ReplacedToPurge(list: seq<FileInfo>, fi: FileInfo)
    ensures ToPurge(list, fi, Replaced(list, fi))
  {
    if list != [] && list[0].versionId != fi.versionId {
      ReplacedToPurge(list[1..], fi);
      forall i: nat | FirstWithId(list, fi.versionId, i)
        ensures Replaced(list, fi) == if list[i].dataDir != "" && list[i].dataDir != fi.dataDir then list[i].dataDir else ""
      {
        assert list[1..][i - 1] == list[i];
        assert FirstWithId(list[1..], fi.versionId, i - 1);
      }
    }
  }

  /** An undo that met no failure. */
  ghost predicate UndoneWell(b: Dir, c: Dir, fi: FileInfo) {
    c == if b.bkp.Some? then Dir(b.bkp, None, b.dirs - {fi.dataDir}) else Dir(None, None, {})
  }

  // ----- File steps

  /** One data directory comes or goes. */
  ghost predicate OneDirApart(a: set<string>, b: set<string>) {
    exists x :: b == a + {x} || b == a - {x}
  }

  /** One file step: the live file, the backup or one data directory changes, the
      backup is renamed over the live file, or the whole directory goes. */
  ghost predicate FileStep(a: Dir, b: Dir) {
    || (b.bkp == a.bkp && b.dirs == a.dirs)
    || (b.live == a.live && b.dirs == a.dirs)
    || (b.live == a.live && b.bkp == a.bkp && OneDirApart(a.dirs, b.dirs))
    || (a.bkp.Some? && b == Dir(a.bkp, None, a.dirs))
    || b == Dir(None, None, {})
  }

  /** `t` is the directory after each file step on the way from a to b: none is left
      out, since each state is one file step after the one before. */
  ghost predicate Recorded(a: Dir, t: seq<Dir>, b: Dir)
    decreases |t|
  {
    if t == [] then a == b else FileStep(a, t[0]) && Recorded(t[0], t[1..], b)
  }

  lemma {:induction false} RecordedJoins(a: Dir, t: seq<Dir>, b: Dir, u: seq<Dir>, c: Dir)
    requires Recorded(a, t, b) && Recorded(b, u, c)
    ensures Recorded(a, t + u, c)
    decreases |t|
  {
    hide FileStep;
    if t == [] {
      assert t + u == u;
    } else {
      RecordedJoins(t[0], t[1..], b, u, c);
      assert (t + u)[1..] == t[1..] + u;
    }
  }

  lemma DirStep(a: Dir, b: Dir, x: string)
    requires b.live == a.live && b.bkp == a.bkp && (b.dirs == a.dirs + {x} || b.dirs == a.dirs - {x})
    ensures FileStep(a, b)
  {
  }

  /** The steps from one moment to a later one. */
  ghost function Since(t: seq<Dir>, t': seq<Dir>): seq<Dir> {
    if t <= t' then t'[|t|..] else []
  }

  /** A stretch of the trace that begins where another ends. */
  lemma SinceJoins(a: Dir, t: seq<Dir>, b: Dir, t': seq<Dir>, c: Dir, t'': seq<Dir>)
    requires t <= t' <= t'' && Recorded(a, Since(t, t'), b) && Recorded(b, Since(t', t''), c)
    ensures Recorded(a, Since(t, t''), c)
  {
    hide Recorded;
    assert t''[|t|..] == t'[|t|..] + t''[|t'|..];
    RecordedJoins(a, t'[|t|..], b, t''[|t'|..], c);
  }

  /** At most one file step was taken, and if so it was noted. */
  ghost predicate Noted(a: Dir, t: seq<Dir>, b: Dir, t': seq<Dir>) {
    (t' == t && b == a) || (t' == t + [b] && FileStep(a, b))
  }

  lemma NotedRecorded(a: Dir, t: seq<Dir>, b: Dir, t': seq<Dir>)
    requires Noted(a, t, b, t')
    ensures t <= t' && Recorded(a, Since(t, t'), b)
    ensures Since(t, t') == if t' == t then [] else [b]
  {
    hide FileStep;
    if t' != t {
      assert t'[|t|..] == [b] && [b][1..] == [];
    }
  }

  /** The first step of an undo, if it was taken. */
  lemma UndoSteps(a: Dir, t: seq<Dir>, b: Dir, t': seq<Dir>, fi: FileInfo)
    requires (t' == t && b == a) || (t' == t + [b] && b == if a.bkp.Some? then Dir(a.bkp, None, a.dirs) else Dir(None, None, {}))
    ensures t <= t' && Recorded(a, Since(t, t'), b)
    ensures forall d :: d in t'[|t|..] ==> Undone(a, d, fi)
    ensures UndoReady(a, fi) ==> AllSafe(t'[|t|..])
  {
    hide Recorded;
    NotedRecorded(a, t, b, t');
  }

  /** The second: the new version's data goes. */
  lemma UndoTrashes(a: Dir, t: seq<Dir>, b: Dir, c: Dir, t': seq<Dir>, fi: FileInfo)
    requires a.bkp.Some? && b == Dir(a.bkp, None, a.dirs) && c == b.(dirs := b.dirs - {fi.dataDir}) && t' == t + [b] + [c]
    ensures t <= t' && Recorded(a, Since(t, t'), c)
    ensures forall d :: d in t'[|t|..] ==> Undone(a, d, fi)
    ensures UndoReady(a, fi) ==> AllSafe(t'[|t|..])
  {
    hide Recorded;
    DirStep(b, c, fi.dataDir);
    NotedRecorded(a, t, b, t + [b]);
    NotedRecorded(b, t + [b], c, t');
    SinceJoins(a, t, b, t + [b], c, t');
    assert t'[|t|..] == [b, c];
  }

  /** The data directories of the listed versions. */
  function DataDirs(list: seq<FileInfo>): set<string> {
    set v | v in list && v.dataDir != "" :: v.dataDir
  }

  /** No listed version has a data directory. */
  ghost predicate AllInline(list: seq<FileInfo>) {
    forall v :: v in list ==> v.dataDir == ""
  }

  /** A directory that a delete passes through. */
  ghost predicate Deleting(a: Dir, d: Dir) {
    && a.dirs - DataDirs(Listed(a.live)) <= d.dirs <= a.dirs
    && ((d.live == a.live && d.bkp == a.bkp) || (d.live == None && (d.bkp == a.bkp || d.bkp == None)))
  }

  /** The steps of a delete so far, all of which were recorded. */
  ghost predicate DeletedSoFar(a: Dir, steps: seq<Dir>, b: Dir) {
    Recorded(a, steps, b) && forall d :: d in steps ==> Deleting(a, d)
  }

  lemma DeleteGoesOn(a: Dir, steps: seq<Dir>, b: Dir, c: Dir)
    requires DeletedSoFar(a, steps, b) && FileStep(b, c) && Deleting(a, c)
    ensures DeletedSoFar(a, steps + [c], c)
  {
    hide FileStep, Deleting;
    assert [c][1..] == [];
    RecordedJoins(a, steps, b, [c], c);
  }

  /** Inline versions lose nothing; one with a data directory is listed without it
      as soon as that has gone. */
  lemma InlineSafe(a: Dir, steps: seq<Dir>, b: Dir)
    requires DeletedSoFar(a, steps, b) && AllInline(Listed(a.live))
    ensures AllSafe(steps)
  {
    hide Recorded;
  }

  lemma TrashedUnsafe(a: Dir, d: Dir, v: FileInfo)
    requires v in Listed(a.live) && v.dataDir != "" && d.live == a.live && v.dataDir !in d.dirs
    ensures !Safe(d)
  {
    assert !Intact(v, d.dirs);
  }

  ghost predicate Unlisted(live: Option<Meta>, dir: string) {
    forall v :: v in Listed(live) && v.dataDir != "" ==> v.dataDir != dir
  }

  class DiskDir {
    var live: Option<Meta>
    var bkp: Option<Meta>
    var dirs: set<string>
    /** The data directory of the version to be promoted is in the staging area. */
    var staged: bool
    /** The directory after each file step, oldest first. */
    ghost var trace: seq<Dir>

    ghost function View(): Dir
      reads this
    {
      Dir(live, bkp, dirs)
    }

    /** File steps on an unhealthy disk may fail. */
    const healthy: bool

    constructor (healthy: bool)
      ensures View() == Dir(None, None, {}) && !staged && trace == [] && this.healthy == healthy
    {
      live, bkp, dirs, staged, trace, this.healthy := None, None, {}, false, [], healthy;
    }

    /** Whether the next file step fails. */
    method Fails() returns (broken: bool)
      ensures healthy ==> !broken
    {
      broken := *;
      broken := broken && !healthy;
    }

    ghost method Note()
      modifies this`trace
      ensures trace == old(trace) + [View()]
    {
      trace := trace + [View()];
    }

    /** Moves the staged data directory into the object's directory. */
    method Graft(fi: FileInfo) returns (ok: bool)
      modifies this`dirs, this`staged, this`trace
      ensures dirs == old(dirs) + (if ok && old(staged) && fi.dataDir != "" then {fi.dataDir} else {})
      ensures Noted(old(View()), old(trace), View(), trace)
      ensures healthy ==> ok
    {
      if fi.dataDir != "" && staged {
        var broken := Fails();
        if broken {
          return false;
        }
        ghost var before := View();
        dirs, staged := dirs + {fi.dataDir}, false;
        DirStep(before, View(), fi.dataDir);
        Note();
      }
      return true;
    }

    /** Copies the live xl.meta beside itself. */
    method Backup() returns (ok: bool)
      modifies this`bkp, this`trace
      ensures bkp == (if ok then live else old(bkp))
      ensures Noted(old(View()), old(trace), View(), trace)
      ensures healthy ==> ok
    {
      var broken := Fails();
      if broken {
        return false;
      }
      bkp := live;
      Note();
      return true;
    }

    /** Renames the staged xl.meta, written from `list`, over the live one. */
    method Swap(list: seq<FileInfo>) returns (ok: bool)
      modifies this`live, this`trace
      ensures live == (if ok then Some(Versions(ReadBack(list))) else old(live))
      ensures Noted(old(View()), old(trace), View(), trace)
      ensures healthy ==> ok
    {
      var broken := Fails();
      if broken {
        return false;
      }
      live := Some(Versions(ReadBack(list)));
      Note();
      return true;
    }

    /** Promotes a staged version: merge, stage, graft, back up, swap. Returns the
        data directory of the version it replaced, if that is to be purged. */
    method RenameData(fi: FileInfo) returns (r: Result<string, Failure>)
      modifies this
      ensures r.Ok? ==> Promoted(old(View()), View(), fi, old(staged)) && r.value == Replaced(Listed(old(live)), fi)
      ensures r.Err? ==> NotPromoted(old(View()), View(), fi)
      ensures r.Ok? ==> ToPurge(Listed(old(live)), fi, r.value)
      ensures healthy ==> (r.Ok? <==> Mergeable(old(live), fi))
      ensures healthy && r.Err? ==> View() == old(View())
      ensures old(trace) <= trace && Recorded(old(View()), Since(old(trace), trace), View())
      ensures Ready(old(View()), old(staged), fi) ==> AllSafe(trace[|old(trace)|..])
      ensures forall d :: d in trace[|old(trace)|..] ==> NotPromoted(old(View()), d, fi) || Promoted(old(View()), d, fi, old(staged))
    {
      hide Merged, ReadBack, Encodable, Ready, Recorded, WayFrom, OnTheWay, Noted, AllSafe, HasId, ToPurge, Replaced;
      ReplacedToPurge(Listed(live), fi);
      ghost var a, t, wasStaged := View(), trace, staged;
      WayStarts(a, t, fi, wasStaged);
      WayMeans(a, t, View(), trace, fi, wasStaged);
      if live == Some(Garbage) {
        return Err(Corrupt);
      }
      var existing := Listed(live);
      var prior, stale := HasId(existing, fi.versionId), Replaced(existing, fi);
      var merged := Merged(existing, fi);
      if !Encodable(merged) {
        return Err(EncodeFailed);
      }
      var broken := Fails();
      if broken {
        return Err(IoFailed);
      }
      var ok := Graft(fi);
      BeforeSwap(a, View(), fi, wasStaged);
      WayGoesOn(a, t, a, t, View(), trace, fi, wasStaged);
      WayMeans(a, t, View(), trace, fi, wasStaged);
      if !ok {
        return Err(IoFailed);
      }
      if prior {
        ghost var b, t' := View(), trace;
        ok := Backup();
        BeforeSwap(a, View(), fi, wasStaged);
        WayGoesOn(a, t, b, t', View(), trace, fi, wasStaged);
        WayMeans(a, t, View(), trace, fi, wasStaged);
        if !ok {
          return Err(IoFailed);
        }
      }
      ghost var b, t' := View(), trace;
      ok := Swap(merged);
      if !ok {
        BeforeSwap(a, View(), fi, wasStaged);
        WayGoesOn(a, t, b, t', View(), trace, fi, wasStaged);
        WayMeans(a, t, View(), trace, fi, wasStaged);
        return Err(IoFailed);
      }
      AfterSwap(a, View(), fi, wasStaged);
      WayGoesOn(a, t, b, t', View(), trace, fi, wasStaged);
      WayMeans(a, t, View(), trace, fi, wasStaged);
      return Ok(stale);
    }

    /** Restores the backup and drops the new version's data; without a backup,
        drops the whole object directory. */
    method Undo(fi: FileInfo) returns (ok: bool)
      modifies this`live, this`bkp, this`dirs, this`trace
      ensures ok ==> Undone(old(View()), View(), fi)
      ensures !ok ==> View() == old(View())
      ensures old(trace) <= trace && Recorded(old(View()), Since(old(trace), trace), View())
      ensures UndoReady(old(View()), fi) ==> AllSafe(trace[|old(trace)|..])
      ensures forall d :: d in trace[|old(trace)|..] ==> Undone(old(View()), d, fi)
      ensures healthy ==> ok && UndoneWell(old(View()), View(), fi)
    {
      hide Recorded, FileStep, Noted, AllSafe;
      ghost var a, t := View(), trace;
      UndoSteps(a, t, a, t, fi);
      var broken := Fails();
      if broken {
        return false;
      }
      if bkp.None? {
        live, dirs := None, {};
        Note();
        UndoSteps(a, t, View(), trace, fi);
        return true;
      }
      live, bkp := bkp, None;
      Note();
      UndoSteps(a, t, View(), trace, fi);
      broken := Fails();
      if !broken {
        ghost var b := View();
        dirs := dirs - {fi.dataDir};
        Note();
        UndoTrashes(a, t, b, View(), trace, fi);
      }
      return true;
    }

    /** Drops a replaced version's data directory, if that works. */
    method CleanStale(stale: string)
      modifies this`dirs, this`trace
      ensures dirs == old(dirs) || dirs == old(dirs) - {stale}
      ensures healthy ==> dirs == old(dirs) - {stale}
      ensures old(trace) <= trace && Recorded(old(View()), Since(old(trace), trace), View())
      ensures Safe(old(View())) && Unlisted(live, stale) ==> AllSafe(trace[|old(trace)|..])
      ensures forall d :: d in trace[|old(trace)|..] ==> d == old(View()).(dirs := old(dirs) - {stale})
    {
      hide Recorded;
      ghost var a, t := View(), trace;
      var broken := Fails();
      if !broken {
        dirs := dirs - {stale};
        DirStep(a, View(), stale);
        Note();
      }
      NotedRecorded(a, t, View(), trace);
    }

    /** Moves the data directories of the listed versions to the trash, where that
        works. */
    method TrashData(list: seq<FileInfo>) returns (ghost steps: seq<Dir>)
      requires list == Listed(live)
      modifies this`dirs
      ensures DeletedSoFar(old(View()), steps, View()) && Deleting(old(View()), View())
      ensures healthy ==> dirs == old(dirs) - DataDirs(list)
      ensures healthy && !AllInline(list) ==> !AllSafe(steps)
    {
      hide FileStep, Recorded, Safe, DeletedSoFar;
      ghost var a := View();
      steps := [];
      NothingDeleted(a);
      for i := 0 to |list|
        invariant live == a.live && bkp == a.bkp
        invariant a.dirs - DataDirs(list[..i]) <= dirs <= a.dirs
        invariant healthy ==> dirs == a.dirs - DataDirs(list[..i])
        invariant DeletedSoFar(a, steps, View())
        invariant healthy && !AllInline(list[..i]) ==> !AllSafe(steps)
      {
        assert list[..i + 1] == list[..i] + [list[i]];
        if list[i].dataDir != "" {
          var kept := Fails();
          if !kept {
            ghost var b, before := View(), steps;
            dirs := dirs - {list[i].dataDir};
            DirStep(b, View(), list[i].dataDir);
            DeleteGoesOn(a, steps, b, View());
            TrashedUnsafe(a, View(), list[i]);
            steps := steps + [View()];
            assert steps[|before|] == View();
          }
        }
      }
      assert list[..|list|] == list;
    }

    /** Deletes an object: its data directories, its xl.meta and, if that works,
        the backup. `steps` is the directory after each file step. While the data
        goes, the live file still lists it, so on a healthy disk every step is safe
        exactly when no version has a data directory. */
    method Delete() returns (r: Result<bool, Failure>, ghost steps: seq<Dir>)
      modifies this`live, this`bkp, this`dirs
      ensures r == Err(NotFound) <==> old(live).None?
      ensures r.Err? ==> live == old(live) && bkp == old(bkp)
      ensures r.Ok? ==> live == None && bkp == (if r.value then None else old(bkp))
      ensures Deleting(old(View()), View()) && Recorded(old(View()), steps, View())
      ensures r == Err(NotFound) ==> steps == []
      ensures forall d :: d in steps ==> Deleting(old(View()), d)
      ensures healthy && old(live).Some? ==> r == Ok(true) && dirs == old(dirs) - DataDirs(Listed(old(live)))
      ensures AllInline(Listed(old(live))) ==> AllSafe(steps)
      ensures healthy && !AllInline(Listed(old(live))) ==> !AllSafe(steps)
    {
      hide FileStep, Recorded, AllSafe, AllInline, DeletedSoFar;
      ghost var a := View();
      steps := [];
      NothingDeleted(a);
      DeletedMeans(a, steps, View());
      if live.None? {
        NothingInline(live);
        return Err(NotFound), steps;
      }
      steps := TrashData(Listed(live));
      DeletedMeans(a, steps, View());
      var broken := Fails();
      if broken {
        return Err(IoFailed), steps;
      }
      ghost var b := View();
      live := None;
      DeleteFile(a, steps, b, View());
      steps := steps + [View()];
      DeletedMeans(a, steps, View());
      broken := Fails();
      if broken {
        return Ok(false), steps;
      }
      b := View();
      bkp := None;
      DeleteFile(a, steps, b, View());
      steps := steps + [View()];
      DeletedMeans(a, steps, View());
      return Ok(true), steps;
    }
  }

  lemma NothingDeleted(a: Dir)
    ensures DeletedSoFar(a, [], a) && Deleting(a, a)
  {
  }

  lemma NothingInline(live: Option<Meta>)
    requires live.None?
    ensures AllInline(Listed(live))
  {
  }

  /** The xl.meta or its backup goes; what was unsafe before stays in the record. */
  lemma DeleteFile(a: Dir, steps: seq<Dir>, b: Dir, c: Dir)
    requires DeletedSoFar(a, steps, b) && Deleting(a, c) && c.dirs == b.dirs && (c.live == b.live || c.bkp == b.bkp)
    ensures DeletedSoFar(a, steps + [c], c)
    ensures !AllSafe(steps) ==> !AllSafe(steps + [c])
  {
    hide DeletedSoFar, Safe, Deleting;
    DeleteGoesOn(a, steps, b, c);
    assert forall d :: d in steps ==> d in steps + [c];
  }

  lemma DeletedMeans(a: Dir, steps: seq<Dir>, b: Dir)
    requires DeletedSoFar(a, steps, b)
    ensures Recorded(a, steps, b) && forall d :: d in steps ==> Deleting(a, d)
    ensures AllInline(Listed(a.live)) ==> AllSafe(steps)
  {
    hide Recorded, Deleting, AllSafe, AllInline;
    if AllInline(Listed(a.live)) {
      InlineSafe(a, steps, b);
    }
  }

  // ----- One disk

  /** Undoing a promotion brings the live list back exactly when the list had a
      version of the same id, or the backup already was the live list (which
      includes that neither existed). */
  lemma UndoRestoresIff(a: Dir, b: Dir, c: Dir, fi: FileInfo, staged: bool)
    requires Promoted(a, b, fi, staged) && Undone(b, c, fi)
    ensures c.live == a.live <==> Prior(a, fi) || a.bkp == a.live
  {
    hide HasId, NewList, Mergeable;
    assert Prior(a, fi) ==> a.live.Some? by {
      PriorListed(a, fi);
    }
  }

  lemma PriorListed(a: Dir, fi: FileInfo)
    ensures Prior(a, fi) ==> a.live.Some?
  {
  }

  /** A bucket that was never version-enabled: every listed version has the id of
      the new one, an xl.meta lists at least one version, and a backup exists only
      beside a live xl.meta. */
  ghost predicate NullVersioned(a: Dir, fi: FileInfo) {
    && (forall v :: v in Listed(a.live) ==> v.versionId == fi.versionId)
    && (a.live.Some? && a.live.value.Versions? ==> a.live.value.list != [])
    && BackupBeside(a)
  }

  lemma NullVersionedRestores(a: Dir, b: Dir, c: Dir, fi: FileInfo, staged: bool)
    requires NullVersioned(a, fi) && Promoted(a, b, fi, staged) && Undone(b, c, fi)
    ensures c.live == a.live
  {
    hide NewList, Merged, Encodable;
    if a.live.Some? {
      assert Listed(a.live)[0] in Listed(a.live);
    }
    UndoRestoresIff(a, b, c, fi, staged);
  }

  // ----- Crash points

  ghost predicate SafeSince(t: seq<Dir>, t': seq<Dir>) {
    t <= t' && AllSafe(t'[|t|..])
  }

  lemma SafeSinceJoins(t: seq<Dir>, t': seq<Dir>, t'': seq<Dir>)
    requires SafeSince(t, t') && SafeSince(t', t'')
    ensures SafeSince(t, t'')
  {
    hide Safe;
    forall d | d in t''[|t|..]
      ensures Safe(d)
    {
      var i :| 0 <= i < |t''[|t|..]| && t''[|t|..][i] == d;
      if |t| + i < |t'| {
        assert t'[|t|..][i] == t'[|t| + i] == d;
        assert d in t'[|t|..];
      } else {
        assert t''[|t'|..][|t| + i - |t'|] == d;
      }
    }
  }

  /** What the put of a version needs to be safe at every step: live versions with
      their bytes in data directories of their own, the new one's staged under a
      directory of its own, and no backup older than the live list. */
  ghost predicate PutReady(a: Dir, staged: bool, fi: FileInfo) {
    && Ready(a, staged, fi) && OwnDataDir(Listed(a.live), fi) && DataDirsApart(Listed(a.live))
    && (Prior(a, fi) || a.bkp.None?)
  }

  lemma PromotedUndoReady(a: Dir, b: Dir, fi: FileInfo, staged: bool)
    requires PutReady(a, staged, fi) && Promoted(a, b, fi, staged)
    ensures UndoReady(b, fi)
  {
    hide NewList, Mergeable, DataDirsApart;
  }

  lemma {:induction false} ReplacedIs(list: seq<FileInfo>, fi: FileInfo)
    requires Replaced(list, fi) != ""
    ensures Replaced(list, fi) != fi.dataDir
    ensures exists i :: 0 <= i < |list| && list[i].versionId == fi.versionId && list[i].dataDir == Replaced(list, fi)
  {
    if list[0].versionId != fi.versionId {
      ReplacedIs(list[1..], fi);
      var i :| 0 <= i < |list[1..]| && list[1..][i].versionId == fi.versionId && list[1..][i].dataDir == Replaced(list[1..], fi);
      assert list[i + 1] == list[1..][i];
    }
  }

  /** What a promotion hands back for purging is named by no live version. */
  lemma ReplacedUnlisted(a: Dir, b: Dir, fi: FileInfo, staged: bool)
    requires DataDirsApart(Listed(a.live)) && AllSettled(Listed(a.live)) && SettledDir(fi) && Promoted(a, b, fi, staged)
    ensures Unlisted(b.live, Replaced(Listed(a.live), fi))
  {
    hide NewList, Replaced, SettledDir, Mergeable;
    var list := Listed(a.live);
    var stale := Replaced(list, fi);
    if stale != "" {
      ReplacedIs(list, fi);
      var i :| 0 <= i < |list| && list[i].versionId == fi.versionId && list[i].dataDir == stale;
      forall v | v in Listed(b.live) && v.dataDir != ""
        ensures v.dataDir != stale
      {
        var u := NewListFrom(list, fi, v);
        if u != fi {
          var j :| 0 <= j < |list| && list[j] == u;
          assert i < j || j < i;
        }
      }
    }
  }
}
