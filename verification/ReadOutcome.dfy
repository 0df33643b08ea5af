/** What a read of a set's records comes to, told by counting disks: which errors
    are passed on, which record is returned, and through which faults the last
    written one is (crates/openlake_storage/src/engine.rs:1532-1687, 1765-1881). */
module ReadOutcome {
  import opened Bytes
  import opened XlMeta
  import opened Consensus

  // ----- Disks

  /** The disks that answer with the given counted error. */
  ghost function Reporting(answers: seq<Answer>, tag: string): set<nat> {
    set i: nat | i < |answers| && answers[i] == Err(Counted(tag))
  }

  /** The disks whose record carries etag e. */
  ghost function Tagged(answers: seq<Answer>, e: string): set<nat> {
    set i: nat | i < |answers| && answers[i].Ok? && "etag" in answers[i].value.metadata && answers[i].value.metadata["etag"] == e
  }

  /** Two records agree in all that decoding depends on: the version, its time and
      etag, whether it is a delete marker, the numbers and sizes of its parts and,
      unless it is empty, the code. */
  predicate SameRecord(a: FileInfo, b: FileInfo) {
    && a.versionId == b.versionId && a.modTime == b.modTime && a.deleted == b.deleted
    && ("etag" in a.metadata <==> "etag" in b.metadata)
    && ("etag" in a.metadata && "etag" in b.metadata ==> a.metadata["etag"] == b.metadata["etag"])
    && |a.parts| == |b.parts|
    && (forall i :: 0 <= i < |a.parts| && i < |b.parts| ==> a.parts[i].number == b.parts[i].number && a.parts[i].size == b.parts[i].size)
    && (a.deleted || a.size == 0 <==> b.deleted || b.size == 0)
    && (!(a.deleted || a.size == 0) ==>
          && a.erasure.dataBlocks == b.erasure.dataBlocks && a.erasure.parityBlocks == b.erasure.parityBlocks
          && a.erasure.blockSize == b.erasure.blockSize && a.erasure.distribution == b.erasure.distribution)
  }

  /** The disks that hold a record like w. */
  ghost function Holding(answers: seq<Answer>, w: FileInfo): set<nat> {
    set i: nat | i < |answers| && answers[i].Ok? && SameRecord(answers[i].value, w)
  }

  /** A code that can be: some data blocks, no more parity than data, a place for
      each in the distribution, and an index among them. */
  predicate CodeOk(e: Erasure) {
    && 0 < e.dataBlocks && e.parityBlocks <= e.dataBlocks && |e.distribution| == e.dataBlocks + e.parityBlocks
    && 0 < e.index <= e.dataBlocks + e.parityBlocks
  }

  /** The parity a record stands for in a set of n disks: its own, or half the set,
      as a u8, for delete markers and empty objects. */
  function ParityFor(fi: FileInfo, n: nat): nat {
    if fi.deleted || fi.size == 0 then (n / 2) % 256 else fi.erasure.parityBlocks
  }

  /** The disks whose records stand for parity p. */
  ghost function Standing(answers: seq<Answer>, p: nat): set<nat> {
    set i: nat | i < |answers| && answers[i].Ok? && CodeOk(answers[i].value.erasure) && ParityFor(answers[i].value, |answers|) == p
  }

  // ----- Votes are disks

  lemma ErrorVoters(answers: seq<Answer>, tag: string)
    ensures Count(ErrorVotes(answers), tag) == |Reporting(answers, tag)|
  {
    CountIsVoters(ErrorVotes(answers), tag);
    assert Voters(ErrorVotes(answers), tag) == Reporting(answers, tag);
  }

  lemma ParityVoters(answers: seq<Answer>, p: nat)
    ensures Count(ParityVotes(answers), p) == |Standing(answers, p)|
  {
    CountIsVoters(ParityVotes(answers), p);
    assert Voters(ParityVotes(answers), p) == Standing(answers, p);
  }

  lemma EtagVoters(answers: seq<Answer>, e: string)
    requires e != ""
    ensures Count(EtagVotes(answers), e) == |Tagged(answers, e)|
  {
    CountIsVoters(EtagVotes(answers), e);
    assert Voters(EtagVotes(answers), e) == Tagged(answers, e);
  }

  lemma NoEmptyEtag(answers: seq<Answer>)
    ensures Count(EtagVotes(answers), "") == 0
  {
    CountIsVoters(EtagVotes(answers), "");
    assert Voters(EtagVotes(answers), "") == {};
  }

  lemma ContractIs(a: FileInfo, b: FileInfo)
    ensures ContractOf(a) == ContractOf(b) <==> SameRecord(a, b)
  {
    var c, d := ContractOf(a), ContractOf(b);
    if c == d {
      assert c.etag == d.etag && c.code == d.code && |c.parts| == |d.parts|;
      forall i | 0 <= i < |a.parts|
        ensures a.parts[i].number == b.parts[i].number && a.parts[i].size == b.parts[i].size
      {
        assert c.parts[i] == (a.parts[i].number, a.parts[i].size) && d.parts[i] == (b.parts[i].number, b.parts[i].size);
      }
    }
    if SameRecord(a, b) {
      assert c.parts == d.parts;
    }
  }

  lemma ContractVoters(answers: seq<Answer>, e: string, w: FileInfo)
    requires "etag" in w.metadata && w.metadata["etag"] == e
    ensures Count(ContractVotes(answers, e), ContractOf(w)) == |Holding(answers, w)|
  {
    hide ContractOf, SameRecord;
    var votes := ContractVotes(answers, e);
    CountIsVoters(votes, ContractOf(w));
    forall i | 0 <= i < |answers|
      ensures votes[i] == Some(ContractOf(w)) <==> i in Holding(answers, w)
    {
      if answers[i].Ok? {
        ContractIs(answers[i].value, w);
        SameEtag(answers[i].value, w);
      }
    }
    assert Voters(votes, ContractOf(w)) == Holding(answers, w);
  }

  lemma SameEtag(a: FileInfo, w: FileInfo)
    ensures SameRecord(a, w) && "etag" in w.metadata ==> "etag" in a.metadata && a.metadata["etag"] == w.metadata["etag"]
  {
  }

  // ----- The outcomes

  /** Half the set, at least one disk. */
  function Threshold(n: nat): nat {
    if n < 2 then 1 else n / 2
  }

  /** No counted error is reported by half the set. */
  ghost predicate NoDominant(answers: seq<Answer>) {
    forall tag: string {:trigger Reporting(answers, tag)} :: |Reporting(answers, tag)| < Threshold(|answers|)
  }

  /** Enough disks stand for parity p to read with it. */
  ghost predicate CanRead(answers: seq<Answer>, p: nat) {
    p <= |answers| && 0 < |Standing(answers, p)| && |answers| - p <= |Standing(answers, p)|
  }

  /** Of the parities that can be read with, p has the most disks. */
  ghost predicate Winning(answers: seq<Answer>, p: nat) {
    CanRead(answers, p) && forall q: nat {:trigger Standing(answers, q)} :: CanRead(answers, q) ==> |Standing(answers, q)| <= |Standing(answers, p)|
  }

  /** No etag is carried by more disks than e, and `quorum` disks carry it. */
  ghost predicate TopEtag(answers: seq<Answer>, e: string, quorum: int) {
    && e != "" && 0 < |Tagged(answers, e)| && quorum <= |Tagged(answers, e)|
    && forall f: string {:trigger Tagged(answers, f)} :: f != "" ==> |Tagged(answers, f)| <= |Tagged(answers, e)|
  }

  /** No record with etag e is held by more disks than w, and `quorum` disks hold it. */
  ghost predicate TopRecord(answers: seq<Answer>, e: string, w: FileInfo, quorum: int) {
    && "etag" in w.metadata && w.metadata["etag"] == e && 0 < |Holding(answers, w)| && quorum <= |Holding(answers, w)|
    && forall v: FileInfo {:trigger Holding(answers, v)} :: "etag" in v.metadata && v.metadata["etag"] == e ==> |Holding(answers, v)| <= |Holding(answers, w)|
  }

  /** Which error is passed on: the counted one that most disks report, and half the
      set at least. */
  lemma DominantIff(answers: seq<Answer>, r: Result<nat, ReadError>)
    requires Possible(answers, r)
    ensures r.Err? && r.error.Dominant? <==> !NoDominant(answers)
    ensures r.Err? && r.error.Dominant? ==>
      && r.error.error.Counted?
      && |Reporting(answers, r.error.error.tag)| >= Threshold(|answers|)
      && forall tag: string {:trigger Reporting(answers, tag)} :: |Reporting(answers, tag)| <= |Reporting(answers, r.error.error.tag)|
  {
    hide ErrorVotes, ParityVotes, EtagVotes, ContractVotes, Elected, Reporting, FirstAt;
    forall tag: string
      ensures Count(ErrorVotes(answers), tag) == |Reporting(answers, tag)|
    {
      ErrorVoters(answers, tag);
    }
    QuietIff(answers);
    if r.Err? && r.error.Dominant? {
      var tag := r.error.error.tag;
      assert Count(ErrorVotes(answers), tag) >= Half(|answers|);
      assert |Reporting(answers, tag)| >= Threshold(|answers|);
    }
  }

  lemma QuietIff(answers: seq<Answer>)
    ensures NoQuorum(ErrorVotes(answers), Half(|answers|)) <==> NoDominant(answers)
  {
    hide ErrorVotes, Reporting;
    forall tag: string
      ensures Count(ErrorVotes(answers), tag) == |Reporting(answers, tag)|
    {
      ErrorVoters(answers, tag);
    }
  }

  lemma WinningIff(answers: seq<Answer>, p: nat)
    ensures Reaches(answers, p) <==> CanRead(answers, p)
    ensures Elected(answers, p) <==> Winning(answers, p)
  {
    hide ParityVotes, Standing;
    forall q: nat
      ensures Count(ParityVotes(answers), q) == |Standing(answers, q)|
      ensures Reaches(answers, q) <==> CanRead(answers, q)
    {
      ParityVoters(answers, q);
    }
  }

  lemma EtagIff(answers: seq<Answer>, e: string, quorum: nat)
    ensures Leading(EtagVotes(answers), e, quorum) <==> TopEtag(answers, e, quorum)
  {
    hide EtagVotes, Tagged;
    NoEmptyEtag(answers);
    forall f: string
      ensures f != "" ==> Count(EtagVotes(answers), f) == |Tagged(answers, f)|
    {
      if f != "" {
        EtagVoters(answers, f);
      }
    }
    if TopEtag(answers, e, quorum) {
      forall f: string
        ensures Count(EtagVotes(answers), f) <= Count(EtagVotes(answers), e)
      {
        assert f != "" ==> |Tagged(answers, f)| <= |Tagged(answers, e)|;
      }
    }
  }

  /** What is returned: the first of the disks that hold the record most disks hold,
      among those of the etag most disks carry; each at least n - p, for the parity
      most disks stand for. */
  lemma ReturnedRecord(answers: seq<Answer>, i: nat)
    requires Possible(answers, Ok(i))
    ensures NoDominant(answers) && i < |answers| && answers[i].Ok? && "etag" in answers[i].value.metadata
    ensures i in Holding(answers, answers[i].value) && forall j :: j in Holding(answers, answers[i].value) ==> i <= j
    ensures exists p: nat :: ReturnedWith(answers, p, answers[i].value)
  {
    hide ErrorVotes, ParityVotes, EtagVotes, Elected, Reporting, ContractOf, SameRecord, NoQuorum, Leading, Standing, Tagged, Holding;
    QuietIff(answers);
    var p: nat, e, c :| Chosen(answers, p, e, c, i);
    var votes := ContractVotes(answers, e);
    FirstMeans(votes, c, i);
    var w := answers[i].value;
    assert c == ContractOf(w) && EtagOf(w) == Some(e);
    WinningIff(answers, p);
    ElectedFits(answers, p);
    EtagIff(answers, e, |answers| - p);
    RecordIff(answers, e, w, |answers| - p);
    HoldingFirst(answers, e, w, i);
    assert ReturnedWith(answers, p, w);
  }

  ghost predicate ReturnedWith(answers: seq<Answer>, p: nat, w: FileInfo) {
    && Winning(answers, p) && "etag" in w.metadata
    && TopEtag(answers, w.metadata["etag"], |answers| - p) && TopRecord(answers, w.metadata["etag"], w, |answers| - p)
  }

  lemma FirstMeans<T>(votes: seq<Option<T>>, x: T, i: nat)
    requires FirstAt(votes, x, i)
    ensures i < |votes| && votes[i] == Some(x) && forall j :: 0 <= j < i ==> votes[j] != Some(x)
  {
  }

  lemma HoldingFirst(answers: seq<Answer>, e: string, w: FileInfo, i: nat)
    requires EtagOf(w) == Some(e) && FirstAt(ContractVotes(answers, e), ContractOf(w), i)
    ensures i in Holding(answers, w) && forall j :: j in Holding(answers, w) ==> i <= j
  {
    hide ContractOf, SameRecord;
    forall j | 0 <= j < |answers|
      ensures ContractVotes(answers, e)[j] == Some(ContractOf(w)) <==> j in Holding(answers, w)
    {
      if answers[j].Ok? {
        ContractIs(answers[j].value, w);
        SameEtag(answers[j].value, w);
      }
    }
  }

  lemma RecordIff(answers: seq<Answer>, e: string, w: FileInfo, quorum: nat)
    requires "etag" in w.metadata && w.metadata["etag"] == e && Leading(ContractVotes(answers, e), ContractOf(w), quorum)
    ensures TopRecord(answers, e, w, quorum)
  {
    hide ContractVotes, ContractOf, Holding;
    ContractVoters(answers, e, w);
    forall v: FileInfo | "etag" in v.metadata && v.metadata["etag"] == e
      ensures |Holding(answers, v)| <= |Holding(answers, w)|
    {
      ContractVoters(answers, e, v);
    }
  }

  /** Why no record is returned, if not for a dominant error: no parity can be read
      with, no etag is carried by enough disks for the winning one, or no record of
      a top etag is held by enough. */
  lemma NothingReturned(answers: seq<Answer>, e: ReadError)
    requires Possible(answers, Err(e)) && !e.Dominant?
    ensures NoDominant(answers)
    ensures
      match e
      case NoParity => forall p: nat {:trigger Standing(answers, p)} :: !CanRead(answers, p)
      case NoEtag => exists p: nat :: Winning(answers, p) && NoEtagWith(answers, |answers| - p)
      case NoContract => exists p: nat, f :: NoRecordFor(answers, p, f)
  {
    hide ErrorVotes, ParityVotes, EtagVotes, ContractVotes, Reporting, Leading, Standing, CanRead, Winning, TopEtag, NoQuorum, NoEtagWith, NoRecordWith;
    QuietIff(answers);
    match e {
      case NoParity =>
        forall p: nat
          ensures !CanRead(answers, p)
        {
          WinningIff(answers, p);
          assert !Reaches(answers, p);
        }
      case NoEtag =>
        var p: nat :| Elected(answers, p) && NoQuorum(EtagVotes(answers), |answers| - p);
        WinningIff(answers, p);
        FewTagged(answers, |answers| - p);
      case NoContract =>
        var p: nat, f :| Elected(answers, p) && Leading(EtagVotes(answers), f, |answers| - p) && NoQuorum(ContractVotes(answers, f), |answers| - p);
        WinningIff(answers, p);
        EtagIff(answers, f, |answers| - p);
        FewHolding(answers, f, |answers| - p);
        assert NoRecordFor(answers, p, f);
    }
  }

  /** No etag is carried by a disk and by `quorum` of them. */
  ghost predicate NoEtagWith(answers: seq<Answer>, quorum: int) {
    forall f: string {:trigger Tagged(answers, f)} :: f != "" && 0 < |Tagged(answers, f)| ==> |Tagged(answers, f)| < quorum
  }

  ghost predicate NoRecordWith(answers: seq<Answer>, e: string, quorum: int) {
    forall v: FileInfo {:trigger Holding(answers, v)} :: "etag" in v.metadata && v.metadata["etag"] == e && 0 < |Holding(answers, v)| ==>
      |Holding(answers, v)| < quorum
  }

  ghost predicate NoRecordFor(answers: seq<Answer>, p: nat, f: string) {
    Winning(answers, p) && TopEtag(answers, f, |answers| - p) && NoRecordWith(answers, f, |answers| - p)
  }

  lemma FewTagged(answers: seq<Answer>, quorum: nat)
    requires NoQuorum(EtagVotes(answers), quorum)
    ensures NoEtagWith(answers, quorum)
  {
    hide EtagVotes, Tagged;
    forall f: string | f != "" && 0 < |Tagged(answers, f)|
      ensures |Tagged(answers, f)| < quorum
    {
      EtagVoters(answers, f);
    }
  }

  lemma FewHolding(answers: seq<Answer>, e: string, quorum: nat)
    requires NoQuorum(ContractVotes(answers, e), quorum)
    ensures NoRecordWith(answers, e, quorum)
  {
    hide ContractVotes, ContractOf, Holding;
    forall v: FileInfo | "etag" in v.metadata && v.metadata["etag"] == e && 0 < |Holding(answers, v)|
      ensures |Holding(answers, v)| < quorum
    {
      ContractVoters(answers, e, v);
    }
  }

  // ----- Read after write

  /** The disks that hold a record like w, validly coded. */
  ghost function Intact(answers: seq<Answer>, w: FileInfo): set<nat> {
    set i: nat | i < |answers| && answers[i].Ok? && SameRecord(answers[i].value, w) && CodeOk(answers[i].value.erasure)
  }

  lemma {:induction false} CountIsTrue(b: seq<bool>, yes: set<nat>)
    requires forall i: nat :: i in yes <==> i < |b| && b[i]
    ensures CountTrue(b) == |yes|
    decreases |b|
  {
    if b == [] {
      assert yes == {};
    } else {
      var n := |b| - 1;
      CountIsTrue(b[..n], yes - {n});
      assert b[n] ==> yes == (yes - {n}) + {n};
      assert !b[n] ==> yes == yes - {n};
    }
  }

  lemma IntactIs(answers: seq<Answer>, w: FileInfo)
    ensures CountTrue(Good(answers, w)) == |Intact(answers, w)|
  {
    hide ContractOf, SameRecord;
    forall i | 0 <= i < |answers|
      ensures Good(answers, w)[i] <==> i in Intact(answers, w)
    {
      if answers[i].Ok? {
        ContractIs(answers[i].value, w);
      }
    }
    CountIsTrue(Good(answers, w), Intact(answers, w));
  }

  /** While all but a minority of `faults` disks hold the record, no more than the
      parity it stands for, a read returns it exactly when no counted error is
      reported by half the set. */
  lemma ReadAfterWrite(answers: seq<Answer>, w: FileInfo, faults: nat, r: Result<nat, ReadError>)
    requires "etag" in w.metadata && w.metadata["etag"] != "" && Possible(answers, r)
    requires |Intact(answers, w)| + faults >= |answers| && 2 * faults < |answers| && faults <= ParityFor(w, |answers|) <= |answers|
    ensures NoDominant(answers) <==> r.Ok? && r.value < |answers| && answers[r.value].Ok? && SameRecord(answers[r.value].value, w)
    ensures !NoDominant(answers) <==> r.Err? && r.error.Dominant?
  {
    hide ContractOf, SameRecord, NoDominant, NoQuorum, Good, CountTrue, Possible, Intact;
    IntactIs(answers, w);
    assert Survives(answers, w, faults);
    Consensus.ReadAfterWrite(answers, w, faults, r);
    QuietIff(answers);
    DominantIff(answers, r);
    if r.Ok? && r.value < |answers| && answers[r.value].Ok? {
      ContractIs(answers[r.value].value, w);
    }
  }
}
