/** Read consensus: each disk of a set answers with its record or an error, and
    votes on errors, parity, etag and decode contract decide which record is
    returned (crates/openlake_storage/src/engine.rs:1526-1687, 1759-1881). */
module Consensus {
  import opened Bytes
  import opened XlMeta

  const ETAG: string := "etag"

  /** Why a disk has no record: a liveness error, which does not vote, or one that
      votes by its kind. */
  datatype DiskError = Liveness | Counted(tag: string)

  type Answer = Result<FileInfo, DiskError>

  /** What a reader must know to decode the object; the record's hash stands for it. */
  datatype Contract = Contract(
    versionId: string,
    modTime: nat,
    etag: Option<string>,
    deleted: bool,
    parts: seq<(int, int)>,
    code: Option<(nat, nat, nat, seq<nat>)>)

  datatype ReadError = Dominant(error: DiskError) | NoParity | NoEtag | NoContract

  // ----- Votes

  predicate ErasureValid(e: Erasure) {
    && e.dataBlocks > 0 && e.parityBlocks <= e.dataBlocks
    && |e.distribution| == e.dataBlocks + e.parityBlocks
    && 1 <= e.index <= e.dataBlocks + e.parityBlocks
  }

  function ErrorVote(a: Answer): Option<string> {
    if a.Err? && a.error.Counted? then Some(a.error.tag) else None
  }

  /** Delete markers and empty objects vote for half the set, as a u8. */
  function ParityVote(a: Answer, n: nat): Option<nat> {
    if a.Err? || !ErasureValid(a.value.erasure) then None
    else if a.value.deleted || a.value.size == 0 then Some(n / 2 % 0x100)
    else Some(a.value.erasure.parityBlocks)
  }

  function EtagOf(fi: FileInfo): Option<string> {
    if ETAG in fi.metadata then Some(fi.metadata[ETAG]) else None
  }

  function EtagVote(a: Answer): Option<string> {
    if a.Ok? && EtagOf(a.value).Some? && EtagOf(a.value).value != "" then EtagOf(a.value) else None
  }

  function ContractOf(fi: FileInfo): Contract {
    var e := fi.erasure;
    Contract(fi.versionId, fi.modTime, EtagOf(fi), fi.deleted,
             seq(|fi.parts|, i requires 0 <= i < |fi.parts| => (fi.parts[i].number, fi.parts[i].size)),
             if !fi.deleted && fi.size != 0 then Some((e.dataBlocks, e.parityBlocks, e.blockSize, e.distribution)) else None)
  }

  function ContractVote(a: Answer, etag: string): Option<Contract> {
    if a.Ok? && EtagOf(a.value) == Some(etag) then Some(ContractOf(a.value)) else None
  }

  function ErrorVotes(answers: seq<Answer>): (v: seq<Option<string>>)
    ensures |v| == |answers| && forall i :: 0 <= i < |v| ==> v[i] == ErrorVote(answers[i])
  {
    seq(|answers|, i requires 0 <= i < |answers| => ErrorVote(answers[i]))
  }

  function ParityVotes(answers: seq<Answer>): (v: seq<Option<nat>>)
    ensures |v| == |answers| && forall i :: 0 <= i < |v| ==> v[i] == ParityVote(answers[i], |answers|)
  {
    seq(|answers|, i requires 0 <= i < |answers| => ParityVote(answers[i], |answers|))
  }

  function EtagVotes(answers: seq<Answer>): (v: seq<Option<string>>)
    ensures |v| == |answers| && forall i :: 0 <= i < |v| ==> v[i] == EtagVote(answers[i])
  {
    seq(|answers|, i requires 0 <= i < |answers| => EtagVote(answers[i]))
  }

  function ContractVotes(answers: seq<Answer>, etag: string): (v: seq<Option<Contract>>)
    ensures |v| == |answers| && forall i :: 0 <= i < |v| ==> v[i] == ContractVote(answers[i], etag)
  {
    seq(|answers|, i requires 0 <= i < |answers| => ContractVote(answers[i], etag))
  }

  // ----- Counting

  function Count<T(==)>(votes: seq<Option<T>>, x: T): (n: nat)
    ensures n <= |votes|
  {
    if votes == [] then 0
    else Count(votes[..|votes| - 1], x) + (if votes[|votes| - 1] == Some(x) then 1 else 0)
  }

  lemma {:induction false} CountPositive<T>(votes: seq<Option<T>>, x: T)
    ensures Count(votes, x) > 0 <==> Some(x) in votes
  {
    if votes != [] {
      var n := |votes| - 1;
      CountPositive(votes[..n], x);
      assert votes == votes[..n] + [votes[n]];
    }
  }

  /** The disks that vote for x. */
  ghost function Voters<T>(votes: seq<Option<T>>, x: T): set<nat> {
    set i: nat | i < |votes| && votes[i] == Some(x)
  }

  lemma {:induction false} CountIsVoters<T>(votes: seq<Option<T>>, x: T)
    ensures Count(votes, x) == |Voters(votes, x)|
  {
    if votes == [] {
      assert Voters(votes, x) == {};
    } else {
      var n := |votes| - 1;
      CountIsVoters(votes[..n], x);
      assert Voters(votes, x) == Voters(votes[..n], x) + (if votes[n] == Some(x) then {n} else {});
    }
  }

  /** No disk votes twice. */
  lemma {:induction false} CountApart<T>(votes: seq<Option<T>>, x: T, y: T)
    requires x != y
    ensures Count(votes, x) + Count(votes, y) <= |votes|
  {
    if votes != [] {
      CountApart(votes[..|votes| - 1], x, y);
    }
  }

  /** x has the most votes; the votes may be counted in any order, so among several
      such x any may be found. */
  ghost predicate Leads<T(!new)>(votes: seq<Option<T>>, x: T) {
    Count(votes, x) > 0 && forall y {:trigger Count(votes, y)} :: Count(votes, y) <= Count(votes, x)
  }

  /** Occurrences of every value that got a vote. */
  method Tally<T(==,!new)>(votes: seq<Option<T>>) returns (counts: map<T, nat>)
    ensures forall x :: x in counts <==> Count(votes, x) > 0
    ensures forall x :: x in counts ==> counts[x] == Count(votes, x)
  {
    counts := map[];
    for i := 0 to |votes|
      invariant forall x :: x in counts <==> Count(votes[..i], x) > 0
      invariant forall x :: x in counts ==> counts[x] == Count(votes[..i], x)
    {
      assert votes[..i + 1][..i] == votes[..i];
      if votes[i].Some? {
        var v := votes[i].value;
        counts := counts[v := (if v in counts then counts[v] else 0) + 1];
      }
    }
    assert votes[..|votes|] == votes;
  }

  /** A value with the most votes, whatever the order of the map. */
  method Leader<T(==,!new)>(votes: seq<Option<T>>) returns (r: Option<(T, nat)>)
    ensures r.None? <==> forall i :: 0 <= i < |votes| ==> votes[i].None?
    ensures r.Some? ==> Leads(votes, r.value.0) && r.value.1 == Count(votes, r.value.0)
  {
    var counts := Tally(votes);
    var todo := counts.Keys;
    r := None;
    while todo != {}
      invariant todo <= counts.Keys
      invariant r.None? <==> todo == counts.Keys
      invariant r.Some? ==> r.value.0 in counts && r.value.1 == counts[r.value.0]
      invariant r.Some? ==> forall x :: x in counts && x !in todo ==> counts[x] <= r.value.1
      decreases |todo|
    {
      var x :| x in todo;
      todo := todo - {x};
      if r.None? || r.value.1 <= counts[x] {
        r := Some((x, counts[x]));
      }
    }
    forall i | 0 <= i < |votes| && votes[i].Some?
      ensures votes[i].value in counts
    {
      CountPositive(votes, votes[i].value);
      assert votes[i] in votes;
    }
    if r.Some? {
      CountPositive(votes, r.value.0);
    }
  }

  // ----- The decision

  function Half(n: nat): nat {
    Max(n / 2, 1)
  }

  /** Enough disks vote for parity p to read with it: n - p of them. */
  ghost predicate Reaches(answers: seq<Answer>, p: nat) {
    && p <= |answers|
    && Count(ParityVotes(answers), p) > 0 && Count(ParityVotes(answers), p) >= |answers| - p
  }

  /** Parity p reaches its quorum, and none that does has more votes. */
  ghost predicate Elected(answers: seq<Answer>, p: nat) {
    && Reaches(answers, p)
    && forall q: nat {:trigger Reaches(answers, q)} :: Reaches(answers, q) ==> Count(ParityVotes(answers), q) <= Count(ParityVotes(answers), p)
  }

  ghost predicate Leading<T(!new)>(votes: seq<Option<T>>, x: T, quorum: nat) {
    Leads(votes, x) && Count(votes, x) >= quorum
  }

  /** No value has a quorum. */
  ghost predicate NoQuorum<T(!new)>(votes: seq<Option<T>>, quorum: nat) {
    forall x {:trigger Count(votes, x)} :: Count(votes, x) > 0 ==> Count(votes, x) < quorum
  }

  ghost predicate FirstAt<T>(votes: seq<Option<T>>, x: T, i: nat) {
    i < |votes| && votes[i] == Some(x) && forall j :: 0 <= j < i ==> votes[j] != Some(x)
  }

  /** Disk i is returned after electing parity p, etag e and contract c. */
  ghost predicate Chosen(answers: seq<Answer>, p: nat, e: string, c: Contract, i: nat) {
    && NoQuorum(ErrorVotes(answers), Half(|answers|))
    && Elected(answers, p)
    && Leading(EtagVotes(answers), e, |answers| - p)
    && Leading(ContractVotes(answers, e), c, |answers| - p)
    && FirstAt(ContractVotes(answers, e), c, i)
  }

  /** The outcomes that some order of the maps gives. */
  ghost predicate Possible(answers: seq<Answer>, r: Result<nat, ReadError>) {
    var n := |answers|;
    match r
    case Err(Dominant(Liveness)) => false
    case Err(Dominant(Counted(tag))) => Leading(ErrorVotes(answers), tag, Half(n))
    case Err(NoParity) =>
      NoQuorum(ErrorVotes(answers), Half(n)) && forall p: nat {:trigger Reaches(answers, p)} :: !Reaches(answers, p)
    case Err(NoEtag) =>
      && NoQuorum(ErrorVotes(answers), Half(n))
      && exists p: nat :: Elected(answers, p) && NoQuorum(EtagVotes(answers), n - p)
    case Err(NoContract) =>
      && NoQuorum(ErrorVotes(answers), Half(n))
      && exists p: nat, e :: Elected(answers, p) && Leading(EtagVotes(answers), e, n - p) && NoQuorum(ContractVotes(answers, e), n - p)
    case Ok(i) => exists p: nat, e, c :: Chosen(answers, p, e, c, i)
  }

  method CommonParity(answers: seq<Answer>) returns (r: Option<nat>)
    ensures r.Some? ==> Elected(answers, r.value)
    ensures r.None? ==> forall p: nat {:trigger Reaches(answers, p)} :: !Reaches(answers, p)
  {
    var n := |answers|;
    var counts: map<nat, nat> := Tally<nat>(ParityVotes(answers));
    var todo: set<nat> := counts.Keys;
    var best: Option<(nat, nat)> := None;
    while todo != {}
      invariant todo <= counts.Keys
      invariant best.None? ==> forall p: nat :: p in counts && p !in todo ==> !Reaches(answers, p)
      invariant best.Some? ==> Reaches(answers, best.value.0) && best.value.1 == Count(ParityVotes(answers), best.value.0)
      invariant best.Some? ==> forall p: nat :: p in counts && p !in todo && Reaches(answers, p) ==> counts[p] <= best.value.1
      decreases |todo|
    {
      var p: nat :| p in todo;
      todo := todo - {p};
      if p <= n && counts[p] >= n - p {
        if best.None? || counts[p] > best.value.1 {
          best := Some((p, counts[p]));
        }
      }
    }
    return if best.Some? then Some(best.value.0) else None;
  }

  lemma LeaderOrNone<T(!new)>(votes: seq<Option<T>>, x: T, quorum: nat)
    requires Leads(votes, x) && Count(votes, x) < quorum
    ensures NoQuorum(votes, quorum)
  {
  }

  lemma NobodyVotes<T(!new)>(votes: seq<Option<T>>, quorum: nat)
    requires forall i :: 0 <= i < |votes| ==> votes[i].None?
    ensures NoQuorum(votes, quorum)
  {
    forall x
      ensures Count(votes, x) == 0
    {
      CountPositive(votes, x);
    }
  }

  /** The leader of a vote if it reaches the quorum. */
  method LeaderWith<T(==,!new)>(votes: seq<Option<T>>, quorum: nat) returns (r: Option<T>)
    ensures r.Some? ==> Leading(votes, r.value, quorum)
    ensures r.None? ==> NoQuorum(votes, quorum)
  {
    var leader := Leader(votes);
    if leader.None? {
      NobodyVotes(votes, quorum);
      return None;
    }
    if leader.value.1 < quorum {
      LeaderOrNone(votes, leader.value.0, quorum);
      return None;
    }
    return Some(leader.value.0);
  }

  method FirstVoter<T(==,!new)>(votes: seq<Option<T>>, x: T) returns (i: nat)
    requires Count(votes, x) > 0
    ensures FirstAt(votes, x, i)
  {
    CountPositive(votes, x);
    i := 0;
    while votes[i] != Some(x)
      invariant i < |votes| && Some(x) !in votes[..i]
      invariant exists j :: i <= j < |votes| && votes[j] == Some(x)
      decreases |votes| - i
    {
      i := i + 1;
    }
  }

  method ReadWithConsensus(answers: seq<Answer>) returns (r: Result<nat, ReadError>)
    ensures Possible(answers, r)
  {
    hide Elected, Leading, NoQuorum, FirstAt;
    var n := |answers|;
    var tag := LeaderWith(ErrorVotes(answers), Half(n));
    if tag.Some? {
      return Err(Dominant(Counted(tag.value)));
    }
    var parity := CommonParity(answers);
    if parity.None? {
      return Err(NoParity);
    }
    ElectedFits(answers, parity.value);
    var dataBlocks := n - parity.value;
    var etag := LeaderWith(EtagVotes(answers), dataBlocks);
    if etag.None? {
      return Err(NoEtag);
    }
    var contract := LeaderWith(ContractVotes(answers, etag.value), dataBlocks);
    if contract.None? {
      return Err(NoContract);
    }
    LeadingVotes(ContractVotes(answers, etag.value), contract.value, dataBlocks);
    var i := FirstVoter(ContractVotes(answers, etag.value), contract.value);
    assert Chosen(answers, parity.value, etag.value, contract.value, i);
    return Ok(i);
  }

  lemma ElectedFits(answers: seq<Answer>, p: nat)
    requires Elected(answers, p)
    ensures p <= |answers|
  {
  }

  lemma LeadingVotes<T(!new)>(votes: seq<Option<T>>, x: T, quorum: nat)
    requires Leading(votes, x, quorum)
    ensures Count(votes, x) > 0
  {
  }

  // ----- The outcome does not depend on the order of the maps

  /** Every valid record is coded over the whole set. */
  ghost predicate FullWidth(answers: seq<Answer>) {
    forall i :: 0 <= i < |answers| && answers[i].Ok? && ErasureValid(answers[i].value.erasure) ==>
      answers[i].value.erasure.dataBlocks + answers[i].value.erasure.parityBlocks == |answers|
  }

  lemma ParityAtMostHalf(answers: seq<Answer>, p: nat)
    requires FullWidth(answers) && Reaches(answers, p)
    ensures 2 * p <= |answers|
  {
    hide ErasureValid, ParityVote, Count;
    var votes := ParityVotes(answers);
    CountPositive(votes, p);
    var i :| 0 <= i < |votes| && votes[i] == Some(p);
    VoteAtMostHalf(answers[i], |answers|, p);
  }

  lemma VoteAtMostHalf(a: Answer, n: nat, p: nat)
    requires a.Ok? && ErasureValid(a.value.erasure) ==> a.value.erasure.dataBlocks + a.value.erasure.parityBlocks == n
    requires ParityVote(a, n) == Some(p)
    ensures 2 * p <= n
  {
    assert n / 2 % 0x100 <= n / 2;
  }

  /** At most one parity reaches its own quorum. */
  lemma OneParity(answers: seq<Answer>, p: nat, q: nat)
    requires FullWidth(answers) && Reaches(answers, p) && Reaches(answers, q)
    ensures p == q
  {
    ParityAtMostHalf(answers, p);
    ParityAtMostHalf(answers, q);
    if p != q {
      CountApart(ParityVotes(answers), p, q);
    }
  }

  lemma OneLeader<T(!new)>(votes: seq<Option<T>>, x: T, y: T, quorum: nat)
    requires Leading(votes, x, quorum) && Leading(votes, y, quorum) && 2 * quorum > |votes|
    ensures x == y
  {
    if x != y {
      CountApart(votes, x, y);
    }
  }

  lemma LeadingOrNot<T(!new)>(votes: seq<Option<T>>, x: T, quorum: nat)
    requires Leading(votes, x, quorum)
    ensures !NoQuorum(votes, quorum)
  {
  }

  /** When a record is returned under a parity below half the set, it is the only
      outcome: every order of the maps returns the same disk. */
  lemma Deterministic(answers: seq<Answer>, p: nat, e: string, c: Contract, i: nat, r: Result<nat, ReadError>)
    requires FullWidth(answers) && Chosen(answers, p, e, c, i) && 2 * p < |answers|
    requires Possible(answers, r)
    ensures r == Ok(i)
  {
    hide Leading, NoQuorum, FullWidth, Elected, Chosen;
    match r {
      case Err(Dominant(Counted(tag))) => NoError(answers, p, e, c, i, tag);
      case Err(NoParity) => ParityChosen(answers, p, e, c, i);
      case Err(NoEtag) =>
        forall q: nat | Elected(answers, q)
          ensures q <= |answers| && !NoQuorum(EtagVotes(answers), |answers| - q)
        {
          SameParity(answers, p, e, c, i, q);
        }
      case Err(NoContract) =>
        forall q: nat | Elected(answers, q)
          ensures q == p <= |answers| && !NoQuorum(ContractVotes(answers, e), |answers| - q)
        {
          SameParity(answers, p, e, c, i, q);
        }
        ChosenFits(answers, p, e, c, i);
        var quorum := |answers| - p;
        forall f | Leading(EtagVotes(answers), f, quorum)
          ensures f == e
        {
          SameEtag(answers, p, e, c, i, f);
        }
      case Ok(j) =>
        var q: nat, f, d :| Chosen(answers, q, f, d, j);
        SameChoice(answers, p, e, c, i, q, f, d, j);
      case _ =>
    }
  }

  lemma ChosenFits(answers: seq<Answer>, p: nat, e: string, c: Contract, i: nat)
    requires Chosen(answers, p, e, c, i)
    ensures p <= |answers|
  {
  }

  lemma NoError(answers: seq<Answer>, p: nat, e: string, c: Contract, i: nat, tag: string)
    requires Chosen(answers, p, e, c, i)
    ensures !Leading(ErrorVotes(answers), tag, Half(|answers|))
  {
    if Leading(ErrorVotes(answers), tag, Half(|answers|)) {
      LeadingOrNot(ErrorVotes(answers), tag, Half(|answers|));
    }
  }

  lemma ParityChosen(answers: seq<Answer>, p: nat, e: string, c: Contract, i: nat)
    requires Chosen(answers, p, e, c, i)
    ensures Reaches(answers, p) && NoQuorum(ErrorVotes(answers), Half(|answers|))
  {
  }

  lemma SameElected(answers: seq<Answer>, p: nat, q: nat)
    requires FullWidth(answers) && Elected(answers, p) && Elected(answers, q)
    ensures q == p <= |answers|
  {
    hide FullWidth;
    OneParity(answers, p, q);
  }

  lemma SameParity(answers: seq<Answer>, p: nat, e: string, c: Contract, i: nat, q: nat)
    requires FullWidth(answers) && Chosen(answers, p, e, c, i) && Elected(answers, q)
    ensures q == p <= |answers|
    ensures !NoQuorum(EtagVotes(answers), |answers| - p) && !NoQuorum(ContractVotes(answers, e), |answers| - p)
  {
    hide FullWidth, Leading, NoQuorum, Elected, EtagVotes, ContractVotes, ErrorVotes, FirstAt;
    SameElected(answers, p, q);
    LeadingOrNot(EtagVotes(answers), e, |answers| - p);
    LeadingOrNot(ContractVotes(answers, e), c, |answers| - p);
  }

  lemma SameEtag(answers: seq<Answer>, p: nat, e: string, c: Contract, i: nat, f: string)
    requires Chosen(answers, p, e, c, i) && 2 * p < |answers| && Leading(EtagVotes(answers), f, |answers| - p)
    ensures f == e
  {
    hide Elected, Leading, NoQuorum;
    OneLeader(EtagVotes(answers), e, f, |answers| - p);
  }

  lemma SameChoice(answers: seq<Answer>, p: nat, e: string, c: Contract, i: nat, q: nat, f: string, d: Contract, j: nat)
    requires FullWidth(answers) && 2 * p < |answers|
    requires Chosen(answers, p, e, c, i) && Chosen(answers, q, f, d, j)
    ensures i == j
  {
    hide Elected, Leading, NoQuorum, FirstAt, FullWidth;
    SameParity(answers, p, e, c, i, q);
    SameEtag(answers, p, e, c, i, f);
    OneLeader(ContractVotes(answers, e), c, d, |answers| - p);
    SameFirst(ContractVotes(answers, e), c, i, j);
  }

  lemma SameFirst<T>(votes: seq<Option<T>>, x: T, i: nat, j: nat)
    requires FirstAt(votes, x, i) && FirstAt(votes, x, j)
    ensures i == j
  {
  }

  // ----- Reading what was written

  function CountTrue(b: seq<bool>): (n: nat)
    ensures n <= |b|
  {
    if b == [] then 0 else CountTrue(b[..|b| - 1]) + (if b[|b| - 1] then 1 else 0)
  }

  lemma {:induction false} Backed<T>(votes: seq<Option<T>>, good: seq<bool>, x: T)
    requires |good| == |votes| && forall i :: 0 <= i < |votes| && good[i] ==> votes[i] == Some(x)
    ensures Count(votes, x) >= CountTrue(good)
  {
    if votes != [] {
      var n := |votes| - 1;
      Backed(votes[..n], good[..n], x);
    }
  }

  lemma Outvoted<T>(votes: seq<Option<T>>, good: seq<bool>, x: T, y: T)
    requires |good| == |votes| && forall i :: 0 <= i < |votes| && good[i] ==> votes[i] == Some(x)
    requires x != y
    ensures Count(votes, y) <= |votes| - CountTrue(good)
  {
    Backed(votes, good, x);
    CountApart(votes, x, y);
  }

  /** The majority's value leads, alone. */
  lemma MajorityLeads<T(!new)>(votes: seq<Option<T>>, good: seq<bool>, x: T, quorum: nat)
    requires |good| == |votes| && forall i :: 0 <= i < |votes| && good[i] ==> votes[i] == Some(x)
    requires 2 * CountTrue(good) > |votes| && CountTrue(good) >= quorum
    ensures !NoQuorum(votes, quorum)
    ensures forall y :: Leading(votes, y, quorum) ==> y == x
  {
    Backed(votes, good, x);
    forall y | Leading(votes, y, quorum)
      ensures y == x
    {
      if y != x {
        Outvoted(votes, good, x, y);
      }
    }
  }

  /** The disk holds record `w`: the same contract, validly coded. */
  ghost predicate HoldsRecord(a: Answer, w: FileInfo) {
    a.Ok? && ContractOf(a.value) == ContractOf(w) && ErasureValid(a.value.erasure)
  }

  lemma RecordVotes(a: Answer, w: FileInfo, n: nat, e: string)
    requires HoldsRecord(a, w) && EtagOf(w) == Some(e) && e != ""
    ensures EtagVote(a) == Some(e) && ContractVote(a, e) == Some(ContractOf(w))
    ensures ParityVote(a, n) == Some(if w.deleted || w.size == 0 then n / 2 % 0x100 else w.erasure.parityBlocks)
  {
    var c, d := ContractOf(a.value), ContractOf(w);
    assert c.etag == d.etag && c.deleted == d.deleted && c.code == d.code;
  }

  /** Which disks hold record `w`. */
  ghost function Good(answers: seq<Answer>, w: FileInfo): (g: seq<bool>)
    ensures |g| == |answers| && forall i :: 0 <= i < |g| ==> g[i] == HoldsRecord(answers[i], w)
  {
    seq(|answers|, i requires 0 <= i < |answers| => HoldsRecord(answers[i], w))
  }

  /** All but at most `faults` disks hold `w`, a record with an etag that survives
      that many faults, and the faults are fewer than half the set. */
  ghost predicate Survives(answers: seq<Answer>, w: FileInfo, faults: nat) {
    && EtagOf(w).Some? && EtagOf(w).value != ""
    && 2 * faults < |answers| && CountTrue(Good(answers, w)) >= |answers| - faults
    && faults <= RecordParity(w, |answers|) <= |answers|
  }

  function RecordParity(w: FileInfo, n: nat): nat {
    if w.deleted || w.size == 0 then n / 2 % 0x100 else w.erasure.parityBlocks
  }

  /** An empty object or a delete marker survives any minority of faults in a set of
      at most 511 disks; beyond, the u8 that votes for its parity has wrapped. */
  lemma EmptySurvives(answers: seq<Answer>, w: FileInfo, faults: nat)
    requires w.deleted || w.size == 0
    requires EtagOf(w).Some? && EtagOf(w).value != "" && |answers| <= 511
    requires 2 * faults < |answers| && CountTrue(Good(answers, w)) >= |answers| - faults
    ensures Survives(answers, w, faults)
  {
    hide Good, CountTrue;
  }

  lemma GoodVotes(answers: seq<Answer>, w: FileInfo, faults: nat)
    requires Survives(answers, w, faults)
    ensures
      var good, e := Good(answers, w), EtagOf(w).value;
      && (forall i :: 0 <= i < |answers| && good[i] ==> ParityVotes(answers)[i] == Some(RecordParity(w, |answers|)))
      && (forall i :: 0 <= i < |answers| && good[i] ==> EtagVotes(answers)[i] == Some(e))
      && (forall i :: 0 <= i < |answers| && good[i] ==> ContractVotes(answers, e)[i] == Some(ContractOf(w)))
  {
    hide ContractOf, ErasureValid;
    forall i | 0 <= i < |answers| && Good(answers, w)[i]
      ensures ParityVotes(answers)[i] == Some(RecordParity(w, |answers|))
      ensures EtagVotes(answers)[i] == EtagOf(w) && ContractVotes(answers, EtagOf(w).value)[i] == Some(ContractOf(w))
    {
      RecordVotes(answers[i], w, |answers|, EtagOf(w).value);
    }
  }

  /** The record's own parity is elected. */
  lemma ParityOfRecord(answers: seq<Answer>, w: FileInfo, faults: nat)
    requires Survives(answers, w, faults)
    ensures
      var p := RecordParity(w, |answers|);
      && faults <= p <= |answers| && Reaches(answers, p)
      && forall q: nat :: Elected(answers, q) ==> q == p
  {
    hide ContractOf, HoldsRecord, EtagOf;
    var n, p, good, votes := |answers|, RecordParity(w, |answers|), Good(answers, w), ParityVotes(answers);
    GoodVotes(answers, w, faults);
    Backed(votes, good, p);
    assert Reaches(answers, p);
    forall q: nat | Elected(answers, q)
      ensures q == p
    {
      assert Count(votes, p) <= Count(votes, q);
      if q != p {
        Outvoted(votes, good, p, q);
      }
    }
  }

  /** Read after write: while all but `faults` disks hold the record, a read returns
      its contract exactly when no counted error is reported by half the set. */
  lemma ReadAfterWrite(answers: seq<Answer>, w: FileInfo, faults: nat, r: Result<nat, ReadError>)
    requires Survives(answers, w, faults) && Possible(answers, r)
    ensures NoQuorum(ErrorVotes(answers), Half(|answers|)) <==>
      r.Ok? && r.value < |answers| && answers[r.value].Ok? && ContractOf(answers[r.value].value) == ContractOf(w)
  {
    hide ContractOf, HoldsRecord, EtagOf, NoQuorum, Leading, Elected, Reaches, CountTrue;
    var n, p, e, good := |answers|, RecordParity(w, |answers|), EtagOf(w).value, Good(answers, w);
    GoodVotes(answers, w, faults);
    ParityOfRecord(answers, w, faults);
    MajorityLeads(EtagVotes(answers), good, e, n - p);
    MajorityLeads(ContractVotes(answers, e), good, ContractOf(w), n - p);
    match r {
      case Err(Dominant(Counted(tag))) => LeadingOrNot(ErrorVotes(answers), tag, Half(n));
      case Ok(i) =>
        var q: nat, f, c :| Chosen(answers, q, f, c, i);
      case _ =>
    }
  }

  /** So an empty object or a delete marker with an etag is read back through any
      minority of faults in a set of at most 511 disks. */
  lemma EmptyReadAfterWrite(answers: seq<Answer>, w: FileInfo, faults: nat, r: Result<nat, ReadError>)
    requires (w.deleted || w.size == 0) && EtagOf(w).Some? && EtagOf(w).value != "" && |answers| <= 511
    requires 2 * faults < |answers| && CountTrue(Good(answers, w)) >= |answers| - faults && Possible(answers, r)
    ensures NoQuorum(ErrorVotes(answers), Half(|answers|)) <==>
      r.Ok? && r.value < |answers| && answers[r.value].Ok? && ContractOf(answers[r.value].value) == ContractOf(w)
  {
    hide ContractOf, NoQuorum, Good, CountTrue, Possible, Survives;
    EmptySurvives(answers, w, faults);
    ReadAfterWrite(answers, w, faults, r);
  }

  /** In a set of even size at least two the faults alone cannot stop the read. */
  lemma EvenSetsRead(answers: seq<Answer>, w: FileInfo, faults: nat)
    requires Survives(answers, w, faults) && |answers| % 2 == 0 && |answers| > 0
    ensures NoQuorum(ErrorVotes(answers), Half(|answers|))
  {
    hide HoldsRecord;
    var votes, good := ErrorVotes(answers), Good(answers, w);
    forall tag
      ensures Count(votes, tag) <= |votes| - CountTrue(good)
    {
      FaultsOnly(answers, votes, good, w, tag);
    }
  }

  lemma FaultsOnly(answers: seq<Answer>, votes: seq<Option<string>>, good: seq<bool>, w: FileInfo, tag: string)
    requires votes == ErrorVotes(answers) && good == Good(answers, w)
    ensures Count(votes, tag) <= |votes| - CountTrue(good)
  {
    assert forall i :: 0 <= i < |votes| && good[i] ==> votes[i] == None;
    Silent(votes, good, tag);
  }

  lemma {:induction false} Silent(votes: seq<Option<string>>, good: seq<bool>, tag: string)
    requires |good| == |votes| && forall i :: 0 <= i < |votes| && good[i] ==> votes[i] == None
    ensures Count(votes, tag) <= |votes| - CountTrue(good)
  {
    if votes != [] {
      var n := |votes| - 1;
      Silent(votes[..n], good[..n], tag);
    }
  }

  /** A record without an etag, such as a delete marker, is never returned. */
  lemma OnlyTagged(answers: seq<Answer>, i: nat)
    requires Possible(answers, Ok(i))
    ensures i < |answers| && answers[i].Ok? && EtagOf(answers[i].value).Some? && EtagOf(answers[i].value).value != ""
  {
    hide Elected, NoQuorum, ContractOf;
    var p: nat, e, c :| Chosen(answers, p, e, c, i);
    CountPositive(EtagVotes(answers), e);
    var j :| 0 <= j < |answers| && EtagVotes(answers)[j] == Some(e);
  }

  // ----- Half the set is too much

  lemma {:induction false} CountTwo<T>(a: Option<T>, b: Option<T>, x: T)
    ensures Count([a, b], x) == (if a == Some(x) then 1 else 0) + (if b == Some(x) then 1 else 0)
  {
    assert [a, b][..1] == [a] && [a][..0] == [];
    assert Count([a], x) == (if a == Some(x) then 1 else 0);
  }

  /** Two disks, one parity: if they hold records with different etags, either may
      be returned. */
  lemma TieReturnsEither(a: FileInfo, b: FileInfo)
    requires ErasureValid(a.erasure) && ErasureValid(b.erasure)
    requires a.erasure.parityBlocks == b.erasure.parityBlocks == 1
    requires !a.deleted && !b.deleted && a.size > 0 && b.size > 0
    requires EtagOf(a).Some? && EtagOf(b).Some? && EtagOf(a) != EtagOf(b)
    requires EtagOf(a).value != "" && EtagOf(b).value != ""
    ensures Possible([Ok(a), Ok(b)], Ok(0)) && Possible([Ok(a), Ok(b)], Ok(1))
  {
    var answers: seq<Answer> := [Ok(a), Ok(b)];
    var ea, eb := EtagOf(a).value, EtagOf(b).value;
    TiedVotes(answers, a, b);
    assert Chosen(answers, 1, ea, ContractOf(a), 0);
    assert Chosen(answers, 1, eb, ContractOf(b), 1);
  }

  lemma TiedVotes(answers: seq<Answer>, a: FileInfo, b: FileInfo)
    requires answers == [Ok(a), Ok(b)]
    requires ErasureValid(a.erasure) && ErasureValid(b.erasure)
    requires a.erasure.parityBlocks == b.erasure.parityBlocks == 1
    requires !a.deleted && !b.deleted && a.size > 0 && b.size > 0
    requires EtagOf(a).Some? && EtagOf(b).Some? && EtagOf(a) != EtagOf(b)
    requires EtagOf(a).value != "" && EtagOf(b).value != ""
    ensures NoQuorum(ErrorVotes(answers), 1) && Elected(answers, 1)
    ensures Leading(EtagVotes(answers), EtagOf(a).value, 1) && Leading(EtagVotes(answers), EtagOf(b).value, 1)
    ensures Leading(ContractVotes(answers, EtagOf(a).value), ContractOf(a), 1)
    ensures Leading(ContractVotes(answers, EtagOf(b).value), ContractOf(b), 1)
  {
    hide ContractOf, EtagOf, ErasureValid;
    assert ErrorVotes(answers) == [None, None];
    assert ParityVotes(answers) == [Some(1), Some(1)];
    assert EtagVotes(answers) == [EtagOf(a), EtagOf(b)];
    assert ContractVotes(answers, EtagOf(a).value) == [Some(ContractOf(a)), None];
    assert ContractVotes(answers, EtagOf(b).value) == [None, Some(ContractOf(b))];
    forall x: string
      ensures Count(ErrorVotes(answers), x) == 0
      ensures Count(EtagVotes(answers), x) == (if EtagOf(a) == Some(x) then 1 else 0) + (if EtagOf(b) == Some(x) then 1 else 0)
    {
      CountTwo(None, None, x);
      CountTwo(EtagOf(a), EtagOf(b), x);
    }
    forall x: Contract
      ensures Count(ContractVotes(answers, EtagOf(a).value), x) == (if ContractOf(a) == x then 1 else 0)
      ensures Count(ContractVotes(answers, EtagOf(b).value), x) == (if ContractOf(b) == x then 1 else 0)
    {
      CountTwo(Some(ContractOf(a)), None, x);
      CountTwo(None, Some(ContractOf(b)), x);
    }
    forall x: nat
      ensures Count(ParityVotes(answers), x) == (if x == 1 then 2 else 0)
    {
      CountTwo(Some(1), Some(1), x);
    }
  }
}
