/** What an unmarked guard is worth: when it keeps new clients out, and a run in
    which it does not (crates/openlake_storage/src/dsync.rs:65-276). */
module LockExclusion {
  import opened Bytes
  import opened LockTable
  import opened LockRun

  // ----- What can happen without time passing and without the guard acting

  predicate Quiet(step: Step, u: nat) {
    match step
    case Tick => false
    case Begin(_) => true
    case SweepPeer(_) => true
    case _ => step.uid != u
  }

  ghost predicate QuietPath(states: seq<Lock>, steps: seq<Step>, u: nat) {
    && |states| == |steps| + 1
    && forall i :: 0 <= i < |steps| ==> Quiet(steps[i], u) && Moves(states[i], steps[i], states[i + 1])
  }

  ghost predicate Joins(s: Lock, t: Lock, u: nat, states: seq<Lock>, steps: seq<Step>) {
    QuietPath(states, steps, u) && states[0] == s && states[|steps|] == t
  }

  /** Steps of others, in no time, lead from s to t. */
  ghost predicate Reaches(s: Lock, t: Lock, u: nat) {
    exists states, steps :: Joins(s, t, u, states, steps)
  }

  lemma ReachesSelf(s: Lock, u: nat)
    ensures Reaches(s, s, u)
  {
    assert Joins(s, s, u, [s], []);
  }

  lemma ReachesNext(s: Lock, t: Lock, u: nat, step: Step)
    requires Reaches(s, t, u) && Quiet(step, u) && Enabled(t, step)
    ensures Reaches(s, Apply(t, step), u)
  {
    hide Quiet, Moves;
    var states, steps :| Joins(s, t, u, states, steps);
    var t' := Apply(t, step);
    assert Moves(t, step, t') by {
      MovesOn(t, step);
    }
    var more, longer := states + [t'], steps + [step];
    forall i | 0 <= i < |longer|
      ensures Quiet(longer[i], u) && Moves(more[i], longer[i], more[i + 1])
    {
      if i < |steps| {
        assert more[i] == states[i] && more[i + 1] == states[i + 1];
      }
    }
    assert Joins(s, t', u, more, longer);
  }

  lemma MovesOn(t: Lock, step: Step)
    requires Enabled(t, step)
    ensures Moves(t, step, Apply(t, step))
  {
  }

  /** The peers with a live entry of the guard. */
  ghost function Firm(s: Lock, u: nat, r: string): (firm: set<nat>)
    ensures firm <= Peers(|s.locks|)
  {
    set p | p in Peers(|s.locks|) && p < |s.locks| && Taken(s.locks[p], s.now, s.validity, r) && HeldBy(s.locks[p], r, u)
  }

  ghost function Loose(s: Lock, u: nat, r: string): set<nat> {
    Peers(|s.locks|) - Firm(s, u, r)
  }

  /** A client that begins now can hold the guard's resource before any time has
      passed and without the guard doing anything. */
  ghost predicate CanBeTaken(s: Lock, u: nat)
    requires u < |s.attempts|
  {
    exists t, v :: Reaches(s, t, u) && HeldByNew(s, t, v, s.attempts[u].resource)
  }

  ghost predicate HeldByNew(s: Lock, t: Lock, v: nat, r: string) {
    |s.attempts| <= v < |t.attempts| && t.attempts[v].resource == r && t.attempts[v].phase.Held?
  }

  // ----- Live entries of the guard stand in the way

  /** No firm peer has granted the new attempt, which holds only with a quorum. */
  ghost predicate NewOk(a: Attempt, r: string, firm: set<nat>, n: nat) {
    a.resource == r ==>
      && a.votes.Keys <= Peers(n)
      && (forall p :: p in a.votes && a.votes[p] == Some(true) ==> p !in firm)
      && (a.phase.Held? ==> |Saying(a.votes, Some(true))| >= Quorum(n))
  }

  ghost predicate Stands(s: Lock, t: Lock, u: nat, r: string) {
    && t.now == s.now && t.validity == s.validity && |t.locks| == |s.locks| && |t.attempts| >= |s.attempts|
    && Firm(s, u, r) <= Firm(t, u, r)
    && forall v :: |s.attempts| <= v < |t.attempts| ==> NewOk(t.attempts[v], r, Firm(s, u, r), |s.locks|)
  }

  lemma FirmStays(t: Lock, step: Step, u: nat, r: string)
    requires u < |t.attempts| && Enabled(t, step) && Quiet(step, u)
    ensures Firm(t, u, r) <= Firm(Apply(t, step), u, r)
  {
    hide Enabled, Apply, Quiet, Taken, HeldBy;
    ShapeStays(t, step, u);
    forall p | p in Firm(t, u, r)
      ensures p in Firm(Apply(t, step), u, r)
    {
      FirmPeerStays(t, step, u, r, p);
    }
  }

  lemma FirmPeerStays(t: Lock, step: Step, u: nat, r: string, p: nat)
    requires u < |t.attempts| && Enabled(t, step) && Quiet(step, u) && p < |t.locks| == |Apply(t, step).locks|
    requires Taken(t.locks[p], t.now, t.validity, r) && HeldBy(t.locks[p], r, u)
    ensures
      var t' := Apply(t, step);
      Taken(t'.locks[p], t'.now, t'.validity, r) && HeldBy(t'.locks[p], r, u)
  {
  }

  lemma NewStep(s: Lock, t: Lock, step: Step, u: nat, r: string, v: nat)
    requires Stands(s, t, u, r) && u < |s.attempts| && Enabled(t, step) && Quiet(step, u)
    requires |s.attempts| <= v < |Apply(t, step).attempts|
    ensures NewOk(Apply(t, step).attempts[v], r, Firm(s, u, r), |s.locks|)
  {
    hide Firm, Saying, Peers;
    var firm, n := Firm(s, u, r), |s.locks|;
    if v < |t.attempts| {
      assert NewOk(t.attempts[v], r, firm, n);
      if step.DeliverAcquire? && step.uid == v {
        VoteNotFirm(s, t, u, r, v, step.peer, step.heard);
      } else if step.Decide? && step.uid == v {
      } else {
        VotesStay(t, step, v, n);
      }
    }
  }

  lemma VoteNotFirm(s: Lock, t: Lock, u: nat, r: string, v: nat, p: nat, heard: bool)
    requires Stands(s, t, u, r) && u < v < |t.attempts| && Enabled(t, DeliverAcquire(v, p, heard))
    requires NewOk(t.attempts[v], r, Firm(s, u, r), |s.locks|)
    ensures NewOk(Apply(t, DeliverAcquire(v, p, heard)).attempts[v], r, Firm(s, u, r), |s.locks|)
  {
    hide Saying;
    assert p in Peers(|s.locks|);
  }

  /** Other steps leave an attempt's granted votes alone. */
  lemma VotesStay(t: Lock, step: Step, v: nat, n: nat)
    requires Enabled(t, step) && v < |t.attempts| && |t.locks| == n
    requires !((step.DeliverAcquire? || step.Decide?) && step.uid == v)
    ensures v < |Apply(t, step).attempts|
    ensures
      var a, b := t.attempts[v], Apply(t, step).attempts[v];
      && b.resource == a.resource && (b.phase.Held? ==> a.phase.Held?)
      && (b.votes == a.votes
          || (step.VoteError? && a.phase.Voting? && step.peer < n && b.phase.Voting? && b.votes == a.votes[step.peer := None]))
  {
  }

  lemma StandsStep(s: Lock, t: Lock, step: Step, u: nat, r: string)
    requires Stands(s, t, u, r) && u < |s.attempts| && Enabled(t, step) && Quiet(step, u)
    ensures Stands(s, Apply(t, step), u, r)
  {
    hide Firm, NewOk, Quiet;
    var t' := Apply(t, step);
    FirmStays(t, step, u, r);
    ShapeStays(t, step, u);
    forall v | |s.attempts| <= v < |t'.attempts|
      ensures NewOk(t'.attempts[v], r, Firm(s, u, r), |s.locks|)
    {
      NewStep(s, t, step, u, r, v);
    }
  }

  lemma ShapeStays(t: Lock, step: Step, u: nat)
    requires Enabled(t, step) && Quiet(step, u)
    ensures
      var t' := Apply(t, step);
      t'.now == t.now && t'.validity == t.validity && |t'.locks| == |t.locks| && |t'.attempts| >= |t.attempts|
  {
  }

  lemma {:induction false} StandsAlong(states: seq<Lock>, steps: seq<Step>, u: nat, r: string, i: nat)
    requires QuietPath(states, steps, u) && u < |states[0].attempts| && i < |states|
    ensures Stands(states[0], states[i], u, r)
  {
    hide Stands, Quiet;
    if i == 0 {
      StandsFirst(states[0], u, r);
    } else {
      StandsAlong(states, steps, u, r, i - 1);
      assert Moves(states[i - 1], steps[i - 1], states[i - 1 + 1]);
      StandsStep(states[0], states[i - 1], steps[i - 1], u, r);
    }
  }

  lemma StandsFirst(s: Lock, u: nat, r: string)
    ensures Stands(s, s, u, r)
  {
  }

  lemma NewNeedsLoose(s: Lock, t: Lock, u: nat, r: string, v: nat)
    requires Stands(s, t, u, r) && HeldByNew(s, t, v, r)
    ensures |Loose(s, u, r)| >= Quorum(|s.locks|)
  {
    hide Firm;
    assert NewOk(t.attempts[v], r, Firm(s, u, r), |s.locks|);
    var granted := Saying(t.attempts[v].votes, Some(true));
    assert granted <= Loose(s, u, r);
    SubsetSize(granted, Loose(s, u, r));
  }

  // ----- Nothing else does

  /** Every entry is of an attempt at the entry's resource. */
  ghost predicate Named(s: Lock) {
    forall p, r :: 0 <= p < |s.locks| && r in s.locks[p] ==>
      s.locks[p][r].uid < |s.attempts| && s.attempts[s.locks[p][r].uid].resource == r
  }

  lemma ResourcesStay(s: Lock, step: Step)
    requires Enabled(s, step)
    ensures
      var t := Apply(s, step);
      && |t.locks| == |s.locks| && |t.attempts| >= |s.attempts|
      && forall w :: 0 <= w < |s.attempts| ==> t.attempts[w].resource == s.attempts[w].resource
  {
  }

  /** An entry was there before, or is made for an attempt at its resource. */
  lemma EntryFrom(s: Lock, step: Step, p: nat, r: string)
    requires Enabled(s, step) && p < |s.locks| && |Apply(s, step).locks| == |s.locks| && r in Apply(s, step).locks[p]
    ensures
      var uid := Apply(s, step).locks[p][r].uid;
      || (r in s.locks[p] && s.locks[p][r].uid == uid)
      || (uid < |s.attempts| && s.attempts[uid].resource == r)
  {
  }

  lemma NamedStep(s: Lock, step: Step)
    requires Named(s) && Enabled(s, step)
    ensures Named(Apply(s, step))
  {
    hide Enabled, Apply;
    var t := Apply(s, step);
    ResourcesStay(s, step);
    forall p, r | 0 <= p < |t.locks| && r in t.locks[p]
      ensures t.locks[p][r].uid < |t.attempts| && t.attempts[t.locks[p][r].uid].resource == r
    {
      EntryFrom(s, step, p, r);
    }
  }

  ghost predicate Sound(s: Lock) {
    Inv(s) && Named(s)
  }

  lemma SoundStep(s: Lock, step: Step)
    requires Sound(s) && Enabled(s, step)
    ensures Sound(Apply(s, step))
  {
    hide Inv, Named;
    StepKeeps(s, step);
    NamedStep(s, step);
  }

  lemma {:induction false} RunSound(states: seq<Lock>, steps: seq<Step>, i: nat)
    requires Run(states, steps) && i < |states|
    ensures Sound(states[i])
  {
    hide Sound;
    if i == 0 {
      FirstSound(states[0]);
    } else {
      RunSound(states, steps, i - 1);
      assert Moves(states[i - 1], steps[i - 1], states[i - 1 + 1]);
      SoundStep(states[i - 1], steps[i - 1]);
    }
  }

  lemma FirstSound(s: Lock)
    requires Initial(s)
    ensures Sound(s)
  {
  }

  /** One more step of somebody else. */
  lemma Next(start: Lock, s: Lock, u: nat, step: Step) returns (t: Lock)
    requires Reaches(start, s, u) && Sound(s) && Quiet(step, u) && Enabled(s, step)
    ensures t == Apply(s, step) && Reaches(start, t, u) && Sound(t)
  {
    hide Reaches, Sound;
    ReachesNext(start, s, u, step);
    SoundStep(s, step);
    t := Apply(s, step);
  }

  /** Nothing but attempt w has changed. */
  ghost predicate OnlyAttempt(s: Lock, t: Lock, w: nat) {
    && t.now == s.now && t.validity == s.validity && t.locks == s.locks && |t.attempts| == |s.attempts|
    && w < |s.attempts| && t.attempts[w].resource == s.attempts[w].resource
    && forall x :: 0 <= x < |s.attempts| && x != w ==> t.attempts[x] == s.attempts[x]
  }

  lemma VotesInside(s: Lock, w: nat)
    requires Sound(s) && w < |s.attempts|
    ensures s.attempts[w].votes.Keys <= Peers(|s.locks|)
  {
    assert AttemptOk(s.attempts[w], |s.locks|, s.now);
  }

  lemma FailVote(start: Lock, s: Lock, u: nat, w: nat, k: nat) returns (t: Lock)
    requires Reaches(start, s, u) && Sound(s) && w != u && w < |s.attempts| && s.attempts[w].phase.Voting?
    requires k < |s.locks| && k !in s.attempts[w].votes
    ensures Reaches(start, t, u) && Sound(t) && OnlyAttempt(s, t, w)
    ensures t.attempts[w].phase.Voting? && t.attempts[w].votes == s.attempts[w].votes[k := None]
  {
    hide Reaches, Sound;
    t := Next(start, s, u, VoteError(w, k));
  }

  lemma PeersNext(k: nat)
    ensures Peers(k + 1) == Peers(k) + {k}
  {
  }

  /** The votes that have not come in fail. */
  lemma {:induction false} FillVotes(start: Lock, s: Lock, u: nat, w: nat, k: nat) returns (t: Lock)
    requires Reaches(start, s, u) && Sound(s) && w != u && w < |s.attempts| && s.attempts[w].phase.Voting?
    requires k <= |s.locks| && Peers(k) <= s.attempts[w].votes.Keys
    ensures Reaches(start, t, u) && Sound(t) && OnlyAttempt(s, t, w)
    ensures t.attempts[w].phase.Voting? && Complete(t.attempts[w].votes, |t.locks|)
    decreases |s.locks| - k
  {
    hide Reaches, Sound, Peers;
    VotesInside(s, w);
    if k == |s.locks| {
      t := s;
    } else {
      PeersNext(k);
      var s' := s;
      if k !in s.attempts[w].votes {
        s' := FailVote(start, s, u, w, k);
      }
      t := FillVotes(start, s', u, w, k + 1);
    }
  }

  /** Another attempt is over, and so can be released. */
  lemma Retire(start: Lock, s: Lock, u: nat, w: nat) returns (t: Lock)
    requires Reaches(start, s, u) && Sound(s) && w != u && w < |s.attempts|
    ensures Reaches(start, t, u) && Sound(t) && OnlyAttempt(s, t, w) && !Unreleased(t.attempts[w])
  {
    hide Reaches, Sound, Complete, Saying;
    t := s;
    if t.attempts[w].phase.Voting? {
      t := FillVotes(start, t, u, w, 0);
      t := Next(start, t, u, Decide(w));
    }
    if t.attempts[w].phase.Held? {
      t := Next(start, t, u, DropGuard(w));
    }
  }

  /** Another attempt's entry for r goes away. */
  lemma FreePeer(start: Lock, s: Lock, u: nat, r: string, p: nat) returns (t: Lock)
    requires Reaches(start, s, u) && Sound(s) && p < |s.locks| && r in s.locks[p] && s.locks[p][r].uid != u
    ensures Reaches(start, t, u) && Sound(t)
    ensures t.now == s.now && t.validity == s.validity && |t.attempts| == |s.attempts| && t.locks == s.locks[p := s.locks[p] - {r}]
  {
    hide Reaches, Inv;
    var w := s.locks[p][r].uid;
    t := Retire(start, s, u, w);
    t := Next(start, t, u, DeliverRelease(w, p));
  }

  /** Every peer that is not firm is free for r. */
  ghost predicate FreeBelow(s: Lock, u: nat, r: string, k: nat) {
    forall p :: 0 <= p < k && p < |s.locks| ==> p in Firm(s, u, r) || !Taken(s.locks[p], s.now, s.validity, r)
  }

  lemma {:induction false} FreeAll(start: Lock, s: Lock, u: nat, r: string, k: nat) returns (t: Lock)
    requires Reaches(start, s, u) && Sound(s) && k <= |s.locks| && FreeBelow(s, u, r, k)
    ensures Reaches(start, t, u) && Sound(t)
    ensures t.now == s.now && t.validity == s.validity && |t.attempts| == |s.attempts| && |t.locks| == |s.locks|
    ensures Firm(t, u, r) == Firm(s, u, r) && FreeBelow(t, u, r, |t.locks|)
    decreases |s.locks| - k
  {
    hide Reaches, Sound;
    if k == |s.locks| {
      t := s;
    } else {
      var s' := s;
      if Taken(s.locks[k], s.now, s.validity, r) && !HeldBy(s.locks[k], r, u) {
        s' := FreePeer(start, s, u, r, k);
        assert Firm(s', u, r) == Firm(s, u, r);
      }
      t := FreeAll(start, s', u, r, k + 1);
    }
  }

  lemma Ask(start: Lock, s: Lock, u: nat, v: nat, k: nat) returns (t: Lock)
    requires Reaches(start, s, u) && Sound(s) && v != u && v < |s.attempts| && s.attempts[v].phase.Voting?
    requires k < |s.locks| && k !in s.attempts[v].votes
    ensures Reaches(start, t, u) && Sound(t) && |t.attempts| == |s.attempts| && |t.locks| == |s.locks|
    ensures t.now == s.now && t.validity == s.validity && t.attempts[v].resource == s.attempts[v].resource && t.attempts[v].phase.Voting?
    ensures t.attempts[v].votes == s.attempts[v].votes[k := Some(!Taken(s.locks[k], s.now, s.validity, s.attempts[v].resource))]
    ensures forall p :: 0 <= p < |s.locks| && p != k ==> t.locks[p] == s.locks[p]
  {
    hide Reaches, Sound;
    t := Next(start, s, u, DeliverAcquire(v, k, true));
  }

  /** A new attempt asks every peer from k on, and each that is free says yes. */
  lemma {:induction false} VoteAll(start: Lock, s: Lock, u: nat, v: nat, k: nat) returns (t: Lock)
    requires Reaches(start, s, u) && Sound(s) && v != u && v < |s.attempts| && s.attempts[v].phase.Voting?
    requires k <= |s.locks| && s.attempts[v].votes.Keys == Peers(k)
    ensures Reaches(start, t, u) && Sound(t) && |t.attempts| == |s.attempts| && |t.locks| == |s.locks|
    ensures t.attempts[v].resource == s.attempts[v].resource && t.attempts[v].phase.Voting?
    ensures Complete(t.attempts[v].votes, |t.locks|)
    ensures forall p :: 0 <= p < k ==> t.attempts[v].votes[p] == s.attempts[v].votes[p]
    ensures forall p :: k <= p < |s.locks| ==>
      t.attempts[v].votes[p] == Some(!Taken(s.locks[p], s.now, s.validity, s.attempts[v].resource))
    decreases |s.locks| - k
  {
    hide Reaches, Sound, Peers, Taken;
    if k == |s.locks| {
      t := s;
    } else {
      PeersNext(k);
      var s' := Ask(start, s, u, v, k);
      t := VoteAll(start, s', u, v, k + 1);
    }
  }

  lemma LooseCanTake(s: Lock, u: nat)
    requires Sound(s) && u < |s.attempts|
    requires |Loose(s, u, s.attempts[u].resource)| >= Quorum(|s.locks|)
    ensures CanBeTaken(s, u)
  {
    hide Reaches, Sound, Firm, Loose, Taken, Peers;
    var r, v := s.attempts[u].resource, |s.attempts|;
    ReachesSelf(s, u);
    var free := FreeAll(s, s, u, r, 0);
    var begun := NewClient(s, free, u, r);
    var t := VoteAll(s, begun, u, v, 0);
    LooseGranted(s, free, t, u, v, r);
    SubsetSize(Loose(s, u, r), Saying(t.attempts[v].votes, Some(true)));
    t := Win(s, t, u, v);
    assert HeldByNew(s, t, v, r);
  }

  lemma NewClient(start: Lock, s: Lock, u: nat, r: string) returns (t: Lock)
    requires Reaches(start, s, u) && Sound(s)
    ensures Reaches(start, t, u) && Sound(t) && t.locks == s.locks && t.now == s.now && t.validity == s.validity
    ensures t.attempts == s.attempts + [Attempt(r, Voting, s.now, map[], map[], None, 0, {})]
    ensures t.attempts[|s.attempts|].votes.Keys == Peers(0)
  {
    hide Reaches, Sound;
    t := Next(start, s, u, Begin(r));
  }

  lemma Win(start: Lock, s: Lock, u: nat, v: nat) returns (t: Lock)
    requires Reaches(start, s, u) && Sound(s) && v != u && v < |s.attempts| && s.attempts[v].phase.Voting?
    requires Complete(s.attempts[v].votes, |s.locks|) && |Saying(s.attempts[v].votes, Some(true))| >= Quorum(|s.locks|)
    ensures Reaches(start, t, u) && |t.attempts| == |s.attempts|
    ensures t.attempts[v].resource == s.attempts[v].resource && t.attempts[v].phase.Held?
  {
    hide Reaches, Sound, Complete, Saying;
    t := Next(start, s, u, Decide(v));
  }

  lemma LooseGranted(s: Lock, free: Lock, t: Lock, u: nat, v: nat, r: string)
    requires |free.locks| == |s.locks| == |t.locks| && v < |t.attempts| && Complete(t.attempts[v].votes, |t.locks|)
    requires Firm(free, u, r) == Firm(s, u, r) && FreeBelow(free, u, r, |free.locks|)
    requires forall p :: 0 <= p < |free.locks| ==> t.attempts[v].votes[p] == Some(!Taken(free.locks[p], free.now, free.validity, r))
    ensures Loose(s, u, r) <= Saying(t.attempts[v].votes, Some(true))
  {
    hide Firm;
    forall p | p in Loose(s, u, r)
      ensures p in Saying(t.attempts[v].votes, Some(true))
    {
      assert p < |free.locks| && p !in Firm(free, u, r);
    }
  }

  // ----- The exact condition

  /** In every reachable state: before any time passes and without the guard acting,
      a client that begins now can come to hold the guard's resource exactly when a
      quorum of peers has no live entry of the guard. Being unmarked does not
      matter. */
  lemma ExcludesIff(states: seq<Lock>, steps: seq<Step>, u: nat)
    requires Run(states, steps) && u < |states[|steps|].attempts|
    ensures
      var s := states[|steps|];
      CanBeTaken(s, u) <==> |Loose(s, u, s.attempts[u].resource)| >= Quorum(|s.locks|)
  {
    hide Sound, Firm;
    var s := states[|steps|];
    var r := s.attempts[u].resource;
    RunSound(states, steps, |steps|);
    if |Loose(s, u, r)| >= Quorum(|s.locks|) {
      LooseCanTake(s, u);
    }
    if CanBeTaken(s, u) {
      var t, v :| Reaches(s, t, u) && HeldByNew(s, t, v, r);
      TakenNeedsLoose(s, t, u, v, r);
    }
  }

  lemma TakenNeedsLoose(s: Lock, t: Lock, u: nat, v: nat, r: string)
    requires u < |s.attempts| && Reaches(s, t, u) && HeldByNew(s, t, v, r)
    ensures |Loose(s, u, r)| >= Quorum(|s.locks|)
  {
    hide Firm, Stands, QuietPath;
    var path, moves :| Joins(s, t, u, path, moves);
    StandsLast(path, moves, u, r);
    NewNeedsLoose(s, t, u, r, v);
  }

  lemma StandsLast(states: seq<Lock>, steps: seq<Step>, u: nat, r: string)
    requires QuietPath(states, steps, u) && u < |states[0].attempts|
    ensures Stands(states[0], states[|steps|], u, r)
  {
    hide Stands;
    StandsAlong(states, steps, u, r, |steps|);
  }

  /** A guard whose vote, or last confirmed round, began less than `validity` ago
      keeps them out. */
  lemma ProvenExcludes(states: seq<Lock>, steps: seq<Step>, u: nat)
    requires Run(states, steps) && u < |states[|steps|].attempts|
    requires
      var s := states[|steps|];
      s.attempts[u].phase.Held? && Age(s.now, s.attempts[u].proven) < s.validity
    ensures !CanBeTaken(states[|steps|], u)
  {
    hide CanBeTaken;
    var s := states[|steps|];
    var a := s.attempts[u];
    ConfirmedFirm(states, steps, u);
    ExcludesIff(states, steps, u);
    SubsetSize(a.confirmed, Firm(s, u, a.resource));
    assert |Loose(s, u, a.resource)| == |s.locks| - |Firm(s, u, a.resource)|;
  }

  lemma ConfirmedFirm(states: seq<Lock>, steps: seq<Step>, u: nat)
    requires Run(states, steps) && u < |states[|steps|].attempts|
    requires
      var s := states[|steps|];
      s.attempts[u].phase.Held? && Age(s.now, s.attempts[u].proven) < s.validity
    ensures
      var s := states[|steps|];
      s.attempts[u].confirmed <= Firm(s, u, s.attempts[u].resource) && |s.attempts[u].confirmed| >= Quorum(|s.locks|)
  {
    var s := states[|steps|];
    RunKeeps(states, steps, |steps|);
    assert AttemptOk(s.attempts[u], |s.locks|, s.now);
    forall p | p in s.attempts[u].confirmed
      ensures p in Firm(s, u, s.attempts[u].resource)
    {
      assert StampOk(s, u, p);
    }
  }

  // ----- An unmarked guard that excludes nobody

  /** The guard an unopposed attempt at `now` turns into, with one peer. */
  function Unopposed(r: string, now: nat): Attempt {
    Attempt(r, Held, now, map[0 := Some(true)], map[0 := now], None, now, {0})
  }

  lemma VoteWins(now: nat, t: Table<nat>, before: seq<Attempt>, r: string)
    requires !Taken(t, now, 1, r)
    ensures
      var a := Attempt(r, Voting, now, map[], map[], None, 0, {});
      var a' := a.(votes := map[0 := Some(true)], stamps := map[0 := now]);
      Moves(Lock(now, 1, [t], before + [a]), DeliverAcquire(|before|, 0, true),
            Lock(now, 1, [t[r := Entry(|before|, now)]], before + [a']))
  {
  }

  lemma DecideWins(now: nat, t: Table<nat>, before: seq<Attempt>, r: string)
    ensures
      var a := Attempt(r, Voting, now, map[0 := Some(true)], map[0 := now], None, 0, {});
      Moves(Lock(now, 1, [t], before + [a]), Decide(|before|), Lock(now, 1, [t], before + [Unopposed(r, now)]))
  {
    var yes: map<nat, Option<bool>> := map[0 := Some(true)];
    assert Saying(yes, Some(true)) == {0};
    assert Complete(yes, 1);
  }

  /** A refresh round of a single guard whose one peer cannot be reached. */
  lemma RoundUnanswered(t: Table<nat>, r: string)
    ensures
      var g := Unopposed(r, 0);
      var open, heard := g.(round := Some(Round(0, map[]))), g.(round := Some(Round(0, map[0 := None])));
      && Moves(Lock(0, 1, [t], [g]), StartRound(0), Lock(0, 1, [t], [open]))
      && Moves(Lock(0, 1, [t], [open]), RefreshError(0, 0), Lock(0, 1, [t], [heard]))
      && Moves(Lock(0, 1, [t], [heard]), EndRound(0), Lock(0, 1, [t], [g]))
  {
    hide Saying, Complete;
    var replies: map<nat, Option<bool>> := map[0 := None];
    NoAnswer(replies);
  }

  lemma NoAnswer(replies: map<nat, Option<bool>>)
    requires replies == map[0 := None]
    ensures Saying(replies, Some(false)) == {} && Saying(replies, Some(true)) == {} && Complete(replies, 1)
  {
  }

  lemma QuietMoves(s: Lock, r: string)
    ensures Moves(s, Tick, s.(now := s.now + 1))
    ensures Moves(s, Begin(r), s.(attempts := s.attempts + [Attempt(r, Voting, s.now, map[], map[], None, 0, {})]))
  {
  }

  /** With one peer and a validity of one tick: a refresh round that gets no answer
      leaves the guard unmarked, and after a tick another client holds the same
      resource too. */
  lemma UnmarkedGuardsCoexist(r: string) returns (states: seq<Lock>, steps: seq<Step>)
    ensures Run(states, steps)
    ensures steps == [Begin(r), DeliverAcquire(0, 0, true), Decide(0), StartRound(0), RefreshError(0, 0), EndRound(0),
                      Tick, Begin(r), DeliverAcquire(1, 0, true), Decide(1)]
    ensures |states[6].attempts| == 1 && states[6].attempts[0].phase.Held?
    ensures
      var s := states[|steps|];
      && |s.attempts| == 2 && s.attempts[0].resource == s.attempts[1].resource == r
      && s.attempts[0].phase.Held? && s.attempts[1].phase.Held?
  {
    hide Moves;
    var a, g := Attempt(r, Voting, 0, map[], map[], None, 0, {}), Unopposed(r, 0);
    var b := Attempt(r, Voting, 1, map[], map[], None, 0, {});
    var open, heard := g.(round := Some(Round(0, map[]))), g.(round := Some(Round(0, map[0 := None])));
    var t, t': Table<nat> := map[][r := Entry(0, 0)], map[][r := Entry(0, 0)][r := Entry(1, 1)];
    var s0, s1 := Lock(0, 1, [map[]], []), Lock(0, 1, [map[]], [] + [a]);
    var s2 := Lock(0, 1, [t], [] + [a.(votes := map[0 := Some(true)], stamps := map[0 := 0])]);
    assert [] + [g] == [g];
    var s3, s4, s5, s6 := Lock(0, 1, [t], [g]), Lock(0, 1, [t], [open]), Lock(0, 1, [t], [heard]), Lock(0, 1, [t], [g]);
    var s7, s8 := Lock(1, 1, [t], [g]), Lock(1, 1, [t], [g] + [b]);
    var s9 := Lock(1, 1, [t'], [g] + [b.(votes := map[0 := Some(true)], stamps := map[0 := 1])]);
    var s10 := Lock(1, 1, [t'], [g] + [Unopposed(r, 1)]);
    QuietMoves(s0, r);
    VoteWins(0, map[], [], r);
    DecideWins(0, t, [], r);
    RoundUnanswered(t, r);
    QuietMoves(s6, r);
    QuietMoves(s7, r);
    VoteWins(1, t, [g], r);
    DecideWins(1, t', [g], r);
    states := [s0, s1, s2, s3, s4, s5, s6, s7, s8, s9, s10];
    steps := [Begin(r), DeliverAcquire(0, 0, true), Decide(0), StartRound(0), RefreshError(0, 0), EndRound(0),
              Tick, Begin(r), DeliverAcquire(1, 0, true), Decide(1)];
  }
}
