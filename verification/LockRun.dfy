/** The distributed lock as interleaved steps of any number of clients against n
    lock servers: votes, refreshes and releases are delivered at any moment, also
    late, and sweeps run at will (crates/openlake_storage/src/dsync.rs:65-276). */
module LockRun {
  import opened Bytes
  import opened LockTable

  datatype Phase = Voting | Held | Failed | Dropped | Lost

  /** A refresh round: when it began and what each peer answered; None is an error. */
  datatype Round = Round(start: nat, replies: map<nat, Option<bool>>)

  /** One acquire attempt, under its own uid, and the guard it may turn into.
      `stamps` records when each peer last granted or refreshed it; `proven` and
      `confirmed` record the start of the last round in which a quorum said yes
      and that quorum. */
  datatype Attempt = Attempt(
    resource: string,
    phase: Phase,
    start: nat,
    votes: map<nat, Option<bool>>,
    stamps: map<nat, nat>,
    round: Option<Round>,
    proven: nat,
    confirmed: set<nat>)

  /** The uid of an attempt is its index in `attempts`. */
  datatype Lock = Lock(now: nat, validity: nat, locks: seq<Table<nat>>, attempts: seq<Attempt>)

  datatype Step =
    | Tick
    | Begin(resource: string)
    | DeliverAcquire(uid: nat, peer: nat, heard: bool)
    | VoteError(uid: nat, peer: nat)
    | Decide(uid: nat)
    | DropGuard(uid: nat)
    | DeliverRelease(uid: nat, peer: nat)
    | StartRound(uid: nat)
    | DeliverRefresh(uid: nat, peer: nat, heard: bool)
    | RefreshError(uid: nat, peer: nat)
    | EndRound(uid: nat)
    | SweepPeer(peer: nat)

  /** The smallest majority. */
  function Quorum(n: nat): (q: nat)
    ensures 2 * q > n && 2 * (q - 1) <= n
  {
    n / 2 + 1
  }

  function Peers(n: nat): (r: set<nat>)
    ensures forall p: nat :: p in r <==> p < n
    ensures |r| == n
  {
    if n == 0 then {} else Peers(n - 1) + {n - 1}
  }

  /** The peers with a given answer. */
  function Saying(m: map<nat, Option<bool>>, answer: Option<bool>): set<nat> {
    set p | p in m && m[p] == answer
  }

  predicate Complete(m: map<nat, Option<bool>>, n: nat) {
    m.Keys == Peers(n)
  }

  /** No release has been sent for it yet. */
  predicate Unreleased(a: Attempt) {
    a.phase.Voting? || a.phase.Held?
  }

  ghost predicate Enabled(s: Lock, step: Step) {
    var n := |s.locks|;
    match step
    case Tick => true
    case Begin(_) => true
    case DeliverAcquire(u, p, heard) =>
      u < |s.attempts| && p < n && (heard ==> s.attempts[u].phase.Voting? && p !in s.attempts[u].votes)
    case VoteError(u, p) => u < |s.attempts| && p < n && s.attempts[u].phase.Voting? && p !in s.attempts[u].votes
    case Decide(u) => u < |s.attempts| && s.attempts[u].phase.Voting? && Complete(s.attempts[u].votes, n)
    case DropGuard(u) => u < |s.attempts| && (s.attempts[u].phase.Held? || s.attempts[u].phase.Lost?)
    case DeliverRelease(u, p) => u < |s.attempts| && p < n && !Unreleased(s.attempts[u])
    case StartRound(u) => n > 0 && u < |s.attempts| && s.attempts[u].phase.Held? && s.attempts[u].round.None?
    case DeliverRefresh(u, p, heard) =>
      && u < |s.attempts| && p < n
      && (heard ==> s.attempts[u].round.Some? && p !in s.attempts[u].round.value.replies)
    case RefreshError(u, p) =>
      u < |s.attempts| && p < n && s.attempts[u].round.Some? && p !in s.attempts[u].round.value.replies
    case EndRound(u) =>
      && u < |s.attempts| && s.attempts[u].phase.Held? && s.attempts[u].round.Some?
      && Complete(s.attempts[u].round.value.replies, n)
    case SweepPeer(p) => p < n
  }

  function Answered(a: Attempt, p: nat, reply: Option<bool>): Attempt
    requires a.round.Some?
  {
    a.(round := Some(a.round.value.(replies := a.round.value.replies[p := reply])))
  }

  /** The end of the vote: held with a quorum of grants, failed otherwise. */
  function Decided(a: Attempt, n: nat): Attempt {
    var granted := Saying(a.votes, Some(true));
    if |granted| >= Quorum(n) then a.(phase := Held, proven := a.start, confirmed := granted)
    else a.(phase := Failed)
  }

  /** The end of a refresh round: more than n - quorum peers that do not know the
      uid mean the lock is lost; errors count for nothing. */
  function Settled(a: Attempt, n: nat): Attempt
    requires a.round.Some?
  {
    var replies := a.round.value.replies;
    var confirmed := Saying(replies, Some(true));
    if |Saying(replies, Some(false))| > n - Quorum(n) then a.(phase := Lost, round := None)
    else if |confirmed| >= Quorum(n) then a.(round := None, proven := a.round.value.start, confirmed := confirmed)
    else a.(round := None)
  }

  function WithAttempt(s: Lock, u: nat, a: Attempt): Lock
    requires u < |s.attempts|
  {
    s.(attempts := s.attempts[u := a])
  }

  /** A grant or refresh stamps the entry; `heard` is whether the answer arrives. */
  function Granting(s: Lock, u: nat, p: nat, heard: bool): Lock
    requires u < |s.attempts| && p < |s.locks|
  {
    var a := s.attempts[u];
    var (t, ok) := Acquire(s.locks[p], s.now, s.validity, a.resource, u);
    var stamped := if ok then a.(stamps := a.stamps[p := s.now]) else a;
    var told := if heard then stamped.(votes := a.votes[p := Some(ok)]) else stamped;
    WithAttempt(s, u, told).(locks := s.locks[p := t])
  }

  function Refreshing(s: Lock, u: nat, p: nat, heard: bool): Lock
    requires u < |s.attempts| && p < |s.locks| && (heard ==> s.attempts[u].round.Some?)
  {
    var a := s.attempts[u];
    var (t, ok) := Refresh(s.locks[p], s.now, a.resource, u);
    var stamped := if ok then a.(stamps := a.stamps[p := s.now]) else a;
    var told := if heard then Answered(stamped, p, Some(ok)) else stamped;
    WithAttempt(s, u, told).(locks := s.locks[p := t])
  }

  ghost function Apply(s: Lock, step: Step): Lock
    requires Enabled(s, step)
  {
    match step
    case Tick => s.(now := s.now + 1)
    case Begin(r) => s.(attempts := s.attempts + [Attempt(r, Voting, s.now, map[], map[], None, 0, {})])
    case DeliverAcquire(u, p, heard) => Granting(s, u, p, heard)
    case VoteError(u, p) => WithAttempt(s, u, s.attempts[u].(votes := s.attempts[u].votes[p := None]))
    case Decide(u) => WithAttempt(s, u, Decided(s.attempts[u], |s.locks|))
    case DropGuard(u) => WithAttempt(s, u, s.attempts[u].(phase := Dropped))
    case DeliverRelease(u, p) => s.(locks := s.locks[p := Release(s.locks[p], s.attempts[u].resource, u)])
    case StartRound(u) => WithAttempt(s, u, s.attempts[u].(round := Some(Round(s.now, map[]))))
    case DeliverRefresh(u, p, heard) => Refreshing(s, u, p, heard)
    case RefreshError(u, p) => WithAttempt(s, u, Answered(s.attempts[u], p, None))
    case EndRound(u) => WithAttempt(s, u, Settled(s.attempts[u], |s.locks|))
    case SweepPeer(p) => s.(locks := s.locks[p := ExpireOld(s.locks[p], s.now, s.validity)])
  }

  // ----- The invariant

  /** An unreleased attempt's stamp at a peer is that of the peer's entry, unless
      it has outlived its validity. */
  ghost predicate StampOk(s: Lock, u: nat, p: nat)
    requires u < |s.attempts| && p < |s.locks|
  {
    var a := s.attempts[u];
    Unreleased(a) && p in a.stamps ==>
      && a.stamps[p] <= s.now
      && (s.now - a.stamps[p] >= s.validity
          || (a.resource in s.locks[p] && s.locks[p][a.resource] == Entry(u, a.stamps[p])))
  }

  /** Every yes is later than the start of the round it belongs to. */
  ghost predicate AttemptOk(a: Attempt, n: nat, now: nat) {
    && a.start <= now
    && a.votes.Keys <= Peers(n)
    && (forall p :: p in a.votes && a.votes[p] == Some(true) ==> p in a.stamps && a.start <= a.stamps[p])
    && (a.round.Some? ==>
          && a.round.value.start <= now && a.round.value.replies.Keys <= Peers(n)
          && forall p :: p in a.round.value.replies && a.round.value.replies[p] == Some(true) ==>
               p in a.stamps && a.round.value.start <= a.stamps[p])
    && (a.phase.Held? ==>
          && a.proven <= now && a.confirmed <= Peers(n) && |a.confirmed| >= Quorum(n)
          && forall p :: p in a.confirmed ==> p in a.stamps && a.proven <= a.stamps[p])
  }

  ghost predicate Inv(s: Lock) {
    && (forall u, p {:trigger StampOk(s, u, p)} :: 0 <= u < |s.attempts| && 0 <= p < |s.locks| ==> StampOk(s, u, p))
    && (forall u :: 0 <= u < |s.attempts| ==> AttemptOk(s.attempts[u], |s.locks|, s.now))
  }

  ghost predicate Initial(s: Lock) {
    s.attempts == [] && forall p :: 0 <= p < |s.locks| ==> s.locks[p] == map[]
  }

  // ----- Every step keeps it

  /** A step that changes only attempt u, and not its stamps, nor makes it
      unreleased again. */
  lemma AttemptOnly(s: Lock, u: nat, a: Attempt)
    requires Inv(s) && u < |s.attempts|
    requires a.resource == s.attempts[u].resource && a.stamps == s.attempts[u].stamps
    requires Unreleased(a) ==> Unreleased(s.attempts[u])
    requires AttemptOk(a, |s.locks|, s.now)
    ensures Inv(WithAttempt(s, u, a))
  {
    hide AttemptOk;
    var s' := WithAttempt(s, u, a);
    forall v, p | 0 <= v < |s'.attempts| && 0 <= p < |s'.locks|
      ensures StampOk(s', v, p)
    {
      assert StampOk(s, v, p);
    }
  }

  lemma TickKeeps(s: Lock)
    requires Inv(s)
    ensures Inv(Apply(s, Tick))
  {
    var s' := Apply(s, Tick);
    forall v, p | 0 <= v < |s'.attempts| && 0 <= p < |s'.locks|
      ensures StampOk(s', v, p)
    {
      assert StampOk(s, v, p);
    }
    assert forall u :: 0 <= u < |s.attempts| ==> AttemptOk(s.attempts[u], |s.locks|, s.now);
  }

  lemma BeginKeeps(s: Lock, r: string)
    requires Inv(s)
    ensures Inv(Apply(s, Begin(r)))
  {
    hide AttemptOk;
    var s' := Apply(s, Begin(r));
    forall v, p | 0 <= v < |s'.attempts| && 0 <= p < |s'.locks|
      ensures StampOk(s', v, p)
    {
      if v < |s.attempts| {
        assert StampOk(s, v, p);
      }
    }
    NewAttemptOk(r, |s.locks|, s.now);
  }

  lemma NewAttemptOk(r: string, n: nat, now: nat)
    ensures AttemptOk(Attempt(r, Voting, now, map[], map[], None, 0, {}), n, now)
  {
  }

  /** A step at peer p that gives attempt u, perhaps, a new stamp, and takes the
      entry of another attempt only if that has outlived its validity. */
  ghost predicate Stamps(s: Lock, s': Lock, u: nat, p: nat)
    requires u < |s.attempts| && p < |s.locks|
  {
    var a, r := s.attempts[u], s.attempts[u].resource;
    && s'.now == s.now && s'.validity == s.validity && |s'.locks| == |s.locks| && |s'.attempts| == |s.attempts|
    && (forall q :: 0 <= q < |s.locks| && q != p ==> s'.locks[q] == s.locks[q])
    && (forall v :: 0 <= v < |s.attempts| && v != u ==> s'.attempts[v] == s.attempts[v])
    && s'.attempts[u].resource == r && s'.attempts[u].phase == a.phase
    && ((s'.locks[p] == s.locks[p] && s'.attempts[u].stamps == a.stamps)
        || (&& s'.locks[p] == s.locks[p][r := Entry(u, s.now)] && s'.attempts[u].stamps == a.stamps[p := s.now]
            && (r in s.locks[p] ==> s.locks[p][r].uid == u || !Live(s.locks[p][r], s.now, s.validity))))
  }

  lemma StampsKeep(s: Lock, s': Lock, u: nat, p: nat)
    requires Inv(s) && u < |s.attempts| && p < |s.locks| && Stamps(s, s', u, p)
    ensures forall v, q {:trigger StampOk(s', v, q)} :: 0 <= v < |s'.attempts| && 0 <= q < |s'.locks| ==> StampOk(s', v, q)
  {
    hide AttemptOk;
    forall v, q | 0 <= v < |s'.attempts| && 0 <= q < |s'.locks|
      ensures StampOk(s', v, q)
    {
      assert StampOk(s, v, q);
    }
  }

  lemma AcquireKeeps(s: Lock, u: nat, p: nat, heard: bool)
    requires Inv(s) && Enabled(s, DeliverAcquire(u, p, heard))
    ensures Inv(Apply(s, DeliverAcquire(u, p, heard)))
  {
    var s' := Apply(s, DeliverAcquire(u, p, heard));
    assert Stamps(s, s', u, p);
    StampsKeep(s, s', u, p);
    assert AttemptOk(s.attempts[u], |s.locks|, s.now);
    assert AttemptOk(s'.attempts[u], |s.locks|, s.now);
  }

  lemma RefreshKeeps(s: Lock, u: nat, p: nat, heard: bool)
    requires Inv(s) && Enabled(s, DeliverRefresh(u, p, heard))
    ensures Inv(Apply(s, DeliverRefresh(u, p, heard)))
  {
    var s' := Apply(s, DeliverRefresh(u, p, heard));
    assert Stamps(s, s', u, p);
    StampsKeep(s, s', u, p);
    assert AttemptOk(s.attempts[u], |s.locks|, s.now);
    assert AttemptOk(s'.attempts[u], |s.locks|, s.now);
  }

  /** Entries go away only when they are stale or their attempt is released. */
  lemma ReleaseKeeps(s: Lock, u: nat, p: nat)
    requires Inv(s) && Enabled(s, DeliverRelease(u, p))
    ensures Inv(Apply(s, DeliverRelease(u, p)))
  {
    hide AttemptOk;
    var s' := Apply(s, DeliverRelease(u, p));
    forall v, q | 0 <= v < |s'.attempts| && 0 <= q < |s'.locks|
      ensures StampOk(s', v, q)
    {
      assert StampOk(s, v, q);
    }
  }

  lemma SweepKeeps(s: Lock, p: nat)
    requires Inv(s) && Enabled(s, SweepPeer(p))
    ensures Inv(Apply(s, SweepPeer(p)))
  {
    hide AttemptOk;
    var s' := Apply(s, SweepPeer(p));
    forall v, q | 0 <= v < |s'.attempts| && 0 <= q < |s'.locks|
      ensures StampOk(s', v, q)
    {
      assert StampOk(s, v, q);
    }
  }

  /** The steps a client takes on its own. */
  lemma ClientKeeps(s: Lock, step: Step, u: nat)
    requires Inv(s) && Enabled(s, step)
    requires step.VoteError? || step.Decide? || step.DropGuard? || step.StartRound? || step.RefreshError? || step.EndRound?
    requires step.uid == u
    ensures Inv(Apply(s, step))
  {
    hide Inv, AttemptOk, Saying, Complete;
    var a := Apply(s, step).attempts[u];
    AttemptIs(s, u);
    match step {
      case Decide(_) => DecidedOk(s.attempts[u], |s.locks|, s.now);
      case EndRound(_) => SettledOk(s.attempts[u], |s.locks|, s.now);
      case _ => LittleOk(s, step, u);
    }
    AttemptOnly(s, u, a);
  }

  lemma AttemptIs(s: Lock, u: nat)
    requires Inv(s) && u < |s.attempts|
    ensures AttemptOk(s.attempts[u], |s.locks|, s.now)
  {
  }

  lemma DecidedOk(a: Attempt, n: nat, now: nat)
    requires AttemptOk(a, n, now) && a.phase.Voting?
    ensures AttemptOk(Decided(a, n), n, now)
  {
  }

  lemma SettledOk(a: Attempt, n: nat, now: nat)
    requires AttemptOk(a, n, now) && a.phase.Held? && a.round.Some?
    ensures AttemptOk(Settled(a, n), n, now)
  {
  }

  /** A vote or a reply that fails, a dropped guard, and a new round. */
  lemma LittleOk(s: Lock, step: Step, u: nat)
    requires Enabled(s, step) && (step.VoteError? || step.DropGuard? || step.StartRound? || step.RefreshError?) && step.uid == u
    requires AttemptOk(s.attempts[u], |s.locks|, s.now)
    ensures AttemptOk(Apply(s, step).attempts[u], |s.locks|, s.now)
  {
  }

  lemma StepKeeps(s: Lock, step: Step)
    requires Inv(s) && Enabled(s, step)
    ensures Inv(Apply(s, step))
  {
    match step
    case Tick => TickKeeps(s);
    case Begin(r) => BeginKeeps(s, r);
    case DeliverAcquire(u, p, heard) => AcquireKeeps(s, u, p, heard);
    case VoteError(u, p) => ClientKeeps(s, step, u);
    case Decide(u) => ClientKeeps(s, step, u);
    case DropGuard(u) => ClientKeeps(s, step, u);
    case DeliverRelease(u, p) => ReleaseKeeps(s, u, p);
    case StartRound(u) => ClientKeeps(s, step, u);
    case DeliverRefresh(u, p, heard) => RefreshKeeps(s, u, p, heard);
    case RefreshError(u, p) => ClientKeeps(s, step, u);
    case EndRound(u) => ClientKeeps(s, step, u);
    case SweepPeer(p) => SweepKeeps(s, p);
  }

  // ----- Runs

  ghost predicate Moves(s: Lock, step: Step, s': Lock) {
    Enabled(s, step) && s' == Apply(s, step)
  }

  ghost predicate Run(states: seq<Lock>, steps: seq<Step>) {
    && |states| == |steps| + 1 && Initial(states[0])
    && forall i :: 0 <= i < |steps| ==> Moves(states[i], steps[i], states[i + 1])
  }

  lemma {:induction false} RunKeeps(states: seq<Lock>, steps: seq<Step>, i: nat)
    requires Run(states, steps) && i < |states|
    ensures Inv(states[i])
  {
    if i > 0 {
      RunKeeps(states, steps, i - 1);
      assert Moves(states[i - 1], steps[i - 1], states[i]);
      StepKeeps(states[i - 1], steps[i - 1]);
    }
  }

  // ----- Mutual exclusion

  /** Two quorums of the same n peers share a peer. */
  lemma QuorumsMeet(n: nat, a: set<nat>, b: set<nat>) returns (p: nat)
    requires a <= Peers(n) && b <= Peers(n) && |a| >= Quorum(n) && |b| >= Quorum(n)
    ensures p in a && p in b
  {
    if a !! b {
      assert |a + b| == |a| + |b|;
      SubsetSize(a + b, Peers(n));
      assert false;
    }
    p :| p in a && p in b;
  }

  /** `quorum` peers stamped the guard less than `validity` ago. */
  ghost predicate FreshAt(s: Lock, u: nat, quorum: set<nat>)
    requires u < |s.attempts|
  {
    && quorum <= Peers(|s.locks|) && |quorum| >= Quorum(|s.locks|)
    && forall p :: p in quorum ==> p in s.attempts[u].stamps && Age(s.now, s.attempts[u].stamps[p]) < s.validity
  }

  /** While a peer's stamp is younger than `validity`, the peer's table names the
      guard: nothing but the guard's own release takes it away. */
  lemma FreshStampHolds(states: seq<Lock>, steps: seq<Step>, u: nat, p: nat)
    requires Run(states, steps)
    requires
      var s := states[|steps|];
      && u < |s.attempts| && Unreleased(s.attempts[u]) && p < |s.locks|
      && p in s.attempts[u].stamps && Age(s.now, s.attempts[u].stamps[p]) < s.validity
    ensures
      var s := states[|steps|];
      HeldBy(s.locks[p], s.attempts[u].resource, u)
  {
    RunKeeps(states, steps, |steps|);
    assert StampOk(states[|steps|], u, p);
  }

  /** Over every run, two unreleased guards of one resource never both have a
      quorum of stamps younger than `validity`. */
  lemma MutualExclusion(states: seq<Lock>, steps: seq<Step>, u: nat, v: nat, qu: set<nat>, qv: set<nat>)
    requires Run(states, steps) && u != v
    requires
      var s := states[|steps|];
      && u < |s.attempts| && v < |s.attempts|
      && s.attempts[u].phase.Held? && s.attempts[v].phase.Held?
      && s.attempts[u].resource == s.attempts[v].resource
    ensures !(FreshAt(states[|steps|], u, qu) && FreshAt(states[|steps|], v, qv))
  {
    var s := states[|steps|];
    if FreshAt(s, u, qu) && FreshAt(s, v, qv) {
      var p := QuorumsMeet(|s.locks|, qu, qv);
      FreshStampHolds(states, steps, u, p);
      FreshStampHolds(states, steps, v, p);
      assert false;
    }
  }

  /** The same from the holders' side: a guard whose vote, or whose last refresh
      round with a quorum of yeses, began less than `validity` ago excludes every
      other such guard. */
  lemma HolderExclusion(states: seq<Lock>, steps: seq<Step>, u: nat, v: nat)
    requires Run(states, steps) && u != v
    requires
      var s := states[|steps|];
      && u < |s.attempts| && v < |s.attempts|
      && s.attempts[u].phase.Held? && s.attempts[v].phase.Held?
      && s.attempts[u].resource == s.attempts[v].resource
    ensures
      var s := states[|steps|];
      Age(s.now, s.attempts[u].proven) >= s.validity || Age(s.now, s.attempts[v].proven) >= s.validity
  {
    var s := states[|steps|];
    RunKeeps(states, steps, |steps|);
    assert AttemptOk(s.attempts[u], |s.locks|, s.now) && AttemptOk(s.attempts[v], |s.locks|, s.now);
    MutualExclusion(states, steps, u, v, s.attempts[u].confirmed, s.attempts[v].confirmed);
  }

  // ----- Loss detection

  /** The round of u that is open in state i was already open in state m. */
  ghost predicate SameRound(states: seq<Lock>, u: nat, m: nat, i: nat) {
    && m <= i < |states|
    && forall t :: m <= t <= i ==> u < |states[t].attempts| && states[t].attempts[u].round.Some?
  }

  /** A peer's answer in a round says whether its table named u when it answered. */
  lemma {:induction false} AnswerMeans(states: seq<Lock>, steps: seq<Step>, u: nat, p: nat, i: nat) returns (m: nat)
    requires Run(states, steps) && i < |states| && u < |states[i].attempts| && states[i].attempts[u].round.Some?
    requires p in states[i].attempts[u].round.value.replies && states[i].attempts[u].round.value.replies[p].Some?
    ensures m < i && SameRound(states, u, m, i) && p < |states[m].locks|
    ensures states[i].attempts[u].round.value.replies[p]
         == Some(HeldBy(states[m].locks[p], states[m].attempts[u].resource, u))
  {
    assert i > 0;
    var s, step := states[i - 1], steps[i - 1];
    assert Moves(s, step, states[i]);
    AnswerStep(s, step, u, p);
    if p in s.attempts[u].round.value.replies {
      m := AnswerMeans(states, steps, u, p, i - 1);
    } else {
      m := i - 1;
    }
  }

  lemma AnswerStep(s: Lock, step: Step, u: nat, p: nat)
    requires Enabled(s, step) && u < |Apply(s, step).attempts| && Apply(s, step).attempts[u].round.Some?
    requires p in Apply(s, step).attempts[u].round.value.replies
    ensures u < |s.attempts| && s.attempts[u].round.Some?
    ensures
      var reply, replies := Apply(s, step).attempts[u].round.value.replies[p], s.attempts[u].round.value.replies;
      if p in replies then reply == replies[p]
      else p < |s.locks| && (reply.Some? ==> reply.value == HeldBy(s.locks[p], s.attempts[u].resource, u))
  {
  }

  /** The last step ends a refresh round of u that every peer answered. */
  ghost predicate RoundAnswered(states: seq<Lock>, steps: seq<Step>, u: nat) {
    && Run(states, steps) && steps != [] && steps[|steps| - 1] == EndRound(u)
    && var s := states[|steps| - 1];
    && u < |s.attempts| && s.attempts[u].round.Some?
    && forall p :: p in s.attempts[u].round.value.replies ==> s.attempts[u].round.value.replies[p].Some?
  }

  lemma YesOrNo(reply: Option<bool>)
    requires reply.Some?
    ensures reply == Some(true) || reply == Some(false)
  {
    if reply.value {
      assert reply == Some(true);
    } else {
      assert reply == Some(false);
    }
  }

  lemma AnswersSplit(replies: map<nat, Option<bool>>, n: nat)
    requires Complete(replies, n) && forall p :: p in replies ==> replies[p].Some?
    ensures Saying(replies, Some(true)) <= Peers(n) && Saying(replies, Some(false)) <= Peers(n)
    ensures |Saying(replies, Some(true))| + |Saying(replies, Some(false))| == n
  {
    var yes, no := Saying(replies, Some(true)), Saying(replies, Some(false));
    forall p | p in replies
      ensures p in yes || p in no
    {
      YesOrNo(replies[p]);
    }
    assert yes !! no && yes + no == replies.Keys;
  }

  /** A guard whose uid a quorum of peers did not know at any moment of a fully
      answered refresh round is marked lost when the round ends. */
  lemma LossDetected(states: seq<Lock>, steps: seq<Step>, u: nat, q: set<nat>)
    requires RoundAnswered(states, steps, u)
    requires
      var j := |steps| - 1;
      && q <= Peers(|states[j].locks|) && |q| >= Quorum(|states[j].locks|)
      && forall t: nat, p :: p in q && SameRound(states, u, t, j) && p < |states[t].locks| ==>
           !HeldBy(states[t].locks[p], states[t].attempts[u].resource, u)
    ensures u < |states[|steps|].attempts| && states[|steps|].attempts[u].phase.Lost?
  {
    var j := |steps| - 1;
    var s := states[j];
    assert Moves(s, steps[j], states[|steps|]);
    var replies := s.attempts[u].round.value.replies;
    forall p | p in q
      ensures p in Saying(replies, Some(false))
    {
      var m := AnswerMeans(states, steps, u, p, j);
    }
    AnswersSplit(replies, |s.locks|);
    SubsetSize(q, Saying(replies, Some(false)));
  }

  /** A fully answered round that leaves the guard unmarked had a quorum of peers
      whose tables named the uid when they answered. */
  lemma UnmarkedMeansHeld(states: seq<Lock>, steps: seq<Step>, u: nat) returns (q: set<nat>)
    requires RoundAnswered(states, steps, u)
    requires u < |states[|steps|].attempts| && !states[|steps|].attempts[u].phase.Lost?
    ensures
      var j := |steps| - 1;
      && q <= Peers(|states[j].locks|) && |q| >= Quorum(|states[j].locks|)
      && forall p :: p in q ==> HeldDuring(states, u, p, j)
  {
    var j := |steps| - 1;
    var s := states[j];
    assert Moves(s, steps[j], states[|steps|]);
    var replies := s.attempts[u].round.value.replies;
    AnswersSplit(replies, |s.locks|);
    q := Saying(replies, Some(true));
    forall p | p in q
      ensures HeldDuring(states, u, p, j)
    {
      var m := AnswerMeans(states, steps, u, p, j);
    }
  }

  /** A guard is marked lost only if half of the peers, at least, were asked at a
      moment of the round at which their table did not name it. */
  lemma LostMeansUnknown(states: seq<Lock>, steps: seq<Step>, u: nat) returns (q: set<nat>)
    requires Run(states, steps) && steps != [] && steps[|steps| - 1] == EndRound(u)
    requires u < |states[|steps|].attempts| && states[|steps|].attempts[u].phase.Lost?
    ensures
      var j := |steps| - 1;
      && q <= Peers(|states[j].locks|) && 2 * |q| >= |states[j].locks|
      && forall p :: p in q ==> UnknownDuring(states, u, p, j)
  {
    var j := |steps| - 1;
    var s := states[j];
    assert Moves(s, steps[j], states[|steps|]);
    q := Saying(s.attempts[u].round.value.replies, Some(false));
    forall p | p in q
      ensures p in Peers(|s.locks|) && UnknownDuring(states, u, p, j)
    {
      var m := AnswerMeans(states, steps, u, p, j);
    }
  }

  ghost predicate UnknownDuring(states: seq<Lock>, u: nat, p: nat, j: nat) {
    exists m: nat :: SameRound(states, u, m, j) && p < |states[m].locks|
             && !HeldBy(states[m].locks[p], states[m].attempts[u].resource, u)
  }

  ghost predicate HeldDuring(states: seq<Lock>, u: nat, p: nat, j: nat) {
    exists m: nat :: SameRound(states, u, m, j) && p < |states[m].locks|
             && HeldBy(states[m].locks[p], states[m].attempts[u].resource, u)
  }

  // ----- Tallies

  /** What the peers answered, by peer. */
  function ByPeer(results: seq<Option<bool>>): map<nat, Option<bool>> {
    map p: nat | p < |results| :: results[p]
  }

  lemma SayingSnoc(results: seq<Option<bool>>, r: Option<bool>, answer: Option<bool>)
    ensures Saying(ByPeer(results + [r]), answer)
         == Saying(ByPeer(results), answer) + (if r == answer then {|results|} else {})
    ensures |results| !in Saying(ByPeer(results), answer)
  {
    var more := ByPeer(results + [r]);
    assert forall p: nat :: p in more <==> p < |results| + 1;
    assert forall p: nat :: p < |results| ==> more[p] == results[p];
    assert more[|results|] == r;
  }

  /** The end of an acquire fan-out: the peers that granted, in order, and whether
      they make the guard held. */
  method TallyVotes(results: seq<Option<bool>>) returns (granted: seq<nat>, held: bool)
    ensures |granted| == |Saying(ByPeer(results), Some(true))|
    ensures forall p: nat :: p in granted <==> p in Saying(ByPeer(results), Some(true))
    ensures held <==> |Saying(ByPeer(results), Some(true))| >= Quorum(|results|)
    ensures held <==> 2 * |granted| > |results|
  {
    granted := [];
    for i := 0 to |results|
      invariant |granted| == |Saying(ByPeer(results[..i]), Some(true))|
      invariant forall p: nat :: p in granted <==> p in Saying(ByPeer(results[..i]), Some(true))
    {
      hide Saying, ByPeer;
      assert results[..i + 1] == results[..i] + [results[i]];
      SayingSnoc(results[..i], results[i], Some(true));
      if results[i] == Some(true) {
        granted := granted + [i];
      }
    }
    assert results[..|results|] == results;
    held := |granted| >= |results| / 2 + 1;
  }

  /** The end of a refresh round: how many peers did not know the uid, and whether
      that loses the lock. */
  method TallyRefreshes(results: seq<Option<bool>>) returns (notFound: nat, lost: bool)
    ensures notFound == |Saying(ByPeer(results), Some(false))|
    ensures lost <==> |Saying(ByPeer(results), Some(false))| > |results| - Quorum(|results|)
    ensures lost <==> 2 * notFound >= |results|
  {
    notFound := 0;
    for i := 0 to |results|
      invariant notFound == |Saying(ByPeer(results[..i]), Some(false))|
    {
      hide Saying, ByPeer;
      assert results[..i + 1] == results[..i] + [results[i]];
      SayingSnoc(results[..i], results[i], Some(false));
      if results[i] == Some(false) {
        notFound := notFound + 1;
      }
    }
    assert results[..|results|] == results;
    lost := notFound > |results| - (|results| / 2 + 1);
  }
}
