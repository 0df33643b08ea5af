/** Bootstrap over whole runs: nodes poll disk by disk, crash and restart, disks
    are unreachable at times, and the seed's writes to other nodes' disks arrive
    late or never (crates/openlake_storage/src/format.rs:33-150). Node 0 is the
    seed; one seed process runs at a time. */
module FormatRun {
  import opened Bytes
  import opened Consensus
  import opened Format

  datatype Phase = Down | Polling | Writing(id: Id, next: nat) | Up(id: Id) | Refused(error: FormatError)

  /** A node visits each disk once, in its own order, its `locals` own disks first. */
  datatype Node = Node(order: seq<nat>, locals: nat, polled: seq<Read>, phase: Phase)

  /** `sent` are the unanswered writes to other nodes' disks, which may still arrive;
      an answered write is on its disk. */
  datatype Cluster = Cluster(disks: seq<Option<Id>>, sent: set<(nat, Id)>, nodes: seq<Node>)

  datatype Step =
    | Start(node: nat)
    | Crash(node: nat)
    | ReadDisk(node: nat, reachable: bool)
    | Decide(node: nat, outcome: Outcome, newId: Id)
    | WriteLocal(ok: bool)
    | SendPeer(ok: bool)
    | Arrive(disk: nat, id: Id)

  ghost predicate NodeShape(s: Cluster, k: nat)
    requires k < |s.nodes|
  {
    var n := s.nodes[k];
    && |n.order| == |s.disks| && |n.polled| <= |s.disks|
    && (forall i :: 0 <= i < |n.order| ==> n.order[i] < |s.disks|)
    && (forall i, j :: 0 <= i < j < |n.order| ==> n.order[i] != n.order[j])
  }

  /** The seed has a disk of its own; others never write. */
  ghost predicate Shape(s: Cluster) {
    && |s.nodes| > 0 && |s.disks| > 0
    && (forall k :: 0 <= k < |s.nodes| ==> NodeShape(s, k))
    && s.nodes[0].locals > 0
    && (s.nodes[0].phase.Writing? ==> s.nodes[0].phase.next <= |s.disks|)
    && (forall k :: 1 <= k < |s.nodes| ==> !s.nodes[k].phase.Writing?)
  }

  ghost predicate Enabled(s: Cluster, step: Step)
    requires Shape(s)
  {
    var seed := s.nodes[0];
    match step
    case Start(k) => k < |s.nodes| && !s.nodes[k].phase.Writing?
    case Crash(k) => k < |s.nodes|
    case ReadDisk(k, _) => k < |s.nodes| && s.nodes[k].phase.Polling? && |s.nodes[k].polled| < |s.disks|
    case Decide(k, o, _) =>
      && k < |s.nodes| && s.nodes[k].phase.Polling? && |s.nodes[k].polled| == |s.disks|
      && Decides(s.nodes[k].polled, s.nodes[k].locals, k == 0, o)
    case WriteLocal(_) => seed.phase.Writing? && seed.phase.next < seed.locals && seed.phase.next < |s.disks|
    case SendPeer(_) => seed.phase.Writing? && seed.locals <= seed.phase.next < |s.disks|
    case Arrive(d, id) => (d, id) in s.sent && d < |s.disks|
  }

  function WithNode(s: Cluster, k: nat, n: Node): Cluster
    requires k < |s.nodes|
  {
    s.(nodes := s.nodes[k := n])
  }

  function SeeDisk(s: Cluster, d: nat, reachable: bool): Read
    requires d < |s.disks|
  {
    if !reachable then Unreachable else if s.disks[d].Some? then Formatted(s.disks[d].value) else Empty
  }

  function AfterDecision(n: Node, o: Outcome, newId: Id): Node {
    match o
    case Mint => n.(phase := Writing(newId, 0))
    case Boot(id) => n.(phase := Up(id))
    case Refuse(e) => n.(phase := Refused(e))
    case Wait => n.(polled := [])
  }

  /** The seed after one more write; it is up once all are out. */
  function Advanced(n: Node, disks: nat): Node
    requires n.phase.Writing?
  {
    if n.phase.next + 1 >= disks then n.(phase := Up(n.phase.id)) else n.(phase := Writing(n.phase.id, n.phase.next + 1))
  }

  ghost function Apply(s: Cluster, step: Step): Cluster
    requires Shape(s) && Enabled(s, step)
  {
    var seed := s.nodes[0];
    match step
    case Start(k) => WithNode(s, k, s.nodes[k].(phase := Polling, polled := []))
    case Crash(k) => WithNode(s, k, s.nodes[k].(phase := Down, polled := []))
    case ReadDisk(k, reachable) =>
      var n := s.nodes[k];
      assert NodeShape(s, k);
      WithNode(s, k, n.(polled := n.polled + [SeeDisk(s, n.order[|n.polled|], reachable)]))
    case Decide(k, o, newId) => WithNode(s, k, AfterDecision(s.nodes[k], o, newId))
    case WriteLocal(ok) =>
      assert NodeShape(s, 0);
      if ok then WithNode(s, 0, Advanced(seed, |s.disks|)).(disks := s.disks[seed.order[seed.phase.next] := Some(seed.phase.id)])
      else WithNode(s, 0, seed.(phase := Down))
    case SendPeer(ok) =>
      assert NodeShape(s, 0);
      if ok then WithNode(s, 0, Advanced(seed, |s.disks|)).(disks := s.disks[seed.order[seed.phase.next] := Some(seed.phase.id)])
      else WithNode(s, 0, seed.(phase := Down)).(sent := s.sent + {(seed.order[seed.phase.next], seed.phase.id)})
    case Arrive(d, id) => s.(disks := s.disks[d := Some(id)])
  }

  // ----- The invariant

  /** The disk the seed writes first. */
  function First(s: Cluster): nat
    requires |s.nodes| > 0 && |s.nodes[0].order| > 0
  {
    s.nodes[0].order[0]
  }

  /** What the seed's first disk says holds everywhere: while it is empty all disks
      are and no write is on its way; once it carries an id, no disk and no write
      carries another. */
  ghost predicate OneId(s: Cluster)
    requires Shape(s)
  {
    assert NodeShape(s, 0);
    match s.disks[First(s)]
    case None => s.sent == {} && forall d :: 0 <= d < |s.disks| ==> s.disks[d].None?
    case Some(id) =>
      && (forall d :: 0 <= d < |s.disks| && s.disks[d].Some? ==> s.disks[d].value == id)
      && (forall w :: w in s.sent ==> w.1 == id && w.0 != First(s))
  }

  /** What node k knows is true of the seed's first disk. */
  ghost predicate NodeOk(s: Cluster, k: nat)
    requires Shape(s) && k < |s.nodes|
  {
    assert NodeShape(s, 0);
    var n, f := s.nodes[k], s.disks[First(s)];
    && (forall i :: 0 <= i < |n.polled| && n.polled[i].Formatted? ==> f == Some(n.polled[i].id))
    && (n.phase.Up? ==> f == Some(n.phase.id))
    && (n.phase.Refused? ==> n.phase.error == LocalDiskMissingFormat)
  }

  /** The seed mints only while its first disk is empty. */
  ghost predicate SeedOk(s: Cluster)
    requires Shape(s)
  {
    assert NodeShape(s, 0);
    var n, f := s.nodes[0], s.disks[First(s)];
    && (n.phase.Polling? && |n.polled| > 0 && n.polled[0].Empty? ==> f == None)
    && (n.phase.Writing? ==> f == (if n.phase.next == 0 then None else Some(n.phase.id)))
  }

  ghost predicate Inv(s: Cluster) {
    && Shape(s) && OneId(s) && SeedOk(s)
    && forall k :: 0 <= k < |s.nodes| ==> NodeOk(s, k)
  }

  ghost predicate Initial(s: Cluster) {
    && Shape(s) && s.sent == {}
    && (forall d :: 0 <= d < |s.disks| ==> s.disks[d].None?)
    && forall k :: 0 <= k < |s.nodes| ==> s.nodes[k].phase.Down? && s.nodes[k].polled == []
  }

  // ----- Every step keeps it

  lemma InitialInv(s: Cluster)
    requires Initial(s)
    ensures Inv(s)
  {
    assert NodeShape(s, 0);
  }

  /** A step that changes one node and no disk or write. */
  lemma NodeOnly(s: Cluster, k: nat, n: Node)
    requires Inv(s) && k < |s.nodes|
    requires n.order == s.nodes[k].order && n.locals == s.nodes[k].locals
    requires Shape(WithNode(s, k, n)) && SeedOk(WithNode(s, k, n)) && NodeOk(WithNode(s, k, n), k)
    ensures Inv(WithNode(s, k, n))
  {
    hide SeedOk;
    var s' := WithNode(s, k, n);
    assert NodeShape(s, 0) && NodeShape(s', 0);
    forall j | 0 <= j < |s'.nodes|
      ensures NodeOk(s', j)
    {
      assert NodeOk(s, j);
    }
  }

  lemma ShapeKept(s: Cluster, k: nat, n: Node)
    requires Shape(s) && k < |s.nodes|
    requires n.order == s.nodes[k].order && n.locals == s.nodes[k].locals && |n.polled| <= |s.disks|
    requires n.phase.Writing? ==> k == 0 && n.phase.next <= |s.disks|
    ensures Shape(WithNode(s, k, n))
  {
    var s' := WithNode(s, k, n);
    forall j | 0 <= j < |s'.nodes|
      ensures NodeShape(s', j)
    {
      assert NodeShape(s, j);
    }
  }

  lemma RestartKeeps(s: Cluster, k: nat, phase: Phase)
    requires Inv(s) && k < |s.nodes| && (phase.Polling? || phase.Down?)
    ensures Inv(WithNode(s, k, s.nodes[k].(phase := phase, polled := [])))
  {
    var n := s.nodes[k].(phase := phase, polled := []);
    ShapeKept(s, k, n);
    assert NodeShape(s, 0) && NodeShape(WithNode(s, k, n), 0);
    NodeOnly(s, k, n);
  }

  /** What a node reads agrees with the seed's first disk. */
  lemma ReadKeeps(s: Cluster, k: nat, reachable: bool)
    requires Inv(s) && Enabled(s, ReadDisk(k, reachable))
    ensures Inv(Apply(s, ReadDisk(k, reachable)))
  {
    assert NodeShape(s, k) && NodeShape(s, 0) && NodeOk(s, k);
    var d := s.nodes[k].order[|s.nodes[k].polled|];
    var n := s.nodes[k].(polled := s.nodes[k].polled + [SeeDisk(s, d, reachable)]);
    ShapeKept(s, k, n);
    assert NodeShape(WithNode(s, k, n), 0);
    NodeOnly(s, k, n);
  }

  lemma BootAgrees(polled: seq<Read>, id: Id)
    requires Majority(polled, id)
    ensures exists i :: 0 <= i < |polled| && polled[i] == Formatted(id)
  {
    CountPositive(Votes(polled), id);
    var i :| 0 <= i < |polled| && Votes(polled)[i] == Some(id);
  }

  lemma {:induction false} AllAgree(polled: seq<Read>, id: Id)
    requires forall i :: 0 <= i < |polled| && polled[i].Formatted? ==> polled[i].id == id
    ensures Count(Votes(polled), id) == FormattedCount(polled)
  {
    if polled != [] {
      var n := |polled| - 1;
      assert Votes(polled)[..n] == Votes(polled[..n]);
      AllAgree(polled[..n], id);
    }
  }

  /** When all formatted disks agree, the poll cannot end in a disagreement. */
  lemma NoDisagreement(polled: seq<Read>, locals: nat, seed: bool, o: Outcome, id: Id)
    requires forall i :: 0 <= i < |polled| && polled[i].Formatted? ==> polled[i].id == id
    requires Decides(polled, locals, seed, o)
    ensures o.Boot? ==> o.id == id
    ensures o.Refuse? ==> o.error == LocalDiskMissingFormat
  {
    hide Majority;
    forall x | Majority(polled, x)
      ensures x == id
    {
      BootAgrees(polled, x);
    }
    if o.Refuse? && o.error == QuorumDisagreement {
      EnoughAgree(polled, id);
    }
  }

  lemma EnoughAgree(polled: seq<Read>, id: Id)
    requires forall i :: 0 <= i < |polled| && polled[i].Formatted? ==> polled[i].id == id
    requires FormattedCount(polled) > 0
    ensures Majority(polled, id)
  {
    AllAgree(polled, id);
  }

  lemma SomeFormatted(polled: seq<Read>)
    requires FormattedCount(polled) > 0
    ensures exists i :: 0 <= i < |polled| && polled[i].Formatted?
  {
    if forall i :: 0 <= i < |polled| ==> !polled[i].Formatted? {
      NobodyFormatted(polled);
    }
  }

  lemma {:induction false} NobodyFormatted(polled: seq<Read>)
    requires forall i :: 0 <= i < |polled| ==> !polled[i].Formatted?
    ensures FormattedCount(polled) == 0
  {
    if polled != [] {
      NobodyFormatted(polled[..|polled| - 1]);
    }
  }

  lemma DecideKeeps(s: Cluster, k: nat, o: Outcome, newId: Id)
    requires Inv(s) && Enabled(s, Decide(k, o, newId))
    ensures Inv(Apply(s, Decide(k, o, newId)))
  {
    assert NodeShape(s, 0) && NodeOk(s, k);
    var n := AfterDecision(s.nodes[k], o, newId);
    ShapeKept(s, k, n);
    assert NodeShape(WithNode(s, k, n), 0);
    DecisionAgrees(s, k, o);
    NodeOnly(s, k, n);
  }

  /** A node boots only on the id of the seed's first disk. */
  lemma DecisionAgrees(s: Cluster, k: nat, o: Outcome)
    requires Inv(s) && k < |s.nodes| && Decides(s.nodes[k].polled, s.nodes[k].locals, k == 0, o)
    ensures |s.nodes[0].order| > 0 && First(s) < |s.disks|
    ensures o.Boot? ==> s.disks[First(s)] == Some(o.id)
    ensures o.Refuse? ==> o.error == LocalDiskMissingFormat
  {
    assert NodeShape(s, 0) && NodeOk(s, k);
    var polled := s.nodes[k].polled;
    if o.Boot? || o.Refuse? {
      SomeFormatted(polled);
      var i :| 0 <= i < |polled| && polled[i].Formatted?;
      NoDisagreement(polled, s.nodes[k].locals, k == 0, o, polled[i].id);
    }
  }

  lemma WriteLocalKeeps(s: Cluster, ok: bool)
    requires Inv(s) && Enabled(s, WriteLocal(ok))
    ensures Inv(Apply(s, WriteLocal(ok)))
  {
    assert NodeShape(s, 0);
    if ok {
      LocalWritten(s);
    } else {
      var n := s.nodes[0].(phase := Down);
      ShapeKept(s, 0, n);
      assert NodeShape(WithNode(s, 0, n), 0) && NodeOk(s, 0);
      NodeOnly(s, 0, n);
    }
  }

  /** The first local write names the id; the others repeat it. */
  lemma LocalWritten(s: Cluster)
    requires Inv(s) && Enabled(s, WriteLocal(true))
    ensures Inv(Apply(s, WriteLocal(true)))
  {
    var seed, s' := s.nodes[0], Apply(s, WriteLocal(true));
    assert NodeShape(s, 0);
    ShapeKept(s, 0, Advanced(seed, |s.disks|));
    forall j | 0 <= j < |s'.nodes|
      ensures NodeShape(s', j)
    {
      assert NodeShape(s, j);
    }
    assert Shape(s') && First(s') == First(s);
    assert seed.order[seed.phase.next] == First(s) <==> seed.phase.next == 0;
    assert s'.disks[First(s)] == Some(seed.phase.id);
    assert OneId(s');
    forall j | 0 <= j < |s'.nodes|
      ensures NodeOk(s', j)
    {
      assert NodeOk(s, j);
    }
  }

  lemma SendKeeps(s: Cluster, ok: bool)
    requires Inv(s) && Enabled(s, SendPeer(ok))
    ensures Inv(Apply(s, SendPeer(ok)))
  {
    var seed, s' := s.nodes[0], Apply(s, SendPeer(ok));
    assert NodeShape(s, 0);
    ShapeKept(s, 0, s'.nodes[0]);
    forall j | 0 <= j < |s'.nodes|
      ensures NodeShape(s', j)
    {
      assert NodeShape(s, j);
    }
    assert Shape(s') && First(s') == First(s) && seed.order[seed.phase.next] != First(s);
    forall j | 0 <= j < |s'.nodes|
      ensures NodeOk(s', j)
    {
      assert NodeOk(s, j);
    }
  }

  /** A late write brings the id that is already there, to another disk. */
  lemma ArriveKeeps(s: Cluster, d: nat, id: Id)
    requires Inv(s) && Enabled(s, Arrive(d, id))
    ensures Inv(Apply(s, Arrive(d, id)))
  {
    var s' := Apply(s, Arrive(d, id));
    assert NodeShape(s, 0);
    forall j | 0 <= j < |s'.nodes|
      ensures NodeShape(s', j)
    {
      assert NodeShape(s, j);
    }
    assert Shape(s') && First(s') == First(s) && s'.disks[First(s)] == s.disks[First(s)];
    forall j | 0 <= j < |s'.nodes|
      ensures NodeOk(s', j)
    {
      assert NodeOk(s, j);
    }
  }

  lemma StepKeeps(s: Cluster, step: Step)
    requires Inv(s) && Enabled(s, step)
    ensures Inv(Apply(s, step))
  {
    hide OneId, SeedOk, NodeOk;
    match step
    case Start(k) => RestartKeeps(s, k, Polling);
    case Crash(k) => RestartKeeps(s, k, Down);
    case ReadDisk(k, reachable) => ReadKeeps(s, k, reachable);
    case Decide(k, o, newId) => DecideKeeps(s, k, o, newId);
    case WriteLocal(ok) => WriteLocalKeeps(s, ok);
    case SendPeer(ok) => SendKeeps(s, ok);
    case Arrive(d, id) => ArriveKeeps(s, d, id);
  }

  // ----- Runs

  ghost predicate Moves(s: Cluster, step: Step, s': Cluster) {
    Shape(s) && Enabled(s, step) && s' == Apply(s, step)
  }

  ghost predicate Run(states: seq<Cluster>, steps: seq<Step>) {
    && |states| == |steps| + 1 && Initial(states[0])
    && forall i :: 0 <= i < |steps| ==> Moves(states[i], steps[i], states[i + 1])
  }

  lemma {:induction false} RunKeeps(states: seq<Cluster>, steps: seq<Step>, i: nat)
    requires Run(states, steps) && i < |states|
    ensures Inv(states[i])
  {
    if i == 0 {
      InitialInv(states[0]);
    } else {
      RunKeeps(states, steps, i - 1);
      assert Moves(states[i - 1], steps[i - 1], states[i]);
      StepKeeps(states[i - 1], steps[i - 1]);
    }
  }

  /** The id on the seed's first disk, once there, stays. */
  lemma FirstStays(s: Cluster, step: Step)
    requires Inv(s) && Enabled(s, step)
    ensures Shape(Apply(s, step)) && |s.nodes[0].order| > 0 && |Apply(s, step).nodes| > 0
    ensures Apply(s, step).nodes[0].order == s.nodes[0].order && First(s) < |s.disks| == |Apply(s, step).disks|
    ensures s.disks[First(s)].Some? ==> Apply(s, step).disks[First(s)] == s.disks[First(s)]
  {
    StepKeeps(s, step);
    assert NodeShape(s, 0);
  }

  lemma {:induction false} FirstStaysOn(states: seq<Cluster>, steps: seq<Step>, i: nat, j: nat)
    requires Run(states, steps) && i <= j < |states|
    ensures Inv(states[i]) && Inv(states[j])
    ensures |states[i].nodes[0].order| > 0 && states[j].nodes[0].order == states[i].nodes[0].order
    ensures First(states[i]) < |states[i].disks| == |states[j].disks|
    ensures states[i].disks[First(states[i])].Some? ==> states[j].disks[First(states[i])] == states[i].disks[First(states[i])]
    decreases j - i
  {
    RunKeeps(states, steps, i);
    assert NodeShape(states[i], 0);
    if i < j {
      FirstStaysOn(states, steps, i, j - 1);
      assert Moves(states[j - 1], steps[j - 1], states[j]);
      FirstStays(states[j - 1], steps[j - 1]);
      RunKeeps(states, steps, j);
    }
  }

  // ----- The seed is up only after all its writes

  /** The disks the minting seed has gone past carry the id it minted. */
  ghost predicate WrittenSoFar(s: Cluster)
    requires Shape(s)
  {
    var n := s.nodes[0];
    assert NodeShape(s, 0);
    n.phase.Writing? ==> forall i :: 0 <= i < n.phase.next ==> s.disks[n.order[i]] == Some(n.phase.id)
  }

  /** A disk, once formatted, keeps its id. */
  lemma DiskStays(s: Cluster, step: Step, d: nat)
    requires Inv(s) && Enabled(s, step) && d < |s.disks| && s.disks[d].Some?
    ensures Inv(Apply(s, step)) && |Apply(s, step).disks| == |s.disks|
    ensures Apply(s, step).disks[d] == s.disks[d]
  {
    FirstStays(s, step);
    StepKeeps(s, step);
    assert NodeShape(s, 0);
  }

  lemma WrittenStep(s: Cluster, step: Step)
    requires Inv(s) && WrittenSoFar(s) && Enabled(s, step)
    ensures Inv(Apply(s, step)) && WrittenSoFar(Apply(s, step))
  {
    hide OneId, SeedOk, NodeOk;
    StepKeeps(s, step);
    var s' := Apply(s, step);
    var n, n' := s.nodes[0], s'.nodes[0];
    assert NodeShape(s, 0) && NodeShape(s', 0);
    if n'.phase.Writing? {
      forall i | 0 <= i < n'.phase.next
        ensures s'.disks[n'.order[i]] == Some(n'.phase.id)
      {
        if n.phase.Writing? && i < n.phase.next {
          DiskStays(s, step, n.order[i]);
        }
      }
    }
  }

  lemma {:induction false} WrittenRun(states: seq<Cluster>, steps: seq<Step>, i: nat)
    requires Run(states, steps) && i < |states|
    ensures Inv(states[i]) && WrittenSoFar(states[i])
  {
    hide OneId, SeedOk, NodeOk, WrittenSoFar;
    RunKeeps(states, steps, i);
    if i == 0 {
      NothingWritten(states[0]);
    } else {
      WrittenRun(states, steps, i - 1);
      assert Moves(states[i - 1], steps[i - 1], states[i]);
      WrittenStep(states[i - 1], steps[i - 1]);
    }
  }

  lemma NothingWritten(s: Cluster)
    requires Initial(s)
    ensures WrittenSoFar(s)
  {
    assert s.nodes[0].phase.Down?;
  }

  function DisksOf(order: seq<nat>): set<nat> {
    set d | d in order
  }

  ghost function FirstDisks(n: nat): (r: set<nat>)
    ensures |r| == n && forall d: nat :: d in r <==> d < n
  {
    if n == 0 then {} else FirstDisks(n - 1) + {n - 1}
  }

  lemma {:induction false} DistinctSize(order: seq<nat>)
    requires forall i, j :: 0 <= i < j < |order| ==> order[i] != order[j]
    ensures |DisksOf(order)| == |order|
  {
    if order != [] {
      var last := |order| - 1;
      DistinctSize(order[..last]);
      assert order == order[..last] + [order[last]];
      assert DisksOf(order) == DisksOf(order[..last]) + {order[last]};
    }
  }

  /** Distinct disks in as many places visit every disk. */
  lemma Visited(order: seq<nat>, d: nat) returns (i: nat)
    requires forall i :: 0 <= i < |order| ==> order[i] < |order|
    requires forall i, j :: 0 <= i < j < |order| ==> order[i] != order[j]
    requires d < |order|
    ensures i < |order| && order[i] == d
  {
    DistinctSize(order);
    if d !in order {
      SubsetSize(DisksOf(order), FirstDisks(|order|) - {d});
      assert false;
    }
    i :| 0 <= i < |order| && order[i] == d;
  }

  ghost predicate AllCarry(s: Cluster, id: Id) {
    forall d :: 0 <= d < |s.disks| ==> s.disks[d] == Some(id)
  }

  /** The write that brings the minting seed up was the last one. */
  lemma UpAfterAll(s: Cluster, step: Step)
    requires Inv(s) && WrittenSoFar(s) && Enabled(s, step)
    requires s.nodes[0].phase.Writing?
    requires Inv(Apply(s, step)) && Apply(s, step).nodes[0].phase.Up?
    ensures Apply(s, step).nodes[0].phase.id == s.nodes[0].phase.id && AllCarry(Apply(s, step), s.nodes[0].phase.id)
  {
    hide OneId, SeedOk, NodeOk;
    var n, s' := s.nodes[0], Apply(s, step);
    assert NodeShape(s, 0) && NodeShape(s', 0);
    forall d | 0 <= d < |s'.disks|
      ensures s'.disks[d] == Some(n.phase.id)
    {
      var i := Visited(n.order, d);
      if i < n.phase.next {
        DiskStays(s, step, d);
      }
    }
  }

  lemma CarryStep(s: Cluster, step: Step, id: Id)
    requires Inv(s) && Enabled(s, step) && AllCarry(s, id)
    ensures AllCarry(Apply(s, step), id)
  {
    hide OneId, SeedOk, NodeOk;
    FirstStays(s, step);
    forall d | 0 <= d < |Apply(s, step).disks|
      ensures Apply(s, step).disks[d] == Some(id)
    {
      DiskStays(s, step, d);
    }
  }

  lemma {:induction false} CarryOn(states: seq<Cluster>, steps: seq<Step>, i: nat, j: nat, id: Id)
    requires Run(states, steps) && i <= j < |states| && AllCarry(states[i], id)
    ensures AllCarry(states[j], id)
    decreases j - i
  {
    hide OneId, SeedOk, NodeOk, AllCarry;
    if i < j {
      CarryOn(states, steps, i, j - 1, id);
      RunKeeps(states, steps, j - 1);
      assert Moves(states[j - 1], steps[j - 1], states[j]);
      CarryStep(states[j - 1], steps[j - 1], id);
    }
  }

  /** A seed that is minting comes up only when every disk of the cluster, its own
      and the other nodes', carries the id it minted, and from then on they all do,
      whoever crashes. */
  lemma MintedEverywhere(states: seq<Cluster>, steps: seq<Step>, i: nat, j: nat)
    requires Run(states, steps) && i < j < |states|
    requires |states[i].nodes| > 0 && states[i].nodes[0].phase.Writing?
    requires |states[i + 1].nodes| > 0 && states[i + 1].nodes[0].phase.Up?
    ensures AllCarry(states[i + 1], states[i].nodes[0].phase.id)
    ensures AllCarry(states[j], states[i + 1].nodes[0].phase.id)
  {
    hide OneId, SeedOk, NodeOk, AllCarry, WrittenSoFar;
    WrittenRun(states, steps, i);
    assert Moves(states[i], steps[i], states[i + 1]);
    RunKeeps(states, steps, i + 1);
    UpAfterAll(states[i], steps[i]);
    CarryOn(states, steps, i + 1, j, states[i + 1].nodes[0].phase.id);
  }

  /** All formatted disks carry `id`, every node that is up returned it, and no node
      was refused because disks disagree. */
  ghost predicate DeployedAs(s: Cluster, id: Id) {
    && (forall d :: 0 <= d < |s.disks| && s.disks[d].Some? ==> s.disks[d].value == id)
    && (forall k :: 0 <= k < |s.nodes| && s.nodes[k].phase.Up? ==> s.nodes[k].phase.id == id)
    && (forall k :: 0 <= k < |s.nodes| && s.nodes[k].phase.Refused? ==> s.nodes[k].phase.error == LocalDiskMissingFormat)
  }

  lemma DeployedAsFirst(s: Cluster, id: Id)
    requires Inv(s) && |s.nodes[0].order| > 0 && First(s) < |s.disks|
    requires s.disks[First(s)].Some? ==> s.disks[First(s)].value == id
    ensures DeployedAs(s, id)
  {
    assert NodeShape(s, 0);
    forall k | 0 <= k < |s.nodes|
      ensures s.nodes[k].phase.Up? ==> s.nodes[k].phase.id == id
      ensures s.nodes[k].phase.Refused? ==> s.nodes[k].phase.error == LocalDiskMissingFormat
    {
      assert NodeOk(s, k);
    }
  }

  /** One deployment id ever: over every run, with crashes and restarts of any node
      at any moment, unreachable disks and writes that arrive late, there is one id
      that all formatted disks carry and all booted nodes returned, in every state
      of the run. */
  lemma OneDeploymentId(states: seq<Cluster>, steps: seq<Step>) returns (id: Id)
    requires Run(states, steps)
    ensures forall i :: 0 <= i < |states| ==> DeployedAs(states[i], id)
  {
    var last := states[|steps|];
    FirstStaysOn(states, steps, |steps|, |steps|);
    id := if last.disks[First(last)].Some? then last.disks[First(last)].value else 0;
    forall i | 0 <= i < |states|
      ensures DeployedAs(states[i], id)
    {
      FirstStaysOn(states, steps, i, |steps|);
      DeployedAsFirst(states[i], id);
    }
  }

  // ----- A node boots on a majority

  /** What node k has read of a formatted disk is on that disk. */
  ghost predicate SeenOk(s: Cluster, k: nat)
    requires Shape(s) && k < |s.nodes|
  {
    var n := s.nodes[k];
    assert NodeShape(s, k);
    forall i :: 0 <= i < |n.polled| && n.polled[i].Formatted? ==> s.disks[n.order[i]] == Some(n.polled[i].id)
  }

  lemma SeenStep(s: Cluster, step: Step, k: nat)
    requires Inv(s) && Enabled(s, step) && k < |s.nodes| && SeenOk(s, k)
    ensures Inv(Apply(s, step)) && k < |Apply(s, step).nodes| && SeenOk(Apply(s, step), k)
  {
    hide OneId, SeedOk, NodeOk;
    StepKeeps(s, step);
    FirstStays(s, step);
    var s' := Apply(s, step);
    var n, n' := s.nodes[k], s'.nodes[k];
    assert NodeShape(s, k) && NodeShape(s', k);
    forall i | 0 <= i < |n'.polled| && n'.polled[i].Formatted?
      ensures s'.disks[n'.order[i]] == Some(n'.polled[i].id)
    {
      if i < |n.polled| {
        DiskStays(s, step, n.order[i]);
      }
    }
  }

  lemma {:induction false} SeenRun(states: seq<Cluster>, steps: seq<Step>, i: nat, k: nat)
    requires Run(states, steps) && i < |states| && k < |states[i].nodes|
    ensures Inv(states[i]) && SeenOk(states[i], k)
  {
    hide OneId, SeedOk, NodeOk;
    RunKeeps(states, steps, i);
    if i > 0 {
      assert Moves(states[i - 1], steps[i - 1], states[i]);
      SeenRun(states, steps, i - 1, k);
      SeenStep(states[i - 1], steps[i - 1], k);
    }
  }

  /** The disks of the cluster that carry the id. */
  ghost function Bearing(s: Cluster, id: Id): set<nat> {
    set d: nat | d < |s.disks| && s.disks[d] == Some(id)
  }

  /** Distinct positions name distinct disks. */
  lemma {:induction false} DistinctDisks(order: seq<nat>, at: set<nat>, disks: set<nat>)
    requires forall i, j :: 0 <= i < j < |order| ==> order[i] != order[j]
    requires forall i :: i in at ==> i < |order| && order[i] in disks
    ensures |at| <= |disks|
  {
    if at != {} {
      var x :| x in at;
      DistinctDisks(order, at - {x}, disks - {order[x]});
    }
  }

  lemma {:induction false} BearingStays(states: seq<Cluster>, steps: seq<Step>, i: nat, j: nat, id: Id)
    requires Run(states, steps) && i <= j < |states|
    ensures Bearing(states[i], id) <= Bearing(states[j], id) && |states[j].disks| == |states[i].disks|
    decreases j - i
  {
    hide OneId, SeedOk, NodeOk;
    if i < j {
      BearingStays(states, steps, i, j - 1, id);
      RunKeeps(states, steps, j - 1);
      assert Moves(states[j - 1], steps[j - 1], states[j]);
      FirstStays(states[j - 1], steps[j - 1]);
      forall d | d in Bearing(states[j - 1], id)
        ensures d in Bearing(states[j], id)
      {
        DiskStays(states[j - 1], steps[j - 1], d);
      }
    }
  }

  /** Over every run a decision is to boot iff more than half of the disks were read
      as formatted and none of the node's own as empty, and to refuse iff one of them
      was; it is to mint iff this is the seed and all disks were read as empty, and
      else to poll again. */
  lemma DecisionIff(states: seq<Cluster>, steps: seq<Step>, i: nat)
    requires Run(states, steps) && i < |steps| && steps[i].Decide? && steps[i].node < |states[i].nodes|
    ensures
      var k, o := steps[i].node, steps[i].outcome;
      var n := states[i].nodes[k];
      && (o.Mint? <==> k == 0 && forall p :: 0 <= p < |n.polled| ==> n.polled[p].Empty?)
      && (o.Boot? <==> MostFormatted(n.polled) && NoLocalEmpty(n.polled, n.locals))
      && (o.Refuse? <==> MostFormatted(n.polled) && !NoLocalEmpty(n.polled, n.locals))
      && (o.Wait? <==> !o.Mint? && !MostFormatted(n.polled))
  {
    hide OneId, SeedOk, NodeOk, MostFormatted, NoLocalEmpty, MostCarry, Majority, Decides;
    var k, o := steps[i].node, steps[i].outcome;
    RunKeeps(states, steps, i);
    assert Moves(states[i], steps[i], states[i + 1]);
    DecisionAgrees(states[i], k, o);
    DecidesIff(states[i].nodes[k].polled, states[i].nodes[k].locals, k == 0, o);
  }

  /** A node boots only on an id that more than half of the disks of the cluster
      carry, then and ever after. */
  lemma BootedOnMost(states: seq<Cluster>, steps: seq<Step>, i: nat, j: nat)
    requires Run(states, steps) && i < |steps| && i <= j < |states|
    requires steps[i].Decide? && steps[i].outcome.Boot?
    ensures 2 * |Bearing(states[j], steps[i].outcome.id)| > |states[j].disks|
  {
    hide OneId, SeedOk, NodeOk, Majority, Decides, MostCarry;
    var k, id := steps[i].node, steps[i].outcome.id;
    var s := states[i];
    assert Moves(s, steps[i], states[i + 1]);
    SeenRun(states, steps, i, k);
    var n := s.nodes[k];
    assert NodeShape(s, k);
    DecidesIff(n.polled, n.locals, k == 0, Boot(id));
    AllBear(s, k, id);
    DistinctDisks(n.order, FormattedDisks(n.polled), Bearing(s, id));
    BearingStays(states, steps, i, j, id);
    SubsetSize(Bearing(s, id), Bearing(states[j], id));
  }

  /** Every formatted disk a booting node has read carries the id it boots on. */
  lemma AllBear(s: Cluster, k: nat, id: Id)
    requires Inv(s) && k < |s.nodes| && SeenOk(s, k)
    requires Decides(s.nodes[k].polled, s.nodes[k].locals, k == 0, Boot(id))
    ensures |s.nodes[k].polled| <= |s.nodes[k].order|
    ensures forall i :: i in FormattedDisks(s.nodes[k].polled) ==> s.nodes[k].order[i] in Bearing(s, id)
  {
    hide Majority, Decides;
    DecisionAgrees(s, k, Boot(id));
    assert NodeShape(s, k) && NodeShape(s, 0) && NodeOk(s, k);
  }

  // ----- Bringing a cluster up

  /** A run from s that ends in t. */
  ghost predicate Brings(states: seq<Cluster>, steps: seq<Step>, s: Cluster, t: Cluster) {
    Run(states, steps) && states[0] == s && states[|steps|] == t
  }

  ghost predicate Reached(s: Cluster, t: Cluster) {
    exists states, steps :: Brings(states, steps, s, t)
  }

  lemma ReachedInv(s: Cluster, t: Cluster)
    requires Reached(s, t)
    ensures Inv(t)
  {
    var states, steps :| Brings(states, steps, s, t);
    RunKeeps(states, steps, |steps|);
  }

  lemma OneMore(s: Cluster, t: Cluster, step: Step)
    requires Reached(s, t) && Shape(t) && Enabled(t, step)
    ensures Reached(s, Apply(t, step))
  {
    hide Shape, Enabled, Apply, Initial;
    var states, steps :| Brings(states, steps, s, t);
    var states', steps' := states + [Apply(t, step)], steps + [step];
    forall i | 0 <= i < |steps'|
      ensures Moves(states'[i], steps'[i], states'[i + 1])
    {
      if i < |steps| {
        assert Moves(states[i], steps[i], states[i + 1]);
      }
    }
    assert Brings(states', steps', s, Apply(t, step));
  }

  function AllRead(n: nat, v: Read): (polled: seq<Read>)
    ensures |polled| == n && forall i :: 0 <= i < n ==> polled[i] == v
  {
    seq(n, _ => v)
  }

  /** Node k starts and reads every disk, when all disks say v. */
  lemma PollsAll(s: Cluster, t: Cluster, k: nat, v: Read) returns (t': Cluster)
    requires Reached(s, t) && k < |t.nodes| && !t.nodes[k].phase.Writing?
    requires forall d :: 0 <= d < |t.disks| ==> SeeDisk(t, d, true) == v
    ensures t' == WithNode(t, k, t.nodes[k].(phase := Polling, polled := AllRead(|t.disks|, v)))
    ensures Reached(s, t') && Shape(t')
  {
    hide Reached, Inv;
    ReachedShape(s, t);
    OneMore(s, t, Start(k));
    t' := Apply(t, Start(k));
    var m := 0;
    assert t' == WithNode(t, k, t.nodes[k].(phase := Polling, polled := AllRead(0, v)));
    ReachedShape(s, t');
    while m < |t.disks|
      invariant m <= |t.disks| && Reached(s, t') && Shape(t')
      invariant t' == WithNode(t, k, t.nodes[k].(phase := Polling, polled := AllRead(m, v)))
    {
      t' := ReadsOne(s, t, t', k, v, m);
      m := m + 1;
    }
  }

  lemma ReachedShape(s: Cluster, t: Cluster)
    requires Reached(s, t)
    ensures Shape(t)
  {
    hide Shape, OneId, SeedOk, NodeOk;
    ReachedInv(s, t);
  }

  lemma ReadsOne(s: Cluster, t: Cluster, u: Cluster, k: nat, v: Read, m: nat) returns (u': Cluster)
    requires Reached(s, u) && Shape(u) && k < |t.nodes| && m < |t.disks|
    requires forall d :: 0 <= d < |t.disks| ==> SeeDisk(t, d, true) == v
    requires u == WithNode(t, k, t.nodes[k].(phase := Polling, polled := AllRead(m, v)))
    ensures u' == WithNode(t, k, t.nodes[k].(phase := Polling, polled := AllRead(m + 1, v)))
    ensures Reached(s, u') && Shape(u')
  {
    hide Reached;
    assert NodeShape(u, k);
    OneMore(s, u, ReadDisk(k, true));
    u' := Apply(u, ReadDisk(k, true));
    ReachedShape(s, u');
    var d := u.nodes[k].order[m];
    assert SeeDisk(u, d, true) == SeeDisk(t, d, true) == v;
    assert AllRead(m, v) + [v] == AllRead(m + 1, v);
  }

  lemma BootsOn(n: nat, id: Id, locals: nat, seed: bool)
    requires n > 0
    ensures Decides(AllRead(n, Formatted(id)), locals, seed, Boot(id))
  {
    var polled := AllRead(n, Formatted(id));
    FormattedSize(polled);
    assert FormattedDisks(polled) == FirstDisks(n);
    EnoughAgree(polled, id);
  }

  /** The minting seed writes to every disk it has not written to yet. */
  lemma {:induction false} WritesAll(s: Cluster, t: Cluster, id: Id) returns (t': Cluster)
    requires Reached(s, t) && Shape(t) && t.nodes[0].phase.Writing? && t.nodes[0].phase.id == id
    requires t.nodes[0].phase.next < |t.disks|
    ensures Reached(s, t') && AllCarry(t', id) && |t'.nodes| == |t.nodes|
    ensures t'.nodes[0].phase == Up(id) && forall k :: 1 <= k < |t'.nodes| ==> t'.nodes[k] == t.nodes[k]
    decreases |t.disks| - t.nodes[0].phase.next
  {
    hide Reached, AllCarry;
    var seed := t.nodes[0];
    assert NodeShape(t, 0);
    var step := if seed.phase.next < seed.locals then WriteLocal(true) else SendPeer(true);
    OneMore(s, t, step);
    t' := Apply(t, step);
    ReachedShape(s, t');
    if t'.nodes[0].phase.Writing? {
      t' := WritesAll(s, t', id);
    } else {
      UpCarries(s, t, step);
    }
  }

  lemma UpCarries(s: Cluster, t: Cluster, step: Step)
    requires Reached(s, t) && Shape(t) && Enabled(t, step) && t.nodes[0].phase.Writing?
    requires |Apply(t, step).nodes| > 0 && Apply(t, step).nodes[0].phase.Up?
    ensures AllCarry(Apply(t, step), t.nodes[0].phase.id)
  {
    hide Shape, Enabled, Apply, Initial, AllCarry, OneId, SeedOk, NodeOk;
    var states, steps :| Brings(states, steps, s, t);
    WrittenRun(states, steps, |steps|);
    StepKeeps(t, step);
    UpAfterAll(t, step);
  }

  ghost predicate AllUp(t: Cluster, id: Id, upto: nat) {
    && upto <= |t.nodes| && (forall k :: 0 <= k < upto ==> t.nodes[k].phase == Up(id))
    && forall k :: upto <= k < |t.nodes| ==> t.nodes[k].phase.Down?
  }

  /** Node k comes up, when every disk carries the id. */
  lemma ComesUp(s: Cluster, t: Cluster, id: Id, k: nat) returns (t': Cluster)
    requires Reached(s, t) && AllCarry(t, id) && AllUp(t, id, k) && k < |t.nodes| && |t.disks| > 0
    ensures Reached(s, t') && AllCarry(t', id) && AllUp(t', id, k + 1) && |t'.nodes| == |t.nodes| && t'.disks == t.disks
  {
    hide Reached;
    t' := PollsAll(s, t, k, Formatted(id));
    var n := t'.nodes[k];
    BootsOn(|t.disks|, id, n.locals, k == 0);
    OneMore(s, t', Decide(k, Boot(id), 0));
    t' := Apply(t', Decide(k, Boot(id), 0));
  }

  lemma SeedComesUp(s: Cluster, id: Id) returns (t: Cluster)
    requires Initial(s)
    ensures Reached(s, t) && AllCarry(t, id) && AllUp(t, id, 1) && |t.nodes| == |s.nodes|
  {
    hide Reached, AllCarry;
    StartsThere(s);
    var u := PollsAll(s, s, 0, Empty);
    OneMore(s, u, Decide(0, Mint, id));
    var w := Apply(u, Decide(0, Mint, id));
    ReachedShape(s, w);
    t := WritesAll(s, w, id);
  }

  lemma StartsThere(s: Cluster)
    requires Initial(s)
    ensures Reached(s, s)
  {
    hide Initial;
    assert Brings([s], [], s, s);
  }

  /** Every fresh cluster can come up as a whole: whatever its nodes, disks and the
      orders they are visited in, and whatever id the seed draws, there is a run
      after which all disks carry that id and all nodes are up on it. */
  lemma CanComeUp(s: Cluster, id: Id) returns (t: Cluster)
    requires Initial(s)
    ensures Reached(s, t) && AllCarry(t, id) && |t.nodes| == |s.nodes|
    ensures forall k :: 0 <= k < |t.nodes| ==> t.nodes[k].phase == Up(id)
  {
    hide Reached, AllCarry, Initial;
    t := SeedComesUp(s, id);
    var k := 1;
    ReachedShape(s, t);
    while k < |t.nodes|
      invariant 1 <= k <= |t.nodes| == |s.nodes| && |t.disks| > 0
      invariant Reached(s, t) && AllCarry(t, id) && AllUp(t, id, k)
    {
      t := ComesUp(s, t, id, k);
      k := k + 1;
    }
  }
}
