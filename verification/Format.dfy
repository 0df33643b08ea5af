/** Cluster-format bootstrap: nodes poll all disks, the seed mints a deployment id
    when all are empty and writes it to its own disks first, and everyone else
    boots on the id a quorum of disks carries
    (crates/openlake_storage/src/format.rs:33-170). */
module Format {
  import opened Bytes
  import opened Consensus

  type Id = nat

  /** What reading one disk's format gives: nothing if the disk cannot be reached,
      else the id it carries, if any. */
  datatype Read = Unreachable | Empty | Formatted(id: Id)

  datatype FormatError = QuorumDisagreement | LocalDiskMissingFormat | LocalDiskWrongDeploymentId

  /** What a node does after a poll. */
  datatype Outcome = Mint | Boot(id: Id) | Refuse(error: FormatError) | Wait

  function Votes(polled: seq<Read>): (v: seq<Option<Id>>)
    ensures |v| == |polled| && forall i :: 0 <= i < |v| ==> v[i] == (if polled[i].Formatted? then Some(polled[i].id) else None)
  {
    seq(|polled|, i requires 0 <= i < |polled| => if polled[i].Formatted? then Some(polled[i].id) else None)
  }

  function FormattedCount(polled: seq<Read>): (n: nat)
    ensures n <= |polled|
  {
    if polled == [] then 0
    else FormattedCount(polled[..|polled| - 1]) + (if polled[|polled| - 1].Formatted? then 1 else 0)
  }

  ghost predicate Majority(polled: seq<Read>, id: Id) {
    Count(Votes(polled), id) >= FormattedCount(polled) / 2 + 1
  }

  ghost predicate NoMajority(polled: seq<Read>) {
    forall id: Id {:trigger Majority(polled, id)} :: !Majority(polled, id)
  }

  method CountFormatted(polled: seq<Read>) returns (n: nat)
    ensures n == FormattedCount(polled)
  {
    n := 0;
    for i := 0 to |polled|
      invariant n == FormattedCount(polled[..i])
    {
      assert polled[..i + 1][..i] == polled[..i];
      if polled[i].Formatted? {
        n := n + 1;
      }
    }
    assert polled[..|polled|] == polled;
  }

  /** The id that more than half of the formatted disks carry, if there is one. */
  method VoteMajority(polled: seq<Read>) returns (r: Option<Id>)
    ensures r.Some? ==> Majority(polled, r.value)
    ensures r.None? ==> NoMajority(polled)
  {
    var counts: map<Id, nat> := Tally<Id>(Votes(polled));
    var formatted := CountFormatted(polled);
    var todo: set<Id> := counts.Keys;
    while todo != {}
      invariant todo <= counts.Keys
      invariant forall id: Id :: id in counts && id !in todo ==> !Majority(polled, id)
      decreases |todo|
    {
      var id: Id :| id in todo;
      if counts[id] >= formatted / 2 + 1 {
        return Some(id);
      }
      todo := todo - {id};
    }
    return None;
  }

  /** What the poll loop makes of one round of reads, the node's own disks first. */
  ghost predicate Decides(polled: seq<Read>, locals: nat, seed: bool, o: Outcome) {
    var enough := FormattedCount(polled) >= |polled| / 2 + 1;
    match o
    case Mint => seed && forall i :: 0 <= i < |polled| ==> polled[i].Empty?
    case Boot(id) =>
      && enough && Majority(polled, id)
      && forall i :: 0 <= i < |polled| && i < locals ==> !polled[i].Empty? && (polled[i].Formatted? ==> polled[i].id == id)
    case Refuse(LocalDiskMissingFormat) => enough && exists i :: 0 <= i < |polled| && i < locals && polled[i].Empty?
    case Refuse(QuorumDisagreement) => enough && NoLocalEmpty(polled, locals) && NoMajority(polled)
    case Refuse(LocalDiskWrongDeploymentId) =>
      && enough && NoLocalEmpty(polled, locals)
      && exists i, id :: 0 <= i < |polled| && i < locals && polled[i].Formatted? && polled[i].id != id && Majority(polled, id)
    case Wait => !enough && !(seed && forall i :: 0 <= i < |polled| ==> polled[i].Empty?)
  }

  /** All the node's own disks that could be read are formatted. */
  ghost predicate NoLocalEmpty(polled: seq<Read>, locals: nat) {
    forall i :: 0 <= i < |polled| && i < locals ==> !polled[i].Empty?
  }

  lemma {:induction false} VotesWithin(polled: seq<Read>, x: Id, y: Id)
    requires x != y
    ensures Count(Votes(polled), x) + Count(Votes(polled), y) <= FormattedCount(polled)
  {
    if polled != [] {
      var n := |polled| - 1;
      VotesWithin(polled[..n], x, y);
      assert Votes(polled)[..n] == Votes(polled[..n]);
    }
  }

  // ----- The same in terms of sets of disks

  ghost function FormattedDisks(polled: seq<Read>): set<nat> {
    set i: nat | i < |polled| && polled[i].Formatted?
  }

  ghost function Carrying(polled: seq<Read>, id: Id): set<nat> {
    set i: nat | i < |polled| && polled[i] == Formatted(id)
  }

  /** More than half of the disks were read and are formatted. */
  ghost predicate MostFormatted(polled: seq<Read>) {
    2 * |FormattedDisks(polled)| > |polled|
  }

  /** More than half of the formatted disks carry the id. */
  ghost predicate MostCarry(polled: seq<Read>, id: Id) {
    2 * |Carrying(polled, id)| > |FormattedDisks(polled)|
  }

  lemma {:induction false} FormattedSize(polled: seq<Read>)
    ensures FormattedCount(polled) == |FormattedDisks(polled)|
  {
    if polled == [] {
      assert FormattedDisks(polled) == {};
    } else {
      var n := |polled| - 1;
      FormattedSize(polled[..n]);
      assert FormattedDisks(polled) == FormattedDisks(polled[..n]) + (if polled[n].Formatted? then {n} else {});
    }
  }

  lemma MajorityIff(polled: seq<Read>, id: Id)
    ensures Majority(polled, id) <==> MostCarry(polled, id)
  {
    FormattedSize(polled);
    CountIsVoters(Votes(polled), id);
    assert Voters(Votes(polled), id) == Carrying(polled, id);
  }

  /** When a node mints, boots, refuses or waits. */
  lemma DecidesIff(polled: seq<Read>, locals: nat, seed: bool, o: Outcome)
    requires polled != [] && Decides(polled, locals, seed, o)
    ensures o.Mint? <==> seed && forall i :: 0 <= i < |polled| ==> polled[i].Empty?
    ensures o.Wait? <==> !o.Mint? && !MostFormatted(polled)
    ensures o.Mint? ==> !MostFormatted(polled)
    ensures o == Refuse(LocalDiskMissingFormat) <==> MostFormatted(polled) && !NoLocalEmpty(polled, locals)
    ensures o.Boot? ==> MostFormatted(polled) && NoLocalEmpty(polled, locals) && MostCarry(polled, o.id)
    ensures o == Refuse(QuorumDisagreement) ==> forall id: Id {:trigger MostCarry(polled, id)} :: !MostCarry(polled, id)
  {
    hide Majority, MostCarry;
    FormattedSize(polled);
    forall id: Id
      ensures Majority(polled, id) <==> MostCarry(polled, id)
    {
      MajorityIff(polled, id);
    }
    if forall i :: 0 <= i < |polled| ==> polled[i].Empty? {
      NoneFormatted(polled);
    }
  }

  /** One round of reads leads to one outcome. */
  lemma OneOutcome(polled: seq<Read>, locals: nat, seed: bool, o: Outcome, o': Outcome)
    requires polled != [] && Decides(polled, locals, seed, o) && Decides(polled, locals, seed, o')
    ensures o == o'
  {
    hide Votes, FormattedCount;
    if forall i :: 0 <= i < |polled| ==> polled[i].Empty? {
      NoneFormatted(polled);
    }
    forall x: Id, y: Id | Majority(polled, x) && Majority(polled, y)
      ensures x == y
    {
      if x != y {
        VotesWithin(polled, x, y);
      }
    }
  }

  method Poll(polled: seq<Read>, locals: nat, seed: bool) returns (o: Outcome)
    requires polled != []
    ensures Decides(polled, locals, seed, o)
    ensures (forall i :: 0 <= i < |polled| ==> polled[i].Empty?) ==> o == (if seed then Mint else Wait)
  {
    var formatted := CountFormatted(polled);
    var allEmpty := true;
    for i := 0 to |polled|
      invariant allEmpty <==> forall j :: 0 <= j < i ==> polled[j].Empty?
    {
      allEmpty := allEmpty && polled[i].Empty?;
    }
    if allEmpty {
      NoneFormatted(polled);
      if seed {
        return Mint;
      }
    }
    if formatted < |polled| / 2 + 1 {
      return Wait;
    }
    for i := 0 to Min(locals, |polled|)
      invariant forall j :: 0 <= j < i ==> !polled[j].Empty?
    {
      if polled[i].Empty? {
        return Refuse(LocalDiskMissingFormat);
      }
    }
    var vote := VoteMajority(polled);
    if vote.None? {
      return Refuse(QuorumDisagreement);
    }
    for i := 0 to Min(locals, |polled|)
      invariant forall j :: 0 <= j < i ==> polled[j].Formatted? ==> polled[j].id == vote.value
    {
      if polled[i].Formatted? && polled[i].id != vote.value {
        return Refuse(LocalDiskWrongDeploymentId);
      }
    }
    return Boot(vote.value);
  }

  lemma {:induction false} NoneFormatted(polled: seq<Read>)
    requires forall i :: 0 <= i < |polled| ==> polled[i].Empty?
    ensures FormattedCount(polled) == 0
  {
    if polled != [] {
      NoneFormatted(polled[..|polled| - 1]);
    }
  }

  /** Writes the id to the disks one after the other, and stops at the first that
      fails; a write to a healthy disk does not. */
  method WriteAllDisks(disks: array<Option<Id>>, healthy: seq<bool>, id: Id) returns (written: nat)
    requires |healthy| == disks.Length
    modifies disks
    ensures written <= disks.Length
    ensures written < disks.Length ==> !healthy[written]
    ensures forall i :: 0 <= i < written ==> disks[i] == Some(id)
    ensures forall i :: written <= i < disks.Length ==> disks[i] == old(disks[i])
  {
    written := 0;
    while written < disks.Length
      invariant written <= disks.Length
      invariant forall i :: 0 <= i < written ==> disks[i] == Some(id)
      invariant forall i :: written <= i < disks.Length ==> disks[i] == old(disks[i])
    {
      var broken := *;
      if broken && !healthy[written] {
        return;
      }
      disks[written] := Some(id);
      written := written + 1;
    }
  }
}
