/** Which instance owns which process: election epochs, published splits, and the
    newest-key-wins rule by which every member takes up its share. */
module Ownership {
  import opened Wrappers
  import opened Sorting
  import opened Partition

  // ---------------------------------------------------------------- accepting an assignment

  /** One assignment node's content. `epoch` and `assignedAt` together are its key. */
  datatype Payload = Payload(epoch: int, assignedAt: real, processes: seq<string>)

  /** What a member remembers: the newest key it accepted and that payload's processes. */
  datatype Member = Member(epoch: int, assignedAt: real, processes: seq<string>)

  const FRESH := Member(0, 0.0, [])

  /** Lexicographically later. */
  predicate Newer(e0: int, t0: real, e1: int, t1: real) {
    e0 > e1 || (e0 == e1 && t0 > t1)
  }

  predicate Supersedes(p: Payload, m: Member) {
    Newer(p.epoch, p.assignedAt, m.epoch, m.assignedAt)
  }

  function Adopt(p: Payload): Member {
    Member(p.epoch, p.assignedAt, p.processes)
  }

  function Receive(m: Member, p: Payload): Member {
    if Supersedes(p, m) then Adopt(p) else m
  }

  /** The member-side state of PartitionManager. */
  class PartitionManager {
    var knownEpoch: int
    var knownAssignedAt: real
    var assignedProcesses: seq<string>
    var sessionLost: bool

    function View(): Member
      reads this
    {
      Member(knownEpoch, knownAssignedAt, assignedProcesses)
    }

    constructor ()
      ensures View() == FRESH && !sessionLost
    {
      knownEpoch, knownAssignedAt, assignedProcesses, sessionLost := 0, 0.0, [], false;
    }

    /** `data` is `None` when the payload lacks a field or one does not convert.
        `handoff` is the list given to the scheduler, if any. */
    method ApplyAssignment(data: Option<Payload>) returns (handoff: Option<seq<string>>)
      modifies this`knownEpoch, this`knownAssignedAt, this`assignedProcesses
      ensures
        if data.Some? && (data.value.epoch > old(knownEpoch)
                          || (data.value.epoch == old(knownEpoch) && data.value.assignedAt > old(knownAssignedAt)))
        then
          && knownEpoch == data.value.epoch && knownAssignedAt == data.value.assignedAt
          && assignedProcesses == data.value.processes && handoff == Some(data.value.processes)
        else
          && knownEpoch == old(knownEpoch) && knownAssignedAt == old(knownAssignedAt)
          && assignedProcesses == old(assignedProcesses) && handoff == None
      ensures View() == if data.Some? then Receive(old(View()), data.value) else old(View())
    {
      if data.None? { return None; }
      var incoming := data.value;
      if incoming.epoch < knownEpoch { return None; }
      if incoming.epoch == knownEpoch && incoming.assignedAt <= knownAssignedAt { return None; }
      knownEpoch := incoming.epoch;
      knownAssignedAt := incoming.assignedAt;
      assignedProcesses := incoming.processes;
      handoff := Some(incoming.processes);
    }

    method OnSessionLost()
      modifies this
      ensures View() == FRESH && sessionLost
    {
      sessionLost := true;
      knownEpoch := 0;
      knownAssignedAt := 0.0;
      assignedProcesses := [];
    }
  }

  /** Payloads arriving one after the other, from watches and refreshes alike. */
  function Deliver(m: Member, ps: seq<Payload>): Member
    decreases ps
  {
    if ps == [] then m else Deliver(Receive(m, ps[0]), ps[1..])
  }

  /** `p` is the payload every other one of `ps` loses to, and `m` takes it up. */
  ghost predicate Top(m: Member, ps: seq<Payload>, p: Payload) {
    && p in ps && Supersedes(p, m)
    && forall q :: q in ps ==> !Supersedes(q, Adopt(p))
  }

  lemma {:induction false} NothingNewer(m: Member, ps: seq<Payload>)
    requires forall q :: q in ps ==> !Supersedes(q, m)
    ensures Deliver(m, ps) == m
    decreases ps
  {
    if ps != [] {
      assert forall q :: q in ps[1..] ==> q in ps;
      NothingNewer(m, ps[1..]);
    }
  }

  /** After any deliveries a member stands on the top payload, or is unchanged when nothing beats it. */
  lemma {:induction false} TopWins(m: Member, ps: seq<Payload>)
    ensures (Deliver(m, ps) == m && forall q :: q in ps ==> !Supersedes(q, m))
         || exists p :: Top(m, ps, p) && Deliver(m, ps) == Adopt(p)
    decreases ps
  {
    if ps != [] {
      var m1 := Receive(m, ps[0]);
      assert ps == [ps[0]] + ps[1..];
      TopWins(m1, ps[1..]);
      if p :| Top(m1, ps[1..], p) && Deliver(m1, ps[1..]) == Adopt(p) {
        assert Top(m, ps, p);
      } else if Supersedes(ps[0], m) {
        assert Top(m, ps, ps[0]);
      }
    }
  }

  /** Whatever arrives and in whatever order, a member ends no older than it began and than everything that
      arrived: epoch first, time within the epoch. It ends as it began, or on one of the payloads. */
  lemma LatestWins(m: Member, ps: seq<Payload>)
    ensures var n := Deliver(m, ps);
      && (n == m || exists p :: p in ps && n == Member(p.epoch, p.assignedAt, p.processes))
      && (n == m || n.epoch > m.epoch || (n.epoch == m.epoch && n.assignedAt > m.assignedAt))
      && forall q :: q in ps ==> n.epoch > q.epoch || (n.epoch == q.epoch && n.assignedAt >= q.assignedAt)
  {
    TopWins(m, ps);
    hide Deliver;
    if p :| Top(m, ps, p) && Deliver(m, ps) == Adopt(p) {
      assert forall q :: q in ps ==> !Supersedes(q, Adopt(p));
    }
  }

  /** Between session losses the known key never falls, and strictly rises with every accept. */
  lemma KeyOnlyRises(m: Member, ps: seq<Payload>)
    ensures var n := Deliver(m, ps);
      n == m || n.epoch > m.epoch || (n.epoch == m.epoch && n.assignedAt > m.assignedAt)
  {
    hide Deliver;
    LatestWins(m, ps);
  }

  ghost predicate SameElements<T(!new)>(a: seq<T>, b: seq<T>) {
    forall x :: x in a <==> x in b
  }

  /** Payloads with the winning key carry one and the same list. */
  ghost predicate TopAgrees(m: Member, ps: seq<Payload>) {
    forall p, q :: Top(m, ps, p) && Top(m, ps, q) ==> p.processes == q.processes
  }

  lemma SameElementsSameTop(m: Member, ps: seq<Payload>, qs: seq<Payload>, p: Payload)
    requires SameElements(ps, qs)
    ensures Top(m, ps, p) <==> Top(m, qs, p)
  {
  }

  lemma TopFirst(m: Member, ps: seq<Payload>, p: Payload)
    requires Top(m, ps, p)
    ensures Deliver(m, [p] + ps) == Adopt(p) && SameElements(ps, [p] + ps)
  {
    assert ([p] + ps)[1..] == ps;
    NothingNewer(Adopt(p), ps);
  }

  lemma AgreeingTopsForgetOrder(m: Member, ps: seq<Payload>, qs: seq<Payload>)
    requires TopAgrees(m, ps) && SameElements(ps, qs)
    ensures Deliver(m, qs) == Deliver(m, ps)
  {
    hide Deliver;
    TopWins(m, ps);
    TopWins(m, qs);
    forall p { SameElementsSameTop(m, ps, qs, p); }
    if p :| Top(m, ps, p) && Deliver(m, ps) == Adopt(p) {
      assert Top(m, qs, p);
      var q :| Top(m, qs, q) && Deliver(m, qs) == Adopt(q);
      assert Top(m, ps, q);
    }
  }

  /** Order, duplication and the mix of delivery paths do not matter exactly when the payloads
      with the winning key agree; one leader per epoch and distinct timestamps give that. */
  lemma DeliveryOrderIrrelevantIff(m: Member, ps: seq<Payload>)
    ensures (forall qs :: SameElements(ps, qs) ==> Deliver(m, qs) == Deliver(m, ps)) <==> TopAgrees(m, ps)
  {
    hide Deliver, SameElements, Top;
    if TopAgrees(m, ps) {
      forall qs | SameElements(ps, qs) ensures Deliver(m, qs) == Deliver(m, ps) {
        AgreeingTopsForgetOrder(m, ps, qs);
      }
    }
    if forall qs :: SameElements(ps, qs) ==> Deliver(m, qs) == Deliver(m, ps) {
      forall p, q | Top(m, ps, p) && Top(m, ps, q) ensures p.processes == q.processes {
        TopFirst(m, ps, p);
        TopFirst(m, ps, q);
      }
    }
  }

  // ---------------------------------------------------------------- leadership epochs

  /** The instance-side state of LeaderElection. The epoch node is empty until first written. */
  class LeaderElection {
    var epoch: int
    var isLeader: bool

    constructor ()
      ensures epoch == 0 && !isLeader
    {
      epoch, isLeader := 0, false;
    }

    /** The election callback: reads the persistent epoch `node` and returns what it writes back. */
    method OnBecomeLeader(node: Option<int>) returns (written: int)
      modifies this
      ensures written == (if node.Some? then node.value + 1 else 1) && epoch == written && isLeader
      ensures written == Bumped(node)
    {
      var current := if node.Some? then node.value else 0;
      written := current + 1;
      epoch := written;
      isLeader := true;
    }
  }

  function Bumped(node: Option<int>): (e: int)
    ensures node == None ==> e == 1
    ensures node.Some? ==> e > node.value
  {
    (if node.Some? then node.value else 0) + 1
  }

  // ---------------------------------------------------------------- the protocol

  /** One `_do_redistribute` that got as far as its transaction. `epochs[i]` is the leader's epoch
      as read when `i`'s payload was serialised: the election thread may move it in between. */
  datatype Redistribution = Redistribution(
    leader: string, at: real, instances: seq<string>, processes: seq<string>, epochs: map<string, int>)

  predicate WellFormed(r: Redistribution) {
    forall i :: i in r.instances ==> i in r.epochs
  }

  function PayloadFor(r: Redistribution, i: string): Payload
    requires WellFormed(r) && i in r.instances
  {
    Payload(r.epochs[i], r.at, Split(r.instances, r.processes)[i])
  }

  /** `holder` is the instance the election recipe has in its callback and `seen` what it read from
      the epoch node. `grants` remembers who was given each epoch, `published` every
      redistribution; neither is ever forgotten, so a payload may still be in flight, be delivered
      twice, or overtake a later one. */
  datatype State = State(
    node: Option<int>, holder: Option<string>, seen: Option<Option<int>>,
    grants: map<int, string>, published: set<Redistribution>, members: map<string, Member>)

  datatype Step =
    | Acquire(i: string)
    | ReadEpoch
    | WriteEpoch(confirmed: bool)        // the write may land although its reply is lost
    | Release
    | Publish(r: Redistribution)
    | Receives(i: string, r: Redistribution)
    | SessionLost(i: string)

  function MemberOf(s: State, i: string): Member {
    if i in s.members then s.members[i] else FRESH
  }

  ghost predicate Init(s: State) {
    s == State(None, None, None, map[], {}, map[])
  }

  ghost predicate Next(s: State, a: Step, s': State) {
    match a
    case Acquire(i) =>
      s.holder == None && s' == s.(holder := Some(i), seen := None)
    case ReadEpoch =>
      s.holder.Some? && s' == s.(seen := Some(s.node))
    case WriteEpoch(confirmed) =>
      && s.holder.Some? && s.seen.Some?
      && var e := Bumped(s.seen.value);
         s' == s.(node := Some(e), seen := None,
                  grants := if confirmed then s.grants[e := s.holder.value] else s.grants)
    case Release =>
      s' == s.(holder := None, seen := None)
    case Publish(r) =>
      // only under epochs this leader was granted, and at a time it has not used before
      && WellFormed(r) && NoDups(r.instances) && NoDups(r.processes)
      && (forall i :: i in r.instances ==> r.epochs[i] in s.grants && s.grants[r.epochs[i]] == r.leader)
      && (forall q :: q in s.published && q.leader == r.leader ==> q.at != r.at)
      && s' == s.(published := s.published + {r})
    case Receives(i, r) =>
      && r in s.published && WellFormed(r) && i in r.instances
      && s' == s.(members := s.members[i := Receive(MemberOf(s, i), PayloadFor(r, i))])
    case SessionLost(i) =>
      s' == s.(members := s.members[i := FRESH])
  }

  ghost predicate IsRun(run: seq<State>, steps: seq<Step>) {
    && |run| == |steps| + 1 && Init(run[0])
    && forall k :: 0 <= k < |steps| ==> Next(run[k], steps[k], run[k + 1])
  }

  /** `i` is on the share `r` gave it. */
  ghost predicate Holds(s: State, i: string, r: Redistribution) {
    && r in s.published && WellFormed(r) && i in r.instances
    && MemberOf(s, i) == Adopt(PayloadFor(r, i))
  }

  ghost predicate EpochsInOrder(s: State) {
    && (s.seen.Some? ==> s.holder.Some? && s.seen.value == s.node)
    && (s.node.Some? ==> s.node.value >= 1)
    && forall e :: e in s.grants ==> 1 <= e && s.node.Some? && e <= s.node.value
  }

  ghost predicate PublishedUnderGrants(s: State) {
    && (forall r :: r in s.published ==> WellFormed(r) && NoDups(r.instances) && NoDups(r.processes))
    && (forall r, i :: r in s.published && i in r.instances ==>
          r.epochs[i] in s.grants && s.grants[r.epochs[i]] == r.leader)
    && (forall q, r :: q in s.published && r in s.published && q.leader == r.leader && q.at == r.at ==> q == r)
  }

  ghost predicate MembersHoldShares(s: State) {
    forall i :: MemberOf(s, i) == FRESH || exists r :: Holds(s, i, r)
  }

  ghost predicate Inv(s: State) {
    EpochsInOrder(s) && PublishedUnderGrants(s) && MembersHoldShares(s)
  }

  lemma StepKeepsMembers(s: State, a: Step, s': State)
    requires Inv(s) && Next(s, a, s')
    ensures MembersHoldShares(s')
  {
    forall i ensures MemberOf(s', i) == FRESH || exists r :: Holds(s', i, r) {
      if MemberOf(s', i) == MemberOf(s, i) {
        if MemberOf(s, i) != FRESH {
          var r :| Holds(s, i, r);
          assert Holds(s', i, r);
        }
      } else if a.Receives? {
        assert Holds(s', i, a.r);
      }
    }
  }

  lemma StepKeepsInv(s: State, a: Step, s': State)
    requires Inv(s) && Next(s, a, s')
    ensures Inv(s')
  {
    StepKeepsMembers(s, a, s');
    if a.WriteEpoch? {
      assert Bumped(s.seen.value) !in s.grants;
    }
  }

  lemma {:induction false} RunKeepsInv(run: seq<State>, steps: seq<Step>, k: nat)
    requires IsRun(run, steps) && k < |run|
    ensures Inv(run[k])
  {
    if k > 0 {
      RunKeepsInv(run, steps, k - 1);
      StepKeepsInv(run[k - 1], steps[k - 1], run[k]);
    }
  }

  /** No epoch is granted twice: a bump never lands on an epoch someone already leads under. */
  lemma EpochsAreFresh(run: seq<State>, steps: seq<Step>, k: nat)
    requires IsRun(run, steps) && k < |run| && run[k].seen.Some?
    ensures Bumped(run[k].seen.value) !in run[k].grants
  {
    RunKeepsInv(run, steps, k);
  }

  /** In every reachable state two members with the same accepted key stand on shares of a single
      redistribution, so they own no process in common. */
  lemma SameKeyMeansDisjoint(run: seq<State>, steps: seq<Step>, k: nat, i: string, j: string)
    requires IsRun(run, steps) && k < |run| && i != j
    requires var a, b := MemberOf(run[k], i), MemberOf(run[k], j);
      a != FRESH && b != FRESH && a.epoch == b.epoch && a.assignedAt == b.assignedAt
    ensures exists r :: Holds(run[k], i, r) && Holds(run[k], j, r)
    ensures Disjoint(MemberOf(run[k], i).processes, MemberOf(run[k], j).processes)
  {
    var s := run[k];
    RunKeepsInv(run, steps, k);
    var r :| Holds(s, i, r);
    var q :| Holds(s, j, q);
    assert q.leader == s.grants[q.epochs[j]] == s.grants[r.epochs[i]] == r.leader;
    SplitIsPartition(r.instances, r.processes);
  }

  /** `i` has accepted the key under which `r` addressed it. */
  ghost predicate HasKeyOf(s: State, i: string, r: Redistribution)
    requires WellFormed(r) && i in r.instances
  {
    MemberOf(s, i).epoch == r.epochs[i] && MemberOf(s, i).assignedAt == r.at
  }

  lemma HasKeyHasShare(s: State, i: string, r: Redistribution)
    requires Inv(s) && r in s.published && WellFormed(r) && i in r.instances && HasKeyOf(s, i, r)
    ensures MemberOf(s, i).processes == Split(r.instances, r.processes)[i]
  {
    assert r.epochs[i] in s.grants;
    assert MemberOf(s, i) != FRESH;
    var q :| Holds(s, i, q);
    assert q.leader == s.grants[q.epochs[i]] == r.leader;
  }

  /** All instances on the shares `r` gave them make the split of what was read. */
  lemma HoldersMakeSplit(s: State, r: Redistribution)
    requires Inv(s) && r in s.published && WellFormed(r)
    requires forall i :: i in r.instances ==> HasKeyOf(s, i, r)
    ensures Split(r.instances, r.processes) == map i | i in r.instances :: MemberOf(s, i).processes
  {
    hide MemberOf, HasKeyOf, Inv;
    forall i | i in r.instances ensures MemberOf(s, i).processes == Split(r.instances, r.processes)[i] {
      HasKeyHasShare(s, i, r);
    }
  }

  lemma PublishedIsDistinct(s: State, r: Redistribution)
    requires Inv(s) && r in s.published
    ensures NoDups(r.instances) && NoDups(r.processes)
  {
  }

  /** Once every instance of a redistribution has its key, the members own exactly the processes
      the leader read, each process in one place, and no member carries two more than another. */
  lemma AllHoldingMeansCovered(run: seq<State>, steps: seq<Step>, k: nat, r: Redistribution)
    requires IsRun(run, steps) && k < |run| && r in run[k].published
    requires WellFormed(r) && r.instances != []
    requires forall i :: i in r.instances ==> HasKeyOf(run[k], i, r)
    ensures IsPartition(map i | i in r.instances :: MemberOf(run[k], i).processes, r.processes)
    ensures forall i, j :: i in r.instances && j in r.instances ==>
      |MemberOf(run[k], i).processes| <= |MemberOf(run[k], j).processes| + 1
  {
    hide *;
    var s := run[k];
    RunKeepsInv(run, steps, k);
    PublishedIsDistinct(s, r);
    HoldersMakeSplit(s, r);
    SplitIsPartition(r.instances, r.processes);
    forall i, j | i in r.instances && j in r.instances
      ensures |MemberOf(s, i).processes| <= |MemberOf(s, j).processes| + 1
    {
      SplitIsBalanced(r.instances, r.processes, i, j);
    }
  }

  // ---------------------------------------------------------------- coverage from deliveries

  /** Step `d` delivered `r` to `i`, whose session has not been lost since. */
  ghost predicate DeliveredAt(steps: seq<Step>, i: string, r: Redistribution, d: nat, k: nat) {
    d < k <= |steps| && steps[d] == Receives(i, r) && forall j :: d < j < k ==> steps[j] != SessionLost(i)
  }

  /** No redistribution addressed to `i` has a later key than `r`. */
  ghost predicate Unbeaten(s: State, i: string, r: Redistribution)
    requires WellFormed(r) && i in r.instances
  {
    forall q :: q in s.published && WellFormed(q) && i in q.instances ==>
      !Newer(q.epochs[i], q.at, r.epochs[i], r.at)
  }

  lemma {:induction false} PublishedStays(run: seq<State>, steps: seq<Step>, j: nat, k: nat)
    requires IsRun(run, steps) && j <= k < |run|
    ensures run[j].published <= run[k].published
    decreases k - j
  {
    if j < k {
      PublishedStays(run, steps, j, k - 1);
      assert Next(run[k - 1], steps[k - 1], run[k]);
    }
  }

  lemma DeliveryTakes(s: State, i: string, r: Redistribution, t: State)
    requires Inv(s) && Next(s, Receives(i, r), t) && Unbeaten(s, i, r)
    ensures HasKeyOf(t, i, r)
  {
    assert r.epochs[i] in s.grants;
    if MemberOf(s, i) != FRESH {
      var q :| Holds(s, i, q);
      assert !Newer(q.epochs[i], q.at, r.epochs[i], r.at);
    }
  }

  lemma KeyStays(s: State, a: Step, i: string, r: Redistribution, t: State)
    requires Next(s, a, t) && WellFormed(r) && i in r.instances && HasKeyOf(s, i, r)
    requires a != SessionLost(i) && Unbeaten(t, i, r)
    ensures HasKeyOf(t, i, r)
  {
  }

  /** A delivery of an unbeaten redistribution puts its key in place, and only a lost session undoes it. */
  lemma {:induction false} DeliveredMeansHasKey(run: seq<State>, steps: seq<Step>, i: string, r: Redistribution,
                                                d: nat, k: nat)
    requires IsRun(run, steps) && DeliveredAt(steps, i, r, d, k)
    requires WellFormed(r) && i in r.instances && Unbeaten(run[k], i, r)
    ensures r in run[k].published && HasKeyOf(run[k], i, r)
    decreases k - d
  {
    hide Inv, HasKeyOf;
    PublishedStays(run, steps, k - 1, k);
    if k == d + 1 {
      RunKeepsInv(run, steps, d);
      DeliveryTakes(run[d], i, r, run[k]);
    } else {
      DeliveredMeansHasKey(run, steps, i, r, d, k - 1);
      KeyStays(run[k - 1], steps[k - 1], i, r, run[k]);
    }
  }

  /** So once a redistribution that nothing published since beats has been delivered to all its instances,
      each still in that session, they own exactly the processes the leader read, evenly, whatever else
      was delivered and in whatever order. */
  lemma DeliveriesCover(run: seq<State>, steps: seq<Step>, k: nat, r: Redistribution)
    requires IsRun(run, steps) && k < |run| && WellFormed(r) && r.instances != []
    requires forall i :: i in r.instances ==> Unbeaten(run[k], i, r) && exists d :: DeliveredAt(steps, i, r, d, k)
    ensures IsPartition(map i | i in r.instances :: MemberOf(run[k], i).processes, r.processes)
    ensures forall i, j :: i in r.instances && j in r.instances ==>
      |MemberOf(run[k], i).processes| <= |MemberOf(run[k], j).processes| + 1
  {
    hide HasKeyOf, IsPartition, MemberOf, Unbeaten;
    forall i | i in r.instances ensures r in run[k].published && HasKeyOf(run[k], i, r) {
      var d: nat :| DeliveredAt(steps, i, r, d, k);
      DeliveredMeansHasKey(run, steps, i, r, d, k);
    }
    assert r.instances[0] in r.instances;
    AllHoldingMeansCovered(run, steps, k, r);
  }

  // ---------------------------------------------------------------- a run

  // From the empty state: "a" is elected, reads and writes the epoch, publishes what it read, and both
  // instances take up their shares.
  const R: Redistribution := Redistribution("a", 100.0, ["a", "b"], ["P", "Q", "R"], map["a" := 1, "b" := 1])
  const S0 := State(None, None, None, map[], {}, map[])
  const S1 := S0.(holder := Some("a"))
  const S2 := S1.(seen := Some(None))
  const S3 := S2.(node := Some(1), seen := None, grants := map[1 := "a"])
  const S4 := S3.(published := {R})
  const S5 := S4.(members := map["a" := Adopt(PayloadFor(R, "a"))])
  const S6 := S5.(members := map["a" := Adopt(PayloadFor(R, "a")), "b" := Adopt(PayloadFor(R, "b"))])

  lemma ElectedAndPublished()
    ensures Next(S0, Acquire("a"), S1) && Next(S1, ReadEpoch, S2) && Next(S2, WriteEpoch(true), S3)
    ensures Next(S3, Publish(R), S4)
  {
    assert "a" != "b" && "P" != "Q" && "P" != "R" && "Q" != "R";
  }

  lemma BothReceive()
    ensures Next(S4, Receives("a", R), S5) && Next(S5, Receives("b", R), S6)
  {
    hide Split;
    assert "a" != "b";
  }

  /** A run at whose end every process read has its owner. */
  lemma EverybodyServed() returns (run: seq<State>, steps: seq<Step>)
    ensures IsRun(run, steps)
    ensures var s := run[|run| - 1]; MemberOf(s, "a").processes == ["P", "R"] && MemberOf(s, "b").processes == ["Q"]
  {
    ElectedAndPublished();
    BothReceive();
    run := [S0, S1, S2, S3, S4, S5, S6];
    steps := [Acquire("a"), ReadEpoch, WriteEpoch(true), Publish(R), Receives("a", R), Receives("b", R)];
    SharesOfR();
    hide Next, Split;
  }

  lemma NamesInOrder()
    ensures SortedBy(StrLe, ["a", "b"]) && SortedBy(StrLe, ["P", "Q", "R"]) && NoDups(["a", "b"])
  {
    assert StrLe("a", "b") && StrLe("P", "Q") && StrLe("P", "R") && StrLe("Q", "R") && "a" != "b";
  }

  lemma SharesOfR()
    ensures Split(["a", "b"], ["P", "Q", "R"]) == map["a" := ["P", "R"], "b" := ["Q"]]
  {
    hide *;
    var seats, dealt := ["a", "b"], ["P", "Q", "R"];
    NamesInOrder();
    SplitIsRoundRobin(seats, dealt, seats, dealt, 0);
    SplitIsRoundRobin(seats, dealt, seats, dealt, 1);
    var shares := Split(seats, dealt);
    FirstShare(shares["a"]);
    SecondShare(shares["b"]);
    assert shares == map["a" := ["P", "R"], "b" := ["Q"]];
  }

  lemma FirstShare(list: seq<string>)
    requires EveryNth(["P", "Q", "R"], 0, 2, list)
    ensures list == ["P", "R"]
  {
    EveryNthEnds(["P", "Q", "R"], 0, 2, list);
    assert |list| == 2 && list[0] == "P" && list[1] == "R";
  }

  lemma SecondShare(list: seq<string>)
    requires EveryNth(["P", "Q", "R"], 1, 2, list)
    ensures list == ["Q"]
  {
    EveryNthEnds(["P", "Q", "R"], 1, 2, list);
    assert |list| == 1 && list[0] == "Q";
  }
}
