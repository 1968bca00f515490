/** The two-tier lock around a tick: a coroutine lock per process inside an instance, and a ZooKeeper
    lock per process between instances. */
module AnalysisLock {

  datatype Phase = WaitingLocal | WaitingZk | Inside | Finished

  /** One `acquire` with its body. `lost` once the instance's session expired while it was inside. */
  datatype Call = Call(instance: string, process: string, phase: Phase, lost: bool)

  datatype State = State(calls: map<nat, Call>, local: map<(string, string), nat>, zk: map<string, nat>)

  datatype Step =
    | Arrives(id: nat, instance: string, process: string)
    | LocalGranted(id: nat)
    | ZkGranted(id: nat)
    | ZkTimedOut(id: nat)                     // raises, and only the local lock is given back
    | Leaves(id: nat, released: bool)         // a release that fails is logged; the node stays behind
    | SessionExpires(instance: string)        // its ephemeral lock nodes vanish

  function Slot(c: Call): (string, string) {
    (c.instance, c.process)
  }

  function Moved(s: State, id: nat, phase: Phase): map<nat, Call>
    requires id in s.calls
  {
    s.calls[id := s.calls[id].(phase := phase)]
  }

  /** The ZooKeeper locks without those held by calls of `instance`. */
  function Surviving(s: State, instance: string): map<string, nat> {
    map p | p in s.zk && !(s.zk[p] in s.calls && s.calls[s.zk[p]].instance == instance) :: s.zk[p]
  }

  function Expired(s: State, instance: string): map<nat, Call> {
    map id | id in s.calls ::
      s.calls[id].(lost := s.calls[id].lost || (s.calls[id].instance == instance && s.calls[id].phase == Inside))
  }

  ghost predicate Next(s: State, a: Step, t: State) {
    match a
    case Arrives(id, i, p) => id !in s.calls && t == s.(calls := s.calls[id := Call(i, p, WaitingLocal, false)])
    case LocalGranted(id) =>
      && id in s.calls && s.calls[id].phase == WaitingLocal && Slot(s.calls[id]) !in s.local
      && t == s.(calls := Moved(s, id, WaitingZk), local := s.local[Slot(s.calls[id]) := id])
    case ZkGranted(id) =>
      && id in s.calls && s.calls[id].phase == WaitingZk && s.calls[id].process !in s.zk
      && t == s.(calls := Moved(s, id, Inside), zk := s.zk[s.calls[id].process := id])
    case ZkTimedOut(id) =>
      && id in s.calls && s.calls[id].phase == WaitingZk
      && t == s.(calls := Moved(s, id, Finished), local := s.local - {Slot(s.calls[id])})
    case Leaves(id, released) =>
      && id in s.calls && s.calls[id].phase == Inside
      && var c := s.calls[id];
         t == State(Moved(s, id, Finished), s.local - {Slot(c)},
                    if released && c.process in s.zk && s.zk[c.process] == id then s.zk - {c.process} else s.zk)
    case SessionExpires(i) => t == State(Expired(s, i), s.local, Surviving(s, i))
  }

  ghost predicate IsRun(run: seq<State>, steps: seq<Step>) {
    && |run| == |steps| + 1 && run[0] == State(map[], map[], map[])
    && forall k :: 0 <= k < |steps| ==> Next(run[k], steps[k], run[k + 1])
  }

  predicate Holding(c: Call) {
    c.phase == WaitingZk || c.phase == Inside
  }

  /** The local lock is held exactly by the call past it; a call inside that kept its session holds the
      ZooKeeper lock. */
  ghost predicate Inv(s: State) {
    && (forall x :: x in s.local ==>
          s.local[x] in s.calls && Slot(s.calls[s.local[x]]) == x && Holding(s.calls[s.local[x]]))
    && (forall id :: id in s.calls && Holding(s.calls[id]) ==>
          Slot(s.calls[id]) in s.local && s.local[Slot(s.calls[id])] == id)
    && (forall id :: id in s.calls && s.calls[id].phase == Inside && !s.calls[id].lost ==>
          s.calls[id].process in s.zk && s.zk[s.calls[id].process] == id)
  }

  lemma ArrivalKeepsInv(s: State, a: Step, t: State)
    requires Inv(s) && Next(s, a, t) && a.Arrives?
    ensures Inv(t)
  {
  }

  lemma LocalGrantKeepsInv(s: State, a: Step, t: State)
    requires Inv(s) && Next(s, a, t) && a.LocalGranted?
    ensures Inv(t)
  {
  }

  lemma ZkGrantKeepsInv(s: State, a: Step, t: State)
    requires Inv(s) && Next(s, a, t) && a.ZkGranted?
    ensures Inv(t)
  {
  }

  lemma TimeoutKeepsInv(s: State, a: Step, t: State)
    requires Inv(s) && Next(s, a, t) && a.ZkTimedOut?
    ensures Inv(t)
  {
  }

  lemma LeavingKeepsInv(s: State, a: Step, t: State)
    requires Inv(s) && Next(s, a, t) && a.Leaves?
    ensures Inv(t)
  {
  }

  lemma ExpiryKeepsInv(s: State, a: Step, t: State)
    requires Inv(s) && Next(s, a, t) && a.SessionExpires?
    ensures Inv(t)
  {
  }

  lemma StepKeepsInv(s: State, a: Step, t: State)
    requires Inv(s) && Next(s, a, t)
    ensures Inv(t)
  {
    hide Inv, Next;
    match a
    case Arrives(_, _, _) => ArrivalKeepsInv(s, a, t);
    case LocalGranted(_) => LocalGrantKeepsInv(s, a, t);
    case ZkGranted(_) => ZkGrantKeepsInv(s, a, t);
    case ZkTimedOut(_) => TimeoutKeepsInv(s, a, t);
    case Leaves(_, _) => LeavingKeepsInv(s, a, t);
    case SessionExpires(_) => ExpiryKeepsInv(s, a, t);
  }

  lemma {:induction false} RunKeepsInv(run: seq<State>, steps: seq<Step>, k: nat)
    requires IsRun(run, steps) && k < |run|
    ensures Inv(run[k])
  {
    if k > 0 {
      RunKeepsInv(run, steps, k - 1);
      StepKeepsInv(run[k - 1], steps[k - 1], run[k]);
    }
  }

  /** Step `j` entered call `id`, and step `e` after it was the expiry of its instance's session. */
  ghost predicate LostAt(run: seq<State>, steps: seq<Step>, id: nat, j: nat, e: nat, k: nat) {
    && j < e < k <= |steps| && |run| == |steps| + 1 && steps[j] == ZkGranted(id)
    && id in run[k].calls && steps[e] == SessionExpires(run[k].calls[id].instance)
  }

  /** A body inside was let in by ZooKeeper, and has lost its session only when it expired since. */
  lemma {:induction false} LostByExpiry(run: seq<State>, steps: seq<Step>, k: nat, id: nat)
    requires IsRun(run, steps) && k < |run| && id in run[k].calls && run[k].calls[id].phase == Inside
    ensures exists j: nat :: j < k && steps[j] == ZkGranted(id)
    ensures run[k].calls[id].lost ==> exists j, e :: LostAt(run, steps, id, j, e, k)
  {
    var s, a, t := run[k - 1], steps[k - 1], run[k];
    assert Next(s, a, t);
    if a == ZkGranted(id) {
      NotLostBefore(run, steps, k - 1, id);
    } else {
      StaysInside(s, a, t, id);
      LostByExpiry(run, steps, k - 1, id);
      var j: nat :| j < k - 1 && steps[j] == ZkGranted(id);
      if s.calls[id].lost {
        var i, e :| LostAt(run, steps, id, i, e, k - 1);
        assert LostAt(run, steps, id, i, e, k);
      } else if t.calls[id].lost {
        assert LostAt(run, steps, id, j, k - 1, k);
      }
    }
  }

  lemma StaysInside(s: State, a: Step, t: State, id: nat)
    requires Next(s, a, t) && id in t.calls && t.calls[id].phase == Inside && a != ZkGranted(id)
    ensures id in s.calls && s.calls[id].phase == Inside && s.calls[id].instance == t.calls[id].instance
    ensures t.calls[id].lost ==> s.calls[id].lost || a == SessionExpires(s.calls[id].instance)
  {
  }

  /** Before it enters a call has no session to lose. */
  lemma {:induction false} NotLostBefore(run: seq<State>, steps: seq<Step>, k: nat, id: nat)
    requires IsRun(run, steps) && k < |run| && id in run[k].calls
    requires run[k].calls[id].phase == WaitingLocal || run[k].calls[id].phase == WaitingZk
    ensures !run[k].calls[id].lost
  {
    if k > 0 {
      assert Next(run[k - 1], steps[k - 1], run[k]);
      if id in run[k - 1].calls { NotLostBefore(run, steps, k - 1, id); }
    }
  }

  /** Two bodies for one process never overlap on one instance, and on different instances only when
      the session of one of them has expired since it entered. */
  lemma BodiesExclude(run: seq<State>, steps: seq<Step>, k: nat, a: nat, b: nat)
    requires IsRun(run, steps) && k < |run| && a != b && a in run[k].calls && b in run[k].calls
    requires run[k].calls[a].phase == Inside && run[k].calls[b].phase == Inside
    requires run[k].calls[a].process == run[k].calls[b].process
    ensures run[k].calls[a].instance != run[k].calls[b].instance
    ensures exists id, j, e :: (id == a || id == b) && LostAt(run, steps, id, j, e, k)
  {
    RunKeepsInv(run, steps, k);
    LostByExpiry(run, steps, k, a);
    LostByExpiry(run, steps, k, b);
  }

  /** A coroutine lock is never left behind, by a timeout either: with nobody between it and the end of
      a body, it is free. */
  lemma LocalLockNotLeaked(run: seq<State>, steps: seq<Step>, k: nat, slot: (string, string))
    requires IsRun(run, steps) && k < |run|
    requires forall id :: id in run[k].calls && Slot(run[k].calls[id]) == slot ==> !Holding(run[k].calls[id])
    ensures slot !in run[k].local
  {
    RunKeepsInv(run, steps, k);
  }

  /** And then they do: as soon as the session of the body inside expires, a call of another instance
      waiting for the same process can enter. */
  lemma LostSessionLetsIn(s: State, a: nat, b: nat) returns (t: State, u: State)
    requires Inv(s) && a in s.calls && b in s.calls && s.calls[a].process == s.calls[b].process
    requires s.calls[a].phase == Inside && !s.calls[a].lost && s.calls[b].phase == WaitingZk
    ensures Next(s, SessionExpires(s.calls[a].instance), t) && Next(t, ZkGranted(b), u)
    ensures a in u.calls && b in u.calls && u.calls[a].phase == Inside && u.calls[b].phase == Inside
  {
    var i := s.calls[a].instance;
    t := State(Expired(s, i), s.local, Surviving(s, i));
    u := t.(calls := Moved(t, b, Inside), zk := t.zk[t.calls[b].process := b]);
  }

  // From the empty state: instance "i" enters for "P", "j" waits, and i's session expires.
  const C0 := Call("i", "P", WaitingLocal, false)
  const C1 := Call("j", "P", WaitingLocal, false)
  const S0 := State(map[], map[], map[])
  const S1 := State(map[0 := C0], map[], map[])
  const S2 := State(map[0 := C0.(phase := WaitingZk)], map[("i", "P") := 0], map[])
  const S3 := State(map[0 := C0.(phase := Inside)], map[("i", "P") := 0], map["P" := 0])
  const S4 := State(map[0 := C0.(phase := Inside), 1 := C1], S3.local, S3.zk)
  const S5 := State(map[0 := C0.(phase := Inside), 1 := C1.(phase := WaitingZk)],
                    map[("i", "P") := 0, ("j", "P") := 1], S3.zk)
  const S6 := State(map[0 := Call("i", "P", Inside, true), 1 := C1.(phase := WaitingZk)], S5.local, map[])
  const S7 := State(map[0 := Call("i", "P", Inside, true), 1 := C1.(phase := Inside)], S5.local, map["P" := 1])

  lemma FirstEnters()
    ensures Next(S0, Arrives(0, "i", "P"), S1) && Next(S1, LocalGranted(0), S2) && Next(S2, ZkGranted(0), S3)
  {
  }

  lemma SecondWaits()
    ensures Next(S3, Arrives(1, "j", "P"), S4) && Next(S4, LocalGranted(1), S5)
  {
  }

  lemma FirstLosesItsSession()
    ensures Next(S5, SessionExpires("i"), S6)
  {
    LockVanishes();
    SessionIsLost();
    hide Surviving, Expired;
  }

  lemma LockVanishes()
    ensures Surviving(S5, "i") == map[]
  {
    assert S5.calls[0].instance == "i";
  }

  lemma SessionIsLost()
    ensures Expired(S5, "i") == S6.calls
  {
    assert "i" != "j";
    assert S5.calls.Keys == {0, 1} == S6.calls.Keys;
  }

  lemma SecondEnters()
    ensures Next(S6, ZkGranted(1), S7)
  {
  }

  /** A run that ends with both bodies inside. */
  lemma BothInside() returns (run: seq<State>, steps: seq<Step>)
    ensures IsRun(run, steps)
    ensures var s := run[|run| - 1];
      0 in s.calls && 1 in s.calls && s.calls[0].phase == Inside && s.calls[1].phase == Inside
      && s.calls[0].process == s.calls[1].process
  {
    FirstEnters();
    SecondWaits();
    FirstLosesItsSession();
    SecondEnters();
    hide Next;
    run := [S0, S1, S2, S3, S4, S5, S6, S7];
    steps := [Arrives(0, "i", "P"), LocalGranted(0), ZkGranted(0), Arrives(1, "j", "P"), LocalGranted(1),
              SessionExpires("i"), ZkGranted(1)];
  }
}
