/** One dispatch is one tick of the rate limit's step system: what was proved of all runs of ticks holds
    of the mails the program sends. */
module TickSteps {
  import opened Wrappers
  import opened Dicts
  import opened Cooldown
  import opened Dispatch
  import opened RateLimit

  /** Taking `steps` one after the other leads from `s` to `t`. */
  ghost predicate Leads(prefix: string, s: State, steps: seq<Step>, t: State)
    decreases |steps|, 1
  {
    if steps == [] then s == t else exists u :: LeadsVia(prefix, s, steps, u, t)
  }

  /** `u` is the state before the last of `steps`. */
  ghost predicate LeadsVia(prefix: string, s: State, steps: seq<Step>, u: State, t: State)
    requires steps != []
    decreases |steps|, 0
  {
    var n := |steps| - 1;
    Leads(prefix, s, steps[..n], u) && Next(prefix, u, steps[n], t)
  }

  lemma LeadsOneMore(prefix: string, s: State, steps: seq<Step>, u: State, a: Step, t: State)
    requires Leads(prefix, s, steps, u) && Next(prefix, u, a, t)
    ensures Leads(prefix, s, steps + [a], t)
  {
    hide Next;
    assert (steps + [a])[..|steps|] == steps;
    assert LeadsVia(prefix, s, steps + [a], u, t);
  }

  lemma {:induction false} LeadsKeepsInv(prefix: string, s: State, steps: seq<Step>, t: State)
    requires RateLimit.Inv(prefix, s) && Leads(prefix, s, steps, t)
    ensures RateLimit.Inv(prefix, t)
  {
    hide Next, RateLimit.Inv;
    if steps != [] {
      var n := |steps| - 1;
      var u :| LeadsVia(prefix, s, steps, u, t);
      LeadsKeepsInv(prefix, s, steps[..n], u);
      StepKeepsInv(prefix, u, steps[n], t);
    }
  }

  // ---------------------------------------------------------------- the steps of a dispatch

  /** Redis answers throughout, the tick's clock does not run backwards, cooldowns are positive and the
      keys are this process's, without colons. */
  ghost predicate Orderly(process: string, groups: Groups, a: Answers) {
    && NonEmpty(groups) && UniqueKeys(groups) && a.checkReachable
    && (forall k :: 0 <= k < |groups| ==>
         && groups[k].0.process == process && ColonFree(groups[k].0)
         && a.setReachable(groups[k].0) && groups[k].1[0].channel.cooldownMinutes > 0
         && a.checkAt <= a.sentAt(groups[k].0) <= a.setAt(groups[k].0))
    && forall j, k :: 0 <= j < k < |groups| ==> a.setAt(groups[j].0) <= a.sentAt(groups[k].0)
  }

  function Keys(groups: Groups): set<Key> {
    set k | 0 <= k < |groups| :: groups[k].0
  }

  /** The keys of the groups from `n` on that were not cooling. */
  function ClearedFrom(groups: Groups, cool: Key -> bool, n: nat): set<Key> {
    set k | n <= k < |groups| && !cool(groups[k].0) :: groups[k].0
  }

  function GroupSteps(process: string, lookup: Lookup, groups: Groups, cool: Key -> bool, a: Answers, n: nat): seq<Step>
    requires NonEmpty(groups) && n < |groups|
  {
    var (key, members) := groups[n];
    if cool(key) then []
    else if !a.accepts(MailAt(process, lookup, groups, n)) then [Refused(key)]
    else [Send(key, members[0].channel.cooldownMinutes, a.sentAt(key)), Step.SetCooldown(process, a.setAt(key))]
  }

  /** The batch check and the first `n` groups. */
  function StepsUpTo(process: string, lookup: Lookup, groups: Groups, cool: Key -> bool, a: Answers, n: nat): seq<Step>
    requires NonEmpty(groups) && n <= |groups|
  {
    if n == 0 then [Check(process, Keys(groups), a.checkAt)]
    else StepsUpTo(process, lookup, groups, cool, a, n - 1) + GroupSteps(process, lookup, groups, cool, a, n - 1)
  }

  /** Mail `m` with the instants of its send and of its cooldown's set, as the log has it. */
  ghost predicate Logged(sent: Sent, m: Mail, a: Answers) {
    sent.key == m.key && sent.sentAt == a.sentAt(m.key) && sent.setAt == Some(a.setAt(m.key))
  }

  /** Where the step system stands after the first `n` groups: the same Redis, the mails logged in order,
      and the keys of the remaining groups still cleared. */
  ghost predicate StandsAt(s: State, t: State, process: string, groups: Groups, cool: Key -> bool, a: Answers,
                           o: Outcome, n: nat) {
    && t.redis == o.redis && !o.aborted
    && t.running == s.running[process := Tick(ClearedFrom(groups, cool, n), None)]
    && a.checkAt <= t.now && (forall k :: n <= k < |groups| ==> t.now <= a.sentAt(groups[k].0))
    && |t.log| == |s.log| + |o.mails| && t.log[..|s.log|] == s.log
    && forall i :: 0 <= i < |o.mails| ==> Logged(t.log[|s.log| + i], o.mails[i], a)
  }

  lemma CheckStep(prefix: string, s: State, process: string, groups: Groups, cool: Key -> bool, a: Answers,
                  start: Outcome)
    returns (t: State)
    requires Orderly(process, groups, a) && process !in s.running && s.now <= a.checkAt
    requires start.redis == s.redis && start.mails == [] && !start.aborted
    requires forall k :: cool(k) == Live(s.redis, KeyText(prefix, k), a.checkAt)
    ensures Leads(prefix, s, [Check(process, Keys(groups), a.checkAt)], t)
    ensures StandsAt(s, t, process, groups, cool, a, start, 0)
  {
    hide KeyText, Live;
    var keys := Keys(groups);
    var cleared := set k | k in keys && !Live(s.redis, KeyText(prefix, k), a.checkAt);
    t := s.(now := a.checkAt, running := s.running[process := Tick(cleared, None)]);
    assert cleared == ClearedFrom(groups, cool, 0);
    assert Next(prefix, s, Check(process, keys, a.checkAt), t);
    LeadsOneMore(prefix, s, [], s, Check(process, keys, a.checkAt), t);
    assert [] + [Check(process, keys, a.checkAt)] == [Check(process, keys, a.checkAt)];
    assert t.log[..|s.log|] == s.log;
  }

  lemma ClearedNext(groups: Groups, cool: Key -> bool, n: nat)
    requires UniqueKeys(groups) && n < |groups|
    ensures ClearedFrom(groups, cool, n + 1) == ClearedFrom(groups, cool, n) - {groups[n].0}
    ensures groups[n].0 in ClearedFrom(groups, cool, n) <==> !cool(groups[n].0)
  {
  }

  lemma RefusedStep(prefix: string, s: State, u: State, process: string, groups: Groups, cool: Key -> bool, a: Answers,
                    o: Outcome, n: nat) returns (t: State)
    requires Orderly(process, groups, a) && n < |groups| && StandsAt(s, u, process, groups, cool, a, o, n)
    ensures Next(prefix, u, Refused(groups[n].0), t) && StandsAt(s, t, process, groups, cool, a, o, n + 1)
  {
    hide KeyText, ClearedFrom;
    ClearedNext(groups, cool, n);
    t := u.(running := u.running[process := Tick(ClearedFrom(groups, cool, n + 1), None)]);
  }

  lemma SendSteps(prefix: string, s: State, u: State, process: string, groups: Groups, cool: Key -> bool, a: Answers,
                  o: Outcome, n: nat, mail: Mail) returns (v: State, t: State)
    requires Orderly(process, groups, a) && n < |groups| && StandsAt(s, u, process, groups, cool, a, o, n)
    requires !cool(groups[n].0) && mail.key == groups[n].0
    ensures var (key, members) := groups[n]; var minutes := members[0].channel.cooldownMinutes; var at := a.setAt(key);
      && Next(prefix, u, Send(key, minutes, a.sentAt(key)), v) && Next(prefix, v, Step.SetCooldown(process, at), t)
      && StandsAt(s, t, process, groups, cool, a,
                  Outcome(o.mails + [mail], o.local[KeyText(prefix, key) := at + LOCAL_TTL],
                          RedisAfterSet(o.redis, KeyText(prefix, key), minutes, at, true), false), n + 1)
  {
    hide KeyText, ClearedFrom;
    ClearedNext(groups, cool, n);
    var (key, members) := groups[n];
    var minutes, at := members[0].channel.cooldownMinutes, a.setAt(groups[n].0);
    var cleared := ClearedFrom(groups, cool, n + 1);
    v := u.(now := a.sentAt(key), log := u.log + [Sent(key, a.sentAt(key), None, minutes)],
            running := u.running[process := Tick(cleared, Some(|u.log|))]);
    t := v.(now := at, redis := RedisAfterSet(v.redis, KeyText(prefix, key), minutes, at, true),
            log := u.log + [Sent(key, a.sentAt(key), Some(at), minutes)],
            running := u.running[process := Tick(cleared, None)]);
    assert v.log[|u.log| := Sent(key, a.sentAt(key), Some(at), minutes)] == t.log;
    assert v.running[process := v.running[process].(unset := None)] == t.running;
    assert t.log[..|s.log|] == u.log[..|s.log|];
  }

  lemma {:induction false} TickLeads(prefix: string, s: State, process: string, lookup: Lookup, groups: Groups,
                                     cool: Key -> bool, a: Answers, start: Outcome, n: nat) returns (t: State)
    requires Orderly(process, groups, a) && process !in s.running && s.now <= a.checkAt && n <= |groups|
    requires start.redis == s.redis && start.mails == [] && !start.aborted
    requires forall k :: cool(k) == Live(s.redis, KeyText(prefix, k), a.checkAt)
    ensures NonEmpty(groups[..n])
    ensures Leads(prefix, s, StepsUpTo(process, lookup, groups, cool, a, n), t)
    ensures StandsAt(s, t, process, groups, cool, a, Sending(process, lookup, groups[..n], cool, prefix, a, start), n)
  {
    hide KeyText, Live, MailFor, Next, Leads, Orderly, StandsAt;
    assert NonEmpty(groups) by { OrderlyIsNonEmpty(process, groups, a); }
    if n == 0 {
      assert groups[..0] == [];
      t := CheckStep(prefix, s, process, groups, cool, a, start);
    } else {
      var u := TickLeads(prefix, s, process, lookup, groups, cool, a, start, n - 1);
      assert groups[..n][..n - 1] == groups[..n - 1];
      t := GroupLeads(prefix, s, u, process, lookup, groups, cool, a,
                      Sending(process, lookup, groups[..n - 1], cool, prefix, a, start), n - 1,
                      StepsUpTo(process, lookup, groups, cool, a, n - 1));
    }
  }

  lemma OrderlyIsNonEmpty(process: string, groups: Groups, a: Answers)
    requires Orderly(process, groups, a)
    ensures NonEmpty(groups)
  {
  }

  lemma GroupLeads(prefix: string, s: State, u: State, process: string, lookup: Lookup, groups: Groups,
                   cool: Key -> bool, a: Answers, o: Outcome, n: nat, before: seq<Step>) returns (t: State)
    requires Orderly(process, groups, a) && n < |groups|
    requires Leads(prefix, s, before, u) && StandsAt(s, u, process, groups, cool, a, o, n)
    ensures NonEmpty(groups)
    ensures Leads(prefix, s, before + GroupSteps(process, lookup, groups, cool, a, n), t)
    ensures StandsAt(s, t, process, groups, cool, a,
                     SendOne(process, lookup, groups[n].0, groups[n].1, cool(groups[n].0), prefix, a, o), n + 1)
  {
    hide KeyText, MailFor, Next, Leads;
    var (key, members) := groups[n];
    var mail := MailAt(process, lookup, groups, n);
    if cool(key) {
      t := u;
      assert before + [] == before;
      ClearedNext(groups, cool, n);
      assert ClearedFrom(groups, cool, n) - {key} == ClearedFrom(groups, cool, n);
    } else if !a.accepts(mail) {
      t := RefusedStep(prefix, s, u, process, groups, cool, a, o, n);
      LeadsOneMore(prefix, s, before, u, Refused(key), t);
    } else {
      var v;
      v, t := SendSteps(prefix, s, u, process, groups, cool, a, o, n, mail);
      var send := Send(key, members[0].channel.cooldownMinutes, a.sentAt(key));
      var put := Step.SetCooldown(process, a.setAt(key));
      LeadsOneMore(prefix, s, before, u, send, v);
      LeadsOneMore(prefix, s, before + [send], v, put, t);
      assert before + [send] + [put] == before + [send, put];
    }
  }

  /** A dispatch with Redis reachable is a tick: a check, for each group in turn a refusal or a send with
      its cooldown, and the end of the tick; the step system ends with the program's own Redis, exactly
      the program's mails logged, and everything it guarantees. */
  lemma DispatchIsTick(prefix: string, s: State, process: string, lookup: Lookup, groups: Groups, cool: Key -> bool,
                       a: Answers, start: Outcome) returns (t: State)
    requires Orderly(process, groups, a) && process !in s.running && s.now <= a.checkAt
    requires start.redis == s.redis && start.mails == [] && !start.aborted
    requires forall k :: cool(k) == Live(s.redis, KeyText(prefix, k), a.checkAt)
    ensures NonEmpty(groups)
    ensures Leads(prefix, s, StepsUpTo(process, lookup, groups, cool, a, |groups|) + [Done(process)], t)
    ensures var o := Sending(process, lookup, groups, cool, prefix, a, start);
      && t.redis == o.redis && t.running == s.running && |t.log| == |s.log| + |o.mails| && t.log[..|s.log|] == s.log
      && forall i :: 0 <= i < |o.mails| ==> Logged(t.log[|s.log| + i], o.mails[i], a)
    ensures RateLimit.Inv(prefix, s) ==> RateLimit.Inv(prefix, t) && Spaced(t.log)
  {
    hide KeyText, Live, MailFor, Sending, StepsUpTo, Leads;
    var steps := StepsUpTo(process, lookup, groups, cool, a, |groups|);
    var u := TickLeads(prefix, s, process, lookup, groups, cool, a, start, |groups|);
    assert groups[..|groups|] == groups;
    t := u.(running := u.running - {process});
    assert t.running == s.running;
    LeadsOneMore(prefix, s, steps, u, Done(process), t);
    if RateLimit.Inv(prefix, s) { LeadsKeepsInv(prefix, s, steps + [Done(process)], t); }
  }
}
