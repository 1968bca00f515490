/** Sending what is pending: one mail per group, behind the group's cooldown. */
module Dispatch {
  import opened Wrappers
  import opened Sorting
  import opened Dicts
  import opened Profiles
  import opened Threshold
  import opened Buckets
  import opened Cooldown

  /** Machine id to model; a machine without a model has "". */
  type Lookup = map<string, string>

  datatype Mail = Mail(
    key: Key, representative: Breach, affected: Option<seq<string>>, displayId: Option<string>, members: seq<Breach>)

  // ---------------------------------------------------------------- groups

  function SeverityText(s: Severity): string {
    if s == WARNING then "WARNING" else "CRITICAL"
  }

  function GroupValue(groupBy: GroupBy, b: Breach, model: string, process: string): string {
    match groupBy
    case ByModel => model
    case ByProcess => process
    case ByEqp => b.eqpId
  }

  function ValueFor(process: string, lookup: Lookup, p: Pending): string
    requires p.breach.eqpId in lookup
  {
    GroupValue(p.channel.groupBy, p.breach, lookup[p.breach.eqpId], process)
  }

  /** An empty group value falls back on the machine. */
  function MakeKey(process: string, b: Breach, notify: string, value: string): Key {
    Key(process, if value != "" then value else b.eqpId, b.proc, notify, SeverityText(b.severity))
  }

  function GroupKey(process: string, lookup: Lookup, p: Pending): Option<Key> {
    if p.breach.eqpId !in lookup then None
    else Some(MakeKey(process, p.breach, p.notifyName, ValueFor(process, lookup, p)))
  }

  function InGroup(process: string, lookup: Lookup, key: Key): Pending -> bool {
    (p: Pending) => GroupKey(process, lookup, p) == Some(key)
  }

  type Groups = Dict<Key, seq<Pending>>

  function With(groups: Groups, key: Key, p: Pending): Groups {
    var found := Get(groups, key);
    Put(groups, key, (if found.Some? then found.value else []) + [p])
  }

  /** The groups in the order they first appear, members in the order they came. */
  function Grouped(process: string, lookup: Lookup, pending: seq<Pending>): Groups {
    if pending == [] then []
    else
      var n := |pending| - 1;
      var key := GroupKey(process, lookup, pending[n]);
      var before := Grouped(process, lookup, pending[..n]);
      if key.None? then before else With(before, key.value, pending[n])
  }

  method GroupPending(process: string, lookup: Lookup, pending: seq<Pending>) returns (groups: Groups)
    ensures groups == Grouped(process, lookup, pending)
  {
    hide GroupKey;
    groups := [];
    for i := 0 to |pending|
      invariant groups == Grouped(process, lookup, pending[..i])
    {
      assert pending[..i + 1][..i] == pending[..i];
      var key := GroupKey(process, lookup, pending[i]);
      if key.Some? { groups := With(groups, key.value, pending[i]); }
    }
    assert pending[..|pending|] == pending;
  }

  /** A group's members are exactly the pending alerts with its key, in order; none is lost. */
  lemma {:induction false} GroupIs(process: string, lookup: Lookup, pending: seq<Pending>, key: Key)
    ensures UniqueKeys(Grouped(process, lookup, pending))
    ensures var members := Filter(InGroup(process, lookup, key), pending);
      Get(Grouped(process, lookup, pending), key) == if members == [] then None else Some(members)
  {
    hide GroupKey, Filter;
    if pending == [] {
      NothingToFilter(InGroup(process, lookup, key));
    } else {
      var n := |pending| - 1;
      var p, keep := pending[n], InGroup(process, lookup, key);
      var before, its := Grouped(process, lookup, pending[..n]), GroupKey(process, lookup, p);
      GroupIs(process, lookup, pending[..n], key);
      FilterConcat(keep, pending[..n], [p]);
      FilterOne(keep, p);
      assert pending == pending[..n] + [p];
      assert Filter(keep, pending[..n]) + [] == Filter(keep, pending[..n]);
      if its.Some? {
        var found := Get(before, its.value);
        var v := (if found.Some? then found.value else []) + [p];
        PutKeeps(before, its.value, v);
        GetOfPut(before, its.value, v, key);
      }
    }
  }

  lemma NothingToFilter<T>(keep: T -> bool)
    ensures Filter(keep, []) == []
  {
  }

  lemma {:induction false} GroupsNotEmpty(process: string, lookup: Lookup, pending: seq<Pending>, k: nat)
    requires k < |Grouped(process, lookup, pending)|
    ensures var g := Grouped(process, lookup, pending)[k];
      g.1 != [] && g.1 == Filter(InGroup(process, lookup, g.0), pending)
  {
    hide GroupKey, Filter;
    var groups := Grouped(process, lookup, pending);
    GroupIs(process, lookup, pending, groups[k].0);
    GetByMember(groups, k);
  }

  /** The first pending alert with that key is at `a`. */
  ghost predicate FirstAt(process: string, lookup: Lookup, pending: seq<Pending>, key: Key, a: nat) {
    && a < |pending| && GroupKey(process, lookup, pending[a]) == Some(key)
    && forall b :: 0 <= b < a ==> GroupKey(process, lookup, pending[b]) != Some(key)
  }

  lemma KeyIsPending(process: string, lookup: Lookup, pending: seq<Pending>, k: nat) returns (a: nat)
    requires k < |Grouped(process, lookup, pending)|
    ensures a < |pending| && GroupKey(process, lookup, pending[a]) == Some(Grouped(process, lookup, pending)[k].0)
  {
    hide GroupKey, Filter, Grouped;
    var (key, members) := Grouped(process, lookup, pending)[k];
    GroupsNotEmpty(process, lookup, pending, k);
    FilterMembers(InGroup(process, lookup, key), pending);
    assert members[0] in members;
    a :| 0 <= a < |pending| && pending[a] == members[0];
  }

  /** The groups come in the order of their first alerts. */
  lemma {:induction false} GroupsInOrder(process: string, lookup: Lookup, pending: seq<Pending>, i: nat, j: nat,
                                         a: nat, b: nat)
    requires i < j < |Grouped(process, lookup, pending)|
    requires FirstAt(process, lookup, pending, Grouped(process, lookup, pending)[i].0, a)
    requires FirstAt(process, lookup, pending, Grouped(process, lookup, pending)[j].0, b)
    ensures a < b
  {
    hide GroupKey;
    var n := |pending| - 1;
    var front := pending[..n];
    var before, its := Grouped(process, lookup, front), GroupKey(process, lookup, pending[n]);
    if its.Some? {
      var found := Get(before, its.value);
      PutKeepsPlaces(before, its.value, (if found.Some? then found.value else []) + [pending[n]]);
    }
    var k := KeyIsPending(process, lookup, front, i);
    assert front[k] == pending[k] && a <= k;
    if j < |before| {
      var l := KeyIsPending(process, lookup, front, j);
      assert front[l] == pending[l] && b <= l;
      GroupsInOrder(process, lookup, front, i, j, a, b);
    } else {
      NewKeyIsLast(process, lookup, pending, b);
    }
  }

  lemma NewKeyIsLast(process: string, lookup: Lookup, pending: seq<Pending>, b: nat)
    requires pending != [] && b < |pending|
    requires var n := |pending| - 1; var its := GroupKey(process, lookup, pending[n]);
      its.Some? && !HasKey(Grouped(process, lookup, pending[..n]), its.value)
      && GroupKey(process, lookup, pending[b]) == its
    ensures b == |pending| - 1
  {
    hide GroupKey, Filter, Grouped;
    var front := pending[..|pending| - 1];
    if b < |front| {
      var key := GroupKey(process, lookup, pending[b]).value;
      GroupIs(process, lookup, front, key);
      FilterMembers(InGroup(process, lookup, key), front);
      assert front[b] in front && front[b] in Filter(InGroup(process, lookup, key), front);
      GetIff(Grouped(process, lookup, front), key);
    }
  }

  // ---------------------------------------------------------------- which alerts share a group

  /** The machine, model or process a channel groups by; a machine without a model speaks for itself. */
  ghost predicate Addresses(process: string, lookup: Lookup, key: Key, p: Pending) {
    && p.breach.eqpId in lookup
    && key.process == process && key.proc == p.breach.proc && key.notify == p.notifyName
    && (p.breach.severity == WARNING ==> key.severity == "WARNING")
    && (p.breach.severity == CRITICAL ==> key.severity == "CRITICAL")
    && var model := lookup[p.breach.eqpId];
       match p.channel.groupBy
       case ByEqp => key.group == p.breach.eqpId
       case ByModel => key.group == (if model == "" then p.breach.eqpId else model)
       case ByProcess => key.group == (if process == "" then p.breach.eqpId else process)
  }

  lemma GroupKeyIff(process: string, lookup: Lookup, key: Key, p: Pending)
    ensures GroupKey(process, lookup, p) == Some(key) <==> Addresses(process, lookup, key, p)
  {
  }

  /** A group is for one process, proc, channel name and severity, and for one machine, model or process as
      its members' channels say; and all pending alerts it is for are its members. */
  lemma GroupAddresses(process: string, lookup: Lookup, pending: seq<Pending>, k: nat, p: Pending)
    requires k < |Grouped(process, lookup, pending)|
    ensures var (key, members) := Grouped(process, lookup, pending)[k];
      p in members <==> p in pending && Addresses(process, lookup, key, p)
  {
    hide GroupKey, Filter, Grouped, Addresses;
    var key := Grouped(process, lookup, pending)[k].0;
    GroupsNotEmpty(process, lookup, pending, k);
    FilterMembers(InGroup(process, lookup, key), pending);
    GroupKeyIff(process, lookup, key, p);
  }

  /** Some group holds both. */
  ghost predicate ShareGroup(process: string, lookup: Lookup, pending: seq<Pending>, p: Pending, q: Pending) {
    exists k :: 0 <= k < |Grouped(process, lookup, pending)|
      && p in Grouped(process, lookup, pending)[k].1 && q in Grouped(process, lookup, pending)[k].1
  }

  /** Machines `e` of model `a` and `f` of model `b` count as one under a channel's grouping. */
  predicate OneGroup(groupBy: GroupBy, process: string, e: string, a: string, f: string, b: string) {
    match groupBy
    case ByEqp => e == f
    case ByModel =>
      if a != "" && b != "" then a == b else if a != "" then a == f else if b != "" then b == e else e == f
    case ByProcess => process != "" || e == f
  }

  /** Two pending alerts whose channels group alike share a group, and so a mail, exactly when proc, channel
      name and severity are the same and so is the machine, the model or the process. */
  lemma ShareGroupIff(process: string, lookup: Lookup, pending: seq<Pending>, p: Pending, q: Pending)
    requires p in pending && q in pending && p.breach.eqpId in lookup && q.breach.eqpId in lookup
    requires p.channel.groupBy == q.channel.groupBy
    ensures ShareGroup(process, lookup, pending, p, q) <==>
      && p.breach.proc == q.breach.proc && p.notifyName == q.notifyName && p.breach.severity == q.breach.severity
      && OneGroup(p.channel.groupBy, process, p.breach.eqpId, lookup[p.breach.eqpId],
                  q.breach.eqpId, lookup[q.breach.eqpId])
  {
    var key := GroupKey(process, lookup, p).value;
    GroupKeyIff(process, lookup, key, p);
    GroupKeyIff(process, lookup, key, q);
    var groups := Grouped(process, lookup, pending);
    hide GroupKey, Filter, Grouped, OneGroup;
    var k := GroupOf(process, lookup, pending, p, key);
    GroupAddresses(process, lookup, pending, k, q);
    if l :| 0 <= l < |groups| && p in groups[l].1 && q in groups[l].1 {
      GroupAddresses(process, lookup, pending, l, p);
      GroupAddresses(process, lookup, pending, l, q);
    }
    KeysAlikeIff(process, lookup, key, p, q);
  }

  lemma KeysAlikeIff(process: string, lookup: Lookup, key: Key, p: Pending, q: Pending)
    requires Addresses(process, lookup, key, p) && q.breach.eqpId in lookup && p.channel.groupBy == q.channel.groupBy
    ensures Addresses(process, lookup, key, q) <==>
      && p.breach.proc == q.breach.proc && p.notifyName == q.notifyName && p.breach.severity == q.breach.severity
      && OneGroup(p.channel.groupBy, process, p.breach.eqpId, lookup[p.breach.eqpId],
                  q.breach.eqpId, lookup[q.breach.eqpId])
  {
    assert "WARNING"[0] != "CRITICAL"[0];
  }

  lemma GroupOf(process: string, lookup: Lookup, pending: seq<Pending>, p: Pending, key: Key) returns (k: nat)
    requires p in pending && GroupKey(process, lookup, p) == Some(key)
    ensures k < |Grouped(process, lookup, pending)| && Grouped(process, lookup, pending)[k].0 == key
    ensures p in Grouped(process, lookup, pending)[k].1
  {
    hide GroupKey, Filter, Grouped;
    var members := Filter(InGroup(process, lookup, key), pending);
    GroupIs(process, lookup, pending, key);
    FilterMembers(InGroup(process, lookup, key), pending);
    var groups := Grouped(process, lookup, pending);
    GetIff(groups, key);
    k :| 0 <= k < |groups| && groups[k] == (key, members);
  }

  // ---------------------------------------------------------------- one mail

  /** Ascending and without repeats. */
  ghost predicate StrAscending(s: seq<string>) {
    SortedBy(StrLe, s) && NoDups(s)
  }

  function AddString(s: seq<string>, x: string): (r: seq<string>) {
    if s == [] then [x]
    else if s[0] == x then s
    else if StrLe(x, s[0]) then [x] + s
    else [s[0]] + AddString(s[1..], x)
  }

  lemma {:induction false} AddStringMembers(s: seq<string>, x: string)
    ensures forall y :: y in AddString(s, x) <==> y in s || y == x
  {
    hide StrLe;
    if s != [] {
      assert s == [s[0]] + s[1..];
      AddStringMembers(s[1..], x);
    }
  }

  lemma InFront(x: string, s: seq<string>)
    requires StrAscending(s) && forall y :: y in s ==> StrLe(x, y) && x != y
    ensures StrAscending([x] + s)
  {
    hide StrLe;
    forall i | 0 <= i < |s| ensures StrLe(x, s[i]) && x != s[i] { assert s[i] in s; }
  }

  lemma SmallerInFront(x: string, s: seq<string>)
    requires StrAscending(s) && s != [] && StrLe(x, s[0]) && x != s[0]
    ensures StrAscending([x] + s)
  {
    StrLeIsOrder();
    hide StrLe;
    forall y | y in s ensures StrLe(x, y) && x != y {
      var i :| 0 <= i < |s| && s[i] == y;
      assert i > 0 ==> StrLe(s[0], s[i]) && s[0] != s[i];
    }
    InFront(x, s);
  }

  lemma {:induction false} AddStringKeeps(s: seq<string>, x: string)
    requires StrAscending(s)
    ensures StrAscending(AddString(s, x))
    ensures forall y :: y in AddString(s, x) <==> y in s || y == x
  {
    AddStringMembers(s, x);
    if s != [] && s[0] != x && StrLe(x, s[0]) {
      SmallerInFront(x, s);
    } else if s != [] && s[0] != x {
      AddStringKeeps(s[1..], x);
      StrLeIsOrder();
      hide StrLe, StrAscending;
      var t := AddString(s[1..], x);
      forall y | y in t ensures StrLe(s[0], y) && s[0] != y {
        if y in s[1..] { FirstIsLeast(s, y); }
      }
      InFront(s[0], t);
    }
  }

  lemma FirstIsLeast(s: seq<string>, y: string)
    requires StrAscending(s) && s != [] && y in s[1..]
    ensures StrLe(s[0], y) && s[0] != y
  {
    hide StrLe;
    var i :| 0 <= i < |s[1..]| && s[1..][i] == y;
    assert s[i + 1] == y;
  }

  /** The machines of a group, ascending. */
  function MachinesOf(members: seq<Pending>): seq<string> {
    if members == [] then [] else AddString(MachinesOf(members[1..]), members[0].breach.eqpId)
  }

  lemma {:induction false} MachinesAre(members: seq<Pending>)
    ensures StrAscending(MachinesOf(members))
    ensures forall e :: e in MachinesOf(members) <==> exists m :: m in members && m.breach.eqpId == e
  {
    if members != [] {
      MachinesAre(members[1..]);
      AddStringKeeps(MachinesOf(members[1..]), members[0].breach.eqpId);
      hide AddString, StrAscending;
      assert members == [members[0]] + members[1..];
      forall e ensures e in MachinesOf(members) <==> exists m :: m in members && m.breach.eqpId == e {
        if e == members[0].breach.eqpId { assert members[0] in members; }
        if m :| m in members[1..] && m.breach.eqpId == e { assert m in members; }
      }
    }
  }

  /** The first member of machine `e`, or the last member when there is none. */
  function FirstOf(members: seq<Pending>, e: string): (m: Pending)
    requires members != []
    ensures m in members && ((exists x :: x in members && x.breach.eqpId == e) ==> m.breach.eqpId == e)
  {
    assert members == [members[0]] + members[1..];
    if members[0].breach.eqpId == e || |members| == 1 then members[0] else FirstOf(members[1..], e)
  }

  function BreachOf(p: Pending): Breach {
    p.breach
  }

  function MailFor(process: string, lookup: Lookup, key: Key, members: seq<Pending>): Mail
    requires members != []
  {
    var machines := MachinesOf(members);
    MachinesAre(members);
    assert members[0].breach.eqpId in machines;
    var rep := FirstOf(members, machines[0]);
    var grouped := members[0].channel.groupBy != ByEqp;
    var last := members[|members| - 1];
    var value := if last.breach.eqpId in lookup then ValueFor(process, lookup, last) else "";
    Mail(key, rep.breach, if grouped then Some(machines) else None, if grouped then Some(value) else None,
         Map(BreachOf, members))
  }

  /** Position `i` of `members` is the first one of the smallest machine. */
  ghost predicate SpeaksFirst(members: seq<Pending>, i: nat) {
    && i < |members|
    && (forall j :: 0 <= j < |members| ==> StrLe(members[i].breach.eqpId, members[j].breach.eqpId))
    && forall j :: 0 <= j < i ==> members[j].breach.eqpId != members[i].breach.eqpId
  }

  /** What the headline of a group send names: the machine, model or process of the last member. */
  ghost predicate Headlines(process: string, lookup: Lookup, last: Pending, displayId: string) {
    last.breach.eqpId in lookup ==>
      match last.channel.groupBy
      case ByEqp => displayId == last.breach.eqpId
      case ByModel => displayId == lookup[last.breach.eqpId]
      case ByProcess => displayId == process
  }

  /** `mail` is the mail of a group with these members: it speaks for the machine with the smallest id, by that
      machine's first member; as a group send, it lists every machine once and is headed by the group. */
  ghost predicate Represents(process: string, lookup: Lookup, members: seq<Pending>, mail: Mail)
    requires members != []
  {
    && |mail.members| == |members| && (forall i :: 0 <= i < |members| ==> mail.members[i] == members[i].breach)
    && (exists i: nat :: SpeaksFirst(members, i) && mail.representative == members[i].breach)
    && (mail.affected.Some? <==> members[0].channel.groupBy != ByEqp)
    && (mail.displayId.Some? <==> members[0].channel.groupBy != ByEqp)
    && (mail.affected.Some? ==>
          && StrAscending(mail.affected.value)
          && forall e :: e in mail.affected.value <==> exists m :: m in members && m.breach.eqpId == e)
    && (mail.displayId.Some? ==> Headlines(process, lookup, members[|members| - 1], mail.displayId.value))
  }

  lemma {:induction false} FirstOfAt(members: seq<Pending>, e: string) returns (i: nat)
    requires exists x :: x in members && x.breach.eqpId == e
    ensures members != []
    ensures i < |members| && members[i] == FirstOf(members, e) && members[i].breach.eqpId == e
    ensures forall j :: 0 <= j < i ==> members[j].breach.eqpId != e
  {
    assert members == [members[0]] + members[1..];
    if members[0].breach.eqpId == e {
      i := 0;
    } else {
      i := FirstOfAt(members[1..], e);
      i := i + 1;
    }
  }

  lemma SmallestSpeaks(members: seq<Pending>, smallest: string) returns (i: nat)
    requires members != [] && MachinesOf(members) != [] && smallest == MachinesOf(members)[0]
    ensures SpeaksFirst(members, i) && members[i] == FirstOf(members, smallest)
  {
    MachinesAre(members);
    StrLeIsOrder();
    hide StrLe, MachinesOf, FirstOf;
    var machines := MachinesOf(members);
    assert smallest in machines;
    i := FirstOfAt(members, smallest);
    forall j | 0 <= j < |members| ensures StrLe(smallest, members[j].breach.eqpId) {
      assert members[j] in members && members[j].breach.eqpId in machines;
      var k :| 0 <= k < |machines| && machines[k] == members[j].breach.eqpId;
      assert k > 0 ==> StrLe(machines[0], machines[k]);
    }
  }

  lemma MailRepresents(process: string, lookup: Lookup, key: Key, members: seq<Pending>)
    requires members != []
    ensures MailFor(process, lookup, key, members).key == key
    ensures Represents(process, lookup, members, MailFor(process, lookup, key, members))
  {
    MachinesAre(members);
    hide StrLe, MachinesOf, FirstOf, StrAscending;
    assert members[0].breach.eqpId in MachinesOf(members);
    var i := SmallestSpeaks(members, MachinesOf(members)[0]);
  }

  /** `mail` is a group's: it goes to all the pending alerts that its key is for, in order, and to no others. */
  ghost predicate MailsGroup(process: string, lookup: Lookup, pending: seq<Pending>, mail: Mail,
                             members: seq<Pending>) {
    && members != [] && Represents(process, lookup, members, mail)
    && members == Filter(InGroup(process, lookup, mail.key), pending)
    && forall p :: p in members <==> p in pending && Addresses(process, lookup, mail.key, p)
  }

  // ---------------------------------------------------------------- the sending loop

  /** What the world answers during one dispatch: the clock and Redis at the batch check and at each
      group's set, the clock at each send, and whether the mail gateway takes a mail. */
  datatype Answers = Answers(
    checkAt: int, checkReachable: bool, sentAt: Key -> int, accepts: Mail -> bool, setAt: Key -> int,
    setReachable: Key -> bool)

  /** `aborted` when Redis refused an expiry and the rest of the groups went unsent. */
  datatype Outcome = Outcome(mails: seq<Mail>, local: Entries, redis: Entries, aborted: bool)

  ghost predicate NonEmpty(groups: Groups) {
    forall k :: 0 <= k < |groups| ==> groups[k].1 != []
  }

  /** What becomes of one group. `cool` says which keys were cooling at the check. */
  function SendOne(process: string, lookup: Lookup, key: Key, members: seq<Pending>, cool: bool, prefix: string,
                   a: Answers, before: Outcome): Outcome
    requires members != []
  {
    var mail := MailFor(process, lookup, key, members);
    if before.aborted || cool || !a.accepts(mail) then before
    else
      var minutes, text := members[0].channel.cooldownMinutes, KeyText(prefix, key);
      Outcome(before.mails + [mail], before.local[text := a.setAt(key) + LOCAL_TTL],
              RedisAfterSet(before.redis, text, minutes, a.setAt(key), a.setReachable(key)),
              a.setReachable(key) && minutes <= 0)
  }

  /** After the first groups have been handled. */
  function Sending(process: string, lookup: Lookup, groups: Groups, cool: Key -> bool, prefix: string,
                   a: Answers, start: Outcome): Outcome
    requires NonEmpty(groups)
  {
    if groups == [] then start
    else
      var n := |groups| - 1;
      SendOne(process, lookup, groups[n].0, groups[n].1, cool(groups[n].0), prefix, a,
              Sending(process, lookup, groups[..n], cool, prefix, a, start))
  }

  lemma OneGroupMore(process: string, lookup: Lookup, groups: Groups, cool: Key -> bool, prefix: string, a: Answers,
                     start: Outcome, k: nat)
    requires NonEmpty(groups) && k < |groups|
    ensures Sending(process, lookup, groups[..k + 1], cool, prefix, a, start) ==
      SendOne(process, lookup, groups[k].0, groups[k].1, cool(groups[k].0), prefix, a,
              Sending(process, lookup, groups[..k], cool, prefix, a, start))
  {
    assert groups[..k + 1][..k] == groups[..k];
  }

  function CoolAt(local: Entries, redis: Entries, prefix: string, a: Answers): Key -> bool {
    (key: Key) => Cooling(local, redis, KeyText(prefix, key), a.checkAt, a.checkReachable)
  }

  method SendGroups(mgr: AlertCooldownManager, process: string, lookup: Lookup, groups: Groups, a: Answers)
    returns (mails: seq<Mail>, aborted: bool)
    requires UniqueKeys(groups) && NonEmpty(groups)
    modifies mgr`local, mgr.redis`entries
    ensures Outcome(mails, mgr.local, mgr.redis.entries, aborted) ==
      Sending(process, lookup, groups, CoolAt(old(mgr.local), old(mgr.redis.entries), mgr.prefix, a), mgr.prefix, a,
              Outcome([], old(mgr.local), old(mgr.redis.entries), false))
  {
    hide SendOne, KeyText, Cooling;
    ghost var cool := CoolAt(mgr.local, mgr.redis.entries, mgr.prefix, a);
    ghost var start := Outcome([], mgr.local, mgr.redis.entries, false);
    var keys := seq(|groups|, i requires 0 <= i < |groups| => groups[i].0);
    var cooling := mgr.IsCoolingDownBatch(keys, a.checkAt, a.checkReachable);
    mails, aborted := [], false;
    assert Sending(process, lookup, groups[..0], cool, mgr.prefix, a, start) == start;
    hide Sending;
    for k := 0 to |groups|
      invariant !aborted
      invariant Outcome(mails, mgr.local, mgr.redis.entries, false) ==
        Sending(process, lookup, groups[..k], cool, mgr.prefix, a, start)
    {
      OneGroupMore(process, lookup, groups, cool, mgr.prefix, a, start, k);
      var (key, members) := groups[k];
      assert keys[k] == key && cooling[key] == cool(key);
      mails, aborted := SendGroup(mgr, process, lookup, key, members, cooling[key], a, mails);
      if aborted {
        AbortedStays(process, lookup, groups, cool, mgr.prefix, a, start, k + 1);
        return;
      }
    }
    assert groups[..|groups|] == groups;
  }

  method SendGroup(mgr: AlertCooldownManager, process: string, lookup: Lookup, key: Key, members: seq<Pending>,
                   cool: bool, a: Answers, sent: seq<Mail>) returns (mails: seq<Mail>, aborted: bool)
    requires members != []
    modifies mgr`local, mgr.redis`entries
    ensures Outcome(mails, mgr.local, mgr.redis.entries, aborted) ==
      SendOne(process, lookup, key, members, cool, mgr.prefix, a,
              Outcome(sent, old(mgr.local), old(mgr.redis.entries), false))
  {
    hide MailFor, KeyText;
    mails, aborted := sent, false;
    if cool { return; }
    var mail := MailFor(process, lookup, key, members);
    if a.accepts(mail) {
      mails := sent + [mail];
      var ok := mgr.SetCooldown(key, members[0].channel.cooldownMinutes, a.setAt(key), a.setReachable(key));
      aborted := !ok;
    }
  }

  lemma {:induction false} AbortedStays(process: string, lookup: Lookup, groups: Groups, cool: Key -> bool,
                                        prefix: string,
                                        a: Answers, start: Outcome, k: nat)
    requires NonEmpty(groups)
    requires k <= |groups| && Sending(process, lookup, groups[..k], cool, prefix, a, start).aborted
    ensures Sending(process, lookup, groups, cool, prefix, a, start)
         == Sending(process, lookup, groups[..k], cool, prefix, a, start)
    decreases |groups|
  {
    hide MailFor, KeyText;
    if k == |groups| {
      assert groups[..k] == groups;
    } else {
      var n := |groups| - 1;
      assert groups[..n][..k] == groups[..k];
      AbortedStays(process, lookup, groups[..n], cool, prefix, a, start, k);
    }
  }

  /** The mail of group `k`. */
  function MailAt(process: string, lookup: Lookup, groups: Groups, k: nat): (m: Mail)
    requires NonEmpty(groups) && k < |groups|
    ensures m.key == groups[k].0
  {
    MailFor(process, lookup, groups[k].0, groups[k].1)
  }

  /** Group `k` is not cooling and the gateway would take its mail. */
  predicate Sendable(process: string, lookup: Lookup, groups: Groups, cool: Key -> bool, a: Answers, k: nat)
    requires NonEmpty(groups)
  {
    k < |groups| && !cool(groups[k].0) && a.accepts(MailAt(process, lookup, groups, k))
  }

  /** Setting group `k`'s cooldown would raise: Redis answers and refuses an expiry that is not positive. */
  predicate Cuts(process: string, lookup: Lookup, groups: Groups, cool: Key -> bool, a: Answers, k: nat)
    requires NonEmpty(groups)
  {
    && Sendable(process, lookup, groups, cool, a, k)
    && groups[k].1[0].channel.cooldownMinutes <= 0 && a.setReachable(groups[k].0)
  }

  /** Group `k` is reached: no sendable group before it cuts the tick short. */
  ghost predicate Reached(process: string, lookup: Lookup, groups: Groups, cool: Key -> bool, a: Answers, k: nat)
    requires NonEmpty(groups)
  {
    forall j: nat :: j < k ==> !Cuts(process, lookup, groups, cool, a, j)
  }

  ghost predicate KeysOnce(mails: seq<Mail>) {
    forall i, j :: 0 <= i < j < |mails| ==> mails[i].key != mails[j].key
  }

  ghost predicate FromGroups(mails: seq<Mail>, process: string, lookup: Lookup, groups: Groups)
    requires NonEmpty(groups)
  {
    forall m :: m in mails ==> exists k: nat :: k < |groups| && m == MailAt(process, lookup, groups, k)
  }

  ghost predicate SentExactly(mails: seq<Mail>, process: string, lookup: Lookup, groups: Groups, cool: Key -> bool,
                              a: Answers)
    requires NonEmpty(groups)
  {
    forall k: nat :: k < |groups| ==>
      (MailAt(process, lookup, groups, k) in mails <==>
        Sendable(process, lookup, groups, cool, a, k) && Reached(process, lookup, groups, cool, a, k))
  }

  ghost predicate SomeCuts(process: string, lookup: Lookup, groups: Groups, cool: Key -> bool, a: Answers)
    requires NonEmpty(groups)
  {
    exists k: nat :: k < |groups| && Cuts(process, lookup, groups, cool, a, k)
  }

  /** No key is mailed twice; a group's mail is sent exactly when the group is sendable and reached, and
      nothing else is sent; and the tick is cut short exactly when some group cuts it. */
  ghost predicate SentRight(o: Outcome, process: string, lookup: Lookup, groups: Groups, cool: Key -> bool, a: Answers)
    requires NonEmpty(groups)
  {
    && KeysOnce(o.mails) && FromGroups(o.mails, process, lookup, groups)
    && SentExactly(o.mails, process, lookup, groups, cool, a)
    && (o.aborted <==> SomeCuts(process, lookup, groups, cool, a))
  }

  /** The groups before the last one look the same without it. */
  lemma FrontAlike(process: string, lookup: Lookup, groups: Groups, cool: Key -> bool, a: Answers, k: nat)
    requires NonEmpty(groups) && k < |groups| - 1
    ensures NonEmpty(groups[..|groups| - 1])
    ensures var front := groups[..|groups| - 1];
      && MailAt(process, lookup, front, k) == MailAt(process, lookup, groups, k)
      && (Sendable(process, lookup, front, cool, a, k) <==> Sendable(process, lookup, groups, cool, a, k))
      && (Cuts(process, lookup, front, cool, a, k) <==> Cuts(process, lookup, groups, cool, a, k))
  {
    hide MailFor;
    assert groups[..|groups| - 1][k] == groups[k];
  }

  /** The groups before the last one all get reached exactly when none of them cuts. */
  lemma FrontCuts(process: string, lookup: Lookup, groups: Groups, cool: Key -> bool, a: Answers)
    requires NonEmpty(groups) && groups != []
    ensures NonEmpty(groups[..|groups| - 1])
    ensures SomeCuts(process, lookup, groups[..|groups| - 1], cool, a)
       <==> !Reached(process, lookup, groups, cool, a, |groups| - 1)
    ensures SomeCuts(process, lookup, groups, cool, a) <==>
      SomeCuts(process, lookup, groups[..|groups| - 1], cool, a) || Cuts(process, lookup, groups, cool, a, |groups| - 1)
  {
    hide MailAt, Sendable, Cuts;
    var n := |groups| - 1;
    forall k: nat | k < n { FrontAlike(process, lookup, groups, cool, a, k); }
    if k: nat :| k < n && Cuts(process, lookup, groups[..n], cool, a, k) {
      assert Cuts(process, lookup, groups, cool, a, k);
    }
    if k: nat :| k < n && Cuts(process, lookup, groups, cool, a, k) {
      assert Cuts(process, lookup, groups[..n], cool, a, k);
    }
  }

  lemma FromGroupsOneMore(mails: seq<Mail>, process: string, lookup: Lookup, groups: Groups)
    requires NonEmpty(groups) && groups != []
    requires NonEmpty(groups[..|groups| - 1]) && FromGroups(mails, process, lookup, groups[..|groups| - 1])
    ensures FromGroups(mails, process, lookup, groups)
    ensures FromGroups(mails + [MailAt(process, lookup, groups, |groups| - 1)], process, lookup, groups)
  {
    hide MailAt;
    var n := |groups| - 1;
    forall m | m in mails ensures exists k: nat :: k < |groups| && m == MailAt(process, lookup, groups, k) {
      var k: nat :| k < n && m == MailAt(process, lookup, groups[..n], k);
      SameMail(process, lookup, groups, k);
      assert m == MailAt(process, lookup, groups, k);
    }
    assert MailAt(process, lookup, groups, n) == MailAt(process, lookup, groups, |groups| - 1);
  }

  lemma SameMail(process: string, lookup: Lookup, groups: Groups, k: nat)
    requires NonEmpty(groups) && k < |groups| - 1
    ensures NonEmpty(groups[..|groups| - 1])
    ensures MailAt(process, lookup, groups[..|groups| - 1], k) == MailAt(process, lookup, groups, k)
  {
    hide MailFor;
  }

  lemma LastMailIsNew(mails: seq<Mail>, process: string, lookup: Lookup, groups: Groups)
    requires UniqueKeys(groups) && groups != [] && NonEmpty(groups)
    requires NonEmpty(groups[..|groups| - 1]) && FromGroups(mails, process, lookup, groups[..|groups| - 1])
    ensures forall i :: 0 <= i < |mails| ==> mails[i].key != groups[|groups| - 1].0
  {
    hide MailAt;
    var front := groups[..|groups| - 1];
    forall i | 0 <= i < |mails| ensures mails[i].key != groups[|groups| - 1].0 {
      assert mails[i] in mails;
      var k: nat :| k < |front| && mails[i] == MailAt(process, lookup, front, k);
    }
  }

  lemma SentExactlyOneMore(mails: seq<Mail>, process: string, lookup: Lookup, groups: Groups, cool: Key -> bool,
                           a: Answers)
    requires UniqueKeys(groups) && groups != [] && NonEmpty(groups) && NonEmpty(groups[..|groups| - 1])
    requires FromGroups(mails, process, lookup, groups[..|groups| - 1])
    requires SentExactly(mails, process, lookup, groups[..|groups| - 1], cool, a)
    ensures var n := |groups| - 1; var mail := MailAt(process, lookup, groups, n);
      if Sendable(process, lookup, groups, cool, a, n) && Reached(process, lookup, groups, cool, a, n)
      then SentExactly(mails + [mail], process, lookup, groups, cool, a)
      else SentExactly(mails, process, lookup, groups, cool, a)
  {
    hide MailAt, Sendable, Cuts, FromGroups, Reached, UniqueKeys;
    LastMailIsNew(mails, process, lookup, groups);
    var n := |groups| - 1;
    var mail := MailAt(process, lookup, groups, n);
    forall k: nat | k < n
      ensures MailAt(process, lookup, groups, k) != mail
      ensures MailAt(process, lookup, groups, k) in mails <==>
        Sendable(process, lookup, groups, cool, a, k) && Reached(process, lookup, groups, cool, a, k)
    {
      StillSentExactly(mails, process, lookup, groups, cool, a, k);
    }
    assert mail !in mails;
  }

  lemma StillSentExactly(mails: seq<Mail>, process: string, lookup: Lookup, groups: Groups, cool: Key -> bool,
                         a: Answers,
                         k: nat)
    requires UniqueKeys(groups) && NonEmpty(groups) && k < |groups| - 1 && NonEmpty(groups[..|groups| - 1])
    requires SentExactly(mails, process, lookup, groups[..|groups| - 1], cool, a)
    ensures MailAt(process, lookup, groups, k) != MailAt(process, lookup, groups, |groups| - 1)
    ensures MailAt(process, lookup, groups, k) in mails <==>
      Sendable(process, lookup, groups, cool, a, k) && Reached(process, lookup, groups, cool, a, k)
  {
    hide MailAt, Sendable, Cuts, Reached;
    assert groups[k].0 != groups[|groups| - 1].0;
    FrontAlike(process, lookup, groups, cool, a, k);
    ReachedAlike(process, lookup, groups, cool, a, k);
  }

  lemma ReachedAlike(process: string, lookup: Lookup, groups: Groups, cool: Key -> bool, a: Answers, k: nat)
    requires NonEmpty(groups) && k < |groups| - 1
    ensures NonEmpty(groups[..|groups| - 1])
    ensures Reached(process, lookup, groups[..|groups| - 1], cool, a, k)
       <==> Reached(process, lookup, groups, cool, a, k)
  {
    hide Cuts;
    FrontAlike(process, lookup, groups, cool, a, k);
    var front := groups[..|groups| - 1];
    if Reached(process, lookup, front, cool, a, k) {
      forall j: nat | j < k ensures !Cuts(process, lookup, groups, cool, a, j) {
        FrontAlike(process, lookup, groups, cool, a, j);
        assert !Cuts(process, lookup, front, cool, a, j);
      }
    }
    if Reached(process, lookup, groups, cool, a, k) {
      forall j: nat | j < k ensures !Cuts(process, lookup, front, cool, a, j) {
        FrontAlike(process, lookup, groups, cool, a, j);
        assert !Cuts(process, lookup, groups, cool, a, j);
      }
    }
  }

  lemma SendOneKeepsRight(process: string, lookup: Lookup, groups: Groups, cool: Key -> bool, prefix: string,
                          a: Answers, before: Outcome)
    requires UniqueKeys(groups) && groups != [] && NonEmpty(groups)
    requires SentRight(before, process, lookup, groups[..|groups| - 1], cool, a)
    ensures var (key, members) := groups[|groups| - 1];
      SentRight(SendOne(process, lookup, key, members, cool(key), prefix, a, before), process, lookup, groups, cool, a)
  {
    var n := |groups| - 1;
    FrontCuts(process, lookup, groups, cool, a);
    LastSent(process, lookup, groups, cool, prefix, a, before);
    FromGroupsOneMore(before.mails, process, lookup, groups);
    LastMailIsNew(before.mails, process, lookup, groups);
    SentExactlyOneMore(before.mails, process, lookup, groups, cool, a);
    hide MailAt, Sendable, Cuts, SendOne, FromGroups, SentExactly, SomeCuts, Reached, UniqueKeys;
    assert before.mails + [] == before.mails;
  }

  /** What the last group adds. */
  lemma LastSent(process: string, lookup: Lookup, groups: Groups, cool: Key -> bool, prefix: string,
                 a: Answers, before: Outcome)
    requires groups != [] && NonEmpty(groups)
    ensures var n := |groups| - 1; var mail := MailAt(process, lookup, groups, n);
      var o := SendOne(process, lookup, groups[n].0, groups[n].1, cool(groups[n].0), prefix, a, before);
      && o.mails == before.mails +
           (if !before.aborted && Sendable(process, lookup, groups, cool, a, n) then [mail] else [])
      && (o.aborted <==> before.aborted || Cuts(process, lookup, groups, cool, a, n))
  {
    hide MailFor, KeyText;
  }

  /** What a tick mails. */
  lemma {:induction false} SendingIs(process: string, lookup: Lookup, groups: Groups, cool: Key -> bool, prefix: string,
                                     a: Answers, start: Outcome)
    requires UniqueKeys(groups) && NonEmpty(groups)
    requires start.mails == [] && !start.aborted
    ensures SentRight(Sending(process, lookup, groups, cool, prefix, a, start), process, lookup, groups, cool, a)
  {
    hide MailFor, SendOne, SentRight;
    if groups == [] {
      NothingSent(process, lookup, groups, cool, a, start);
    } else {
      SendingIs(process, lookup, groups[..|groups| - 1], cool, prefix, a, start);
      SendOneKeepsRight(process, lookup, groups, cool, prefix, a,
                        Sending(process, lookup, groups[..|groups| - 1], cool, prefix, a, start));
    }
  }

  ghost predicate Mailed(prefix: string, mails: seq<Mail>, text: string) {
    exists m :: m in mails && KeyText(prefix, m.key) == text
  }

  /** `until` is an hour after the set of a mail with that key text. */
  ghost predicate HourFromSet(prefix: string, a: Answers, mails: seq<Mail>, text: string, until: int) {
    exists m :: m in mails && KeyText(prefix, m.key) == text && until == a.setAt(m.key) + 3600
  }

  /** The instance remembers each mailed key for an hour from its set, and otherwise what it did before. */
  ghost predicate Remembers(prefix: string, a: Answers, before: Entries, mails: seq<Mail>, local: Entries) {
    && (forall text :: text in local <==> text in before || Mailed(prefix, mails, text))
    && forall text :: text in local ==>
         if Mailed(prefix, mails, text) then HourFromSet(prefix, a, mails, text, local[text])
         else local[text] == before[text]
  }

  lemma MailedOneMore(prefix: string, a: Answers, mails: seq<Mail>, mail: Mail, text: string, until: int)
    ensures Mailed(prefix, mails + [mail], text) <==> Mailed(prefix, mails, text) || KeyText(prefix, mail.key) == text
    ensures HourFromSet(prefix, a, mails, text, until) ==> HourFromSet(prefix, a, mails + [mail], text, until)
    ensures KeyText(prefix, mail.key) == text && until == a.setAt(mail.key) + 3600 ==>
      HourFromSet(prefix, a, mails + [mail], text, until)
  {
    hide KeyText;
    assert mail in mails + [mail];
    if m :| m in mails && KeyText(prefix, m.key) == text { assert m in mails + [mail]; }
    if m :| m in mails && KeyText(prefix, m.key) == text && until == a.setAt(m.key) + 3600 {
      assert m in mails + [mail];
    }
  }

  lemma RemembersOneMore(prefix: string, a: Answers, before: Entries, mails: seq<Mail>, local: Entries, mail: Mail)
    requires Remembers(prefix, a, before, mails, local)
    ensures Remembers(prefix, a, before, mails + [mail],
                      local[KeyText(prefix, mail.key) := a.setAt(mail.key) + 3600])
  {
    hide KeyText, Mailed, HourFromSet;
    var after := local[KeyText(prefix, mail.key) := a.setAt(mail.key) + 3600];
    forall text { MailedOneMore(prefix, a, mails, mail, text, if text in after then after[text] else 0); }
  }

  lemma {:induction false} SendingRemembers(process: string, lookup: Lookup, groups: Groups, cool: Key -> bool,
                                            prefix: string, a: Answers, start: Outcome)
    requires NonEmpty(groups) && start.mails == []
    ensures var o := Sending(process, lookup, groups, cool, prefix, a, start);
      Remembers(prefix, a, start.local, o.mails, o.local)
  {
    hide KeyText, MailFor, Remembers;
    if groups == [] {
      NothingRemembered(prefix, a, start.local);
    } else {
      var n := |groups| - 1;
      SendingRemembers(process, lookup, groups[..n], cool, prefix, a, start);
      var before := Sending(process, lookup, groups[..n], cool, prefix, a, start);
      MailKey(process, lookup, groups[n].0, groups[n].1);
      RemembersOneMore(prefix, a, start.local, before.mails, before.local,
                       MailFor(process, lookup, groups[n].0, groups[n].1));
    }
  }

  lemma MailKey(process: string, lookup: Lookup, key: Key, members: seq<Pending>)
    requires members != []
    ensures MailFor(process, lookup, key, members).key == key
  {
  }

  lemma NothingRemembered(prefix: string, a: Answers, before: Entries)
    ensures Remembers(prefix, a, before, [], before)
  {
  }

  lemma NothingSent(process: string, lookup: Lookup, groups: Groups, cool: Key -> bool, a: Answers, start: Outcome)
    requires groups == [] && start.mails == [] && !start.aborted
    ensures SentRight(start, process, lookup, groups, cool, a)
  {
  }

  /** With positive cooldowns on all channels no group is missed: every group that is neither cooling nor
      refused by the gateway is mailed, and the tick runs to its end. */
  lemma NothingMissed(process: string, lookup: Lookup, pending: seq<Pending>, cool: Key -> bool, prefix: string,
                      a: Answers, start: Outcome)
    requires start.mails == [] && !start.aborted
    requires forall p :: p in pending ==> p.channel.cooldownMinutes > 0
    ensures UniqueKeys(Grouped(process, lookup, pending)) && NonEmpty(Grouped(process, lookup, pending))
    ensures var groups := Grouped(process, lookup, pending);
      var o := Sending(process, lookup, groups, cool, prefix, a, start);
      && !o.aborted
      && forall k: nat :: k < |groups| ==>
           (MailAt(process, lookup, groups, k) in o.mails <==> Sendable(process, lookup, groups, cool, a, k))
  {
    hide MailFor, MailAt, Sendable, Grouped, Sending, InGroup, GroupKey, Filter;
    var groups := Grouped(process, lookup, pending);
    GroupedIsProper(process, lookup, pending);
    forall k: nat | k < |groups| ensures !Cuts(process, lookup, groups, cool, a, k) {
      GroupsNotEmpty(process, lookup, pending, k);
      FilterMembers(InGroup(process, lookup, groups[k].0), pending);
      assert groups[k].1[0] in groups[k].1;
    }
    SendingIs(process, lookup, groups, cool, prefix, a, start);
  }

  lemma GroupedIsProper(process: string, lookup: Lookup, pending: seq<Pending>)
    ensures UniqueKeys(Grouped(process, lookup, pending)) && NonEmpty(Grouped(process, lookup, pending))
  {
    hide Grouped, GroupKey, Filter;
    GroupIs(process, lookup, pending, Key("", "", "", "", ""));
    var groups := Grouped(process, lookup, pending);
    forall k: nat | k < |groups| ensures groups[k].1 != [] { GroupsNotEmpty(process, lookup, pending, k); }
  }

  lemma MailIsGroups(process: string, lookup: Lookup, pending: seq<Pending>, k: nat)
    requires NonEmpty(Grouped(process, lookup, pending)) && k < |Grouped(process, lookup, pending)|
    ensures var groups := Grouped(process, lookup, pending);
      MailsGroup(process, lookup, pending, MailAt(process, lookup, groups, k), groups[k].1)
  {
    hide Grouped, MailFor, Addresses, Represents, GroupKey, Filter;
    var (key, members) := Grouped(process, lookup, pending)[k];
    MailRepresents(process, lookup, key, members);
    GroupsNotEmpty(process, lookup, pending, k);
    forall p { GroupAddresses(process, lookup, pending, k, p); }
  }

  lemma MailsAreGroups(mails: seq<Mail>, process: string, lookup: Lookup, pending: seq<Pending>)
    requires NonEmpty(Grouped(process, lookup, pending))
    requires FromGroups(mails, process, lookup, Grouped(process, lookup, pending))
    ensures forall m :: m in mails ==> exists members :: MailsGroup(process, lookup, pending, m, members)
  {
    hide Grouped, MailAt, MailsGroup;
    var groups := Grouped(process, lookup, pending);
    forall m | m in mails ensures exists members :: MailsGroup(process, lookup, pending, m, members) {
      var k: nat :| k < |groups| && m == MailAt(process, lookup, groups, k);
      MailIsGroups(process, lookup, pending, k);
    }
  }

  lemma RightMailsAreGroups(o: Outcome, process: string, lookup: Lookup, pending: seq<Pending>, cool: Key -> bool,
                            a: Answers)
    requires NonEmpty(Grouped(process, lookup, pending))
    requires SentRight(o, process, lookup, Grouped(process, lookup, pending), cool, a)
    ensures forall m :: m in o.mails ==> exists members :: MailsGroup(process, lookup, pending, m, members)
  {
    hide Grouped, MailsGroup, SentExactly, SomeCuts;
    MailsAreGroups(o.mails, process, lookup, pending);
  }

  /** A cooldown of 0 minutes, which channels accept, does cut the tick: of two groups that are not
      cooling and whose mails the gateway takes, only the first is mailed. */
  lemma ZeroCooldownCutsTick(process: string, lookup: Lookup, groups: Groups, prefix: string, a: Answers,
                             start: Outcome)
    requires |groups| == 2 && UniqueKeys(groups) && NonEmpty(groups)
    requires start.mails == [] && !start.aborted
    requires groups[0].1[0].channel.cooldownMinutes == 0 && a.setReachable(groups[0].0)
    requires a.accepts(MailAt(process, lookup, groups, 0)) && a.accepts(MailAt(process, lookup, groups, 1))
    ensures var o := Sending(process, lookup, groups, (key: Key) => false, prefix, a, start);
      o.aborted && MailAt(process, lookup, groups, 0) in o.mails && MailAt(process, lookup, groups, 1) !in o.mails
  {
    hide MailAt, Sending;
    var cool := (key: Key) => false;
    SendingIs(process, lookup, groups, cool, prefix, a, start);
    assert Cuts(process, lookup, groups, cool, a, 0);
    assert Reached(process, lookup, groups, cool, a, 0) && !Reached(process, lookup, groups, cool, a, 1);
  }

  /** `_dispatch` */
  method DispatchPending(mgr: AlertCooldownManager, process: string, lookup: Lookup, pending: seq<Pending>, a: Answers)
    returns (mails: seq<Mail>, aborted: bool)
    modifies mgr`local, mgr.redis`entries
    ensures var groups := Grouped(process, lookup, pending);
      && UniqueKeys(groups) && NonEmpty(groups)
      && Outcome(mails, mgr.local, mgr.redis.entries, aborted) ==
           Sending(process, lookup, groups, CoolAt(old(mgr.local), old(mgr.redis.entries), mgr.prefix, a),
                   mgr.prefix, a, Outcome([], old(mgr.local), old(mgr.redis.entries), false))
      && SentRight(Outcome(mails, mgr.local, mgr.redis.entries, aborted), process, lookup, groups,
                   CoolAt(old(mgr.local), old(mgr.redis.entries), mgr.prefix, a), a)
    ensures forall m :: m in mails ==> exists members :: MailsGroup(process, lookup, pending, m, members)
    ensures Remembers(mgr.prefix, a, old(mgr.local), mails, mgr.local)
  {
    hide Remembers, MailsGroup, MailFor, KeyText, GroupKey, Filter, SentRight, SendOne, Cooling;
    ghost var cool := CoolAt(mgr.local, mgr.redis.entries, mgr.prefix, a);
    ghost var start := Outcome([], mgr.local, mgr.redis.entries, false);
    var groups := GroupPending(process, lookup, pending);
    GroupedIsProper(process, lookup, pending);
    SendingIs(process, lookup, groups, cool, mgr.prefix, a, start);
    ghost var sent := Sending(process, lookup, groups, cool, mgr.prefix, a, start);
    RightMailsAreGroups(sent, process, lookup, pending, cool, a);
    SendingRemembers(process, lookup, groups, cool, mgr.prefix, a, start);
    if groups == [] { return [], false; }
    mails, aborted := SendGroups(mgr, process, lookup, groups, a);
  }
}
