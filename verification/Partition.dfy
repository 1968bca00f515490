/** How the leader splits the processes over the live instances
    (PartitionManager._compute_assignments). */
module Partition {
  import opened Sorting

  type Assignments = map<string, seq<string>>

  function NothingEach(instances: seq<string>): (r: Assignments)
    ensures r.Keys == set i | i in instances
  {
    map i | i in instances :: []
  }

  /** The instance at whose turn position `k` of the deal falls. */
  function Seat(instances: seq<string>, k: nat): (i: string)
    requires instances != []
    ensures i in instances
  {
    instances[k % |instances|]
  }

  /** What each seat holds after `processes` have been dealt round the table, one at a time. */
  function Deal(instances: seq<string>, processes: seq<string>): (r: Assignments)
    requires instances != []
    ensures r.Keys == set i | i in instances
  {
    if processes == [] then NothingEach(instances)
    else
      var n := |processes| - 1;
      var before := Deal(instances, processes[..n]);
      var seat := Seat(instances, n);
      before[seat := before[seat] + [processes[n]]]
  }

  /** The split the leader publishes. With nobody to deal to, nothing is assigned. */
  function Split(instances: seq<string>, processes: seq<string>): (r: Assignments)
    ensures r.Keys == set i | i in instances
  {
    assert forall i :: i in Sort(StrLe, instances) <==> i in instances by {
      StrLeIsOrder();
      forall i { SortMembers(StrLe, instances, i); }
    }
    if instances == [] then NothingEach(instances)
    else Deal(Sort(StrLe, instances), Sort(StrLe, processes))
  }

  lemma DealOneRound(instances: seq<string>, processes: seq<string>, k: nat)
    requires instances != [] && k < |processes|
    ensures var before, seat := Deal(instances, processes[..k]), Seat(instances, k);
      Deal(instances, processes[..k + 1]) == before[seat := before[seat] + [processes[k]]]
  {
    assert processes[..k + 1][..k] == processes[..k];
  }

  lemma SplitOfSorted(instances: seq<string>, processes: seq<string>, seats: seq<string>)
    requires seats == Sort(StrLe, instances)
    ensures Split(instances, processes) ==
      if seats == [] then NothingEach(seats) else Deal(seats, Sort(StrLe, processes))
  {
    StrLeIsOrder();
    hide StrLe, Deal;
    SortSorts(StrLe, instances);
    assert |instances| == |multiset(instances)| == |seats|;
  }

  lemma DealStarts(instances: seq<string>, processes: seq<string>)
    requires instances != [] && processes == []
    ensures Deal(instances, processes) == NothingEach(instances)
  {
  }

  method ComputeAssignments(instances: seq<string>, processes: seq<string>) returns (result: Assignments)
    ensures result == Split(instances, processes)
  {
    hide Deal, Sort, StrLe;
    var seats := Sort(StrLe, instances);
    SplitOfSorted(instances, processes, seats);
    result := map i | i in seats :: [];
    if seats == [] { return; }
    var dealt := Sort(StrLe, processes);
    DealStarts(seats, dealt[..0]);
    var idx := 0;
    while idx < |dealt|
      invariant 0 <= idx <= |dealt|
      invariant result == Deal(seats, dealt[..idx])
    {
      DealOneRound(seats, dealt, idx);
      var seat := seats[idx % |seats|];
      result := result[seat := result[seat] + [dealt[idx]]];
      idx := idx + 1;
    }
    assert dealt[..idx] == dealt;
  }

  // ---------------------------------------------------------------- every process has one owner

  /** Position `k` of the deal is process `p` and falls on seat `i`. */
  ghost predicate DealtAt(instances: seq<string>, processes: seq<string>, i: string, p: string, k: nat)
    requires instances != []
  {
    k < |processes| && processes[k] == p && Seat(instances, k) == i
  }

  /** Seat `i` holds exactly the processes dealt at a position that falls on it, each once. */
  lemma {:induction false} DealOwns(instances: seq<string>, processes: seq<string>, i: string)
    requires instances != [] && NoDups(processes) && i in instances
    ensures forall p :: p in Deal(instances, processes)[i] <==> exists k :: DealtAt(instances, processes, i, p, k)
    ensures NoDups(Deal(instances, processes)[i])
  {
    if processes != [] {
      var n := |processes| - 1;
      var front := processes[..n];
      DealOwns(instances, front, i);
      forall p ensures p in Deal(instances, processes)[i] <==> exists k :: DealtAt(instances, processes, i, p, k) {
        forall k: nat | DealtAt(instances, processes, i, p, k) && k < n ensures DealtAt(instances, front, i, p, k) {}
        forall k: nat | DealtAt(instances, front, i, p, k) ensures DealtAt(instances, processes, i, p, k) {}
        assert Seat(instances, n) == i && p == processes[n] ==> DealtAt(instances, processes, i, p, n);
      }
      assert processes[n] !in front;
      assert processes[n] !in Deal(instances, front)[i];
    }
  }

  ghost predicate Disjoint(a: seq<string>, b: seq<string>) {
    forall p :: !(p in a && p in b)
  }

  /** `lists` hands every process to one instance: the lists are disjoint, none repeats a process,
      and together they hold exactly `processes`. */
  ghost predicate IsPartition(lists: Assignments, processes: seq<string>) {
    && (forall i, j :: i in lists && j in lists && i != j ==> Disjoint(lists[i], lists[j]))
    && (forall i :: i in lists ==> NoDups(lists[i]))
    && (forall i, p :: i in lists && p in lists[i] ==> p in processes)
    && (forall p :: p in processes ==> exists i :: i in lists && p in lists[i])
  }

  lemma DealIsPartition(instances: seq<string>, processes: seq<string>)
    requires instances != [] && NoDups(processes)
    ensures IsPartition(Deal(instances, processes), processes)
  {
    var r := Deal(instances, processes);
    forall i | i in r ensures NoDups(r[i]) { DealOwns(instances, processes, i); }
    forall i, p | i in r && p in r[i] ensures p in processes {
      DealOwns(instances, processes, i);
      var k: nat :| DealtAt(instances, processes, i, p, k);
    }
    forall i, j | i in r && j in r && i != j ensures Disjoint(r[i], r[j]) {
      DealOwns(instances, processes, i);
      DealOwns(instances, processes, j);
    }
    forall p | p in processes ensures exists i :: i in r && p in r[i] {
      var k: nat :| k < |processes| && processes[k] == p;
      var i := Seat(instances, k);
      DealOwns(instances, processes, i);
      assert DealtAt(instances, processes, i, p, k);
      assert i in r && p in r[i];
    }
  }

  /** The published split gives each process read to exactly one live instance. */
  lemma SplitIsPartition(instances: seq<string>, processes: seq<string>)
    requires instances != [] && NoDups(processes)
    ensures IsPartition(Split(instances, processes), processes)
  {
    StrLeIsOrder();
    var seats, dealt := Sort(StrLe, instances), Sort(StrLe, processes);
    SortSorts(StrLe, instances);
    SortSorts(StrLe, processes);
    NoDupsPermutes(processes, dealt);
    DealIsPartition(seats, dealt);
    forall p { SortMembers(StrLe, processes, p); }
  }

  lemma DivModUnique(a: nat, m: nat, q: nat, r: nat)
    requires r < m && a == q * m + r
    ensures a / m == q && a % m == r
  {
    var d := a / m - q;
    assert d * m == r - a % m;
    assert d >= 1 ==> (d - 1) * m >= 0;
    assert d <= -1 ==> (-d - 1) * m >= 0;
  }

  lemma SeatIs(instances: seq<string>, k: nat, q: nat, j: nat, r: nat)
    requires NoDups(instances) && j < |instances| && r < |instances| && k == q * |instances| + r
    ensures Seat(instances, k) == instances[j] <==> j == r
  {
    DivModUnique(k, |instances|, q, r);
  }

  lemma DealNothing(instances: seq<string>, i: string)
    requires i in instances
    ensures Deal(instances, [])[i] == []
  {
  }

  lemma DealOneMore(instances: seq<string>, processes: seq<string>, j: nat)
    requires j < |instances| && processes != []
    ensures var n := |processes| - 1; var i := instances[j];
      |Deal(instances, processes)[i]|
        == |Deal(instances, processes[..n])[i]| + (if Seat(instances, n) == i then 1 else 0)
  {
  }

  /** After `q` whole rounds everyone holds `q`; the open round has served the first `r` seats. */
  lemma {:induction false} DealSizes(instances: seq<string>, processes: seq<string>, q: nat, r: nat, j: nat)
    requires NoDups(instances) && j < |instances| && r < |instances|
    requires |processes| == q * |instances| + r
    ensures |Deal(instances, processes)[instances[j]]| == q + (if j < r then 1 else 0)
    decreases |processes|
  {
    hide Deal, Seat, NoDups;
    var n := |processes| - 1;
    if processes != [] { DealOneMore(instances, processes, j); } else { DealNothing(instances, instances[j]); }
    if r > 0 {
      DealSizes(instances, processes[..n], q, r - 1, j);
      SeatIs(instances, n, q, j, r - 1);
    } else if q > 0 {
      assert (q - 1) * |instances| + |instances| == q * |instances|;
      DealSizes(instances, processes[..n], q - 1, |instances| - 1, j);
      SeatIs(instances, n, q - 1, j, |instances| - 1);
    }
  }

  lemma DealIsBalanced(instances: seq<string>, processes: seq<string>, i: nat, j: nat)
    requires NoDups(instances) && i < |instances| && j < |instances|
    ensures |Deal(instances, processes)[instances[i]]| <= |Deal(instances, processes)[instances[j]]| + 1
  {
    var q, r := |processes| / |instances|, |processes| % |instances|;
    assert |processes| == q * |instances| + r;
    DealSizes(instances, processes, q, r, i);
    DealSizes(instances, processes, q, r, j);
  }

  /** No instance carries two processes more than another. */
  lemma SplitIsBalanced(instances: seq<string>, processes: seq<string>, a: string, b: string)
    requires NoDups(instances) && a in instances && b in instances
    ensures |Split(instances, processes)[a]| <= |Split(instances, processes)[b]| + 1
  {
    var seats, dealt := Sort(StrLe, instances), Sort(StrLe, processes);
    StrLeIsOrder();
    SortSorts(StrLe, instances);
    NoDupsPermutes(instances, seats);
    SortMembers(StrLe, instances, a);
    SortMembers(StrLe, instances, b);
    var i: nat :| i < |seats| && seats[i] == a;
    var j: nat :| j < |seats| && seats[j] == b;
    DealIsBalanced(seats, dealt, i, j);
  }

  lemma LastOfDeal(instances: seq<string>, processes: seq<string>, j: nat)
    requires NoDups(instances) && j < |instances| && processes != []
    ensures var n := |processes| - 1; var i := instances[j];
      var before, after := Deal(instances, processes[..n])[i], Deal(instances, processes)[i];
      if n % |instances| == j then |before| * |instances| + j == n && after == before + [processes[n]]
      else after == before
  {
    var n, m := |processes| - 1, |instances|;
    assert n == (n / m) * m + n % m;
    DealSizes(instances, processes[..n], n / m, n % m, j);
    SeatIs(instances, n, n / m, j, n % m);
  }

  /** `list` is every `n`-th of `processes`, from position `j` on. */
  ghost predicate EveryNth(processes: seq<string>, j: nat, n: nat, list: seq<string>) {
    && (forall q: nat {:trigger list[q]} :: q < |list| ==>
          q * n + j < |processes| && list[q] == processes[q * n + j])
    && |processes| <= |list| * n + j
  }

  lemma EveryNthEnds(processes: seq<string>, j: nat, n: nat, list: seq<string>)
    requires EveryNth(processes, j, n, list) && list != []
    ensures (|list| - 1) * n + j < |processes|
  {
    var last := list[|list| - 1];
  }

  lemma EveryNthGrows(front: seq<string>, j: nat, n: nat, list: seq<string>, p: string)
    requires EveryNth(front, j, n, list) && 0 < n && |list| * n + j == |front|
    ensures EveryNth(front + [p], j, n, list + [p])
  {
    var after := list + [p];
    assert (|list| + 1) * n == |list| * n + n;
    forall q: nat | q < |after|
      ensures q * n + j < |front + [p]| && after[q] == (front + [p])[q * n + j]
    {
      if q < |list| { assert after[q] == list[q]; } else { assert q * n == |list| * n; }
    }
  }

  lemma EveryNthStays(front: seq<string>, j: nat, n: nat, list: seq<string>, p: string)
    requires EveryNth(front, j, n, list) && j < n && |front| % n != j
    ensures EveryNth(front + [p], j, n, list)
  {
    if |front| == |list| * n + j { DivModUnique(|front|, n, |list|, j); }
    forall q: nat | q < |list| ensures q * n + j < |front + [p]| && list[q] == (front + [p])[q * n + j] {
      assert list[q] == front[q * n + j];
    }
  }

  lemma {:induction false} DealIsEveryNth(instances: seq<string>, processes: seq<string>, j: nat)
    requires NoDups(instances) && j < |instances|
    ensures EveryNth(processes, j, |instances|, Deal(instances, processes)[instances[j]])
  {
    hide Deal, Seat, NoDups, EveryNth;
    if processes == [] {
      NothingIsEveryNth(j, |instances|);
      DealNothing(instances, instances[j]);
    } else {
      var n := |processes| - 1;
      var before := Deal(instances, processes[..n])[instances[j]];
      DealIsEveryNth(instances, processes[..n], j);
      LastOfDeal(instances, processes, j);
      assert processes == processes[..n] + [processes[n]];
      if n % |instances| == j {
        EveryNthGrows(processes[..n], j, |instances|, before, processes[n]);
      } else {
        EveryNthStays(processes[..n], j, |instances|, before, processes[n]);
      }
    }
  }

  lemma NothingIsEveryNth(j: nat, n: nat)
    ensures EveryNth([], j, n, [])
  {
  }

  /** The deal in one sentence: with instances and processes listed in ascending order, the `j`-th instance
      gets the processes at positions `j`, `j + n`, `j + 2n` and so on, in that order. */
  lemma SplitIsRoundRobin(instances: seq<string>, processes: seq<string>, seats: seq<string>, dealt: seq<string>,
                          j: nat)
    requires NoDups(instances) && j < |seats|
    requires multiset(seats) == multiset(instances) && SortedBy(StrLe, seats)
    requires multiset(dealt) == multiset(processes) && SortedBy(StrLe, dealt)
    ensures seats[j] in instances && EveryNth(dealt, j, |seats|, Split(instances, processes)[seats[j]])
  {
    StrLeIsOrder();
    SortForgetsOrder(StrLe, instances, seats);
    SortForgetsOrder(StrLe, processes, dealt);
    SortKeepsSorted(StrLe, seats);
    SortKeepsSorted(StrLe, dealt);
    NoDupsPermutes(instances, seats);
    assert seats[j] in multiset(instances);
    hide Deal, StrLe;
    DealIsEveryNth(seats, dealt, j);
  }

  /** Two leaders that read the same members and processes, in whatever order, publish the same split. */
  lemma SplitForgetsOrder(is0: seq<string>, is1: seq<string>, ps0: seq<string>, ps1: seq<string>)
    requires multiset(is0) == multiset(is1) && multiset(ps0) == multiset(ps1)
    ensures Split(is0, ps0) == Split(is1, ps1)
  {
    StrLeIsOrder();
    assert |multiset(is0)| == |multiset(is1)|;
    SortForgetsOrder(StrLe, is0, is1);
    SortForgetsOrder(StrLe, ps0, ps1);
  }
}
