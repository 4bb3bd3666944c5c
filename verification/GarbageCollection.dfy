/**
 Which stacks a cycle marks for removal (`MarkExpiredStacks` in
 pkg/core/stackset.go).
 */
module GarbageCollection {
  import opened Names
  import opened Sorting
  import opened Options
  import opened Stacks
  import opened Traffic
  import Weights

  const DEFAULT_LIMIT: nat := 10

  // ----- specification -----

  function HistoryLimit(spec: StackSetSpec): nat {
    if spec.limit.None? then DEFAULT_LIMIT else spec.limit.value
  }

  predicate HasIngress(spec: StackSetSpec, s: Stack) {
    s.spec.routeGroup || s.spec.ingress || spec.externalIngress
  }

  predicate IsCandidate(spec: StackSetSpec, s: Stack, clock: Time) {
    !HasIngress(spec, s) || s.ScaledDown(clock)
  }

  /** When the stack last had traffic; its creation if that is not known. */
  function LastUsed(s: Stack): Time {
    if s.noTrafficSince == ZERO_TIME then s.spec.created else s.noTrafficSince
  }

  ghost function Candidates(spec: StackSetSpec, stacks: StackMap, clock: Time): set<Name> {
    set n | n in stacks && IsCandidate(spec, stacks[n], clock)
  }

  /** No stack outside `removed` was last used before one inside it. */
  ghost predicate OldestOf(stacks: StackMap, candidates: set<Name>, removed: set<Name>) {
    && removed <= candidates <= stacks.Keys
    && forall m, k :: m in removed && k in candidates && k !in removed ==> LastUsed(stacks[m]) <= LastUsed(stacks[k])
  }

  /** Up to the limit, 10 if the spec has none, all candidates stay; above it, exactly as many as it says. */
  ghost predicate KeepsLimit(spec: StackSetSpec, candidates: set<Name>, removed: set<Name>) {
    var limit := if spec.limit.Some? then spec.limit.value else 10;
    removed <= candidates && if |candidates| <= limit then removed == {} else |candidates - removed| == limit
  }

  /** A possible set of stacks to remove: the longest unused candidates, so that as many stay as the limit allows. */
  ghost predicate Expires(spec: StackSetSpec, stacks: StackMap, removed: set<Name>, clock: Time) {
    var c := Candidates(spec, stacks, clock);
    OldestOf(stacks, c, removed) && KeepsLimit(spec, c, removed)
  }

  /** Over the limit, the number removed is what exceeds it. */
  lemma {:induction false} ExpiresSize(spec: StackSetSpec, stacks: StackMap, removed: set<Name>, clock: Time)
    requires OldestOf(stacks, Candidates(spec, stacks, clock), removed)
    ensures var c, limit := Candidates(spec, stacks, clock), HistoryLimit(spec);
            Expires(spec, stacks, removed, clock) <==> |removed| == if |c| <= limit then 0 else |c| - limit
  {
    var c := Candidates(spec, stacks, clock);
    assert c == (c - removed) + removed;
    assert |removed| == 0 ==> removed == {};
  }

  ghost function Marked(stacks: StackMap, removed: set<Name>): StackMap {
    map n | n in stacks :: if n in removed then stacks[n].(pendingRemoval := true) else stacks[n]
  }

  // ----- the method -----

  datatype Candidate = Candidate(name: Name, lastUsed: Time)

  predicate UsedBefore(x: Candidate, y: Candidate) {
    x.lastUsed < y.lastUsed
  }

  /** list holds the stacks of `names`, each once. */
  ghost predicate Lists(list: seq<Candidate>, stacks: StackMap, names: set<Name>) {
    && names <= stacks.Keys
    && (forall i, j :: 0 <= i < j < |list| ==> list[i].name != list[j].name)
    && (forall i :: 0 <= i < |list| ==> list[i].name in names && list[i].lastUsed == LastUsed(stacks[list[i].name]))
    && (forall n :: n in names ==> Candidate(n, LastUsed(stacks[n])) in list)
  }

  ghost function NamesOf(list: seq<Candidate>): set<Name> {
    set i | 0 <= i < |list| :: list[i].name
  }

  lemma {:induction false} NameAt(list: seq<Candidate>, j: nat, k: nat)
    requires j < k <= |list|
    ensures list[j].name in NamesOf(list[..k])
  {
    assert list[..k][j] == list[j];
  }

  lemma {:induction false} NamesOfSize(list: seq<Candidate>)
    requires forall i, j :: 0 <= i < j < |list| ==> list[i].name != list[j].name
    ensures |NamesOf(list)| == |list|
  {
    if list != [] {
      var front, last := list[..|list| - 1], list[|list| - 1];
      NamesOfSize(front);
      assert NamesOf(list) == NamesOf(front) + {last.name};
    }
  }

  lemma {:induction false} ListsAll(list: seq<Candidate>, stacks: StackMap, names: set<Name>)
    requires Lists(list, stacks, names)
    ensures NamesOf(list) == names && |list| == |names|
  {
    NamesOfSize(list);
    forall n | n in names
      ensures n in NamesOf(list)
    {
      assert Candidate(n, LastUsed(stacks[n])) in list;
    }
  }

  lemma {:induction false} PermutedLists(list: seq<Candidate>, sorted: seq<Candidate>, stacks: StackMap,
                                        names: set<Name>)
    requires Lists(list, stacks, names) && multiset(sorted) == multiset(list)
    ensures Lists(sorted, stacks, names)
  {
    PermutationKeepsUnique(list, sorted);
    forall i | 0 <= i < |sorted|
      ensures sorted[i].name in names && sorted[i].lastUsed == LastUsed(stacks[sorted[i].name])
    {
      assert sorted[i] in multiset(sorted);
      assert sorted[i] in list;
    }
    forall n | n in names
      ensures Candidate(n, LastUsed(stacks[n])) in sorted
    {
      assert Candidate(n, LastUsed(stacks[n])) in multiset(list);
    }
    assert forall i, j :: 0 <= i < j < |sorted| && sorted[i].name == sorted[j].name ==> sorted[i] == sorted[j];
  }

  /** The first k entries of the sorted list are the longest unused stacks. */
  lemma {:induction false} PrefixIsOldest(sorted: seq<Candidate>, stacks: StackMap, names: set<Name>, k: nat)
    requires Lists(sorted, stacks, names) && Ordered(sorted, UsedBefore) && k <= |sorted|
    ensures OldestOf(stacks, names, NamesOf(sorted[..k])) && |NamesOf(sorted[..k])| == k
  {
    NamesOfSize(sorted[..k]);
    var removed := NamesOf(sorted[..k]);
    forall m, n | m in removed && n in names && n !in removed
      ensures LastUsed(stacks[m]) <= LastUsed(stacks[n])
    {
      var i :| 0 <= i < k && sorted[..k][i].name == m;
      assert Candidate(n, LastUsed(stacks[n])) in sorted;
      var j :| 0 <= j < |sorted| && sorted[j] == Candidate(n, LastUsed(stacks[n]));
      if j < k {
        NameAt(sorted, j, k);
        assert false;
      }
      assert !UsedBefore(sorted[j], sorted[i]);
      assert sorted[i].lastUsed == LastUsed(stacks[sorted[i].name]);
    }
  }

  lemma {:induction false} SortedIsOldest(list: seq<Candidate>, stacks: StackMap, names: set<Name>, k: nat)
    requires Lists(list, stacks, names) && k <= |list|
    ensures var sorted := InsertionSort(list, UsedBefore);
            && Lists(sorted, stacks, names) && |sorted| == |list|
            && OldestOf(stacks, names, NamesOf(sorted[..k])) && |NamesOf(sorted[..k])| == k
  {
    var sorted := InsertionSort(list, UsedBefore);
    SortPermutes(list, UsedBefore);
    SortOrders(list, UsedBefore);
    PermutedLists(list, sorted, stacks, names);
    PrefixIsOldest(sorted, stacks, names, k);
  }

  lemma {:induction false} ListsStep(list: seq<Candidate>, stacks: StackMap, names: set<Name>, n: Name)
    requires Lists(list, stacks, names) && n in stacks && n !in names
    ensures Lists(list + [Candidate(n, LastUsed(stacks[n]))], stacks, names + {n})
  {
    var c := Candidate(n, LastUsed(stacks[n]));
    var more := list + [c];
    assert more[|list|] == c;
    forall m | m in names
      ensures Candidate(m, LastUsed(stacks[m])) in more
    {
      assert Candidate(m, LastUsed(stacks[m])) in list;
    }
  }

  method CollectCandidates(spec: StackSetSpec, stacks: Containers, clock: Time) returns (gcCandidates: seq<Candidate>)
    requires Separate(stacks)
    ensures Lists(gcCandidates, Views(stacks), Candidates(spec, Views(stacks), clock))
  {
    ghost var views := Views(stacks);
    gcCandidates := [];
    var todo := stacks.Keys;
    while todo != {}
      invariant todo <= stacks.Keys
      invariant Lists(gcCandidates, views, Candidates(spec, views, clock) - todo)
    {
      var stackName :| stackName in todo;
      var sc := stacks[stackName].View();
      assert sc == views[stackName];
      ghost var seen := Candidates(spec, views, clock) - todo;
      if !HasIngress(spec, sc) || sc.ScaledDown(clock) {
        ListsStep(gcCandidates, views, seen, stackName);
        gcCandidates := gcCandidates + [Candidate(stackName, LastUsed(sc))];
        assert Candidates(spec, views, clock) - (todo - {stackName}) == seen + {stackName};
      } else {
        assert Candidates(spec, views, clock) - (todo - {stackName}) == seen;
      }
      todo := todo - {stackName};
    }
    assert Candidates(spec, views, clock) - {} == Candidates(spec, views, clock);
  }

  method SortCandidates(gcCandidates: seq<Candidate>) returns (sorted: array<Candidate>)
    ensures fresh(sorted) && sorted[..] == InsertionSort(gcCandidates, UsedBefore)
  {
    sorted := new Candidate[|gcCandidates|](i requires 0 <= i < |gcCandidates| => gcCandidates[i]);
    assert sorted[..] == gcCandidates;
    SortSlice(sorted, UsedBefore);
  }

  method MarkStack(stacks: Containers, n: Name)
    requires Separate(stacks) && n in stacks
    modifies stacks.Values
    ensures Views(stacks) == old(Views(stacks))[n := old(Views(stacks))[n].(pendingRemoval := true)]
  {
    stacks[n].pendingRemoval := true;
  }

  lemma {:induction false} MarkedStep(stacks: StackMap, list: seq<Candidate>, i: nat)
    requires i < |list| && list[i].name in stacks
    ensures var m := Marked(stacks, NamesOf(list[..i]));
            Marked(stacks, NamesOf(list[..i + 1])) == m[list[i].name := m[list[i].name].(pendingRemoval := true)]
  {
    assert list[..i + 1] == list[..i] + [list[i]];
    assert NamesOf(list[..i + 1]) == NamesOf(list[..i]) + {list[i].name};
  }

  /** The marking loop over `gcCandidates[:excessStacks]`. */
  method MarkFirst(stacks: Containers, list: array<Candidate>, excessStacks: nat)
    requires Separate(stacks) && excessStacks <= list.Length
    requires forall i :: 0 <= i < list.Length ==> list[i].name in stacks
    modifies stacks.Values
    ensures Views(stacks) == Marked(old(Views(stacks)), NamesOf(list[..excessStacks]))
  {
    ghost var before, candidates := Views(stacks), list[..];
    assert candidates[..0] == [];
    assert Marked(before, {}) == before;
    for i := 0 to excessStacks
      invariant list[..] == candidates
      invariant Views(stacks) == Marked(before, NamesOf(candidates[..i]))
    {
      assert list[i] == candidates[i];
      MarkedStep(before, candidates, i);
      MarkStack(stacks, list[i].name);
    }
    assert list[..excessStacks] == candidates[..excessStacks];
  }

  /**
   Who may be removed, in full: the candidates have no ingress or routegroup of their own and the stack
   set has no external ingress, or they are idle for longer than their TTL.  If they exceed the limit of
   the spec, or 10, exactly that many stay, and none that goes was used after one that stays.
   */
  lemma {:induction false} ExpiresIff(spec: StackSetSpec, stacks: StackMap, removed: set<Name>, clock: Time)
    ensures var candidates := set n | n in stacks &&
              var s := stacks[n];
              || (!s.spec.ingress && !s.spec.routeGroup && !spec.externalIngress)
              || (s.actual <= 0.0 && s.desired <= 0.0 && s.noTrafficSince > 0
                  && clock > s.noTrafficSince + s.scaledownTTL);
            var limit := if spec.limit.Some? then spec.limit.value else 10;
            Expires(spec, stacks, removed, clock) <==>
            && removed <= candidates
            && (if |candidates| <= limit then removed == {} else |candidates - removed| == limit)
            && forall m, k :: m in removed && k in candidates && k !in removed ==>
                 (if stacks[m].noTrafficSince > 0 then stacks[m].noTrafficSince else stacks[m].spec.created)
                 <= (if stacks[k].noTrafficSince > 0 then stacks[k].noTrafficSince else stacks[k].spec.created)
  {
    var candidates := set n | n in stacks &&
      var s := stacks[n];
      || (!s.spec.ingress && !s.spec.routeGroup && !spec.externalIngress)
      || (s.actual <= 0.0 && s.desired <= 0.0 && s.noTrafficSince > 0 && clock > s.noTrafficSince + s.scaledownTTL);
    assert candidates == Candidates(spec, stacks, clock);
  }

  /** `MarkExpiredStacks`; `removed` are the marked stacks. */
  method MarkExpiredStacks(spec: StackSetSpec, stacks: Containers, clock: Time) returns (ghost removed: set<Name>)
    requires Separate(stacks)
    modifies stacks.Values
    ensures Expires(spec, old(Views(stacks)), removed, clock)
    ensures KeepsLimit(spec, Candidates(spec, old(Views(stacks)), clock), removed)
    ensures Views(stacks) == Marked(old(Views(stacks)), removed)
  {
    ghost var views := Views(stacks);
    var historyLimit := HistoryLimit(spec);
    var gcCandidates := CollectCandidates(spec, stacks, clock);
    ListsAll(gcCandidates, views, Candidates(spec, views, clock));
    if |gcCandidates| <= historyLimit {
      NothingExpires(spec, views, clock);
      return {};
    }
    removed := MarkOldest(spec, stacks, gcCandidates, |gcCandidates| - historyLimit, clock);
  }

  lemma {:induction false} NothingExpires(spec: StackSetSpec, stacks: StackMap, clock: Time)
    requires |Candidates(spec, stacks, clock)| <= HistoryLimit(spec)
    ensures Expires(spec, stacks, {}, clock) && Marked(stacks, {}) == stacks
  {
  }

  lemma {:induction false} SortedExpires(spec: StackSetSpec, stacks: StackMap, list: seq<Candidate>, excess: nat,
                                         clock: Time)
    requires Lists(list, stacks, Candidates(spec, stacks, clock)) && excess <= |list|
    requires excess == |Candidates(spec, stacks, clock)| - HistoryLimit(spec)
    ensures var sorted := InsertionSort(list, UsedBefore);
            && |sorted| == |list| && (forall i :: 0 <= i < |sorted| ==> sorted[i].name in stacks)
            && Expires(spec, stacks, NamesOf(sorted[..excess]), clock)
  {
    SortedIsOldest(list, stacks, Candidates(spec, stacks, clock), excess);
    ExpiresSize(spec, stacks, NamesOf(InsertionSort(list, UsedBefore)[..excess]), clock);
  }

  /** Second half of `MarkExpiredStacks`: sorting the candidates, and marking those in excess. */
  method MarkOldest(spec: StackSetSpec, stacks: Containers, gcCandidates: seq<Candidate>, excessStacks: nat,
                    clock: Time) returns (ghost removed: set<Name>)
    requires Separate(stacks) && excessStacks <= |gcCandidates|
    requires Lists(gcCandidates, Views(stacks), Candidates(spec, Views(stacks), clock))
    requires 0 < excessStacks == |Candidates(spec, Views(stacks), clock)| - HistoryLimit(spec)
    modifies stacks.Values
    ensures Expires(spec, old(Views(stacks)), removed, clock)
    ensures Views(stacks) == Marked(old(Views(stacks)), removed)
  {
    ghost var views := Views(stacks);
    SortedExpires(spec, views, gcCandidates, excessStacks, clock);
    var sorted := SortCandidates(gcCandidates);
    assert forall i :: 0 <= i < sorted.Length ==> sorted[i] == sorted[..][i];
    MarkFirst(stacks, sorted, excessStacks);
    removed := NamesOf(sorted[..excessStacks]);
    assert sorted[..excessStacks] == sorted[..][..excessStacks];
  }

  // ----- what may be removed -----

  /** The candidates last used before n. */
  ghost function Older(stacks: StackMap, candidates: set<Name>, n: Name): set<Name>
    requires candidates <= stacks.Keys && n in stacks
  {
    set k | k in candidates && LastUsed(stacks[k]) < LastUsed(stacks[n])
  }

  lemma {:induction false} LeastUsed(stacks: StackMap, names: set<Name>) returns (least: Name)
    requires names != {} && names <= stacks.Keys
    ensures least in names && forall k :: k in names ==> LastUsed(stacks[least]) <= LastUsed(stacks[k])
    decreases |names|
  {
    least :| least in names;
    if names != {least} {
      var other := LeastUsed(stacks, names - {least});
      if LastUsed(stacks[other]) < LastUsed(stacks[least]) { least := other; }
    }
  }

  lemma {:induction false} GrowOldest(stacks: StackMap, candidates: set<Name>, some: set<Name>,
                                      k: nat) returns (removed: set<Name>)
    requires OldestOf(stacks, candidates, some) && |some| <= k <= |candidates|
    ensures OldestOf(stacks, candidates, removed) && some <= removed && |removed| == k
    decreases k - |some|
  {
    removed := some;
    if |some| < k {
      if candidates <= some {
        Weights.SubsetSize(candidates, some);
        assert false;
      }
      var extra :| extra in candidates && extra !in some;
      assert extra in candidates - some;
      var least := LeastUsed(stacks, candidates - some);
      removed := GrowOldest(stacks, candidates, some + {least}, k);
    }
  }

  lemma {:induction false} RemovedHasOlder(spec: StackSetSpec, stacks: StackMap, removed: set<Name>, clock: Time,
                                        n: Name)
    requires Expires(spec, stacks, removed, clock) && n in removed
    ensures var c := Candidates(spec, stacks, clock);
            n in c && |Older(stacks, c, n)| < |c| - HistoryLimit(spec)
  {
    ExpiresSize(spec, stacks, removed, clock);
    var older := Older(stacks, Candidates(spec, stacks, clock), n);
    assert older <= removed - {n};
    Weights.SubsetSize(older, removed - {n});
  }

  lemma {:induction false} OlderThenRemovable(spec: StackSetSpec, stacks: StackMap, clock: Time,
                                        n: Name) returns (removed: set<Name>)
    requires var c := Candidates(spec, stacks, clock);
             n in c && |Older(stacks, c, n)| < |c| - HistoryLimit(spec)
    ensures Expires(spec, stacks, removed, clock) && n in removed
  {
    var c := Candidates(spec, stacks, clock);
    removed := GrowOldest(stacks, c, Older(stacks, c, n) + {n}, |c| - HistoryLimit(spec));
    ExpiresSize(spec, stacks, removed, clock);
  }

  /**
   Exactly the stacks that may be removed: candidates with fewer than the excess number of
   candidates last used before them.
   */
  lemma {:induction false} RemovableIff(spec: StackSetSpec, stacks: StackMap, clock: Time, n: Name)
    requires n in stacks
    ensures (exists removed :: Expires(spec, stacks, removed, clock) && n in removed) <==>
            var c := Candidates(spec, stacks, clock);
            n in c && |Older(stacks, c, n)| < |c| - HistoryLimit(spec)
  {
    var c := Candidates(spec, stacks, clock);
    if exists removed :: Expires(spec, stacks, removed, clock) && n in removed {
      var removed :| Expires(spec, stacks, removed, clock) && n in removed;
      RemovedHasOlder(spec, stacks, removed, clock, n);
    }
    if n in c && |Older(stacks, c, n)| < |c| - HistoryLimit(spec) {
      var removed := OlderThenRemovable(spec, stacks, clock, n);
    }
  }

  /**
   A stack with traffic is never removed if it has an ingress or a routegroup of its own or the
   stack set has an external ingress; without these it may be removed exactly if the limit
   leaves room for fewer than all candidates that are not older.
   */
  lemma {:induction false} TrafficIsSparedIff(spec: StackSetSpec, stacks: StackMap, clock: Time, n: Name)
    requires n in stacks && stacks[n].HasTraffic()
    ensures (forall removed :: Expires(spec, stacks, removed, clock) ==> n !in removed) <==>
            var c := Candidates(spec, stacks, clock);
            HasIngress(spec, stacks[n]) || |Older(stacks, c, n)| >= |c| - HistoryLimit(spec)
  {
    RemovableIff(spec, stacks, clock, n);
  }

  predicate AllHaveIngress(spec: StackSetSpec, stacks: StackMap) {
    spec.externalIngress || forall n :: n in stacks ==> stacks[n].spec.ingress || stacks[n].spec.routeGroup
  }

  /** With an ingress for every stack, every removed stack is idle for longer than the TTL. */
  lemma {:induction false} RemovedIsIdle(spec: StackSetSpec, stacks: StackMap, removed: set<Name>, clock: Time, n: Name)
    requires Expires(spec, stacks, removed, clock) && n in removed && AllHaveIngress(spec, stacks)
    ensures n in stacks && stacks[n].ScaledDown(clock)
    ensures stacks[n].actual <= 0.0 && stacks[n].desired <= 0.0
  {
  }

  /**
   The documentation (README.md:168-175) promises that the limit never deletes a stack with
   traffic.  The code does: here a stack set with an ingress keeps one stack, and the stack that
   carries all traffic has no ingress of its own and was created before the other one went idle.
   */
  lemma {:induction false} TrafficCanBeRemoved(spec: StackSetSpec, stacks: StackMap, removed: set<Name>, clock: Time)
    requires spec.Enabled() && !spec.externalIngress && spec.limit == Some(1)
    requires stacks.Keys == {"a", "b"}
    requires forall n :: n in stacks ==> !stacks[n].spec.ingress && !stacks[n].spec.routeGroup
    requires stacks["a"].actual == 100.0 && stacks["a"].noTrafficSince == ZERO_TIME && stacks["a"].spec.created == 1
    requires stacks["b"].actual == 0.0 && stacks["b"].desired == 0.0 && stacks["b"].noTrafficSince == 2
    requires Expires(spec, stacks, removed, clock)
    ensures removed == {"a"} && stacks["a"].HasTraffic()
  {
    assert Candidates(spec, stacks, clock) == {"a", "b"};
    OneOfTwo(removed);
  }

  lemma {:induction false} OneOfTwo(names: set<Name>)
    requires names <= {"a", "b"} && |names| == 1
    ensures names == {"a"} || names == {"b"}
  {
    var n :| n in names;
    assert |names - {n}| == 0;
    assert names == names - {n} + {n};
  }
}
