/**
 Which weights survive being saved by one cycle and read by the next, when stacks
 are removed in between (pkg/core/stackset.go, pkg/core/types.go).
 */
module Persistence {
  import opened Names
  import opened Sums
  import opened Weights
  import opened Stacks
  import opened Traffic
  import opened Statuses
  import opened GarbageCollection

  ghost predicate NothingRemoved(stacks: StackMap, w: Weights)
    requires w.Keys == stacks.Keys
  {
    forall n :: n in stacks && stacks[n].pendingRemoval ==> w[n] == 0.0
  }

  ghost predicate NothingStays(stacks: StackMap, w: Weights)
    requires w.Keys == stacks.Keys
  {
    forall n :: n in stacks && !stacks[n].pendingRemoval ==> w[n] == 0.0
  }

  lemma {:induction false} SplitTotal(w: Weights, part: set<Name>)
    requires part <= w.Keys
    ensures Sum(w) == Sum(Kept(w, part)) + Sum(w - part)
  {
    var inside := map n | n in w :: if n in part then w[n] else 0.0;
    var outside := map n | n in w :: if n in part then 0.0 else w[n];
    SumAdd(inside, outside, w);
    SumSupport(inside, Kept(w, part));
    SumSupport(outside, w - part);
  }

  /** What stays totals 100 less what is removed. */
  lemma {:induction false} StayingTotal(stacks: StackMap, w: Weights)
    requires w.Keys == stacks.Keys && NonNegative(w) && Sum(w) == 100.0
    ensures Sum(Kept(w, Staying(stacks))) == 100.0 <==> NothingRemoved(stacks, w)
    ensures Sum(Kept(w, Staying(stacks))) == 0.0 <==> NothingStays(stacks, w)
  {
    SplitTotal(w, Staying(stacks));
    SumZero(w - Staying(stacks));
    SumZero(Kept(w, Staying(stacks)));
    assert (forall n :: n in w - Staying(stacks) ==> (w - Staying(stacks))[n] == 0.0) <==>
            NothingRemoved(stacks, w) by {
      assert forall n :: n in w - Staying(stacks) <==> n in stacks && stacks[n].pendingRemoval;
    }
    assert (forall n :: n in Kept(w, Staying(stacks)) ==> Kept(w, Staying(stacks))[n] == 0.0) <==>
            NothingStays(stacks, w) by {
      assert forall n :: n in Kept(w, Staying(stacks)) <==> n in stacks && !stacks[n].pendingRemoval;
    }
  }

  lemma {:induction false} PublishedIsStaying(spec: StackSetSpec, stacks: StackMap)
    requires spec.Enabled()
    ensures PublishedActual(spec, stacks) == Kept(Actual(stacks), Staying(stacks))
  {
  }

  lemma {:induction false} SavedIsStaying(spec: StackSetSpec, stacks: StackMap)
    requires spec.Enabled() && NonNegative(Desired(stacks))
    ensures Sum(SavedDesired(spec, stacks)) == Sum(Kept(Desired(stacks), Staying(stacks)))
    ensures NonNegative(SavedDesired(spec, stacks))
  {
    var kept := Kept(Desired(stacks), Staying(stacks));
    assert forall n :: n in Desired(stacks) ==> Desired(stacks)[n] == stacks[n].desired;
    SumSupport(kept, SavedDesired(spec, stacks));
  }

  /** Published weights total 100 exactly if no stack that is being removed carries traffic. */
  lemma {:induction false} PublishedTotal(spec: StackSetSpec, stacks: StackMap)
    requires spec.Enabled() && Canonical(Actual(stacks))
    ensures Sum(PublishedActual(spec, stacks)) == 100.0 <==> NothingRemoved(stacks, Actual(stacks))
    ensures NonNegative(PublishedActual(spec, stacks))
  {
    PublishedIsStaying(spec, stacks);
    StayingTotal(stacks, Actual(stacks));
  }

  // ----- reading back -----

  /** A list that was written for existing stacks is read as the weights it was written for, scaled. */
  lemma {:induction false} ReadPublished(list: seq<TrafficEntry>, w: Weights, names: set<Name>)
    requires Publishes(list, w) && NonNegative(w) && w.Keys <= names
    ensures NonNegativeEntries(list) && ReadWeights(list, names) == Spread(Scaled(w), names)
  {
    PublishedIsListed(list, w);
    assert Kept(w, names) == w;
  }

  lemma {:induction false} ScalingMoves(weight: real, total: real)
    requires weight > 0.0 && total > 0.0 && total != 100.0
    ensures Share(weight, total) != weight
  {
    var share := Share(weight, total);
    assert share * total == weight * 100.0;
    assert (share - weight) * total == weight * (100.0 - total);
    assert weight * (100.0 - total) != 0.0;
  }

  /** Scaling leaves weights alone exactly if they total 100 or 0. */
  lemma {:induction false} ScaledFixedIff(w: Weights)
    requires NonNegative(w)
    ensures Scaled(w) == w <==> Sum(w) == 100.0 || Sum(w) == 0.0
  {
    SumZero(w);
    if Sum(w) == 100.0 {
      NormalizedFixed(w);
    } else if !AllZero(w) {
      TotalPositive(w);
      var n :| n in w && w[n] > 0.0;
      ScalingMoves(w[n], Sum(w));
      assert Scaled(w)[n] == Share(w[n], Sum(w));
    }
  }

  /** names are the stacks of the next cycle: all that stay, none that was removed. */
  ghost predicate Succeeds(stacks: StackMap, names: set<Name>) {
    Staying(stacks) <= names && forall n :: n in stacks && stacks[n].pendingRemoval ==> n !in names
  }

  ghost predicate Restored(stacks: StackMap, w: Weights, read: Weights)
    requires w.Keys == stacks.Keys
  {
    forall n :: n in stacks && !stacks[n].pendingRemoval ==> n in read && read[n] == w[n]
  }

  lemma {:induction false} RestoredIff(stacks: StackMap, w: Weights, saved: Weights, names: set<Name>)
    requires w.Keys == stacks.Keys && NonNegative(w) && Sum(w) == 100.0 && Succeeds(stacks, names)
    requires NonNegative(saved) && saved.Keys <= Staying(stacks)
    requires forall n :: n in stacks && !stacks[n].pendingRemoval ==> w[n] == if n in saved then saved[n] else 0.0
    requires Sum(saved) == Sum(Kept(w, Staying(stacks)))
    ensures Restored(stacks, w, Spread(Scaled(saved), names)) <==> NothingRemoved(stacks, w) || NothingStays(stacks, w)
  {
    StayingTotal(stacks, w);
    ScaledFixedIff(saved);
    var read := Spread(Scaled(saved), names);
    if Restored(stacks, w, read) {
      forall n | n in saved
        ensures Scaled(saved)[n] == saved[n]
      {
        assert n in stacks && !stacks[n].pendingRemoval && read[n] == w[n];
      }
      assert Scaled(saved) == saved;
    }
  }

  /**
   Saving the desired traffic and reading it in the next cycle restores the weight of every stack
   that stays exactly if no removed stack had desired weight, or no other stack had any; and a
   stack that is new reads 0.
   */
  lemma {:induction false} DesiredSurvivesIff(spec: StackSetSpec, stacks: StackMap, list: seq<TrafficEntry>,
                                        names: set<Name>)
    requires spec.Enabled() && Canonical(Desired(stacks)) && Succeeds(stacks, names)
    requires Publishes(list, SavedDesired(spec, stacks))
    ensures NonNegativeEntries(list)
    ensures Restored(stacks, Desired(stacks), ReadWeights(list, names)) <==>
            NothingRemoved(stacks, Desired(stacks)) || NothingStays(stacks, Desired(stacks))
    ensures forall n :: n in names && n !in stacks ==> ReadWeights(list, names)[n] == 0.0
  {
    var saved := SavedDesired(spec, stacks);
    SavedIsStaying(spec, stacks);
    ReadPublished(list, saved, names);
    DesiredEntries(spec, stacks);
    RestoredIff(stacks, Desired(stacks), saved, names);
  }

  lemma {:induction false} DesiredEntries(spec: StackSetSpec, stacks: StackMap)
    requires spec.Enabled() && NonNegative(Desired(stacks))
    ensures var w, saved := Desired(stacks), SavedDesired(spec, stacks);
            && saved.Keys <= Staying(stacks)
            && forall n :: n in stacks && !stacks[n].pendingRemoval ==> w[n] == if n in saved then saved[n] else 0.0
  {
    assert forall n :: n in Desired(stacks) ==> Desired(stacks)[n] == stacks[n].desired >= 0.0;
  }

  /** The same for the actual weights, which are published in the stack set's status. */
  lemma {:induction false} ActualSurvivesIff(spec: StackSetSpec, stacks: StackMap, list: seq<TrafficEntry>,
                                        names: set<Name>)
    requires spec.Enabled() && Canonical(Actual(stacks)) && Succeeds(stacks, names)
    requires Publishes(list, PublishedActual(spec, stacks))
    ensures NonNegativeEntries(list)
    ensures Restored(stacks, Actual(stacks), ReadWeights(list, names)) <==>
            NothingRemoved(stacks, Actual(stacks)) || NothingStays(stacks, Actual(stacks))
    ensures forall n :: n in names && n !in stacks ==> ReadWeights(list, names)[n] == 0.0
  {
    var published := PublishedActual(spec, stacks);
    PublishedIsStaying(spec, stacks);
    assert NonNegative(published);
    ReadPublished(list, published, names);
    RestoredIff(stacks, Actual(stacks), published, names);
  }

  // ----- garbage collection takes no traffic away -----

  lemma {:induction false} MarkedIsRemoved(stacks: StackMap, removed: set<Name>)
    requires forall n :: n in stacks ==> !stacks[n].pendingRemoval
    requires removed <= stacks.Keys
    ensures var marked := Marked(stacks, removed);
            && Staying(marked) == stacks.Keys - removed
            && Actual(marked) == Actual(stacks) && Desired(marked) == Desired(stacks)
  {
  }

  /**
   If every stack has an ingress or a routegroup of its own, or the stack set has an external
   ingress, then the stacks marked for removal carry no weight, and what is published totals 100.
   */
  lemma {:induction false} CollectionKeepsTotal(spec: StackSetSpec, stacks: StackMap, removed: set<Name>, clock: Time)
    requires spec.Enabled() && Canonical(Actual(stacks)) && Canonical(Desired(stacks))
    requires forall n :: n in stacks ==> !stacks[n].pendingRemoval
    requires AllHaveIngress(spec, stacks) && Expires(spec, stacks, removed, clock)
    ensures var marked := Marked(stacks, removed);
            && NothingRemoved(marked, Actual(marked)) && NothingRemoved(marked, Desired(marked))
            && Sum(PublishedActual(spec, marked)) == 100.0 && Sum(SavedDesired(spec, marked)) == 100.0
  {
    var marked := Marked(stacks, removed);
    MarkedIsRemoved(stacks, removed);
    forall n | n in stacks && marked[n].pendingRemoval
      ensures Actual(marked)[n] == 0.0 && Desired(marked)[n] == 0.0
    {
      RemovedIsIdle(spec, stacks, removed, clock, n);
      assert Actual(stacks)[n] >= 0.0 && Desired(stacks)[n] >= 0.0;
    }
    PublishedTotal(spec, marked);
    SavedIsStaying(spec, marked);
    StayingTotal(marked, Desired(marked));
  }
}
