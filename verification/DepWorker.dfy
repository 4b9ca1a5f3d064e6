/** One dequeued coordinate from the probe to the store: the decision the worker hands over,
    the fan-out it causes and the entries it evicts, and what an avoided mark of that fan-out
    means. */
module DepWorkers {
  import opened DepKeys
  import opened DepIndex
  import opened DepTrackers
  import opened ListInterest
  import opened EventMasks
  import NarrowRun
  import NarrowTrackers
  import TrackerSpec

  type Coord = NarrowRun.Coord

  type Probe = NarrowRun.Probe

  /** The key depends on the coordinate or on a list that shows it. */
  ghost predicate Reached(f: Forward, c: Coord, k: L1Key) {
    exists dk :: HasEdge(f, dk, k) && InReach(c.gvr, c.namespace, c.name, dk)
  }

  /** The entry is the coordinate's own representation. */
  predicate Represents(inputs: Inputs, c: Coord, k: L1Key) {
    k in inputs && inputs[k].gvr == c.gvr && inputs[k].namespace == c.namespace && inputs[k].name == c.name
  }

  /** One processing of a coordinate, end to end. An unknown probe within its budget of five
      touches neither the index nor the store; whatever else the probe says, every key in reach
      is marked or evicted, and the keys evicted are those that represent an object found gone. */
  method HandleEvent(tracker: DepTracker, shadow: NarrowTrackers.NarrowTracker, c: Coord, probe: Probe, inputs: Inputs)
    returns (resident: Inputs, marked: set<L1Key>)
    requires tracker.Valid() && c !in shadow.held
    modifies tracker, shadow
    ensures tracker.Valid()
    ensures probe == NarrowRun.Unknown && old(c !in shadow.requeues || shadow.requeues[c] < 5) ==>
              tracker.View() == old(tracker.View()) && resident == inputs && marked == {}
    ensures probe != NarrowRun.Unknown || old(c in shadow.requeues && shadow.requeues[c] >= 5) ==>
              tracker.seqNo == old(tracker.seqNo) + 1
              && forall k :: k in marked <==>
                   old(Reached(tracker.forward, c, k)) && !(probe == NarrowRun.Gone && Represents(inputs, c, k))
    ensures forall k :: k in resident <==>
              k in inputs && !(probe == NarrowRun.Gone && Represents(inputs, c, k) && old(Reached(tracker.forward, c, k)))
    ensures forall k | k in resident :: resident[k] == inputs[k]
    ensures forall dk, k :: HasEdge(tracker.forward, dk, k) <==>
              old(HasEdge(tracker.forward, dk, k))
              && !(probe == NarrowRun.Gone && Represents(inputs, c, k) && old(Reached(tracker.forward, c, k)))
  {
    var decision := shadow.HandleDepEvent(c, probe);
    if decision.None? {
      return inputs, {};
    }
    var evict;
    marked, evict := FanOut(tracker, c, decision.value.0, inputs);
    resident := inputs - evict;
    tracker.EvictBatch(evict);
  }

  /** The fan-out of a decided event, told in terms of the index before it. */
  method FanOut(tracker: DepTracker, c: Coord, state: ObjectState, inputs: Inputs) returns (marked: set<L1Key>, evict: set<L1Key>)
    requires tracker.Valid()
    modifies tracker
    ensures tracker.Valid() && tracker.seqNo == old(tracker.seqNo) + 1
    ensures forall dk, k :: HasEdge(tracker.forward, dk, k) <==> old(HasEdge(tracker.forward, dk, k))
    ensures forall k :: k in evict <==> state == Absent && Represents(inputs, c, k) && old(Reached(tracker.forward, c, k))
    ensures forall k :: k in marked <==> old(Reached(tracker.forward, c, k)) && k !in evict
  {
    ghost var before := tracker.View();
    var t := tracker.OnObjectEvent(ObjectChange(c.gvr, c.namespace, c.name), state, inputs);
    TrackerSpec.BumpAgrees(before, ObjectChange(c.gvr, c.namespace, c.name));
    assert forall dk, k :: HasEdge(tracker.forward, dk, k) <==> HasEdge(before.forward, dk, k);
    ReachedSame(before.forward, tracker.forward, c);
    marked, evict := t.mark, t.evict;
  }

  lemma ReachedSame(f: Forward, g: Forward, c: Coord)
    requires forall dk, k :: HasEdge(f, dk, k) <==> HasEdge(g, dk, k)
    ensures forall k :: Reached(f, c, k) <==> Reached(g, c, k)
    ensures forall k :: Reached(g, c, k) <==> exists dk :: HasEdge(g, dk, k) && InReach(c.gvr, c.namespace, c.name, dk)
  {
    forall k | Reached(f, c, k) ensures Reached(g, c, k) {
      var dk :| HasEdge(f, dk, k) && InReach(c.gvr, c.namespace, c.name, dk);
      assert HasEdge(g, dk, k);
    }
    forall k | Reached(g, c, k) ensures Reached(f, c, k) {
      var dk :| HasEdge(g, dk, k) && InReach(c.gvr, c.namespace, c.name, dk);
      assert HasEdge(f, dk, k);
    }
  }

  /** The list mark of a fan-out is classified avoided if and only if the object was found, and
      every dependency through which the event reached the key is narrowed to reads that no
      transition taken with the event changed. The key's edges are the same in both indexes. */
  lemma AvoidedListMark(ops: seq<NarrowRun.Op>, f: Forward, k: L1Key, c: Coord, probe: Probe)
    requires c in NarrowRun.Run(ops).held && k in NarrowRun.Run(ops).edges
    requires forall dk :: dk in NarrowRun.Run(ops).edges[k] <==> HasEdge(f, dk, k)
    requires Reached(f, c, k)
    requires forall dk | HasEdge(f, dk, k) && InReach(c.gvr, c.namespace, c.name, dk) :: dk.name == "*"
    ensures NarrowRun.OwedOf(ops, c).taken.Some?
    ensures
      var edges, ts := NarrowRun.Run(ops).edges[k], NarrowRun.OwedOf(ops, c).taken.value;
      Avoids(Some(edges), c.gvr, c.namespace, NarrowRun.DecisionState(probe), NarrowRun.Run(ops).held[c]) <==>
        && probe == NarrowRun.Found && ts != []
        && forall dk | HasEdge(f, dk, k) && InReach(c.gvr, c.namespace, c.name, dk) ::
             edges[dk].Narrowed?
             && forall t | t in ts :: t.Update? && t.decodable && edges[dk].li.gen <= t.gen
                                      && SameProjection(t.before, t.after, edges[dk].li.readSet)
  {
    var edges := NarrowRun.Run(ops).edges[k];
    NarrowRun.AvoidedExactly(ops, k, c, probe);
    assert forall dk | HasEdge(f, dk, k) :: InReach(c.gvr, c.namespace, c.name, dk) <==> ReachesList(dk, c.gvr, c.namespace);
    var dk :| HasEdge(f, dk, k) && InReach(c.gvr, c.namespace, c.name, dk);
    assert dk in edges && ReachesList(dk, c.gvr, c.namespace);
  }
}
