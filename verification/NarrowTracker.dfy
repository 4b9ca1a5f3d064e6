/** The narrowing shadow as the object it is: registry, edge values and pending masks updated
    in place, and the two loops that evaluate a transition and classify a mark. */
module NarrowTrackers {
  import opened DepKeys
  import opened ListInterest
  import opened EventMasks
  import opened NarrowRun

  datatype Verdict = VerdictNarrowed | VerdictSticky | VerdictRegistryFull

  class NarrowTracker {
    var byKey: map<(GVR, set<Read>), Interest>
    var byGVR: map<GVR, GVRInterests>
    var count: nat
    var edges: map<L1Key, DepSet>
    var pending: map<Coord, Mask>
    var held: map<Coord, Option<Mask>>
    var requeues: map<Coord, nat>

    constructor ()
      ensures View() == NarrowRun.EMPTY
    {
      byKey, byGVR, count, edges := map[], map[], 0, map[];
      pending, held, requeues := map[], map[], map[];
    }

    function Reg(): Registry
      reads this
    {
      Registry(byKey, byGVR, count)
    }

    function View(): Shadow
      reads this
    {
      Shadow(Reg(), edges, pending, held, requeues)
    }

    /** The interest of a read set on a GVR, registered when new; none past the bound. */
    method InternReads(g: GVR, rs: set<Read>) returns (li: Option<Interest>)
      modifies `byKey, `byGVR, `count
      ensures Reg() == old(Intern(Reg(), g, rs)) && li == old(Interned(Reg(), g, rs))
    {
      var key := (g, rs);
      if key in byKey {
        return Some(byKey[key]);
      }
      if count >= MAX_LIST_INTERESTS {
        return None;
      }
      var was := if g in byGVR then byGVR[g] else GVRInterests(0, []);
      count := count + 1;
      var created := Interest(count, g, rs, was.gen + 1);
      byGVR := byGVR[g := GVRInterests(was.gen + 1, was.list + [created])];
      byKey := byKey[key := created];
      li := Some(created);
    }

    method Record(k: L1Key, dk: DepKey, mode: RecordMode)
      modifies `edges
      ensures View() == old(Apply(View(), Tell(k, dk, Recorded(mode))))
    {
      if k !in edges {
        edges := edges[k := map[]];
      }
      if dk !in edges[k] {
        edges := edges[k := edges[k][dk := if dk.name == LIST_WILDCARD && mode == RecordNarrowable then Pending else Sticky]];
      } else {
        var v := edges[k][dk];
        if dk.name == LIST_WILDCARD && mode == RecordPlain && v != Sticky {
          v := All;
        }
        edges := edges[k := edges[k][dk := v]];
      }
    }

    /** Narrows a pending list edge, or widens a narrowed one to the union. */
    method CommitReads(k: L1Key, dk: DepKey, rs: set<Read>) returns (verdict: Verdict)
      requires dk.IsList()
      modifies this
      ensures View() == old(Apply(View(), Tell(k, dk, Reads(rs))))
      ensures verdict.VerdictNarrowed? <==> EdgeOf(View(), k, dk).Some? && EdgeOf(View(), k, dk).value.Narrowed?
      ensures verdict.VerdictSticky? ==> View() == old(View())
    {
      if k !in edges || dk !in edges[k] || edges[k][dk] == Sticky || edges[k][dk] == All {
        if k in edges && dk in edges[k] { SameUpdate(edges, k, dk); }
        return VerdictSticky;
      }
      var cur := edges[k][dk];
      var want := if cur.Narrowed? then cur.li.readSet + rs else rs;
      var li := InternReads(dk.gvr, want);
      match li
      case Some(found) =>
        edges := edges[k := edges[k][dk := Narrowed(found)]];
        verdict := VerdictNarrowed;
      case None =>
        edges := edges[k := edges[k][dk := All]];
        verdict := VerdictRegistryFull;
    }

    /** The swap of a commit that loaded the edge and interned some while ago: it takes effect
        only if the edge is as it was loaded, and then it is the commit step; a commit that
        loses it starts over. */
    method SwapCommitted(k: L1Key, dk: DepKey, seen: EdgeValue, li: Option<Interest>, rs: set<Read>,
                         ghost ops: seq<Op>, ghost more: seq<Op>)
      returns (won: bool)
      requires dk.IsList() && (seen.Pending? || seen.Narrowed?)
      requires View() == NarrowRun.Run(ops + [InternFor(dk.gvr, Wanted(seen, rs))] + more)
      requires li == Interned(NarrowRun.Run(ops).reg, dk.gvr, Wanted(seen, rs))
      modifies `edges
      ensures won <==> old(EdgeOf(View(), k, dk)) == Some(seen)
      ensures View() == if won then old(Apply(View(), Tell(k, dk, Reads(rs)))) else old(View())
    {
      if k !in edges || dk !in edges[k] || edges[k][dk] != seen {
        return false;
      }
      CommitAtSwap(ops, more, k, dk, seen, rs);
      edges := edges[k := edges[k][dk := if li.Some? then Narrowed(li.value) else All]];
      won := true;
    }

    /** Classifies a list mark of a key during a run, while the worker holds the coordinate:
        it is avoided exactly when every edge in reach is narrowed and every transition taken
        left its projection unchanged. */
    method ClassifyMark(k: L1Key, c: Coord, probe: Probe, ghost ops: seq<Op>) returns (r: Reason)
      requires View() == NarrowRun.Run(ops) && c in held
      ensures OwedOf(ops, c).taken.Some?
      ensures r == AvoidUnreadField <==>
                && probe.Found? && k in edges && !NoListEdge(Some(edges[k]), c.gvr, c.namespace)
                && forall dk | dk in edges[k] && ReachesList(dk, c.gvr, c.namespace) ::
                     edges[k][dk].Narrowed? && AllSpared(OwedOf(ops, c).taken.value, edges[k][dk].li)
    {
      var ds := if k in edges then Some(edges[k]) else None;
      r := NarrowDecide(ds, c.gvr, c.namespace, DecisionState(probe), held[c]);
      DecidesAvoids(r, ds, c.gvr, c.namespace, DecisionState(probe), held[c]);
      AvoidedExactly(ops, k, c, probe);
    }

    method WidenListInterest(k: L1Key, dk: DepKey)
      modifies `edges
      ensures View() == old(Apply(View(), Tell(k, dk, WidenNotice)))
    {
      if dk.name == LIST_WILDCARD && k in edges && dk in edges[k] {
        if edges[k][dk] != Sticky {
          edges := edges[k := edges[k][dk := All]];
        } else {
          SameUpdate(edges, k, dk);
        }
      }
    }

    method ReplayListEdge(k: L1Key, dk: DepKey, producer: Option<Interest>)
      requires dk.IsList()
      modifies this
      ensures View() == old(Apply(View(), Replay(k, dk, producer)))
    {
      match producer
      case None =>
        Record(k, dk, RecordPlain);
      case Some(li) =>
        Record(k, dk, RecordNarrowable);
        var _ := CommitReads(k, dk, li.readSet);
    }

    /** Evaluates one update against every interest registered on the GVR. */
    method UpdateMask(g: GVR, before: Item, after: Item, decodable: bool) returns (m: Mask)
      requires Listed(Reg(), g).gen == |Listed(Reg(), g).list|
      ensures m == MaskOf(Listed(Reg(), g).list, Update(before, after, decodable, Listed(Reg(), g).gen))
    {
      var snapshot := if g in byGVR then byGVR[g] else GVRInterests(0, []);
      m := Mask(false, false, snapshot.gen, {});
      if |snapshot.list| == 0 {
        return;
      }
      if !decodable {
        m := m.(unknown := true);
        return;
      }
      for i := 0 to |snapshot.list|
        invariant m == Mask(false, false, snapshot.gen, ChangedIds(snapshot.list[..i], before, after))
      {
        var li := snapshot.list[i];
        ChangedOne(snapshot.list, i, before, after);
        if Project(before, li.readSet) != Project(after, li.readSet) {
          m := m.(changed := m.changed + {li.id});
        }
      }
      assert snapshot.list[..|snapshot.list|] == snapshot.list;
    }

    method MergeMask(c: Coord, m: Option<Mask>)
      modifies `pending
      ensures View() == old(WithPending(View(), c, MergeInto(PendingOf(View(), c), m)))
    {
      if m.None? {
        assert c !in pending ==> pending - {c} == pending;
        assert c in pending ==> pending == pending[c := pending[c]];
        return;
      }
      if c in pending {
        pending := pending[c := Merge(pending[c], m.value)];
      } else {
        pending := pending[c := m.value];
      }
    }

    method TakeMask(c: Coord) returns (m: Option<Mask>)
      modifies `pending
      ensures m == old(PendingOf(View(), c)) && View() == old(WithPending(View(), c, None))
    {
      m := if c in pending then Some(pending[c]) else None;
      pending := pending - {c};
    }

    /** One processing of a dequeued coordinate: take the mask, probe, and either give the mask
        back and requeue, or hand state and mask to the decision. Only an object that is gone is
        decided absent; an unknown one is requeued five times and then degraded. */
    method HandleDepEvent(c: Coord, probe: Probe) returns (decision: Option<(ObjectState, Option<Mask>)>)
      requires c !in held
      modifies this
      ensures View() == old(Apply(Apply(View(), Take(c)), Process(c, probe)))
      ensures probe == Found ==> decision == Some((Exists, old(PendingOf(View(), c))))
      ensures probe == Gone ==> decision == Some((Absent, old(PendingOf(View(), c))))
      ensures probe == Unknown && old(if c in requeues then requeues[c] else 0) >= 5 ==>
                decision == Some((Degraded, old(PendingOf(View(), c))))
      ensures probe == Unknown && old(if c in requeues then requeues[c] else 0) < 5 ==>
                decision == None && requeues == old(requeues[c := (if c in requeues then requeues[c] else 0) + 1]) && pending == old(pending)
      ensures decision.Some? ==> requeues == old(requeues) - {c} && pending == old(pending) - {c}
      ensures held == old(held) && edges == old(edges) && Reg() == old(Reg())
    {
      TakenProcessed(View(), c, probe);
      decision := DecideTaken(c, probe);
    }

    method DecideTaken(c: Coord, probe: Probe) returns (decision: Option<(ObjectState, Option<Mask>)>)
      modifies `pending, `requeues
      ensures var n := old(if c in requeues then requeues[c] else 0);
              if probe == Unknown && n < MAX_REQUEUES then
                decision == None && requeues == old(requeues)[c := n + 1] && pending == old(pending)
              else
                && decision == Some((match probe case Found => Exists case Gone => Absent case Unknown => Degraded, old(PendingOf(View(), c))))
                && requeues == old(requeues) - {c} && pending == old(pending) - {c}
    {
      var mask := TakeMask(c);
      match probe
      case Found =>
        requeues := requeues - {c};
        decision := Some((Exists, mask));
      case Gone =>
        requeues := requeues - {c};
        decision := Some((Absent, mask));
      case Unknown =>
        var n := if c in requeues then requeues[c] else 0;
        if n < MAX_REQUEUES {
          MergeMask(c, mask);
          requeues := requeues[c := n + 1];
          return None;
        }
        requeues := requeues - {c};
        decision := Some((Degraded, mask));
    }
  }

  /** Taking a coordinate and processing it at once passes through the worker's hands. */
  lemma TakenProcessed(s: Shadow, c: Coord, probe: Probe)
    requires c !in s.held
    ensures Apply(Apply(s, Take(c)), Process(c, probe)) ==
              if probe == Unknown && RequeuesOf(s, c) < MAX_REQUEUES
              then s.(requeues := s.requeues[c := RequeuesOf(s, c) + 1])
              else s.(requeues := s.requeues - {c}, pending := s.pending - {c})
  {
    assert s.held[c := PendingOf(s, c)] - {c} == s.held;
    if c in s.pending {
      assert (s.pending - {c})[c := s.pending[c]] == s.pending;
    } else {
      assert s.pending - {c} == s.pending;
    }
  }

  lemma SameUpdate(edges: map<L1Key, DepSet>, k: L1Key, dk: DepKey)
    requires k in edges && dk in edges[k]
    ensures edges[k := edges[k][dk := edges[k][dk]]] == edges
  {
    assert edges[k][dk := edges[k][dk]] == edges[k];
  }

  lemma ChangedOne(list: seq<Interest>, i: nat, before: Item, after: Item)
    requires i < |list|
    ensures ChangedIds(list[..i + 1], before, after) ==
              ChangedIds(list[..i], before, after)
              + if SameProjection(before, after, list[i].readSet) then {} else {list[i].id}
  {
    var now := list[..i + 1];
    var was := list[..i];
    assert forall j | 0 <= j < i :: now[j] == was[j];
    assert now[i] == list[i];
    forall id ensures id in ChangedIds(now, before, after) <==>
      id in ChangedIds(was, before, after) || (id == list[i].id && !SameProjection(before, after, list[i].readSet))
    {
      if id in ChangedIds(was, before, after) {
        var j :| 0 <= j < |was| && !SameProjection(before, after, was[j].readSet) && was[j].id == id;
        assert now[j].id == id;
      }
    }
  }

  function Keep(best: Option<Reason>, r: Reason): Option<Reason> {
    if best.None? || r.Rank() < best.value.Rank() then Some(r) else best
  }

  /** What the edges alone say: the reason they keep the mark for, if any, and the interests
      of the narrowed ones. */
  method WalkEdges(ds: DepSet, g: GVR, ns: string) returns (best: Option<Reason>, narrowed: seq<Interest>)
    ensures best == if HasEdgeLike(Some(ds), g, ns, Sticky) || HasEdgeLike(Some(ds), g, ns, All) then Some(KeptInterestAll)
                    else if HasEdgeLike(Some(ds), g, ns, Pending) then Some(KeptInterestPending) else None
    ensures forall li :: li in narrowed <==> HasEdgeLike(Some(ds), g, ns, Narrowed(li))
  {
    var dks := [DepKey(g, ns, LIST_WILDCARD)] + if ns != "" then [DepKey(g, "", LIST_WILDCARD)] else [];
    best, narrowed := None, [];
    for i := 0 to |dks|
      invariant best == if Among(ds, dks[..i], Sticky) || Among(ds, dks[..i], All) then Some(KeptInterestAll)
                        else if Among(ds, dks[..i], Pending) then Some(KeptInterestPending) else None
      invariant forall li :: li in narrowed <==> Among(ds, dks[..i], Narrowed(li))
    {
      AmongOne(ds, dks, i);
      if dks[i] in ds {
        match ds[dks[i]]
        case Sticky => best := Keep(best, KeptInterestAll);
        case All => best := Keep(best, KeptInterestAll);
        case Pending => best := Keep(best, KeptInterestPending);
        case Narrowed(li) => narrowed := narrowed + [li];
      }
    }
    assert dks[..|dks|] == dks;
    forall v ensures Among(ds, dks, v) <==> HasEdgeLike(Some(ds), g, ns, v) {
      assert forall dk :: dk in dks <==> ReachesList(dk, g, ns);
    }
  }

  predicate Among(ds: DepSet, dks: seq<DepKey>, v: EdgeValue) {
    exists dk | dk in dks :: dk in ds && ds[dk] == v
  }

  lemma AmongOne(ds: DepSet, dks: seq<DepKey>, i: nat)
    requires i < |dks|
    ensures forall v :: Among(ds, dks[..i + 1], v) <==> Among(ds, dks[..i], v) || (dks[i] in ds && ds[dks[i]] == v)
  {
    assert dks[..i + 1] == dks[..i] + [dks[i]];
    forall v ensures Among(ds, dks[..i + 1], v) <==> Among(ds, dks[..i], v) || (dks[i] in ds && ds[dks[i]] == v) {
      if dks[i] in ds && ds[dks[i]] == v { assert dks[i] in dks[..i + 1]; }
      if Among(ds, dks[..i], v) {
        var dk :| dk in dks[..i] && dk in ds && ds[dk] == v;
        assert dk in dks[..i + 1];
      }
    }
  }

  /** Holds the narrowed interests against a decided mask. */
  method ConsultMask(start: Option<Reason>, narrowed: seq<Interest>, m: Mask) returns (best: Option<Reason>)
    requires start.Some? ==> start.value in {KeptInterestAll, KeptInterestPending}
    ensures best == if exists li | li in narrowed :: li.gen > m.gen then Some(KeptRegistryLate)
                    else if start.Some? then start
                    else if exists li | li in narrowed :: li.gen <= m.gen && li.id in m.changed then Some(KeptReadField)
                    else None
  {
    best := start;
    for i := 0 to |narrowed|
      invariant best == if exists j | 0 <= j < i :: narrowed[j].gen > m.gen then Some(KeptRegistryLate)
                        else if start.Some? then start
                        else if exists j | 0 <= j < i :: narrowed[j].gen <= m.gen && narrowed[j].id in m.changed
                             then Some(KeptReadField)
                        else None
    {
      if narrowed[i].gen > m.gen {
        best := Keep(best, KeptRegistryLate);
      } else if narrowed[i].id in m.changed {
        best := Keep(best, KeptReadField);
      }
    }
  }

  /** Lets the probe and the mask speak about a key with narrowed edges. */
  method DecideNarrowed(start: Option<Reason>, narrowed: seq<Interest>, state: ObjectState, mask: Option<Mask>)
    returns (r: Reason)
    requires start.Some? ==> start.value in {KeptInterestAll, KeptInterestPending}
    ensures r == if state.Degraded? then KeptDegraded
                 else if mask.None? then KeptNoMask
                 else if mask.value.unknown then KeptUndecided
                 else if mask.value.membership || state.Absent? then KeptMembership
                 else if exists li | li in narrowed :: li.gen > mask.value.gen then KeptRegistryLate
                 else if start.Some? then start.value
                 else if exists li | li in narrowed :: li.gen <= mask.value.gen && li.id in mask.value.changed then KeptReadField
                 else AvoidUnreadField
  {
    var best := start;
    if state.Degraded? {
      best := Keep(best, KeptDegraded);
    } else if mask.None? {
      best := Keep(best, KeptNoMask);
    } else if mask.value.unknown {
      best := Keep(best, KeptUndecided);
    } else if mask.value.membership || state.Absent? {
      best := Keep(best, KeptMembership);
    } else {
      best := ConsultMask(best, narrowed, mask.value);
    }
    r := if best.Some? then best.value else AvoidUnreadField;
  }

  /** Classifies one list mark: the edges first, then the probe and the mask, the lowest
      reason winning. */
  method NarrowDecide(ds: Option<DepSet>, g: GVR, ns: string, state: ObjectState, mask: Option<Mask>) returns (r: Reason)
    ensures Decides(r, ds, g, ns, state, mask)
  {
    if ds.None? {
      return KeptInterestAll;
    }
    var best, narrowed := WalkEdges(ds.value, g, ns);
    NarrowedMeaning(ds.value, narrowed, g, ns);
    if narrowed == [] {
      return if best.Some? then best.value else KeptInterestAll;
    }
    r := DecideNarrowed(best, narrowed, state, mask);
  }

  lemma NarrowedMeaning(ds: DepSet, narrowed: seq<Interest>, g: GVR, ns: string)
    requires forall li :: li in narrowed <==> HasEdgeLike(Some(ds), g, ns, Narrowed(li))
    ensures narrowed != [] <==> HasNarrowed(Some(ds), g, ns)
    ensures narrowed != [] ==> !NoListEdge(Some(ds), g, ns)
    ensures forall m :: NarrowedLate(Some(ds), g, ns, m) <==> exists li | li in narrowed :: li.gen > m.gen
    ensures forall m :: NarrowedChanged(Some(ds), g, ns, m) <==>
                          exists li | li in narrowed :: li.gen <= m.gen && li.id in m.changed
    ensures (narrowed == [] && forall v: EdgeValue | v.Sticky? || v.All? || v.Pending? :: !HasEdgeLike(Some(ds), g, ns, v)) ==>
              NoListEdge(Some(ds), g, ns)
    ensures HasEdgeLike(Some(ds), g, ns, Pending) ==> !NoListEdge(Some(ds), g, ns)
  {
    forall dk | dk in ds && ReachesList(dk, g, ns) && ds[dk].Narrowed? ensures ds[dk].li in narrowed {
      assert HasEdgeLike(Some(ds), g, ns, Narrowed(ds[dk].li));
    }
    if narrowed != [] {
      assert narrowed[0] in narrowed;
    }
    forall li | li in narrowed ensures exists dk | dk in ds :: ReachesList(dk, g, ns) && ds[dk] == Narrowed(li) {
      assert HasEdgeLike(Some(ds), g, ns, Narrowed(li));
    }
  }
}
