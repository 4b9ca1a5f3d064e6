/** No invalidation is lost: what every interleaving of the resolve protocol keeps. */
module ResolveSafety {
  import opened DepKeys
  import opened DepIndex
  import opened ResolveProtocol

  /** The key has not left the store since the resolve's write. */
  predicate Stays(s: State, r: Resolve) {
    At(s.leftAt, r.key) < r.putAt
  }

  predicate HasStored(r: Resolve) { r.phase != Running }

  predicate InCheck(r: Resolve) { r.phase in {Checking, Checked} }

  /** The event's data became visible after the resolve read the dependency it hits, so the
      resolve's body may lack it. */
  predicate Unseen(r: Resolve, dk: DepKey, e: Event) {
    Hits(e.change, dk) && dk in r.readAt && r.readAt[dk] < e.visibleAt
  }

  predicate HasSeq(e: Event) { e.phase != Visible }

  /** The event has stamped dk, or dk had no bucket when it came by. */
  predicate Passed(e: Event, dk: DepKey) {
    e.phase == Collecting || (e.phase == Stamping && dk !in e.pending)
  }

  predicate FannedOut(e: Event) {
    e.phase == Collecting && e.pending == {} && e.marks == {}
  }

  // ---- what holds of single resolves and events -------------------------------------

  predicate EventOk(s: State, e: Event) {
    && e.visibleAt < s.now
    && (HasSeq(e) ==> 0 < e.seqNo <= s.seqNo)
    && (e.phase in {Stamping, Collecting} ==> FloorOf(s.floors, e.change.gvr) >= e.seqNo)
    && (e.phase in {Visible, EventPhase.Advanced} ==> e.marks == {})
  }

  /** A bucket the event has passed carries its sequence number, however often the bucket
      was pruned and created again. */
  predicate StampOk(s: State, e: Event, dk: DepKey) {
    Hits(e.change, dk) && Passed(e, dk) && dk in s.forward ==> s.forward[dk].stamp >= e.seqNo
  }

  predicate ResolveOk(s: State, r: Resolve) {
    && r.startSeq <= s.seqNo
    && r.checkedSeq <= s.seqNo
    && (HasStored(r) ==> r.putAt < s.now)
    && r.own <= r.sink
    && (InCheck(r) ==> r.own <= r.toScan + r.scanned)
    && (!InCheck(r) ==> r.late == {} && r.recheck == {} && r.scanned == {} && r.torn == {} && r.missed == {} && !r.moved && !r.remarked)
    && (r.phase == Checked ==> r.toScan == {} && (r.moved ==> r.remarked))
    && StayOk(s, r)
  }

  /** While its key stays, a stored resolve is resident and a re-mark is a later schedule. */
  predicate StayOk(s: State, r: Resolve) {
    && (HasStored(r) && Stays(s, r) ==> r.key in s.resident)
    && (r.remarked && Stays(s, r) ==> At(s.enqueuedAt, r.key) > r.putAt)
  }

  predicate EdgeOk(s: State, r: Resolve, dk: DepKey) {
    HasStored(r) && Stays(s, r) && dk in r.own + r.late ==> HasEdge(s.forward, dk, r.key)
  }

  predicate ReadOk(s: State, r: Resolve, dk: DepKey) {
    dk in r.readAt ==> r.readAt[dk] < s.now
  }

  /** An event the resolve did not read took a sequence number above the one the
      dependency is checked from. */
  predicate OrderOk(r: Resolve, dk: DepKey, e: Event) {
    Unseen(r, dk, e) && HasSeq(e) ==> e.seqNo > CheckFrom(r, dk)
  }

  // ---- what holds of a resolve, a dependency and an event together --------------------

  predicate Delivered(s: State, r: Resolve, e: Event) {
    At(s.enqueuedAt, r.key) > r.putAt && At(s.enqueuedAt, r.key) > e.visibleAt
  }

  /** The event is still to mark the key. */
  predicate StillToCome(r: Resolve, dk: DepKey, e: Event) {
    WillVisit(e, dk) || r.key in e.marks
  }

  /** A dependency recorded before the check and already scanned. */
  predicate OwnOk(s: State, r: Resolve, dk: DepKey, e: Event) {
    InCheck(r) && Stays(s, r) && dk in r.own && dk in r.scanned && Unseen(r, dk, e) ==>
      StillToCome(r, dk, e) || Delivered(s, r, e) || (r.phase == Checking && r.moved)
  }

  /** What the check leaves for the re-check: an event it did not see came after it. */
  predicate ScanOk(r: Resolve, id: EId, dk: DepKey, e: Event) {
    InCheck(r) && dk in r.scanned && Unseen(r, dk, e) && (id, dk) !in r.torn && HasSeq(e) ==>
      r.moved || e.seqNo > r.checkedSeq
  }

  /** A dependency recorded after the check began, against events the check did not count. */
  predicate LateOk(s: State, r: Resolve, dk: DepKey, e: Event) {
    InCheck(r) && Stays(s, r) && dk in r.late && dk !in r.recheck && Hits(e.change, dk)
    && (HasSeq(e) ==> e.seqNo > r.checkedSeq) ==>
      StillToCome(r, dk, e) || At(s.enqueuedAt, r.key) > r.putAt
  }

  /** A torn event that had not walked past the bucket when the edge was placed. */
  predicate TornOk(s: State, r: Resolve, id: EId, dk: DepKey, e: Event) {
    InCheck(r) && Stays(s, r) && dk in r.late && Hits(e.change, dk)
    && (id, dk) in r.torn && (id, dk) !in r.missed ==>
      StillToCome(r, dk, e) || At(s.enqueuedAt, r.key) > r.putAt
  }

  predicate EventInv(s: State, e: Event, dk: DepKey) {
    EventOk(s, e) && StampOk(s, e, dk)
  }

  predicate ResolveInv(s: State, r: Resolve, dk: DepKey) {
    ResolveOk(s, r) && EdgeOk(s, r, dk) && ReadOk(s, r, dk)
  }

  predicate PairInv(s: State, r: Resolve, id: EId, dk: DepKey, e: Event) {
    OrderOk(r, dk, e) && OwnOk(s, r, dk, e) && ScanOk(r, id, dk, e) && LateOk(s, r, dk, e)
    && TornOk(s, r, id, dk, e)
  }

  ghost predicate Inv(s: State) {
    && (forall e, dk | e in s.events :: EventInv(s, s.events[e], dk))
    && (forall r, dk | r in s.resolves :: ResolveInv(s, s.resolves[r], dk))
    && (forall r, e, dk | r in s.resolves && e in s.events :: PairInv(s, s.resolves[r], e, dk, s.events[e]))
  }

  // ---- what any step does to the shared state ------------------------------------------

  /** The view one dependency and one key have of a step from s to t. */
  predicate Evolves(s: State, t: State, dk: DepKey, k: L1Key) {
    && s.seqNo <= t.seqNo
    && FloorOf(s.floors, dk.gvr) <= FloorOf(t.floors, dk.gvr)
    && (dk in t.forward ==> t.forward[dk].stamp >= MovedAt(s.forward, s.floors, dk))
    && (HasEdge(s.forward, dk, k) && k in s.resident && k in t.resident ==> HasEdge(t.forward, dk, k))
    && (At(t.enqueuedAt, k) == At(s.enqueuedAt, k) || At(t.enqueuedAt, k) == s.now)
    && (At(t.leftAt, k) == At(s.leftAt, k) || At(t.leftAt, k) == s.now)
    && (k in s.resident ==> k in t.resident || At(t.leftAt, k) == s.now)
  }

  lemma StripEvolves(s: State, x: L1Key, dk: DepKey, k: L1Key)
    ensures x !in s.resident ==> Evolves(s, s.(forward := StripKey(s.forward, x)), dk, k)
    ensures Evolves(s, Remove(s, x), dk, k)
  {
    if HasEdge(s.forward, dk, k) && x != k { assert k in s.forward[dk].keys - {x}; }
  }

  lemma ActEvolves(s: State, r: RId, act: Act, t: State, dk: DepKey, k: L1Key)
    requires ActEnabled(s, r, act) && t == ActShared(s, r, act)
    ensures Evolves(s, t, dk, k)
  {
    match act
    case Put(admitted) => PutEvolves(s, s.resolves[r], admitted, t, dk, k);
    case _ =>
  }

  lemma PutEvolves(s: State, v: Resolve, admitted: set<DepKey>, t: State, dk: DepKey, k: L1Key)
    requires t == s.(resident := s.resident + {v.key},
                     forward := AddEdges(s.forward, s.floors, Reasserted(s, v, admitted), v.key))
    ensures Evolves(s, t, dk, k)
  {
  }

  lemma MoveEvolves(s: State, e: EId, move: Move, t: State, dk: DepKey, k: L1Key)
    requires MoveEnabled(s, e, move) && t == MoveShared(s, e, move)
    ensures Evolves(s, t, dk, k)
  {
    if move.Mark? { StripEvolves(s, move.k, dk, k); }
  }

  lemma StepEvolves(s: State, step: Step, s': State, dk: DepKey, k: L1Key)
    requires Moves(s, step, s')
    ensures Evolves(s, s', dk, k) && s'.now == s.now + 1
  {
    match step
    case Resolving(r, act) => ActEvolves(s, r, act, ActShared(s, r, act), dk, k);
    case Announcing(e, move) => MoveEvolves(s, e, move, MoveShared(s, e, move), dk, k);
    case Leave(x) => StripEvolves(s, x, dk, k);
    case Strip(x) => StripEvolves(s, x, dk, k);
  }

  // ---- one step keeps the invariant ---------------------------------------------------

  predicate Ticks(s: State, t: State, dk: DepKey, k: L1Key) {
    Evolves(s, t, dk, k) && t.now == s.now + 1
  }

  lemma EventIdles(s: State, t: State, e: Event, dk: DepKey, k: L1Key)
    requires Ticks(s, t, dk, k) && e.change.gvr == dk.gvr && EventInv(s, e, dk)
    ensures EventInv(t, e, dk)
  {
  }

  /** t is s after the move, up to the record of the event itself. */
  predicate Announced(s: State, t: State, e: EId, move: Move) {
    MoveEnabled(s, e, move) && !move.Appear? && t == MoveShared(s, e, move).(events := t.events, now := s.now + 1)
  }

  lemma EventMoves(s: State, t: State, e: EId, move: Move, dk: DepKey, k: L1Key)
    requires Announced(s, t, e, move) && Ticks(s, t, dk, k)
    requires s.events[e].change.gvr == dk.gvr && EventInv(s, s.events[e], dk)
    ensures EventInv(t, MoveLocal(s, e, move), dk)
  {
  }

  lemma ResolveIdles(s: State, t: State, r: Resolve, dk: DepKey)
    requires Ticks(s, t, dk, r.key) && ResolveInv(s, r, dk)
    ensures ResolveInv(t, r, dk)
  {
  }

  /** t is s after the act, up to the record of the resolve itself. */
  predicate Acted(s: State, t: State, r: RId, act: Act) {
    ActEnabled(s, r, act) && !act.Begin? && t == ActShared(s, r, act).(resolves := t.resolves, now := s.now + 1)
  }

  lemma ResolveActs(s: State, t: State, r: RId, act: Act)
    requires Acted(s, t, r, act) && ResolveOk(s, s.resolves[r])
    ensures ResolveOk(t, ActLocal(s, r, act))
  {
    StayActs(s, t, r, act);
  }

  lemma StayActs(s: State, t: State, r: RId, act: Act)
    requires Acted(s, t, r, act) && ResolveOk(s, s.resolves[r])
    ensures StayOk(t, ActLocal(s, r, act))
  {
  }

  lemma EdgeActs(s: State, t: State, r: RId, act: Act, dk: DepKey)
    requires Acted(s, t, r, act) && Ticks(s, t, dk, s.resolves[r].key)
    requires ResolveInv(s, s.resolves[r], dk)
    requires act.Reuse? ==> ReadOk(s, s.resolves[act.producer], dk)
    ensures EdgeOk(t, ActLocal(s, r, act), dk) && ReadOk(t, ActLocal(s, r, act), dk)
  {
  }

  lemma PairIdles(s: State, t: State, r: Resolve, id: EId, dk: DepKey, e: Event)
    requires Ticks(s, t, dk, r.key)
    requires ResolveInv(s, r, dk) && EventInv(s, e, dk) && PairInv(s, r, id, dk, e)
    ensures PairInv(t, r, id, dk, e)
  {
  }

  lemma OrderActs(s: State, t: State, r: RId, act: Act, id: EId, dk: DepKey)
    requires Acted(s, t, r, act) && id in s.events
    requires ResolveOk(s, s.resolves[r]) && EventOk(s, s.events[id])
    requires OrderOk(s.resolves[r], dk, s.events[id])
    requires act.Reuse? ==> OrderOk(s.resolves[act.producer], dk, s.events[id])
    ensures OrderOk(ActLocal(s, r, act), dk, s.events[id])
  {
  }

  lemma OwnActs(s: State, t: State, r: RId, act: Act, id: EId, dk: DepKey)
    requires Acted(s, t, r, act) && id in s.events && Ticks(s, t, dk, s.resolves[r].key)
    requires ResolveInv(s, s.resolves[r], dk) && EventInv(s, s.events[id], dk)
    requires OrderOk(s.resolves[r], dk, s.events[id]) && OwnOk(s, s.resolves[r], dk, s.events[id])
    ensures OwnOk(t, ActLocal(s, r, act), dk, s.events[id])
  {
  }

  lemma ScanActs(s: State, t: State, r: RId, act: Act, id: EId, dk: DepKey)
    requires Acted(s, t, r, act) && id in s.events
    requires ResolveOk(s, s.resolves[r]) && EventInv(s, s.events[id], dk)
    requires PairInv(s, s.resolves[r], id, dk, s.events[id])
    ensures ScanOk(ActLocal(s, r, act), id, dk, s.events[id])
  {
  }

  lemma LateActs(s: State, t: State, r: RId, act: Act, id: EId, dk: DepKey)
    requires Acted(s, t, r, act) && id in s.events && Ticks(s, t, dk, s.resolves[r].key)
    requires ResolveInv(s, s.resolves[r], dk) && EventInv(s, s.events[id], dk)
    requires PairInv(s, s.resolves[r], id, dk, s.events[id])
    ensures LateOk(t, ActLocal(s, r, act), dk, s.events[id])
    ensures TornOk(t, ActLocal(s, r, act), id, dk, s.events[id])
  {
  }

  lemma PairMoves(s: State, t: State, r: Resolve, id: EId, move: Move, dk: DepKey)
    requires Announced(s, t, id, move) && Ticks(s, t, dk, r.key)
    requires ResolveInv(s, r, dk) && EventInv(s, s.events[id], dk) && PairInv(s, r, id, dk, s.events[id])
    ensures PairInv(t, r, id, dk, MoveLocal(s, id, move))
  {
    match move
    case Visit(_) =>
    case Mark(_, _) =>
    case _ =>
  }

  /** What a step leaves of a resolve that already ran: its act's result, or itself. */
  lemma ResolveAfter(s: State, step: Step, s': State, r: RId)
    requires Moves(s, step, s') && r in s.resolves
    ensures r in s'.resolves
    ensures if step.Resolving? && step.r == r then
              Acted(s, s', r, step.act) && s'.resolves[r] == ActLocal(s, r, step.act) && s'.events == s.events
            else s'.resolves[r] == s.resolves[r]
  {
    if step.Resolving? {
      assert s'.resolves == s.resolves[step.r := ActLocal(s, step.r, step.act)];
    } else {
      assert s'.resolves == s.resolves;
    }
  }

  lemma ResolveStarts(s: State, step: Step, s': State, r: RId)
    requires Moves(s, step, s') && r in s'.resolves && r !in s.resolves
    ensures s'.resolves[r].phase == Running && s'.resolves[r].readAt == map[] && ResolveOk(s', s'.resolves[r])
  {
  }

  lemma EventAfter(s: State, step: Step, s': State, e: EId)
    requires Moves(s, step, s') && e in s.events
    ensures e in s'.events
    ensures if step.Announcing? && step.e == e then
              Announced(s, s', e, step.move) && s'.events[e] == MoveLocal(s, e, step.move)
            else s'.events[e] == s.events[e]
  {
    if step.Announcing? {
      assert s'.events == s.events[step.e := MoveLocal(s, step.e, step.move)];
    } else {
      assert s'.events == s.events;
    }
  }

  lemma EventStarts(s: State, step: Step, s': State, e: EId)
    requires Moves(s, step, s') && e in s'.events && e !in s.events
    ensures s'.events[e].phase == Visible && s'.events[e].visibleAt == s.now && EventOk(s', s'.events[e])
  {
  }

  lemma EventStep(s: State, step: Step, s': State, e: EId, dk: DepKey)
    requires Inv(s) && Moves(s, step, s') && e in s'.events
    ensures EventInv(s', s'.events[e], dk)
  {
    if e !in s.events {
      EventStarts(s, step, s', e);
    } else {
      EventAfter(s, step, s', e);
      var g := s.events[e].change.gvr;
      var d := if dk.gvr == g then dk else DepKey(g, "", "");
      StepEvolves(s, step, s', d, "");
      assert EventInv(s, s.events[e], d);
      if step.Announcing? && step.e == e {
        EventMoves(s, s', e, step.move, d, "");
      } else {
        EventIdles(s, s', s.events[e], d, "");
      }
    }
  }

  lemma ResolveStep(s: State, step: Step, s': State, r: RId, dk: DepKey)
    requires Inv(s) && Moves(s, step, s') && r in s'.resolves
    ensures ResolveInv(s', s'.resolves[r], dk)
  {
    if r !in s.resolves {
      ResolveStarts(s, step, s', r);
    } else {
      ResolveAfter(s, step, s', r);
      assert ResolveInv(s, s.resolves[r], dk);
      StepEvolves(s, step, s', dk, s.resolves[r].key);
      if step.Resolving? && step.r == r {
        if step.act.Reuse? { assert ResolveInv(s, s.resolves[step.act.producer], dk); }
        ResolveActs(s, s', r, step.act);
        EdgeActs(s, s', r, step.act, dk);
      } else {
        ResolveIdles(s, s', s.resolves[r], dk);
      }
    }
  }

  lemma PairActs(s: State, t: State, r: RId, act: Act, e: EId, dk: DepKey)
    requires Inv(s) && Acted(s, t, r, act) && e in s.events && Ticks(s, t, dk, s.resolves[r].key)
    ensures PairInv(t, ActLocal(s, r, act), e, dk, s.events[e])
  {
    assert ResolveInv(s, s.resolves[r], dk) && EventInv(s, s.events[e], dk);
    assert PairInv(s, s.resolves[r], e, dk, s.events[e]);
    if act.Reuse? { assert PairInv(s, s.resolves[act.producer], e, dk, s.events[e]); }
    OrderActs(s, t, r, act, e, dk);
    OwnActs(s, t, r, act, e, dk);
    ScanActs(s, t, r, act, e, dk);
    LateActs(s, t, r, act, e, dk);
  }

  lemma PairStep(s: State, step: Step, s': State, r: RId, e: EId, dk: DepKey)
    requires Inv(s) && Moves(s, step, s') && r in s.resolves && e in s.events
    requires r in s'.resolves && e in s'.events
    ensures PairInv(s', s'.resolves[r], e, dk, s'.events[e])
  {
    ResolveAfter(s, step, s', r);
    EventAfter(s, step, s', e);
    StepEvolves(s, step, s', dk, s.resolves[r].key);
    if step.Resolving? && step.r == r {
      PairActs(s, s', r, step.act, e, dk);
    } else {
      assert ResolveInv(s, s.resolves[r], dk) && EventInv(s, s.events[e], dk);
      assert PairInv(s, s.resolves[r], e, dk, s.events[e]);
      if step.Announcing? && step.e == e {
        PairMoves(s, s', s.resolves[r], e, step.move, dk);
      } else {
        PairIdles(s, s', s.resolves[r], e, dk, s.events[e]);
      }
    }
  }

  lemma PairStarts(s: State, step: Step, s': State, r: RId, e: EId, dk: DepKey)
    requires Inv(s) && Moves(s, step, s') && r in s'.resolves && e in s'.events
    requires r !in s.resolves || e !in s.events
    ensures PairInv(s', s'.resolves[r], e, dk, s'.events[e])
  {
    if r !in s.resolves {
      ResolveStarts(s, step, s', r);
    } else {
      ResolveAfter(s, step, s', r);
      EventStarts(s, step, s', e);
      assert ResolveInv(s, s.resolves[r], dk);
    }
  }

  lemma InvStep(s: State, step: Step, s': State)
    requires Inv(s) && Moves(s, step, s')
    ensures Inv(s')
  {
    forall e, dk | e in s'.events ensures EventInv(s', s'.events[e], dk) { EventStep(s, step, s', e, dk); }
    forall r, dk | r in s'.resolves ensures ResolveInv(s', s'.resolves[r], dk) { ResolveStep(s, step, s', r, dk); }
    forall r, e, dk | r in s'.resolves && e in s'.events
      ensures PairInv(s', s'.resolves[r], e, dk, s'.events[e])
    {
      if r in s.resolves && e in s.events {
        PairStep(s, step, s', r, e, dk);
      } else {
        PairStarts(s, step, s', r, e, dk);
      }
    }
  }

  /** Every schedule keeps the invariant. */
  lemma {:induction false} InvRun(s: State, steps: seq<Step>)
    requires Inv(s) && Exec(s, steps).Reached?
    ensures Inv(Exec(s, steps).state)
    decreases |steps|
  {
    if steps != [] {
      InvStep(s, steps[0], Next(s, steps[0]));
      InvRun(Next(s, steps[0]), steps[1..]);
    }
  }

  ghost predicate Reachable(s: State) {
    exists steps :: Exec(INIT, steps) == Reached(s)
  }

  lemma ReachableInv(s: State)
    requires Reachable(s)
    ensures Inv(s)
  {
    var steps :| Exec(INIT, steps) == Reached(s);
    InvRun(INIT, steps);
  }

  // ---- the theorems -------------------------------------------------------------------

  /** No lost invalidation. Take any schedule, any resolve whose check has ended, any
      dependency it recorded under its key before the check, and any event on that
      dependency whose data became visible after the resolve read it. Once the event has
      fanned out, the key was scheduled after both the resolve's write and the event,
      unless it left the store since the write. */
  lemma NoLostInvalidation(s: State, r: RId, e: EId, dk: DepKey)
    requires Reachable(s) && r in s.resolves && e in s.events
    requires s.resolves[r].phase == Checked && dk in s.resolves[r].own
    requires Unseen(s.resolves[r], dk, s.events[e]) && FannedOut(s.events[e])
    ensures Stays(s, s.resolves[r]) ==>
              && s.resolves[r].key in s.resident
              && At(s.enqueuedAt, s.resolves[r].key) > Max(s.resolves[r].putAt, s.events[e].visibleAt)
  {
    ReachableInv(s);
    assert ResolveInv(s, s.resolves[r], dk) && PairInv(s, s.resolves[r], e, dk, s.events[e]);
  }

  /** The window after the write. A dependency the sink declared before the check, whose
      edge was recorded only after the check began and whose re-check has run: every event
      on it that the resolve did not read leads to the key being scheduled after the write,
      unless the key left the store, or the event's bump was torn by the check and its
      fan-out passed the bucket before the edge was placed. */
  lemma PostPutWindowClosed(s: State, r: RId, e: EId, dk: DepKey)
    requires Reachable(s) && r in s.resolves && e in s.events
    requires s.resolves[r].phase == Checked && dk in s.resolves[r].scanned
    requires dk in s.resolves[r].late && dk !in s.resolves[r].recheck
    requires Unseen(s.resolves[r], dk, s.events[e]) && FannedOut(s.events[e])
    requires (e, dk) !in s.resolves[r].missed
    ensures Stays(s, s.resolves[r]) ==> At(s.enqueuedAt, s.resolves[r].key) > s.resolves[r].putAt
  {
    ReachableInv(s);
    assert ResolveInv(s, s.resolves[r], dk) && PairInv(s, s.resolves[r], e, dk, s.events[e]);
  }

  /** No event is between taking its sequence number and its last stamp. */
  ghost predicate NoBumpOpen(s: State) {
    forall e, dk | e in s.events :: !MidBump(s.events[e], dk)
  }

  /** The schedule scans only between bumps, as it does when a bump is one step. */
  ghost predicate BumpsAtomic(s: State, steps: seq<Step>)
    decreases |steps|
  {
    steps == [] ||
    (&& (steps[0].Resolving? && steps[0].act.Scan? ==> NoBumpOpen(s))
     && (Enabled(s, steps[0]) ==> BumpsAtomic(Next(s, steps[0]), steps[1..])))
  }

  ghost predicate NothingTorn(s: State) {
    forall r | r in s.resolves :: s.resolves[r].torn == {} && s.resolves[r].missed == {}
  }

  lemma QuietScan(s: State, r: Resolve, dk: DepKey)
    requires Inv(s) && NoBumpOpen(s)
    ensures Torn(s, r, dk) == {}
  {
    forall e | e in s.events && Hits(s.events[e].change, dk) && s.events[e].phase != Visible
      ensures MovedAt(s.forward, s.floors, dk) >= s.events[e].seqNo
    {
      assert EventInv(s, s.events[e], dk) && !MidBump(s.events[e], dk);
    }
  }

  lemma {:induction false} AtomicBumpsNeverTorn(s: State, steps: seq<Step>)
    requires Inv(s) && NothingTorn(s) && BumpsAtomic(s, steps) && Exec(s, steps).Reached?
    ensures NothingTorn(Exec(s, steps).state)
    decreases |steps|
  {
    if steps != [] {
      var s' := Next(s, steps[0]);
      InvStep(s, steps[0], s');
      forall r | r in s'.resolves ensures s'.resolves[r].torn == {} && s'.resolves[r].missed == {} {
        if r in s.resolves {
          ResolveAfter(s, steps[0], s', r);
          if steps[0].Resolving? && steps[0].act.Scan? { QuietScan(s, s.resolves[r], steps[0].act.dk); }
        } else {
          ResolveStarts(s, steps[0], s', r);
        }
      }
      AtomicBumpsNeverTorn(s', steps[1..]);
    }
  }

  /** With the bump taken as one step the window after the write is closed outright. */
  lemma PostPutWindowClosedAtomic(steps: seq<Step>, s: State, r: RId, e: EId, dk: DepKey)
    requires Exec(INIT, steps) == Reached(s) && BumpsAtomic(INIT, steps)
    requires r in s.resolves && e in s.events
    requires s.resolves[r].phase == Checked && dk in s.resolves[r].scanned
    requires dk in s.resolves[r].late && dk !in s.resolves[r].recheck
    requires Unseen(s.resolves[r], dk, s.events[e]) && FannedOut(s.events[e])
    ensures Stays(s, s.resolves[r]) ==> At(s.enqueuedAt, s.resolves[r].key) > s.resolves[r].putAt
  {
    AtomicBumpsNeverTorn(INIT, steps);
    PostPutWindowClosed(s, r, e, dk);
  }
}
