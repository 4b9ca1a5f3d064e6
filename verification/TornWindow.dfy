/** The window after the write, exactly: what happens when an event has taken its sequence
    number but left no trace yet while the check runs. */
module TornWindow {
  import opened DepKeys
  import opened DepIndex
  import opened ResolveProtocol
  import opened ResolveSafety

  predicate SoloAct(act: Act, dk: DepKey) {
    match act
    case Declare(d) => d == dk
    case LateRecord(d, _) => d == dk
    case Record(_, _) => false
    case _ => true
  }

  /** A step of one resolve that declares and late-records dk only, of one event, or of the
      store. */
  predicate SoloStep(step: Step, r: RId, e: EId, dk: DepKey) {
    match step
    case Resolving(r', act) => r' == r && SoloAct(act, dk)
    case Announcing(e', _) => e' == e
    case _ => true
  }

  predicate Solo(steps: seq<Step>, r: RId, e: EId, dk: DepKey) {
    forall i | 0 <= i < |steps| :: SoloStep(steps[i], r, e, dk)
  }

  /** The sequence number the only event has left on the index so far. */
  function Trace(s: State, e: EId): nat {
    if e in s.events && s.events[e].phase in {Stamping, Collecting} then s.events[e].seqNo else 0
  }

  predicate LoneResolve(s: State, r: RId, e: EId, dk: DepKey) {
    && s.resolves.Keys <= {r}
    && s.events.Keys <= {e}
    && (r in s.resolves ==> s.resolves[r].own == {} && s.resolves[r].sink <= {dk} && s.resolves[r].late <= {dk}
                            && s.resolves[r].recheck <= {dk} && s.resolves[r].toScan <= {dk}
                            && s.resolves[r].missed <= s.resolves[r].torn)
  }

  predicate LoneEdge(s: State, r: RId, dk: DepKey, d: DepKey, k: L1Key) {
    HasEdge(s.forward, d, k) ==> d == dk && r in s.resolves && k == s.resolves[r].key && dk in s.resolves[r].late
  }

  predicate LoneTrace(s: State, e: EId, d: DepKey) {
    && FloorOf(s.floors, d.gvr) in {0, Trace(s, e)}
    && (d in s.forward ==> s.forward[d].stamp in {0, Trace(s, e)})
  }

  /** Before its late edge exists the key is only ever scheduled by its own remark. */
  predicate LoneQuiet(s: State, r: RId, e: EId, dk: DepKey) {
    r !in s.resolves || dk !in s.resolves[r].late ==>
      && (e in s.events ==> s.events[e].marks == {})
      && (s.enqueuedAt == map[] || (r in s.resolves && s.resolves[r].remarked))
  }

  /** A remark that the check did not ask for was asked for by an event above it. */
  predicate LoneRemark(s: State, r: RId, e: EId) {
    r in s.resolves ==>
      && (s.resolves[r].moved ==> s.resolves[r].toScan == {})
      && (s.resolves[r].remarked && !s.resolves[r].moved ==>
            e in s.events && HasSeq(s.events[e]) && s.events[e].seqNo > s.resolves[r].checkedSeq)
  }

  /** Once the pair is torn neither test can see the event; once it is missed the fan-out
      cannot either. */
  predicate Blind(s: State, r: RId, e: EId, dk: DepKey) {
    r in s.resolves && (e, dk) in s.resolves[r].torn ==>
      && InCheck(s.resolves[r]) && e in s.events && HasSeq(s.events[e])
      && s.events[e].seqNo <= s.resolves[r].checkedSeq
      && !s.resolves[r].moved && !s.resolves[r].remarked && s.resolves[r].toScan == {}
      && ((e, dk) in s.resolves[r].missed ==>
            !WillVisit(s.events[e], dk) && s.events[e].marks == {} && s.enqueuedAt == map[])
  }

  predicate LoneLocal(s: State, r: RId, e: EId, dk: DepKey) {
    && LoneResolve(s, r, e, dk) && LoneQuiet(s, r, e, dk) && LoneRemark(s, r, e) && Blind(s, r, e, dk)
    && (r in s.resolves ==> ResolveOk(s, s.resolves[r]))
    && (e in s.events ==> EventOk(s, s.events[e]))
  }

  ghost predicate LoneInv(s: State, r: RId, e: EId, dk: DepKey) {
    && LoneLocal(s, r, e, dk)
    && (forall d, k :: LoneEdge(s, r, dk, d, k))
    && (forall d :: LoneTrace(s, e, d))
  }

  lemma IndexActs(s: State, t: State, r: RId, act: Act, dk: DepKey, d: DepKey, k: L1Key)
    requires Acted(s, t, r, act) && SoloAct(act, dk) && t.resolves == s.resolves[r := ActLocal(s, r, act)]
    requires s.resolves[r].own == {}
    requires LoneEdge(s, r, dk, d, k)
    ensures LoneEdge(t, r, dk, d, k)
  {
  }

  lemma TraceActs(s: State, t: State, r: RId, act: Act, e: EId, dk: DepKey, d: DepKey)
    requires Acted(s, t, r, act) && SoloAct(act, dk) && t.resolves == s.resolves[r := ActLocal(s, r, act)]
    requires s.resolves[r].own == {} && LoneTrace(s, e, d)
    ensures LoneTrace(t, e, d)
  {
  }

  lemma IndexMoves(s: State, t: State, r: RId, e: EId, move: Move, dk: DepKey, d: DepKey, k: L1Key)
    requires Announced(s, t, e, move) && t.events == s.events[e := MoveLocal(s, e, move)]
    requires EventOk(s, s.events[e])
    requires LoneEdge(s, r, dk, d, k) && LoneTrace(s, e, d)
    ensures LoneEdge(t, r, dk, d, k) && LoneTrace(t, e, d)
  {
  }

  lemma BlindActs(s: State, t: State, r: RId, act: Act, e: EId, dk: DepKey)
    requires Acted(s, t, r, act) && SoloAct(act, dk) && t.resolves == s.resolves[r := ActLocal(s, r, act)]
    requires LoneLocal(s, r, e, dk) && LoneTrace(s, e, dk)
    ensures Blind(t, r, e, dk)
  {
  }

  lemma LocalActs(s: State, t: State, r: RId, act: Act, e: EId, dk: DepKey)
    requires Acted(s, t, r, act) && SoloAct(act, dk) && t.resolves == s.resolves[r := ActLocal(s, r, act)]
    requires LoneLocal(s, r, e, dk) && LoneTrace(s, e, dk) && ResolveOk(t, t.resolves[r])
    requires LoneEdge(s, r, dk, dk, s.resolves[r].key)
    ensures LoneResolve(t, r, e, dk) && LoneQuiet(t, r, e, dk) && LoneRemark(t, r, e)
  {
  }

  lemma LocalMoves(s: State, t: State, r: RId, e: EId, move: Move, dk: DepKey)
    requires Announced(s, t, e, move) && t.events == s.events[e := MoveLocal(s, e, move)]
    requires LoneLocal(s, r, e, dk) && LoneTrace(s, e, dk) && EventOk(t, t.events[e])
    requires forall d, k :: LoneEdge(s, r, dk, d, k)
    requires r in s.resolves ==> ResolveOk(t, s.resolves[r])
    ensures LoneLocal(t, r, e, dk)
  {
    if move.Visit? && move.dk in s.forward {
      forall k | k in s.forward[move.dk].keys ensures move.dk == dk && r in s.resolves && dk in s.resolves[r].late {
        assert LoneEdge(s, r, dk, move.dk, k);
      }
    }
  }

  lemma LoneStart(s: State, step: Step, s': State, r: RId, e: EId, dk: DepKey)
    requires LoneInv(s, r, e, dk) && SoloStep(step, r, e, dk) && Moves(s, step, s')
    requires (step.Resolving? && step.act.Begin?) || (step.Announcing? && step.move.Appear?)
    ensures LoneInv(s', r, e, dk)
  {
    if step.Resolving? {
      ResolveStarts(s, step, s', r);
    } else {
      EventStarts(s, step, s', e);
    }
    forall d, k ensures LoneEdge(s', r, dk, d, k) { assert LoneEdge(s, r, dk, d, k); }
    forall d ensures LoneTrace(s', e, d) { assert LoneTrace(s, e, d); }
  }

  lemma LoneStore(s: State, step: Step, s': State, r: RId, e: EId, dk: DepKey)
    requires LoneInv(s, r, e, dk) && Moves(s, step, s') && (step.Leave? || step.Strip?)
    requires r in s.resolves ==> ResolveOk(s', s.resolves[r])
    ensures LoneInv(s', r, e, dk)
  {
    forall d, k ensures LoneEdge(s', r, dk, d, k) { assert LoneEdge(s, r, dk, d, k); }
    forall d ensures LoneTrace(s', e, d) { assert LoneTrace(s, e, d); }
  }

  lemma LoneStep(s: State, step: Step, s': State, r: RId, e: EId, dk: DepKey)
    requires LoneInv(s, r, e, dk) && Inv(s) && SoloStep(step, r, e, dk) && Moves(s, step, s')
    ensures LoneInv(s', r, e, dk)
  {
    assert forall d, k :: LoneEdge(s, r, dk, d, k);
    if r in s.resolves { ResolveStep(s, step, s', r, dk); ResolveAfter(s, step, s', r); }
    if e in s.events { EventStep(s, step, s', e, dk); EventAfter(s, step, s', e); }
    if step.Leave? || step.Strip? {
      LoneStore(s, step, s', r, e, dk);
    } else if (step.Resolving? && step.act.Begin?) || (step.Announcing? && step.move.Appear?) {
      LoneStart(s, step, s', r, e, dk);
    } else if step.Resolving? {
      assert s'.resolves == s.resolves[r := ActLocal(s, r, step.act)];
      BlindActs(s, s', r, step.act, e, dk);
      LocalActs(s, s', r, step.act, e, dk);
      forall d, k ensures LoneEdge(s', r, dk, d, k) { IndexActs(s, s', r, step.act, dk, d, k); }
      forall d ensures LoneTrace(s', e, d) { TraceActs(s, s', r, step.act, e, dk, d); }
    } else {
      assert s'.events == s.events[e := MoveLocal(s, e, step.move)];
      LocalMoves(s, s', r, e, step.move, dk);
      forall d, k ensures LoneEdge(s', r, dk, d, k) { IndexMoves(s, s', r, e, step.move, dk, d, k); }
      forall d ensures LoneTrace(s', e, d) { IndexMoves(s, s', r, e, step.move, dk, d, ""); }
    }
  }

  lemma {:induction false} LoneRun(s: State, steps: seq<Step>, r: RId, e: EId, dk: DepKey)
    requires LoneInv(s, r, e, dk) && Inv(s) && Solo(steps, r, e, dk) && Exec(s, steps).Reached?
    ensures LoneInv(Exec(s, steps).state, r, e, dk)
    decreases |steps|
  {
    if steps != [] {
      assert SoloStep(steps[0], r, e, dk);
      LoneStep(s, steps[0], Next(s, steps[0]), r, e, dk);
      InvStep(s, steps[0], Next(s, steps[0]));
      LoneRun(Next(s, steps[0]), steps[1..], r, e, dk);
    }
  }

  /** Exactly when the window closes. For a resolve that only late-records its one declared
      dependency, alone with one event on it that it did not read: the key is scheduled after
      the write if and only if the event's bump was not torn by the check, or its fan-out
      still had the bucket ahead of it when the edge was placed. */
  lemma PostPutExactlyWhen(steps: seq<Step>, s: State, r: RId, e: EId, dk: DepKey)
    requires Exec(INIT, steps) == Reached(s) && Solo(steps, r, e, dk)
    requires r in s.resolves && e in s.events
    requires s.resolves[r].phase == Checked && dk in s.resolves[r].scanned
    requires dk in s.resolves[r].late && dk !in s.resolves[r].recheck
    requires Unseen(s.resolves[r], dk, s.events[e]) && FannedOut(s.events[e]) && Stays(s, s.resolves[r])
    ensures At(s.enqueuedAt, s.resolves[r].key) > s.resolves[r].putAt <==> (e, dk) !in s.resolves[r].missed
  {
    LoneRun(INIT, steps, r, e, dk);
    if (e, dk) !in s.resolves[r].missed { PostPutWindowClosed(s, r, e, dk); }
  }
}
