/** No scheduling without a cause: what made a key be scheduled, what an edge and an entry are
    there for, all read off the schedule of steps. The counterpart of ResolveSafety: there nothing
    is lost, here nothing is invented. */
module ResolvePrecision {
  import opened DepKeys
  import opened DepIndex
  import opened ResolveProtocol
  import opened ResolveSafety

  // ---- the schedule --------------------------------------------------------------------

  /** The position from which a resolve answers for a dependency: where it began, or where the
      earliest producer began whose read of the dependency it reused. */
  function ReadFrom(steps: seq<Step>, r: RId, dk: DepKey): (from: nat)
    ensures from <= |steps|
  {
    if steps == [] then 0
    else
      var init, step := steps[..|steps| - 1], steps[|steps| - 1];
      if !step.Resolving? || step.r != r then ReadFrom(init, r, dk)
      else if step.act.Begin? then |init|
      else if step.act.Reuse? && step.act.dk == dk then Min(ReadFrom(init, r, dk), ReadFrom(init, step.act.producer, dk))
      else ReadFrom(init, r, dk)
  }

  predicate TakesNumber(step: Step) { step.Announcing? && step.move.Advance? }

  /** The sequence numbers handed out by a schedule. */
  function Numbers(steps: seq<Step>): nat {
    if steps == [] then 0
    else Numbers(steps[..|steps| - 1]) + if TakesNumber(steps[|steps| - 1]) then 1 else 0
  }

  /** At position j an event on the GVR took its sequence number. */
  predicate Numbered(steps: seq<Step>, s: State, j: nat, g: GVR) {
    && j < |steps| && steps[j].Announcing? && steps[j].move.Advance?
    && steps[j].e in s.events && s.events[steps[j].e].change.gvr == g
  }

  /** An event on the dependency's GVR took its number after the resolve, or the producer it
      reused the dependency from, began. */
  ghost predicate Disturbed(steps: seq<Step>, s: State, r: RId, dk: DepKey) {
    exists j: nat | j >= ReadFrom(steps, r, dk) :: Numbered(steps, s, j, dk.gvr)
  }

  /** At position p the event walked a bucket it hits and found the key there. */
  ghost predicate Found(steps: seq<Step>, s: State, p: nat, e: EId, dk: DepKey, k: L1Key) {
    && p < |steps| && steps[p] == Announcing(e, Visit(dk))
    && e in s.events && Hits(s.events[e].change, dk)
    && Exec(INIT, steps[..p]).Reached? && HasEdge(Exec(INIT, steps[..p]).state.forward, dk, k)
  }

  lemma {:induction false} NumbersMonotone(steps: seq<Step>, i: nat, j: nat)
    requires i <= j <= |steps|
    ensures Numbers(steps[..i]) <= Numbers(steps[..j])
    decreases j
  {
    if i < j {
      assert steps[..j][..j - 1] == steps[..j - 1];
      NumbersMonotone(steps, i, j - 1);
    }
  }

  lemma {:induction false} ExecLast(s: State, steps: seq<Step>)
    requires steps != [] && Exec(s, steps).Reached?
    ensures Exec(s, steps[..|steps| - 1]).Reached?
    ensures Moves(Exec(s, steps[..|steps| - 1]).state, steps[|steps| - 1], Exec(s, steps).state)
    decreases |steps|
  {
    var n := |steps| - 1;
    if n > 0 {
      assert steps[1..][..n - 1] == steps[..n][1..];
      ExecLast(Next(s, steps[0]), steps[1..]);
    }
  }

  // ---- what the numbers say ------------------------------------------------------------

  /** The event's number is the one its advance handed out. */
  predicate NumberOk(steps: seq<Step>, e: EId, ev: Event) {
    HasSeq(ev) ==> exists j: nat | j < |steps| ::
      steps[j] == Announcing(e, Advance) && ev.seqNo == Numbers(steps[..j + 1])
  }

  /** An event visits, or stamps, only what it hits. */
  predicate PendingOk(ev: Event, dk: DepKey) {
    dk in ev.pending ==> Hits(ev.change, dk)
  }

  /** The floor of a GVR is the number of an event on it. */
  ghost predicate FloorFrom(s: State, g: GVR) {
    FloorOf(s.floors, g) > 0 ==>
      exists e | e in s.events :: s.events[e].change.gvr == g && HasSeq(s.events[e]) && s.events[e].seqNo == FloorOf(s.floors, g)
  }

  predicate StampBelow(s: State, dk: DepKey) {
    dk in s.forward ==> s.forward[dk].stamp <= FloorOf(s.floors, dk.gvr)
  }

  /** What a dependency is checked from is the count of numbers where its read began. */
  predicate CheckOk(steps: seq<Step>, s: State, r: RId, dk: DepKey)
    requires r in s.resolves
  {
    CheckFrom(s.resolves[r], dk) == Numbers(steps[..ReadFrom(steps, r, dk)])
  }

  predicate CheckedOk(v: Resolve) {
    && v.recheck <= v.sink && v.toScan <= v.sink
    && (InCheck(v) ==> v.startSeq <= v.checkedSeq)
  }

  ghost predicate MovedOk(steps: seq<Step>, s: State, r: RId)
    requires r in s.resolves
  {
    s.resolves[r].moved ==> exists dk | dk in s.resolves[r].sink :: Disturbed(steps, s, r, dk)
  }

  ghost predicate MarkOk(steps: seq<Step>, s: State, e: EId, k: L1Key)
    requires e in s.events
  {
    k in s.events[e].marks ==> exists p: nat, dk :: Found(steps, s, p, e, dk, k)
  }

  ghost predicate Traced(steps: seq<Step>, s: State) {
    && s.seqNo == Numbers(steps)
    && (forall e | e in s.events :: NumberOk(steps, e, s.events[e]))
    && (forall e, dk | e in s.events :: PendingOk(s.events[e], dk))
    && (forall g :: FloorFrom(s, g))
    && (forall dk :: StampBelow(s, dk))
    && (forall r, dk | r in s.resolves :: CheckOk(steps, s, r, dk))
    && (forall r | r in s.resolves :: CheckedOk(s.resolves[r]))
    && (forall r | r in s.resolves :: MovedOk(steps, s, r))
    && (forall e, k | e in s.events :: MarkOk(steps, s, e, k))
  }

  // ---- one step ------------------------------------------------------------------------

  /** The schedule one step further. */
  predicate Extends(steps: seq<Step>, s: State, step: Step, more: seq<Step>, t: State) {
    Moves(s, step, t) && more == steps + [step]
  }

  lemma EventKept(s: State, step: Step, t: State, e: EId)
    requires Moves(s, step, t) && e in s.events
    ensures e in t.events && t.events[e].change == s.events[e].change
    ensures HasSeq(s.events[e]) ==> HasSeq(t.events[e]) && t.events[e].seqNo == s.events[e].seqNo
  {
    EventAfter(s, step, t, e);
  }

  lemma NumberedMore(steps: seq<Step>, s: State, step: Step, more: seq<Step>, t: State, j: nat, g: GVR)
    requires Extends(steps, s, step, more, t) && Numbered(steps, s, j, g)
    ensures Numbered(more, t, j, g)
  {
    EventKept(s, step, t, steps[j].e);
  }

  lemma ReadFromMore(steps: seq<Step>, step: Step, more: seq<Step>, r: RId, dk: DepKey)
    requires more == steps + [step]
    ensures ReadFrom(more, r, dk) ==
              if !step.Resolving? || step.r != r then ReadFrom(steps, r, dk)
              else if step.act.Begin? then |steps|
              else if step.act.Reuse? && step.act.dk == dk then Min(ReadFrom(steps, r, dk), ReadFrom(steps, step.act.producer, dk))
              else ReadFrom(steps, r, dk)
  {
    assert more[..|more| - 1] == steps;
  }

  lemma DisturbedMore(steps: seq<Step>, s: State, step: Step, more: seq<Step>, t: State, r: RId, dk: DepKey)
    requires Extends(steps, s, step, more, t) && r in s.resolves && Disturbed(steps, s, r, dk)
    ensures Disturbed(more, t, r, dk)
  {
    var j: nat :| j >= ReadFrom(steps, r, dk) && Numbered(steps, s, j, dk.gvr);
    ReadFromMore(steps, step, more, r, dk);
    NumberedMore(steps, s, step, more, t, j, dk.gvr);
  }

  /** What a resolve's act leaves alone: it hands out no number and moves no floor. */
  lemma ActFrame(s: State, r: RId, act: Act, t: State)
    requires ActEnabled(s, r, act) && t == ActShared(s, r, act)
    ensures t.seqNo == s.seqNo && t.floors == s.floors
    ensures t.enqueuedAt == s.enqueuedAt || t.enqueuedAt == s.enqueuedAt[s.resolves[r].key := s.now]
    ensures t.enqueuedAt != s.enqueuedAt ==> !act.Begin?
  {
  }

  lemma MoveFrame(s: State, e: EId, move: Move, t: State)
    requires MoveEnabled(s, e, move) && t == MoveShared(s, e, move)
    ensures t.seqNo == s.seqNo + if move.Advance? then 1 else 0
    ensures t.floors == if move.Floor? then RaiseFloor(s.floors, s.events[e].change.gvr, s.events[e].seqNo) else s.floors
    ensures move.Mark? || t.enqueuedAt == s.enqueuedAt
  {
  }

  lemma StepFrame(s: State, step: Step, t: State)
    requires Moves(s, step, t)
    ensures t.seqNo == s.seqNo + if TakesNumber(step) then 1 else 0
    ensures t.floors == if step.Announcing? && step.move.Floor?
                        then RaiseFloor(s.floors, s.events[step.e].change.gvr, s.events[step.e].seqNo) else s.floors
  {
    match step
    case Resolving(r, act) => ActFrame(s, r, act, ActShared(s, r, act));
    case Announcing(e, move) => MoveFrame(s, e, move, MoveShared(s, e, move));
    case Leave(_) =>
    case Strip(_) =>
  }

  lemma NumbersMore(steps: seq<Step>, s: State, step: Step, more: seq<Step>, t: State)
    requires Extends(steps, s, step, more, t) && s.seqNo == Numbers(steps)
    ensures t.seqNo == Numbers(more)
  {
    assert more[..|more| - 1] == steps;
    StepFrame(s, step, t);
  }

  lemma NumberStep(steps: seq<Step>, s: State, step: Step, more: seq<Step>, t: State, e: EId)
    requires Extends(steps, s, step, more, t) && s.seqNo == Numbers(steps) && e in t.events
    requires e in s.events ==> NumberOk(steps, e, s.events[e])
    ensures NumberOk(more, e, t.events[e])
  {
    NumbersMore(steps, s, step, more, t);
    if e !in s.events {
      EventStarts(s, step, t, e);
    } else if HasSeq(s.events[e]) {
      var j: nat :| j < |steps| && steps[j] == Announcing(e, Advance) && s.events[e].seqNo == Numbers(steps[..j + 1]);
      EventKept(s, step, t, e);
      assert more[j] == Announcing(e, Advance) && more[..j + 1] == steps[..j + 1];
    } else {
      EventAfter(s, step, t, e);
      if HasSeq(t.events[e]) { assert more[|steps|] == Announcing(e, Advance) && more[..|steps| + 1] == more; }
    }
  }

  lemma PendingStep(s: State, step: Step, t: State, e: EId, dk: DepKey)
    requires Moves(s, step, t) && e in t.events
    requires e in s.events ==> PendingOk(s.events[e], dk)
    ensures PendingOk(t.events[e], dk)
  {
    if e !in s.events { EventStarts(s, step, t, e); } else { EventAfter(s, step, t, e); }
  }

  /** Only an event's own floor step moves a floor, to its number. */
  lemma FloorMoves(s: State, step: Step, t: State, g: GVR)
    requires Moves(s, step, t)
    ensures FloorOf(t.floors, g) == FloorOf(s.floors, g)
            || (step.Announcing? && step.move.Floor? && s.events[step.e].change.gvr == g
                && FloorOf(t.floors, g) == s.events[step.e].seqNo && HasSeq(s.events[step.e]))
    ensures FloorOf(t.floors, g) >= FloorOf(s.floors, g)
  {
    StepFrame(s, step, t);
  }

  lemma FloorStep(s: State, step: Step, t: State, g: GVR)
    requires Moves(s, step, t) && FloorFrom(s, g)
    ensures FloorFrom(t, g)
  {
    FloorMoves(s, step, t, g);
    if FloorOf(t.floors, g) != FloorOf(s.floors, g) {
      EventKept(s, step, t, step.e);
    } else if FloorOf(s.floors, g) > 0 {
      var e :| e in s.events && s.events[e].change.gvr == g && HasSeq(s.events[e]) && s.events[e].seqNo == FloorOf(s.floors, g);
      EventKept(s, step, t, e);
    }
  }

  lemma ActStamp(s: State, r: RId, act: Act, t: State, dk: DepKey)
    requires ActEnabled(s, r, act) && t == ActShared(s, r, act) && StampBelow(s, dk)
    ensures StampBelow(t, dk)
  {
    ActFrame(s, r, act, t);
  }

  lemma MoveStamp(s: State, e: EId, move: Move, t: State, dk: DepKey)
    requires MoveEnabled(s, e, move) && t == MoveShared(s, e, move) && StampBelow(s, dk)
    requires !move.Appear? ==> EventOk(s, s.events[e]) && PendingOk(s.events[e], dk)
    ensures StampBelow(t, dk)
  {
    MoveFrame(s, e, move, t);
  }

  lemma StampStep(s: State, step: Step, t: State, dk: DepKey)
    requires Moves(s, step, t) && StampBelow(s, dk)
    requires step.Announcing? && !step.move.Appear? ==> EventOk(s, s.events[step.e]) && PendingOk(s.events[step.e], dk)
    ensures StampBelow(t, dk)
  {
    match step
    case Resolving(r, act) => ActStamp(s, r, act, ActShared(s, r, act), dk);
    case Announcing(e, move) => MoveStamp(s, e, move, MoveShared(s, e, move), dk);
    case Leave(_) =>
    case Strip(_) =>
  }

  lemma CheckStep(steps: seq<Step>, s: State, step: Step, more: seq<Step>, t: State, r: RId, dk: DepKey)
    requires Extends(steps, s, step, more, t) && s.seqNo == Numbers(steps) && r in t.resolves
    requires r in s.resolves ==> CheckOk(steps, s, r, dk)
    requires step.Resolving? && step.act.Reuse? && step.act.producer in s.resolves ==> CheckOk(steps, s, step.act.producer, dk)
    ensures CheckOk(more, t, r, dk)
  {
    ReadFromMore(steps, step, more, r, dk);
    var from := ReadFrom(more, r, dk);
    assert from <= |steps| ==> more[..from] == steps[..from];
    if r !in s.resolves {
      ResolveStarts(s, step, t, r);
      assert steps[..|steps|] == steps;
    } else {
      ResolveAfter(s, step, t, r);
      if step.Resolving? && step.r == r && step.act.Reuse? && step.act.dk == dk {
        EarlierRead(steps, ReadFrom(steps, r, dk), ReadFrom(steps, step.act.producer, dk));
      }
    }
  }

  lemma EarlierRead(steps: seq<Step>, a: nat, b: nat)
    requires a <= |steps| && b <= |steps|
    ensures Numbers(steps[..Min(a, b)]) == Min(Numbers(steps[..a]), Numbers(steps[..b]))
  {
    if a <= b { NumbersMonotone(steps, a, b); } else { NumbersMonotone(steps, b, a); }
  }

  lemma CheckedStep(s: State, step: Step, t: State, r: RId)
    requires Moves(s, step, t) && r in t.resolves
    requires r in s.resolves ==> CheckedOk(s.resolves[r]) && ResolveOk(s, s.resolves[r])
    ensures CheckedOk(t.resolves[r])
  {
    if r !in s.resolves { ResolveStarts(s, step, t, r); } else { ResolveAfter(s, step, t, r); }
  }

  /** A dependency that reads as moved since a resolve's read was disturbed. */
  lemma MoveHasCause(steps: seq<Step>, s: State, r: RId, dk: DepKey, q: nat)
    requires r in s.resolves && CheckOk(steps, s, r, dk) && FloorFrom(s, dk.gvr) && StampBelow(s, dk)
    requires forall e | e in s.events :: NumberOk(steps, e, s.events[e])
    requires MovedSince(s.forward, s.floors, dk, q) && q >= CheckFrom(s.resolves[r], dk)
    ensures Disturbed(steps, s, r, dk)
  {
    var e :| e in s.events && s.events[e].change.gvr == dk.gvr && HasSeq(s.events[e]) && s.events[e].seqNo == FloorOf(s.floors, dk.gvr);
    assert NumberOk(steps, e, s.events[e]);
    var j: nat :| j < |steps| && steps[j] == Announcing(e, Advance) && s.events[e].seqNo == Numbers(steps[..j + 1]);
    if j < ReadFrom(steps, r, dk) { NumbersMonotone(steps, j + 1, ReadFrom(steps, r, dk)); }
    assert Numbered(steps, s, j, dk.gvr);
  }

  lemma MovedStep(steps: seq<Step>, s: State, step: Step, more: seq<Step>, t: State, r: RId)
    requires Traced(steps, s) && Extends(steps, s, step, more, t) && r in t.resolves
    ensures MovedOk(more, t, r)
  {
    if r !in s.resolves {
      assert !t.resolves[r].moved;
    } else {
      ResolveAfter(s, step, t, r);
      if s.resolves[r].moved {
        assert MovedOk(steps, s, r);
        var dk :| dk in s.resolves[r].sink && Disturbed(steps, s, r, dk);
        DisturbedMore(steps, s, step, more, t, r, dk);
      } else if t.resolves[r].moved {
        var dk := step.act.dk;
        assert CheckedOk(s.resolves[r]);
        MoveHasCause(steps, s, r, dk, CheckFrom(s.resolves[r], dk));
        DisturbedMore(steps, s, step, more, t, r, dk);
      }
    }
  }

  lemma FoundMore(steps: seq<Step>, s: State, step: Step, more: seq<Step>, t: State, p: nat, e: EId, dk: DepKey, k: L1Key)
    requires Extends(steps, s, step, more, t) && Found(steps, s, p, e, dk, k)
    ensures Found(more, t, p, e, dk, k)
  {
    assert more[p] == steps[p] && more[..p] == steps[..p];
    EventKept(s, step, t, e);
  }

  lemma MarkStep(steps: seq<Step>, s: State, step: Step, more: seq<Step>, t: State, e: EId, k: L1Key)
    requires Extends(steps, s, step, more, t) && e in t.events && Exec(INIT, steps) == Reached(s)
    requires e in s.events ==> MarkOk(steps, s, e, k) && forall dk :: PendingOk(s.events[e], dk)
    ensures MarkOk(more, t, e, k)
  {
    if e !in s.events {
      EventStarts(s, step, t, e);
      assert t.events[e].marks == {};
    } else {
      EventAfter(s, step, t, e);
      if k in s.events[e].marks {
        var p: nat, dk :| Found(steps, s, p, e, dk, k);
        FoundMore(steps, s, step, more, t, p, e, dk, k);
      } else if k in t.events[e].marks {
        assert more[..|steps|] == steps && more[|steps|] == step;
        assert PendingOk(s.events[e], step.move.dk);
        assert Found(more, t, |steps|, e, step.move.dk, k);
      }
    }
  }

  lemma TracedStep(steps: seq<Step>, s: State, step: Step, more: seq<Step>, t: State)
    requires Traced(steps, s) && Inv(s) && Extends(steps, s, step, more, t) && Exec(INIT, steps) == Reached(s)
    ensures Traced(more, t)
  {
    NumbersMore(steps, s, step, more, t);
    forall e | e in t.events ensures NumberOk(more, e, t.events[e]) { NumberStep(steps, s, step, more, t, e); }
    forall e, dk | e in t.events ensures PendingOk(t.events[e], dk) { PendingStep(s, step, t, e, dk); }
    forall g ensures FloorFrom(t, g) { FloorStep(s, step, t, g); }
    forall dk ensures StampBelow(t, dk) {
      if step.Announcing? && !step.move.Appear? { assert EventInv(s, s.events[step.e], dk); }
      StampStep(s, step, t, dk);
    }
    forall r, dk | r in t.resolves ensures CheckOk(more, t, r, dk) { CheckStep(steps, s, step, more, t, r, dk); }
    forall r | r in t.resolves ensures CheckedOk(t.resolves[r]) {
      if r in s.resolves { assert ResolveInv(s, s.resolves[r], DepKey(GVR("", "", ""), "", "")); }
      CheckedStep(s, step, t, r);
    }
    forall r | r in t.resolves ensures MovedOk(more, t, r) { MovedStep(steps, s, step, more, t, r); }
    forall e, k | e in t.events ensures MarkOk(more, t, e, k) { MarkStep(steps, s, step, more, t, e, k); }
  }

  lemma NothingTraced()
    ensures Traced([], INIT)
  {
  }

  lemma {:induction false} RunTraced(steps: seq<Step>, s: State)
    requires Exec(INIT, steps) == Reached(s)
    ensures Traced(steps, s)
    decreases |steps|
  {
    if steps == [] {
      NothingTraced();
    } else {
      var init := steps[..|steps| - 1];
      ExecLast(INIT, steps);
      var was := Exec(INIT, init).state;
      RunTraced(init, was);
      InvRun(INIT, init);
      assert steps == init + [steps[|steps| - 1]];
      TracedStep(init, was, steps[|steps| - 1], steps, s);
    }
  }

  // ---- the theorems --------------------------------------------------------------------

  /** No idle re-mark. Take any schedule and any resolve, and let no event on the GVR of a
      dependency in its sink have taken its sequence number since the resolve began, or, for a
      dependency it reused, since the producer began. Then its scan, the end of its check and
      its re-check schedule nothing. */
  lemma QuietCheck(steps: seq<Step>, s: State, r: RId, act: Act, t: State)
    requires Exec(INIT, steps) == Reached(s) && r in s.resolves
    requires act.Scan? || act.CheckEnd? || act.Recheck?
    requires Moves(s, Resolving(r, act), t)
    requires forall dk | dk in s.resolves[r].sink :: !Disturbed(steps, s, r, dk)
    ensures t.enqueuedAt == s.enqueuedAt
  {
    RunTraced(steps, s);
    assert MovedOk(steps, s, r) && CheckedOk(s.resolves[r]);
    if act.Recheck? && MovedSince(s.forward, s.floors, act.dk, s.resolves[r].checkedSeq) {
      ReachableInv(s) by { assert Exec(INIT, steps) == Reached(s); }
      assert ResolveInv(s, s.resolves[r], act.dk);
      MoveHasCause(steps, s, r, act.dk, s.resolves[r].checkedSeq);
    }
  }

  /** Nothing is scheduled without a cause. Whenever a step schedules a key, it is the step of
      a resolve of that key of which some dependency was disturbed, or of an event that walked
      a bucket it hits while the key had its edge there. The key is resident. */
  lemma ScheduledForCause(steps: seq<Step>, s: State, step: Step, t: State, k: L1Key)
    requires Exec(INIT, steps) == Reached(s) && Moves(s, step, t)
    requires At(t.enqueuedAt, k) != At(s.enqueuedAt, k)
    ensures k in s.resident && At(t.enqueuedAt, k) == s.now
    ensures
      || (&& step.Resolving? && step.r in s.resolves && s.resolves[step.r].key == k
          && exists dk | dk in s.resolves[step.r].sink :: Disturbed(steps, s, step.r, dk))
      || (step.Announcing? && exists p: nat, dk :: Found(steps, s, p, step.e, dk, k))
  {
    RunTraced(steps, s);
    ScheduleFrame(s, step, t, k);
    if step.Resolving? {
      if forall dk | dk in s.resolves[step.r].sink :: !Disturbed(steps, s, step.r, dk) { QuietAct(steps, s, step.r, step.act, t); }
    } else {
      assert MarkOk(steps, s, step.e, k);
    }
  }

  /** Only a resolve of the key, or a mark of it, schedules it, and only while it is resident. */
  lemma ScheduleFrame(s: State, step: Step, t: State, k: L1Key)
    requires Moves(s, step, t) && At(t.enqueuedAt, k) != At(s.enqueuedAt, k)
    ensures k in s.resident && At(t.enqueuedAt, k) == s.now
    ensures (step.Resolving? && step.r in s.resolves && s.resolves[step.r].key == k)
            || (step.Announcing? && step.e in s.events && k in s.events[step.e].marks)
  {
    match step
    case Resolving(r, act) => ActFrame(s, r, act, ActShared(s, r, act));
    case Announcing(e, move) => MoveFrame(s, e, move, MoveShared(s, e, move));
    case Leave(_) =>
    case Strip(_) =>
  }

  /** Any act of an undisturbed resolve schedules nothing. */
  lemma QuietAct(steps: seq<Step>, s: State, r: RId, act: Act, t: State)
    requires Exec(INIT, steps) == Reached(s) && r in s.resolves && Moves(s, Resolving(r, act), t)
    requires forall dk | dk in s.resolves[r].sink :: !Disturbed(steps, s, r, dk)
    ensures t.enqueuedAt == s.enqueuedAt
  {
    if act.Scan? || act.CheckEnd? || act.Recheck? { QuietCheck(steps, s, r, act, t); }
  }

  // ---- what is held --------------------------------------------------------------------

  /** The step puts the edge in place: a record the cap admits, or the write of a resolve that
      had the edge and is admitted it again. */
  predicate PlacesAt(s: State, step: Step, dk: DepKey, k: L1Key) {
    && step.Resolving? && step.r in s.resolves && s.resolves[step.r].key == k
    && (step.act == Record(dk, true) || step.act == LateRecord(dk, true)
        || (step.act.Put? && dk in step.act.admitted && dk in s.resolves[step.r].own))
  }

  /** The step takes the key out of the store. */
  predicate LeavesAt(s: State, step: Step, k: L1Key) {
    step == Leave(k) || (step.Announcing? && step.move == Mark(k, true) && k in s.resident)
  }

  predicate StoresAt(s: State, step: Step, k: L1Key) {
    step.Resolving? && step.act.Put? && step.r in s.resolves && s.resolves[step.r].key == k
  }

  lemma ActEdges(s: State, r: RId, act: Act, t: State, dk: DepKey, k: L1Key)
    requires ActEnabled(s, r, act) && t == ActShared(s, r, act)
    ensures HasEdge(t.forward, dk, k) <==> HasEdge(s.forward, dk, k) || PlacesAt(s, Resolving(r, act), dk, k)
    ensures k in t.resident <==> k in s.resident || StoresAt(s, Resolving(r, act), k)
  {
  }

  lemma StripKeyEdges(f: Forward, x: L1Key, dk: DepKey, k: L1Key)
    ensures HasEdge(StripKey(f, x), dk, k) <==> HasEdge(f, dk, k) && x != k
  {
    if HasEdge(f, dk, k) && x != k { assert k in f[dk].keys - {x}; }
  }

  lemma MoveEdges(s: State, e: EId, move: Move, t: State, dk: DepKey, k: L1Key)
    requires MoveEnabled(s, e, move) && t == MoveShared(s, e, move)
    ensures HasEdge(t.forward, dk, k) <==> HasEdge(s.forward, dk, k) && !LeavesAt(s, Announcing(e, move), k)
    ensures k in t.resident <==> k in s.resident && !LeavesAt(s, Announcing(e, move), k)
  {
    if move.Mark? { StripKeyEdges(s.forward, move.k, dk, k); }
  }

  lemma HeldStep(s: State, step: Step, t: State, dk: DepKey, k: L1Key)
    requires Moves(s, step, t)
    ensures HasEdge(t.forward, dk, k) <==>
              (HasEdge(s.forward, dk, k) && !LeavesAt(s, step, k) && step != Strip(k)) || PlacesAt(s, step, dk, k)
    ensures k in t.resident <==> (k in s.resident && !LeavesAt(s, step, k)) || StoresAt(s, step, k)
  {
    match step
    case Resolving(r, act) => ActEdges(s, r, act, ActShared(s, r, act), dk, k);
    case Announcing(e, move) => MoveEdges(s, e, move, MoveShared(s, e, move), dk, k);
    case Leave(x) => StripKeyEdges(s.forward, x, dk, k);
    case Strip(x) => StripKeyEdges(s.forward, x, dk, k);
  }

  /** The state a schedule was in before one of its steps. */
  function Before(steps: seq<Step>, i: nat): State
    requires i <= |steps|
  {
    if Exec(INIT, steps[..i]).Reached? then Exec(INIT, steps[..i]).state else INIT
  }

  ghost predicate EdgeSince(steps: seq<Step>, dk: DepKey, k: L1Key, i: nat) {
    && i < |steps| && PlacesAt(Before(steps, i), steps[i], dk, k)
    && forall j | i < j < |steps| :: !LeavesAt(Before(steps, j), steps[j], k) && steps[j] != Strip(k)
  }

  ghost predicate StoredSince(steps: seq<Step>, k: L1Key, i: nat) {
    && i < |steps| && StoresAt(Before(steps, i), steps[i], k)
    && forall j | i < j < |steps| :: !LeavesAt(Before(steps, j), steps[j], k)
  }

  lemma SinceMore(init: seq<Step>, step: Step, steps: seq<Step>, dk: DepKey, k: L1Key, i: nat)
    requires steps == init + [step] && i < |steps|
    ensures EdgeSince(steps, dk, k, i) <==>
              if i < |init| then EdgeSince(init, dk, k, i) && !LeavesAt(Before(init, |init|), step, k) && step != Strip(k)
              else PlacesAt(Before(init, |init|), step, dk, k)
    ensures StoredSince(steps, k, i) <==>
              if i < |init| then StoredSince(init, k, i) && !LeavesAt(Before(init, |init|), step, k)
              else StoresAt(Before(init, |init|), step, k)
  {
    forall j: nat | j <= |init| ensures Before(steps, j) == Before(init, j) { assert steps[..j] == init[..j]; }
    assert steps[|init|] == step && forall j | 0 <= j < |init| :: steps[j] == init[j];
  }

  /** In every reachable state an edge is there if and only if some step put it in place and its
      key neither left the store nor was stripped since. */
  lemma {:induction false} EdgeExactly(steps: seq<Step>, s: State, dk: DepKey, k: L1Key)
    requires Exec(INIT, steps) == Reached(s)
    ensures HasEdge(s.forward, dk, k) <==> exists i: nat :: EdgeSince(steps, dk, k, i)
    decreases |steps|
  {
    if steps != [] {
      var n := |steps| - 1;
      var init := steps[..n];
      ExecLast(INIT, steps);
      var was := Exec(INIT, init).state;
      EdgeExactly(init, was, dk, k);
      assert Before(init, n) == was by { assert init[..n] == init; }
      HeldStep(was, steps[n], s, dk, k);
      forall i: nat | i < |steps|
        ensures EdgeSince(steps, dk, k, i) <==>
                  if i < n then EdgeSince(init, dk, k, i) && !LeavesAt(was, steps[n], k) && steps[n] != Strip(k)
                  else PlacesAt(was, steps[n], dk, k)
      {
        SinceMore(init, steps[n], steps, dk, k, i);
      }
      if HasEdge(was.forward, dk, k) && !LeavesAt(was, steps[n], k) && steps[n] != Strip(k) {
        var i: nat :| EdgeSince(init, dk, k, i);
        assert EdgeSince(steps, dk, k, i);
      } else if HasEdge(s.forward, dk, k) {
        assert EdgeSince(steps, dk, k, n);
      }
      if i: nat :| EdgeSince(steps, dk, k, i) {
        if i < n { assert EdgeSince(init, dk, k, i); }
      }
    }
  }

  /** And a key is resident if and only if a resolve of it stored and it did not leave since. */
  lemma {:induction false} ResidentExactly(steps: seq<Step>, s: State, k: L1Key)
    requires Exec(INIT, steps) == Reached(s)
    ensures k in s.resident <==> exists i: nat :: StoredSince(steps, k, i)
    decreases |steps|
  {
    if steps != [] {
      var n := |steps| - 1;
      var init := steps[..n];
      var dk := DepKey(GVR("", "", ""), "", "");
      ExecLast(INIT, steps);
      var was := Exec(INIT, init).state;
      ResidentExactly(init, was, k);
      assert Before(init, n) == was by { assert init[..n] == init; }
      HeldStep(was, steps[n], s, dk, k);
      forall i: nat | i < |steps|
        ensures StoredSince(steps, k, i) <==>
                  if i < n then StoredSince(init, k, i) && !LeavesAt(was, steps[n], k) else StoresAt(was, steps[n], k)
      {
        SinceMore(init, steps[n], steps, dk, k, i);
      }
      if k in was.resident && !LeavesAt(was, steps[n], k) {
        var i: nat :| StoredSince(init, k, i);
        assert StoredSince(steps, k, i);
      } else if k in s.resident {
        assert StoredSince(steps, k, n);
      }
      if i: nat :| StoredSince(steps, k, i) {
        if i < n { assert StoredSince(init, k, i); }
      }
    }
  }

  lemma OwnStep(s: State, step: Step, t: State, r: RId, dk: DepKey)
    requires Moves(s, step, t) && r in t.resolves && dk in t.resolves[r].own
    ensures r in s.resolves
    ensures dk in s.resolves[r].own || step == Resolving(r, Record(dk, true)) || step == Resolving(r, Record(dk, false))
  {
    if r in s.resolves { ResolveAfter(s, step, t, r); }
  }

  /** A resolve has as its own only what it recorded. */
  lemma {:induction false} OwnRecorded(steps: seq<Step>, s: State, r: RId, dk: DepKey)
    requires Exec(INIT, steps) == Reached(s) && r in s.resolves && dk in s.resolves[r].own
    ensures exists i | 0 <= i < |steps| :: steps[i] == Resolving(r, Record(dk, true)) || steps[i] == Resolving(r, Record(dk, false))
    decreases |steps|
  {
    var n := |steps| - 1;
    ExecLast(INIT, steps);
    var was := Exec(INIT, steps[..n]).state;
    OwnStep(was, steps[n], s, r, dk);
    if dk in was.resolves[r].own { OwnRecorded(steps[..n], was, r, dk); }
  }
}
