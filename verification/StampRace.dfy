/** Bumps that interleave: several events take their sequence numbers, raise the floors and
    stamp buckets one store at a time, while records create buckets and removals prune them.
    What the move test and the content-stamp test promise holds for every bump that has
    finished, in any order. */
module StampRace {
  import opened DepKeys
  import opened DepIndex
  import opened TrackerSpec

  /** Where a bump is: the sequence is taken, the floor is raised, the type floor is raised,
      the buckets still to stamp, or done. */
  datatype Progress = Taken | Floored | TypeFloored | Stamping(pending: set<DepKey>) | Done

  datatype Bump = Bump(change: Change, seqNo: nat, progress: Progress)

  type BumpId = nat

  datatype State = State(seqNo: nat, forward: Forward, floors: Floors, typeFloors: Floors, bumps: map<BumpId, Bump>)

  const INIT := State(0, map[], map[], map[], map[])

  datatype Step =
    | Advance(b: BumpId, change: Change)
    | LiftFloor(b: BumpId)
    | LiftTypeFloor(b: BumpId)
    | StartStamps(b: BumpId)
    | StampOne(b: BumpId, dk: DepKey)
    | Finish(b: BumpId)
    | Record(k: L1Key, dk: DepKey)
    | Remove(k: L1Key)

  /** The buckets a bump stamps: a fixed list for an object, the walk over the present buckets
      of the GVR for a type. */
  function ToStamp(f: Forward, c: Change): set<DepKey> {
    match c
    case ObjectChange(g, ns, name) => set dk | dk in CoordinateBuckets(g, ns, name)
    case TypeChange(_, _) => set dk | dk in f && Hits(c, dk)
  }

  predicate Enabled(s: State, step: Step) {
    match step
    case Advance(b, _) => b !in s.bumps
    case LiftFloor(b) => b in s.bumps && s.bumps[b].progress.Taken?
    case LiftTypeFloor(b) => b in s.bumps && s.bumps[b].progress.Floored? && s.bumps[b].change.TypeChange?
    case StartStamps(b) =>
      b in s.bumps && (if s.bumps[b].change.TypeChange? then s.bumps[b].progress.TypeFloored? else s.bumps[b].progress.Floored?)
    case StampOne(b, dk) => b in s.bumps && s.bumps[b].progress.Stamping? && dk in s.bumps[b].progress.pending
    case Finish(b) => b in s.bumps && s.bumps[b].progress == Stamping({})
    case _ => true
  }

  function WithProgress(s: State, b: BumpId, p: Progress): map<BumpId, Bump>
    requires b in s.bumps
  {
    s.bumps[b := s.bumps[b].(progress := p)]
  }

  function Next(s: State, step: Step): State
    requires Enabled(s, step)
  {
    match step
    case Advance(b, c) => s.(seqNo := s.seqNo + 1, bumps := s.bumps[b := Bump(c, s.seqNo + 1, Taken)])
    case LiftFloor(b) =>
      s.(floors := RaiseFloor(s.floors, s.bumps[b].change.gvr, s.bumps[b].seqNo), bumps := WithProgress(s, b, Floored))
    case LiftTypeFloor(b) =>
      s.(typeFloors := RaiseFloor(s.typeFloors, s.bumps[b].change.gvr, s.bumps[b].seqNo), bumps := WithProgress(s, b, TypeFloored))
    case StartStamps(b) => s.(bumps := WithProgress(s, b, Stamping(ToStamp(s.forward, s.bumps[b].change))))
    case StampOne(b, dk) =>
      s.(forward := StampBucket(s.forward, dk, s.bumps[b].seqNo),
         bumps := WithProgress(s, b, Stamping(s.bumps[b].progress.pending - {dk})))
    case Finish(b) => s.(bumps := WithProgress(s, b, Done))
    case Record(k, dk) => s.(forward := if HasEdge(s.forward, dk, k) then s.forward else AddEdge(s.forward, s.floors, dk, k))
    case Remove(k) => s.(forward := StripKey(s.forward, k))
  }

  datatype Outcome = Reached(state: State) | Stuck

  function Exec(s: State, steps: seq<Step>): Outcome
    decreases |steps|
  {
    if steps == [] then Reached(s)
    else if Enabled(s, steps[0]) then Exec(Next(s, steps[0]), steps[1..])
    else Stuck
  }

  /** What a bump has done so far, as one dependency sees it. */
  predicate BumpOk(s: State, b: Bump, dk: DepKey) {
    b.change.gvr == dk.gvr ==>
      && b.seqNo <= s.seqNo
      && (!b.progress.Taken? ==> FloorOf(s.floors, dk.gvr) >= b.seqNo)
      && (b.change.TypeChange? && !b.progress.Taken? && !b.progress.Floored? ==> FloorOf(s.typeFloors, dk.gvr) >= b.seqNo)
      && (Hits(b.change, dk) && dk in s.forward && (b.progress.Done? || (b.progress.Stamping? && dk !in b.progress.pending)) ==>
            s.forward[dk].stamp >= b.seqNo)
  }

  /** The floors, the type floors and the stamps come from bumps that have taken a number. */
  ghost predicate FromBump(s: State, v: nat, g: GVR) {
    v > 0 ==> exists b | b in s.bumps :: s.bumps[b].change.gvr == g && s.bumps[b].seqNo >= v
  }

  /** Stamps stay below the floor of their GVR, and so do type floors. */
  predicate BelowFloor(s: State, dk: DepKey) {
    && (dk in s.forward ==> s.forward[dk].stamp <= FloorOf(s.floors, dk.gvr))
    && FloorOf(s.typeFloors, dk.gvr) <= FloorOf(s.floors, dk.gvr)
  }

  ghost predicate KeyOk(s: State, dk: DepKey) {
    BelowFloor(s, dk) && FromBump(s, FloorOf(s.floors, dk.gvr), dk.gvr)
  }

  /** A bump stamps only what it hits. */
  predicate PendingHits(b: Bump, dk: DepKey) {
    b.progress.Stamping? && dk in b.progress.pending ==> Hits(b.change, dk)
  }

  ghost predicate Inv(s: State) {
    && (forall b, dk | b in s.bumps :: PendingHits(s.bumps[b], dk))
    && (forall b, dk | b in s.bumps :: BumpOk(s, s.bumps[b], dk))
    && (forall dk :: KeyOk(s, dk))
  }

  lemma BumpStep(s: State, step: Step, id: BumpId, dk: DepKey)
    requires Enabled(s, step) && id in Next(s, step).bumps
    requires id in s.bumps ==> BumpOk(s, s.bumps[id], dk)
    ensures BumpOk(Next(s, step), Next(s, step).bumps[id], dk)
  {
  }

  lemma PendingStep(s: State, step: Step, id: BumpId, dk: DepKey)
    requires Enabled(s, step) && id in Next(s, step).bumps
    requires id in s.bumps ==> PendingHits(s.bumps[id], dk)
    ensures PendingHits(Next(s, step).bumps[id], dk)
  {
  }

  lemma BelowStep(s: State, step: Step, dk: DepKey)
    requires Enabled(s, step) && BelowFloor(s, dk)
    requires step.LiftTypeFloor? || step.StampOne? ==> BumpOk(s, s.bumps[step.b], dk)
    requires step.StampOne? ==> Hits(s.bumps[step.b].change, step.dk)
    ensures BelowFloor(Next(s, step), dk)
  {
  }

  predicate Carries(s: State, t: State, b: BumpId) {
    b in s.bumps ==> b in t.bumps && t.bumps[b].change == s.bumps[b].change && t.bumps[b].seqNo == s.bumps[b].seqNo
  }

  lemma StepCarries(s: State, step: Step, b: BumpId)
    requires Enabled(s, step)
    ensures Carries(s, Next(s, step), b)
  {
  }

  lemma FloorMoves(s: State, step: Step, g: GVR)
    requires Enabled(s, step)
    ensures FloorOf(Next(s, step).floors, g) == FloorOf(s.floors, g)
            || (step.LiftFloor? && s.bumps[step.b].change.gvr == g && FloorOf(Next(s, step).floors, g) == s.bumps[step.b].seqNo)
  {
  }

  lemma FromStep(s: State, step: Step, g: GVR)
    requires Enabled(s, step) && FromBump(s, FloorOf(s.floors, g), g)
    ensures FromBump(Next(s, step), FloorOf(Next(s, step).floors, g), g)
  {
    FloorMoves(s, step, g);
    var v := FloorOf(s.floors, g);
    if FloorOf(Next(s, step).floors, g) != v {
      StepCarries(s, step, step.b);
    } else if v > 0 {
      var b :| b in s.bumps && s.bumps[b].change.gvr == g && s.bumps[b].seqNo >= v;
      StepCarries(s, step, b);
    }
  }

  lemma KeyStep(s: State, step: Step, dk: DepKey)
    requires Enabled(s, step) && KeyOk(s, dk)
    requires forall b | b in s.bumps :: BumpOk(s, s.bumps[b], dk)
    requires step.StampOne? ==> Hits(s.bumps[step.b].change, step.dk)
    ensures KeyOk(Next(s, step), dk)
  {
    BelowStep(s, step, dk);
    FromStep(s, step, dk.gvr);
  }

  lemma InvStep(s: State, step: Step)
    requires Inv(s) && Enabled(s, step)
    ensures Inv(Next(s, step))
  {
    var t := Next(s, step);
    forall b, dk | b in t.bumps ensures PendingHits(t.bumps[b], dk) { PendingStep(s, step, b, dk); }
    forall b, dk | b in t.bumps ensures BumpOk(t, t.bumps[b], dk) { BumpStep(s, step, b, dk); }
    assert step.StampOne? ==> PendingHits(s.bumps[step.b], step.dk);
    forall dk ensures KeyOk(t, dk) { KeyStep(s, step, dk); }
  }

  lemma {:induction false} InvRun(s: State, steps: seq<Step>)
    requires Inv(s) && Exec(s, steps).Reached?
    ensures Inv(Exec(s, steps).state)
    decreases |steps|
  {
    if steps != [] {
      InvStep(s, steps[0]);
      InvRun(Next(s, steps[0]), steps[1..]);
    }
  }

  /** Whatever the interleaving, a dependency reads as moved since everything below a finished
      bump that hit it, and never since anything at or above every bump of its GVR. */
  lemma FinishedBumpIsSeen(steps: seq<Step>, s: State, dk: DepKey)
    requires Exec(INIT, steps) == Reached(s)
    ensures forall b, q: nat | b in s.bumps && s.bumps[b].progress.Done? && Hits(s.bumps[b].change, dk) && q < s.bumps[b].seqNo ::
              MovedSince(s.forward, s.floors, dk, q)
    ensures forall q: nat | (forall b | b in s.bumps && s.bumps[b].change.gvr == dk.gvr :: s.bumps[b].seqNo <= q) ::
              !MovedSince(s.forward, s.floors, dk, q)
  {
    InvRun(INIT, steps);
    assert KeyOk(s, dk);
    forall b, q: nat | b in s.bumps && s.bumps[b].progress.Done? && Hits(s.bumps[b].change, dk) && q < s.bumps[b].seqNo
      ensures MovedSince(s.forward, s.floors, dk, q)
    {
      assert BumpOk(s, s.bumps[b], dk);
    }
  }

  /** Whatever the interleaving, a content cell covered for a need has seen every finished
      event it must reflect up to that need. */
  lemma CoveredSawFinished(steps: seq<Step>, s: State, gvr: GVR, namespace: string, name: string, asOf: nat, need: nat, b: BumpId)
    requires Exec(INIT, steps) == Reached(s)
    requires Covers(s.forward, s.floors, s.typeFloors, ContentKey(gvr, namespace, name), asOf, need)
    requires b in s.bumps && s.bumps[b].progress.Done? && TouchesContent(s.bumps[b].change, ContentKey(gvr, namespace, name))
    requires s.bumps[b].seqNo <= need
    ensures s.bumps[b].seqNo <= asOf
  {
    InvRun(INIT, steps);
    assert BumpOk(s, s.bumps[b], ContentKey(gvr, namespace, name));
  }

  // ---- where a stamp comes from --------------------------------------------------------

  lemma {:induction false} ExecLast(s: State, steps: seq<Step>)
    requires steps != [] && Exec(s, steps).Reached?
    ensures Exec(s, steps[..|steps| - 1]).Reached?
    ensures Enabled(Exec(s, steps[..|steps| - 1]).state, steps[|steps| - 1])
    ensures Exec(s, steps).state == Next(Exec(s, steps[..|steps| - 1]).state, steps[|steps| - 1])
    decreases |steps|
  {
    var n := |steps| - 1;
    if n > 0 {
      assert steps[1..][..n - 1] == steps[..n][1..];
      ExecLast(Next(s, steps[0]), steps[1..]);
    }
  }

  function Before(steps: seq<Step>, i: nat): State
    requires i <= |steps|
  {
    if Exec(INIT, steps[..i]).Reached? then Exec(INIT, steps[..i]).state else INIT
  }

  /** The step gives the bucket of a dependency this stamp: a bump that hits it does, with its
      number, or the record that creates the bucket, with the floor of the GVR. */
  predicate GivesStamp(s: State, step: Step, dk: DepKey, stamp: nat) {
    match step
    case StampOne(b, d) => d == dk && b in s.bumps && Hits(s.bumps[b].change, dk) && s.bumps[b].seqNo == stamp
    case Record(_, d) => d == dk && dk !in s.forward && FloorOf(s.floors, dk.gvr) == stamp
    case _ => false
  }

  ghost predicate StampedSince(steps: seq<Step>, dk: DepKey, stamp: nat, i: nat) {
    && i < |steps| && GivesStamp(Before(steps, i), steps[i], dk, stamp)
    && forall j | i < j < |steps| :: dk in Before(steps, j).forward
  }

  lemma StampMoves(s: State, step: Step, dk: DepKey)
    requires Enabled(s, step) && dk in Next(s, step).forward
    requires step.StampOne? ==> PendingHits(s.bumps[step.b], step.dk)
    ensures GivesStamp(s, step, dk, Next(s, step).forward[dk].stamp)
            || (dk in s.forward && Next(s, step).forward[dk].stamp == s.forward[dk].stamp)
  {
  }

  lemma SinceMore(init: seq<Step>, step: Step, steps: seq<Step>, dk: DepKey, stamp: nat, i: nat)
    requires steps == init + [step] && StampedSince(init, dk, stamp, i) && dk in Before(init, |init|).forward
    ensures StampedSince(steps, dk, stamp, i)
  {
    forall j: nat | j <= |init| ensures Before(steps, j) == Before(init, j) { assert steps[..j] == init[..j]; }
    assert forall j | 0 <= j < |init| :: steps[j] == init[j];
  }

  /** No bucket moves without a cause: whatever its stamp is, a bump that hits it left it there,
      or the floor did when the bucket was created, and the bucket has been there since. */
  lemma {:induction false} StampHasCause(steps: seq<Step>, s: State, dk: DepKey)
    requires Exec(INIT, steps) == Reached(s) && dk in s.forward
    ensures exists i: nat :: StampedSince(steps, dk, s.forward[dk].stamp, i)
    decreases |steps|
  {
    var n := |steps| - 1;
    var init := steps[..n];
    ExecLast(INIT, steps);
    var was := Exec(INIT, init).state;
    assert init[..n] == init && init + [steps[n]] == steps;
    assert Before(steps, n) == was == Before(init, n);
    InvRun(INIT, init);
    assert steps[n].StampOne? ==> PendingHits(was.bumps[steps[n].b], steps[n].dk);
    StampMoves(was, steps[n], dk);
    if GivesStamp(was, steps[n], dk, s.forward[dk].stamp) {
      assert StampedSince(steps, dk, s.forward[dk].stamp, n);
    } else {
      StampHasCause(init, was, dk);
      var i: nat :| StampedSince(init, dk, was.forward[dk].stamp, i);
      SinceMore(init, steps[n], steps, dk, was.forward[dk].stamp, i);
    }
  }

  function Left(p: Progress): nat {
    match p
    case Taken => 4
    case Floored => 3
    case TypeFloored => 2
    case Stamping(_) => 1
    case Done => 0
  }

  function NextStore(b: BumpId, bump: Bump, dk: DepKey): Step {
    match bump.progress
    case Taken => LiftFloor(b)
    case Floored => if bump.change.TypeChange? then LiftTypeFloor(b) else StartStamps(b)
    case Stamping(pending) => if dk in pending then StampOne(b, dk) else Finish(b)
    case _ => StartStamps(b)
  }

  lemma StoreGoes(s: State, b: BumpId, dk: DepKey)
    requires b in s.bumps && !s.bumps[b].progress.Done?
    requires s.bumps[b].progress.TypeFloored? ==> s.bumps[b].change.TypeChange?
    requires s.bumps[b].progress.Stamping? && s.bumps[b].progress.pending != {} ==> dk in s.bumps[b].progress.pending
    ensures Enabled(s, NextStore(b, s.bumps[b], dk))
    ensures var was, now := s.bumps[b], Next(s, NextStore(b, s.bumps[b], dk)).bumps[b];
            && now.change == was.change && (now.progress.TypeFloored? ==> now.change.TypeChange?)
            && (Left(now.progress) < Left(was.progress)
                || (was.progress.Stamping? && now.progress.Stamping? && |now.progress.pending| < |was.progress.pending|))
  {
  }

  function ToDo(p: Progress): nat { if p.Stamping? then |p.pending| else 0 }

  /** And every bump can finish by its own stores, whatever else is going on. */
  lemma {:induction false} BumpFinishes(s: State, b: BumpId) returns (more: seq<Step>)
    requires b in s.bumps && (s.bumps[b].progress.TypeFloored? ==> s.bumps[b].change.TypeChange?)
    ensures Exec(s, more).Reached? && b in Exec(s, more).state.bumps && Exec(s, more).state.bumps[b].progress.Done?
    decreases Left(s.bumps[b].progress), ToDo(s.bumps[b].progress)
  {
    more := [];
    var p := s.bumps[b].progress;
    if !p.Done? {
      var dk: DepKey :| p.Stamping? && p.pending != {} ==> dk in p.pending;
      StoreGoes(s, b, dk);
      var step := NextStore(b, s.bumps[b], dk);
      more := BumpFinishes(Next(s, step), b);
      assert ([step] + more)[1..] == more;
      more := [step] + more;
    }
  }
}
