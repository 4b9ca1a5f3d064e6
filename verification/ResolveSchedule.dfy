/** The lost-invalidation theorems told by the schedule alone: who began, read, recorded, wrote
    and checked when, which event appeared when and whether it has run out of moves. */
module ResolveSchedule {
  import opened DepKeys
  import opened DepIndex
  import opened ResolveProtocol
  import opened ResolveSafety
  import opened ResolvePrecision
  import opened ListInterest

  // ---- positions -----------------------------------------------------------------------

  lemma {:induction false} PrefixReached(steps: seq<Step>, s: State, i: nat)
    requires Exec(INIT, steps) == Reached(s) && i <= |steps|
    ensures Exec(INIT, steps[..i]).Reached? && Exec(INIT, steps[..i]).state == Before(steps, i)
    decreases |steps|
  {
    if i == |steps| {
      assert steps[..i] == steps;
    } else {
      var init := steps[..|steps| - 1];
      ExecLast(INIT, steps);
      assert init[..i] == steps[..i];
      PrefixReached(init, Exec(INIT, init).state, i);
    }
  }

  /** The step at a position leads from the state before it to the state after it. */
  lemma StepAt(steps: seq<Step>, s: State, i: nat)
    requires Exec(INIT, steps) == Reached(s) && i < |steps|
    ensures Moves(Before(steps, i), steps[i], Before(steps, i + 1))
  {
    PrefixReached(steps, s, i);
    PrefixReached(steps, s, i + 1);
    assert steps[..i + 1][..i] == steps[..i];
    ExecLast(INIT, steps[..i + 1]);
  }

  lemma AtEnd(steps: seq<Step>, s: State)
    requires Exec(INIT, steps) == Reached(s)
    ensures Before(steps, |steps|) == s
  {
    assert steps[..|steps|] == steps;
  }

  /** The clock counts the steps. */
  lemma {:induction false} ClockAt(steps: seq<Step>, s: State, i: nat)
    requires Exec(INIT, steps) == Reached(s) && i <= |steps|
    ensures Before(steps, i).now == i + 1
    decreases i
  {
    if i == 0 {
      assert steps[..0] == [];
    } else {
      ClockAt(steps, s, i - 1);
      StepAt(steps, s, i - 1);
    }
  }

  // ---- what a step keeps of a resolve and of an event ----------------------------------

  function Rank(p: Phase): nat {
    match p
    case Running => 0
    case Stored => 1
    case Checking => 2
    case Checked => 3
  }

  /** A resolve only ever moves on: its key and its write stay, its reads only get earlier. */
  predicate MovesOn(v: Resolve, w: Resolve) {
    && w.key == v.key && Rank(v.phase) <= Rank(w.phase)
    && (HasStored(v) ==> w.putAt == v.putAt)
    && (forall dk | dk in v.readAt :: dk in w.readAt && w.readAt[dk] <= v.readAt[dk])
    && v.late <= w.late
  }

  lemma ResolveMovesOn(s: State, step: Step, t: State, r: RId)
    requires Moves(s, step, t) && r in s.resolves
    ensures r in t.resolves && MovesOn(s.resolves[r], t.resolves[r])
  {
    ResolveAfter(s, step, t, r);
  }

  lemma {:induction false} MovesOnTo(steps: seq<Step>, s: State, r: RId, i: nat, j: nat)
    requires Exec(INIT, steps) == Reached(s) && i <= j <= |steps| && r in Before(steps, i).resolves
    ensures r in Before(steps, j).resolves && MovesOn(Before(steps, i).resolves[r], Before(steps, j).resolves[r])
    decreases j
  {
    if i < j {
      MovesOnTo(steps, s, r, i, j - 1);
      StepAt(steps, s, j - 1);
      ResolveMovesOn(Before(steps, j - 1), steps[j - 1], Before(steps, j), r);
    }
  }

  lemma {:induction false} EventKeptTo(steps: seq<Step>, s: State, e: EId, i: nat, j: nat)
    requires Exec(INIT, steps) == Reached(s) && i <= j <= |steps| && e in Before(steps, i).events
    ensures e in Before(steps, j).events && Before(steps, j).events[e].change == Before(steps, i).events[e].change
    ensures Before(steps, j).events[e].visibleAt == Before(steps, i).events[e].visibleAt
    decreases j
  {
    if i < j {
      EventKeptTo(steps, s, e, i, j - 1);
      StepAt(steps, s, j - 1);
      EventAfter(Before(steps, j - 1), steps[j - 1], Before(steps, j), e);
    }
  }

  // ---- what a schedule did -------------------------------------------------------------

  /** The first read of the data a resolve has of a dependency, its own or that of a resolve it
      reused the dependency from. */
  function FirstRead(steps: seq<Step>, r: RId, dk: DepKey): Option<nat> {
    if steps == [] then None
    else
      var init, step := steps[..|steps| - 1], steps[|steps| - 1];
      var was := FirstRead(init, r, dk);
      if !step.Resolving? || step.r != r then was
      else if step.act == Read(dk) then Earlier(was, Some(|init|))
      else if step.act.Reuse? && step.act.dk == dk then Earlier(was, FirstRead(init, step.act.producer, dk))
      else was
  }

  function Earlier(a: Option<nat>, b: Option<nat>): Option<nat> {
    if a.None? then b else if b.None? then a else Some(Min(a.value, b.value))
  }

  function ReadTime(s: State, r: RId, dk: DepKey): Option<nat> {
    if r in s.resolves && dk in s.resolves[r].readAt then Some(s.resolves[r].readAt[dk]) else None
  }

  lemma ReadStep(s: State, step: Step, t: State, r: RId, dk: DepKey)
    requires Moves(s, step, t)
    requires ReadTime(s, r, dk).Some? ==> ReadTime(s, r, dk).value <= s.now
    ensures ReadTime(t, r, dk) ==
              if !step.Resolving? || step.r != r then ReadTime(s, r, dk)
              else if step.act == Read(dk) then Earlier(ReadTime(s, r, dk), Some(s.now))
              else if step.act.Reuse? && step.act.dk == dk then Earlier(ReadTime(s, r, dk), ReadTime(s, step.act.producer, dk))
              else ReadTime(s, r, dk)
  {
    if r in s.resolves { ResolveAfter(s, step, t, r); }
  }

  function Later(a: Option<nat>): Option<nat> { if a.None? then None else Some(a.value + 1) }

  /** A resolve's read times are the positions of its reads. */
  lemma {:induction false} ReadExactly(steps: seq<Step>, s: State, r: RId, dk: DepKey)
    requires Exec(INIT, steps) == Reached(s)
    ensures ReadTime(s, r, dk) == Later(FirstRead(steps, r, dk))
    ensures FirstRead(steps, r, dk).Some? ==> FirstRead(steps, r, dk).value < |steps|
    decreases |steps|
  {
    if steps != [] {
      var n := |steps| - 1;
      var init := steps[..n];
      ExecLast(INIT, steps);
      var was := Exec(INIT, init).state;
      ReadExactly(init, was, r, dk);
      if steps[n].Resolving? && steps[n].act.Reuse? { ReadExactly(init, was, steps[n].act.producer, dk); }
      ClockAt(init, was, n);
      AtEnd(init, was);
      ReadStep(was, steps[n], s, r, dk);
    }
  }

  /** The resolve wrote at a position, which is the time of its write for good. */
  lemma WroteAt(steps: seq<Step>, s: State, r: RId, put: nat, j: nat)
    requires Exec(INIT, steps) == Reached(s) && put < j <= |steps|
    requires steps[put].Resolving? && steps[put].r == r && steps[put].act.Put?
    ensures r in Before(steps, j).resolves && HasStored(Before(steps, j).resolves[r]) && Before(steps, j).resolves[r].putAt == put + 1
    ensures r in Before(steps, put).resolves && Before(steps, put).resolves[r].phase == Running
  {
    StepAt(steps, s, put);
    ClockAt(steps, s, put);
    ResolveAfter(Before(steps, put), steps[put], Before(steps, put + 1), r);
    MovesOnTo(steps, s, r, put + 1, j);
  }

  /** A dependency the cap admitted, after the write or again by it. */
  predicate Admitted(steps: seq<Step>, r: RId, dk: DepKey, rec: nat, put: nat) {
    && rec < |steps| && put < |steps| && steps[rec] == Resolving(r, Record(dk, true))
    && steps[put].Resolving? && steps[put].r == r && steps[put].act.Put?
    && (put < rec || dk in steps[put].act.admitted)
  }

  lemma OwnMore(s: State, step: Step, t: State, r: RId, dk: DepKey)
    requires Moves(s, step, t) && r in s.resolves
    requires step == Resolving(r, Record(dk, true)) || dk in s.resolves[r].own
    requires step.Resolving? && step.r == r && step.act.Put? ==> dk in step.act.admitted
    ensures r in t.resolves && dk in t.resolves[r].own
  {
    ResolveAfter(s, step, t, r);
  }

  lemma {:induction false} OwnHeld(steps: seq<Step>, s: State, r: RId, dk: DepKey, rec: nat, put: nat, j: nat)
    requires Exec(INIT, steps) == Reached(s) && Admitted(steps, r, dk, rec, put) && rec < j <= |steps|
    ensures r in Before(steps, j).resolves && dk in Before(steps, j).resolves[r].own
    decreases j
  {
    var i := j - 1;
    StepAt(steps, s, i);
    if rec < i { OwnHeld(steps, s, r, dk, rec, put, i); }
    if steps[i].Resolving? && steps[i].r == r && steps[i].act.Put? {
      WroteAt(steps, s, r, i, |steps|);
      if i < put { WroteAt(steps, s, r, i, put); WroteAt(steps, s, r, put, |steps|); }
      if put < i { WroteAt(steps, s, r, put, i); }
    }
    OwnMore(Before(steps, i), steps[i], Before(steps, j), r, dk);
  }

  /** The event appeared at a position. */
  lemma AppearedAt(steps: seq<Step>, s: State, e: EId, v: nat, c: Change, absent: bool)
    requires Exec(INIT, steps) == Reached(s) && v < |steps| && steps[v] == Announcing(e, Appear(c, absent))
    ensures e in s.events && s.events[e].change == c && s.events[e].visibleAt == v + 1
  {
    StepAt(steps, s, v);
    ClockAt(steps, s, v);
    EventKeptTo(steps, s, e, v + 1, |steps|);
    AtEnd(steps, s);
  }

  /** The key did not leave the store from a position on. */
  ghost predicate StaysFrom(steps: seq<Step>, k: L1Key, i: nat) {
    forall j | i <= j < |steps| :: !LeavesAt(Before(steps, j), steps[j], k)
  }

  lemma ActLeft(s: State, r: RId, act: Act)
    requires ActEnabled(s, r, act)
    ensures ActShared(s, r, act).leftAt == s.leftAt
  {
  }

  lemma MoveLeft(s: State, e: EId, move: Move, k: L1Key)
    requires MoveEnabled(s, e, move)
    ensures At(MoveShared(s, e, move).leftAt, k) == if LeavesAt(s, Announcing(e, move), k) then s.now else At(s.leftAt, k)
  {
  }

  lemma LeftStep(s: State, step: Step, t: State, k: L1Key)
    requires Moves(s, step, t)
    ensures At(t.leftAt, k) == if LeavesAt(s, step, k) then s.now else At(s.leftAt, k)
  {
    match step
    case Resolving(r, act) => ActLeft(s, r, act);
    case Announcing(e, move) => MoveLeft(s, e, move, k);
    case Leave(_) =>
    case Strip(_) =>
  }

  lemma {:induction false} LeftBefore(steps: seq<Step>, s: State, k: L1Key, i: nat, j: nat)
    requires Exec(INIT, steps) == Reached(s) && i <= j <= |steps| && StaysFrom(steps, k, i)
    ensures At(Before(steps, j).leftAt, k) <= i
    decreases j
  {
    if j > 0 {
      StepAt(steps, s, j - 1);
      ClockAt(steps, s, j - 1);
      LeftStep(Before(steps, j - 1), steps[j - 1], Before(steps, j), k);
      if j > i { LeftBefore(steps, s, k, i, j - 1); } else { LeftSince(steps, s, k, j - 1); }
    } else {
      assert steps[..0] == [];
    }
  }

  lemma {:induction false} LeftSince(steps: seq<Step>, s: State, k: L1Key, j: nat)
    requires Exec(INIT, steps) == Reached(s) && j <= |steps|
    ensures At(Before(steps, j).leftAt, k) <= j
    decreases j
  {
    if j > 0 {
      StepAt(steps, s, j - 1);
      ClockAt(steps, s, j - 1);
      LeftStep(Before(steps, j - 1), steps[j - 1], Before(steps, j), k);
      LeftSince(steps, s, k, j - 1);
    } else {
      assert steps[..0] == [];
    }
  }

  /** The resolve began with its key. */
  lemma BeganAs(steps: seq<Step>, s: State, r: RId, k: L1Key, b: nat)
    requires Exec(INIT, steps) == Reached(s) && b < |steps| && steps[b] == Resolving(r, Begin(k))
    ensures r in s.resolves && s.resolves[r].key == k
  {
    StepAt(steps, s, b);
    MovesOnTo(steps, s, r, b + 1, |steps|);
    AtEnd(steps, s);
  }

  lemma CheckEndedAt(steps: seq<Step>, s: State, r: RId, x: nat)
    requires Exec(INIT, steps) == Reached(s) && x < |steps| && steps[x] == Resolving(r, CheckEnd)
    ensures r in s.resolves && s.resolves[r].phase == Checked
  {
    StepAt(steps, s, x);
    CheckEndOne(Before(steps, x), steps[x], Before(steps, x + 1), r);
    MovesOnTo(steps, s, r, x + 1, |steps|);
    AtEnd(steps, s);
  }

  lemma CheckEndOne(s: State, step: Step, t: State, r: RId)
    requires Moves(s, step, t) && step == Resolving(r, CheckEnd)
    ensures r in t.resolves && t.resolves[r].phase == Checked
  {
    ResolveAfter(s, step, t, r);
  }

  /** The resolve began with the key and ended its check. */
  predicate Completed(steps: seq<Step>, r: RId, k: L1Key) {
    (exists b | 0 <= b < |steps| :: steps[b] == Resolving(r, Begin(k)))
    && (exists x | 0 <= x < |steps| :: steps[x] == Resolving(r, CheckEnd))
  }

  // ---- the theorem ---------------------------------------------------------------------

  /** No lost invalidation, told by the schedule alone. A resolve of k first read dk at one
      position, had it admitted under its key, wrote and ended its check. Any event that hits dk,
      appeared after that read, and has nothing left to do, has led to k being scheduled after
      both the write and the event, unless k left the store since the write. */
  lemma NothingLost(steps: seq<Step>, s: State, r: RId, k: L1Key, dk: DepKey, read: nat, rec: nat, put: nat,
                    e: EId, v: nat, c: Change, absent: bool)
    requires Exec(INIT, steps) == Reached(s) && Completed(steps, r, k)
    requires FirstRead(steps, r, dk) == Some(read) && Admitted(steps, r, dk, rec, put)
    requires v < |steps| && steps[v] == Announcing(e, Appear(c, absent)) && Hits(c, dk) && read < v
    requires forall move :: !MoveEnabled(s, e, move)
    requires StaysFrom(steps, k, put)
    ensures k in s.resident && At(s.enqueuedAt, k) > Max(put, v) + 1
  {
    var b :| 0 <= b < |steps| && steps[b] == Resolving(r, Begin(k));
    BeganAs(steps, s, r, k, b);
    var x :| 0 <= x < |steps| && steps[x] == Resolving(r, CheckEnd);
    CheckEndedAt(steps, s, r, x);
    ReadExactly(steps, s, r, dk);
    OwnHeld(steps, s, r, dk, rec, put, |steps|);
    WroteAt(steps, s, r, put, |steps|);
    AppearedAt(steps, s, e, v, c, absent);
    LeftBefore(steps, s, k, put, |steps|);
    AtEnd(steps, s);
    DoneFannedOut(s, e);
    NoLostInvalidation(s, r, e, dk);
  }

  /** An event without a move left has fanned out. */
  lemma DoneFannedOut(s: State, e: EId)
    requires e in s.events && forall move :: !MoveEnabled(s, e, move)
    ensures FannedOut(s.events[e])
  {
    var ev := s.events[e];
    assert !MoveEnabled(s, e, Advance) && !MoveEnabled(s, e, Floor) && !MoveEnabled(s, e, Collect);
    forall dk ensures dk in ev.pending ==> MoveEnabled(s, e, Stamp(dk)) || MoveEnabled(s, e, Visit(dk)) {}
    forall k ensures k in ev.marks ==> ev.pending != {} || MoveEnabled(s, e, Mark(k, false)) {}
  }

  // ---- the window after the write ------------------------------------------------------

  lemma SinkMore(s: State, step: Step, t: State, r: RId, dk: DepKey)
    requires Moves(s, step, t) && r in s.resolves
    requires step == Resolving(r, Declare(dk)) || (step.Resolving? && step.r == r && step.act.Record? && step.act.dk == dk)
             || dk in s.resolves[r].sink
    ensures r in t.resolves && dk in t.resolves[r].sink
  {
    ResolveAfter(s, step, t, r);
  }

  predicate Names(step: Step, r: RId, dk: DepKey) {
    step == Resolving(r, Declare(dk)) || step == Resolving(r, Record(dk, true)) || step == Resolving(r, Record(dk, false))
  }

  lemma {:induction false} InSink(steps: seq<Step>, s: State, r: RId, dk: DepKey, d: nat, j: nat)
    requires Exec(INIT, steps) == Reached(s) && d < j <= |steps| && Names(steps[d], r, dk)
    ensures r in Before(steps, j).resolves && dk in Before(steps, j).resolves[r].sink
    decreases j
  {
    StepAt(steps, s, j - 1);
    if d < j - 1 { InSink(steps, s, r, dk, d, j - 1); }
    SinkMore(Before(steps, j - 1), steps[j - 1], Before(steps, j), r, dk);
  }

  /** The dependency is to be scanned, or was. */
  predicate Looked(v: Resolve, dk: DepKey) { dk in v.toScan || dk in v.scanned }

  lemma LookedMore(s: State, step: Step, t: State, r: RId, dk: DepKey)
    requires Moves(s, step, t) && r in s.resolves && dk in s.resolves[r].sink
    requires step == Resolving(r, CheckBegin) || Looked(s.resolves[r], dk)
    ensures r in t.resolves && Looked(t.resolves[r], dk)
  {
    ResolveAfter(s, step, t, r);
  }

  lemma {:induction false} LookedAt(steps: seq<Step>, s: State, r: RId, dk: DepKey, d: nat, cb: nat, j: nat)
    requires Exec(INIT, steps) == Reached(s) && d < cb < j <= |steps|
    requires Names(steps[d], r, dk) && steps[cb] == Resolving(r, CheckBegin)
    ensures r in Before(steps, j).resolves && Looked(Before(steps, j).resolves[r], dk)
    decreases j
  {
    StepAt(steps, s, j - 1);
    InSink(steps, s, r, dk, d, j - 1);
    if cb < j - 1 { LookedAt(steps, s, r, dk, d, cb, j - 1); }
    LookedMore(Before(steps, j - 1), steps[j - 1], Before(steps, j), r, dk);
  }

  /** The late edge was placed at i and re-checked at j, and not recorded again since. */
  predicate Rechecked(steps: seq<Step>, r: RId, dk: DepKey, i: nat, j: nat) {
    && i < j < |steps| && steps[i] == Resolving(r, LateRecord(dk, true)) && steps[j] == Resolving(r, Recheck(dk))
    && forall x | j < x < |steps| :: steps[x] != Resolving(r, LateRecord(dk, true)) && steps[x] != Resolving(r, LateRecord(dk, false))
  }

  lemma RecheckGone(s: State, step: Step, t: State, r: RId, dk: DepKey)
    requires Moves(s, step, t) && r in s.resolves
    requires step == Resolving(r, Recheck(dk)) || dk !in s.resolves[r].recheck
    requires step != Resolving(r, LateRecord(dk, true)) && step != Resolving(r, LateRecord(dk, false))
    ensures r in t.resolves && dk !in t.resolves[r].recheck
  {
    ResolveAfter(s, step, t, r);
  }

  lemma {:induction false} RecheckDone(steps: seq<Step>, s: State, r: RId, dk: DepKey, i: nat, j: nat, n: nat)
    requires Exec(INIT, steps) == Reached(s) && Rechecked(steps, r, dk, i, j) && j < n <= |steps|
    ensures r in Before(steps, n).resolves && dk !in Before(steps, n).resolves[r].recheck
    decreases n
  {
    StepAt(steps, s, n - 1);
    if j < n - 1 { RecheckDone(steps, s, r, dk, i, j, n - 1); }
    RecheckGone(Before(steps, n - 1), steps[n - 1], Before(steps, n), r, dk);
  }

  lemma LateAt(steps: seq<Step>, s: State, r: RId, dk: DepKey, i: nat)
    requires Exec(INIT, steps) == Reached(s) && i < |steps| && steps[i] == Resolving(r, LateRecord(dk, true))
    ensures r in s.resolves && dk in s.resolves[r].late
  {
    StepAt(steps, s, i);
    LateOne(Before(steps, i), steps[i], Before(steps, i + 1), r, dk);
    MovesOnTo(steps, s, r, i + 1, |steps|);
    AtEnd(steps, s);
  }

  lemma LateOne(s: State, step: Step, t: State, r: RId, dk: DepKey)
    requires Moves(s, step, t) && step == Resolving(r, LateRecord(dk, true))
    ensures r in t.resolves && dk in t.resolves[r].late
  {
    ResolveAfter(s, step, t, r);
  }

  lemma ScannedAtEnd(steps: seq<Step>, s: State, r: RId, k: L1Key, dk: DepKey, d: nat, cb: nat)
    requires Exec(INIT, steps) == Reached(s) && Completed(steps, r, k) && d < cb < |steps|
    requires Names(steps[d], r, dk) && steps[cb] == Resolving(r, CheckBegin)
    ensures r in s.resolves && s.resolves[r].phase == Checked && s.resolves[r].key == k && dk in s.resolves[r].scanned
  {
    var b :| 0 <= b < |steps| && steps[b] == Resolving(r, Begin(k));
    BeganAs(steps, s, r, k, b);
    var x :| 0 <= x < |steps| && steps[x] == Resolving(r, CheckEnd);
    CheckEndedAt(steps, s, r, x);
    LookedAt(steps, s, r, dk, d, cb, |steps|);
    AtEnd(steps, s);
    ReachableInv(s) by { assert Exec(INIT, steps) == Reached(s); }
    assert ResolveInv(s, s.resolves[r], dk);
  }

  /** The window after the write, told by the schedule. A resolve of k named dk before its check,
      and placed and re-checked dk's edge only after the check had begun. Any event that hits dk,
      appeared after the resolve's read, and has nothing left to do has led to k being scheduled
      after the write, unless k left the store since; provided the checks looked between bumps,
      or this event was not missed. */
  lemma WindowClosed(steps: seq<Step>, s: State, r: RId, k: L1Key, dk: DepKey, read: nat, d: nat, cb: nat, put: nat,
                     i: nat, j: nat, e: EId, v: nat, c: Change, absent: bool)
    requires Exec(INIT, steps) == Reached(s) && Completed(steps, r, k)
    requires FirstRead(steps, r, dk) == Some(read)
    requires d < cb < |steps| && Names(steps[d], r, dk) && steps[cb] == Resolving(r, CheckBegin)
    requires put < |steps| && steps[put].Resolving? && steps[put].r == r && steps[put].act.Put?
    requires Rechecked(steps, r, dk, i, j)
    requires v < |steps| && steps[v] == Announcing(e, Appear(c, absent)) && Hits(c, dk) && read < v
    requires forall move :: !MoveEnabled(s, e, move)
    requires StaysFrom(steps, k, put)
    requires BumpsAtomic(INIT, steps) || (r in s.resolves && (e, dk) !in s.resolves[r].missed)
    ensures At(s.enqueuedAt, k) > put + 1
  {
    ScannedAtEnd(steps, s, r, k, dk, d, cb);
    ReadExactly(steps, s, r, dk);
    LateAt(steps, s, r, dk, i);
    RecheckDone(steps, s, r, dk, i, j, |steps|);
    WroteAt(steps, s, r, put, |steps|);
    AppearedAt(steps, s, e, v, c, absent);
    LeftBefore(steps, s, k, put, |steps|);
    AtEnd(steps, s);
    DoneFannedOut(s, e);
    if BumpsAtomic(INIT, steps) {
      PostPutWindowClosedAtomic(steps, s, r, e, dk);
    } else {
      ReachableInv(s) by { assert Exec(INIT, steps) == Reached(s); }
      PostPutWindowClosed(s, r, e, dk);
    }
  }

  // ---- progress ------------------------------------------------------------------------

  function EventLeft(p: EventPhase): nat {
    match p
    case Visible => 3
    case Advanced => 2
    case Stamping => 1
    case Collecting => 0
  }

  lemma ExecFirst(s: State, step: Step, rest: seq<Step>)
    requires Enabled(s, step)
    ensures Exec(s, [step] + rest) == Exec(Next(s, step), rest)
  {
    assert ([step] + rest)[1..] == rest;
  }

  /** What an event does next, while it has something to do. */
  function NextMove(e: Event, dk: DepKey, k: L1Key): Move {
    match e.phase
    case Visible => Advance
    case Advanced => Floor
    case Stamping => if dk in e.pending then Stamp(dk) else Collect
    case Collecting => if dk in e.pending then Visit(dk) else Mark(k, false)
  }

  lemma MoveGoes(s: State, e: EId, dk: DepKey, k: L1Key)
    requires e in s.events && !FannedOut(s.events[e])
    requires s.events[e].pending != {} ==> dk in s.events[e].pending
    requires s.events[e].marks != {} ==> k in s.events[e].marks
    ensures var move := NextMove(s.events[e], dk, k);
            MoveEnabled(s, e, move) &&
            var was, now := s.events[e], MoveLocal(s, e, move);
            || EventLeft(now.phase) < EventLeft(was.phase)
            || (now.phase == was.phase && |now.pending| < |was.pending|)
            || (now.phase == was.phase && now.pending == was.pending && |now.marks| < |was.marks|)
  {
  }

  /** Whatever else is going on, an event can always run out of moves by itself. */
  lemma {:induction false} EventFinishes(s: State, e: EId) returns (more: seq<Step>)
    requires e in s.events
    ensures forall i | 0 <= i < |more| :: more[i].Announcing? && more[i].e == e
    ensures Exec(s, more).Reached? && e in Exec(s, more).state.events && FannedOut(Exec(s, more).state.events[e])
    decreases EventLeft(s.events[e].phase), |s.events[e].pending|, |s.events[e].marks|
  {
    more := [];
    if !FannedOut(s.events[e]) {
      var v := s.events[e];
      var dk: DepKey :| v.pending != {} ==> dk in v.pending;
      var k: L1Key :| v.marks != {} ==> k in v.marks;
      MoveGoes(s, e, dk, k);
      var step := Announcing(e, NextMove(v, dk, k));
      EventAfter(s, step, Next(s, step), e);
      more := EventFinishes(Next(s, step), e);
      ExecFirst(s, step, more);
      more := [step] + more;
    }
  }

  function NextAct(v: Resolve, dk: DepKey): Act {
    match v.phase
    case Running => Put({})
    case Stored => CheckBegin
    case _ => if dk in v.toScan then Scan(dk) else CheckEnd
  }

  lemma ActGoes(s: State, r: RId, dk: DepKey)
    requires r in s.resolves && s.resolves[r].phase != Checked
    requires s.resolves[r].toScan != {} ==> dk in s.resolves[r].toScan
    ensures var act := NextAct(s.resolves[r], dk);
            ActEnabled(s, r, act) &&
            var was, now := s.resolves[r], ActLocal(s, r, act);
            || Rank(now.phase) > Rank(was.phase)
            || (now.phase == was.phase && |now.toScan| < |was.toScan|)
  {
  }

  /** And a resolve can always write and end its check by itself. */
  lemma {:induction false} ResolveFinishes(s: State, r: RId) returns (more: seq<Step>)
    requires r in s.resolves
    ensures forall i | 0 <= i < |more| :: more[i].Resolving? && more[i].r == r
    ensures Exec(s, more).Reached? && r in Exec(s, more).state.resolves && Exec(s, more).state.resolves[r].phase == Checked
    decreases 3 - Rank(s.resolves[r].phase), |s.resolves[r].toScan|
  {
    more := [];
    if s.resolves[r].phase != Checked {
      var v := s.resolves[r];
      var dk: DepKey :| v.toScan != {} ==> dk in v.toScan;
      ActGoes(s, r, dk);
      var step := Resolving(r, NextAct(v, dk));
      ResolveAfter(s, step, Next(s, step), r);
      more := ResolveFinishes(Next(s, step), r);
      ExecFirst(s, step, more);
      more := [step] + more;
    }
  }
}
