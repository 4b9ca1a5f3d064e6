/** The audit of would-avoid marks: one-shot tokens around avoided enqueues, the pair taken at
    a dequeue, and the verdict every avoid-only refresh ends in. */
module NarrowAudit {
  import opened DepKeys
  import opened ListInterest

  datatype Cell = Cell(token: nat, avoided: bool, tainted: bool)

  const EMPTY_CELL := Cell(0, false, false)

  datatype Snap = Snap(avoided: bool, tainted: bool) {
    predicate AvoidOnly() { avoided && !tainted }
  }

  /** The token that rides one dequeue. */
  datatype Dequeued = Dequeued(snap: Snap, accepted: bool, verdicted: bool)

  datatype Audit = Audit(
    cells: map<L1Key, Cell>,
    open: map<L1Key, Dequeued>,
    samples: nat,
    identical: nat,
    changed: nat,
    noPrior: nat,
    unaudited: nat)

  const EMPTY := Audit(map[], map[], 0, 0, 0, 0, 0)

  function CellOf(a: Audit, k: L1Key): Cell {
    if k in a.cells then a.cells[k] else EMPTY_CELL
  }

  function TokenBegun(a: Audit, k: L1Key): Audit {
    a.(cells := a.cells[k := CellOf(a, k).(token := CellOf(a, k).token + 1)])
  }

  function TokenEnded(a: Audit, k: L1Key): Audit {
    if k in a.cells && a.cells[k].token > 0 then a.(cells := a.cells[k := a.cells[k].(token := a.cells[k].token - 1)]) else a
  }

  /** An enqueue consumes a token, or taints. */
  function Enqueued(a: Audit, k: L1Key): Audit {
    var c := CellOf(a, k);
    a.(cells := a.cells[k := if c.token > 0 then c.(token := c.token - 1, avoided := true) else c.(tainted := true)])
  }

  function SnapOf(a: Audit, k: L1Key): Snap { Snap(CellOf(a, k).avoided, CellOf(a, k).tainted) }

  function Taken(a: Audit, k: L1Key): Audit {
    if k in a.cells then a.(cells := a.cells[k := a.cells[k].(avoided := false, tainted := false)]) else a
  }

  function DequeueOf(a: Audit, k: L1Key): Audit {
    Taken(a, k).(open := a.open[k := Dequeued(SnapOf(a, k), false, false)],
                 samples := a.samples + if SnapOf(a, k).AvoidOnly() then 1 else 0)
  }

  function Restored(a: Audit, k: L1Key, s: Snap): Audit {
    if !s.avoided && !s.tainted then a
    else
      var c := CellOf(a, k);
      a.(cells := a.cells[k := c.(avoided := c.avoided || s.avoided, tainted := c.tainted || s.tainted)])
  }

  function Forgotten(a: Audit, k: L1Key): Audit { a.(cells := a.cells - {k}) }

  /** The refresher's terminal write of the dequeued key: an accepted write of an avoid-only
      refresh is compared with the bytes it replaces, once. */
  function Written(a: Audit, k: L1Key, prior: string, encoded: string, stored: bool): Audit {
    if k !in a.open || !stored then a
    else
      var t := a.open[k];
      if !t.snap.AvoidOnly() || t.verdicted then a.(open := a.open[k := t.(accepted := true)])
      else
        var a1 := a.(open := a.open[k := t.(accepted := true, verdicted := true)]);
        if prior == "" || encoded == "" then a1.(noPrior := a.noPrior + 1)
        else if prior == encoded then a1.(identical := a.identical + 1)
        else a1.(changed := a.changed + 1)
  }

  /** Closing a dequeue: an accepted write consumes the snapshot; otherwise it is restored, or
      forgotten with the cell when the dequeue found no entry. */
  function SettledOf(a: Audit, k: L1Key, hadEntry: bool): Audit {
    if k !in a.open then a
    else
      var t := a.open[k];
      var a1 := a.(open := a.open - {k});
      if t.accepted then a1.(unaudited := a.unaudited + if t.snap.AvoidOnly() && !t.verdicted then 1 else 0)
      else
        var a2 := a1.(unaudited := a.unaudited + if t.snap.AvoidOnly() then 1 else 0);
        if hadEntry then Restored(a2, k, t.snap) else Forgotten(a2, k)
  }

  // ---- runs ----------------------------------------------------------------------------

  datatype Op =
    | TokenBegin(k: L1Key)
    | TokenEnd(k: L1Key)
    | Enqueue(k: L1Key, own: bool)  // own: the enqueue a token was begun for
    | Dequeue(k: L1Key)
    | Write(k: L1Key, prior: string, encoded: string, stored: bool)
    | Settle(k: L1Key, hadEntry: bool)
    | Store(k: L1Key)               // the key becomes resident by a Put off the refresher
    | RemoveKey(k: L1Key)

  /** The audit, and the keys resident in the store. */
  datatype World = World(a: Audit, resident: set<L1Key>)

  function Step(w: World, op: Op): World {
    match op
    case TokenBegin(k) => w.(a := TokenBegun(w.a, k))
    case TokenEnd(k) => w.(a := TokenEnded(w.a, k))
    case Enqueue(k, _) => w.(a := Enqueued(w.a, k))
    case Dequeue(k) => if k in w.a.open then w else w.(a := DequeueOf(w.a, k))
    case Write(k, prior, encoded, stored) =>
      World(Written(w.a, k, prior, encoded, stored), if k in w.a.open && stored then w.resident + {k} else w.resident)
    case Settle(k, hadEntry) => w.(a := SettledOf(w.a, k, hadEntry))
    case Store(k) => w.(resident := w.resident + {k})
    case RemoveKey(k) => World(Forgotten(w.a, k), w.resident - {k})
  }

  function Run(ops: seq<Op>): World {
    if ops == [] then World(EMPTY, {}) else Step(Run(ops[..|ops| - 1]), ops[|ops| - 1])
  }

  // ---- conservation --------------------------------------------------------------------

  /** The avoid-only dequeues still waiting for their verdict. */
  function Waiting(a: Audit): set<L1Key> {
    set k | k in a.open && a.open[k].snap.AvoidOnly() && !a.open[k].verdicted
  }

  function Verdicts(a: Audit): nat { a.identical + a.changed + a.noPrior + a.unaudited }

  predicate Conserved(a: Audit) { a.samples == Verdicts(a) + |Waiting(a)| }

  lemma DequeueConserved(a: Audit, k: L1Key)
    requires Conserved(a) && k !in a.open
    ensures Conserved(DequeueOf(a, k))
  {
    assert Waiting(DequeueOf(a, k)) == if SnapOf(a, k).AvoidOnly() then Waiting(a) + {k} else Waiting(a);
  }

  lemma WriteConserved(a: Audit, k: L1Key, prior: string, encoded: string)
    requires Conserved(a) && k in a.open
    ensures Conserved(Written(a, k, prior, encoded, true))
  {
    assert Waiting(Written(a, k, prior, encoded, true)) == Waiting(a) - {k};
  }

  lemma SettleConserved(a: Audit, k: L1Key, hadEntry: bool)
    requires Conserved(a) && k in a.open && (a.open[k].accepted && a.open[k].snap.AvoidOnly() ==> a.open[k].verdicted)
    requires a.open[k].verdicted ==> a.open[k].accepted
    ensures Conserved(SettledOf(a, k, hadEntry))
  {
    SettledOpen(a, k, hadEntry);
    WaitingClosed(a, SettledOf(a, k, hadEntry), k);
  }

  lemma SettledOpen(a: Audit, k: L1Key, hadEntry: bool)
    requires k in a.open
    ensures SettledOf(a, k, hadEntry).open == a.open - {k}
    ensures SettledOf(a, k, hadEntry).samples == a.samples
  {
  }

  lemma WaitingClosed(a: Audit, b: Audit, k: L1Key)
    requires k in a.open && b.open == a.open - {k}
    ensures Waiting(b) == Waiting(a) - {k}
  {
  }

  /** A verdict is given with the accepted write, and an accepted avoid-only write gives one. */
  predicate VerdictsGiven(a: Audit) {
    forall k | k in a.open :: a.open[k].verdicted <==> a.open[k].accepted && a.open[k].snap.AvoidOnly()
  }

  lemma StepVerdicts(w: World, op: Op)
    requires VerdictsGiven(w.a)
    ensures VerdictsGiven(Step(w, op).a)
  {
  }

  lemma SameOpen(a: Audit, b: Audit)
    requires Conserved(a) && b.open == a.open && b.samples == a.samples && Verdicts(b) == Verdicts(a)
    ensures Conserved(b)
  {
    assert Waiting(b) == Waiting(a);
  }

  lemma StepConserved(w: World, op: Op)
    requires Conserved(w.a) && VerdictsGiven(w.a)
    ensures Conserved(Step(w, op).a)
  {
    match op
    case Dequeue(k) => if k !in w.a.open { DequeueConserved(w.a, k); }
    case Write(k, prior, encoded, stored) => if k in w.a.open && stored { WriteConserved(w.a, k, prior, encoded); }
    case Settle(k, hadEntry) => if k in w.a.open { SettleConserved(w.a, k, hadEntry); }
    case _ => SameOpen(w.a, Step(w, op).a);
  }

  lemma {:induction false} RunVerdicts(ops: seq<Op>)
    ensures VerdictsGiven(Run(ops).a)
    decreases |ops|
  {
    if ops != [] {
      RunVerdicts(ops[..|ops| - 1]);
      StepVerdicts(Run(ops[..|ops| - 1]), ops[|ops| - 1]);
    }
  }

  /** After every run each avoid-only refresh taken is in exactly one verdict, or still waits
      for one. */
  lemma {:induction false} RunConserved(ops: seq<Op>)
    ensures Conserved(Run(ops).a)
    decreases |ops|
  {
    if ops == [] {
      assert Waiting(EMPTY) == {};
    } else {
      RunConserved(ops[..|ops| - 1]);
      RunVerdicts(ops[..|ops| - 1]);
      StepConserved(Run(ops[..|ops| - 1]), ops[|ops| - 1]);
    }
  }

  // ---- taints --------------------------------------------------------------------------

  /** Taints recorded on a key since it became resident and not yet consumed by an accepted
      refresh: since the last dequeue, and before the open one. */
  datatype Owed = Owed(cell: bool, snap: bool)

  predicate Taints(w: World, op: Op, k: L1Key) {
    op.Enqueue? && op.k == k && CellOf(w.a, k).token == 0 && k in w.resident
  }

  function OwedStep(w: World, o: Owed, op: Op, k: L1Key): Owed {
    if Taints(w, op, k) then o.(cell := true)
    else if op == RemoveKey(k) then Owed(false, false)
    else if op == Dequeue(k) && k !in w.a.open then Owed(false, o.cell)
    else if op.Settle? && op.k == k && k in w.a.open then
      if w.a.open[k].accepted then o.(snap := false) else Owed(o.cell || o.snap, false)
    else o
  }

  function OwedOf(ops: seq<Op>, k: L1Key): Owed {
    if ops == [] then Owed(false, false)
    else OwedStep(Run(ops[..|ops| - 1]), OwedOf(ops[..|ops| - 1], k), ops[|ops| - 1], k)
  }

  /** An owed taint is held in the key's cell, or in the open dequeue's snapshot. */
  predicate Held(a: Audit, o: Owed, k: L1Key) {
    && (o.cell ==> CellOf(a, k).tainted)
    && (o.snap ==> k in a.open && a.open[k].snap.tainted)
  }

  /** The settle that drops a taint: the dequeue found no entry and wrote nothing, yet the key
      has become resident since and was tainted. */
  predicate Drops(w: World, o: Owed, op: Op, k: L1Key) {
    op == Settle(k, false) && k in w.a.open && !w.a.open[k].accepted && (o.cell || o.snap)
  }

  /** Every step but that one holds on to an owed taint, and that one loses it. */
  lemma TaintStep(w: World, o: Owed, op: Op, k: L1Key)
    requires Held(w.a, o, k)
    requires o.snap ==> k in w.a.open
    ensures Held(Step(w, op).a, OwedStep(w, o, op, k), k) <==> !Drops(w, o, op, k)
  {
  }

  /** A run keeps every owed taint until a settle drops one. */
  lemma {:induction false} RunHolds(ops: seq<Op>, k: L1Key)
    requires forall i | 0 <= i < |ops| :: !Drops(Run(ops[..i]), OwedOf(ops[..i], k), ops[i], k)
    ensures Held(Run(ops).a, OwedOf(ops, k), k)
    decreases |ops|
  {
    if ops != [] {
      var n := |ops| - 1;
      forall i | 0 <= i < n
        ensures !Drops(Run(ops[..n][..i]), OwedOf(ops[..n][..i], k), ops[..n][i], k)
      {
        assert ops[..n][..i] == ops[..i];
      }
      RunHolds(ops[..n], k);
      TaintStep(Run(ops[..n]), OwedOf(ops[..n], k), ops[n], k);
    }
  }

  /** A run that drops one: the key becomes resident and is tainted while a dequeue that found
      no entry is open. */
  lemma DropWitness(k: L1Key)
    ensures var ops := [Dequeue(k), Store(k), Enqueue(k, false), Settle(k, false)];
            k in Run(ops).resident && OwedOf(ops, k).cell && !Held(Run(ops).a, OwedOf(ops, k), k)
  {
    var ops := [Dequeue(k), Store(k), Enqueue(k, false), Settle(k, false)];
    RunMore(ops[..0], ops[0], k);
    RunMore(ops[..1], ops[1], k);
    assert ops[..1] == ops[..0] + [ops[0]] && ops[..2] == ops[..1] + [ops[1]];
    assert OwedOf(ops[..2], k) == Owed(false, false) && Run(ops[..2]).resident == {k};
    RunMore(ops[..2], ops[2], k);
    assert ops[..3] == ops[..2] + [ops[2]];
    assert OwedOf(ops[..3], k) == Owed(true, false) && k in Run(ops[..3]).a.open;
    RunMore(ops[..3], ops[3], k);
    assert ops == ops[..3] + [ops[3]];
  }

  /** A run and its taint ledger, one operation further. */
  lemma RunMore(ops: seq<Op>, op: Op, k: L1Key)
    ensures Run(ops + [op]) == Step(Run(ops), op)
    ensures OwedOf(ops + [op], k) == OwedStep(Run(ops), OwedOf(ops, k), op, k)
  {
    assert (ops + [op])[..|ops + [op]| - 1] == ops;
  }

  // ---- avoid-only refreshes ------------------------------------------------------------

  /** Whether an operation leaves the key without a cell: it left the store, or a dequeue that
      found no entry and wrote nothing settled. */
  predicate Forgets(w: World, op: Op, k: L1Key) {
    op == RemoveKey(k) || (op == Settle(k, false) && k in w.a.open && !w.a.open[k].accepted)
  }

  /** The tokens a schedule leaves unused: every enqueue and every end takes one if there is
      one. */
  function LevelStep(w: World, level: nat, op: Op, k: L1Key): nat {
    if Forgets(w, op, k) then 0
    else if op == TokenBegin(k) then level + 1
    else if (op == TokenEnd(k) || (op.Enqueue? && op.k == k)) && level > 0 then level - 1
    else level
  }

  function Level(ops: seq<Op>, k: L1Key): nat {
    if ops == [] then 0 else LevelStep(Run(ops[..|ops| - 1]), Level(ops[..|ops| - 1], k), ops[|ops| - 1], k)
  }

  /** What the enqueues of a stretch of the schedule were: some was not the one a token was
      begun for, some met a token, some met none. */
  datatype Met = Met(foreign: bool, token: bool, none: bool) {
    function Or(m: Met): Met { Met(foreign || m.foreign, token || m.token, none || m.none) }
  }

  const NOTHING := Met(false, false, false)

  /** The enqueues since the key's pair was last consumed: after the last dequeue, and before
      the open one. */
  datatype Enqueues = Enqueues(cell: Met, snap: Met)

  function EnqueuesStep(w: World, level: nat, e: Enqueues, op: Op, k: L1Key): Enqueues {
    if op.Enqueue? && op.k == k then e.(cell := e.cell.Or(Met(!op.own, level > 0, level == 0)))
    else if op == RemoveKey(k) then e.(cell := NOTHING)
    else if op == Dequeue(k) && k !in w.a.open then Enqueues(NOTHING, e.cell)
    else if op.Settle? && op.k == k && k in w.a.open then
      if w.a.open[k].accepted then e.(snap := NOTHING)
      else Enqueues(if op.hadEntry then e.cell.Or(e.snap) else NOTHING, NOTHING)
    else e
  }

  function EnqueuesOf(ops: seq<Op>, k: L1Key): Enqueues {
    if ops == [] then Enqueues(NOTHING, NOTHING)
    else
      var init := ops[..|ops| - 1];
      EnqueuesStep(Run(init), Level(init, k), EnqueuesOf(init, k), ops[|ops| - 1], k)
  }

  /** The cell and the open snapshot, read off the schedule. */
  predicate Scheduled(a: Audit, level: nat, e: Enqueues, k: L1Key) {
    && CellOf(a, k) == Cell(level, e.cell.token, e.cell.none)
    && (k in a.open ==> a.open[k].snap == Snap(e.snap.token, e.snap.none))
  }

  lemma ScheduledEnqueue(w: World, level: nat, e: Enqueues, op: Op, k: L1Key)
    requires Scheduled(w.a, level, e, k)
    requires op.Enqueue? || op.TokenBegin? || op.TokenEnd?
    ensures Scheduled(Step(w, op).a, LevelStep(w, level, op, k), EnqueuesStep(w, level, e, op, k), k)
  {
  }

  lemma ScheduledSettle(w: World, level: nat, e: Enqueues, op: Op, k: L1Key)
    requires Scheduled(w.a, level, e, k) && op.Settle?
    ensures Scheduled(Step(w, op).a, LevelStep(w, level, op, k), EnqueuesStep(w, level, e, op, k), k)
  {
  }

  lemma ScheduledStep(w: World, level: nat, e: Enqueues, op: Op, k: L1Key)
    requires Scheduled(w.a, level, e, k)
    ensures Scheduled(Step(w, op).a, LevelStep(w, level, op, k), EnqueuesStep(w, level, e, op, k), k)
  {
    if op.Enqueue? || op.TokenBegin? || op.TokenEnd? {
      ScheduledEnqueue(w, level, e, op, k);
    } else if op.Settle? {
      ScheduledSettle(w, level, e, op, k);
    }
  }

  lemma {:induction false} RunScheduled(ops: seq<Op>, k: L1Key)
    ensures Scheduled(Run(ops).a, Level(ops, k), EnqueuesOf(ops, k), k)
    decreases |ops|
  {
    if ops != [] {
      var init := ops[..|ops| - 1];
      RunScheduled(init, k);
      ScheduledStep(Run(init), Level(init, k), EnqueuesOf(init, k), ops[|ops| - 1], k);
    }
  }

  predicate Spurious(ops: seq<Op>, k: L1Key) {
    k in Run(ops).a.open && Run(ops).a.open[k].snap.AvoidOnly() && EnqueuesOf(ops, k).snap.foreign
  }

  /** Exactly when an open refresh is counted avoid-only although it covers an enqueue that was
      not an avoided mark's own: some enqueue since the pair was last consumed was foreign, and
      every one of them, one at least, met a token. */
  lemma SpuriousExactly(ops: seq<Op>, k: L1Key)
    requires k in Run(ops).a.open
    ensures Spurious(ops, k) <==>
              var m := EnqueuesOf(ops, k).snap; m.foreign && m.token && !m.none
  {
    RunScheduled(ops, k);
  }

  // ---- the counts ----------------------------------------------------------------------

  /** The dequeue in progress, and whether a write of it was stored, read off the schedule. */
  function OpenOf(ops: seq<Op>, k: L1Key): Option<bool> {
    if ops == [] then None
    else
      var o := OpenOf(ops[..|ops| - 1], k);
      match ops[|ops| - 1]
      case Dequeue(x) => if x == k && o.None? then Some(false) else o
      case Write(x, _, _, stored) => if x == k && stored && o.Some? then Some(true) else o
      case Settle(x, _) => if x == k then None else o
      case _ => o
  }

  lemma {:induction false} OpenExactly(ops: seq<Op>, k: L1Key)
    ensures OpenOf(ops, k) == if k in Run(ops).a.open then Some(Run(ops).a.open[k].accepted) else None
    decreases |ops|
  {
    if ops != [] {
      OpenExactly(ops[..|ops| - 1], k);
      OpenStep(Run(ops[..|ops| - 1]), ops[|ops| - 1], k);
    }
  }

  lemma OpenStep(w: World, op: Op, k: L1Key)
    ensures var before := if k in w.a.open then Some(w.a.open[k].accepted) else None;
            (if k in Step(w, op).a.open then Some(Step(w, op).a.open[k].accepted) else None) ==
              match op
              case Dequeue(x) => if x == k && before.None? then Some(false) else before
              case Write(x, _, _, stored) => if x == k && stored && before.Some? then Some(true) else before
              case Settle(x, _) => if x == k then None else before
              case _ => before
  {
  }

  /** All enqueues the open dequeue covers met a token, one at least. */
  predicate CoversAvoidedOnly(ops: seq<Op>, k: L1Key) {
    EnqueuesOf(ops, k).snap.token && !EnqueuesOf(ops, k).snap.none
  }

  datatype Verdict = Identical | WouldChange | NoPrior | Unaudited

  /** The verdict the last operation of a run gives: the first stored write of an avoid-only
      refresh compares the bytes, and a settle without one gives none. */
  function VerdictGiven(init: seq<Op>, op: Op): Option<Verdict> {
    match op
    case Write(k, prior, encoded, stored) =>
      if !stored || OpenOf(init, k) != Some(false) || !CoversAvoidedOnly(init, k) then None
      else if |prior| == 0 || |encoded| == 0 then Some(NoPrior)
      else Some(if prior == encoded then Identical else WouldChange)
    case Settle(k, _) => if OpenOf(init, k) == Some(false) && CoversAvoidedOnly(init, k) then Some(Unaudited) else None
    case _ => None
  }

  function Given(ops: seq<Op>, v: Verdict): nat {
    if ops == [] then 0
    else Given(ops[..|ops| - 1], v) + if VerdictGiven(ops[..|ops| - 1], ops[|ops| - 1]) == Some(v) then 1 else 0
  }

  lemma VerdictStep(w: World, op: Op, given: Option<Verdict>)
    requires VerdictsGiven(w.a)
    requires given == match op
                      case Write(k, prior, encoded, stored) =>
                        if !stored || k !in w.a.open || w.a.open[k].accepted || !w.a.open[k].snap.AvoidOnly() then None
                        else if |prior| == 0 || |encoded| == 0 then Some(NoPrior)
                        else Some(if prior == encoded then Identical else WouldChange)
                      case Settle(k, _) =>
                        if k in w.a.open && !w.a.open[k].accepted && w.a.open[k].snap.AvoidOnly() then Some(Unaudited) else None
                      case _ => None
    ensures Step(w, op).a.identical == w.a.identical + if given == Some(Identical) then 1 else 0
    ensures Step(w, op).a.changed == w.a.changed + if given == Some(WouldChange) then 1 else 0
    ensures Step(w, op).a.noPrior == w.a.noPrior + if given == Some(NoPrior) then 1 else 0
    ensures Step(w, op).a.unaudited == w.a.unaudited + if given == Some(Unaudited) then 1 else 0
  {
  }

  /** Over every run each counter is the number of verdicts of its kind the schedule gives. */
  lemma {:induction false} RunCounts(ops: seq<Op>)
    ensures Run(ops).a.identical == Given(ops, Identical)
    ensures Run(ops).a.changed == Given(ops, WouldChange)
    ensures Run(ops).a.noPrior == Given(ops, NoPrior)
    ensures Run(ops).a.unaudited == Given(ops, Unaudited)
    decreases |ops|
  {
    if ops != [] {
      var init, op := ops[..|ops| - 1], ops[|ops| - 1];
      RunCounts(init);
      RunVerdicts(init);
      if op.Write? || op.Settle? {
        OpenExactly(init, op.k);
        RunScheduled(init, op.k);
      }
      VerdictStep(Run(init), op, VerdictGiven(init, op));
    }
  }

  /** Tokens a foreign enqueue took since the last dequeue and that no own enqueue has missed
      yet. A token given back by its end is not missed by anyone. */
  function BorrowedStep(w: World, level: nat, borrowed: nat, op: Op, k: L1Key): nat {
    if Forgets(w, op, k) || (op == Dequeue(k) && k !in w.a.open) then 0
    else if op == Enqueue(k, false) && level > 0 then borrowed + 1
    else if op == Enqueue(k, true) && level == 0 && borrowed > 0 then borrowed - 1
    else borrowed
  }

  function Borrowed(ops: seq<Op>, k: L1Key): nat {
    if ops == [] then 0
    else
      var init := ops[..|ops| - 1];
      BorrowedStep(Run(init), Level(init, k), Borrowed(init, k), ops[|ops| - 1], k)
  }

  /** Every dequeue comes after the own enqueues have missed the tokens taken from them. */
  ghost predicate PaidBack(ops: seq<Op>, k: L1Key) {
    forall i | 0 <= i < |ops| && ops[i] == Dequeue(k) && k !in Run(ops[..i]).a.open :: Borrowed(ops[..i], k) == 0
  }

  /** A foreign enqueue met no token, or its token is still to be missed. */
  predicate Accounted(e: Enqueues, borrowed: nat) {
    (e.cell.foreign && !e.cell.none ==> borrowed > 0) && (e.snap.foreign ==> e.snap.none)
  }

  lemma AccountedStep(w: World, level: nat, e: Enqueues, borrowed: nat, op: Op, k: L1Key)
    requires Accounted(e, borrowed)
    requires op == Dequeue(k) && k !in w.a.open ==> borrowed == 0
    ensures Accounted(EnqueuesStep(w, level, e, op, k), BorrowedStep(w, level, borrowed, op, k))
  {
  }

  lemma {:induction false} RunAccounted(ops: seq<Op>, k: L1Key)
    requires PaidBack(ops, k)
    ensures Accounted(EnqueuesOf(ops, k), Borrowed(ops, k))
    decreases |ops|
  {
    if ops != [] {
      var n := |ops| - 1;
      assert PaidBack(ops[..n], k) by {
        forall i | 0 <= i < n ensures ops[..n][..i] == ops[..i] {}
      }
      RunAccounted(ops[..n], k);
      AccountedStep(Run(ops[..n]), Level(ops[..n], k), EnqueuesOf(ops[..n], k), Borrowed(ops[..n], k), ops[n], k);
    }
  }

  /** When every token a foreign enqueue took was missed by its own enqueue before the dequeue,
      an avoid-only refresh covers avoided marks only. */
  lemma AvoidOnlyIsGenuine(ops: seq<Op>, k: L1Key)
    requires PaidBack(ops, k)
    ensures !Spurious(ops, k)
  {
    RunAccounted(ops, k);
    if k in Run(ops).a.open { SpuriousExactly(ops, k); }
  }

  /** A run is at a world, a token level and an enqueue ledger. */
  predicate At(ops: seq<Op>, k: L1Key, w: World, level: nat, e: Enqueues) {
    Run(ops) == w && Level(ops, k) == level && EnqueuesOf(ops, k) == e
  }

  lemma AtMore(ops: seq<Op>, op: Op, k: L1Key, w: World, level: nat, e: Enqueues)
    requires At(ops, k, w, level, e)
    ensures At(ops + [op], k, Step(w, op), LevelStep(w, level, op, k), EnqueuesStep(w, level, e, op, k))
  {
    assert (ops + [op])[..|ops + [op]| - 1] == ops;
  }

  predicate SpuriousAt(w: World, e: Enqueues, k: L1Key) {
    k in w.a.open && w.a.open[k].snap.AvoidOnly() && e.snap.foreign
  }

  lemma SpuriousSteps(w: World, level: nat, e: Enqueues, k: L1Key, w1: World, e1: Enqueues, w2: World, e2: Enqueues)
    requires Scheduled(w.a, level, e, k) && k !in w.a.open && !e.cell.none
    requires w1 == Step(w, TokenBegin(k)) && e1 == e
    requires w2 == Step(w1, Enqueue(k, false)) && e2 == EnqueuesStep(w1, level + 1, e1, Enqueue(k, false), k)
    ensures SpuriousAt(Step(w2, Dequeue(k)), EnqueuesStep(w2, level, e2, Dequeue(k), k), k)
  {
  }

  /** How one comes about: another enqueue takes the token, and the dequeue comes before the
      enqueue the token was meant for. Every schedule can go on like this, unless an enqueue
      since the last dequeue met no token. */
  lemma SpuriousAvoidOnly(ops: seq<Op>, k: L1Key) returns (more: seq<Op>)
    requires k !in Run(ops).a.open && !EnqueuesOf(ops, k).cell.none
    ensures more == ops + [TokenBegin(k)] + [Enqueue(k, false)] + [Dequeue(k)] && Spurious(more, k)
  {
    var w, level, e := Run(ops), Level(ops, k), EnqueuesOf(ops, k);
    RunScheduled(ops, k);
    var w1 := Step(w, TokenBegin(k));
    var w2, e2 := Step(w1, Enqueue(k, false)), EnqueuesStep(w1, level + 1, e, Enqueue(k, false), k);
    SpuriousSteps(w, level, e, k, w1, e, w2, e2);
    AtMore(ops, TokenBegin(k), k, w, level, e);
    more := ops + [TokenBegin(k)];
    AtMore(more, Enqueue(k, false), k, w1, level + 1, e);
    more := more + [Enqueue(k, false)];
    AtMore(more, Dequeue(k), k, w2, level, e2);
    more := more + [Dequeue(k)];
  }

  /** The shortest one. */
  lemma SpuriousWitness(k: L1Key)
    ensures Spurious([] + [TokenBegin(k)] + [Enqueue(k, false)] + [Dequeue(k)], k)
  {
    var _ := SpuriousAvoidOnly([], k);
  }

  // ---- the audit as an object ----------------------------------------------------------

  class NarrowAuditor {
    var cells: map<L1Key, Cell>
    var open: map<L1Key, Dequeued>
    var samples: nat
    var identical: nat
    var changed: nat
    var noPrior: nat
    var unaudited: nat

    constructor ()
      ensures View() == EMPTY
    {
      cells, open := map[], map[];
      samples, identical, changed, noPrior, unaudited := 0, 0, 0, 0, 0;
    }

    function View(): Audit
      reads this
    {
      Audit(cells, open, samples, identical, changed, noPrior, unaudited)
    }

    method BeginToken(k: L1Key)
      modifies `cells
      ensures View() == TokenBegun(old(View()), k)
    {
      var c := if k in cells then cells[k] else EMPTY_CELL;
      cells := cells[k := c.(token := c.token + 1)];
    }

    method EndToken(k: L1Key)
      modifies `cells
      ensures View() == TokenEnded(old(View()), k)
    {
      if k in cells {
        var c := cells[k];
        if c.token > 0 {
          cells := cells[k := c.(token := c.token - 1)];
        }
      }
    }

    method OnEnqueue(k: L1Key)
      modifies `cells
      ensures View() == Enqueued(old(View()), k)
    {
      var c := if k in cells then cells[k] else EMPTY_CELL;
      if c.token > 0 {
        c := c.(token := c.token - 1);
        c := c.(avoided := true);
      } else {
        c := c.(tainted := true);
      }
      cells := cells[k := c];
    }

    method Take(k: L1Key) returns (s: Snap)
      modifies `cells
      ensures s == SnapOf(old(View()), k) && View() == Taken(old(View()), k)
    {
      if k !in cells {
        return Snap(false, false);
      }
      var c := cells[k];
      s := Snap(c.avoided, c.tainted);
      cells := cells[k := c.(avoided := false, tainted := false)];
    }

    method Restore(k: L1Key, s: Snap)
      modifies `cells
      ensures View() == Restored(old(View()), k, s)
    {
      if !s.avoided && !s.tainted {
        return;
      }
      var c := if k in cells then cells[k] else EMPTY_CELL;
      c := c.(avoided := c.avoided || s.avoided);
      c := c.(tainted := c.tainted || s.tainted);
      cells := cells[k := c];
    }

    method NarrowAuditDequeue(k: L1Key)
      modifies this
      ensures View() == DequeueOf(old(View()), k)
    {
      var s := Take(k);
      open := open[k := Dequeued(s, false, false)];
      if s.AvoidOnly() {
        samples := samples + 1;
      }
    }

    method NarrowAuditSettle(k: L1Key, hadEntry: bool)
      modifies this
      ensures View() == SettledOf(old(View()), k, hadEntry)
    {
      if k !in open {
        return;
      }
      var t := open[k];
      open := open - {k};
      if t.accepted {
        if t.snap.AvoidOnly() && !t.verdicted {
          unaudited := unaudited + 1;
        }
        return;
      }
      if t.snap.AvoidOnly() {
        unaudited := unaudited + 1;
      }
      if hadEntry {
        Restore(k, t.snap);
        return;
      }
      cells := cells - {k};
    }

    method NoteWrite(k: L1Key, prior: string, encoded: string, stored: bool)
      modifies this
      ensures View() == Written(old(View()), k, prior, encoded, stored)
      ensures var compared := stored && old(k in open && open[k].snap.avoided && !open[k].snap.tainted && !open[k].verdicted);
              && noPrior == old(noPrior) + (if compared && (|prior| == 0 || |encoded| == 0) then 1 else 0)
              && identical == old(identical) + (if compared && |prior| > 0 && prior == encoded then 1 else 0)
              && changed == old(changed) + (if compared && |prior| > 0 && |encoded| > 0 && prior != encoded then 1 else 0)
      ensures cells == old(cells) && samples == old(samples) && unaudited == old(unaudited) && open.Keys == old(open.Keys)
      ensures k in open && stored ==> open[k].accepted
    {
      if k !in open || !stored {
        return;
      }
      var t := open[k];
      open := open[k := t.(accepted := true)];
      if !t.snap.AvoidOnly() || t.verdicted {
        return;
      }
      open := open[k := open[k].(verdicted := true)];
      if prior == "" || encoded == "" {
        noPrior := noPrior + 1;
      } else if prior == encoded {
        identical := identical + 1;
      } else {
        changed := changed + 1;
      }
    }
  }
}
