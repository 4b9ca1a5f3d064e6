/** Runs of the narrowing shadow: records, commits and replays on edges interleaved with
    transitions being submitted, coalesced, taken, given back and decided. Two ledgers, read
    off the run alone, say what each coordinate still owes and what each edge was told; the
    masks and the edge values are proved to agree with them. */
module NarrowRun {
  import opened DepKeys
  import opened ListInterest
  import opened EventMasks

  datatype Coord = Coord(gvr: GVR, namespace: string, name: string)

  /** How often an unknown probe may requeue a coordinate before it is degraded. */
  const MAX_REQUEUES: nat := 5

  datatype Probe = Unknown | Found | Gone

  datatype Shadow = Shadow(
    reg: Registry,
    edges: map<L1Key, DepSet>,
    pending: map<Coord, Mask>,       // merged by the handlers, not yet taken
    held: map<Coord, Option<Mask>>,  // taken by the worker, not yet decided
    requeues: map<Coord, nat>)

  const EMPTY := Shadow(EMPTY_REGISTRY, map[], map[], map[], map[])

  /** What an edge can be told: a record in a mode, a read set committed at the end of a clean
      resolve, or a widening. */
  datatype Notice = Recorded(mode: RecordMode) | Reads(rs: set<Read>) | WidenNotice

  datatype Op =
    | Tell(k: L1Key, dk: DepKey, n: Notice)
    | InternFor(g: GVR, rs: set<Read>)  // a commit before its swap, which it may lose
    | Replay(k: L1Key, dk: DepKey, producer: Option<Interest>)
    | Remove(k: L1Key)
    | Submit(c: Coord, t: Transition)
    | Take(c: Coord)
    | Process(c: Coord, probe: Probe)
    | Panic(c: Coord)

  function DepSetOf(s: Shadow, k: L1Key): Option<DepSet> {
    if k in s.edges then Some(s.edges[k]) else None
  }

  function EdgeOf(s: Shadow, k: L1Key, dk: DepKey): Option<EdgeValue> {
    if k in s.edges && dk in s.edges[k] then Some(s.edges[k][dk]) else None
  }

  function WithEdge(s: Shadow, k: L1Key, dk: DepKey, v: EdgeValue): Shadow {
    s.(edges := s.edges[k := (if k in s.edges then s.edges[k] else map[])[dk := v]])
  }

  function PendingOf(s: Shadow, c: Coord): Option<Mask> {
    if c in s.pending then Some(s.pending[c]) else None
  }

  function WithPending(s: Shadow, c: Coord, m: Option<Mask>): Shadow {
    if m.None? then s.(pending := s.pending - {c}) else s.(pending := s.pending[c := m.value])
  }

  function RequeuesOf(s: Shadow, c: Coord): nat {
    if c in s.requeues then s.requeues[c] else 0
  }

  function ListOf(s: Shadow, g: GVR): seq<Interest> { Listed(s.reg, g).list }

  // ---- steps ---------------------------------------------------------------------------

  /** The value an existing edge takes when it is told something. */
  function AfterNotice(reg: Registry, v: EdgeValue, dk: DepKey, n: Notice): EdgeValue {
    match n
    case Recorded(mode) => ReRecorded(v, dk, mode)
    case Reads(rs) => Committed(reg, v, dk.gvr, rs)
    case WidenNotice => Widened(v)
  }

  function RegistryAfter(reg: Registry, v: EdgeValue, dk: DepKey, n: Notice): Registry {
    if n.Reads? then CommittedRegistry(reg, v, dk.gvr, n.rs) else reg
  }

  /** Records create edges; commits and widenings reach existing list edges only. */
  function Telling(s: Shadow, k: L1Key, dk: DepKey, n: Notice): Shadow {
    match EdgeOf(s, k, dk)
    case None => if n.Recorded? then WithEdge(s, k, dk, InitialValue(dk, n.mode)) else s
    case Some(v) =>
      if !dk.IsList() && !n.Recorded? then s
      else WithEdge(s, k, dk, AfterNotice(s.reg, v, dk, n)).(reg := RegistryAfter(s.reg, v, dk, n))
  }

  /** A replayed list edge takes the producer's read set when the producer was narrowed; any
      other producer state replays as a plain record. */
  function Replaying(s: Shadow, k: L1Key, dk: DepKey, producer: Option<Interest>): Shadow {
    match producer
    case None => Telling(s, k, dk, Recorded(RecordPlain))
    case Some(li) => Telling(Telling(s, k, dk, Recorded(RecordNarrowable)), k, dk, Reads(li.readSet))
  }

  /** The worker is done with a taken coordinate: an unknown probe gives the mask back while
      the requeue budget lasts; otherwise the decision is taken and the mask consumed. */
  function Processed(s: Shadow, c: Coord, probe: Probe): Shadow
    requires c in s.held
  {
    var s1 := s.(held := s.held - {c});
    if GivesBack(s, c, probe)
    then WithPending(s1, c, MergeInto(PendingOf(s, c), s.held[c])).(requeues := s.requeues[c := RequeuesOf(s, c) + 1])
    else s1.(requeues := s.requeues - {c})
  }

  predicate GivesBack(s: Shadow, c: Coord, probe: Probe) {
    probe.Unknown? && RequeuesOf(s, c) < MAX_REQUEUES
  }

  /** The state a decision is taken in: an unknown probe past its budget is degraded. */
  function DecisionState(probe: Probe): ObjectState {
    match probe
    case Unknown => Degraded
    case Found => Exists
    case Gone => Absent
  }

  function Apply(s: Shadow, op: Op): Shadow {
    match op
    case Tell(k, dk, n) => Telling(s, k, dk, n)
    case Replay(k, dk, producer) => if dk.IsList() then Replaying(s, k, dk, producer) else s
    case InternFor(g, rs) => s.(reg := Intern(s.reg, g, rs))
    case Remove(k) => s.(edges := s.edges - {k})
    case Submit(c, t) =>
      if !Evaluable(ListOf(s, c.gvr), t) then s
      else WithPending(s, c, MergeInto(PendingOf(s, c), Some(MaskOf(ListOf(s, c.gvr), t))))
    case Take(c) =>
      if c in s.held then s else WithPending(s, c, None).(held := s.held[c := PendingOf(s, c)])
    case Process(c, probe) => if c in s.held then Processed(s, c, probe) else s
    case Panic(c) => s.(held := s.held - {c}, requeues := s.requeues - {c})
  }

  function Run(ops: seq<Op>): Shadow {
    if ops == [] then EMPTY else Apply(Run(ops[..|ops| - 1]), ops[|ops| - 1])
  }

  // ---- the registry over a run ---------------------------------------------------------

  predicate OnlyEdges(s: Shadow, s': Shadow) {
    s'.pending == s.pending && s'.held == s.held && s'.requeues == s.requeues
  }

  ghost predicate RegistryStep(reg: Registry, reg': Registry) {
    RegistryOk(reg') && Grows(reg, reg') && reg.count <= reg'.count
  }

  lemma InternSteps(reg: Registry, g: GVR, rs: set<Read>)
    requires RegistryOk(reg)
    ensures RegistryStep(reg, Intern(reg, g, rs))
  {
    InternOk(reg, g, rs);
  }

  /** What telling an edge something does to the registry, and what it leaves alone. */
  lemma TellingFrame(s: Shadow, k: L1Key, dk: DepKey, n: Notice)
    ensures OnlyEdges(s, Telling(s, k, dk, n))
    ensures forall x, d | x != k || d != dk :: EdgeOf(Telling(s, k, dk, n), x, d) == EdgeOf(s, x, d)
    ensures Telling(s, k, dk, n).reg == s.reg
            || (n.Reads? && EdgeOf(s, k, dk).Some?
                && Telling(s, k, dk, n).reg == Intern(s.reg, dk.gvr, Wanted(EdgeOf(s, k, dk).value, n.rs)))
  {
  }

  lemma TellingRegistry(s: Shadow, k: L1Key, dk: DepKey, n: Notice)
    requires RegistryOk(s.reg)
    ensures RegistryStep(s.reg, Telling(s, k, dk, n).reg) && OnlyEdges(s, Telling(s, k, dk, n))
  {
    var reg' := Telling(s, k, dk, n).reg;
    TellingFrame(s, k, dk, n);
    if reg' != s.reg { InternSteps(s.reg, dk.gvr, Wanted(EdgeOf(s, k, dk).value, n.rs)); }
  }

  lemma ReplayingRegistry(s: Shadow, k: L1Key, dk: DepKey, producer: Option<Interest>)
    requires RegistryOk(s.reg)
    ensures RegistryStep(s.reg, Replaying(s, k, dk, producer).reg) && OnlyEdges(s, Replaying(s, k, dk, producer))
  {
    match producer
    case None => TellingRegistry(s, k, dk, Recorded(RecordPlain));
    case Some(li) =>
      TellingRegistry(s, k, dk, Recorded(RecordNarrowable));
      TellingRegistry(Telling(s, k, dk, Recorded(RecordNarrowable)), k, dk, Reads(li.readSet));
  }

  predicate TouchesEdges(op: Op) { op.Tell? || op.InternFor? || op.Replay? || op.Remove? }

  lemma MaskStepFrame(s: Shadow, op: Op)
    requires !TouchesEdges(op)
    ensures Apply(s, op).edges == s.edges && Apply(s, op).reg == s.reg
  {
  }

  lemma StaysStep(reg: Registry)
    requires RegistryOk(reg)
    ensures RegistryStep(reg, reg)
  {
  }

  lemma EdgeOpRegistry(s: Shadow, op: Op)
    requires RegistryOk(s.reg) && TouchesEdges(op)
    ensures RegistryStep(s.reg, Apply(s, op).reg) && OnlyEdges(s, Apply(s, op))
  {
    match op
    case Tell(k, dk, n) => TellingRegistry(s, k, dk, n);
    case InternFor(g, rs) => InternSteps(s.reg, g, rs);
    case Replay(k, dk, producer) => if dk.IsList() { ReplayingRegistry(s, k, dk, producer); } else { StaysStep(s.reg); }
    case Remove(_) => StaysStep(s.reg);
  }

  lemma StepRegistry(s: Shadow, op: Op)
    requires RegistryOk(s.reg)
    ensures RegistryStep(s.reg, Apply(s, op).reg)
    ensures TouchesEdges(op) ==> OnlyEdges(s, Apply(s, op))
  {
    StaysStep(s.reg);
    if TouchesEdges(op) { EdgeOpRegistry(s, op); } else { MaskStepFrame(s, op); }
  }

  /** After every run the registry is well formed and within its process-wide bound. */
  lemma {:induction false} RunRegistry(ops: seq<Op>)
    ensures RegistryOk(Run(ops).reg)
    ensures Run(ops).reg.count <= MAX_LIST_INTERESTS
    decreases |ops|
  {
    if ops != [] {
      RunRegistry(ops[..|ops| - 1]);
      StepRegistry(Run(ops[..|ops| - 1]), ops[|ops| - 1]);
    }
  }

  lemma {:induction false} RunGrows(ops: seq<Op>, more: seq<Op>)
    ensures RegistryStep(Run(ops).reg, Run(ops + more).reg)
    decreases |more|
  {
    if more == [] {
      assert ops + more == ops;
      RunRegistry(ops);
    } else {
      var init := more[..|more| - 1];
      assert (ops + more)[..|ops + more| - 1] == ops + init;
      RunGrows(ops, init);
      StepRegistry(Run(ops + init), more[|more| - 1]);
    }
  }

  /** What a commit found in the registry it finds there for good: its interest, or no room. */
  lemma InternedForGood(older: Registry, newer: Registry, g: GVR, rs: set<Read>)
    requires RegistryOk(older) && RegistryOk(newer)
    requires Grows(Intern(older, g, rs), newer) && Intern(older, g, rs).count <= newer.count
    ensures Interned(newer, g, rs) == Interned(older, g, rs) && Intern(newer, g, rs) == newer
  {
    var mid := Intern(older, g, rs);
    InternOk(older, g, rs);
    forall key | key in mid.byKey ensures key in newer.byKey && newer.byKey[key] == mid.byKey[key] {
      assert KeyOk(mid, key);
      RegisteredGrows(mid, newer, mid.byKey[key]);
      assert ListOk(newer, key.0);
    }
    if (g, rs) !in mid.byKey {
      assert mid.byKey.Keys <= newer.byKey.Keys;
      SameKeys(mid.byKey.Keys, newer.byKey.Keys);
    }
  }

  lemma SameKeys<T>(a: set<T>, b: set<T>)
    requires a <= b && |a| == |b|
    ensures a == b
  {
    if x :| x in b && x !in a {
      assert a <= b - {x};
      SubsetSize(a, b - {x});
    }
  }

  lemma {:induction false} SubsetSize<T>(a: set<T>, b: set<T>)
    requires a <= b
    ensures |a| <= |b|
    decreases a
  {
    if x :| x in a { SubsetSize(a - {x}, b - {x}); }
  }

  lemma SwapIsCommit(s: Shadow, k: L1Key, dk: DepKey, seen: EdgeValue, rs: set<Read>)
    requires dk.IsList() && (seen.Pending? || seen.Narrowed?) && EdgeOf(s, k, dk) == Some(seen)
    requires Intern(s.reg, dk.gvr, Wanted(seen, rs)) == s.reg
    ensures Telling(s, k, dk, Reads(rs)) ==
              WithEdge(s, k, dk, match Interned(s.reg, dk.gvr, Wanted(seen, rs)) case Some(li) => Narrowed(li) case None => All)
  {
  }

  /** A commit loads the edge, interns, then swaps, and whatever runs in between, a swap that
      finds the edge as it was loaded is the whole commit as one step at the swap. */
  lemma CommitAtSwap(ops: seq<Op>, more: seq<Op>, k: L1Key, dk: DepKey, seen: EdgeValue, rs: set<Read>)
    requires dk.IsList() && (seen.Pending? || seen.Narrowed?)
    requires EdgeOf(Run(ops + [InternFor(dk.gvr, Wanted(seen, rs))] + more), k, dk) == Some(seen)
    ensures var s := Run(ops + [InternFor(dk.gvr, Wanted(seen, rs))] + more);
            Apply(s, Tell(k, dk, Reads(rs))) ==
              WithEdge(s, k, dk, match Interned(Run(ops).reg, dk.gvr, Wanted(seen, rs)) case Some(li) => Narrowed(li) case None => All)
  {
    var want := Wanted(seen, rs);
    var mid := ops + [InternFor(dk.gvr, want)];
    assert mid[..|mid| - 1] == ops;
    assert Run(mid).reg == Intern(Run(ops).reg, dk.gvr, want);
    RunRegistry(ops);
    RunGrows(mid, more);
    InternedForGood(Run(ops).reg, Run(mid + more).reg, dk.gvr, want);
    SwapIsCommit(Run(mid + more), k, dk, seen, rs);
  }

  // ---- what a coordinate owes ----------------------------------------------------------

  /** Transitions submitted and not yet consumed by a decision: waiting, or with the worker. */
  datatype Owed = Owed(waiting: seq<Transition>, taken: Option<seq<Transition>>)

  function OwedStep(s: Shadow, o: Owed, op: Op, c: Coord): Owed {
    match op
    case Submit(d, t) => if d == c && Evaluable(ListOf(s, c.gvr), t) then o.(waiting := o.waiting + [t]) else o
    case Take(d) => if d == c && o.taken.None? then Owed([], Some(o.waiting)) else o
    case Process(d, probe) =>
      if d != c || o.taken.None? then o
      else if GivesBack(s, c, probe) then Owed(o.taken.value + o.waiting, None)
      else o.(taken := None)
    case Panic(d) => if d == c then o.(taken := None) else o
    case _ => o
  }

  function OwedOf(ops: seq<Op>, c: Coord): Owed {
    if ops == [] then Owed([], None)
    else OwedStep(Run(ops[..|ops| - 1]), OwedOf(ops[..|ops| - 1], c), ops[|ops| - 1], c)
  }

  /** The masks of a coordinate are the coalesced masks of what it owes. */
  predicate MasksAgree(s: Shadow, o: Owed, c: Coord) {
    var list := ListOf(s, c.gvr);
    && AllEvaluable(list, o.waiting) && PendingOf(s, c) == Coalesced(list, o.waiting)
    && (c in s.held <==> o.taken.Some?)
    && (o.taken.Some? ==> AllEvaluable(list, o.taken.value) && s.held[c] == Coalesced(list, o.taken.value))
  }

  lemma MasksGrow(s: Shadow, s': Shadow, o: Owed, c: Coord)
    requires MasksAgree(s, o, c)
    requires ListOf(s, c.gvr) <= ListOf(s', c.gvr) && s'.pending == s.pending && s'.held == s.held
    ensures MasksAgree(s', o, c)
  {
    CoalescedGrows(ListOf(s, c.gvr), ListOf(s', c.gvr), o.waiting);
    if o.taken.Some? { CoalescedGrows(ListOf(s, c.gvr), ListOf(s', c.gvr), o.taken.value); }
  }

  lemma SubmitMasks(s: Shadow, o: Owed, d: Coord, t: Transition, c: Coord)
    requires MasksAgree(s, o, c)
    ensures MasksAgree(Apply(s, Submit(d, t)), OwedStep(s, o, Submit(d, t), c), c)
  {
    if d == c && Evaluable(ListOf(s, c.gvr), t) { CoalescedMore(ListOf(s, c.gvr), o.waiting, t); }
  }

  lemma ProcessMasks(s: Shadow, o: Owed, d: Coord, probe: Probe, c: Coord)
    requires MasksAgree(s, o, c)
    ensures MasksAgree(Apply(s, Process(d, probe)), OwedStep(s, o, Process(d, probe), c), c)
  {
    if d == c && c in s.held && GivesBack(s, c, probe) {
      CoalescedJoin(ListOf(s, c.gvr), o.taken.value, o.waiting);
    }
  }

  lemma StepMasks(s: Shadow, o: Owed, op: Op, c: Coord)
    requires RegistryOk(s.reg) && MasksAgree(s, o, c)
    ensures MasksAgree(Apply(s, op), OwedStep(s, o, op, c), c)
  {
    if TouchesEdges(op) {
      StepRegistry(s, op);
      MasksGrow(s, Apply(s, op), o, c);
    } else {
      MaskOps(s, o, op, c);
    }
  }

  lemma MaskOps(s: Shadow, o: Owed, op: Op, c: Coord)
    requires MasksAgree(s, o, c) && !TouchesEdges(op)
    ensures MasksAgree(Apply(s, op), OwedStep(s, o, op, c), c)
  {
    match op
    case Submit(d, t) => SubmitMasks(s, o, d, t, c);
    case Process(d, probe) => ProcessMasks(s, o, d, probe, c);
    case Take(_) =>
    case Panic(_) =>
  }

  lemma {:induction false} RunMasks(ops: seq<Op>, c: Coord)
    ensures MasksAgree(Run(ops), OwedOf(ops, c), c)
    decreases |ops|
  {
    if ops != [] {
      RunMasks(ops[..|ops| - 1], c);
      RunRegistry(ops[..|ops| - 1]);
      StepMasks(Run(ops[..|ops| - 1]), OwedOf(ops[..|ops| - 1], c), ops[|ops| - 1], c);
    }
  }

  /** How often a coordinate was given back since its last decision: five times in a row at most,
      and a panic or a decision starts over. */
  function Retries(ops: seq<Op>, c: Coord): nat {
    if ops == [] then 0
    else
      var n := Retries(ops[..|ops| - 1], c);
      match ops[|ops| - 1]
      case Process(d, probe) =>
        if d != c || OwedOf(ops[..|ops| - 1], c).taken == None then n
        else if probe == Unknown && n < 5 then n + 1 else 0
      case Panic(d) => if d == c then 0 else n
      case _ => n
  }

  lemma RequeuesStep(s: Shadow, op: Op, c: Coord)
    ensures (if c in Apply(s, op).requeues then Apply(s, op).requeues[c] else 0) ==
              match op
              case Process(d, probe) =>
                if d != c || c !in s.held then RequeuesOf(s, c)
                else if probe == Unknown && RequeuesOf(s, c) < 5 then RequeuesOf(s, c) + 1 else 0
              case Panic(d) => if d == c then 0 else RequeuesOf(s, c)
              case _ => RequeuesOf(s, c)
  {
  }

  /** Over every run the requeue budget counts the give-backs since the last decision. */
  lemma {:induction false} RequeuesExactly(ops: seq<Op>, c: Coord)
    ensures (if c in Run(ops).requeues then Run(ops).requeues[c] else 0) == Retries(ops, c) <= 5
    decreases |ops|
  {
    if ops != [] {
      var init, op := ops[..|ops| - 1], ops[|ops| - 1];
      RequeuesExactly(init, c);
      RunMasks(init, c);
      RequeuesStep(Run(init), op, c);
    }
  }

  /** What is owed goes back to waiting exactly while the budget lasts, ahead of what came
      meanwhile; any other probe consumes it. */
  lemma OwedAfterProbe(ops: seq<Op>, c: Coord, probe: Probe)
    requires OwedOf(ops, c).taken.Some?
    ensures var o := OwedOf(ops, c);
            OwedOf(ops + [Process(c, probe)], c) ==
              if probe == Unknown && Retries(ops, c) < 5 then Owed(o.taken.value + o.waiting, None) else Owed(o.waiting, None)
  {
    assert (ops + [Process(c, probe)])[..|ops|] == ops;
    RequeuesExactly(ops, c);
  }

  // ---- what an edge was told -----------------------------------------------------------

  function Told(log: Option<seq<Notice>>, n: Notice): Option<seq<Notice>> {
    match log
    case None => if n.Recorded? then Some([n]) else None
    case Some(l) => Some(l + [n])
  }

  function ToldStep(log: Option<seq<Notice>>, op: Op, k: L1Key, dk: DepKey): Option<seq<Notice>> {
    match op
    case Tell(x, d, n) => if x == k && d == dk then Told(log, n) else log
    case Replay(x, d, producer) =>
      if x != k || d != dk || !d.IsList() then log
      else
        (match producer
         case None => Told(log, Recorded(RecordPlain))
         case Some(li) => Told(Told(log, Recorded(RecordNarrowable)), Reads(li.readSet)))
    case Remove(x) => if x == k then None else log
    case _ => log
  }

  /** Everything an edge was told since it was created; none while it is absent. */
  function ToldOf(ops: seq<Op>, k: L1Key, dk: DepKey): Option<seq<Notice>> {
    if ops == [] then None else ToldStep(ToldOf(ops[..|ops| - 1], k, dk), ops[|ops| - 1], k, dk)
  }

  predicate WidenedIn(log: seq<Notice>) {
    Recorded(RecordPlain) in log || WidenNotice in log
  }

  predicate CommittedIn(log: seq<Notice>) {
    exists n | n in log :: n.Reads?
  }

  function ReadsIn(log: seq<Notice>): set<Read> {
    set n, r | n in log && n.Reads? && r in n.rs :: r
  }

  /** Some commit asked, together with the reads before it, for a set that is not registered. */
  ghost predicate Refused(reg: Registry, log: seq<Notice>, g: GVR) {
    exists i: nat | i < |log| :: log[i].Reads? && (g, ReadsIn(log[..i + 1])) !in reg.byKey
  }

  /** What an edge's value says about its log, and the other way round: a commit is refused only
      by a full registry, which stays as it is. */
  ghost predicate Explained(reg: Registry, v: EdgeValue, log: seq<Notice>, g: GVR) {
    && log != []
    && (v.Sticky? <==> log[0] == Recorded(RecordPlain))
    && (v.Pending? ==> !WidenedIn(log) && !CommittedIn(log))
    && (v.Narrowed? ==> !WidenedIn(log) && CommittedIn(log) && v.li.readSet == ReadsIn(log)
                        && v.li.gvr == g && Registered(reg, v.li))
    && (v.All? <==> log[0] != Recorded(RecordPlain) && (WidenedIn(log) || Refused(reg, log, g)))
    && (Refused(reg, log, g) && !WidenedIn(log) ==> reg.count >= 4096)
  }

  lemma RefusedMore(reg: Registry, log: seq<Notice>, n: Notice, g: GVR)
    ensures Refused(reg, log + [n], g) <==> Refused(reg, log, g) || (n.Reads? && (g, ReadsIn(log + [n])) !in reg.byKey)
  {
    var now := log + [n];
    assert now[..|now|] == now && now[|log|] == n;
    forall i: nat | i < |log| ensures now[i] == log[i] && now[..i + 1] == log[..i + 1] {}
    if Refused(reg, log, g) {
      var i: nat :| i < |log| && log[i].Reads? && (g, ReadsIn(log[..i + 1])) !in reg.byKey;
      assert now[i].Reads? && (g, ReadsIn(now[..i + 1])) !in reg.byKey;
    }
    if n.Reads? && (g, ReadsIn(now)) !in reg.byKey {
      assert now[|log|].Reads? && (g, ReadsIn(now[..|log| + 1])) !in reg.byKey;
    }
  }

  /** The registry keeps what it has, and a full one stays as it is. */
  predicate Keeps(reg: Registry, reg': Registry) {
    reg.byKey.Keys <= reg'.byKey.Keys && (reg.count >= 4096 ==> reg' == reg)
  }

  lemma RefusedKeeps(reg: Registry, reg': Registry, log: seq<Notice>, g: GVR)
    requires Keeps(reg, reg')
    ensures Refused(reg', log, g) ==> Refused(reg, log, g)
    ensures reg.count >= 4096 && Refused(reg, log, g) ==> Refused(reg', log, g)
  {
    if Refused(reg', log, g) {
      var i: nat :| i < |log| && log[i].Reads? && (g, ReadsIn(log[..i + 1])) !in reg'.byKey;
      assert log[i].Reads? && (g, ReadsIn(log[..i + 1])) !in reg.byKey;
    }
  }

  lemma ToldMeaning(log: seq<Notice>, n: Notice)
    ensures WidenedIn(log + [n]) <==> WidenedIn(log) || n == Recorded(RecordPlain) || n == WidenNotice
    ensures CommittedIn(log + [n]) <==> CommittedIn(log) || n.Reads?
    ensures ReadsIn(log + [n]) == ReadsIn(log) + if n.Reads? then n.rs else {}
  {
    assert forall m :: m in log + [n] <==> m in log || m == n;
    if CommittedIn(log) {
      var m :| m in log && m.Reads?;
      assert m in log + [n];
    }
    if n.Reads? { assert n in log + [n]; }
  }

  lemma ExplainedNotice(reg: Registry, v: EdgeValue, log: seq<Notice>, dk: DepKey, n: Notice)
    requires dk.IsList() && Explained(reg, v, log, dk.gvr)
    requires n.Reads? ==> ListOk(reg, dk.gvr)
    requires n.Reads? ==> (dk.gvr, Wanted(v, n.rs)) in reg.byKey ==> KeyOk(reg, (dk.gvr, Wanted(v, n.rs)))
    ensures Explained(RegistryAfter(reg, v, dk, n), AfterNotice(reg, v, dk, n), log + [n], dk.gvr)
  {
    ToldMeaning(log, n);
    var reg' := RegistryAfter(reg, v, dk, n);
    assert Keeps(reg, reg');
    RefusedMore(reg', log, n, dk.gvr);
    RefusedKeeps(reg, reg', log, dk.gvr);
    if n.Reads? && (v.Pending? || v.Narrowed?) {
      InternAnswers(reg, dk.gvr, Wanted(v, n.rs));
      if v.Pending? { assert ReadsIn(log) == {}; }
      assert Wanted(v, n.rs) == ReadsIn(log + [n]);
    }
  }

  lemma ExplainedGrows(reg: Registry, reg': Registry, v: EdgeValue, log: seq<Notice>, g: GVR)
    requires Explained(reg, v, log, g)
    requires Listed(reg, g).list <= Listed(reg', g).list && Keeps(reg, reg')
    ensures Explained(reg', v, log, g)
  {
    RefusedKeeps(reg, reg', log, g);
  }

  ghost predicate EdgeAgrees(s: Shadow, log: Option<seq<Notice>>, k: L1Key, dk: DepKey) {
    var v := EdgeOf(s, k, dk);
    && (v.Some? <==> log.Some?)
    && (v.Some? && dk.IsList() ==> Explained(s.reg, v.value, log.value, dk.gvr))
    && (v.Some? && !dk.IsList() ==> v.value == Sticky)
  }

  lemma TellingOwn(s: Shadow, log: Option<seq<Notice>>, n: Notice, k: L1Key, dk: DepKey)
    requires EdgeAgrees(s, log, k, dk)
    requires n.Reads? ==> RegistryOk(s.reg)
    ensures EdgeAgrees(Telling(s, k, dk, n), Told(log, n), k, dk)
  {
    if log.Some? && dk.IsList() { ExplainedNotice(s.reg, EdgeOf(s, k, dk).value, log.value, dk, n); }
  }

  lemma TellingOther(s: Shadow, log: Option<seq<Notice>>, x: L1Key, d: DepKey, n: Notice, k: L1Key, dk: DepKey)
    requires RegistryOk(s.reg) && EdgeAgrees(s, log, k, dk)
    requires x != k || d != dk
    ensures EdgeAgrees(Telling(s, x, d, n), log, k, dk)
  {
    var reg' := Telling(s, x, d, n).reg;
    TellingFrame(s, x, d, n);
    TellingRegistry(s, x, d, n);
    if log.Some? && dk.IsList() {
      assert Listed(s.reg, dk.gvr).list <= Listed(reg', dk.gvr).list;
      ExplainedGrows(s.reg, reg', EdgeOf(s, k, dk).value, log.value, dk.gvr);
    }
  }

  lemma TellingAgrees(s: Shadow, log: Option<seq<Notice>>, x: L1Key, d: DepKey, n: Notice, k: L1Key, dk: DepKey)
    requires RegistryOk(s.reg) && EdgeAgrees(s, log, k, dk)
    ensures EdgeAgrees(Telling(s, x, d, n), if x == k && d == dk then Told(log, n) else log, k, dk)
  {
    if x == k && d == dk {
      TellingOwn(s, log, n, k, dk);
    } else {
      TellingOther(s, log, x, d, n, k, dk);
    }
  }

  lemma ReplayAgrees(s: Shadow, log: Option<seq<Notice>>, x: L1Key, d: DepKey, producer: Option<Interest>, k: L1Key, dk: DepKey)
    requires RegistryOk(s.reg) && EdgeAgrees(s, log, k, dk) && d.IsList()
    ensures EdgeAgrees(Replaying(s, x, d, producer), ToldStep(log, Replay(x, d, producer), k, dk), k, dk)
  {
    match producer
    case None => TellingAgrees(s, log, x, d, Recorded(RecordPlain), k, dk);
    case Some(li) =>
      TellingRegistry(s, x, d, Recorded(RecordNarrowable));
      TellingAgrees(s, log, x, d, Recorded(RecordNarrowable), k, dk);
      var s1 := Telling(s, x, d, Recorded(RecordNarrowable));
      TellingAgrees(s1, if x == k && d == dk then Told(log, Recorded(RecordNarrowable)) else log, x, d, Reads(li.readSet), k, dk);
  }

  lemma InternAgrees(s: Shadow, log: Option<seq<Notice>>, g: GVR, rs: set<Read>, k: L1Key, dk: DepKey)
    requires RegistryOk(s.reg) && EdgeAgrees(s, log, k, dk)
    ensures EdgeAgrees(s.(reg := Intern(s.reg, g, rs)), log, k, dk)
  {
    InternSteps(s.reg, g, rs);
    if log.Some? && dk.IsList() { ExplainedGrows(s.reg, Intern(s.reg, g, rs), EdgeOf(s, k, dk).value, log.value, dk.gvr); }
  }

  lemma QuietAgrees(s: Shadow, log: Option<seq<Notice>>, op: Op, k: L1Key, dk: DepKey)
    requires EdgeAgrees(s, log, k, dk) && !TouchesEdges(op)
    ensures EdgeAgrees(Apply(s, op), ToldStep(log, op, k, dk), k, dk)
  {
    MaskStepFrame(s, op);
  }

  lemma StepEdges(s: Shadow, log: Option<seq<Notice>>, op: Op, k: L1Key, dk: DepKey)
    requires RegistryOk(s.reg) && EdgeAgrees(s, log, k, dk)
    ensures EdgeAgrees(Apply(s, op), ToldStep(log, op, k, dk), k, dk)
  {
    match op
    case Tell(x, d, n) => TellingAgrees(s, log, x, d, n, k, dk);
    case Replay(x, d, producer) => if d.IsList() { ReplayAgrees(s, log, x, d, producer, k, dk); }
    case InternFor(g, rs) => InternAgrees(s, log, g, rs, k, dk);
    case Remove(_) =>
    case _ => QuietAgrees(s, log, op, k, dk);
  }

  /** Every edge is what it was told since it was created. A list edge is narrowed to exactly the
      union of the committed and replayed read sets, pending before any, and all if and only if,
      not sticky from the start, it was recorded plainly, widened or refused; any other edge is
      sticky for good. */
  lemma {:induction false} RunEdges(ops: seq<Op>, k: L1Key, dk: DepKey)
    ensures EdgeAgrees(Run(ops), ToldOf(ops, k, dk), k, dk)
    decreases |ops|
  {
    if ops != [] {
      RunEdges(ops[..|ops| - 1], k, dk);
      RunRegistry(ops[..|ops| - 1]);
      StepEdges(Run(ops[..|ops| - 1]), ToldOf(ops[..|ops| - 1], k, dk), ops[|ops| - 1], k, dk);
    }
  }

  // ---- edges only widen ----------------------------------------------------------------

  predicate Removes(op: Op, k: L1Key) { op == Remove(k) }

  /** Telling an edge anything takes it up the order and keeps its GVR. */
  lemma NoticeClimbs(reg: Registry, v: EdgeValue, dk: DepKey, n: Notice)
    requires n.Reads? ==> ListOk(reg, dk.gvr)
    requires n.Reads? ==> (dk.gvr, Wanted(v, n.rs)) in reg.byKey ==> KeyOk(reg, (dk.gvr, Wanted(v, n.rs)))
    requires v.Narrowed? ==> v.li.gvr == dk.gvr
    ensures Below(v, AfterNotice(reg, v, dk, n))
    ensures AfterNotice(reg, v, dk, n).Narrowed? ==> AfterNotice(reg, v, dk, n).li.gvr == dk.gvr
  {
    if n.Reads? {
      EdgeClimbs(reg, v, dk, n.rs, RecordPlain);
      InternAnswers(reg, dk.gvr, Wanted(v, n.rs));
    }
  }

  lemma TellingClimbs(s: Shadow, x: L1Key, d: DepKey, n: Notice, k: L1Key, dk: DepKey)
    requires RegistryOk(s.reg) && EdgeOf(s, k, dk).Some?
    requires EdgeOf(s, k, dk).value.Narrowed? ==> EdgeOf(s, k, dk).value.li.gvr == dk.gvr
    ensures EdgeOf(Telling(s, x, d, n), k, dk).Some?
    ensures Below(EdgeOf(s, k, dk).value, EdgeOf(Telling(s, x, d, n), k, dk).value)
    ensures EdgeOf(Telling(s, x, d, n), k, dk).value.Narrowed? ==> EdgeOf(Telling(s, x, d, n), k, dk).value.li.gvr == dk.gvr
  {
    if x == k && d == dk {
      NoticeClimbs(s.reg, EdgeOf(s, k, dk).value, dk, n);
    } else {
      TellingFrame(s, x, d, n);
    }
  }

  lemma StepClimbs(s: Shadow, op: Op, k: L1Key, dk: DepKey)
    requires RegistryOk(s.reg) && EdgeOf(s, k, dk).Some? && !Removes(op, k)
    requires EdgeOf(s, k, dk).value.Narrowed? ==> EdgeOf(s, k, dk).value.li.gvr == dk.gvr
    ensures EdgeOf(Apply(s, op), k, dk).Some?
    ensures Below(EdgeOf(s, k, dk).value, EdgeOf(Apply(s, op), k, dk).value)
    ensures EdgeOf(Apply(s, op), k, dk).value.Narrowed? ==> EdgeOf(Apply(s, op), k, dk).value.li.gvr == dk.gvr
  {
    match op
    case Tell(x, d, n) => TellingClimbs(s, x, d, n, k, dk);
    case Replay(x, d, producer) =>
      if d.IsList() {
        match producer
        case None => TellingClimbs(s, x, d, Recorded(RecordPlain), k, dk);
        case Some(li) =>
          var s1 := Telling(s, x, d, Recorded(RecordNarrowable));
          TellingRegistry(s, x, d, Recorded(RecordNarrowable));
          TellingClimbs(s, x, d, Recorded(RecordNarrowable), k, dk);
          TellingClimbs(s1, x, d, Reads(li.readSet), k, dk);
          BelowTransitive(EdgeOf(s, k, dk).value, EdgeOf(s1, k, dk).value, EdgeOf(Apply(s, op), k, dk).value);
      }
    case InternFor(_, _) =>
    case Remove(_) =>
    case _ => MaskStepFrame(s, op);
  }

  lemma RunClimbs(ops: seq<Op>, op: Op, k: L1Key, dk: DepKey)
    requires dk.IsList() && EdgeOf(Run(ops), k, dk).Some? && !Removes(op, k)
    ensures EdgeOf(Apply(Run(ops), op), k, dk).Some?
    ensures Below(EdgeOf(Run(ops), k, dk).value, EdgeOf(Apply(Run(ops), op), k, dk).value)
  {
    RunRegistry(ops);
    RunEdges(ops, k, dk);
    StepClimbs(Run(ops), op, k, dk);
  }

  /** For the life of an edge its interest only widens, whatever else runs meanwhile. */
  lemma {:induction false} EdgeOnlyWidens(ops: seq<Op>, more: seq<Op>, k: L1Key, dk: DepKey)
    requires dk.IsList() && EdgeOf(Run(ops), k, dk).Some?
    requires forall i | 0 <= i < |more| :: !Removes(more[i], k)
    ensures EdgeOf(Run(ops + more), k, dk).Some?
    ensures Below(EdgeOf(Run(ops), k, dk).value, EdgeOf(Run(ops + more), k, dk).value)
    decreases |more|
  {
    if more == [] {
      assert ops + more == ops;
    } else {
      var init := more[..|more| - 1];
      assert (ops + more)[..|ops + more| - 1] == ops + init;
      EdgeOnlyWidens(ops, init, k, dk);
      RunClimbs(ops + init, more[|more| - 1], k, dk);
      BelowTransitive(EdgeOf(Run(ops), k, dk).value, EdgeOf(Run(ops + init), k, dk).value, EdgeOf(Run(ops + more), k, dk).value);
    }
  }

  // ---- the avoided mark ----------------------------------------------------------------

  /** What a decision on a key sees of the transitions a coordinate owes it. */
  predicate AllSpared(ts: seq<Transition>, li: Interest) {
    ts != [] && forall t | t in ts :: Spares(t, li)
  }

  /** After any run, a mark is classified avoided exactly when the key's list edges in reach
      are all narrowed, the probe found the object, and every transition taken with the event
      was a decodable update that left each edge's projection unchanged. */
  lemma AvoidedExactly(ops: seq<Op>, k: L1Key, c: Coord, probe: Probe)
    requires c in Run(ops).held
    ensures OwedOf(ops, c).taken.Some?
    ensures
      var ds := DepSetOf(Run(ops), k);
      Avoids(ds, c.gvr, c.namespace, DecisionState(probe), Run(ops).held[c]) <==>
        && probe.Found? && !NoListEdge(ds, c.gvr, c.namespace)
        && forall dk | dk in ds.value && ReachesList(dk, c.gvr, c.namespace) ::
             ds.value[dk].Narrowed? && AllSpared(OwedOf(ops, c).taken.value, ds.value[dk].li)
    ensures forall ns, dk :: ReachesList(dk, c.gvr, ns) <==>
              dk.gvr == c.gvr && dk.name == "*" && (dk.namespace == ns || dk.namespace == "")
  {
    var s := Run(ops);
    var ds := DepSetOf(s, k);
    RunMasks(ops, c);
    AvoidsMeaning(ds, c.gvr, c.namespace, DecisionState(probe), s.held[c]);
    var ts := OwedOf(ops, c).taken.value;
    if ds.Some? {
      forall dk | dk in ds.value && ReachesList(dk, c.gvr, c.namespace) && ds.value[dk].Narrowed?
        ensures s.held[c].Some? && Clears(s.held[c].value, ds.value[dk].li) <==> AllSpared(ts, ds.value[dk].li)
      {
        EdgeCleared(ops, k, dk, c);
      }
    }
  }

  lemma EdgeCleared(ops: seq<Op>, k: L1Key, dk: DepKey, c: Coord)
    requires EdgeOf(Run(ops), k, dk).Some? && EdgeOf(Run(ops), k, dk).value.Narrowed?
    requires ReachesList(dk, c.gvr, c.namespace)
    requires c in Run(ops).held && MasksAgree(Run(ops), OwedOf(ops, c), c)
    ensures Run(ops).held[c].Some? && Clears(Run(ops).held[c].value, EdgeOf(Run(ops), k, dk).value.li)
            <==> AllSpared(OwedOf(ops, c).taken.value, EdgeOf(Run(ops), k, dk).value.li)
  {
    var s := Run(ops);
    var li := EdgeOf(s, k, dk).value.li;
    RunEdges(ops, k, dk);
    RunRegistry(ops);
    UniqueInList(s.reg, li);
    ClearsAll(ListOf(s, c.gvr), OwedOf(ops, c).taken.value, li);
  }

  lemma UniqueInList(reg: Registry, li: Interest)
    requires RegistryOk(reg) && Registered(reg, li)
    ensures forall i | 0 <= i < |Listed(reg, li.gvr).list| && Listed(reg, li.gvr).list[i].id == li.id ::
              Listed(reg, li.gvr).list[i] == li
  {
    var list := Listed(reg, li.gvr).list;
    assert ListOk(reg, li.gvr);
    forall i | 0 <= i < |list| && list[i].id == li.id ensures list[i] == li {
      assert list[li.gen - 1] == li;
      assert reg.byKey[(li.gvr, list[i].readSet)] == list[i] && reg.byKey[(li.gvr, li.readSet)] == li;
    }
  }

  /** The transitions of one object, in order: each starts where the previous ended. */
  predicate Chained(ts: seq<Transition>) {
    (forall i | 0 <= i < |ts| :: ts[i].Update?)
    && forall i | 0 < i < |ts| :: ts[i].before == ts[i - 1].after
  }

  lemma {:induction false} ChainProjects(ts: seq<Transition>, rs: set<Read>)
    requires ts != [] && Chained(ts)
    requires forall t | t in ts :: SameProjection(t.before, t.after, rs)
    ensures SameProjection(ts[0].before, ts[|ts| - 1].after, rs)
    decreases |ts|
  {
    if |ts| > 1 {
      var init := ts[..|ts| - 1];
      ChainProjects(init, rs);
      assert ts[|ts| - 1] in ts && ts[|ts| - 1].before == init[|init| - 1].after;
    }
  }

  /** Narrowing is sound: when a mark is avoided, no read set ever committed to or replayed
      onto an edge in reach can tell the object before the first coalesced transition from
      the object after the last. */
  lemma AvoidedIsSound(ops: seq<Op>, k: L1Key, c: Coord, probe: Probe, dk: DepKey, rs: set<Read>)
    requires c in Run(ops).held
    requires Avoids(DepSetOf(Run(ops), k), c.gvr, c.namespace, DecisionState(probe), Run(ops).held[c])
    requires EdgeOf(Run(ops), k, dk).Some? && ReachesList(dk, c.gvr, c.namespace)
    requires ToldOf(ops, k, dk).Some? && Reads(rs) in ToldOf(ops, k, dk).value
    ensures OwedOf(ops, c).taken.Some? && OwedOf(ops, c).taken.value != []
    ensures forall t | t in OwedOf(ops, c).taken.value ::
              t.Update? && t.decodable && SameProjection(t.before, t.after, rs)
    ensures var ts := OwedOf(ops, c).taken.value;
            Chained(ts) ==> SameProjection(ts[0].before, ts[|ts| - 1].after, rs)
  {
    AvoidedExactly(ops, k, c, probe);
    RunEdges(ops, k, dk);
    var li := EdgeOf(Run(ops), k, dk).value.li;
    var ts := OwedOf(ops, c).taken.value;
    assert rs <= li.readSet;
    forall t | t in ts ensures SameProjection(t.before, t.after, rs) {
      ProjectPart(t.before, t.after, rs, li.readSet);
    }
    if Chained(ts) { ChainProjects(ts, rs); }
  }
}
