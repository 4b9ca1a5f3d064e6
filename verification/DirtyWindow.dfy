/** The invalidation-to-fresh window of one key: what marks, dequeues, evictions and accepted
    Puts do to its stamp, and the exact meaning of the stamp in terms of the history. */
module DirtyWindow {
  import opened ListInterest

  /** Why a refresh ended without an accepted re-Put. */
  datatype StaleReason = Declined | Dropped | Suppressed | NotServable

  datatype Stamp = Stamp(
    t0: int,                     // the earliest mark of the window
    inflight: bool,              // a dequeue owns the window
    next: Option<int>,           // the first mark since that dequeue began
    stale: Option<StaleReason>,  // known-stale
    seqNo: nat)                    // the event sequence at the latest mark

  type Window = Option<Stamp>

  datatype Keep = End | KeepAccepted | KeepFailed

  function Marked(w: Window, now: int, seqNo: nat): Window {
    if w.None? then Some(Stamp(now, false, None, None, seqNo))
    else
      var s := w.value;
      if s.seqNo >= seqNo && (!s.inflight || s.next.Some?) then w
      else Some(Stamp(s.t0, s.inflight, if s.inflight && s.next.None? then Some(now) else s.next, s.stale, seqNo))
  }

  function Begun(w: Window): Window {
    if w.None? then None else Some(w.value.(inflight := true))
  }

  /** Whether a settle finds its own stamp; otherwise an eviction removed it. */
  predicate Owns(w: Window, t0: int) {
    w.Some? && w.value.inflight && w.value.t0 == t0
  }

  function Settled(w: Window, t0: int, keep: Keep, stale: Option<StaleReason>): Window {
    if !Owns(w, t0) then w
    else
      var s := w.value;
      if keep.KeepAccepted? then Some(Stamp(t0, false, None, None, s.seqNo))
      else if keep.KeepFailed? then Some(Stamp(t0, false, None, s.stale, s.seqNo))
      else if stale.Some? then Some(Stamp(t0, false, None, stale, s.seqNo))
      else if s.next.Some? then Some(Stamp(s.next.value, false, None, None, s.seqNo))
      else None
  }

  /** An accepted Put whose resolve began at sequence `start`. It touches known-stale windows
      only: in flight it clears the flag; at rest it closes the window when it saw the latest
      mark, and otherwise leaves an ordinary open one. */
  function PutEnded(w: Window, start: nat): Window {
    if w.None? || w.value.stale.None? then w
    else if w.value.inflight then Some(w.value.(stale := None))
    else if start < w.value.seqNo then Some(Stamp(w.value.t0, false, None, None, w.value.seqNo))
    else None
  }

  // ---- runs ----------------------------------------------------------------------------

  /** How a dequeue ends. Closing covers a clean accepted re-Put, a refused one and a dequeue that found its
      entry gone. */
  datatype Outcome = Closing | Remarked | Retried | Failing(reason: StaleReason)

  function KeepOf(o: Outcome): Keep {
    match o
    case Remarked => KeepAccepted
    case Retried => KeepFailed
    case _ => End
  }

  function StaleOf(o: Outcome): Option<StaleReason> {
    if o.Failing? then Some(o.reason) else None
  }

  datatype Op = Mark(now: int, seqNo: nat) | Begin | Settle(o: Outcome) | Evict | Put(start: nat)

  /** The stamp, and the dequeue in progress with the t0 it began on. */
  datatype State = State(win: Window, worker: Worker)

  datatype Worker = Idle | Busy(t0: Option<int>)

  function Apply(s: State, op: Op): State {
    match op
    case Mark(now, seqNo) => s.(win := Marked(s.win, now, seqNo))
    case Begin => State(Begun(s.win), Busy(if s.win.Some? then Some(s.win.value.t0) else None))
    case Settle(o) =>
      State(if s.worker.Busy? && s.worker.t0.Some? then Settled(s.win, s.worker.t0.value, KeepOf(o), StaleOf(o)) else s.win, Idle)
    case Evict => s.(win := None)
    case Put(start) => s.(win := PutEnded(s.win, start))
  }

  function Run(ops: seq<Op>): State {
    if ops == [] then State(None, Idle) else Apply(Run(ops[..|ops| - 1]), ops[|ops| - 1])
  }

  /** Dequeues of a key never overlap, and marks read a sequence that never goes back. */
  ghost predicate WellFormed(ops: seq<Op>) {
    (forall i, j | 0 <= i < j < |ops| && ops[i].Begin? && ops[j].Begin? :: exists k | i < k < j :: ops[k].Settle?)
    && (forall i, j | 0 <= i < j < |ops| && ops[i].Mark? && ops[j].Mark? :: ops[i].seqNo <= ops[j].seqNo)
  }

  // ---- the history ---------------------------------------------------------------------

  /** The first mark at or after a position; the length of the run when there is none. */
  function FirstMark(ops: seq<Op>, from: nat): (i: nat)
    requires from <= |ops|
    ensures from <= i <= |ops|
    ensures i < |ops| ==> ops[i].Mark?
    ensures forall j | from <= j < i :: !ops[j].Mark?
    decreases |ops| - from
  {
    if from == |ops| || ops[from].Mark? then from else FirstMark(ops, from + 1)
  }

  predicate MarkedSince(ops: seq<Op>, from: nat)
    requires from <= |ops|
  {
    FirstMark(ops, from) < |ops|
  }

  /** The time of the earliest mark at or after a position. */
  function EarliestMark(ops: seq<Op>, from: nat): int
    requires from <= |ops| && MarkedSince(ops, from)
  {
    ops[FirstMark(ops, from)].now
  }

  /** The sequence read by the latest mark of a run. */
  function LatestSeq(ops: seq<Op>): nat {
    if ops == [] then 0
    else if ops[|ops| - 1].Mark? then ops[|ops| - 1].seqNo
    else LatestSeq(ops[..|ops| - 1])
  }

  /** What the history says, without looking at any stamp: the position every mark before
      which is covered, where the dequeue that owns the window began, and the standing
      failure. */
  datatype History = History(cut: nat, began: Option<nat>, failure: Option<StaleReason>)

  function HistoryStep(h: History, ops: seq<Op>, op: Op): History
    requires h.cut <= |ops|
  {
    match op
    case Mark(_, _) => h
    case Begin => if MarkedSince(ops, h.cut) then h.(began := Some(|ops|)) else h
    case Evict => History(|ops| + 1, None, None)
    case Settle(o) =>
      if h.began.None? then h
      else
        (match o
         case Closing => History(h.began.value, None, None)
         case Remarked => History(h.cut, None, None)
         case Retried => h.(began := None)
         case Failing(reason) => History(h.cut, None, Some(reason)))
    case Put(start) =>
      if h.failure.None? then h
      else if h.began.None? && start >= LatestSeq(ops) then History(|ops| + 1, None, None)
      else h.(failure := None)
  }

  function HistoryOf(ops: seq<Op>): (h: History)
    ensures h.cut <= |ops| && (h.began.Some? ==> h.cut <= h.began.value < |ops|)
  {
    if ops == [] then History(0, None, None)
    else
      var init := ops[..|ops| - 1];
      HistoryStep(HistoryOf(init), init, ops[|ops| - 1])
  }

  lemma FirstMarkMore(ops: seq<Op>, op: Op, from: nat)
    requires from <= |ops|
    ensures FirstMark(ops + [op], from) ==
              if MarkedSince(ops, from) || op.Mark? then FirstMark(ops, from) else |ops| + 1
  {
    var i := FirstMark(ops, from);
    var k := FirstMark(ops + [op], from);
    assert forall j | 0 <= j < |ops| :: (ops + [op])[j] == ops[j];
    assert (ops + [op])[|ops|] == op;
    if i < |ops| {
      assert (ops + [op])[i].Mark?;
    }
  }

  /** The stamp, read from the history. */
  ghost predicate Explained(s: State, h: History, ops: seq<Op>)
    requires h.cut <= |ops| && (h.began.Some? ==> h.cut <= h.began.value < |ops|)
  {
    && (s.win.Some? <==> MarkedSince(ops, h.cut))
    && (h.began.Some? ==> s.win.Some? && s.worker == Busy(Some(s.win.value.t0)))
    && (s.win.None? ==> h.failure.None?)
    && (s.win.Some? ==>
          var w := s.win.value;
          && w.t0 == EarliestMark(ops, h.cut)
          && w.seqNo == LatestSeq(ops)
          && w.stale == h.failure
          && w.inflight == h.began.Some?
          && w.next == if h.began.Some? && MarkedSince(ops, h.began.value)
                       then Some(EarliestMark(ops, h.began.value)) else None)
  }

  lemma MarkExplained(s: State, h: History, ops: seq<Op>, op: Op)
    requires h.cut <= |ops| && (h.began.Some? ==> h.cut <= h.began.value < |ops|)
    requires Explained(s, h, ops)
    requires op.Mark? && LatestSeq(ops) <= op.seqNo
    ensures Explained(Apply(s, op), h, ops + [op])
  {
    assert (ops + [op])[..|ops + [op]| - 1] == ops;
    FirstMarkMore(ops, op, h.cut);
    if h.began.Some? { FirstMarkMore(ops, op, h.began.value); }
  }

  lemma SettleExplained(s: State, h: History, ops: seq<Op>, op: Op)
    requires h.cut <= |ops| && (h.began.Some? ==> h.cut <= h.began.value < |ops|)
    requires Explained(s, h, ops)
    requires op.Settle?
    ensures HistoryStep(h, ops, op).cut <= |ops| && HistoryStep(h, ops, op).began.None?
    ensures Explained(Apply(s, op), HistoryStep(h, ops, op), ops + [op])
  {
    assert (ops + [op])[..|ops + [op]| - 1] == ops;
    FirstMarkMore(ops, op, h.cut);
    if h.began.Some? { FirstMarkMore(ops, op, h.began.value); }
  }

  lemma OtherExplained(s: State, h: History, ops: seq<Op>, op: Op)
    requires h.cut <= |ops| && (h.began.Some? ==> h.cut <= h.began.value < |ops|)
    requires Explained(s, h, ops)
    requires op.Put? || op.Evict? || (op.Begin? && s.worker.Idle?)
    ensures var h' := HistoryStep(h, ops, op);
            h'.cut <= |ops| + 1 && (h'.began.Some? ==> h'.cut <= h'.began.value < |ops| + 1)
            && Explained(Apply(s, op), h', ops + [op])
  {
    assert (ops + [op])[..|ops + [op]| - 1] == ops;
    FirstMarkMore(ops, op, h.cut);
    if h.began.Some? { FirstMarkMore(ops, op, h.began.value); }
    if op.Begin? && MarkedSince(ops, h.cut) {
      assert FirstMark(ops + [op], |ops|) == |ops| + 1;
    }
  }

  // ---- well-formed runs ----------------------------------------------------------------

  lemma WellFormedPrefix(ops: seq<Op>, n: nat)
    requires WellFormed(ops) && n <= |ops|
    ensures WellFormed(ops[..n])
  {
    var p := ops[..n];
    forall i, j | 0 <= i < j < |p| && p[i].Begin? && p[j].Begin? ensures exists k | i < k < j :: p[k].Settle? {
      var k :| i < k < j && ops[k].Settle?;
      assert p[k].Settle?;
    }
  }

  /** A busy worker is a begin not yet settled. */
  lemma {:induction false} BusyBegan(ops: seq<Op>) returns (b: nat)
    requires Run(ops).worker.Busy?
    ensures b < |ops| && ops[b].Begin? && forall k | b < k < |ops| :: !ops[k].Settle?
    decreases |ops|
  {
    var n := |ops| - 1;
    if ops[n].Begin? {
      b := n;
    } else {
      b := BusyBegan(ops[..n]);
    }
  }

  lemma BeginIdle(ops: seq<Op>)
    requires WellFormed(ops) && ops != [] && ops[|ops| - 1].Begin?
    ensures Run(ops[..|ops| - 1]).worker.Idle?
  {
    if Run(ops[..|ops| - 1]).worker.Busy? {
      var b := BusyBegan(ops[..|ops| - 1]);
      assert false;
    }
  }

  lemma {:induction false} LatestSeqBounded(ops: seq<Op>, bound: nat)
    requires forall i | 0 <= i < |ops| && ops[i].Mark? :: ops[i].seqNo <= bound
    ensures LatestSeq(ops) <= bound
    decreases |ops|
  {
    if ops != [] { LatestSeqBounded(ops[..|ops| - 1], bound); }
  }

  /** After every well-formed run the stamp is the open part of the history: it exists exactly
      when some mark is not covered, from the earliest such mark, with the sequence of the
      latest; in flight exactly while a dequeue owns it; and known-stale exactly while a
      failure stands. */
  lemma {:induction false} WindowExactly(ops: seq<Op>)
    requires WellFormed(ops)
    ensures Explained(Run(ops), HistoryOf(ops), ops)
    decreases |ops|
  {
    if ops != [] {
      var n := |ops| - 1;
      var init, op := ops[..n], ops[n];
      WellFormedPrefix(ops, n);
      WindowExactly(init);
      assert init + [op] == ops;
      match op
      case Mark(_, s) =>
        LatestSeqBounded(init, s);
        MarkExplained(Run(init), HistoryOf(init), init, op);
      case Settle(_) =>
        SettleExplained(Run(init), HistoryOf(init), init, op);
      case _ =>
        if op.Begin? { BeginIdle(ops); }
        OtherExplained(Run(init), HistoryOf(init), init, op);
    }
  }

  // ---- what covers a mark --------------------------------------------------------------

  /** The dequeue begun at b owns the window at the end of a run: it found a mark to refresh
      and neither a settle nor an eviction came since. */
  predicate OwnedFrom(ops: seq<Op>, b: nat) {
    b < |ops| && ops[b].Begin? && MarkedSince(ops[..b], HistoryOf(ops[..b]).cut)
    && forall k | b < k < |ops| :: !ops[k].Settle? && !ops[k].Evict? && !ops[k].Begin?
  }

  lemma OwnedStep(ops: seq<Op>, op: Op, b: nat)
    requires b < |ops|
    ensures OwnedFrom(ops + [op], b) <==> OwnedFrom(ops, b) && !op.Settle? && !op.Evict? && !op.Begin?
  {
    var all := ops + [op];
    assert all[..b] == ops[..b];
    if OwnedFrom(all, b) {
      assert all[|ops|] == op;
      forall k | b < k < |ops| ensures !ops[k].Settle? && !ops[k].Evict? && !ops[k].Begin? { assert all[k] == ops[k]; }
    }
  }

  lemma OwnedLast(init: seq<Op>, op: Op)
    ensures OwnedFrom(init + [op], |init|) <==> op.Begin? && MarkedSince(init, HistoryOf(init).cut)
  {
    var all := init + [op];
    assert all[|init|] == op && all[..|init|] == init;
  }

  lemma BeganStep(h: History, ops: seq<Op>, op: Op)
    requires h.cut <= |ops|
    ensures HistoryStep(h, ops, op).began ==
              if op.Begin? && MarkedSince(ops, h.cut) then Some(|ops|)
              else if op.Settle? || op.Evict? then None
              else h.began
  {
  }

  lemma BeginUnowned(ops: seq<Op>)
    requires WellFormed(ops) && ops != [] && ops[|ops| - 1].Begin?
    ensures HistoryOf(ops[..|ops| - 1]).began.None?
  {
    WellFormedPrefix(ops, |ops| - 1);
    BeginIdle(ops);
    WindowExactly(ops[..|ops| - 1]);
  }

  lemma HistoryMore(init: seq<Op>, op: Op)
    ensures HistoryOf(init + [op]) == HistoryStep(HistoryOf(init), init, op)
  {
    assert (init + [op])[..|init|] == init;
  }

  /** One more operation moves the owner of the history and of the run alike. */
  lemma BeganMore(init: seq<Op>, op: Op, b: nat)
    requires HistoryOf(init).began == Some(b) <==> OwnedFrom(init, b)
    requires op.Begin? ==> HistoryOf(init).began.None?
    ensures HistoryOf(init + [op]).began == Some(b) <==> OwnedFrom(init + [op], b)
  {
    HistoryMore(init, op);
    BeganStep(HistoryOf(init), init, op);
    if b < |init| {
      OwnedStep(init, op, b);
    } else if b == |init| {
      OwnedLast(init, op);
    }
  }

  /** The history's owner is the dequeue that owns the window. */
  lemma {:induction false} BeganMeaning(ops: seq<Op>, b: nat)
    requires WellFormed(ops)
    ensures HistoryOf(ops).began == Some(b) <==> OwnedFrom(ops, b)
    decreases |ops|
  {
    if ops != [] {
      var n := |ops| - 1;
      WellFormedPrefix(ops, n);
      BeganMeaning(ops[..n], b);
      if ops[n].Begin? { BeginUnowned(ops); }
      BeganMore(ops[..n], ops[n], b);
      assert ops[..n] + [ops[n]] == ops;
    }
  }

  /** A settle takes effect when its dequeue owns the window. */
  predicate Effective(ops: seq<Op>, j: nat) {
    j < |ops| && ops[j].Settle? && HistoryOf(ops[..j]).began.Some?
  }

  /** The Put at j closed a known-stale window at rest: its resolve saw the latest mark. */
  predicate ClosedByPut(ops: seq<Op>, j: nat) {
    j < |ops| && ops[j].Put?
    && HistoryOf(ops[..j]).failure.Some? && HistoryOf(ops[..j]).began.None? && ops[j].start >= LatestSeq(ops[..j])
  }

  /** Position p covers every mark before it: an eviction, the begin of a dequeue that settled
      the window closed, or a Put that closed it. */
  predicate CoveredTo(ops: seq<Op>, j: nat, p: nat) {
    && j < |ops|
    && ((ops[j].Evict? && p == j + 1)
        || (Effective(ops, j) && ops[j].o.Closing? && Some(p) == HistoryOf(ops[..j]).began)
        || (ClosedByPut(ops, j) && p == j + 1))
  }

  /** The cut is the furthest position anything covered; nothing else covers a mark. */
  lemma {:induction false} CutMeaning(ops: seq<Op>, j: nat, p: nat)
    ensures CoveredTo(ops, j, p) ==> p <= HistoryOf(ops).cut
    decreases |ops|
  {
    if ops != [] && CoveredTo(ops, j, p) {
      var n := |ops| - 1;
      if j < n {
        var init := ops[..n];
        assert init[..j] == ops[..j];
        assert CoveredTo(init, j, p);
        CutMeaning(init, j, p);
      }
    }
  }

  lemma {:induction false} CutAttained(ops: seq<Op>) returns (j: nat)
    ensures HistoryOf(ops).cut == 0 || CoveredTo(ops, j, HistoryOf(ops).cut)
    decreases |ops|
  {
    j := 0;
    if ops != [] {
      var n := |ops| - 1;
      var init := ops[..n];
      if HistoryOf(ops).cut == HistoryOf(init).cut {
        j := CutAttained(init);
        if HistoryOf(ops).cut != 0 { assert init[..j] == ops[..j]; }
      } else {
        j := n;
      }
    }
  }

  /** A settle whose dequeue an eviction overtook changes no window, however new. */
  lemma OvertakenSettle(ops: seq<Op>, o: Outcome, b: nat, e: nat)
    requires WellFormed(ops)
    requires b < e < |ops| && ops[b].Begin? && ops[e].Evict?
    requires forall k | b < k < |ops| :: !ops[k].Begin?
    ensures Run(ops + [Settle(o)]).win == Run(ops).win
  {
    var all := ops + [Settle(o)];
    assert all[..|ops|] == ops;
    WindowExactly(ops);
    if HistoryOf(ops).began.Some? {
      var c := HistoryOf(ops).began.value;
      BeganMeaning(ops, c);
      assert false;
    }
  }

  // ---- known-stale ---------------------------------------------------------------------

  /** What ends a standing failure: an accepted Put, an eviction, or the next settled verdict
      other than a retry. Marks, begins and retried errors do not. */
  predicate EndsFailure(ops: seq<Op>, i: nat) {
    i < |ops| && (ops[i].Put? || ops[i].Evict? || (Effective(ops, i) && !ops[i].o.Retried?))
  }

  /** Known-stale is exactly: the latest settled refresh failed, for this reason, and nothing
      accepted or evicted came since. */
  lemma {:induction false} KnownStaleExactly(ops: seq<Op>, reason: StaleReason)
    requires WellFormed(ops)
    ensures Run(ops).win.Some? && Run(ops).win.value.stale == Some(reason)
            <==> exists j: nat | j < |ops| :: FailedAt(ops, j, reason)
  {
    WindowExactly(ops);
    FailureMeaning(ops, reason);
  }

  predicate FailedAt(ops: seq<Op>, j: nat, reason: StaleReason) {
    && j < |ops| && Effective(ops, j) && ops[j].o == Failing(reason)
    && forall i | j < i < |ops| :: !EndsFailure(ops, i)
  }

  lemma FailedStep(ops: seq<Op>, op: Op, j: nat, reason: StaleReason)
    requires j < |ops|
    ensures FailedAt(ops + [op], j, reason) <==> FailedAt(ops, j, reason) && !EndsFailure(ops + [op], |ops|)
  {
    var all := ops + [op];
    forall i: nat | i < |ops| ensures Effective(all, i) == Effective(ops, i) && EndsFailure(all, i) == EndsFailure(ops, i) {
      assert all[..i] == ops[..i];
    }
    if FailedAt(ops, j, reason) && !EndsFailure(all, |ops|) {
      forall i | j < i < |all| ensures !EndsFailure(all, i) {}
    }
    if FailedAt(all, j, reason) {
      forall i | j < i < |ops| ensures !EndsFailure(ops, i) { assert !EndsFailure(all, i); }
    }
  }

  lemma {:induction false} FailureMeaning(ops: seq<Op>, reason: StaleReason)
    ensures HistoryOf(ops).failure == Some(reason) <==> exists j: nat | j < |ops| :: FailedAt(ops, j, reason)
    decreases |ops|
  {
    if ops != [] {
      var n := |ops| - 1;
      var init, op := ops[..n], ops[n];
      assert init + [op] == ops;
      FailureMeaning(init, reason);
      if HistoryOf(ops).failure == Some(reason) {
        if EndsFailure(ops, n) {
          assert FailedAt(ops, n, reason);
        } else {
          var j: nat :| j < |init| && FailedAt(init, j, reason);
          FailedStep(init, op, j, reason);
        }
      }
      forall j: nat | j < |ops| && FailedAt(ops, j, reason) ensures HistoryOf(ops).failure == Some(reason) {
        if j < n { FailedStep(init, op, j, reason); }
      }
    }
  }

  // ---- the stamp map -------------------------------------------------------------------

  /** What a dequeue's write came to, as the sink on its context was told. */
  datatype Written = Written(accepted: bool, refused: bool, remarked: bool)

  /** The outcome of a dequeue that returned no error. */
  function DequeueOutcome(hadEntry: bool, written: Option<Written>): Outcome {
    if !hadEntry then Closing
    else if written.Some? && written.value.accepted then (if written.value.remarked then Remarked else Closing)
    else if written.Some? && written.value.refused then Closing
    else Failing(Declined)
  }

  datatype UnfreshReason = UnfreshRemarked | UnfreshEvicted | UnfreshDeclined | UnfreshDropped

  class DirtyWindows {
    var dirty: map<string, Stamp>
    var samples: nat
    var unfresh: map<UnfreshReason, nat>

    constructor ()
      ensures dirty == map[] && samples == 0 && unfresh == map[]
    {
      dirty, samples, unfresh := map[], 0, map[];
    }

    function WindowOf(key: string): Window
      reads this
    {
      if key in dirty then Some(dirty[key]) else None
    }

    /** The map with one key's window replaced. */
    function With(key: string, w: Window): map<string, Stamp>
      reads this
    {
      if w.Some? then dirty[key := w.value] else dirty - {key}
    }

    /** The dequeue that began on t0 still has the window. */
    predicate Mine(key: string, t0: int)
      reads this
    {
      key in dirty && dirty[key].inflight && dirty[key].t0 == t0
    }

    function Count(r: UnfreshReason): nat
      reads this
    {
      if r in unfresh then unfresh[r] else 0
    }

    method MarkDirty(key: string, now: int, seqNo: nat)
      modifies `dirty
      ensures dirty == if key == "" then old(dirty) else old(With(key, Marked(WindowOf(key), now, seqNo)))
    {
      if key == "" {
        return;
      }
      if key !in dirty {
        dirty := dirty[key := Stamp(now, false, None, None, seqNo)];
        return;
      }
      var s := dirty[key];
      var next := Stamp(s.t0, s.inflight, s.next, s.stale, seqNo);
      if s.inflight && s.next.None? {
        next := next.(next := Some(now));
      }
      if s.seqNo >= seqNo && (!s.inflight || s.next.Some?) {
        assert dirty == dirty[key := s];
        return;
      }
      dirty := dirty[key := next];
    }

    method BeginWindow(key: string) returns (t0: Option<int>)
      modifies `dirty
      ensures dirty == old(With(key, Begun(WindowOf(key))))
      ensures t0 == if old(WindowOf(key)).Some? then Some(old(WindowOf(key)).value.t0) else None
    {
      if key !in dirty {
        return None;
      }
      t0 := Some(dirty[key].t0);
      dirty := dirty[key := dirty[key].(inflight := true)];
    }

    method SettleWindow(key: string, t0: int, keep: Keep, stale: Option<StaleReason>) returns (gone: bool)
      modifies `dirty
      ensures dirty == old(With(key, Settled(WindowOf(key), t0, keep, stale)))
      ensures gone <==> !old(Owns(WindowOf(key), t0))
    {
      if key !in dirty {
        return true;
      }
      var s := dirty[key];
      if !s.inflight || s.t0 != t0 {
        assert dirty == dirty[key := s];
        return true;
      }
      gone := false;
      match keep
      case KeepAccepted =>
        dirty := dirty[key := Stamp(t0, false, None, None, s.seqNo)];
      case KeepFailed =>
        dirty := dirty[key := Stamp(t0, false, None, s.stale, s.seqNo)];
      case End =>
        if stale.Some? {
          dirty := dirty[key := Stamp(t0, false, None, stale, s.seqNo)];
        } else if s.next.Some? {
          dirty := dirty[key := Stamp(s.next.value, false, None, None, s.seqNo)];
        } else {
          dirty := dirty - {key};
        }
    }

    method WindowFresh(key: string, t0: int)
      modifies `dirty, `samples
      ensures dirty == old(With(key, Settled(WindowOf(key), t0, KeepOf(Closing), StaleOf(Closing))))
      ensures old(Mine(key, t0)) ==>
                dirty == match old(dirty[key].next)
                         case None => old(dirty) - {key}
                         case Some(next) => old(dirty[key := Stamp(next, false, None, None, dirty[key].seqNo)])
      ensures !old(Mine(key, t0)) ==> dirty == old(dirty)
      ensures samples == old(samples) + 1
    {
      var _ := SettleWindow(key, t0, End, None);
      samples := samples + 1;
    }

    /** Ends a window unfresh: a reason of its own overrides the one the verdict implies, and a
        window an eviction removed counts as evicted. */
    method WindowUnfresh(key: string, t0: int, reason: UnfreshReason, given: Option<StaleReason>)
      modifies `dirty, `unfresh
      ensures dirty == old(With(key, Settled(WindowOf(key), t0, KeepOf(OutcomeOf(reason, given)), StaleOf(OutcomeOf(reason, given)))))
      ensures old(Mine(key, t0)) && reason == UnfreshRemarked ==>
                dirty == old(dirty[key := Stamp(t0, false, None, None, dirty[key].seqNo)])
      ensures old(Mine(key, t0)) && reason == UnfreshEvicted ==>
                dirty == match old(dirty[key].next)
                         case None => old(dirty) - {key}
                         case Some(next) => old(dirty[key := Stamp(next, false, None, None, dirty[key].seqNo)])
      ensures old(Mine(key, t0)) && reason in {UnfreshDeclined, UnfreshDropped} ==>
                var failed := if given.Some? then given.value else if reason == UnfreshDeclined then Declined else Dropped;
                dirty == old(dirty[key := Stamp(t0, false, None, Some(failed), dirty[key].seqNo)])
      ensures !old(Mine(key, t0)) ==> dirty == old(dirty)
      ensures samples == old(samples)
      ensures var counted := if old(Mine(key, t0)) then reason else UnfreshEvicted;
              forall r :: Count(r) == old(Count(r)) + if r == counted then 1 else 0
    {
      var ks := given;
      if ks.None? {
        match reason
        case UnfreshDeclined => ks := Some(Declined);
        case UnfreshDropped => ks := Some(Dropped);
        case _ =>
      }
      if reason.UnfreshRemarked? || reason.UnfreshEvicted? {
        ks := None;
      }
      var keep := if reason.UnfreshRemarked? then KeepAccepted else End;
      var gone := SettleWindow(key, t0, keep, ks);
      var counted := if gone then UnfreshEvicted else reason;
      unfresh := unfresh[counted := (if counted in unfresh then unfresh[counted] else 0) + 1];
    }

    method WindowContinue(key: string, t0: int)
      modifies `dirty, `unfresh
      ensures dirty == old(With(key, Settled(WindowOf(key), t0, KeepOf(Retried), StaleOf(Retried))))
      ensures dirty == if old(Mine(key, t0)) then old(dirty[key := Stamp(t0, false, None, dirty[key].stale, dirty[key].seqNo)])
                       else old(dirty)
      ensures forall r :: Count(r) == old(Count(r)) + if r.UnfreshEvicted? && !old(Mine(key, t0)) then 1 else 0
    {
      var gone := SettleWindow(key, t0, KeepFailed, None);
      if gone {
        unfresh := unfresh[UnfreshEvicted := (if UnfreshEvicted in unfresh then unfresh[UnfreshEvicted] else 0) + 1];
      }
    }

    /** Ends a dequeue that returned no error, by what its write came to: only an accepted Put
        that was not remarked is a sample, a remarked one keeps the window open from its earliest
        mark, a refused one or a missing entry ends it, and no write at all leaves the cell
        known-stale. */
    method SettleDequeue(key: string, t0: int, hadEntry: bool, written: Option<Written>)
      modifies `dirty, `samples, `unfresh
      ensures old(Mine(key, t0)) ==>
                dirty == old(With(key, Settled(WindowOf(key), t0, KeepOf(DequeueOutcome(hadEntry, written)), StaleOf(DequeueOutcome(hadEntry, written)))))
      ensures old(Mine(key, t0)) && hadEntry && (written.None? || !(written.value.accepted || written.value.refused)) ==>
                dirty == old(dirty[key := Stamp(t0, false, None, Some(Declined), dirty[key].seqNo)])
      ensures old(Mine(key, t0)) && hadEntry && written.Some? && written.value.accepted && written.value.remarked ==>
                dirty == old(dirty[key := Stamp(t0, false, None, None, dirty[key].seqNo)])
      ensures old(Mine(key, t0))
              && (!hadEntry || (written.Some? && (written.value.accepted ==> !written.value.remarked)
                                && (written.value.accepted || written.value.refused))) ==>
                dirty == match old(dirty[key].next)
                         case None => old(dirty) - {key}
                         case Some(next) => old(dirty[key := Stamp(next, false, None, None, dirty[key].seqNo)])
      ensures !old(Mine(key, t0)) ==> dirty == old(dirty)
      ensures samples == old(samples) + if hadEntry && written.Some? && written.value.accepted && !written.value.remarked then 1 else 0
    {
      if !hadEntry {
        WindowUnfresh(key, t0, UnfreshEvicted, None);
      } else if written.Some? && written.value.accepted && written.value.remarked {
        WindowUnfresh(key, t0, UnfreshRemarked, None);
      } else if written.Some? && written.value.accepted {
        WindowFresh(key, t0);
      } else if written.Some? && written.value.refused {
        WindowUnfresh(key, t0, UnfreshEvicted, None);
      } else {
        WindowUnfresh(key, t0, UnfreshDeclined, Some(Declined));
      }
    }

    /** An eviction ends the window; it is counted here only when no dequeue will count it and
        no failed refresh already has. */
    method EvictDirtyWindow(key: string)
      modifies `dirty, `unfresh
      ensures dirty == old(dirty) - {key}
      ensures forall r :: Count(r) == old(Count(r)) +
                if r.UnfreshEvicted? && old(WindowOf(key)).Some?
                   && !old(WindowOf(key)).value.inflight && old(WindowOf(key)).value.stale.None? then 1 else 0
    {
      if key !in dirty {
        return;
      }
      var s := dirty[key];
      dirty := dirty - {key};
      if !s.inflight && s.stale.None? {
        unfresh := unfresh[UnfreshEvicted := (if UnfreshEvicted in unfresh then unfresh[UnfreshEvicted] else 0) + 1];
      }
    }

    /** An accepted Put: whether it re-opened an ordinary window, or closed one and from when.
        A Put whose resolve carries no start sequence changes nothing. */
    method EndKnownStaleOnPut(key: string, startSeq: Option<nat>) returns (reopened: bool, closed: Option<int>)
      modifies `dirty
      ensures dirty == if key == "" || startSeq.None? then old(dirty)
                       else old(With(key, PutEnded(WindowOf(key), startSeq.value)))
      ensures closed.Some? <==> old(WindowOf(key)).Some? && key !in dirty
      ensures closed.Some? ==> closed.value == old(WindowOf(key)).value.t0
      ensures reopened <==> key != "" && startSeq.Some? && old(WindowOf(key)).Some?
                            && old(WindowOf(key)).value.stale.Some? && !old(WindowOf(key)).value.inflight
                            && startSeq.value < old(WindowOf(key)).value.seqNo
    {
      reopened, closed := false, None;
      if key == "" || startSeq.None? || key !in dirty {
        return;
      }
      var start := startSeq.value;
      var s := dirty[key];
      assert dirty == dirty[key := s];
      if s.stale.None? {
        return;
      }
      if s.inflight {
        dirty := dirty[key := s.(stale := None)];
        return;
      }
      if start < s.seqNo {
        dirty := dirty[key := Stamp(s.t0, false, None, None, s.seqNo)];
        return true, None;
      }
      dirty := dirty - {key};
      closed := Some(s.t0);
    }
  }

  /** What a verdict and its given reason mean to the stamp. */
  function OutcomeOf(reason: UnfreshReason, given: Option<StaleReason>): Outcome {
    match reason
    case UnfreshRemarked => Remarked
    case UnfreshEvicted => Closing
    case UnfreshDeclined => Failing(if given.Some? then given.value else Declined)
    case UnfreshDropped => Failing(if given.Some? then given.value else Dropped)
  }
}
