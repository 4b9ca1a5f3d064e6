/** The dependency tracker as a value: the two indexes, the generation floors and the
    record counters, with its operations as functions and what every run of them keeps. */
module TrackerSpec {
  import opened DepKeys
  import opened DepIndex

  type Reverse = map<L1Key, set<DepKey>>

  datatype Tracker = Tracker(
    forward: Forward,
    reverse: Reverse,
    floors: Floors,
    typeFloors: Floors,
    seqNo: nat,
    total: int,        // records held
    coordinates: int,  // buckets held
    cap: nat,
    dropped: nat)      // records the cap refused

  function Empty(cap: nat): Tracker {
    Tracker(map[], map[], map[], map[], 0, 0, 0, cap, 0)
  }

  function DepsOf(reverse: Reverse, k: L1Key): set<DepKey> {
    if k in reverse then reverse[k] else {}
  }

  function Recorded(t: Tracker, k: L1Key, dk: DepKey): Tracker {
    if HasEdge(t.forward, dk, k) then t
    else if t.total >= t.cap then t.(dropped := t.dropped + 1)
    else
      t.(forward := AddEdge(t.forward, t.floors, dk, k),
         reverse := t.reverse[k := DepsOf(t.reverse, k) + {dk}],
         total := t.total + 1,
         coordinates := if dk in t.forward then t.coordinates else t.coordinates + 1)
  }

  /** The buckets that hold no key but k. */
  function Sole(f: Forward, dks: set<DepKey>, k: L1Key): set<DepKey> {
    set dk | dk in dks && dk in f && f[dk].keys == {k}
  }

  function Removed(t: Tracker, k: L1Key): Tracker {
    if k !in t.reverse then t
    else
      t.(forward := StripKey(t.forward, k),
         reverse := t.reverse - {k},
         total := t.total - |t.reverse[k]|,
         coordinates := t.coordinates - |Sole(t.forward, t.reverse[k], k)|)
  }

  function Bumped(t: Tracker, c: Change): Tracker {
    var s := t.seqNo + 1;
    t.(seqNo := s,
       floors := RaiseFloor(t.floors, c.gvr, s),
       typeFloors := if c.TypeChange? then RaiseFloor(t.typeFloors, c.gvr, s) else t.typeFloors,
       forward := StampHits(t.forward, c, s))
  }

  // ---- agreement of the two indexes and their counters ---------------------------------

  ghost predicate SameEdges(f: Forward, reverse: Reverse) {
    forall dk, k :: HasEdge(f, dk, k) <==> dk in DepsOf(reverse, k)
  }

  ghost predicate NoneEmpty(f: Forward, reverse: Reverse) {
    (forall dk | dk in f :: f[dk].keys != {}) && (forall k | k in reverse :: reverse[k] != {})
  }

  /** Both indexes hold the same edges, nothing empty is kept, the counters count what is
      held and the cap bounds it. */
  ghost predicate Agreed(t: Tracker) {
    && SameEdges(t.forward, t.reverse)
    && NoneEmpty(t.forward, t.reverse)
    && Counted(t.forward, t.total, t.coordinates)
    && t.total <= t.cap
  }

  ghost predicate Counted(f: Forward, total: int, coordinates: int) {
    total == |Edges(f)| && coordinates == |f|
  }

  function KeyEdges(dks: set<DepKey>, k: L1Key): set<(DepKey, L1Key)> {
    set dk | dk in dks :: (dk, k)
  }

  lemma {:induction false} KeyEdgesSize(dks: set<DepKey>, k: L1Key)
    ensures |KeyEdges(dks, k)| == |dks|
  {
    if dks != {} {
      var x :| x in dks;
      KeyEdgesSize(dks - {x}, k);
      assert KeyEdges(dks, k) == KeyEdges(dks - {x}, k) + {(x, k)};
    }
  }

  lemma SubsetSize<T>(a: set<T>, b: set<T>)
    requires a <= b
    ensures |b - a| == |b| - |a|
  {
    assert b == a + (b - a);
  }

  lemma AddEdgeEdges(f: Forward, floors: Floors, reverse: Reverse, dk: DepKey, k: L1Key)
    requires SameEdges(f, reverse)
    ensures Edges(AddEdge(f, floors, dk, k)) == Edges(f) + {(dk, k)}
    ensures SameEdges(AddEdge(f, floors, dk, k), reverse[k := DepsOf(reverse, k) + {dk}])
  {
    var g := AddEdge(f, floors, dk, k);
    var r := reverse[k := DepsOf(reverse, k) + {dk}];
    forall d, x ensures HasEdge(g, d, x) <==> HasEdge(f, d, x) || (d == dk && x == k) {}
    forall d, x ensures HasEdge(g, d, x) <==> d in DepsOf(r, x) {
      assert HasEdge(f, d, x) <==> d in DepsOf(reverse, x);
    }
  }

  lemma GrowSize<T>(s: set<T>, x: T)
    requires x !in s
    ensures |s + {x}| == |s| + 1
  {
  }

  lemma PutSize<K, V>(m: map<K, V>, k: K, v: V)
    ensures |m[k := v]| == |m| + if k in m then 0 else 1
  {
    assert m[k := v].Keys == m.Keys + {k};
    assert |m[k := v]| == |m[k := v].Keys| && |m| == |m.Keys|;
  }

  lemma AddEdgeSizes(f: Forward, floors: Floors, reverse: Reverse, dk: DepKey, k: L1Key)
    requires SameEdges(f, reverse) && !HasEdge(f, dk, k)
    ensures |Edges(AddEdge(f, floors, dk, k))| == |Edges(f)| + 1
    ensures |AddEdge(f, floors, dk, k)| == |f| + if dk in f then 0 else 1
  {
    AddEdgeEdges(f, floors, reverse, dk, k);
    GrowSize(Edges(f), (dk, k));
    PutSize(f, dk, Bucket(BucketFor(f, floors, dk).keys + {k}, BucketFor(f, floors, dk).stamp));
  }

  lemma AddEdgeNoneEmpty(f: Forward, floors: Floors, reverse: Reverse, dk: DepKey, k: L1Key)
    requires NoneEmpty(f, reverse)
    ensures NoneEmpty(AddEdge(f, floors, dk, k), reverse[k := DepsOf(reverse, k) + {dk}])
  {
  }

  lemma AddEdgeCounted(f: Forward, floors: Floors, reverse: Reverse, dk: DepKey, k: L1Key, total: int, coordinates: int)
    requires SameEdges(f, reverse) && !HasEdge(f, dk, k) && Counted(f, total, coordinates)
    ensures Counted(AddEdge(f, floors, dk, k), total + 1, if dk in f then coordinates else coordinates + 1)
  {
    AddEdgeSizes(f, floors, reverse, dk, k);
  }

  /** A record keeps agreement; a record the cap refuses leaves both indexes as they were. */
  lemma RecordAgrees(t: Tracker, k: L1Key, dk: DepKey)
    requires Agreed(t)
    ensures Agreed(Recorded(t, k, dk))
    ensures Recorded(t, k, dk).dropped > t.dropped ==>
              Recorded(t, k, dk).forward == t.forward && Recorded(t, k, dk).reverse == t.reverse
    ensures Recorded(t, k, dk).dropped == t.dropped ==> HasEdge(Recorded(t, k, dk).forward, dk, k)
  {
    if !HasEdge(t.forward, dk, k) && t.total < t.cap {
      var f, r := AddEdge(t.forward, t.floors, dk, k), t.reverse[k := DepsOf(t.reverse, k) + {dk}];
      assert SameEdges(f, r) by { AddEdgeEdges(t.forward, t.floors, t.reverse, dk, k); }
      assert NoneEmpty(f, r) by { AddEdgeNoneEmpty(t.forward, t.floors, t.reverse, dk, k); }
      AddEdgeCounted(t.forward, t.floors, t.reverse, dk, k, t.total, t.coordinates);
      assert Recorded(t, k, dk).forward == f && Recorded(t, k, dk).reverse == r;
    }
  }

  /** The cap is the only thing that refuses a record: below it the pair is held, and a drop is
      counted exactly when an edge was missing and the edges held had reached the cap. */
  lemma RecordAdmits(t: Tracker, k: L1Key, dk: DepKey)
    requires Agreed(t)
    ensures t.total < t.cap ==> HasEdge(Recorded(t, k, dk).forward, dk, k)
    ensures forall d, x :: HasEdge(Recorded(t, k, dk).forward, d, x) <==>
              HasEdge(t.forward, d, x) || (d == dk && x == k && |Edges(t.forward)| < t.cap)
    ensures Recorded(t, k, dk).dropped ==
              t.dropped + if !HasEdge(t.forward, dk, k) && |Edges(t.forward)| >= t.cap then 1 else 0
  {
    forall d, x
      ensures HasEdge(Recorded(t, k, dk).forward, d, x) <==>
                HasEdge(t.forward, d, x) || (d == dk && x == k && |Edges(t.forward)| < t.cap)
    {
      RecordEdge(t, k, dk, d, x);
    }
  }

  lemma RecordEdge(t: Tracker, k: L1Key, dk: DepKey, d: DepKey, x: L1Key)
    ensures HasEdge(Recorded(t, k, dk).forward, d, x) <==>
              HasEdge(t.forward, d, x) || (d == dk && x == k && t.total < t.cap)
  {
  }

  lemma StripEdges(f: Forward, reverse: Reverse, k: L1Key)
    requires SameEdges(f, reverse)
    ensures forall d, x :: HasEdge(StripKey(f, k), d, x) <==> HasEdge(f, d, x) && x != k
    ensures SameEdges(StripKey(f, k), reverse - {k})
    ensures Edges(StripKey(f, k)) == Edges(f) - KeyEdges(DepsOf(reverse, k), k)
    ensures KeyEdges(DepsOf(reverse, k), k) <= Edges(f)
  {
    var g := StripKey(f, k);
    forall d, x ensures HasEdge(g, d, x) <==> HasEdge(f, d, x) && x != k {
      if HasEdge(f, d, x) && x != k { assert x in f[d].keys - {k}; }
    }
    forall d, x ensures HasEdge(g, d, x) <==> d in DepsOf(reverse - {k}, x) {
      assert HasEdge(f, d, x) <==> d in DepsOf(reverse, x);
    }
    forall d | d in DepsOf(reverse, k) ensures (d, k) in Edges(f) { assert HasEdge(f, d, k); }
    forall d, x ensures (d, x) in Edges(g) <==> (d, x) in Edges(f) - KeyEdges(DepsOf(reverse, k), k) {
      assert (d, x) in Edges(f) <==> HasEdge(f, d, x);
      assert (d, x) in Edges(g) <==> HasEdge(g, d, x);
      assert HasEdge(f, d, x) <==> d in DepsOf(reverse, x);
    }
  }

  lemma StripBuckets(f: Forward, reverse: Reverse, k: L1Key)
    requires SameEdges(f, reverse) && k in reverse
    requires forall dk | dk in f :: f[dk].keys != {}
    ensures |StripKey(f, k)| == |f| - |Sole(f, reverse[k], k)|
  {
    forall d | d in f && f[d].keys - {k} == {} ensures d in reverse[k] && f[d].keys == {k} {
      assert HasEdge(f, d, k) by { var x :| x in f[d].keys; }
    }
    assert StripKey(f, k).Keys == f.Keys - Sole(f, reverse[k], k);
    SubsetSize(Sole(f, reverse[k], k), f.Keys);
  }

  /** A removal keeps agreement and leaves no trace of its key; every other edge stays. */
  lemma RemoveAgrees(t: Tracker, k: L1Key)
    requires Agreed(t)
    ensures Agreed(Removed(t, k))
    ensures k !in Removed(t, k).reverse
    ensures forall d, x :: HasEdge(Removed(t, k).forward, d, x) <==> HasEdge(t.forward, d, x) && x != k
  {
    if k in t.reverse {
      StripEdges(t.forward, t.reverse, k);
      StripBuckets(t.forward, t.reverse, k);
      KeyEdgesSize(t.reverse[k], k);
      SubsetSize(KeyEdges(t.reverse[k], k), Edges(t.forward));
    } else {
      forall d ensures !HasEdge(t.forward, d, k) { assert d !in DepsOf(t.reverse, k); }
    }
  }

  lemma BumpAgrees(t: Tracker, c: Change)
    requires Agreed(t)
    ensures Agreed(Bumped(t, c))
  {
    var r := Bumped(t, c);
    forall dk, k ensures HasEdge(r.forward, dk, k) <==> dk in DepsOf(r.reverse, k) {
      assert HasEdge(t.forward, dk, k) <==> dk in DepsOf(t.reverse, k);
    }
    assert Edges(r.forward) == Edges(t.forward);
    assert r.forward.Keys == t.forward.Keys;
  }

  // ---- runs ----------------------------------------------------------------------------

  datatype Op = Rec(k: L1Key, dk: DepKey) | Rem(k: L1Key) | Ev(change: Change)

  function Apply(t: Tracker, op: Op): Tracker {
    match op
    case Rec(k, dk) => Recorded(t, k, dk)
    case Rem(k) => Removed(t, k)
    case Ev(c) => Bumped(t, c)
  }

  /** The tracker after a run of operations. */
  function Run(cap: nat, ops: seq<Op>): Tracker {
    if ops == [] then Empty(cap) else Apply(Run(cap, ops[..|ops| - 1]), ops[|ops| - 1])
  }

  /** Index agreement and conservation hold after every run. */
  lemma {:induction false} RunAgrees(cap: nat, ops: seq<Op>)
    ensures Agreed(Run(cap, ops)) && Run(cap, ops).cap == cap
    decreases |ops|
  {
    if ops == [] {
      assert Edges(map[]) == {};
    } else {
      var t := Run(cap, ops[..|ops| - 1]);
      RunAgrees(cap, ops[..|ops| - 1]);
      match ops[|ops| - 1]
      case Rec(k, dk) => RecordAgrees(t, k, dk);
      case Rem(k) => RemoveAgrees(t, k);
      case Ev(c) => BumpAgrees(t, c);
    }
  }

  // ---- what a run holds ----------------------------------------------------------------

  /** The record at i put the pair in place: the edges held then were below the cap, and its key
      was not removed since. */
  ghost predicate HeldBy(cap: nat, ops: seq<Op>, k: L1Key, dk: DepKey, i: nat) {
    && i < |ops| && ops[i] == Rec(k, dk) && |Edges(Run(cap, ops[..i]).forward)| < cap
    && forall j | i < j < |ops| :: ops[j] != Rem(k)
  }

  lemma HeldMore(cap: nat, init: seq<Op>, op: Op, k: L1Key, dk: DepKey, i: nat)
    requires i <= |init|
    ensures HeldBy(cap, init + [op], k, dk, i) <==>
              if i < |init| then HeldBy(cap, init, k, dk, i) && op != Rem(k)
              else op == Rec(k, dk) && |Edges(Run(cap, init).forward)| < cap
  {
    var all := init + [op];
    assert all[..i] == init[..i] && all[|init|] == op;
    assert forall j | 0 <= j < |init| :: all[j] == init[j];
    assert init[..|init|] == init;
  }

  lemma HeldStep(t: Tracker, op: Op, k: L1Key, dk: DepKey)
    requires Agreed(t)
    ensures HasEdge(Apply(t, op).forward, dk, k) <==>
              (HasEdge(t.forward, dk, k) && op != Rem(k)) || (op == Rec(k, dk) && |Edges(t.forward)| < t.cap)
  {
    match op
    case Rec(x, d) => RecordAdmits(t, x, d);
    case Rem(x) => RemoveAgrees(t, x);
    case Ev(_) =>
  }

  /** Over every run a pair is held if and only if some record of it found room and its key was
      not removed since. */
  lemma {:induction false} HeldExactly(cap: nat, ops: seq<Op>, k: L1Key, dk: DepKey)
    ensures HasEdge(Run(cap, ops).forward, dk, k) <==> exists i: nat :: HeldBy(cap, ops, k, dk, i)
    decreases |ops|
  {
    if ops != [] {
      var n := |ops| - 1;
      var init := ops[..n];
      assert init + [ops[n]] == ops;
      HeldExactly(cap, init, k, dk);
      RunAgrees(cap, init);
      HeldStep(Run(cap, init), ops[n], k, dk);
      forall i: nat | i < |ops|
        ensures HeldBy(cap, ops, k, dk, i) <==>
                  if i < n then HeldBy(cap, init, k, dk, i) && ops[n] != Rem(k)
                  else ops[n] == Rec(k, dk) && |Edges(Run(cap, init).forward)| < cap
      {
        HeldMore(cap, init, ops[n], k, dk, i);
      }
      if HasEdge(Run(cap, init).forward, dk, k) && ops[n] != Rem(k) {
        var i: nat :| HeldBy(cap, init, k, dk, i);
        assert HeldBy(cap, ops, k, dk, i);
      } else if HasEdge(Run(cap, ops).forward, dk, k) {
        assert HeldBy(cap, ops, k, dk, n);
      }
      if i: nat :| HeldBy(cap, ops, k, dk, i) {
        if i < n { assert HeldBy(cap, init, k, dk, i); }
      }
    }
  }

  lemma EdgesStep(t: Tracker, op: Op)
    requires Agreed(t)
    ensures |Edges(Apply(t, op).forward)| <= |Edges(t.forward)| + 1
  {
    match op
    case Rec(k, dk) => RecordAgrees(t, k, dk);
    case Rem(k) =>
      RemoveAgrees(t, k);
      if k in t.reverse { StripEdges(t.forward, t.reverse, k); SubsetSize(Edges(Removed(t, k).forward), Edges(t.forward)); }
    case Ev(c) => BumpAgrees(t, c);
  }

  lemma {:induction false} EdgesBounded(cap: nat, ops: seq<Op>)
    ensures |Edges(Run(cap, ops).forward)| <= |ops|
    decreases |ops|
  {
    if ops == [] {
      assert Edges(map[]) == {};
    } else {
      EdgesBounded(cap, ops[..|ops| - 1]);
      RunAgrees(cap, ops[..|ops| - 1]);
      EdgesStep(Run(cap, ops[..|ops| - 1]), ops[|ops| - 1]);
    }
  }

  /** With a cap the run cannot reach: held if and only if a record came after every removal. */
  lemma HeldUncapped(cap: nat, ops: seq<Op>, k: L1Key, dk: DepKey)
    requires |ops| <= cap
    ensures HasEdge(Run(cap, ops).forward, dk, k) <==>
              exists i: nat | i < |ops| :: ops[i] == Rec(k, dk) && forall j | i < j < |ops| :: ops[j] != Rem(k)
  {
    HeldExactly(cap, ops, k, dk);
    forall i: nat | i < |ops| ensures |Edges(Run(cap, ops[..i]).forward)| < cap { EdgesBounded(cap, ops[..i]); }
    if i: nat :| i < |ops| && ops[i] == Rec(k, dk) && forall j | i < j < |ops| :: ops[j] != Rem(k) {
      assert HeldBy(cap, ops, k, dk, i);
    }
  }

  /** The number of events in a run, which is the sequence number of the newest. */
  function Events(ops: seq<Op>): nat {
    if ops == [] then 0 else Events(ops[..|ops| - 1]) + if ops[|ops| - 1].Ev? then 1 else 0
  }

  /** The sequence number the event at position i took. */
  function SeqAt(ops: seq<Op>, i: nat): nat
    requires i < |ops|
  {
    Events(ops[..i + 1])
  }

  predicate OnGVR(op: Op, g: GVR) { op.Ev? && op.change.gvr == g }

  predicate OnKey(op: Op, dk: DepKey) { op.Ev? && Hits(op.change, dk) }

  /** The sequence number of the newest event on a GVR; 0 when there was none. */
  function Newest(ops: seq<Op>, g: GVR): nat {
    if ops == [] then 0
    else if OnGVR(ops[|ops| - 1], g) then Events(ops)
    else Newest(ops[..|ops| - 1], g)
  }

  /** A bucket is never ahead of the floor of its GVR, nor the floor of the sequence. */
  predicate Ordered(t: Tracker, dk: DepKey) {
    MovedAt(t.forward, t.floors, dk) <= FloorOf(t.floors, dk.gvr) <= t.seqNo
    && FloorOf(t.typeFloors, dk.gvr) <= FloorOf(t.floors, dk.gvr)
  }

  lemma OrderedStep(t: Tracker, op: Op, dk: DepKey)
    requires Ordered(t, dk)
    ensures Ordered(Apply(t, op), dk)
    ensures Apply(t, op).seqNo == t.seqNo + if op.Ev? then 1 else 0
    ensures FloorOf(Apply(t, op).floors, dk.gvr) == if OnGVR(op, dk.gvr) then t.seqNo + 1 else FloorOf(t.floors, dk.gvr)
    ensures MovedAt(Apply(t, op).forward, Apply(t, op).floors, dk) >= MovedAt(t.forward, t.floors, dk)
    ensures OnKey(op, dk) ==> MovedAt(Apply(t, op).forward, Apply(t, op).floors, dk) == t.seqNo + 1
    ensures FloorOf(Apply(t, op).typeFloors, dk.gvr) >= FloorOf(t.typeFloors, dk.gvr)
    ensures OnGVR(op, dk.gvr) && op.change.TypeChange? ==> FloorOf(Apply(t, op).typeFloors, dk.gvr) == t.seqNo + 1
  {
  }

  /** The floor of a GVR is exactly the newest event on it. */
  lemma {:induction false} RunOrdered(cap: nat, ops: seq<Op>, dk: DepKey)
    ensures Ordered(Run(cap, ops), dk) && Run(cap, ops).seqNo == Events(ops)
    ensures FloorOf(Run(cap, ops).floors, dk.gvr) == Newest(ops, dk.gvr)
    decreases |ops|
  {
    if ops != [] {
      RunOrdered(cap, ops[..|ops| - 1], dk);
      OrderedStep(Run(cap, ops[..|ops| - 1]), ops[|ops| - 1], dk);
    }
  }

  /** The dependency, and the type floor of its GVR, are at least at a sequence number. */
  predicate AtLeast(t: Tracker, op: Op, dk: DepKey, at: nat) {
    && (OnKey(op, dk) ==> MovedAt(t.forward, t.floors, dk) >= at)
    && (OnGVR(op, dk.gvr) && op.change.TypeChange? ==> FloorOf(t.typeFloors, dk.gvr) >= at)
  }

  lemma AtLeastStep(t: Tracker, next: Op, op: Op, dk: DepKey, at: nat)
    requires Ordered(t, dk)
    requires AtLeast(t, op, dk, at) || (op == next && at == t.seqNo + 1)
    ensures AtLeast(Apply(t, next), op, dk, at)
  {
    OrderedStep(t, next, dk);
  }

  /** No dependency falls behind an event that hit it, even when its bucket was pruned and
      created again since; nor a type floor behind a type event. */
  lemma {:induction false} NeverBehind(cap: nat, ops: seq<Op>, dk: DepKey, i: nat)
    requires i < |ops| && ops[i].Ev?
    ensures AtLeast(Run(cap, ops), ops[i], dk, SeqAt(ops, i))
    decreases |ops|
  {
    var n := |ops| - 1;
    RunOrdered(cap, ops[..n], dk);
    if i == n {
      assert ops[..i + 1] == ops;
    } else {
      assert ops[..n][..i + 1] == ops[..i + 1];
      NeverBehind(cap, ops[..n], dk, i);
    }
    AtLeastStep(Run(cap, ops[..n]), ops[n], ops[i], dk, SeqAt(ops, i));
  }

  /** The move test never forgets and never invents. Over any run, a dependency reads as
      moved since every sequence number below any event that hit it, whatever was recorded,
      removed, pruned or created again since; and it never reads as moved since a sequence
      number at or above the newest event of its GVR. */
  lemma MoveTestNeverForgets(cap: nat, ops: seq<Op>, dk: DepKey)
    ensures forall i, q: nat | 0 <= i < |ops| && OnKey(ops[i], dk) && q < SeqAt(ops, i) ::
              MovedSince(Run(cap, ops).forward, Run(cap, ops).floors, dk, q)
    ensures forall q: nat | q >= Newest(ops, dk.gvr) ::
              !MovedSince(Run(cap, ops).forward, Run(cap, ops).floors, dk, q)
  {
    RunOrdered(cap, ops, dk);
    forall i, q: nat | 0 <= i < |ops| && OnKey(ops[i], dk) && q < SeqAt(ops, i)
      ensures MovedSince(Run(cap, ops).forward, Run(cap, ops).floors, dk, q)
    {
      NeverBehind(cap, ops, dk, i);
    }
  }

  // ---- the move test, exactly ----------------------------------------------------------

  /** Some key holds the dependency. */
  ghost predicate Depended(cap: nat, ops: seq<Op>, dk: DepKey) {
    exists k, i: nat :: HeldBy(cap, ops, k, dk, i)
  }

  /** The sequence number of the last event that hit the dependency, except that while nobody
      depended on it every event on its GVR counts. */
  ghost function LastMove(cap: nat, ops: seq<Op>, dk: DepKey): nat {
    if ops == [] then 0
    else if OnKey(ops[|ops| - 1], dk) then Events(ops)
    else if !Depended(cap, ops, dk) then Newest(ops, dk.gvr)
    else LastMove(cap, ops[..|ops| - 1], dk)
  }

  lemma DependedHeld(cap: nat, ops: seq<Op>, dk: DepKey)
    ensures Depended(cap, ops, dk) <==> dk in Run(cap, ops).forward
  {
    RunAgrees(cap, ops);
    if dk in Run(cap, ops).forward {
      var k :| k in Run(cap, ops).forward[dk].keys;
      HeldExactly(cap, ops, k, dk);
    }
    if k, i: nat :| HeldBy(cap, ops, k, dk, i) { HeldExactly(cap, ops, k, dk); }
  }

  /** A bucket that outlives an operation that does not hit it moves neither way; one the
      operation creates starts at the floor. */
  lemma MoveKept(t: Tracker, op: Op, dk: DepKey)
    requires dk in Apply(t, op).forward && !OnKey(op, dk)
    ensures MovedAt(Apply(t, op).forward, Apply(t, op).floors, dk) == MovedAt(t.forward, t.floors, dk)
  {
  }

  /** What the move test judges a dependency by, over every run. */
  lemma {:induction false} MovedExactly(cap: nat, ops: seq<Op>, dk: DepKey)
    ensures MovedAt(Run(cap, ops).forward, Run(cap, ops).floors, dk) == LastMove(cap, ops, dk)
    decreases |ops|
  {
    RunOrdered(cap, ops, dk);
    DependedHeld(cap, ops, dk);
    if ops != [] {
      var init, op := ops[..|ops| - 1], ops[|ops| - 1];
      RunOrdered(cap, init, dk);
      OrderedStep(Run(cap, init), op, dk);
      MovedExactly(cap, init, dk);
      if !OnKey(op, dk) && Depended(cap, ops, dk) { MoveKept(Run(cap, init), op, dk); }
    }
  }

  // ---- content stamps ------------------------------------------------------------------

  /** A content cell's own coordinate; an empty name is the list. */
  function ContentKey(gvr: GVR, namespace: string, name: string): DepKey {
    DepKey(gvr, namespace, if name == "" then LIST_WILDCARD else name)
  }

  predicate Covers(f: Forward, floors: Floors, typeFloors: Floors, dk: DepKey, asOf: nat, need: nat) {
    asOf != 0 && (asOf >= need || (!MovedSince(f, floors, dk, asOf) && FloorOf(typeFloors, dk.gvr) <= asOf))
  }

  predicate ContentStampCovers(t: Tracker, gvr: GVR, namespace: string, name: string, asOf: nat, need: nat) {
    Covers(t.forward, t.floors, t.typeFloors, ContentKey(gvr, namespace, name), asOf, need)
  }

  /** The events a content cell must reflect: object events on its coordinate and every
      type event on its GVR. */
  predicate TouchesContent(c: Change, dk: DepKey) {
    Hits(c, dk) || (c.TypeChange? && c.gvr == dk.gvr)
  }

  predicate OnContent(op: Op, dk: DepKey) { op.Ev? && TouchesContent(op.change, dk) }

  lemma {:induction false} NewestIsAnEvent(ops: seq<Op>, g: GVR) returns (i: nat)
    requires Newest(ops, g) > 0
    ensures i < |ops| && OnGVR(ops[i], g) && SeqAt(ops, i) == Newest(ops, g)
    decreases |ops|
  {
    var n := |ops| - 1;
    if OnGVR(ops[n], g) {
      i := n;
      assert ops[..i + 1] == ops;
    } else {
      i := NewestIsAnEvent(ops[..n], g);
      assert ops[..n][..i + 1] == ops[..i + 1];
    }
  }

  /** Reuse is safe: a covered cell, read at asOf, has seen every event it must reflect that
      the refresh needs. */
  lemma ContentStampSafe(cap: nat, ops: seq<Op>, gvr: GVR, namespace: string, name: string, asOf: nat, need: nat)
    requires ContentStampCovers(Run(cap, ops), gvr, namespace, name, asOf, need)
    ensures forall i | 0 <= i < |ops| && OnContent(ops[i], ContentKey(gvr, namespace, name))
              && SeqAt(ops, i) <= need :: SeqAt(ops, i) <= asOf
  {
    var dk := ContentKey(gvr, namespace, name);
    forall i | 0 <= i < |ops| && OnContent(ops[i], dk) && SeqAt(ops, i) <= need ensures SeqAt(ops, i) <= asOf {
      NeverBehind(cap, ops, dk, i);
    }
  }

  /** A refusal is never idle: the cell's read is unknown, or something on its GVR happened
      after it. */
  lemma ContentStampRefusal(cap: nat, ops: seq<Op>, gvr: GVR, namespace: string, name: string, asOf: nat, need: nat)
    requires !ContentStampCovers(Run(cap, ops), gvr, namespace, name, asOf, need)
    ensures asOf == 0 || (asOf < need && exists i | 0 <= i < |ops| :: OnGVR(ops[i], gvr) && SeqAt(ops, i) > asOf)
  {
    if asOf != 0 {
      RunOrdered(cap, ops, ContentKey(gvr, namespace, name));
      var i := NewestIsAnEvent(ops, gvr);
      assert OnGVR(ops[i], gvr) && SeqAt(ops, i) > asOf;
    }
  }

  predicate OnType(op: Op, g: GVR) { OnGVR(op, g) && op.change.TypeChange? }

  lemma TypeFloorStep(t: Tracker, op: Op, dk: DepKey)
    requires Ordered(t, dk)
    ensures FloorOf(Apply(t, op).typeFloors, dk.gvr) == if OnType(op, dk.gvr) then t.seqNo + 1 else FloorOf(t.typeFloors, dk.gvr)
  {
  }

  /** Every type event on a GVR came at or below a sequence number. */
  ghost predicate TypesBelow(ops: seq<Op>, g: GVR, asOf: nat) {
    forall i: nat | i < |ops| && OnType(ops[i], g) :: SeqAt(ops, i) <= asOf
  }

  lemma TypesBelowMore(init: seq<Op>, op: Op, g: GVR, asOf: nat)
    ensures TypesBelow(init + [op], g, asOf) <==> TypesBelow(init, g, asOf) && (OnType(op, g) ==> Events(init + [op]) <= asOf)
  {
    var all, n := init + [op], |init|;
    assert all[n] == op && all[..n + 1] == all;
    forall i: nat | i < n ensures all[i] == init[i] && SeqAt(all, i) == SeqAt(init, i) { assert all[..i + 1] == init[..i + 1]; }
    if TypesBelow(all, g, asOf) {
      forall i: nat | i < n && OnType(init[i], g) ensures SeqAt(init, i) <= asOf { assert OnType(all[i], g); }
    }
  }

  /** What was at or below some number stays so in a longer run. */
  lemma AllTypesBelow(init: seq<Op>, g: GVR, asOf: nat)
    requires Events(init) <= asOf
    ensures TypesBelow(init, g, asOf)
  {
    forall i: nat | i < |init| ensures SeqAt(init, i) <= asOf {
      EventsMonotone(init, i + 1, |init|);
      assert init[..|init|] == init;
    }
  }

  /** The type floor of a GVR is at most a sequence number exactly when no type event on it came
      after. */
  lemma {:induction false} TypeFloorMeaning(cap: nat, ops: seq<Op>, dk: DepKey, asOf: nat)
    ensures FloorOf(Run(cap, ops).typeFloors, dk.gvr) <= asOf <==>
              forall i: nat | i < |ops| && OnType(ops[i], dk.gvr) :: SeqAt(ops, i) <= asOf
    decreases |ops|
  {
    if ops != [] {
      var init, op := ops[..|ops| - 1], ops[|ops| - 1];
      assert init + [op] == ops;
      TypeFloorMeaning(cap, init, dk, asOf);
      assert FloorOf(Run(cap, init).typeFloors, dk.gvr) <= asOf <==> TypesBelow(init, dk.gvr, asOf);
      RunOrdered(cap, init, dk);
      TypeFloorStep(Run(cap, init), op, dk);
      TypesBelowMore(init, op, dk.gvr, asOf);
      if OnType(op, dk.gvr) && Events(ops) <= asOf { AllTypesBelow(init, dk.gvr, asOf); }
      assert FloorOf(Run(cap, ops).typeFloors, dk.gvr) <= asOf <==> TypesBelow(ops, dk.gvr, asOf);
    }
  }

  lemma {:induction false} EventsMonotone(ops: seq<Op>, i: nat, j: nat)
    requires i <= j <= |ops|
    ensures Events(ops[..i]) <= Events(ops[..j])
    decreases j
  {
    if i < j {
      assert ops[..j][..j - 1] == ops[..j - 1];
      EventsMonotone(ops, i, j - 1);
    }
  }

  /** Exactly when a content cell is reused: its read is known, and it either reaches the needed
      sequence, or saw the last move of its coordinate and every type event on its GVR. */
  lemma ContentStampExactly(cap: nat, ops: seq<Op>, gvr: GVR, namespace: string, name: string, asOf: nat, need: nat)
    ensures ContentStampCovers(Run(cap, ops), gvr, namespace, name, asOf, need) <==>
              && asOf != 0
              && (asOf >= need
                  || (&& LastMove(cap, ops, DepKey(gvr, namespace, if name == "" then "*" else name)) <= asOf
                      && forall i: nat | i < |ops| && OnType(ops[i], gvr) :: SeqAt(ops, i) <= asOf))
  {
    MovedExactly(cap, ops, ContentKey(gvr, namespace, name));
    TypeFloorMeaning(cap, ops, ContentKey(gvr, namespace, name), asOf);
  }
}
