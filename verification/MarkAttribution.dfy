/** Dirty-mark attribution: one writer splits every event's marks by cause and class, by entry
    class and by resource, so that the splits always add up to the total. */
module MarkAttribution {
  import opened DepKeys
  import opened DepIndex
  import opened DepTrackers

  datatype Path = ObjectPath | TypePath

  datatype Cause = AddUpdate | Delete | DegradedProbe | CRDAdd | CRDDelete

  datatype MarkBucket = MarkBucket(path: Path, cause: Cause, markClass: MarkClass)

  const GVR_CAP: nat := 256
  const GVR_OTHER: string := "__other__"

  /** unknown, the five registered entry classes, unregistered. */
  const ENTRY_CLASSES: nat := 7

  /** The combinations the classifiers can emit. */
  const VALID_BUCKETS: set<MarkBucket> := {
    MarkBucket(ObjectPath, AddUpdate, SelfMark), MarkBucket(ObjectPath, AddUpdate, ListMark),
    MarkBucket(ObjectPath, AddUpdate, ExactMark), MarkBucket(ObjectPath, DegradedProbe, SelfMark),
    MarkBucket(ObjectPath, DegradedProbe, ListMark), MarkBucket(ObjectPath, DegradedProbe, ExactMark),
    MarkBucket(ObjectPath, Delete, ListMark), MarkBucket(ObjectPath, Delete, ExactMark),
    MarkBucket(TypePath, CRDAdd, ListMark),
    MarkBucket(TypePath, CRDDelete, ListMark), MarkBucket(TypePath, CRDDelete, ExactMark)}

  function CauseForState(state: ObjectState): Cause {
    match state
    case Absent => Delete
    case Degraded => DegradedProbe
    case Exists => AddUpdate
  }

  // ---- sums ----------------------------------------------------------------------------

  ghost function SumMap<K>(m: map<K, nat>): nat {
    if m == map[] then 0
    else
      var k :| k in m;
      m[k] + SumMap(m - {k})
  }

  lemma {:induction false} SumMapRemove<K>(m: map<K, nat>, k: K)
    requires k in m
    ensures SumMap(m) == m[k] + SumMap(m - {k})
    decreases |m|
  {
    var x :| x in m && SumMap(m) == m[x] + SumMap(m - {x});
    if x != k {
      SumMapRemove(m - {x}, k);
      SumMapRemove(m - {k}, x);
      assert m - {x} - {k} == m - {k} - {x};
    }
  }

  lemma SumMapPut<K>(m: map<K, nat>, k: K, v: nat)
    ensures SumMap(m[k := v]) == SumMap(m) + v - if k in m then m[k] else 0
  {
    var n := m[k := v];
    SumMapRemove(n, k);
    if k in m {
      SumMapRemove(m, k);
      assert n - {k} == m - {k};
    } else {
      assert n - {k} == m;
    }
  }

  function SumSeq(s: seq<nat>): nat {
    if s == [] then 0 else SumSeq(s[..|s| - 1]) + s[|s| - 1]
  }

  function Added(a: seq<nat>, b: seq<nat>): seq<nat>
    requires |a| == |b|
  {
    seq(|a|, i requires 0 <= i < |a| => a[i] + b[i])
  }

  lemma {:induction false} SumAdded(a: seq<nat>, b: seq<nat>)
    requires |a| == |b|
    ensures SumSeq(Added(a, b)) == SumSeq(a) + SumSeq(b)
    decreases |a|
  {
    if a != [] {
      var n := |a| - 1;
      SumAdded(a[..n], b[..n]);
      assert Added(a, b)[..n] == Added(a[..n], b[..n]);
    }
  }

  // ---- the single writer ---------------------------------------------------------------

  datatype Attribution = Attribution(
    total: nat,
    byBucket: map<MarkBucket, nat>,
    unattributed: nat,
    byEntryClass: seq<nat>,
    events: nat,
    gvr: map<string, nat>)

  function Fresh(): Attribution {
    Attribution(0, map b | b in VALID_BUCKETS :: 0, 0, seq(ENTRY_CLASSES, _ => 0), 0, map[])
  }

  type Counts = map<MarkClass, nat>

  /** The buckets after the marks of some classes under one path and cause. */
  function Bumped(buckets: map<MarkBucket, nat>, path: Path, cause: Cause, counts: Counts): map<MarkBucket, nat> {
    map b | b in buckets :: buckets[b] + if b.path == path && b.cause == cause && b.markClass in counts then counts[b.markClass] else 0
  }

  /** The marks of classes no bucket is registered for. */
  function Strays(buckets: map<MarkBucket, nat>, path: Path, cause: Cause, counts: Counts): Counts {
    map m | m in counts && MarkBucket(path, cause, m) !in buckets :: counts[m]
  }

  function AddAt<K>(m: map<K, nat>, k: K, n: nat): map<K, nat> {
    m[k := (if k in m then m[k] else 0) + n]
  }

  lemma AddAtSum<K>(m: map<K, nat>, k: K, n: nat)
    ensures SumMap(AddAt(m, k, n)) == SumMap(m) + n
  {
    SumMapPut(m, k, (if k in m then m[k] else 0) + n);
  }

  /** The drill-down past its cap folds new resources into one overflow entry. */
  function DrillKey(m: map<string, nat>, g: string): string {
    if g !in m && |m| >= GVR_CAP then GVR_OTHER else g
  }

  function DrillDown(m: map<string, nat>, g: string, n: nat): map<string, nat> {
    AddAt(m, DrillKey(m, g), n)
  }

  /** The counters once n marks are counted, of which `strays` had no bucket. */
  function Moved(a: Attribution, buckets: map<MarkBucket, nat>, strays: nat, n: nat, entry: seq<nat>, g: string): Attribution
    requires |entry| == |a.byEntryClass|
  {
    var a1 := a.(byBucket := buckets, unattributed := a.unattributed + strays);
    if n == 0 then a1
    else a1.(total := a.total + n, byEntryClass := Added(a.byEntryClass, entry), events := a.events + 1,
             gvr := DrillDown(a.gvr, g, n))
  }

  ghost function Recorded(a: Attribution, path: Path, cause: Cause, counts: Counts, entry: seq<nat>, g: string): Attribution
    requires |entry| == |a.byEntryClass|
  {
    Moved(a, Bumped(a.byBucket, path, cause, counts), SumMap(Strays(a.byBucket, path, cause, counts)), SumMap(counts), entry, g)
  }

  function PutIn(m: Counts, b: bool, k: MarkClass, n: nat): Counts { if b then m[k := n] else m }

  function AddTo(m: map<MarkBucket, nat>, b: MarkBucket, n: nat): map<MarkBucket, nat> {
    if b in m then AddAt(m, b, n) else m
  }

  /** One more class counted moves one bucket, or the guard. */
  lemma BumpedMore(buckets: map<MarkBucket, nat>, path: Path, cause: Cause, counts: Counts, m: MarkClass, n: nat)
    requires m !in counts
    ensures Bumped(buckets, path, cause, counts[m := n]) == AddTo(Bumped(buckets, path, cause, counts), MarkBucket(path, cause, m), n)
  {
    var was, now := Bumped(buckets, path, cause, counts), Bumped(buckets, path, cause, counts[m := n]);
    var next := AddTo(was, MarkBucket(path, cause, m), n);
    assert now.Keys == buckets.Keys && next.Keys == was.Keys == buckets.Keys;
    forall b | b in buckets ensures now[b] == next[b] {
      if b == MarkBucket(path, cause, m) { assert was[b] == buckets[b]; }
    }
  }

  lemma StraysMore(buckets: map<MarkBucket, nat>, path: Path, cause: Cause, counts: Counts, m: MarkClass, n: nat)
    requires m !in counts
    ensures Strays(buckets, path, cause, counts[m := n]) ==
              PutIn(Strays(buckets, path, cause, counts), MarkBucket(path, cause, m) !in buckets, m, n)
    ensures m !in Strays(buckets, path, cause, counts)
  {
  }

  lemma PutInSum(m: Counts, b: bool, k: MarkClass, n: nat)
    requires k !in m
    ensures SumMap(PutIn(m, b, k, n)) == SumMap(m) + if b then n else 0
  {
    SumMapPut(m, k, n);
  }

  lemma AddToSum(m: map<MarkBucket, nat>, b: MarkBucket, n: nat)
    ensures SumMap(AddTo(m, b, n)) == SumMap(m) + if b in m then n else 0
  {
    if b in m { AddAtSum(m, b, n); }
  }

  /** Whatever the counts, every mark lands in a bucket or in the guard. */
  lemma {:induction false} BumpedSum(buckets: map<MarkBucket, nat>, path: Path, cause: Cause, counts: Counts)
    ensures SumMap(Bumped(buckets, path, cause, counts)) + SumMap(Strays(buckets, path, cause, counts))
            == SumMap(buckets) + SumMap(counts)
    decreases |counts|
  {
    if counts == map[] {
      assert Bumped(buckets, path, cause, counts) == buckets;
      assert Strays(buckets, path, cause, counts) == map[];
    } else {
      var m :| m in counts;
      BumpedSum(buckets, path, cause, counts - {m});
      BumpedSumMore(buckets, path, cause, counts - {m}, m, counts[m]);
      assert (counts - {m})[m := counts[m]] == counts;
    }
  }

  lemma BumpedSumMore(buckets: map<MarkBucket, nat>, path: Path, cause: Cause, counts: Counts, m: MarkClass, n: nat)
    requires m !in counts
    ensures SumMap(Bumped(buckets, path, cause, counts[m := n])) + SumMap(Strays(buckets, path, cause, counts[m := n]))
            == SumMap(Bumped(buckets, path, cause, counts)) + SumMap(Strays(buckets, path, cause, counts)) + n
    ensures SumMap(counts[m := n]) == SumMap(counts) + n
    ensures SumMap(Strays(buckets, path, cause, counts[m := n])) ==
              SumMap(Strays(buckets, path, cause, counts)) + if MarkBucket(path, cause, m) in buckets then 0 else n
  {
    var b := MarkBucket(path, cause, m);
    BumpedMore(buckets, path, cause, counts, m, n);
    StraysMore(buckets, path, cause, counts, m, n);
    AddToSum(Bumped(buckets, path, cause, counts), b, n);
    PutInSum(Strays(buckets, path, cause, counts), b !in buckets, m, n);
    PutInSum(counts, true, m, n);
  }

  /** The three splits of the total agree with it, and the drill-down is bounded. */
  ghost predicate Sums(a: Attribution) {
    && a.total == SumMap(a.byBucket) + a.unattributed
    && a.total == SumSeq(a.byEntryClass)
    && a.total == SumMap(a.gvr)
    && |a.byEntryClass| == ENTRY_CLASSES
    && Capped(a.gvr)
  }

  predicate Capped(m: map<string, nat>) {
    |m| <= GVR_CAP || (|m| == GVR_CAP + 1 && GVR_OTHER in m)
  }

  lemma PutSize<K>(m: map<K, nat>, k: K, v: nat)
    ensures |m[k := v]| == |m| + if k in m then 0 else 1
  {
    assert m[k := v].Keys == m.Keys + {k};
    assert |m[k := v]| == |m[k := v].Keys| && |m| == |m.Keys|;
  }

  lemma DrillDownCapped(m: map<string, nat>, g: string, n: nat)
    requires Capped(m)
    ensures Capped(DrillDown(m, g, n))
  {
    var key := DrillKey(m, g);
    PutSize(m, key, (if key in m then m[key] else 0) + n);
  }

  lemma RecordedSums(a: Attribution, path: Path, cause: Cause, counts: Counts, entry: seq<nat>, g: string)
    requires Sums(a) && |entry| == ENTRY_CLASSES && SumSeq(entry) == SumMap(counts)
    ensures Sums(Recorded(a, path, cause, counts, entry, g))
  {
    BumpedSum(a.byBucket, path, cause, counts);
    SumAdded(a.byEntryClass, entry);
    AddAtSum(a.gvr, DrillKey(a.gvr, g), SumMap(counts));
    DrillDownCapped(a.gvr, g, SumMap(counts));
  }

  // ---- events --------------------------------------------------------------------------

  /** The marks of one event, each with its class and its entry class. */
  datatype MarkEvent = MarkEvent(path: Path, cause: Cause, marked: map<L1Key, MarkClass>, entryOf: map<L1Key, nat>, gvr: string)

  /** A gone object never marks its own representation, a type event has no self class, and a
      type becoming available reaches list edges only. */
  predicate Emittable(e: MarkEvent) {
    && e.marked.Keys <= e.entryOf.Keys
    && (forall k | k in e.entryOf :: e.entryOf[k] < ENTRY_CLASSES)
    && (e.path.ObjectPath? <==> e.cause in {AddUpdate, Delete, DegradedProbe})
    && (forall k | k in e.marked ::
          && (e.cause.Delete? || e.path.TypePath? ==> !e.marked[k].SelfMark?)
          && (e.cause.CRDAdd? ==> e.marked[k].ListMark?))
  }

  function WithClass<K>(marked: map<K, MarkClass>, m: MarkClass): set<K> {
    set k | k in marked && marked[k] == m
  }

  /** The per-class tally of a mark loop. */
  function CountsOf<K>(marked: map<K, MarkClass>): Counts {
    map m | m in marked.Values :: |WithClass(marked, m)|
  }

  function WithEntry<K>(marked: map<K, MarkClass>, entryOf: map<K, nat>, i: nat): set<K>
    requires marked.Keys <= entryOf.Keys
  {
    set k | k in marked && entryOf[k] == i
  }

  function EntryTally<K>(marked: map<K, MarkClass>, entryOf: map<K, nat>, n: nat): seq<nat>
    requires marked.Keys <= entryOf.Keys
  {
    seq(n, i requires 0 <= i < n => |WithEntry(marked, entryOf, i)|)
  }

  function Below<K>(marked: map<K, MarkClass>, entryOf: map<K, nat>, n: nat): set<K>
    requires marked.Keys <= entryOf.Keys
  {
    set k | k in marked && entryOf[k] < n
  }

  lemma BelowMore<K>(marked: map<K, MarkClass>, entryOf: map<K, nat>, n: nat)
    requires marked.Keys <= entryOf.Keys
    ensures |Below(marked, entryOf, n + 1)| == |Below(marked, entryOf, n)| + |WithEntry(marked, entryOf, n)|
  {
    assert Below(marked, entryOf, n + 1) == Below(marked, entryOf, n) + WithEntry(marked, entryOf, n);
  }

  lemma {:induction false} TallySum<K>(marked: map<K, MarkClass>, entryOf: map<K, nat>, n: nat)
    requires marked.Keys <= entryOf.Keys
    ensures SumSeq(EntryTally(marked, entryOf, n)) == |Below(marked, entryOf, n)|
    decreases n
  {
    if n == 0 {
      assert Below(marked, entryOf, 0) == {};
    } else {
      TallySum(marked, entryOf, n - 1);
      BelowMore(marked, entryOf, n - 1);
      assert EntryTally(marked, entryOf, n)[..n - 1] == EntryTally(marked, entryOf, n - 1);
    }
  }

  lemma {:induction false} CountsSum<K>(marked: map<K, MarkClass>, counts: Counts)
    requires forall m | m in counts :: counts[m] == |WithClass(marked, m)|
    ensures SumMap(counts) == |set k | k in marked && marked[k] in counts|
    decreases |counts|
  {
    var part := set k | k in marked && marked[k] in counts;
    if counts == map[] {
      assert part == {};
    } else {
      var m :| m in counts;
      CountsSum(marked, counts - {m});
      SumMapRemove(counts, m);
      var rest := set k | k in marked && marked[k] in counts - {m};
      assert part == rest + WithClass(marked, m);
    }
  }

  /** The class counts and the entry-class tally of one event count the same marks. */
  lemma EventTallies(e: MarkEvent)
    requires Emittable(e)
    ensures SumMap(CountsOf(e.marked)) == |e.marked| == SumSeq(EntryTally(e.marked, e.entryOf, ENTRY_CLASSES))
  {
    TallySum(e.marked, e.entryOf, ENTRY_CLASSES);
    CountsSum(e.marked, CountsOf(e.marked));
    assert Below(e.marked, e.entryOf, ENTRY_CLASSES) == e.marked.Keys;
    assert (set k | k in e.marked && e.marked[k] in CountsOf(e.marked)) == e.marked.Keys;
  }

  ghost function Step(a: Attribution, e: MarkEvent): Attribution
    requires Emittable(e) && |a.byEntryClass| == ENTRY_CLASSES
  {
    Recorded(a, e.path, e.cause, CountsOf(e.marked), EntryTally(e.marked, e.entryOf, ENTRY_CLASSES), e.gvr)
  }

  ghost function Run(es: seq<MarkEvent>): (a: Attribution)
    requires forall e | e in es :: Emittable(e)
    ensures |a.byEntryClass| == ENTRY_CLASSES
  {
    if es == [] then Fresh() else Step(Run(es[..|es| - 1]), es[|es| - 1])
  }

  lemma {:induction false} ZeroSums(ks: set<MarkBucket>)
    ensures SumMap(map k | k in ks :: 0) == 0
    decreases |ks|
  {
    var m: map<MarkBucket, nat> := map k | k in ks :: 0;
    if ks != {} {
      var k :| k in ks;
      SumMapRemove(m, k);
      ZeroSums(ks - {k});
      assert m - {k} == map x | x in ks - {k} :: 0;
    }
  }

  lemma {:induction false} ZeroSeq(n: nat)
    ensures SumSeq(seq(n, _ => 0)) == 0
    decreases n
  {
    if n > 0 {
      ZeroSeq(n - 1);
      assert seq(n, _ => 0)[..n - 1] == seq(n - 1, _ => 0);
    }
  }

  /** The marks a run put in a bucket, counted from the events. */
  function MarksIn(es: seq<MarkEvent>, b: MarkBucket): nat {
    if es == [] then 0
    else
      var e := es[|es| - 1];
      MarksIn(es[..|es| - 1], b) + if e.path == b.path && e.cause == b.cause then |WithClass(e.marked, b.markClass)| else 0
  }

  lemma EmitsValid(e: MarkEvent)
    requires Emittable(e)
    ensures forall m | m in CountsOf(e.marked) :: MarkBucket(e.path, e.cause, m) in VALID_BUCKETS
  {
    forall m | m in CountsOf(e.marked) ensures MarkBucket(e.path, e.cause, m) in VALID_BUCKETS {
      var k :| k in e.marked && e.marked[k] == m;
      match e.cause
      case AddUpdate =>
      case Delete =>
      case DegradedProbe =>
      case CRDAdd =>
      case CRDDelete =>
    }
  }

  lemma CountsIn(marked: map<L1Key, MarkClass>, m: MarkClass)
    ensures (if m in CountsOf(marked) then CountsOf(marked)[m] else 0) == |WithClass(marked, m)|
  {
    if m !in CountsOf(marked) {
      assert forall k | k in marked :: marked[k] in marked.Values;
      assert WithClass(marked, m) == {};
    }
  }

  lemma NoStrays(buckets: map<MarkBucket, nat>, path: Path, cause: Cause, counts: Counts)
    requires forall m | m in counts :: MarkBucket(path, cause, m) in buckets
    ensures SumMap(Strays(buckets, path, cause, counts)) == 0
  {
    assert Strays(buckets, path, cause, counts) == map[];
  }

  lemma StepMoves(a: Attribution, e: MarkEvent)
    requires Emittable(e) && |a.byEntryClass| == ENTRY_CLASSES
    ensures Step(a, e).byBucket == Bumped(a.byBucket, e.path, e.cause, CountsOf(e.marked))
    ensures Step(a, e).unattributed == a.unattributed + SumMap(Strays(a.byBucket, e.path, e.cause, CountsOf(e.marked)))
    ensures Step(a, e).total == a.total + SumMap(CountsOf(e.marked))
  {
  }

  lemma StepTotal(a: Attribution, e: MarkEvent)
    requires Emittable(e) && |a.byEntryClass| == ENTRY_CLASSES
    ensures Step(a, e).total == a.total + |e.marked|
  {
    StepMoves(a, e);
    EventTallies(e);
  }

  lemma BumpedAt(buckets: map<MarkBucket, nat>, e: MarkEvent, b: MarkBucket)
    requires b in buckets
    ensures Bumped(buckets, e.path, e.cause, CountsOf(e.marked))[b] ==
              buckets[b] + if e.path == b.path && e.cause == b.cause then |WithClass(e.marked, b.markClass)| else 0
  {
    CountsIn(e.marked, b.markClass);
  }

  lemma StepBuckets(a: Attribution, e: MarkEvent, b: MarkBucket)
    requires Emittable(e) && |a.byEntryClass| == ENTRY_CLASSES && b in a.byBucket
    requires forall m | m in CountsOf(e.marked) :: MarkBucket(e.path, e.cause, m) in a.byBucket
    ensures Step(a, e).byBucket.Keys == a.byBucket.Keys && Step(a, e).unattributed == a.unattributed
    ensures Step(a, e).byBucket[b] ==
              a.byBucket[b] + if e.path == b.path && e.cause == b.cause then |WithClass(e.marked, b.markClass)| else 0
  {
    StepMoves(a, e);
    NoStrays(a.byBucket, e.path, e.cause, CountsOf(e.marked));
    BumpedAt(a.byBucket, e, b);
  }

  /** Over every run of events the total is the sum of the buckets and the guard, of the entry
      classes and of the drill-down, which never exceeds its cap plus the overflow entry. */
  lemma {:induction false} RunTotals(es: seq<MarkEvent>)
    requires forall e | e in es :: Emittable(e)
    ensures Sums(Run(es))
    decreases |es|
  {
    if es == [] {
      FreshSums();
    } else {
      var init, e := es[..|es| - 1], es[|es| - 1];
      RunTotals(init);
      EventTallies(e);
      RecordedSums(Run(init), e.path, e.cause, CountsOf(e.marked), EntryTally(e.marked, e.entryOf, ENTRY_CLASSES), e.gvr);
    }
  }

  /** Over every run of events each registered bucket holds exactly its events' marks, and
      nothing is unattributed. */
  lemma {:induction false} RunBuckets(es: seq<MarkEvent>, b: MarkBucket)
    requires (forall e | e in es :: Emittable(e)) && b in VALID_BUCKETS
    ensures Run(es).byBucket.Keys == VALID_BUCKETS && Run(es).unattributed == 0
    ensures Run(es).byBucket[b] == MarksIn(es, b)
    decreases |es|
  {
    if es != [] {
      var init, e := es[..|es| - 1], es[|es| - 1];
      RunBuckets(init, b);
      EmitsValid(e);
      StepBuckets(Run(init), e, b);
    }
  }

  /** The marks a run made, whatever their class. */
  function MarksMade(es: seq<MarkEvent>): nat {
    if es == [] then 0 else MarksMade(es[..|es| - 1]) + |es[|es| - 1].marked|
  }

  lemma {:induction false} RunMarks(es: seq<MarkEvent>)
    requires forall e | e in es :: Emittable(e)
    ensures Run(es).total == MarksMade(es)
    decreases |es|
  {
    if es != [] {
      RunMarks(es[..|es| - 1]);
      StepTotal(Run(es[..|es| - 1]), es[|es| - 1]);
    }
  }

  // ---- entry classes, events and the drill-down ----------------------------------------

  /** The marks a run made on entries of one class. */
  function EntryMarks(es: seq<MarkEvent>, i: nat): nat {
    if es == [] then 0
    else
      var e := es[|es| - 1];
      EntryMarks(es[..|es| - 1], i) + |set k | k in e.marked && k in e.entryOf && e.entryOf[k] == i|
  }

  /** The events that marked something. */
  function Marking(es: seq<MarkEvent>): nat {
    if es == [] then 0 else Marking(es[..|es| - 1]) + if es[|es| - 1].marked == map[] then 0 else 1
  }

  lemma StepRest(a: Attribution, e: MarkEvent)
    requires Emittable(e) && |a.byEntryClass| == ENTRY_CLASSES
    ensures Step(a, e).events == a.events + if e.marked == map[] then 0 else 1
    ensures Step(a, e).gvr == if e.marked == map[] then a.gvr else DrillDown(a.gvr, e.gvr, |e.marked|)
    ensures forall i: nat | i < ENTRY_CLASSES ::
              Step(a, e).byEntryClass[i] == a.byEntryClass[i] + |WithEntry(e.marked, e.entryOf, i)|
  {
    EventTallies(e);
    if e.marked == map[] {
      forall i: nat ensures WithEntry(e.marked, e.entryOf, i) == {} {}
    } else {
      var k :| k in e.marked;
      assert e.marked.Keys != {};
    }
  }

  /** Over every run each entry class holds exactly the marks on its entries, and the
      denominator counts the events that marked something. */
  lemma {:induction false} RunEntries(es: seq<MarkEvent>, i: nat)
    requires (forall e | e in es :: Emittable(e)) && i < 7
    ensures Run(es).byEntryClass[i] == EntryMarks(es, i)
    ensures Run(es).events == Marking(es)
    decreases |es|
  {
    if es != [] {
      var init, e := es[..|es| - 1], es[|es| - 1];
      RunEntries(init, i);
      StepRest(Run(init), e);
      assert WithEntry(e.marked, e.entryOf, i) == set k | k in e.marked && k in e.entryOf && e.entryOf[k] == i;
    }
  }

  /** The resources that were marked at all. */
  function Seen(es: seq<MarkEvent>): set<string> {
    set i | 0 <= i < |es| && es[i].marked != map[] :: es[i].gvr
  }

  function MarksOn(es: seq<MarkEvent>, g: string): nat {
    if es == [] then 0
    else MarksOn(es[..|es| - 1], g) + if es[|es| - 1].gvr == g then |es[|es| - 1].marked| else 0
  }

  /** Some mark on the resource came while fewer than 256 resources had been marked. */
  ghost predicate InTime(es: seq<MarkEvent>, g: string) {
    exists i: nat | i < |es| :: es[i].gvr == g && es[i].marked != map[] && |Seen(es[..i])| < 256
  }

  /** The marks on the resources that came too late. */
  ghost function LateMarks(es: seq<MarkEvent>): nat {
    if es == [] then 0
    else LateMarks(es[..|es| - 1]) + if InTime(es, es[|es| - 1].gvr) then 0 else |es[|es| - 1].marked|
  }

  lemma SeenMore(es: seq<MarkEvent>, e: MarkEvent)
    ensures Seen(es + [e]) == Seen(es) + if e.marked == map[] then {} else {e.gvr}
  {
    var all := es + [e];
    assert all[|es|] == e;
    assert forall i | 0 <= i < |es| :: all[i] == es[i];
    if e.marked != map[] { assert all[|es|].gvr in Seen(all); }
    forall g | g in Seen(es) ensures g in Seen(all) {
      var i :| 0 <= i < |es| && es[i].marked != map[] && es[i].gvr == g;
      assert all[i].gvr == g;
    }
  }

  lemma InTimeMore(es: seq<MarkEvent>, e: MarkEvent, g: string)
    ensures InTime(es + [e], g) <==> InTime(es, g) || (e.gvr == g && e.marked != map[] && |Seen(es)| < 256)
  {
    var all := es + [e];
    assert all[|es|] == e && all[..|es|] == es;
    forall i: nat | i < |es| ensures all[i] == es[i] && all[..i] == es[..i] {}
    if InTime(es, g) {
      var i: nat :| i < |es| && es[i].gvr == g && es[i].marked != map[] && |Seen(es[..i])| < 256;
      assert all[i].gvr == g && all[i].marked != map[] && |Seen(all[..i])| < 256;
    }
    if e.gvr == g && e.marked != map[] && |Seen(es)| < 256 {
      assert all[|es|].gvr == g && |Seen(all[..|es|])| < 256;
    }
  }

  lemma SeenOnce(es: seq<MarkEvent>, g: string)
    requires g in Seen(es) && |Seen(es)| <= 256
    ensures InTime(es, g)
    decreases |es|
  {
    var init, e := es[..|es| - 1], es[|es| - 1];
    assert init + [e] == es;
    SeenMore(init, e);
    InTimeMore(init, e, g);
    if g in Seen(init) {
      SubsetCard(Seen(init), Seen(es));
      SeenOnce(init, g);
    } else {
      assert Seen(es) == Seen(init) + {g};
    }
  }

  lemma {:induction false} SubsetCard<T>(a: set<T>, b: set<T>)
    requires a <= b
    ensures |a| <= |b|
    decreases a
  {
    if x :| x in a { SubsetCard(a - {x}, b - {x}); }
  }

  /** The drill-down by itself. */
  function DrillRun(es: seq<MarkEvent>): map<string, nat> {
    if es == [] then map[]
    else
      var init, e := DrillRun(es[..|es| - 1]), es[|es| - 1];
      if e.marked == map[] then init else DrillDown(init, e.gvr, |e.marked|)
  }

  lemma {:induction false} RunDrills(es: seq<MarkEvent>)
    requires forall e | e in es :: Emittable(e)
    ensures Run(es).gvr == DrillRun(es)
    decreases |es|
  {
    if es != [] {
      RunDrills(es[..|es| - 1]);
      StepRest(Run(es[..|es| - 1]), es[|es| - 1]);
    }
  }

  /** No resource has the overflow entry's name. */
  predicate OwnNames(es: seq<MarkEvent>) {
    forall i | 0 <= i < |es| :: es[i].gvr != "__other__"
  }

  /** How full the drill-down is, read off the events: the cap is reached with the 256th resource. */
  predicate Filled(m: map<string, nat>, seen: set<string>) {
    if |seen| <= 256 then m.Keys == seen else |m| > 256
  }

  lemma FilledStep(m: map<string, nat>, seen: set<string>, g: string, n: nat)
    requires Filled(m, seen) && "__other__" !in seen && g != "__other__"
    ensures Filled(DrillDown(m, g, n), seen + {g})
    ensures DrillKey(m, g) == if g in m || |seen| < 256 then g else "__other__"
  {
    var key := DrillKey(m, g);
    assert |m.Keys| == |m|;
    PutSize(m, key, (if key in m then m[key] else 0) + n);
    if g in seen { assert seen + {g} == seen; }
  }

  /** One resource's entry, read off the events. */
  predicate EntryIs(m: map<string, nat>, g: string, inTime: bool, marks: nat) {
    (g in m <==> inTime) && (g in m ==> m[g] == marks)
  }

  lemma EntryStep(m: map<string, nat>, seen: set<string>, e: MarkEvent, g: string, inTime: bool, marks: nat)
    requires Filled(m, seen) && EntryIs(m, g, inTime, marks) && g != "__other__" && e.marked != map[]
    requires "__other__" !in seen && e.gvr != "__other__"
    requires !inTime && |seen| < 256 ==> marks == 0
    ensures EntryIs(DrillDown(m, e.gvr, |e.marked|), g, inTime || (e.gvr == g && |seen| < 256),
                    marks + if e.gvr == g then |e.marked| else 0)
  {
    FilledStep(m, seen, e.gvr, |e.marked|);
  }

  lemma {:induction false} NoMarksOn(es: seq<MarkEvent>, g: string)
    requires g !in Seen(es)
    ensures MarksOn(es, g) == 0
    decreases |es|
  {
    if es != [] {
      var init, e := es[..|es| - 1], es[|es| - 1];
      assert init + [e] == es;
      SeenMore(init, e);
      NoMarksOn(init, g);
    }
  }

  lemma InTimeSeen(es: seq<MarkEvent>, g: string)
    ensures InTime(es, g) ==> g in Seen(es)
    ensures g in Seen(es) && |Seen(es)| <= 256 ==> InTime(es, g)
  {
    if g in Seen(es) && |Seen(es)| <= 256 { SeenOnce(es, g); }
  }

  lemma {:induction false} RunFilled(es: seq<MarkEvent>)
    requires OwnNames(es)
    ensures Filled(DrillRun(es), Seen(es)) && "__other__" !in Seen(es)
    decreases |es|
  {
    if es == [] {
      assert Seen(es) == {};
    } else {
      var init, e := es[..|es| - 1], es[|es| - 1];
      assert init + [e] == es;
      SeenMore(init, e);
      RunFilled(init);
      FilledStep(DrillRun(init), Seen(init), e.gvr, |e.marked|);
    }
  }

  lemma {:induction false} RunEntry(es: seq<MarkEvent>, g: string)
    requires OwnNames(es) && g != "__other__"
    ensures EntryIs(DrillRun(es), g, InTime(es, g), MarksOn(es, g))
    decreases |es|
  {
    if es != [] {
      var init, e := es[..|es| - 1], es[|es| - 1];
      assert init + [e] == es;
      RunEntry(init, g);
      InTimeMore(init, e, g);
      if e.marked != map[] {
        RunFilled(init);
        InTimeSeen(init, g);
        if g !in Seen(init) { NoMarksOn(init, g); }
        EntryStep(DrillRun(init), Seen(init), e, g, InTime(init, g), MarksOn(init, g));
      }
    }
  }

  lemma LateStep(m: map<string, nat>, seen: set<string>, g: string, n: nat, inTime: bool)
    requires Filled(m, seen) && "__other__" !in seen && g != "__other__" && (g in m <==> inTime)
    ensures var next := DrillDown(m, g, n);
            (if "__other__" in next then next["__other__"] else 0) ==
              (if "__other__" in m then m["__other__"] else 0) + if inTime || |seen| < 256 then 0 else n
  {
    FilledStep(m, seen, g, n);
  }

  lemma {:induction false} RunLate(es: seq<MarkEvent>)
    requires OwnNames(es)
    ensures (if "__other__" in DrillRun(es) then DrillRun(es)["__other__"] else 0) == LateMarks(es)
    decreases |es|
  {
    if es != [] {
      var init, e := es[..|es| - 1], es[|es| - 1];
      assert init + [e] == es;
      RunLate(init);
      if e.marked != map[] {
        RunEntry(init, e.gvr);
        RunFilled(init);
        InTimeMore(init, e, e.gvr);
        LateStep(DrillRun(init), Seen(init), e.gvr, |e.marked|, InTime(init, e.gvr));
      }
    }
  }

  /** Over every run of resources with names of their own: one has an entry in the drill-down
      if and only if it was first marked while fewer than 256 others had been, and then the entry
      holds exactly its marks; the marks of all the others are in the overflow entry. */
  lemma DrillDownExactly(es: seq<MarkEvent>, g: string)
    requires (forall e | e in es :: Emittable(e)) && (forall i | 0 <= i < |es| :: es[i].gvr != "__other__")
    requires g != "__other__"
    ensures g in Run(es).gvr <==> InTime(es, g)
    ensures g in Run(es).gvr ==> Run(es).gvr[g] == MarksOn(es, g)
    ensures (if "__other__" in Run(es).gvr then Run(es).gvr["__other__"] else 0) == LateMarks(es)
  {
    RunDrills(es);
    RunEntry(es, g);
    RunLate(es);
  }

  lemma FreshSums()
    ensures Sums(Fresh())
  {
    ZeroSums(VALID_BUCKETS);
    ZeroSeq(ENTRY_CLASSES);
  }

  // ---- the counters as an object -------------------------------------------------------

  class MarkCounters {
    var total: nat
    var byBucket: map<MarkBucket, nat>
    var unattributed: nat
    var byEntryClass: seq<nat>
    var events: nat
    var gvr: map<string, nat>

    constructor ()
      ensures View() == Fresh()
    {
      total, unattributed, events := 0, 0, 0;
      byBucket := map b | b in VALID_BUCKETS :: 0;
      byEntryClass := seq(ENTRY_CLASSES, _ => 0);
      gvr := map[];
    }

    function View(): Attribution
      reads this
    {
      Attribution(total, byBucket, unattributed, byEntryClass, events, gvr)
    }

    method AddGVR(g: string, n: nat)
      modifies `gvr
      ensures gvr == DrillDown(old(gvr), g, n)
    {
      if g !in gvr && |gvr| >= GVR_CAP {
        gvr := gvr[GVR_OTHER := (if GVR_OTHER in gvr then gvr[GVR_OTHER] else 0) + n];
        return;
      }
      gvr := gvr[g := (if g in gvr then gvr[g] else 0) + n];
    }

    method AddEntries(entry: seq<nat>)
      requires |entry| == |byEntryClass|
      modifies `byEntryClass
      ensures byEntryClass == Added(old(byEntryClass), entry)
    {
      for i := 0 to |entry|
        invariant |byEntryClass| == |entry|
        invariant forall j | 0 <= j < |entry| ::
                    byEntryClass[j] == old(byEntryClass)[j] + if j < i then entry[j] else 0
      {
        if entry[i] > 0 {
          byEntryClass := byEntryClass[i := byEntryClass[i] + entry[i]];
        }
      }
    }

    method RecordDirtyMarks(path: Path, cause: Cause, counts: Counts, entry: seq<nat>, g: string)
      requires |entry| == |byEntryClass|
      modifies this
      ensures View() == Recorded(old(View()), path, cause, counts, entry, g)
    {
      var n := CountBuckets(path, cause, counts);
      CountEvent(n, entry, g);
    }

    /** The writer, called with the tallies of an event's marks, takes the event's step. */
    method RecordEvent(ghost e: MarkEvent, path: Path, cause: Cause, counts: Counts, entry: seq<nat>, g: string)
      requires Emittable(e) && |byEntryClass| == ENTRY_CLASSES
      requires path == e.path && cause == e.cause && g == e.gvr
      requires counts == CountsOf(e.marked) && entry == EntryTally(e.marked, e.entryOf, ENTRY_CLASSES)
      modifies this
      ensures View() == Step(old(View()), e)
    {
      RecordDirtyMarks(path, cause, counts, entry, g);
    }

    /** The total, the entry classes and the drill-down move together, once per event. */
    method CountEvent(n: nat, entry: seq<nat>, g: string)
      requires |entry| == |byEntryClass|
      modifies `total, `byEntryClass, `events, `gvr
      ensures View() == Moved(old(View()), byBucket, 0, n, entry, g)
    {
      if n == 0 {
        return;
      }
      total := total + n;
      AddEntries(entry);
      events := events + 1;
      AddGVR(g, n);
    }

    method CountOne(path: Path, cause: Cause, m: MarkClass, n: nat)
      modifies `byBucket, `unattributed
      ensures byBucket == AddTo(old(byBucket), MarkBucket(path, cause, m), n)
      ensures unattributed == old(unattributed) + if MarkBucket(path, cause, m) in old(byBucket) then 0 else n
    {
      var b := MarkBucket(path, cause, m);
      if b in byBucket {
        byBucket := byBucket[b := byBucket[b] + n];
      } else {
        unattributed := unattributed + n;
      }
    }

    method CountBuckets(path: Path, cause: Cause, counts: Counts) returns (n: nat)
      modifies `byBucket, `unattributed
      ensures n == SumMap(counts)
      ensures byBucket == Bumped(old(byBucket), path, cause, counts)
      ensures unattributed == old(unattributed) + SumMap(Strays(old(byBucket), path, cause, counts))
    {
      n := 0;
      var todo := counts.Keys;
      ghost var done: Counts := map[];
      ghost var was := byBucket;
      CountNone(was, path, cause);
      while todo != {}
        invariant todo <= counts.Keys && done == counts - todo
        invariant n == SumMap(done)
        invariant byBucket == Bumped(was, path, cause, done)
        invariant unattributed == old(unattributed) + SumMap(Strays(was, path, cause, done))
        decreases todo
      {
        var m :| m in todo;
        BumpedMore(was, path, cause, done, m, counts[m]);
        BumpedSumMore(was, path, cause, done, m, counts[m]);
        RestMore(counts, todo, m);
        todo := todo - {m};
        CountOne(path, cause, m, counts[m]);
        done := done[m := counts[m]];
        n := n + counts[m];
      }
      assert done == counts;
    }
  }

  lemma CountNone(buckets: map<MarkBucket, nat>, path: Path, cause: Cause)
    ensures Bumped(buckets, path, cause, map[]) == buckets && Strays(buckets, path, cause, map[]) == map[]
    ensures SumMap<MarkClass>(map[]) == 0
  {
  }

  lemma RestMore(counts: Counts, todo: set<MarkClass>, m: MarkClass)
    requires m in todo && todo <= counts.Keys
    ensures counts - (todo - {m}) == (counts - todo)[m := counts[m]]
  {
  }
}
