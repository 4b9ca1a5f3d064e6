/** The marks of the dependency tracker's fan-outs as the attribution records them: what a run
    of events leaves in the counters, read off the tracker's own match sets. */
module MarkRecording {
  import opened DepKeys
  import opened DepIndex
  import opened DepTrackers
  import TrackerSpec
  import opened MarkAttribution

  /** The entry class learned for a key; unknown when none was. */
  function EntryClass(classes: map<L1Key, nat>, k: L1Key): nat { if k in classes then classes[k] else 0 }

  /** One event as the tracker fans it out: the index it matched against, and what it knew. */
  datatype FanOut =
    | ObjectFanOut(f: Forward, inputs: Inputs, change: Change, state: ObjectState, classes: map<L1Key, nat>, gvrName: string)
    | TypeFanOut(f: Forward, gvr: GVR, available: bool, classes: map<L1Key, nat>, gvrName: string)

  predicate Possible(fo: FanOut) {
    (fo.ObjectFanOut? ==> fo.change.ObjectChange?) && ValidClasses(fo.classes)
  }

  predicate ValidClasses(classes: map<L1Key, nat>) {
    forall k | k in classes :: classes[k] < ENTRY_CLASSES
  }

  function PathOf(fo: FanOut): Path { if fo.ObjectFanOut? then ObjectPath else TypePath }

  function CauseOf(fo: FanOut): Cause {
    match fo
    case ObjectFanOut(_, _, _, state, _, _) => CauseForState(state)
    case TypeFanOut(_, _, available, _, _) => if available then CRDAdd else CRDDelete
  }

  /** The keys a fan-out marks: those it matches and does not evict. */
  function Marked(fo: FanOut): set<L1Key>
    requires Possible(fo)
  {
    match fo
    case ObjectFanOut(f, inputs, change, state, _, _) => Matched(f, change) - Evicted(f, inputs, change, state)
    case TypeFanOut(f, gvr, available, _, _) => Matched(f, TypeChange(gvr, available))
  }

  /** Those it marks as one class. */
  function MarkedIn(fo: FanOut, m: MarkClass): set<L1Key>
    requires Possible(fo)
  {
    match fo
    case ObjectFanOut(f, inputs, change, state, _, _) => MarkedAs(f, inputs, change, state, m)
    case TypeFanOut(f, gvr, available, _, _) =>
      set k | k in Matched(f, TypeChange(gvr, available)) && ClassOf(ListOnly(f, TypeChange(gvr, available), k), false) == m
  }

  function ClassedMarks(fo: FanOut): map<L1Key, MarkClass>
    requires Possible(fo)
  {
    match fo
    case ObjectFanOut(f, inputs, change, _, _, _) =>
      map k | k in Marked(fo) :: ClassOf(ListOnly(f, change, k), IsSelf(inputs, k, SelfOf(change)))
    case TypeFanOut(f, gvr, available, _, _) =>
      map k | k in Marked(fo) :: ClassOf(ListOnly(f, TypeChange(gvr, available), k), false)
  }

  function EntriesOf(keys: set<L1Key>, classes: map<L1Key, nat>): map<L1Key, nat> {
    map k | k in keys :: EntryClass(classes, k)
  }

  function EventOf(fo: FanOut): MarkEvent
    requires Possible(fo)
  {
    MarkEvent(PathOf(fo), CauseOf(fo), ClassedMarks(fo), EntriesOf(Marked(fo), fo.classes), fo.gvrName)
  }

  /** A gone object's own keys are evicted, and a type becoming available reaches list edges
      only, so every mark falls in a registered bucket. */
  lemma EventEmittable(fo: FanOut)
    requires Possible(fo)
    ensures Emittable(EventOf(fo))
  {
  }

  lemma MarkedInMeaning(fo: FanOut, m: MarkClass)
    requires Possible(fo)
    ensures WithClass(EventOf(fo).marked, m) == MarkedIn(fo, m)
  {
  }

  // ---- runs ----------------------------------------------------------------------------

  function EventsOf(fos: seq<FanOut>): seq<MarkEvent>
    requires forall fo | fo in fos :: Possible(fo)
  {
    if fos == [] then [] else EventsOf(fos[..|fos| - 1]) + [EventOf(fos[|fos| - 1])]
  }

  lemma {:induction false} EventsEmittable(fos: seq<FanOut>)
    requires forall fo | fo in fos :: Possible(fo)
    ensures forall e | e in EventsOf(fos) :: Emittable(e)
    decreases |fos|
  {
    if fos != [] {
      EventsEmittable(fos[..|fos| - 1]);
      EventEmittable(fos[|fos| - 1]);
    }
  }

  /** The keys marked over a run, once per event. */
  function TotalMarked(fos: seq<FanOut>): nat
    requires forall fo | fo in fos :: Possible(fo)
  {
    if fos == [] then 0 else TotalMarked(fos[..|fos| - 1]) + |Marked(fos[|fos| - 1])|
  }

  /** The path and the cause a fan-out's marks are counted under: the probe's answer for an
      object, the lifecycle event for a type. */
  predicate CountedUnder(fo: FanOut, b: MarkBucket) {
    match fo
    case ObjectFanOut(_, _, _, state, _, _) =>
      && b.path == ObjectPath
      && (state == Exists ==> b.cause == AddUpdate)
      && (state == Absent ==> b.cause == Delete)
      && (state == Degraded ==> b.cause == DegradedProbe)
    case TypeFanOut(_, _, available, _, _) =>
      b.path == TypePath && b.cause == if available then CRDAdd else CRDDelete
  }

  /** The keys marked as one class, spelled out over edges and coordinates. */
  ghost predicate MarkedAsClass(fo: FanOut, k: L1Key, m: MarkClass)
    requires Possible(fo)
  {
    match fo
    case ObjectFanOut(f, inputs, c, state, _, _) =>
      var exact := exists dk :: HasEdge(f, dk, k) && InReach(c.gvr, c.namespace, c.name, dk) && dk.name != "*";
      var own := k in inputs && inputs[k].gvr == c.gvr && inputs[k].namespace == c.namespace && inputs[k].name == c.name;
      && (exists dk :: HasEdge(f, dk, k) && InReach(c.gvr, c.namespace, c.name, dk))
      && !(state == Absent && own)
      && m == if !exact then ListMark else if own then SelfMark else ExactMark
    case TypeFanOut(f, gvr, available, _, _) =>
      && (exists dk :: HasEdge(f, dk, k) && dk.gvr == gvr && (available ==> dk.name == "*"))
      && m == if available || forall dk :: HasEdge(f, dk, k) && dk.gvr == gvr ==> dk.name == "*" then ListMark else ExactMark
  }

  lemma ObjectMarks(fo: FanOut, m: MarkClass)
    requires Possible(fo) && fo.ObjectFanOut?
    ensures forall k :: k in MarkedIn(fo, m) <==> MarkedAsClass(fo, k, m)
  {
    forall k ensures k in MarkedIn(fo, m) <==> MarkedAsClass(fo, k, m) {
      OneMark(fo, k);
    }
  }

  lemma OneMark(fo: FanOut, k: L1Key)
    requires Possible(fo) && fo.ObjectFanOut?
    ensures forall m :: k in MarkedIn(fo, m) <==> MarkedAsClass(fo, k, m)
  {
    ReachMeaning(fo.f, fo.change, k);
  }

  lemma TypeMarks(fo: FanOut, m: MarkClass)
    requires Possible(fo) && fo.TypeFanOut?
    ensures forall k :: k in MarkedIn(fo, m) <==> MarkedAsClass(fo, k, m)
  {
    TypeReach(fo.f, fo.gvr, fo.available);
  }

  /** Those marked as one class for one cause. */
  ghost function TotalIn(fos: seq<FanOut>, b: MarkBucket): nat
    requires forall fo | fo in fos :: Possible(fo)
  {
    if fos == [] then 0
    else
      var fo := fos[|fos| - 1];
      TotalIn(fos[..|fos| - 1], b) + if CountedUnder(fo, b) then |(set k | k in Marked(fo) && MarkedAsClass(fo, k, b.markClass))| else 0
  }

  lemma ClassMarks(fo: FanOut, m: MarkClass)
    requires Possible(fo)
    ensures MarkedIn(fo, m) == set k | k in Marked(fo) && MarkedAsClass(fo, k, m)
  {
    if fo.ObjectFanOut? { ObjectMarks(fo, m); } else { TypeMarks(fo, m); }
    assert MarkedIn(fo, m) <= Marked(fo);
  }

  lemma {:induction false} TotalInMarks(fos: seq<FanOut>, b: MarkBucket)
    requires forall fo | fo in fos :: Possible(fo)
    ensures MarksIn(EventsOf(fos), b) == TotalIn(fos, b)
    decreases |fos|
  {
    if fos != [] {
      var init, fo := fos[..|fos| - 1], fos[|fos| - 1];
      TotalInMarks(init, b);
      MarkedInMeaning(fo, b.markClass);
      ClassMarks(fo, b.markClass);
      assert EventsOf(fos)[..|EventsOf(fos)| - 1] == EventsOf(init);
    }
  }

  lemma {:induction false} TotalMarks(fos: seq<FanOut>)
    requires forall fo | fo in fos :: Possible(fo)
    ensures MarksMade(EventsOf(fos)) == TotalMarked(fos)
    decreases |fos|
  {
    if fos != [] {
      var init, fo := fos[..|fos| - 1], fos[|fos| - 1];
      TotalMarks(init);
      assert EventsOf(fos)[..|EventsOf(fos)| - 1] == EventsOf(init);
      assert EventOf(fo).marked.Keys == Marked(fo);
    }
  }

  /** Whatever the tracker fans out: the total counts the keys it marked, every bucket those it
      marked as its class for its cause, nothing is unattributed and all splits add up. */
  lemma FanOutsAttributed(fos: seq<FanOut>, b: MarkBucket)
    requires (forall fo | fo in fos :: Possible(fo)) && b in VALID_BUCKETS
    ensures forall e | e in EventsOf(fos) :: Emittable(e)
    ensures Sums(Run(EventsOf(fos))) && Run(EventsOf(fos)).unattributed == 0
    ensures Run(EventsOf(fos)).total == TotalMarked(fos)
    ensures b in Run(EventsOf(fos)).byBucket && Run(EventsOf(fos)).byBucket[b] == TotalIn(fos, b)
  {
    EventsEmittable(fos);
    RunTotals(EventsOf(fos));
    RunBuckets(EventsOf(fos), b);
    TotalInMarks(fos, b);
    RunMarks(EventsOf(fos));
    TotalMarks(fos);
  }

  /** The marks on keys learned to be of an entry class; those of a key nothing was learned of
      are the first class's. */
  function TotalEntry(fos: seq<FanOut>, i: nat): nat
    requires forall fo | fo in fos :: Possible(fo)
  {
    if fos == [] then 0
    else
      var fo := fos[|fos| - 1];
      TotalEntry(fos[..|fos| - 1], i) + |(set k | k in Marked(fo) && i == if k in fo.classes then fo.classes[k] else 0)|
  }

  lemma {:induction false} TotalEntries(fos: seq<FanOut>, i: nat)
    requires forall fo | fo in fos :: Possible(fo)
    ensures EntryMarks(EventsOf(fos), i) == TotalEntry(fos, i)
    decreases |fos|
  {
    if fos != [] {
      var init, fo := fos[..|fos| - 1], fos[|fos| - 1];
      TotalEntries(init, i);
      assert EventsOf(fos)[..|EventsOf(fos)| - 1] == EventsOf(init);
      EntryKeys(fo, i);
    }
  }

  lemma EntryKeys(fo: FanOut, i: nat)
    requires Possible(fo)
    ensures var e := EventOf(fo);
            (set k | k in e.marked && k in e.entryOf && e.entryOf[k] == i) ==
              set k | k in Marked(fo) && i == if k in fo.classes then fo.classes[k] else 0
  {
  }

  /** And each entry class counts the marks on the keys learned to be of it. */
  lemma FanOutsByEntry(fos: seq<FanOut>, i: nat)
    requires (forall fo | fo in fos :: Possible(fo)) && i < 7
    ensures forall e | e in EventsOf(fos) :: Emittable(e)
    ensures Run(EventsOf(fos)).byEntryClass[i] == TotalEntry(fos, i)
  {
    EventsEmittable(fos);
    RunEntries(EventsOf(fos), i);
    TotalEntries(fos, i);
  }

  // ---- in place ------------------------------------------------------------------------

  function Part<V>(m: map<L1Key, V>, done: set<L1Key>): map<L1Key, V> {
    map k | k in m && k in done :: m[k]
  }

  lemma WithEntryMore(marks: map<L1Key, MarkClass>, entryOf: map<L1Key, nat>, done: set<L1Key>, k: L1Key, i: nat)
    requires marks.Keys <= entryOf.Keys && k in marks && k !in done
    ensures |WithEntry(Part(marks, done + {k}), entryOf, i)| ==
              |WithEntry(Part(marks, done), entryOf, i)| + if i == entryOf[k] then 1 else 0
  {
    assert WithEntry(Part(marks, done + {k}), entryOf, i) ==
           WithEntry(Part(marks, done), entryOf, i) + if i == entryOf[k] then {k} else {};
  }

  function OneMoreAt(s: seq<nat>, i: nat): seq<nat>
    requires i < |s|
  {
    s[i := s[i] + 1]
  }

  lemma EntryMore(marks: map<L1Key, MarkClass>, entryOf: map<L1Key, nat>, done: set<L1Key>, k: L1Key, n: nat)
    requires marks.Keys <= entryOf.Keys && k in marks && k !in done && entryOf[k] < n
    ensures EntryTally(Part(marks, done + {k}), entryOf, n) == OneMoreAt(EntryTally(Part(marks, done), entryOf, n), entryOf[k])
  {
    var was, now := EntryTally(Part(marks, done), entryOf, n), EntryTally(Part(marks, done + {k}), entryOf, n);
    forall i: nat | i < n ensures now[i] == OneMoreAt(was, entryOf[k])[i] {
      WithEntryMore(marks, entryOf, done, k, i);
    }
  }

  lemma EntryNone(marks: map<L1Key, MarkClass>, entryOf: map<L1Key, nat>, n: nat)
    requires marks.Keys <= entryOf.Keys
    ensures EntryTally(Part(marks, {}), entryOf, n) == seq(n, _ => 0)
  {
    forall i: nat | i < n ensures WithEntry(Part(marks, {}), entryOf, i) == {} {}
  }

  lemma ValuesMore(was: map<L1Key, MarkClass>, k: L1Key, m: MarkClass)
    requires k !in was
    ensures was[k := m].Values == was.Values + {m}
  {
    var now := was[k := m];
    forall x ensures x in now.Values <==> x in was.Values || x == m {
      if x in was.Values {
        var y :| y in was && was[y] == x;
        assert now[y] == x;
      }
      if x == m { assert now[k] == x; }
    }
  }

  lemma WithClassMore(was: map<L1Key, MarkClass>, k: L1Key, c: MarkClass, m: MarkClass)
    requires k !in was
    ensures |WithClass(was[k := c], m)| == |WithClass(was, m)| + if m == c then 1 else 0
  {
    assert WithClass(was[k := c], m) == WithClass(was, m) + if m == c then {k} else {};
  }

  lemma ClassMore(marks: map<L1Key, MarkClass>, done: set<L1Key>, k: L1Key)
    requires k in marks && k !in done
    ensures CountsOf(Part(marks, done + {k})) == AddAt(CountsOf(Part(marks, done)), marks[k], 1)
  {
    var was, now := Part(marks, done), Part(marks, done + {k});
    assert now == was[k := marks[k]];
    ValuesMore(was, k, marks[k]);
    forall m ensures |WithClass(now, m)| == |WithClass(was, m)| + if m == marks[k] then 1 else 0 {
      WithClassMore(was, k, marks[k], m);
    }
    CountsIn(was, marks[k]);
  }

  /** The entry-class tally of some of an event's marks. */
  function PartTally(marks: map<L1Key, MarkClass>, classes: map<L1Key, nat>, done: set<L1Key>): (r: seq<nat>)
    ensures |r| == ENTRY_CLASSES
  {
    EntryTally(Part(marks, done), EntriesOf(marks.Keys, classes), ENTRY_CLASSES)
  }

  lemma PartTallyMore(marks: map<L1Key, MarkClass>, classes: map<L1Key, nat>, done: set<L1Key>, k: L1Key)
    requires ValidClasses(classes) && k in marks && k !in done
    ensures EntryClass(classes, k) < ENTRY_CLASSES
    ensures PartTally(marks, classes, done + {k}) == OneMoreAt(PartTally(marks, classes, done), EntryClass(classes, k))
  {
    EntryMore(marks, EntriesOf(marks.Keys, classes), done, k, ENTRY_CLASSES);
  }

  lemma PartTallyEnds(marks: map<L1Key, MarkClass>, classes: map<L1Key, nat>)
    ensures PartTally(marks, classes, {}) == seq(ENTRY_CLASSES, _ => 0)
    ensures PartTally(marks, classes, marks.Keys) == EntryTally(marks, EntriesOf(marks.Keys, classes), ENTRY_CLASSES)
  {
    EntryNone(marks, EntriesOf(marks.Keys, classes), ENTRY_CLASSES);
    assert Part(marks, marks.Keys) == marks;
  }

  method CountEntries(ghost marks: map<L1Key, MarkClass>, keys: set<L1Key>, classes: map<L1Key, nat>) returns (entry: seq<nat>)
    requires keys == marks.Keys && ValidClasses(classes)
    ensures entry == EntryTally(marks, EntriesOf(keys, classes), ENTRY_CLASSES)
  {
    PartTallyEnds(marks, classes);
    entry := seq(ENTRY_CLASSES, _ => 0);
    var todo := keys;
    while todo != {}
      invariant todo <= keys
      invariant entry == PartTally(marks, classes, keys - todo)
      decreases todo
    {
      var k :| k in todo;
      PartTallyMore(marks, classes, keys - todo, k);
      assert keys - (todo - {k}) == keys - todo + {k};
      todo := todo - {k};
      entry := OneMoreAt(entry, EntryClass(classes, k));
    }
    assert keys - todo == keys;
  }

  /** The class counts of a type event, one match at a time. */
  method CountTypeMarks(matched: map<L1Key, bool>) returns (counts: Counts)
    ensures counts == CountsOf(map k | k in matched :: ClassOf(matched[k], false))
  {
    ghost var marks := map k | k in matched :: ClassOf(matched[k], false);
    counts := map[];
    var todo := matched.Keys;
    ghost var done: set<L1Key> := {};
    assert counts == CountsOf(Part(marks, done));
    while todo != {}
      invariant done + todo == matched.Keys && done !! todo
      invariant counts == CountsOf(Part(marks, done))
      decreases todo
    {
      var k :| k in todo;
      todo := todo - {k};
      ClassMore(marks, done, k);
      counts := AddAt(counts, ClassOf(matched[k], false), 1);
      done := done + {k};
    }
    assert Part(marks, done) == marks;
  }

  /** The classes a fan-out marked at least one key as. */
  function TallyCounts(t: Tally<L1Key>): Counts {
    (if t.selfs > 0 then map[SelfMark := t.selfs] else map[])
    + (if t.lists > 0 then map[ListMark := t.lists] else map[])
    + (if t.exacts > 0 then map[ExactMark := t.exacts] else map[])
  }

  function InClass(t: Tally<L1Key>, m: MarkClass): nat {
    match m
    case SelfMark => t.selfs
    case ListMark => t.lists
    case ExactMark => t.exacts
  }

  lemma TallyCountsMeaning(t: Tally<L1Key>, marks: map<L1Key, MarkClass>)
    requires forall m :: InClass(t, m) == |WithClass(marks, m)|
    ensures TallyCounts(t) == CountsOf(marks)
  {
    forall m ensures m in TallyCounts(t) <==> m in marks.Values {
      assert InClass(t, m) == |WithClass(marks, m)|;
      if m in marks.Values {
        var k :| k in marks && marks[k] == m;
        assert k in WithClass(marks, m);
      } else {
        assert WithClass(marks, m) == {};
      }
    }
  }

  /** The tally of an object fan-out, counted. */
  method CountObjectMarks(counters: MarkCounters, t: Tally<L1Key>, state: ObjectState, classes: map<L1Key, nat>,
                          gvrName: string, ghost fo: FanOut)
    requires fo.ObjectFanOut? && Possible(fo) && |counters.byEntryClass| == ENTRY_CLASSES
    requires fo.state == state && fo.classes == classes && fo.gvrName == gvrName
    requires t.mark == Marked(fo) && forall m :: InClass(t, m) == |MarkedIn(fo, m)|
    modifies counters
    ensures Emittable(EventOf(fo)) && counters.View() == Step(old(counters.View()), EventOf(fo))
  {
    EventEmittable(fo);
    forall m ensures InClass(t, m) == |WithClass(EventOf(fo).marked, m)| { MarkedInMeaning(fo, m); }
    TallyCountsMeaning(t, EventOf(fo).marked);
    var entry := CountEntries(EventOf(fo).marked, t.mark, classes);
    counters.RecordEvent(EventOf(fo), ObjectPath, CauseForState(state), TallyCounts(t), entry, gvrName);
  }

  /** The matches of a type fan-out, counted. */
  method CountTypeEvent(counters: MarkCounters, matched: map<L1Key, bool>, available: bool, classes: map<L1Key, nat>,
                        gvrName: string, ghost fo: FanOut)
    requires fo.TypeFanOut? && Possible(fo) && |counters.byEntryClass| == ENTRY_CLASSES
    requires fo.available == available && fo.classes == classes && fo.gvrName == gvrName
    requires matched.Keys == Marked(fo)
    requires forall k | k in matched :: matched[k] == ListOnly(fo.f, TypeChange(fo.gvr, available), k)
    modifies counters
    ensures Emittable(EventOf(fo)) && counters.View() == Step(old(counters.View()), EventOf(fo))
  {
    EventEmittable(fo);
    assert EventOf(fo).marked == map k | k in matched :: ClassOf(matched[k], false);
    var counts := CountTypeMarks(matched);
    var entry := CountEntries(EventOf(fo).marked, matched.Keys, classes);
    counters.RecordEvent(EventOf(fo), TypePath, if available then CRDAdd else CRDDelete, counts, entry, gvrName);
  }

  /** One object event end to end: the tracker bumps and fans out, and the counters take the
      step of exactly the marks it made. */
  method RecordObjectEvent(tracker: DepTracker, counters: MarkCounters, c: Change, state: ObjectState, inputs: Inputs,
                           classes: map<L1Key, nat>, gvrName: string)
    returns (t: Tally<L1Key>, ghost fo: FanOut)
    requires c.ObjectChange? && ValidClasses(classes) && |counters.byEntryClass| == ENTRY_CLASSES
    modifies tracker, counters
    ensures fo == ObjectFanOut(tracker.forward, inputs, c, state, classes, gvrName) && Possible(fo)
    ensures tracker.View() == old(TrackerSpec.Bumped(tracker.View(), c)) && t.mark == Marked(fo)
    ensures Emittable(EventOf(fo)) && counters.View() == Step(old(counters.View()), EventOf(fo))
  {
    t := tracker.SplitEvent(c, state, inputs);
    fo := ObjectFanOut(tracker.forward, inputs, c, state, classes, gvrName);
    CountObjectMarks(counters, t, state, classes, gvrName, fo);
  }

  /** One type event end to end. */
  method RecordTypeEvent(tracker: DepTracker, counters: MarkCounters, gvr: GVR, available: bool,
                         classes: map<L1Key, nat>, gvrName: string)
    returns (ghost fo: FanOut)
    requires ValidClasses(classes) && |counters.byEntryClass| == ENTRY_CLASSES
    modifies tracker, counters
    ensures fo == TypeFanOut(tracker.forward, gvr, available, classes, gvrName) && Possible(fo)
    ensures tracker.View() == old(TrackerSpec.Bumped(tracker.View(), TypeChange(gvr, available)))
    ensures Emittable(EventOf(fo)) && counters.View() == Step(old(counters.View()), EventOf(fo))
  {
    var matched := tracker.OnResourceType(gvr, available);
    fo := TypeFanOut(tracker.forward, gvr, available, classes, gvrName);
    CountTypeEvent(counters, matched, available, classes, gvrName, fo);
  }
}
