/** The dependency tracker as the object it is: two indexes, floors and counters updated in
    place, with the event fan-out that splits the matched keys into evictions and marks. */
module DepTrackers {
  import opened DepKeys
  import opened DepIndex
  import opened TrackerSpec

  datatype MarkClass = SelfMark | ListMark | ExactMark

  /** The coordinate each resident entry represents. */
  type Inputs = map<L1Key, DepKey>

  predicate IsSelf(inputs: Inputs, k: L1Key, self: DepKey) {
    k in inputs && inputs[k] == self
  }

  /** The key is reached through list buckets only: exact beats wildcard. */
  predicate ListOnly(f: Forward, c: Change, k: L1Key) {
    forall dk | dk in f && Hits(c, dk) && k in f[dk].keys :: dk.IsList()
  }

  function ClassOf(listOnly: bool, isSelf: bool): MarkClass {
    if listOnly then ListMark else if isSelf then SelfMark else ExactMark
  }

  function SelfOf(c: Change): DepKey
    requires c.ObjectChange?
  {
    DepKey(c.gvr, c.namespace, c.name)
  }

  /** Evicted: the keys whose own object is the one found gone. */
  function Evicted(f: Forward, inputs: Inputs, c: Change, state: ObjectState): set<L1Key>
    requires c.ObjectChange?
  {
    set k | k in Matched(f, c) && state == Absent && IsSelf(inputs, k, SelfOf(c))
  }

  /** Marked keys of a class, with every key's own object probed. */
  function MarkedAs(f: Forward, inputs: Inputs, c: Change, state: ObjectState, m: MarkClass): set<L1Key>
    requires c.ObjectChange?
  {
    set k | k in Matched(f, c) && k !in Evicted(f, inputs, c, state)
            && ClassOf(ListOnly(f, c, k), IsSelf(inputs, k, SelfOf(c))) == m
  }

  /** The three classes cover what is not evicted, do not overlap, and a gone object never
      marks its own representation. */
  lemma FanOutPartition(f: Forward, inputs: Inputs, c: Change, state: ObjectState)
    requires c.ObjectChange?
    ensures Matched(f, c) == Evicted(f, inputs, c, state) + MarkedAs(f, inputs, c, state, SelfMark)
                             + MarkedAs(f, inputs, c, state, ListMark) + MarkedAs(f, inputs, c, state, ExactMark)
    ensures |Matched(f, c)| == |Evicted(f, inputs, c, state)| + |MarkedAs(f, inputs, c, state, SelfMark)|
                               + |MarkedAs(f, inputs, c, state, ListMark)| + |MarkedAs(f, inputs, c, state, ExactMark)|
    ensures state == Absent ==> MarkedAs(f, inputs, c, state, SelfMark) == {}
    ensures state != Absent ==> Evicted(f, inputs, c, state) == {}
  {
    FourParts(Matched(f, c), Evicted(f, inputs, c, state), MarkedAs(f, inputs, c, state, SelfMark),
              MarkedAs(f, inputs, c, state, ListMark), MarkedAs(f, inputs, c, state, ExactMark));
  }

  /** A dependency on the object's coordinate or on a list that shows it, in its namespace or
      across the cluster. */
  predicate InReach(gvr: GVR, namespace: string, name: string, dk: DepKey) {
    dk.gvr == gvr && (dk.namespace == namespace || dk.namespace == "") && (dk.name == name || dk.name == "*")
  }

  /** Whether an object event reaches a key, and whether through lists alone. */
  lemma ReachMeaning(f: Forward, c: Change, k: L1Key)
    requires c.ObjectChange?
    ensures k in Matched(f, c) <==> exists dk :: HasEdge(f, dk, k) && InReach(c.gvr, c.namespace, c.name, dk)
    ensures ListOnly(f, c, k) <==> forall dk :: HasEdge(f, dk, k) && InReach(c.gvr, c.namespace, c.name, dk) ==> dk.name == "*"
  {
    if k in Matched(f, c) {
      var dk :| dk in f && Hits(c, dk) && k in f[dk].keys;
      assert HasEdge(f, dk, k) && InReach(c.gvr, c.namespace, c.name, dk);
    }
    if dk :| HasEdge(f, dk, k) && InReach(c.gvr, c.namespace, c.name, dk) { assert Hits(c, dk); }
    if !ListOnly(f, c, k) {
      var dk :| dk in f && Hits(c, dk) && k in f[dk].keys && !dk.IsList();
      assert HasEdge(f, dk, k) && InReach(c.gvr, c.namespace, c.name, dk);
    }
  }

  /** The parts of a fan-out, spelled out over edges and coordinates. */
  lemma FanOutMeaning(f: Forward, inputs: Inputs, c: Change, state: ObjectState)
    requires c.ObjectChange?
    ensures forall k :: k in Matched(f, c) <==> exists dk :: HasEdge(f, dk, k) && InReach(c.gvr, c.namespace, c.name, dk)
    ensures forall k :: k in Evicted(f, inputs, c, state) <==>
              && state == Absent
              && k in inputs && inputs[k].gvr == c.gvr && inputs[k].namespace == c.namespace && inputs[k].name == c.name
              && k in Matched(f, c)
    ensures MarkedAs(f, inputs, c, state, ListMark) ==
              set k | k in Matched(f, c) - Evicted(f, inputs, c, state)
                      && forall dk :: HasEdge(f, dk, k) && InReach(c.gvr, c.namespace, c.name, dk) ==> dk.name == "*"
    ensures MarkedAs(f, inputs, c, state, SelfMark) ==
              set k | k in Matched(f, c) - Evicted(f, inputs, c, state)
                      && k in inputs && inputs[k].gvr == c.gvr && inputs[k].namespace == c.namespace && inputs[k].name == c.name
                      && exists dk :: HasEdge(f, dk, k) && InReach(c.gvr, c.namespace, c.name, dk) && dk.name != "*"
  {
    forall k
      ensures k in Matched(f, c) <==> exists dk :: HasEdge(f, dk, k) && InReach(c.gvr, c.namespace, c.name, dk)
      ensures ListOnly(f, c, k) <==> forall dk :: HasEdge(f, dk, k) && InReach(c.gvr, c.namespace, c.name, dk) ==> dk.name == "*"
    {
      ReachMeaning(f, c, k);
    }
  }

  /** What a type event reaches, spelled out; one that becomes available leaves alone the keys
      no list dependency leads to. */
  lemma TypeReach(f: Forward, gvr: GVR, available: bool)
    ensures forall k :: k in Matched(f, TypeChange(gvr, available)) <==>
              exists dk :: HasEdge(f, dk, k) && dk.gvr == gvr && (available ==> dk.name == "*")
    ensures !available ==> forall k :: ListOnly(f, TypeChange(gvr, available), k) <==>
              forall dk :: HasEdge(f, dk, k) && dk.gvr == gvr ==> dk.name == "*"
  {
    var c := TypeChange(gvr, available);
    forall k ensures k in Matched(f, c) <==> exists dk :: HasEdge(f, dk, k) && dk.gvr == gvr && (available ==> dk.name == "*") {
      if k in Matched(f, c) {
        var dk :| dk in f && Hits(c, dk) && k in f[dk].keys;
        assert HasEdge(f, dk, k);
      }
      if dk :| HasEdge(f, dk, k) && dk.gvr == gvr && (available ==> dk.name == "*") { assert Hits(c, dk); }
    }
    forall k | !available
      ensures ListOnly(f, c, k) <==> forall dk :: HasEdge(f, dk, k) && dk.gvr == gvr ==> dk.name == "*"
    {
      if !ListOnly(f, c, k) {
        var dk :| dk in f && Hits(c, dk) && k in f[dk].keys && !dk.IsList();
        assert HasEdge(f, dk, k);
      }
    }
  }

  lemma FourParts<T>(all: set<T>, a: set<T>, b: set<T>, c: set<T>, d: set<T>)
    requires forall x :: x in all <==> x in a || x in b || x in c || x in d
    requires a !! b && (a + b) !! c && (a + b + c) !! d
    ensures all == a + b + c + d && |all| == |a| + |b| + |c| + |d|
  {
    assert all == a + b + c + d;
  }

  /** What becomes of one matched key when its own object is always probed. */
  datatype Fate = Evict | Mark(m: MarkClass)

  function FateOf(listOnly: bool, isSelf: bool, state: ObjectState): Fate {
    if state == Absent && isSelf then Evict else Mark(ClassOf(listOnly, isSelf))
  }

  /** Probing only where a consumer reads the answer decides every key the same way. */
  lemma LazyProbe(listOnly: bool, isSelf: bool, state: ObjectState)
    ensures FateOf(listOnly, (state == Absent || !listOnly) && isSelf, state) == FateOf(listOnly, isSelf, state)
  {
  }

  /** The fate of every matched key, every key probed. */
  function Fates(matched: map<L1Key, bool>, inputs: Inputs, self: DepKey, state: ObjectState): map<L1Key, Fate> {
    map k | k in matched :: FateOf(matched[k], IsSelf(inputs, k, self), state)
  }

  /** The keys of a walked part that meet a fate. */
  function Fated<K>(fates: map<K, Fate>, part: set<K>, fate: Fate): set<K>
    requires part <= fates.Keys
  {
    set k | k in part && fates[k] == fate
  }

  /** What the fan-out loop accumulates. */
  datatype Tally<K> = Tally(evict: set<K>, mark: set<K>, selfs: nat, lists: nat, exacts: nat)

  ghost predicate Tallied<K>(t: Tally<K>, fates: map<K, Fate>, part: set<K>)
    requires part <= fates.Keys
  {
    && t.evict == Fated(fates, part, Evict)
    && t.mark == part - t.evict
    && t.selfs == |Fated(fates, part, Mark(SelfMark))|
    && t.lists == |Fated(fates, part, Mark(ListMark))|
    && t.exacts == |Fated(fates, part, Mark(ExactMark))|
  }

  function Add<K>(t: Tally<K>, k: K, fate: Fate): Tally<K> {
    match fate
    case Evict => t.(evict := t.evict + {k})
    case Mark(SelfMark) => t.(mark := t.mark + {k}, selfs := t.selfs + 1)
    case Mark(ListMark) => t.(mark := t.mark + {k}, lists := t.lists + 1)
    case Mark(ExactMark) => t.(mark := t.mark + {k}, exacts := t.exacts + 1)
  }

  lemma EvictedOne<K>(fates: map<K, Fate>, part: set<K>, k: K)
    requires part <= fates.Keys && k in fates && k !in part
    ensures Fated(fates, part + {k}, Evict) ==
              if fates[k] == Evict then Fated(fates, part, Evict) + {k} else Fated(fates, part, Evict)
    ensures (part + {k}) - Fated(fates, part + {k}, Evict) ==
              if fates[k] == Evict then part - Fated(fates, part, Evict) else part - Fated(fates, part, Evict) + {k}
  {
  }

  lemma MarkedOne<K>(fates: map<K, Fate>, part: set<K>, k: K, fate: Fate)
    requires part <= fates.Keys && k in fates && k !in part
    ensures |Fated(fates, part + {k}, fate)| == |Fated(fates, part, fate)| + if fate == fates[k] then 1 else 0
  {
    var was, now := Fated(fates, part, fate), Fated(fates, part + {k}, fate);
    if fate == fates[k] {
      assert now == was + {k};
    } else {
      assert now == was;
    }
  }

  /** The tally with the parts an added key makes. */
  lemma AddParts<K>(t: Tally<K>, k: K, fate: Fate, u: Tally<K>)
    requires u.evict == if fate == Evict then t.evict + {k} else t.evict
    requires u.mark == if fate == Evict then t.mark else t.mark + {k}
    requires u.selfs == t.selfs + if fate == Mark(SelfMark) then 1 else 0
    requires u.lists == t.lists + if fate == Mark(ListMark) then 1 else 0
    requires u.exacts == t.exacts + if fate == Mark(ExactMark) then 1 else 0
    ensures u == Add(t, k, fate)
  {
  }

  lemma TallyNone<K>(fates: map<K, Fate>)
    ensures Tallied(Tally({}, {}, 0, 0, 0), fates, {})
  {
    assert forall fate :: Fated(fates, {}, fate) == {};
  }

  /** Walking one more matched key adds it to the one part its fate names. */
  lemma TallyOne<K>(t: Tally<K>, fates: map<K, Fate>, part: set<K>, k: K)
    requires part <= fates.Keys && k in fates && k !in part
    requires Tallied(t, fates, part)
    ensures Tallied(Add(t, k, fates[k]), fates, part + {k})
  {
    var next := part + {k};
    EvictedOne(fates, part, k);
    MarkedOne(fates, part, k, Mark(SelfMark));
    MarkedOne(fates, part, k, Mark(ListMark));
    MarkedOne(fates, part, k, Mark(ExactMark));
    var evict := Fated(fates, next, Evict);
    AddParts(t, k, fates[k], Tally(evict, next - evict,
                                   |Fated(fates, next, Mark(SelfMark))|,
                                   |Fated(fates, next, Mark(ListMark))|,
                                   |Fated(fates, next, Mark(ExactMark))|));
  }

  /** Buckets with one key taken out of some of them, the emptied ones pruned. */
  function StripFrom(f: Forward, done: set<DepKey>, k: L1Key): Forward {
    map dk | dk in f && !(dk in done && f[dk].keys - {k} == {}) ::
      if dk in done then Bucket(f[dk].keys - {k}, f[dk].stamp) else f[dk]
  }

  /** Buckets of which some have been stamped. */
  function StampSome(f: Forward, done: set<DepKey>, s: nat): Forward {
    map dk | dk in f :: if dk in done then Bucket(f[dk].keys, Max(f[dk].stamp, s)) else f[dk]
  }

  class DepTracker {
    var forward: Forward
    var reverse: Reverse
    var floors: Floors
    var typeFloors: Floors
    var seqNo: nat
    var total: int
    var coordinates: int
    var dropped: nat
    const cap: nat

    constructor (cap: nat)
      ensures View() == Empty(cap) && Valid()
    {
      this.cap := cap;
      forward, reverse, floors, typeFloors := map[], map[], map[], map[];
      seqNo, total, coordinates, dropped := 0, 0, 0, 0;
      new;
      assert Edges(map[]) == {};
    }

    function View(): Tracker
      reads this
    {
      Tracker(forward, reverse, floors, typeFloors, seqNo, total, coordinates, cap, dropped)
    }

    ghost predicate Valid()
      reads this
    {
      Agreed(View())
    }

    /** Below the cap the pair is in place afterwards; at it a missing pair is refused and
        counted, and the bucket made for it is pruned again. */
    method Record(k: L1Key, dk: DepKey)
      modifies this
      ensures View() == old(Recorded(View(), k, dk))
      ensures HasEdge(forward, dk, k) <==> old(HasEdge(forward, dk, k)) || old(total) < cap
      ensures dropped == old(dropped) + if !old(HasEdge(forward, dk, k)) && old(total) >= cap then 1 else 0
    {
      ghost var before := forward;
      var loaded := dk in forward;
      if !loaded {
        forward := forward[dk := Bucket({}, FloorOf(floors, dk.gvr))];
        coordinates := coordinates + 1;
      }
      if k in forward[dk].keys {
        return;
      }
      forward := forward[dk := Bucket(forward[dk].keys + {k}, forward[dk].stamp)];
      if total >= cap {
        forward := forward[dk := Bucket(forward[dk].keys - {k}, forward[dk].stamp)];
        dropped := dropped + 1;
        if !loaded && forward[dk].keys == {} {
          forward := forward - {dk};
          coordinates := coordinates - 1;
        }
        assert forward == before;
        return;
      }
      total := total + 1;
      reverse := reverse[k := DepsOf(reverse, k) + {dk}];
      assert forward == AddEdge(before, floors, dk, k);
    }

    /** Drops the key's reverse entry, then each of its forward edges, pruning emptied buckets. */
    method StripEdgesOf(k: L1Key)
      requires forall dk :: HasEdge(forward, dk, k) <==> dk in DepsOf(reverse, k)
      requires forall dk | dk in forward :: forward[dk].keys != {}
      modifies this
      ensures View() == old(Removed(View(), k))
    {
      if k !in reverse {
        return;
      }
      ghost var f := forward;
      var deps := reverse[k];
      reverse := reverse - {k};
      assert StripFrom(f, {}, k) == f && Sole(f, {}, k) == {};
      StripLoop(deps, k);
      StripAll(f, deps, k);
    }

    method StripEdge(dk: DepKey, k: L1Key)
      requires HasEdge(forward, dk, k)
      modifies `forward, `total, `coordinates
      ensures total == old(total) - 1
      ensures var b := old(forward[dk]);
              if b.keys - {k} == {} then forward == old(forward) - {dk} && coordinates == old(coordinates) - 1
              else forward == old(forward)[dk := Bucket(b.keys - {k}, b.stamp)] && coordinates == old(coordinates)
    {
      var left := forward[dk].keys - {k};
      total := total - 1;
      if left == {} {
        forward := forward - {dk};
        coordinates := coordinates - 1;
      } else {
        forward := forward[dk := Bucket(left, forward[dk].stamp)];
      }
    }

    method StripLoop(deps: set<DepKey>, k: L1Key)
      requires forall dk | dk in deps :: HasEdge(forward, dk, k)
      modifies `forward, `total, `coordinates
      ensures forward == StripFrom(old(forward), deps, k)
      ensures total == old(total) - |deps|
      ensures coordinates == old(coordinates) - |Sole(old(forward), deps, k)|
    {
      ghost var f := forward;
      var todo := deps;
      ghost var done: set<DepKey> := {};
      assert StripFrom(f, {}, k) == f && Sole(f, {}, k) == {};
      while todo != {}
        invariant done + todo == deps && done !! todo
        invariant forward == StripFrom(f, done, k)
        invariant total == old(total) - |done| && coordinates == old(coordinates) - |Sole(f, done, k)|
        decreases todo
      {
        var dk :| dk in todo;
        todo := todo - {dk};
        StripOne(f, done, dk, k);
        StripEdge(dk, k);
        done := done + {dk};
      }
      assert done == deps;
    }

    method RemoveL1Key(k: L1Key)
      requires Valid()
      modifies this
      ensures Valid() && View() == old(Removed(View(), k))
      ensures k !in reverse
      ensures forall dk, x :: HasEdge(forward, dk, x) <==> old(HasEdge(forward, dk, x)) && x != k
    {
      RemoveAgrees(View(), k);
      StripEdgesOf(k);
    }

    /** Stamps the buckets of one coordinate, exact forms before list forms. */
    method StampCoordinate(gvr: GVR, ns: string, name: string)
      modifies `forward
      ensures forward == StampHits(old(forward), ObjectChange(gvr, ns, name), seqNo)
    {
      ghost var f := forward;
      var buckets := CoordinateBuckets(gvr, ns, name);
      ghost var done: set<DepKey> := {};
      assert StampSome(f, {}, seqNo) == f;
      for i := 0 to |buckets|
        invariant forall dk :: dk in done <==> exists j | 0 <= j < i :: buckets[j] == dk
        invariant forward == StampSome(f, done, seqNo)
      {
        var dk := buckets[i];
        if dk in forward {
          forward := forward[dk := Bucket(forward[dk].keys, Max(forward[dk].stamp, seqNo))];
        }
        assert forward == StampSome(f, done + {dk}, seqNo);
        done := done + {dk};
      }
      assert forall dk :: dk in done <==> dk in buckets;
      assert forward == StampHits(f, ObjectChange(gvr, ns, name), seqNo);
    }

    /** Stamps every bucket of a GVR, or its list buckets only, by a walk over the whole index. */
    method StampType(gvr: GVR, listOnly: bool)
      modifies `forward
      ensures forward == StampHits(old(forward), TypeChange(gvr, listOnly), seqNo)
    {
      ghost var f := forward;
      ghost var c := TypeChange(gvr, listOnly);
      var todo := forward.Keys;
      ghost var done: set<DepKey> := {};
      assert StampSome(f, {}, seqNo) == f;
      while todo != {}
        invariant todo <= f.Keys && forall dk | dk in f.Keys - todo :: dk in done <==> Hits(c, dk)
        invariant done <= f.Keys - todo
        invariant forward == StampSome(f, done, seqNo)
        decreases todo
      {
        var dk :| dk in todo;
        todo := todo - {dk};
        if dk.gvr == gvr && (!listOnly || dk.name == LIST_WILDCARD) {
          forward := forward[dk := Bucket(forward[dk].keys, Max(forward[dk].stamp, seqNo))];
          assert forward == StampSome(f, done + {dk}, seqNo);
          done := done + {dk};
        }
      }
      assert forward == StampHits(f, c, seqNo);
    }

    /** Advances the sequence, raises the floors and stamps every bucket the event hits. */
    method Bump(c: Change)
      modifies this
      ensures View() == old(Bumped(View(), c))
    {
      seqNo := seqNo + 1;
      floors := RaiseFloor(floors, c.gvr, seqNo);
      match c
      case ObjectChange(gvr, ns, name) =>
        StampCoordinate(gvr, ns, name);
      case TypeChange(gvr, listOnly) =>
        typeFloors := RaiseFloor(typeFloors, gvr, seqNo);
        StampType(gvr, listOnly);
    }

    /** Adds one bucket's keys to the matches; an exact bucket beats a list bucket for good. */
    method VisitBucket(matches: map<L1Key, bool>, dk: DepKey) returns (out: map<L1Key, bool>)
      ensures forall k :: k in out <==> k in matches || HasEdge(forward, dk, k)
      ensures forall k | k in out :: out[k] <==> (k in matches ==> matches[k]) && (HasEdge(forward, dk, k) ==> dk.IsList())
    {
      out := matches;
      var todo := if dk in forward then forward[dk].keys else {};
      while todo != {}
        invariant dk in forward ==> todo <= forward[dk].keys
        invariant dk !in forward ==> todo == {}
        invariant forall k :: k in out <==> k in matches || (HasEdge(forward, dk, k) && k !in todo)
        invariant forall k | k in out ::
          out[k] <==> (k in matches ==> matches[k]) && (HasEdge(forward, dk, k) && k !in todo ==> dk.IsList())
        decreases todo
      {
        var k :| k in todo;
        todo := todo - {k};
        if k !in out {
          out := out[k := dk.name == LIST_WILDCARD];
        } else if out[k] && dk.name != LIST_WILDCARD {
          out := out[k := false];
        }
      }
    }

    /** The keys an object event reaches, each with whether only list buckets reach it. */
    method CollectForMark(c: Change) returns (out: map<L1Key, bool>)
      requires c.ObjectChange?
      ensures out.Keys == Matched(forward, c)
      ensures forall k | k in out :: out[k] == ListOnly(forward, c, k)
    {
      var buckets := CoordinateBuckets(c.gvr, c.namespace, c.name);
      out := map[];
      for i := 0 to |buckets|
        invariant forall k :: k in out <==> exists j | 0 <= j < i :: HasEdge(forward, buckets[j], k)
        invariant forall k | k in out :: out[k] <==> forall j | 0 <= j < i && HasEdge(forward, buckets[j], k) :: buckets[j].IsList()
      {
        out := VisitBucket(out, buckets[i]);
      }
      assert forall k, j | 0 <= j < |buckets| && HasEdge(forward, buckets[j], k) :: Hits(c, buckets[j]);
      forall k ensures k in out <==> k in Matched(forward, c) {
        if k in Matched(forward, c) {
          var dk :| dk in forward && Hits(c, dk) && k in forward[dk].keys;
          assert dk in buckets;
        }
      }
      forall k | k in out ensures out[k] == ListOnly(forward, c, k) {
        forall dk | dk in forward && Hits(c, dk) && k in forward[dk].keys ensures dk in buckets {}
      }
    }

    /** The keys a type event reaches, by a walk over the whole index. */
    method CollectTypeMatches(gvr: GVR, listOnly: bool) returns (out: map<L1Key, bool>)
      ensures out.Keys == Matched(forward, TypeChange(gvr, listOnly))
      ensures forall k | k in out :: out[k] == ListOnly(forward, TypeChange(gvr, listOnly), k)
    {
      ghost var c := TypeChange(gvr, listOnly);
      out := map[];
      var todo := forward.Keys;
      while todo != {}
        invariant todo <= forward.Keys
        invariant forall k :: k in out <==> exists dk | dk in forward.Keys - todo :: Hits(c, dk) && k in forward[dk].keys
        invariant forall k | k in out ::
                    out[k] <==> forall dk | dk in forward.Keys - todo && Hits(c, dk) && k in forward[dk].keys :: dk.IsList()
        decreases todo
      {
        var dk :| dk in todo;
        todo := todo - {dk};
        if dk.gvr == gvr && (!listOnly || dk.name == LIST_WILDCARD) {
          out := VisitBucket(out, dk);
        }
      }
    }

    /** A type event marks every key it reaches and evicts none. */
    method OnResourceType(gvr: GVR, available: bool) returns (matched: map<L1Key, bool>)
      modifies this
      ensures View() == old(Bumped(View(), TypeChange(gvr, available)))
      ensures matched.Keys == Matched(forward, TypeChange(gvr, available))
      ensures forall k | k in matched :: matched[k] == ListOnly(forward, TypeChange(gvr, available), k)
      ensures available ==> forall k | k in matched :: matched[k]
      ensures forall k :: k in matched <==>
                exists dk :: HasEdge(forward, dk, k) && dk.gvr == gvr && (available ==> dk.name == "*")
      ensures forall k | k in matched :: matched[k] <==>
                available || forall dk :: HasEdge(forward, dk, k) && dk.gvr == gvr ==> dk.name == "*"
    {
      Bump(TypeChange(gvr, available));
      matched := CollectTypeMatches(gvr, available);
      TypeReach(forward, gvr, available);
    }

    /** One object event: bump first, then split the matched keys. The own object of a key is
        probed only where the answer is read, yet the split and the class counts are those of
        probing every key. */
    method OnObjectEvent(c: Change, state: ObjectState, inputs: Inputs) returns (t: Tally<L1Key>)
      requires c.ObjectChange?
      modifies this
      ensures View() == old(Bumped(View(), c))
      ensures t.evict == Evicted(forward, inputs, c, state)
      ensures t.mark == Matched(forward, c) - t.evict
      ensures t.selfs == |MarkedAs(forward, inputs, c, state, SelfMark)|
      ensures t.lists == |MarkedAs(forward, inputs, c, state, ListMark)|
      ensures t.exacts == |MarkedAs(forward, inputs, c, state, ExactMark)|
      ensures forall k :: k in t.evict <==>
                && state == Absent
                && k in inputs && inputs[k].gvr == c.gvr && inputs[k].namespace == c.namespace && inputs[k].name == c.name
                && exists dk :: HasEdge(forward, dk, k) && InReach(c.gvr, c.namespace, c.name, dk)
      ensures forall k :: k in t.mark <==>
                && k !in t.evict
                && exists dk :: HasEdge(forward, dk, k) && InReach(c.gvr, c.namespace, c.name, dk)
      ensures t.lists == |(set k | k in t.mark && forall dk :: HasEdge(forward, dk, k) && InReach(c.gvr, c.namespace, c.name, dk) ==> dk.name == "*")|
      ensures t.selfs == |(set k | k in t.mark
                           && k in inputs && inputs[k].gvr == c.gvr && inputs[k].namespace == c.namespace && inputs[k].name == c.name
                           && exists dk :: HasEdge(forward, dk, k) && InReach(c.gvr, c.namespace, c.name, dk) && dk.name != "*")|
      ensures t.selfs + t.lists + t.exacts == |t.mark|
    {
      t := SplitEvent(c, state, inputs);
      FanOutMeaning(forward, inputs, c, state);
      FanOutPartition(forward, inputs, c, state);
    }

    method SplitEvent(c: Change, state: ObjectState, inputs: Inputs) returns (t: Tally<L1Key>)
      requires c.ObjectChange?
      modifies this
      ensures View() == old(Bumped(View(), c))
      ensures t.evict == Evicted(forward, inputs, c, state)
      ensures t.mark == Matched(forward, c) - t.evict
      ensures t.selfs == |MarkedAs(forward, inputs, c, state, SelfMark)|
      ensures t.lists == |MarkedAs(forward, inputs, c, state, ListMark)|
      ensures t.exacts == |MarkedAs(forward, inputs, c, state, ExactMark)|
    {
      Bump(c);
      var matched := CollectForMark(c);
      t := Split(matched, SelfOf(c), state, inputs);
      FatedMeaning(forward, matched, c, inputs, state);
    }

    /** The own object of a key is probed only where the answer is read. */
    method DecideOne(k: L1Key, listOnly: bool, self: DepKey, state: ObjectState, inputs: Inputs) returns (fate: Fate)
      ensures fate == FateOf(listOnly, IsSelf(inputs, k, self), state)
    {
      LazyProbe(listOnly, IsSelf(inputs, k, self), state);
      var needSelf := state == Absent || !listOnly;
      var isSelf := needSelf && IsSelf(inputs, k, self);
      if state == Absent && isSelf {
        return Evict;
      }
      fate := Mark(ClassOf(listOnly, isSelf));
    }

    /** One matched key goes to the part its fate names. */
    method SplitOne(t: Tally<L1Key>, k: L1Key, listOnly: bool, self: DepKey, state: ObjectState, inputs: Inputs,
                    ghost fates: map<L1Key, Fate>, ghost done: set<L1Key>) returns (u: Tally<L1Key>)
      requires done <= fates.Keys && k in fates && k !in done && Tallied(t, fates, done)
      requires fates[k] == FateOf(listOnly, IsSelf(inputs, k, self), state)
      ensures Tallied(u, fates, done + {k})
    {
      TallyOne(t, fates, done, k);
      var fate := DecideOne(k, listOnly, self, state, inputs);
      u := Add(t, k, fate);
    }

    method Split(matched: map<L1Key, bool>, self: DepKey, state: ObjectState, inputs: Inputs) returns (t: Tally<L1Key>)
      ensures Tallied(t, Fates(matched, inputs, self, state), matched.Keys)
    {
      t := Tally({}, {}, 0, 0, 0);
      var todo := matched.Keys;
      ghost var fates := Fates(matched, inputs, self, state);
      TallyNone(fates);
      while todo != {}
        invariant todo <= matched.Keys
        invariant Tallied(t, fates, matched.Keys - todo)
        decreases todo
      {
        var k :| k in todo;
        t := SplitOne(t, k, matched[k], self, state, inputs, fates, matched.Keys - todo);
        assert matched.Keys - (todo - {k}) == matched.Keys - todo + {k};
        todo := todo - {k};
      }
      assert matched.Keys - todo == matched.Keys;
    }

    /** The removals an event asked for: every evicted key loses all its edges. */
    method EvictBatch(keys: set<L1Key>)
      requires Valid()
      modifies this
      ensures Valid() && reverse.Keys == old(reverse.Keys) - keys
      ensures forall dk, k :: HasEdge(forward, dk, k) <==> old(HasEdge(forward, dk, k)) && k !in keys
      ensures floors == old(floors) && seqNo == old(seqNo)
    {
      var todo := keys;
      while todo != {}
        invariant Valid() && todo <= keys
        invariant reverse.Keys == old(reverse.Keys) - (keys - todo)
        invariant forall dk, k :: HasEdge(forward, dk, k) <==> old(HasEdge(forward, dk, k)) && k !in keys - todo
        invariant floors == old(floors) && seqNo == old(seqNo)
        decreases todo
      {
        var k :| k in todo;
        RemoveL1Key(k);
        todo := todo - {k};
      }
    }
  }

  /** The fates of the collected matches are the evicted and the marked sets of the index. */
  lemma FatedMeaning(f: Forward, matched: map<L1Key, bool>, c: Change, inputs: Inputs, state: ObjectState)
    requires c.ObjectChange? && matched.Keys == Matched(f, c)
    requires forall k | k in matched :: matched[k] == ListOnly(f, c, k)
    ensures Fated(Fates(matched, inputs, SelfOf(c), state), matched.Keys, Evict) == Evicted(f, inputs, c, state)
    ensures forall m :: Fated(Fates(matched, inputs, SelfOf(c), state), matched.Keys, Mark(m)) == MarkedAs(f, inputs, c, state, m)
  {
    assert Fated(Fates(matched, inputs, SelfOf(c), state), matched.Keys, Evict) == Evicted(f, inputs, c, state);
    forall m ensures Fated(Fates(matched, inputs, SelfOf(c), state), matched.Keys, Mark(m)) == MarkedAs(f, inputs, c, state, m) {}
  }

  lemma StripOne(f: Forward, done: set<DepKey>, dk: DepKey, k: L1Key)
    requires HasEdge(f, dk, k) && dk !in done
    ensures dk in StripFrom(f, done, k) && StripFrom(f, done, k)[dk] == f[dk]
    ensures StripFrom(f, done + {dk}, k) ==
              if f[dk].keys - {k} == {} then StripFrom(f, done, k) - {dk}
              else StripFrom(f, done, k)[dk := Bucket(f[dk].keys - {k}, f[dk].stamp)]
    ensures |Sole(f, done + {dk}, k)| == |Sole(f, done, k)| + if f[dk].keys - {k} == {} then 1 else 0
  {
    if f[dk].keys - {k} == {} {
      assert f[dk].keys == {k};
      assert Sole(f, done + {dk}, k) == Sole(f, done, k) + {dk};
    } else {
      assert f[dk].keys != {k};
      assert Sole(f, done + {dk}, k) == Sole(f, done, k);
    }
  }

  lemma StripAll(f: Forward, deps: set<DepKey>, k: L1Key)
    requires forall dk :: HasEdge(f, dk, k) <==> dk in deps
    requires forall dk | dk in f :: f[dk].keys != {}
    ensures StripFrom(f, deps, k) == StripKey(f, k)
  {
    forall dk | dk in f && dk !in deps ensures f[dk].keys - {k} == f[dk].keys { assert !HasEdge(f, dk, k); }
  }
}
