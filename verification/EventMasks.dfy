/** Transition masks and the decision they feed: what one informer transition tells about
    every registered interest, how the masks of a coalesced coordinate merge, and when a mark
    is classified avoided. */
module EventMasks {
  import opened DepKeys
  import opened ListInterest

  /** What a handler saw happen to one object. `gen` is the registry generation of the
      snapshot the transition was evaluated against. */
  datatype Transition =
    | Update(before: Item, after: Item, decodable: bool, gen: nat)
    | Membership(gen: nat)
    | NoTransition

  datatype Mask = Mask(unknown: bool, membership: bool, gen: nat, changed: set<nat>)

  /** The ids whose projection differs across an update. */
  function ChangedIds(list: seq<Interest>, before: Item, after: Item): set<nat> {
    set i | 0 <= i < |list| && !SameProjection(before, after, list[i].readSet) :: list[i].id
  }

  predicate Evaluable(list: seq<Interest>, t: Transition) {
    t.NoTransition? || t.gen <= |list|
  }

  /** The mask of one transition; an object that does not decode decides nothing, unless no
      interest was registered yet. */
  function MaskOf(list: seq<Interest>, t: Transition): Mask
    requires Evaluable(list, t)
  {
    match t
    case NoTransition => Mask(true, false, 0, {})
    case Membership(g) => Mask(false, true, g, {})
    case Update(before, after, decodable, g) =>
      if g == 0 then Mask(false, false, 0, {})
      else if !decodable then Mask(true, false, g, {})
      else Mask(false, false, g, ChangedIds(list[..g], before, after))
  }

  function Merge(a: Mask, b: Mask): Mask {
    Mask(a.unknown || b.unknown, a.membership || b.membership, Min(a.gen, b.gen), a.changed + b.changed)
  }

  /** Merging into a coordinate that may have no pending mask. */
  function MergeInto(cur: Option<Mask>, m: Option<Mask>): Option<Mask> {
    if m.None? then cur else if cur.None? then m else Some(Merge(cur.value, m.value))
  }

  predicate AllEvaluable(list: seq<Interest>, ts: seq<Transition>) {
    forall i | 0 <= i < |ts| :: Evaluable(list, ts[i])
  }

  /** The mask of a coalesced run of transitions; none for an empty run. */
  function Coalesced(list: seq<Interest>, ts: seq<Transition>): Option<Mask>
    requires AllEvaluable(list, ts)
  {
    if ts == [] then None
    else MergeInto(Coalesced(list, ts[..|ts| - 1]), Some(MaskOf(list, ts[|ts| - 1])))
  }

  lemma MergeIntoAssociative(a: Option<Mask>, b: Option<Mask>, c: Option<Mask>)
    ensures MergeInto(MergeInto(a, b), c) == MergeInto(a, MergeInto(b, c))
  {
    if a.Some? && b.Some? && c.Some? {
      assert a.value.changed + b.value.changed + c.value.changed == a.value.changed + (b.value.changed + c.value.changed);
    }
  }

  lemma MergeIntoCommutes(a: Option<Mask>, b: Option<Mask>)
    ensures MergeInto(a, b) == MergeInto(b, a)
  {
    if a.Some? && b.Some? {
      assert a.value.changed + b.value.changed == b.value.changed + a.value.changed;
    }
  }

  /** Coalescing two runs is coalescing their concatenation, whichever is merged into the
      other: a requeued processing may hand its mask back at any time. */
  lemma {:induction false} CoalescedJoin(list: seq<Interest>, a: seq<Transition>, b: seq<Transition>)
    requires AllEvaluable(list, a) && AllEvaluable(list, b)
    ensures AllEvaluable(list, a + b)
    ensures MergeInto(Coalesced(list, a), Coalesced(list, b)) == Coalesced(list, a + b)
    ensures MergeInto(Coalesced(list, b), Coalesced(list, a)) == Coalesced(list, a + b)
    decreases |b|
  {
    MergeIntoCommutes(Coalesced(list, a), Coalesced(list, b));
    if b == [] {
      assert a + b == a;
    } else {
      var init := b[..|b| - 1];
      assert (a + b)[..|a + b| - 1] == a + init;
      CoalescedJoin(list, a, init);
      MergeIntoAssociative(Coalesced(list, a), Coalesced(list, init), Some(MaskOf(list, b[|b| - 1])));
    }
  }

  lemma CoalescedMore(list: seq<Interest>, ts: seq<Transition>, t: Transition)
    requires AllEvaluable(list, ts) && Evaluable(list, t)
    ensures AllEvaluable(list, ts + [t])
    ensures Coalesced(list, ts + [t]) == MergeInto(Coalesced(list, ts), Some(MaskOf(list, t)))
  {
    assert (ts + [t])[..|ts|] == ts;
  }

  /** A mask of an older registry stays the mask of the same run when the list grows. */
  lemma {:induction false} CoalescedGrows(list: seq<Interest>, longer: seq<Interest>, ts: seq<Transition>)
    requires list <= longer
    requires AllEvaluable(list, ts)
    ensures AllEvaluable(longer, ts)
    ensures Coalesced(longer, ts) == Coalesced(list, ts)
    decreases |ts|
  {
    if ts != [] {
      CoalescedGrows(list, longer, ts[..|ts| - 1]);
      var t := ts[|ts| - 1];
      if t.Update? { assert Evaluable(list, t) && longer[..t.gen] == list[..t.gen]; }
    }
  }

  lemma OneMask(list: seq<Interest>, t: Transition)
    requires Evaluable(list, t)
    ensures MaskOf(list, t).unknown <==> t == NoTransition || (t.Update? && t.gen > 0 && !t.decodable)
    ensures MaskOf(list, t).membership <==> t.Membership?
    ensures MaskOf(list, t).gen == if t == NoTransition then 0 else t.gen
    ensures forall id :: id in MaskOf(list, t).changed <==>
              t.Update? && t.decodable && exists i | 0 <= i < t.gen :: list[i].id == id && !SameProjection(t.before, t.after, list[i].readSet)
  {
  }

  /** What a coalesced mask says of its transitions: undecided, membership and each changed id
      if and only if one of them was, and the generation of the one evaluated earliest. */
  lemma {:induction false} CoalescedMeaning(list: seq<Interest>, ts: seq<Transition>)
    requires AllEvaluable(list, ts) && ts != []
    ensures Coalesced(list, ts).Some?
    ensures var m := Coalesced(list, ts).value;
            && (m.unknown <==> exists t | t in ts :: t == NoTransition || (t.Update? && t.gen > 0 && !t.decodable))
            && (m.membership <==> exists t | t in ts :: t.Membership?)
            && (forall t | t in ts :: m.gen <= if t == NoTransition then 0 else t.gen)
            && (exists t | t in ts :: m.gen == if t == NoTransition then 0 else t.gen)
            && (forall id :: id in m.changed <==>
                  exists t, i: nat | t in ts && t.Update? && t.decodable && i < t.gen <= |list| ::
                    list[i].id == id && !SameProjection(t.before, t.after, list[i].readSet))
    decreases |ts|
  {
    var init, last := ts[..|ts| - 1], ts[|ts| - 1];
    OneMask(list, last);
    assert forall t :: t in ts <==> t in init || t == last by { assert ts == init + [last]; }
    forall t | t in ts ensures Evaluable(list, t) {}
    if init != [] { CoalescedMeaning(list, init); }
  }

  // ---- what a mask decides about one interest ------------------------------------------

  /** The mask shows every merged transition evaluated the interest and none changed it. */
  predicate Clears(m: Mask, li: Interest) {
    !m.unknown && !m.membership && li.gen <= m.gen && li.id !in m.changed
  }

  /** The transition is a decodable update, evaluated after the interest was registered, that
      left its projection unchanged. */
  predicate Spares(t: Transition, li: Interest) {
    t.Update? && t.decodable && li.gen <= t.gen && SameProjection(t.before, t.after, li.readSet)
  }

  lemma ClearsMerge(a: Mask, b: Mask, li: Interest)
    ensures Clears(Merge(a, b), li) <==> Clears(a, li) && Clears(b, li)
  {
  }

  lemma ClearsOne(list: seq<Interest>, t: Transition, li: Interest)
    requires Evaluable(list, t)
    requires 1 <= li.gen <= |list| && list[li.gen - 1] == li
    requires forall i | 0 <= i < |list| && list[i].id == li.id :: list[i] == li
    ensures Clears(MaskOf(list, t), li) <==> Spares(t, li)
  {
    if t.Update? && t.gen > 0 && t.decodable {
      var seen := list[..t.gen];
      if li.gen <= t.gen {
        assert seen[li.gen - 1] == li;
        assert li.id in ChangedIds(seen, t.before, t.after) <==> !SameProjection(t.before, t.after, li.readSet);
      }
    }
  }

  /** The coalesced mask clears an interest exactly when every transition of the run spared
      it: coalescing forgets no transition that mattered. */
  lemma {:induction false} ClearsAll(list: seq<Interest>, ts: seq<Transition>, li: Interest)
    requires AllEvaluable(list, ts)
    requires 1 <= li.gen <= |list| && list[li.gen - 1] == li
    requires forall i | 0 <= i < |list| && list[i].id == li.id :: list[i] == li
    ensures Coalesced(list, ts).Some? && Clears(Coalesced(list, ts).value, li)
            <==> ts != [] && forall t | t in ts :: Spares(t, li)
    decreases |ts|
  {
    if ts != [] {
      var init := ts[..|ts| - 1];
      var last := ts[|ts| - 1];
      ClearsOne(list, last, li);
      ClearsAll(list, init, li);
      assert forall t :: t in ts <==> t in init || t == last by { assert ts == init + [last]; }
      if init != [] {
        ClearsMerge(Coalesced(list, init).value, MaskOf(list, last), li);
      }
    }
  }

  // ---- decision ------------------------------------------------------------------------

  datatype Reason =
    | KeptDegraded | KeptNoMask | KeptUndecided | KeptMembership | KeptRegistryLate
    | KeptInterestAll | KeptInterestPending | KeptReadField | AvoidUnreadField
  {
    /** Precedence: the lowest reason wins when a key has several list edges. */
    function Rank(): nat {
      match this
      case KeptDegraded => 0
      case KeptNoMask => 1
      case KeptUndecided => 2
      case KeptMembership => 3
      case KeptRegistryLate => 4
      case KeptInterestAll => 5
      case KeptInterestPending => 6
      case KeptReadField => 7
      case AvoidUnreadField => 8
    }
  }

  type DepSet = map<DepKey, EdgeValue>

  /** The list edges an event on a namespace reaches. */
  predicate ReachesList(dk: DepKey, g: GVR, ns: string) {
    dk.gvr == g && dk.IsList() && dk.namespace in {ns, ""}
  }

  predicate HasEdgeLike(ds: Option<DepSet>, g: GVR, ns: string, v: EdgeValue) {
    ds.Some? && exists dk | dk in ds.value :: ReachesList(dk, g, ns) && ds.value[dk] == v
  }

  predicate HasNarrowed(ds: Option<DepSet>, g: GVR, ns: string) {
    ds.Some? && exists dk | dk in ds.value :: ReachesList(dk, g, ns) && ds.value[dk].Narrowed?
  }

  /** Some narrowed edge was not cleared for the given cause. */
  predicate NarrowedLate(ds: Option<DepSet>, g: GVR, ns: string, m: Mask) {
    ds.Some? && exists dk | dk in ds.value ::
      ReachesList(dk, g, ns) && ds.value[dk].Narrowed? && ds.value[dk].li.gen > m.gen
  }

  predicate NarrowedChanged(ds: Option<DepSet>, g: GVR, ns: string, m: Mask) {
    ds.Some? && exists dk | dk in ds.value ::
      ReachesList(dk, g, ns) && ds.value[dk].Narrowed? && ds.value[dk].li.gen <= m.gen && ds.value[dk].li.id in m.changed
  }

  predicate NoListEdge(ds: Option<DepSet>, g: GVR, ns: string) {
    ds.None? || forall dk | dk in ds.value :: !ReachesList(dk, g, ns)
  }

  /** The mask is consulted per interest: the probe is settled, the mask is there and is
      neither undecided nor a membership change. */
  predicate Decidable(state: ObjectState, mask: Option<Mask>) {
    state.Exists? && mask.Some? && !mask.value.unknown && !mask.value.membership
  }

  /** Whether a reason applies to a mark, independently of the order they are looked at. */
  predicate Applies(r: Reason, ds: Option<DepSet>, g: GVR, ns: string, state: ObjectState, mask: Option<Mask>) {
    match r
    case KeptInterestAll => NoListEdge(ds, g, ns) || HasEdgeLike(ds, g, ns, Sticky) || HasEdgeLike(ds, g, ns, All)
    case KeptInterestPending => HasEdgeLike(ds, g, ns, Pending)
    case KeptDegraded => HasNarrowed(ds, g, ns) && state.Degraded?
    case KeptNoMask => HasNarrowed(ds, g, ns) && !state.Degraded? && mask.None?
    case KeptUndecided => HasNarrowed(ds, g, ns) && !state.Degraded? && mask.Some? && mask.value.unknown
    case KeptMembership =>
      HasNarrowed(ds, g, ns) && !state.Degraded? && mask.Some? && !mask.value.unknown
      && (mask.value.membership || state.Absent?)
    case KeptRegistryLate => Decidable(state, mask) && NarrowedLate(ds, g, ns, mask.value)
    case KeptReadField => Decidable(state, mask) && NarrowedChanged(ds, g, ns, mask.value)
    case AvoidUnreadField => true
  }

  /** The decision: the lowest reason that applies. */
  ghost predicate Decides(r: Reason, ds: Option<DepSet>, g: GVR, ns: string, state: ObjectState, mask: Option<Mask>) {
    Applies(r, ds, g, ns, state, mask)
    && forall q: Reason | Applies(q, ds, g, ns, state, mask) :: r.Rank() <= q.Rank()
  }

  /** The values of the list edges an event on a namespace reaches, its own and the cluster's. */
  function Reached(ds: Option<DepSet>, g: GVR, ns: string): set<EdgeValue> {
    if ds.None? then {}
    else set dk | dk in ds.value && dk.gvr == g && dk.name == "*" && (dk.namespace == ns || dk.namespace == "") :: ds.value[dk]
  }

  ghost predicate SomeNarrowed(edges: set<EdgeValue>) { exists v | v in edges :: v.Narrowed? }

  /** Some interest was registered after the earliest of the merged transitions was evaluated. */
  ghost predicate SomeLate(edges: set<EdgeValue>, gen: nat) { exists v | v in edges :: v.Narrowed? && v.li.gen > gen }

  /** Some interest is among those a transition changed. */
  ghost predicate SomeChanged(edges: set<EdgeValue>, changed: set<nat>) {
    exists v | v in edges :: v.Narrowed? && v.li.id in changed
  }

  lemma ReachedMeaning(ds: Option<DepSet>, g: GVR, ns: string)
    ensures forall v :: HasEdgeLike(ds, g, ns, v) <==> v in Reached(ds, g, ns)
    ensures HasNarrowed(ds, g, ns) <==> SomeNarrowed(Reached(ds, g, ns))
    ensures NoListEdge(ds, g, ns) <==> Reached(ds, g, ns) == {}
  {
    if ds.Some? {
      forall dk | dk in ds.value && ReachesList(dk, g, ns) ensures ds.value[dk] in Reached(ds, g, ns) {}
    }
  }

  lemma ReachedByMask(ds: Option<DepSet>, g: GVR, ns: string, m: Mask)
    ensures NarrowedLate(ds, g, ns, m) <==> SomeLate(Reached(ds, g, ns), m.gen)
    ensures NarrowedChanged(ds, g, ns, m) ==> SomeChanged(Reached(ds, g, ns), m.changed)
    ensures SomeChanged(Reached(ds, g, ns), m.changed) ==> NarrowedChanged(ds, g, ns, m) || NarrowedLate(ds, g, ns, m)
  {
    if ds.Some? {
      forall dk | dk in ds.value && ReachesList(dk, g, ns) ensures ds.value[dk] in Reached(ds, g, ns) {}
    }
  }

  lemma FirstApplies(r: Reason, ds: Option<DepSet>, g: GVR, ns: string, state: ObjectState, mask: Option<Mask>)
    requires Decides(r, ds, g, ns, state, mask)
    ensures r == if Applies(KeptDegraded, ds, g, ns, state, mask) then KeptDegraded
                 else if Applies(KeptNoMask, ds, g, ns, state, mask) then KeptNoMask
                 else if Applies(KeptUndecided, ds, g, ns, state, mask) then KeptUndecided
                 else if Applies(KeptMembership, ds, g, ns, state, mask) then KeptMembership
                 else if Applies(KeptRegistryLate, ds, g, ns, state, mask) then KeptRegistryLate
                 else if Applies(KeptInterestAll, ds, g, ns, state, mask) then KeptInterestAll
                 else if Applies(KeptInterestPending, ds, g, ns, state, mask) then KeptInterestPending
                 else if Applies(KeptReadField, ds, g, ns, state, mask) then KeptReadField
                 else AvoidUnreadField
  {
    forall q: Reason | Applies(q, ds, g, ns, state, mask) && q.Rank() == r.Rank() ensures q == r {}
  }

  lemma EdgeReasons(ds: Option<DepSet>, g: GVR, ns: string, state: ObjectState, mask: Option<Mask>)
    ensures Applies(KeptInterestAll, ds, g, ns, state, mask) <==>
              Reached(ds, g, ns) == {} || Sticky in Reached(ds, g, ns) || All in Reached(ds, g, ns)
    ensures Applies(KeptInterestPending, ds, g, ns, state, mask) <==> Pending in Reached(ds, g, ns)
  {
    ReachedMeaning(ds, g, ns);
  }

  lemma MaskReasons(ds: Option<DepSet>, g: GVR, ns: string, state: ObjectState, mask: Option<Mask>, narrowed: bool)
    requires narrowed <==> HasNarrowed(ds, g, ns)
    ensures Applies(KeptDegraded, ds, g, ns, state, mask) <==> narrowed && state.Degraded?
    ensures Applies(KeptNoMask, ds, g, ns, state, mask) <==> narrowed && !state.Degraded? && mask.None?
    ensures Applies(KeptUndecided, ds, g, ns, state, mask) <==> narrowed && !state.Degraded? && mask.Some? && mask.value.unknown
    ensures Applies(KeptMembership, ds, g, ns, state, mask) <==>
              narrowed && !state.Degraded? && mask.Some? && !mask.value.unknown && (mask.value.membership || state.Absent?)
    ensures Applies(KeptRegistryLate, ds, g, ns, state, mask) <==> Decidable(state, mask) && NarrowedLate(ds, g, ns, mask.value)
    ensures Applies(KeptReadField, ds, g, ns, state, mask) <==> Decidable(state, mask) && NarrowedChanged(ds, g, ns, mask.value)
  {
  }

  /** The reason decided, spelled out. With a narrowed edge in reach the probe and the mask are
      looked at first, in order; then the edges, then what changed. */
  lemma DecidesMeaning(r: Reason, ds: Option<DepSet>, g: GVR, ns: string, state: ObjectState, mask: Option<Mask>)
    requires Decides(r, ds, g, ns, state, mask)
    ensures
      var edges := Reached(ds, g, ns);
      r == if !SomeNarrowed(edges) then DecidedByEdges(edges)
           else if state == Degraded then KeptDegraded
           else if mask == None then KeptNoMask
           else if mask.value.unknown then KeptUndecided
           else if mask.value.membership || state == Absent then KeptMembership
           else if SomeLate(edges, mask.value.gen) then KeptRegistryLate
           else if DecidedByEdges(edges) != AvoidUnreadField then DecidedByEdges(edges)
           else if SomeChanged(edges, mask.value.changed) then KeptReadField
           else AvoidUnreadField
  {
    var edges := Reached(ds, g, ns);
    FirstApplies(r, ds, g, ns, state, mask);
    EdgeReasons(ds, g, ns, state, mask);
    MaskReasons(ds, g, ns, state, mask, HasNarrowed(ds, g, ns));
    ReachedMeaning(ds, g, ns);
    if Decidable(state, mask) {
      ReachedByMask(ds, g, ns, mask.value);
      if SomeLate(edges, mask.value.gen) { assert SomeNarrowed(edges); }
      if SomeChanged(edges, mask.value.changed) { assert SomeNarrowed(edges); }
    }
  }

  /** What the edges keep a mark for by themselves. */
  ghost function DecidedByEdges(edges: set<EdgeValue>): Reason {
    if edges == {} || Sticky in edges || All in edges then KeptInterestAll
    else if Pending in edges then KeptInterestPending
    else AvoidUnreadField
  }

  predicate Avoids(ds: Option<DepSet>, g: GVR, ns: string, state: ObjectState, mask: Option<Mask>) {
    forall q: Reason | Applies(q, ds, g, ns, state, mask) :: q == AvoidUnreadField
  }

  /** A mark is avoided exactly when the key has list edges in reach, every one is narrowed,
      the probe found the object, and the mask clears every one of their interests. */
  lemma AvoidsMeaning(ds: Option<DepSet>, g: GVR, ns: string, state: ObjectState, mask: Option<Mask>)
    ensures Avoids(ds, g, ns, state, mask) <==>
              && !NoListEdge(ds, g, ns) && state.Exists? && mask.Some?
              && forall dk | dk in ds.value && ReachesList(dk, g, ns) ::
                   ds.value[dk].Narrowed? && Clears(mask.value, ds.value[dk].li)
  {
    if Avoids(ds, g, ns, state, mask) {
      assert !Applies(KeptInterestAll, ds, g, ns, state, mask);
      assert !Applies(KeptInterestPending, ds, g, ns, state, mask);
      assert HasNarrowed(ds, g, ns);
      assert !Applies(KeptDegraded, ds, g, ns, state, mask);
      assert !Applies(KeptNoMask, ds, g, ns, state, mask);
      assert !Applies(KeptUndecided, ds, g, ns, state, mask);
      assert !Applies(KeptMembership, ds, g, ns, state, mask);
      assert !Applies(KeptRegistryLate, ds, g, ns, state, mask);
      assert !Applies(KeptReadField, ds, g, ns, state, mask);
    }
  }

  lemma DecidesAvoids(r: Reason, ds: Option<DepSet>, g: GVR, ns: string, state: ObjectState, mask: Option<Mask>)
    requires Decides(r, ds, g, ns, state, mask)
    ensures r == AvoidUnreadField <==> Avoids(ds, g, ns, state, mask)
  {
  }
}
