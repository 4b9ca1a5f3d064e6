/** The interest of list edges: read sets and their projections, the append-only registry of
    interned read sets, and the lattice an edge climbs. */
module ListInterest {
  import opened DepKeys

  datatype Option<T> = None | Some(value: T)

  /** One entry of a read set in its canonical text. */
  type Read = string

  /** A list item as its reads observe it: the canonical walk of every read that finds
      something. */
  type Item = map<Read, string>

  function Walk(o: Item, r: Read): string {
    if r in o then o[r] else "absent"
  }

  /** The observation of an item restricted to a read set. */
  function Project(o: Item, rs: set<Read>): map<Read, string> {
    map r | r in rs :: Walk(o, r)
  }

  predicate SameProjection(o: Item, n: Item, rs: set<Read>) {
    Project(o, rs) == Project(n, rs)
  }

  /** Two items project equally when every read of the set finds the same text in both, a read
      that finds nothing counting as one that finds "absent". */
  lemma ProjectedReads(o: Item, n: Item, rs: set<Read>)
    ensures SameProjection(o, n, rs) <==>
              forall r | r in rs :: (if r in o then o[r] else "absent") == (if r in n then n[r] else "absent")
  {
    if SameProjection(o, n, rs) {
      forall r | r in rs ensures Walk(o, r) == Walk(n, r) {
        assert Project(o, rs)[r] == Project(n, rs)[r];
      }
    }
  }

  /** A union is a sound read set: equal on it is equal on each part, and conversely. */
  lemma ProjectUnion(o: Item, n: Item, a: set<Read>, b: set<Read>)
    ensures SameProjection(o, n, a + b) <==> SameProjection(o, n, a) && SameProjection(o, n, b)
  {
    ProjectedReads(o, n, a + b);
    ProjectedReads(o, n, a);
    ProjectedReads(o, n, b);
  }

  lemma ProjectPart(o: Item, n: Item, part: set<Read>, all: set<Read>)
    requires part <= all && SameProjection(o, n, all)
    ensures SameProjection(o, n, part)
  {
    assert all == part + (all - part);
    ProjectUnion(o, n, part, all - part);
  }

  // ---- registry ------------------------------------------------------------------------

  const MAX_LIST_INTERESTS: nat := 4096

  datatype Interest = Interest(id: nat, gvr: GVR, readSet: set<Read>, gen: nat)

  datatype GVRInterests = GVRInterests(gen: nat, list: seq<Interest>)

  datatype Registry = Registry(byKey: map<(GVR, set<Read>), Interest>, byGVR: map<GVR, GVRInterests>, count: nat)

  const EMPTY_REGISTRY := Registry(map[], map[], 0)

  /** What a handler's snapshot of a GVR returns. */
  function Listed(reg: Registry, g: GVR): GVRInterests {
    if g in reg.byGVR then reg.byGVR[g] else GVRInterests(0, [])
  }

  predicate Registered(reg: Registry, li: Interest) {
    var g := Listed(reg, li.gvr);
    1 <= li.gen <= |g.list| && g.list[li.gen - 1] == li
  }

  /** Registers a new read set at the next generation of its GVR. */
  function Register(reg: Registry, g: GVR, rs: set<Read>): Registry {
    var was := Listed(reg, g);
    var li := Interest(reg.count + 1, g, rs, was.gen + 1);
    Registry(reg.byKey[(g, rs) := li], reg.byGVR[g := GVRInterests(was.gen + 1, was.list + [li])], reg.count + 1)
  }

  function Intern(reg: Registry, g: GVR, rs: set<Read>): Registry {
    if (g, rs) in reg.byKey || reg.count >= MAX_LIST_INTERESTS then reg else Register(reg, g, rs)
  }

  /** The interest a commit gets; none when the registry is full. */
  function Interned(reg: Registry, g: GVR, rs: set<Read>): Option<Interest> {
    var r := Intern(reg, g, rs);
    if (g, rs) in r.byKey then Some(r.byKey[(g, rs)]) else None
  }

  ghost predicate ListOk(reg: Registry, g: GVR) {
    var l := Listed(reg, g);
    && l.gen == |l.list|
    && forall i | 0 <= i < |l.list| ::
         l.list[i].gvr == g && l.list[i].gen == i + 1
         && (g, l.list[i].readSet) in reg.byKey && reg.byKey[(g, l.list[i].readSet)] == l.list[i]
  }

  ghost predicate KeyOk(reg: Registry, key: (GVR, set<Read>))
    requires key in reg.byKey
  {
    var li := reg.byKey[key];
    li.gvr == key.0 && li.readSet == key.1 && Registered(reg, li) && li.id <= reg.count
  }

  ghost predicate DistinctIds(reg: Registry) {
    forall k1, k2 | k1 in reg.byKey && k2 in reg.byKey && reg.byKey[k1].id == reg.byKey[k2].id :: k1 == k2
  }

  /** Every GVR's generation counts its list, the lists and the key index hold the same
      interests, ids are distinct, and the process-wide bound holds. */
  ghost predicate RegistryOk(reg: Registry) {
    && (forall g :: ListOk(reg, g))
    && (forall key | key in reg.byKey :: KeyOk(reg, key))
    && DistinctIds(reg)
    && |reg.byKey| == reg.count <= MAX_LIST_INTERESTS
  }

  /** The older registry's lists are prefixes of the newer one's. */
  ghost predicate Grows(older: Registry, newer: Registry) {
    forall g :: Listed(older, g).list <= Listed(newer, g).list
  }

  lemma RegisterListOk(reg: Registry, g: GVR, rs: set<Read>, h: GVR)
    requires ListOk(reg, h) && (g, rs) !in reg.byKey
    ensures ListOk(Register(reg, g, rs), h)
    ensures Listed(reg, h).list <= Listed(Register(reg, g, rs), h).list
  {
  }

  /** Interning keeps the registry well formed and append-only. */
  lemma InternOk(reg: Registry, g: GVR, rs: set<Read>)
    requires RegistryOk(reg)
    ensures RegistryOk(Intern(reg, g, rs)) && Grows(reg, Intern(reg, g, rs))
  {
    var r := Intern(reg, g, rs);
    if r != reg {
      forall h ensures ListOk(r, h) && Listed(reg, h).list <= Listed(r, h).list {
        RegisterListOk(reg, g, rs, h);
      }
      forall key | key in r.byKey ensures KeyOk(r, key) {
        if key != (g, rs) {
          assert KeyOk(reg, key);
          RegisteredGrows(reg, r, reg.byKey[key]);
        }
      }
      assert DistinctIds(r) by {
        forall key | key in reg.byKey ensures reg.byKey[key].id <= reg.count { assert KeyOk(reg, key); }
      }
    }
  }

  /** A commit is answered with the interest of exactly its read set; only a read set that is
      new when the bound is reached gets none. */
  lemma InternAnswers(reg: Registry, g: GVR, rs: set<Read>)
    requires ListOk(reg, g) && ((g, rs) in reg.byKey ==> KeyOk(reg, (g, rs)))
    ensures match Interned(reg, g, rs)
            case Some(li) => Registered(Intern(reg, g, rs), li) && li.gvr == g && li.readSet == rs
            case None => Intern(reg, g, rs) == reg
    ensures Interned(reg, g, rs) == None <==> (g, rs) !in reg.byKey && reg.count >= 4096
    ensures (g, rs) in reg.byKey ==> Intern(reg, g, rs) == reg && Interned(reg, g, rs) == Some(reg.byKey[(g, rs)])
  {
  }

  lemma RegisteredGrows(older: Registry, newer: Registry, li: Interest)
    requires Registered(older, li) && Listed(older, li.gvr).list <= Listed(newer, li.gvr).list
    ensures Registered(newer, li)
  {
  }

  // ---- edges ---------------------------------------------------------------------------

  /** The reverse value of a list edge: sticky for a plain record; narrowable edges are
      pending, narrowed, or all for good. */
  datatype EdgeValue = Sticky | Pending | Narrowed(li: Interest) | All

  datatype RecordMode = RecordPlain | RecordNarrowable

  function InitialValue(dk: DepKey, mode: RecordMode): EdgeValue {
    if dk.IsList() && mode.RecordNarrowable? then Pending else Sticky
  }

  function ReRecorded(v: EdgeValue, dk: DepKey, mode: RecordMode): EdgeValue {
    if !dk.IsList() || mode.RecordNarrowable? || v.Sticky? then v else All
  }

  /** The read set a commit asks for: the union with what a narrowed edge already has. */
  function Wanted(v: EdgeValue, rs: set<Read>): set<Read> {
    if v.Narrowed? then v.li.readSet + rs else rs
  }

  /** A commit narrows a pending edge, widens a narrowed one, and leaves a sticky or all edge
      as it is; past the registry bound the edge becomes all. */
  function Committed(reg: Registry, v: EdgeValue, g: GVR, rs: set<Read>): EdgeValue {
    if v.Sticky? || v.All? then v
    else match Interned(reg, g, Wanted(v, rs))
         case Some(li) => Narrowed(li)
         case None => All
  }

  function CommittedRegistry(reg: Registry, v: EdgeValue, g: GVR, rs: set<Read>): Registry {
    if v.Sticky? || v.All? then reg else Intern(reg, g, Wanted(v, rs))
  }

  function Widened(v: EdgeValue): EdgeValue {
    if v.Sticky? then v else All
  }

  /** The order an edge climbs: pending, narrowed, larger read sets, all. */
  predicate Below(v: EdgeValue, w: EdgeValue) {
    match v
    case Pending => !w.Sticky?
    case Narrowed(li) => w.All? || (w.Narrowed? && li.readSet <= w.li.readSet && li.gvr == w.li.gvr)
    case _ => w == v
  }

  lemma BelowTransitive(u: EdgeValue, v: EdgeValue, w: EdgeValue)
    requires Below(u, v) && Below(v, w)
    ensures Below(u, w)
  {
  }

  /** No record, commit or widening ever takes an edge down, and what a commit leaves narrowed
      observes every read the commit named. */
  lemma EdgeClimbs(reg: Registry, v: EdgeValue, dk: DepKey, rs: set<Read>, mode: RecordMode)
    requires ListOk(reg, dk.gvr)
    requires (dk.gvr, Wanted(v, rs)) in reg.byKey ==> KeyOk(reg, (dk.gvr, Wanted(v, rs)))
    requires v.Narrowed? ==> v.li.gvr == dk.gvr
    ensures Below(v, ReRecorded(v, dk, mode))
    ensures Below(v, Widened(v))
    ensures Below(v, Committed(reg, v, dk.gvr, rs))
    ensures Committed(reg, v, dk.gvr, rs).Narrowed? ==> rs <= Committed(reg, v, dk.gvr, rs).li.readSet
  {
    InternAnswers(reg, dk.gvr, Wanted(v, rs));
  }
}
