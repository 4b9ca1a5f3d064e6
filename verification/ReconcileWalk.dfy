/** The reconcile audit: resident entries whose own object is gone are found batch by batch,
    with one probe per coordinate, and handed to the event worker once. */
module ReconcileWalk {
  import opened DepKeys

  datatype Verdict = VerdictUnknown | VerdictExists | VerdictAbsent

  /** The metadata of a resident entry. */
  datatype Meta = Meta(keyHash: L1Key, entryClass: string, gvr: GVR, namespace: string, name: string)

  datatype Row = Row(keyHash: L1Key, entryClass: string, coord: DepKey)

  /** What the indexer answers and which entries hold a self edge, stable during a pass. */
  datatype World = World(probe: DepKey -> Verdict, edges: set<(L1Key, DepKey)>)

  function CoordOf(m: Meta): DepKey { DepKey(m.gvr, m.namespace, m.name) }

  function RowOf(m: Meta): Row { Row(m.keyHash, m.entryClass, CoordOf(m)) }

  /** An entry with a coordinate of its own. */
  predicate HasCoord(m: Meta) { m.name != "" && m.gvr.resource != "" }

  predicate Gone(w: World, m: Meta) { HasCoord(m) && w.probe(CoordOf(m)) == VerdictAbsent }

  predicate Edged(w: World, m: Meta) { (m.keyHash, CoordOf(m)) in w.edges }

  // ---- the audit by definition ---------------------------------------------------------

  datatype Report = Report(sampled: nat, probed: nat, unknown: nat, divergent: nat, skippedNoEdge: nat, entries: seq<Row>)

  function Coords(ms: seq<Meta>): set<DepKey> {
    set m | m in ms && HasCoord(m) :: CoordOf(m)
  }

  function UnknownCoords(w: World, ms: seq<Meta>): set<DepKey> {
    set c | c in Coords(ms) && w.probe(c) == VerdictUnknown
  }

  /** The absent coordinates at least one visited entry holds a self edge for. */
  function DivergentCoords(w: World, ms: seq<Meta>): set<DepKey> {
    set m | m in ms && Gone(w, m) && Edged(w, m) :: CoordOf(m)
  }

  /** The absent entries that hold a self edge, or that do not, in order. */
  function GoneEntries(w: World, ms: seq<Meta>, edged: bool): seq<Meta> {
    if ms == [] then []
    else
      var rest, m := GoneEntries(w, ms[..|ms| - 1], edged), ms[|ms| - 1];
      if Gone(w, m) && Edged(w, m) == edged then rest + [m] else rest
  }

  /** The entries with a coordinate of their own, in order. */
  function WithCoords(ms: seq<Meta>): seq<Meta> {
    if ms == [] then []
    else
      var rest, m := WithCoords(ms[..|ms| - 1]), ms[|ms| - 1];
      if HasCoord(m) then rest + [m] else rest
  }

  function Rows(ms: seq<Meta>): seq<Row> {
    seq(|ms|, i requires 0 <= i < |ms| => RowOf(ms[i]))
  }

  /** What the audit of a list of entries should say. */
  function ReportOf(w: World, ms: seq<Meta>): Report {
    Report(|ms|, |Coords(ms)|, |UnknownCoords(w, ms)|, |DivergentCoords(w, ms)|,
           |GoneEntries(w, ms, false)|, Rows(GoneEntries(w, ms, true)))
  }

  function WithIf<T>(s: set<T>, b: bool, x: T): set<T> { if b then s + {x} else s }

  lemma InMore(ms: seq<Meta>, m: Meta)
    ensures forall x :: x in ms + [m] <==> x in ms || x == m
  {
  }

  lemma CoordsMore(ms: seq<Meta>, m: Meta)
    ensures Coords(ms + [m]) == WithIf(Coords(ms), HasCoord(m), CoordOf(m))
  {
    InMore(ms, m);
  }

  lemma UnknownMore(w: World, ms: seq<Meta>, m: Meta)
    ensures UnknownCoords(w, ms + [m]) ==
              WithIf(UnknownCoords(w, ms), HasCoord(m) && w.probe(CoordOf(m)) == VerdictUnknown, CoordOf(m))
  {
    CoordsMore(ms, m);
  }

  lemma DivergentMore(w: World, ms: seq<Meta>, m: Meta)
    ensures DivergentCoords(w, ms + [m]) == WithIf(DivergentCoords(w, ms), Gone(w, m) && Edged(w, m), CoordOf(m))
  {
    InMore(ms, m);
  }

  lemma GoneMore(w: World, ms: seq<Meta>, m: Meta, edged: bool)
    ensures GoneEntries(w, ms + [m], edged) == GoneEntries(w, ms, edged) + if Gone(w, m) && Edged(w, m) == edged then [m] else []
  {
    assert (ms + [m])[..|ms + [m]| - 1] == ms;
  }

  lemma WithCoordsMore(ms: seq<Meta>, m: Meta)
    ensures WithCoords(ms + [m]) == WithCoords(ms) + if HasCoord(m) then [m] else []
  {
    assert (ms + [m])[..|ms + [m]| - 1] == ms;
  }

  /** How one more entry moves a report, given the coordinates already met and already found
      divergent. */
  function ReportStep(w: World, r: Report, met: set<DepKey>, found: set<DepKey>, m: Meta): Report {
    var c := CoordOf(m);
    var first := HasCoord(m) && c !in met;
    Report(r.sampled + 1,
           r.probed + if first then 1 else 0,
           r.unknown + if first && w.probe(c) == VerdictUnknown then 1 else 0,
           r.divergent + if Gone(w, m) && Edged(w, m) && c !in found then 1 else 0,
           r.skippedNoEdge + if Gone(w, m) && !Edged(w, m) then 1 else 0,
           r.entries + if Gone(w, m) && Edged(w, m) then [RowOf(m)] else [])
  }

  lemma WithIfSize<T>(s: set<T>, b: bool, x: T)
    ensures |WithIf(s, b, x)| == |s| + if b && x !in s then 1 else 0
  {
    if x in s { assert s + {x} == s; }
  }

  /** The report after one more entry. */
  lemma ReportMore(w: World, ms: seq<Meta>, m: Meta)
    ensures ReportOf(w, ms + [m]) == ReportStep(w, ReportOf(w, ms), Coords(ms), DivergentCoords(w, ms), m)
  {
    var c := CoordOf(m);
    CoordsMore(ms, m);
    WithIfSize(Coords(ms), HasCoord(m), c);
    UnknownMore(w, ms, m);
    WithIfSize(UnknownCoords(w, ms), HasCoord(m) && w.probe(c) == VerdictUnknown, c);
    DivergentMore(w, ms, m);
    WithIfSize(DivergentCoords(w, ms), Gone(w, m) && Edged(w, m), c);
    GoneMore(w, ms, m, false);
    GoneMore(w, ms, m, true);
    RowsMore(GoneEntries(w, ms, true), m);
  }

  lemma RowsMore(ms: seq<Meta>, m: Meta)
    ensures Rows(ms + [m]) == Rows(ms) + [RowOf(m)]
  {
  }

  // ---- what the definition says --------------------------------------------------------

  predicate Distinct<T(==)>(s: seq<T>) {
    forall i, j | 0 <= i < j < |s| :: s[i] != s[j]
  }

  lemma {:induction false} GoneMember(w: World, ms: seq<Meta>, edged: bool, m: Meta)
    ensures m in GoneEntries(w, ms, edged) <==> m in ms && Gone(w, m) && Edged(w, m) == edged
    decreases |ms|
  {
    if ms != [] {
      var n := |ms| - 1;
      GoneMember(w, ms[..n], edged, m);
      assert ms == ms[..n] + [ms[n]];
    }
  }

  lemma {:induction false} WithCoordsMember(ms: seq<Meta>, m: Meta)
    ensures m in WithCoords(ms) <==> m in ms && HasCoord(m)
    decreases |ms|
  {
    if ms != [] {
      var n := |ms| - 1;
      WithCoordsMember(ms[..n], m);
      assert ms == ms[..n] + [ms[n]];
    }
  }

  /** The rows are exactly the edged entries of divergent coordinates: every divergent
      coordinate has a row, and every row's coordinate is divergent. */
  lemma RowsCoverDivergent(w: World, ms: seq<Meta>, c: DepKey)
    ensures c in DivergentCoords(w, ms) <==> exists r | r in ReportOf(w, ms).entries :: r.coord == c
  {
    var sel := GoneEntries(w, ms, true);
    if c in DivergentCoords(w, ms) {
      var m :| m in ms && Gone(w, m) && Edged(w, m) && CoordOf(m) == c;
      GoneMember(w, ms, true, m);
      var i :| 0 <= i < |sel| && sel[i] == m;
      assert Rows(sel)[i].coord == c;
    }
    if r :| r in ReportOf(w, ms).entries && r.coord == c {
      var i :| 0 <= i < |Rows(sel)| && Rows(sel)[i] == r;
      GoneMember(w, ms, true, sel[i]);
    }
  }

  /** The entry has a coordinate of its own, and this is it. */
  predicate Represents(m: Meta, c: DepKey) {
    m.name != "" && m.gvr.resource != "" && c.gvr == m.gvr && c.namespace == m.namespace && c.name == m.name
  }

  /** The positions of entries whose object is gone and that hold a self edge, or that do not. */
  function GoneAt(w: World, ms: seq<Meta>, edged: bool): set<nat> {
    set i: nat | i < |ms| && ms[i].name != "" && ms[i].gvr.resource != ""
                 && w.probe(DepKey(ms[i].gvr, ms[i].namespace, ms[i].name)) == VerdictAbsent
                 && ((ms[i].keyHash, DepKey(ms[i].gvr, ms[i].namespace, ms[i].name)) in w.edges <==> edged)
  }

  lemma GoneAtMore(w: World, ms: seq<Meta>, m: Meta, edged: bool)
    ensures GoneAt(w, ms + [m], edged) ==
              GoneAt(w, ms, edged) + if Gone(w, m) && Edged(w, m) == edged then {|ms|} else {}
  {
    assert (ms + [m])[|ms|] == m;
    assert forall i: nat | i < |ms| :: (ms + [m])[i] == ms[i];
  }

  lemma {:induction false} GoneCount(w: World, ms: seq<Meta>, edged: bool)
    ensures |GoneEntries(w, ms, edged)| == |GoneAt(w, ms, edged)|
    decreases |ms|
  {
    if ms == [] {
      assert GoneAt(w, ms, edged) == {};
    } else {
      var init, m := ms[..|ms| - 1], ms[|ms| - 1];
      assert init + [m] == ms;
      GoneCount(w, init, edged);
      GoneMore(w, init, m, edged);
      GoneAtMore(w, init, m, edged);
      assert |init| !in GoneAt(w, init, edged);
    }
  }

  /** The audit, spelled out. Coordinates are probed and found unknown once each however many
      entries share them; a coordinate is divergent when its object is gone and some entry of it
      holds a self edge; rows are listed, and missing edges counted, per entry. */
  lemma ReportMeaning(w: World, ms: seq<Meta>)
    ensures forall c :: c in Coords(ms) <==> exists m | m in ms :: Represents(m, c)
    ensures forall c :: c in UnknownCoords(w, ms) <==> w.probe(c) == VerdictUnknown && exists m | m in ms :: Represents(m, c)
    ensures forall c :: c in DivergentCoords(w, ms) <==>
              w.probe(c) == VerdictAbsent && exists m | m in ms :: Represents(m, c) && (m.keyHash, c) in w.edges
    ensures ReportOf(w, ms).sampled == |ms| && ReportOf(w, ms).probed == |Coords(ms)|
    ensures ReportOf(w, ms).unknown == |UnknownCoords(w, ms)| && ReportOf(w, ms).divergent == |DivergentCoords(w, ms)|
    ensures ReportOf(w, ms).skippedNoEdge == |GoneAt(w, ms, false)| && |ReportOf(w, ms).entries| == |GoneAt(w, ms, true)|
    ensures forall r :: r in ReportOf(w, ms).entries <==>
              w.probe(r.coord) == VerdictAbsent && (r.keyHash, r.coord) in w.edges
              && exists m | m in ms :: Represents(m, r.coord) && m.keyHash == r.keyHash && m.entryClass == r.entryClass
  {
    GoneCount(w, ms, false);
    GoneCount(w, ms, true);
    forall c ensures c in Coords(ms) <==> exists m | m in ms :: Represents(m, c) {
      if m :| m in ms && Represents(m, c) { assert c == CoordOf(m); }
    }
    forall c ensures c in DivergentCoords(w, ms) <==>
      w.probe(c) == VerdictAbsent && exists m | m in ms :: Represents(m, c) && (m.keyHash, c) in w.edges
    {
      if m :| m in ms && Represents(m, c) && (m.keyHash, c) in w.edges { assert c == CoordOf(m); }
    }
    forall r ensures r in ReportOf(w, ms).entries <==>
      w.probe(r.coord) == VerdictAbsent && (r.keyHash, r.coord) in w.edges
      && exists m | m in ms :: Represents(m, r.coord) && m.keyHash == r.keyHash && m.entryClass == r.entryClass
    {
      RowMeaning(w, ms, r);
    }
  }

  lemma RowMeaning(w: World, ms: seq<Meta>, r: Row)
    ensures r in ReportOf(w, ms).entries <==>
              w.probe(r.coord) == VerdictAbsent && (r.keyHash, r.coord) in w.edges
              && exists m | m in ms :: Represents(m, r.coord) && m.keyHash == r.keyHash && m.entryClass == r.entryClass
  {
    var sel := GoneEntries(w, ms, true);
    if r in ReportOf(w, ms).entries {
      var i :| 0 <= i < |Rows(sel)| && Rows(sel)[i] == r;
      GoneMember(w, ms, true, sel[i]);
      assert Represents(sel[i], r.coord);
    }
    if w.probe(r.coord) == VerdictAbsent && (r.keyHash, r.coord) in w.edges {
      if m :| m in ms && Represents(m, r.coord) && m.keyHash == r.keyHash && m.entryClass == r.entryClass {
        assert CoordOf(m) == r.coord;
        GoneMember(w, ms, true, m);
        var i :| 0 <= i < |sel| && sel[i] == m;
        assert Rows(sel)[i] == r;
      }
    }
  }

  /** The memo once some coordinates are probed. */
  function Verdicts(w: World, cs: set<DepKey>): map<DepKey, Verdict> {
    map c | c in cs :: w.probe(c)
  }

  lemma VerdictsMore(w: World, cs: set<DepKey>, b: bool, c: DepKey)
    ensures Verdicts(w, WithIf(cs, b, c)) == if b then Verdicts(w, cs)[c := w.probe(c)] else Verdicts(w, cs)
    ensures c in cs ==> Verdicts(w, cs)[c := w.probe(c)] == Verdicts(w, cs)
  {
  }

  function Flatten(batches: seq<seq<Meta>>): seq<Meta> {
    if batches == [] then [] else Flatten(batches[..|batches| - 1]) + batches[|batches| - 1]
  }

  /** The entries of all batches, in order. */
  lemma {:induction false} FlattenMeaning(batches: seq<seq<Meta>>, more: seq<Meta>)
    ensures Flatten([]) == [] && Flatten(batches + [more]) == Flatten(batches) + more
    ensures forall m :: m in Flatten(batches) <==> exists i | 0 <= i < |batches| :: m in batches[i]
    decreases |batches|
  {
    assert (batches + [more])[..|batches|] == batches;
    if batches != [] {
      var n := |batches| - 1;
      FlattenMeaning(batches[..n], more);
      assert Flatten(batches) == Flatten(batches[..n]) + batches[n];
    }
  }

  // ---- the walk ------------------------------------------------------------------------

  /** What a pass accumulates: the report, the verdict memo, the coordinates found divergent
      and those given to the event worker, in order. */
  datatype Pass = Pass(rep: Report, verdicts: map<DepKey, Verdict>, submitted: set<DepKey>, handed: seq<DepKey>)

  /** Everything but the sample count is what the definition says of the probed entries; the
      memo holds their verdicts; the worker was handed each divergent coordinate once, and
      nothing in a dry run. */
  ghost predicate Probed(w: World, dryRun: bool, p: Pass, ms: seq<Meta>) {
    && p.rep.(sampled := |ms|) == ReportOf(w, ms)
    && p.verdicts == Verdicts(w, Coords(ms))
    && p.submitted == DivergentCoords(w, ms)
    && Distinct(p.handed)
    && (forall c :: c in p.handed <==> !dryRun && c in p.submitted)
  }

  /** One candidate with the memo: the coordinate is probed when it is first met and handed
      over when it is first found divergent. */
  function ProbeStep(w: World, dryRun: bool, p: Pass, m: Meta): Pass {
    var c := CoordOf(m);
    var found := Gone(w, m) && Edged(w, m);
    Pass(ReportStep(w, p.rep, p.verdicts.Keys, p.submitted, m).(sampled := p.rep.sampled),
         p.verdicts[c := w.probe(c)],
         WithIf(p.submitted, found, c),
         if found && c !in p.submitted && !dryRun then p.handed + [c] else p.handed)
  }

  lemma HandedMore(w: World, dryRun: bool, p: Pass, ms: seq<Meta>, m: Meta)
    requires Probed(w, dryRun, p, ms)
    ensures Distinct(ProbeStep(w, dryRun, p, m).handed)
    ensures forall c :: c in ProbeStep(w, dryRun, p, m).handed <==> !dryRun && c in ProbeStep(w, dryRun, p, m).submitted
  {
  }

  lemma ProbeStepProbed(w: World, dryRun: bool, p: Pass, ms: seq<Meta>, m: Meta)
    requires HasCoord(m) && Probed(w, dryRun, p, ms)
    ensures Probed(w, dryRun, ProbeStep(w, dryRun, p, m), ms + [m])
  {
    ReportMore(w, ms, m);
    CoordsMore(ms, m);
    DivergentMore(w, ms, m);
    VerdictsMore(w, Coords(ms), true, CoordOf(m));
    HandedMore(w, dryRun, p, ms, m);
  }

  class ReconcileState {
    const w: World
    const dryRun: bool
    var sampled: nat
    var probed: nat
    var unknown: nat
    var divergent: nat
    var skippedNoEdge: nat
    var entries: seq<Row>
    var verdicts: map<DepKey, Verdict>
    var submitted: set<DepKey>
    var handed: seq<DepKey>

    constructor (w: World, dryRun: bool)
      ensures this.w == w && this.dryRun == dryRun
      ensures View() == Pass(Report(0, 0, 0, 0, 0, []), map[], {}, [])
    {
      this.w, this.dryRun := w, dryRun;
      sampled, probed, unknown, divergent, skippedNoEdge := 0, 0, 0, 0, 0;
      entries, verdicts, submitted, handed := [], map[], {}, [];
    }

    function View(): Pass
      reads this
    {
      Pass(Report(sampled, probed, unknown, divergent, skippedNoEdge, entries), verdicts, submitted, handed)
    }

    method Collect(cands: seq<Meta>, m: Meta) returns (r: seq<Meta>)
      modifies `sampled
      ensures sampled == old(sampled) + 1
      ensures r == cands + if HasCoord(m) then [m] else []
    {
      sampled := sampled + 1;
      if m.name == "" || m.gvr.resource == "" {
        return cands;
      }
      r := cands + [m];
    }

    method Probe(c: DepKey) returns (v: Verdict)
      modifies `verdicts, `probed, `unknown
      ensures verdicts == old(verdicts)[c := v]
      ensures v == if c in old(verdicts) then old(verdicts)[c] else w.probe(c)
      ensures probed == old(probed) + if c in old(verdicts) then 0 else 1
      ensures unknown == old(unknown) + if c !in old(verdicts) && v == VerdictUnknown then 1 else 0
    {
      if c in verdicts {
        v := verdicts[c];
        assert verdicts == verdicts[c := v];
        return;
      }
      v := w.probe(c);
      verdicts := verdicts[c := v];
      probed := probed + 1;
      if v == VerdictUnknown {
        unknown := unknown + 1;
      }
    }

    method Submit(c: DepKey)
      modifies `submitted, `divergent, `handed
      ensures submitted == old(submitted) + {c}
      ensures divergent == old(divergent) + if c in old(submitted) then 0 else 1
      ensures handed == if c in old(submitted) || dryRun then old(handed) else old(handed) + [c]
    {
      if c in submitted {
        assert submitted == submitted + {c};
        return;
      }
      submitted := submitted + {c};
      divergent := divergent + 1;
      if !dryRun {
        handed := handed + [c];
      }
    }

    method ProbeOne(m: Meta)
      requires HasCoord(m) && (CoordOf(m) in verdicts ==> verdicts[CoordOf(m)] == w.probe(CoordOf(m)))
      modifies this
      ensures View() == old(ProbeStep(w, dryRun, View(), m))
    {
      var c := CoordOf(m);
      var v := Probe(c);
      if v != VerdictAbsent {
        return;
      }
      if (m.keyHash, c) !in w.edges {
        skippedNoEdge := skippedNoEdge + 1;
        return;
      }
      Submit(c);
      entries := entries + [RowOf(m)];
    }

    method CollectBatch(metas: seq<Meta>) returns (cands: seq<Meta>)
      modifies `sampled
      ensures cands == WithCoords(metas) && sampled == old(sampled) + |metas|
    {
      cands := [];
      for i := 0 to |metas|
        invariant cands == WithCoords(metas[..i]) && sampled == old(sampled) + i
      {
        assert metas[..i + 1] == metas[..i] + [metas[i]];
        WithCoordsMore(metas[..i], metas[i]);
        cands := Collect(cands, metas[i]);
      }
      assert metas[..|metas|] == metas;
    }

    method ProbeBatch(cands: seq<Meta>, ghost before: seq<Meta>)
      requires Probed(w, dryRun, View(), before) && forall i | 0 <= i < |cands| :: HasCoord(cands[i])
      modifies this
      ensures Probed(w, dryRun, View(), before + cands) && sampled == old(sampled)
    {
      assert before + cands[..0] == before;
      for i := 0 to |cands|
        invariant sampled == old(sampled)
        invariant Probed(w, dryRun, View(), before + cands[..i])
      {
        ProbeNext(cands[i], before + cands[..i]);
        assert before + cands[..i + 1] == before + cands[..i] + [cands[i]];
      }
      assert cands[..|cands|] == cands;
    }

    method ProbeNext(m: Meta, ghost done: seq<Meta>)
      requires Probed(w, dryRun, View(), done) && HasCoord(m)
      modifies this
      ensures Probed(w, dryRun, View(), done + [m]) && sampled == old(sampled)
    {
      ProbeStepProbed(w, dryRun, View(), done, m);
      ProbeOne(m);
    }

    /** One batch: collected under the store lock, then probed without it. */
    method Batch(metas: seq<Meta>, ghost before: seq<Meta>)
      requires Probed(w, dryRun, View(), before)
      modifies this
      ensures Probed(w, dryRun, View(), before + WithCoords(metas)) && sampled == old(sampled) + |metas|
    {
      var cands := CollectBatch(metas);
      forall i | 0 <= i < |cands| ensures HasCoord(cands[i]) { WithCoordsMember(metas, cands[i]); }
      ProbeBatch(cands, before);
    }

    /** The whole walk. However the entries are split into batches, the report is the audit of
        all of them by definition; a dry run differs only in handing nothing over. */
    method Walk(batches: seq<seq<Meta>>)
      requires View() == Pass(Report(0, 0, 0, 0, 0, []), map[], {}, [])
      modifies this
      ensures View().rep == ReportOf(w, Flatten(batches))
      ensures Distinct(handed)
      ensures forall c :: c in handed <==>
                && !dryRun && w.probe(c) == VerdictAbsent
                && exists i, m | 0 <= i < |batches| && m in batches[i] :: Represents(m, c) && (m.keyHash, c) in w.edges
      ensures forall r :: r in entries <==>
                && w.probe(r.coord) == VerdictAbsent && (r.keyHash, r.coord) in w.edges
                && exists i, m | 0 <= i < |batches| && m in batches[i] ::
                     Represents(m, r.coord) && m.keyHash == r.keyHash && m.entryClass == r.entryClass
      ensures |entries| == |GoneAt(w, Flatten(batches), true)| && skippedNoEdge == |GoneAt(w, Flatten(batches), false)|
      ensures sampled == |Flatten(batches)| && (!dryRun ==> divergent == |handed|)
    {
      ghost var all: seq<Meta> := [];
      assert Coords([]) == {} && Verdicts(w, {}) == map[];
      for i := 0 to |batches|
        invariant all == Flatten(batches[..i])
        invariant sampled == |all| && Probed(w, dryRun, View(), WithCoords(all))
      {
        assert batches[..i + 1][..i] == batches[..i];
        WithCoordsJoin(all, batches[i]);
        Batch(batches[i], WithCoords(all));
        all := all + batches[i];
      }
      assert batches[..|batches|] == batches;
      OnlyCoordsMatter(w, all);
      ReportMeaning(w, all);
      FlattenMeaning(batches, []);
      if !dryRun { DistinctSize(handed, submitted); }
    }
  }

  lemma {:induction false} DistinctSize(s: seq<DepKey>, cs: set<DepKey>)
    requires Distinct(s) && cs == set c | c in s
    ensures |s| == |cs|
    decreases |s|
  {
    if s != [] {
      var n := |s| - 1;
      var rest := set c | c in s[..n];
      DistinctSize(s[..n], rest);
      assert cs == rest + {s[n]} && s[n] !in rest;
    }
  }

  lemma {:induction false} WithCoordsJoin(a: seq<Meta>, b: seq<Meta>)
    ensures WithCoords(a + b) == WithCoords(a) + WithCoords(b)
    decreases |b|
  {
    if b == [] {
      assert a + b == a;
    } else {
      var n := |b| - 1;
      WithCoordsJoin(a, b[..n]);
      assert a + b == (a + b[..n]) + [b[n]];
      WithCoordsMore(a + b[..n], b[n]);
    }
  }

  /** Entries without a coordinate of their own are sampled and nothing more. */
  lemma {:induction false} OnlyCoordsMatter(w: World, ms: seq<Meta>)
    ensures ReportOf(w, ms) == ReportOf(w, WithCoords(ms)).(sampled := |ms|)
    ensures Coords(ms) == Coords(WithCoords(ms))
    ensures DivergentCoords(w, ms) == DivergentCoords(w, WithCoords(ms))
    decreases |ms|
  {
    if ms != [] {
      var init, m := ms[..|ms| - 1], ms[|ms| - 1];
      OnlyCoordsMatter(w, init);
      assert init + [m] == ms;
      ReportMore(w, init, m);
      CoordsMore(init, m);
      DivergentMore(w, init, m);
      if HasCoord(m) {
        ReportMore(w, WithCoords(init), m);
        CoordsMore(WithCoords(init), m);
        DivergentMore(w, WithCoords(init), m);
      }
    }
  }
}
