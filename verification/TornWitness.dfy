/** A concrete schedule in which an event is lost in the torn window. */
module TornWitness {
  import opened DepKeys
  import opened DepIndex
  import opened ResolveProtocol
  import opened ResolveSafety
  import opened TornWindow

  lemma {:induction false} ExecAppend(s: State, first: seq<Step>, rest: seq<Step>)
    requires Exec(s, first).Reached?
    ensures Exec(s, first + rest) == Exec(Exec(s, first).state, rest)
    decreases |first|
  {
    if first == [] {
      assert first + rest == rest;
    } else {
      assert (first + rest)[0] == first[0] && (first + rest)[1..] == first[1..] + rest;
      ExecAppend(Next(s, first[0]), first[1..], rest);
    }
  }

  lemma ExecJoin(s: State, first: seq<Step>, t: State, rest: seq<Step>, u: State)
    requires Exec(s, first) == Reached(t) && Exec(t, rest) == Reached(u)
    ensures Exec(s, first + rest) == Reached(u)
  {
    ExecAppend(s, first, rest);
  }

  lemma ExecTwo(s: State, a: Step, m: State, b: Step, t: State)
    requires Moves(s, a, m) && Moves(m, b, t)
    ensures Exec(s, [a, b]) == Reached(t)
  {
    assert [a, b][1..] == [b] && [b][1..] == [];
    assert Exec(m, [b]) == Exec(t, []);
  }

  /** A CRD appears: a list-only type change on dk's GVR. */
  function TypeAdded(dk: DepKey, phase: EventPhase): Event {
    Event(TypeChange(dk.gvr, true), false, 5, 1, phase, {}, {})
  }

  /** The resolve after its entry, its declaration, its read and its write. */
  function Wrote(dk: DepKey): Resolve {
    Resolve("k", Stored, 0, map[], map[dk := 3], {dk}, {}, {}, {}, 4, 0, {}, {}, {}, {}, false, false)
  }

  /** The same resolve once its check has counted the event and seen no trace of it. */
  function Unaware(dk: DepKey): Resolve {
    Wrote(dk).(phase := Checking, checkedSeq := 1, scanned := {dk}, torn := {(0, dk)})
  }

  function Late(dk: DepKey): Resolve {
    Unaware(dk).(phase := Checked, late := {dk}, missed := {(0, dk)})
  }

  function Lone(now: nat, seqNo: nat, r: Resolve, events: map<EId, Event>, floors: Floors, f: Forward): State {
    State(now, seqNo, floors, f, {"k"}, map[], map[], map[0 := r], events)
  }

  /** The states the schedule goes through, two steps apart. */
  function Stage(n: nat, dk: DepKey): State {
    match n
    case 0 => INIT
    case 1 => Lone(5, 0, Wrote(dk), map[], map[], map[])
    case 2 => Lone(7, 1, Wrote(dk), map[0 := TypeAdded(dk, EventPhase.Advanced)], map[], map[])
    case 3 => Lone(9, 1, Unaware(dk), map[0 := TypeAdded(dk, EventPhase.Advanced)], map[], map[])
    case 4 => Lone(11, 1, Unaware(dk).(phase := Checked), map[0 := TypeAdded(dk, Stamping)], map[dk.gvr := 1], map[])
    case 5 => Lone(13, 1, Late(dk).(recheck := {dk}), map[0 := TypeAdded(dk, Collecting)], map[dk.gvr := 1],
                   map[dk := Bucket({"k"}, 1)])
    case _ => Lone(14, 1, Late(dk), map[0 := TypeAdded(dk, Collecting)], map[dk.gvr := 1],
                   map[dk := Bucket({"k"}, 1)])
  }

  /** A piece of the schedule leads from one stage to the next. */
  predicate Leads(n: nat, dk: DepKey, steps: seq<Step>) {
    Solo(steps, 0, 0, dk) && Exec(Stage(n, dk), steps) == Reached(Stage(n + 1, dk))
  }

  lemma Writes(dk: DepKey) returns (steps: seq<Step>)
    ensures Leads(0, dk, steps)
  {
    var a, b := Resolving(0, Begin("k")), Resolving(0, Declare(dk));
    var c, d := Resolving(0, Read(dk)), Resolving(0, Put({}));
    var s1 := Next(INIT, a);
    var s2 := Next(s1, b);
    ExecTwo(INIT, a, s1, b, s2);
    assert s2.resolves[0].sink == {dk};
    var s3 := Next(s2, c);
    assert s3.resolves[0].readAt == map[dk := 3];
    var s4 := Next(s3, d);
    ExecTwo(s2, c, s3, d, s4);
    assert Reasserted(s3, s3.resolves[0], {}) == {} && AddEdges(map[], map[], {}, "k") == map[];
    assert s4.resolves == map[0 := Wrote(dk)];
    ExecJoin(INIT, [a, b], s2, [c, d], s4);
    steps := [a, b] + [c, d];
  }

  lemma Advances(dk: DepKey) returns (steps: seq<Step>)
    requires dk.IsList()
    ensures Leads(1, dk, steps)
  {
    var a, b := Announcing(0, Appear(TypeChange(dk.gvr, true), false)), Announcing(0, Advance);
    var s1 := Next(Stage(1, dk), a);
    var s2 := Next(s1, b);
    ExecTwo(Stage(1, dk), a, s1, b, s2);
    assert s2.events == map[0 := TypeAdded(dk, EventPhase.Advanced)];
    steps := [a, b];
  }

  lemma Scans(dk: DepKey) returns (steps: seq<Step>)
    requires dk.IsList()
    ensures Leads(2, dk, steps)
  {
    var a, b := Resolving(0, CheckBegin), Resolving(0, Scan(dk));
    var s1 := Next(Stage(2, dk), a);
    assert Torn(s1, s1.resolves[0], dk) == {(0, dk)};
    var s2 := Next(s1, b);
    ExecTwo(Stage(2, dk), a, s1, b, s2);
    assert s2.resolves[0].toScan == {} && s2.resolves[0].scanned == {dk} && s2.resolves[0].torn == {(0, dk)};
    assert s2.resolves == map[0 := Unaware(dk)];
    steps := [a, b];
  }

  lemma RaisesFloor(dk: DepKey) returns (steps: seq<Step>)
    requires dk.IsList()
    ensures Leads(3, dk, steps)
  {
    var a, b := Resolving(0, CheckEnd), Announcing(0, Floor);
    var s1 := Next(Stage(3, dk), a);
    assert s1.resolves == map[0 := Unaware(dk).(phase := Checked)];
    assert Targets(map[], TypeChange(dk.gvr, true)) == {};
    var s2 := Next(s1, b);
    ExecTwo(Stage(3, dk), a, s1, b, s2);
    assert s2.events == map[0 := TypeAdded(dk, Stamping)] && s2.floors == map[dk.gvr := 1];
    steps := [a, b];
  }

  /** The fan-out has listed its buckets, and found none. */
  function Collected(dk: DepKey): State {
    Lone(12, 1, Unaware(dk).(phase := Checked), map[0 := TypeAdded(dk, Collecting)], map[dk.gvr := 1], map[])
  }

  lemma Collects(dk: DepKey)
    requires dk.IsList()
    ensures Moves(Stage(4, dk), Announcing(0, Collect), Collected(dk))
  {
    assert Targets(map[], TypeChange(dk.gvr, true)) == {};
    var s1 := Next(Stage(4, dk), Announcing(0, Collect));
    assert s1.events == map[0 := TypeAdded(dk, Collecting)];
  }

  lemma RecordsLate(dk: DepKey)
    requires dk.IsList()
    ensures Moves(Collected(dk), Resolving(0, LateRecord(dk, true)), Stage(5, dk))
  {
    var s1 := Collected(dk);
    assert Missed(s1, s1.resolves[0], dk) == {(0, dk)};
    var s2 := Next(s1, Resolving(0, LateRecord(dk, true)));
    assert s2.forward[dk] == Bucket({"k"}, 1) && s2.forward == map[dk := Bucket({"k"}, 1)];
    assert s2.resolves[0] == Late(dk).(recheck := {dk});
    assert s2.resolves == map[0 := Late(dk).(recheck := {dk})];
  }

  lemma PlacesEdge(dk: DepKey) returns (steps: seq<Step>)
    requires dk.IsList()
    ensures Leads(4, dk, steps)
  {
    Collects(dk);
    RecordsLate(dk);
    steps := [Announcing(0, Collect), Resolving(0, LateRecord(dk, true))];
    ExecTwo(Stage(4, dk), steps[0], Collected(dk), steps[1], Stage(5, dk));
  }

  lemma Rechecks(dk: DepKey) returns (steps: seq<Step>)
    requires dk.IsList()
    ensures Leads(5, dk, steps)
  {
    var a := Resolving(0, Recheck(dk));
    var s1 := Next(Stage(5, dk), a);
    assert s1.resolves[0].recheck == {};
    assert s1.resolves == map[0 := Late(dk)];
    steps := [a];
    assert steps[1..] == [] && Exec(s1, []) == Reached(s1);
  }

  lemma Schedule(dk: DepKey) returns (steps: seq<Step>)
    requires dk.IsList()
    ensures Solo(steps, 0, 0, dk) && Exec(INIT, steps) == Reached(Stage(6, dk))
  {
    steps := Writes(dk);
    var next := Advances(dk);
    ExecJoin(INIT, steps, Stage(1, dk), next, Stage(2, dk));
    steps := steps + next;
    next := Scans(dk);
    ExecJoin(INIT, steps, Stage(2, dk), next, Stage(3, dk));
    steps := steps + next;
    next := RaisesFloor(dk);
    ExecJoin(INIT, steps, Stage(3, dk), next, Stage(4, dk));
    steps := steps + next;
    next := PlacesEdge(dk);
    ExecJoin(INIT, steps, Stage(4, dk), next, Stage(5, dk));
    steps := steps + next;
    next := Rechecks(dk);
    ExecJoin(INIT, steps, Stage(5, dk), next, Stage(6, dk));
    steps := steps + next;
  }

  /** The torn family is not empty. An event takes its sequence number, the check counts it
      and sees nothing, the event then raises its floor and fans out over an index that holds
      no edge, and the edge placed last is judged unmoved: the key stays resident with a body
      that lacks the event, and nothing schedules it. */
  lemma LostInTornWindow(dk: DepKey) returns (steps: seq<Step>, s: State)
    requires dk.IsList()
    ensures Exec(INIT, steps) == Reached(s) && Solo(steps, 0, 0, dk)
    ensures 0 in s.resolves && 0 in s.events
    ensures s.resolves[0].phase == Checked && dk in s.resolves[0].scanned
    ensures dk in s.resolves[0].late && s.resolves[0].recheck == {}
    ensures Unseen(s.resolves[0], dk, s.events[0]) && FannedOut(s.events[0])
    ensures s.resolves[0].key in s.resident && Stays(s, s.resolves[0]) && s.enqueuedAt == map[]
  {
    steps := Schedule(dk);
    s := Stage(6, dk);
  }
}
