/** The interleaving of resolves with invalidation events over one forward index.

    A resolve captures the event sequence at entry, reads, records the dependencies it
    read, stores its body and then checks whether a dependency moved; if one did it
    re-marks its own key. An event makes its data visible, advances the sequence, raises
    the floor of its GVR, stamps the buckets it hits and only then fans out marks. Every
    one of these is a separate step here, and steps of any number of resolves, events and
    store removals interleave freely. */
module ResolveProtocol {
  import opened DepKeys
  import opened DepIndex

  type RId = nat
  type EId = nat

  /** Stored: the write was accepted and its check has not begun. */
  datatype Phase = Running | Stored | Checking | Checked

  datatype Resolve = Resolve(
    key: L1Key,
    phase: Phase,
    startSeq: nat,               // the sequence at entry
    asOf: map<DepKey, nat>,      // the producer's entry sequence, for a reused dependency
    readAt: map<DepKey, nat>,    // when the data of a dependency was first read
    sink: set<DepKey>,           // what the check looks at
    own: set<DepKey>,            // edges placed under the key before the check
    late: set<DepKey>,           // edges placed under the key after the check began
    recheck: set<DepKey>,        // late edges whose re-check is still to run
    putAt: nat,
    checkedSeq: nat,
    toScan: set<DepKey>,
    scanned: set<DepKey>,
    torn: set<(EId, DepKey)>,    // see Torn
    missed: set<(EId, DepKey)>,  // see Missed
    moved: bool,                 // the running check saw a dependency move
    remarked: bool)

  datatype EventPhase = Visible | Advanced | Stamping | Collecting

  datatype Event = Event(
    change: Change,
    absent: bool,                // the object is gone: its self-representation is evicted
    visibleAt: nat,
    seqNo: nat,
    phase: EventPhase,
    pending: set<DepKey>,        // buckets the current phase has still to visit
    marks: set<L1Key>)           // collected keys still to be marked

  datatype State = State(
    now: nat,
    seqNo: nat,
    floors: Floors,
    forward: Forward,
    resident: set<L1Key>,
    leftAt: map<L1Key, nat>,     // when a key last left the store
    enqueuedAt: map<L1Key, nat>, // when a key was last scheduled for refresh
    resolves: map<RId, Resolve>,
    events: map<EId, Event>)

  /** What a resolve can do. */
  datatype Act =
    | Begin(key: L1Key)
    | Declare(dk: DepKey)                   // a dependency checked without an edge of its own
    | Read(dk: DepKey)
    | Reuse(dk: DepKey, producer: RId)      // a body another resolve read
    | Record(dk: DepKey, admit: bool)       // admit is false when the record cap refuses it
    | Put(admitted: set<DepKey>)
    | CheckBegin
    | Scan(dk: DepKey)
    | CheckEnd
    | LateRecord(dk: DepKey, admit: bool)
    | Recheck(dk: DepKey)

  /** What an event does, in this order. */
  datatype Move =
    | Appear(change: Change, absent: bool)
    | Advance
    | Floor
    | Stamp(dk: DepKey)
    | Collect
    | Visit(dk: DepKey)
    | Mark(k: L1Key, evict: bool)

  datatype Step =
    | Resolving(r: RId, act: Act)
    | Announcing(e: EId, move: Move)
    | Leave(k: L1Key)                       // LRU, TTL, age or DELETE eviction
    | Strip(k: L1Key)                       // the edges of a key no cell holds are released

  const INIT := State(1, 0, map[], map[], {}, map[], map[], map[], map[])

  function At(m: map<L1Key, nat>, k: L1Key): nat {
    if k in m then m[k] else 0
  }

  /** The sequence a dependency is checked from: the entry sequence, lowered to the
      producer's for a reused body. */
  function CheckFrom(r: Resolve, dk: DepKey): nat {
    if dk in r.asOf then Min(r.startSeq, r.asOf[dk]) else r.startSeq
  }

  /** The buckets an event walks. The walk over a whole GVR visits what is present when it
      starts; the walk over a coordinate has a fixed list. */
  function Targets(f: Forward, c: Change): set<DepKey> {
    match c
    case ObjectChange(g, ns, name) => set dk | dk in CoordinateBuckets(g, ns, name)
    case TypeChange(_, _) => set dk | dk in f && Hits(c, dk)
  }

  /** An event whose bump (advance, floor, stamps) has begun but not yet reached dk. */
  predicate MidBump(e: Event, dk: DepKey) {
    e.phase == Advanced || (e.phase == Stamping && dk in e.pending)
  }

  /** The events on dk that had taken a sequence number the check already counts, and had
      left no trace on dk when the check looked at it. */
  function Torn(s: State, r: Resolve, dk: DepKey): set<(EId, DepKey)> {
    set e | e in s.events && Hits(s.events[e].change, dk) && s.events[e].phase != Visible
            && s.events[e].seqNo <= r.checkedSeq && MovedAt(s.forward, s.floors, dk) < s.events[e].seqNo
          :: (e, dk)
  }

  /** The event will still visit dk's bucket for keys to mark. */
  predicate WillVisit(e: Event, dk: DepKey) {
    e.phase == Collecting ==> dk in e.pending
  }

  /** The torn events that had already walked past dk's bucket when its edge was placed. */
  function Missed(s: State, r: Resolve, dk: DepKey): set<(EId, DepKey)> {
    set e | e in s.events && (e, dk) in r.torn && !WillVisit(s.events[e], dk) :: (e, dk)
  }

  predicate ActEnabled(s: State, r: RId, act: Act) {
    if act.Begin? then r !in s.resolves else
    && r in s.resolves
    && var v := s.resolves[r];
       match act
       case Begin(_) => false
       case Declare(_) => v.phase == Running || v.phase == Stored
       case Read(_) => v.phase == Running
       case Reuse(dk, p) => v.phase == Running && p in s.resolves && dk in s.resolves[p].readAt
       case Record(_, _) => v.phase == Running || v.phase == Stored
       case Put(_) => v.phase == Running
       case CheckBegin => v.phase == Stored
       case Scan(dk) => v.phase == Checking && dk in v.toScan
       case CheckEnd => v.phase == Checking && v.toScan == {}
       case LateRecord(_, _) => v.phase == Checking || v.phase == Checked
       case Recheck(dk) => dk in v.recheck
  }

  predicate MoveEnabled(s: State, e: EId, move: Move) {
    if move.Appear? then e !in s.events && (move.absent ==> move.change.ObjectChange?) else
    && e in s.events
    && var v := s.events[e];
       match move
       case Appear(_, _) => false
       case Advance => v.phase == Visible
       case Floor => v.phase == Advanced
       case Stamp(dk) => v.phase == Stamping && dk in v.pending
       case Collect => v.phase == Stamping && v.pending == {}
       case Visit(dk) => v.phase == Collecting && dk in v.pending
       case Mark(k, evict) => v.phase == Collecting && v.pending == {} && k in v.marks && (evict ==> v.absent)
  }

  predicate Enabled(s: State, step: Step) {
    match step
    case Resolving(r, act) => ActEnabled(s, r, act)
    case Announcing(e, move) => MoveEnabled(s, e, move)
    case Leave(k) => k in s.resident
    case Strip(k) => k !in s.resident
  }

  /** The refresher's hook: a key that is not resident is dropped. */
  function Enqueue(s: State, k: L1Key): State {
    if k in s.resident then s.(enqueuedAt := s.enqueuedAt[k := s.now]) else s
  }

  /** A store removal strips the edges of the key in the same critical section. */
  function Remove(s: State, k: L1Key): State {
    if k in s.resident then
      s.(resident := s.resident - {k}, forward := StripKey(s.forward, k), leftAt := s.leftAt[k := s.now])
    else s
  }

  /** Re-records the listed edges of a key; the ones that are present are untouched. */
  function AddEdges(f: Forward, floors: Floors, dks: set<DepKey>, k: L1Key): Forward {
    map dk | dk in f.Keys + dks ::
      if dk in dks then Bucket(BucketFor(f, floors, dk).keys + {k}, BucketFor(f, floors, dk).stamp) else f[dk]
  }

  /** The resolve's own edges after an accepted write: those still present, and those the
      cap admits again. */
  function Reasserted(s: State, v: Resolve, admitted: set<DepKey>): set<DepKey> {
    set dk | dk in v.own && (HasEdge(s.forward, dk, v.key) || dk in admitted)
  }

  function Recorded(s: State, dk: DepKey, k: L1Key, admit: bool): Forward {
    if admit && !HasEdge(s.forward, dk, k) then AddEdge(s.forward, s.floors, dk, k) else s.forward
  }

  predicate RecheckFires(s: State, v: Resolve, dk: DepKey) {
    !v.remarked && MovedSince(s.forward, s.floors, dk, v.checkedSeq)
  }

  /** The effect of a resolve's act on the shared state. */
  function ActShared(s: State, r: RId, act: Act): (t: State)
    requires ActEnabled(s, r, act)
    ensures t.now == s.now && t.resolves == s.resolves && t.events == s.events
  {
    match act
    case Record(dk, admit) => s.(forward := Recorded(s, dk, s.resolves[r].key, admit))
    case Put(admitted) =>
      var v := s.resolves[r];
      s.(resident := s.resident + {v.key},
         forward := AddEdges(s.forward, s.floors, Reasserted(s, v, admitted), v.key))
    case CheckEnd => if s.resolves[r].moved then Enqueue(s, s.resolves[r].key) else s
    case LateRecord(dk, admit) => s.(forward := Recorded(s, dk, s.resolves[r].key, admit))
    case Recheck(dk) => if RecheckFires(s, s.resolves[r], dk) then Enqueue(s, s.resolves[r].key) else s
    case _ => s
  }

  /** The resolve after its act. */
  function ActLocal(s: State, r: RId, act: Act): Resolve
    requires ActEnabled(s, r, act)
  {
    if act.Begin? then
      Resolve(act.key, Running, s.seqNo, map[], map[], {}, {}, {}, {}, 0, 0, {}, {}, {}, {}, false, false)
    else
      var v := s.resolves[r];
      match act
      case Begin(_) => v
      case Declare(dk) => v.(sink := v.sink + {dk})
      case Read(dk) => if dk in v.readAt then v else v.(readAt := v.readAt[dk := s.now])
      case Reuse(dk, p) =>
        var w := s.resolves[p];
        var at := if dk in v.readAt then Min(v.readAt[dk], w.readAt[dk]) else w.readAt[dk];
        v.(readAt := v.readAt[dk := at], asOf := v.asOf[dk := Min(CheckFrom(v, dk), CheckFrom(w, dk))])
      case Record(dk, admit) =>
        var placed := admit || HasEdge(s.forward, dk, v.key);
        v.(sink := v.sink + {dk}, own := if placed then v.own + {dk} else v.own)
      case Put(admitted) => v.(phase := Stored, putAt := s.now, own := Reasserted(s, v, admitted))
      case CheckBegin => v.(phase := Checking, checkedSeq := s.seqNo, toScan := v.sink)
      case Scan(dk) =>
        v.(toScan := v.toScan - {dk}, scanned := v.scanned + {dk}, torn := v.torn + Torn(s, v, dk),
           moved := v.moved || MovedSince(s.forward, s.floors, dk, CheckFrom(v, dk)))
      case CheckEnd => v.(phase := Checked, remarked := v.remarked || v.moved)
      case LateRecord(dk, admit) =>
        var placed := admit || HasEdge(s.forward, dk, v.key);
        v.(sink := v.sink + {dk}, late := if placed then v.late + {dk} else v.late,
           missed := if placed && dk !in v.late then v.missed + Missed(s, v, dk) else v.missed,
           recheck := if v.remarked then v.recheck else v.recheck + {dk})
      case Recheck(dk) => v.(recheck := v.recheck - {dk}, remarked := v.remarked || RecheckFires(s, v, dk))
  }

  /** The effect of an event's move on the shared state. */
  function MoveShared(s: State, e: EId, move: Move): (t: State)
    requires MoveEnabled(s, e, move)
    ensures t.now == s.now && t.resolves == s.resolves && t.events == s.events
  {
    match move
    case Advance => s.(seqNo := s.seqNo + 1)
    case Floor => s.(floors := RaiseFloor(s.floors, s.events[e].change.gvr, s.events[e].seqNo))
    case Stamp(dk) => s.(forward := StampBucket(s.forward, dk, s.events[e].seqNo))
    case Mark(k, evict) => if evict then Remove(s, k) else Enqueue(s, k)
    case _ => s
  }

  /** The event after its move. */
  function MoveLocal(s: State, e: EId, move: Move): Event
    requires MoveEnabled(s, e, move)
  {
    if move.Appear? then Event(move.change, move.absent, s.now, 0, Visible, {}, {}) else
      var v := s.events[e];
      match move
      case Appear(_, _) => v
      case Advance => v.(phase := Advanced, seqNo := s.seqNo + 1)
      case Floor => v.(phase := Stamping, pending := Targets(s.forward, v.change))
      case Stamp(dk) => v.(pending := v.pending - {dk})
      case Collect => v.(phase := Collecting, pending := Targets(s.forward, v.change))
      case Visit(dk) =>
        v.(pending := v.pending - {dk}, marks := v.marks + if dk in s.forward then s.forward[dk].keys else {})
      case Mark(k, _) => v.(marks := v.marks - {k})
  }

  /** One step of the system; the clock ticks on every step. */
  function Next(s: State, step: Step): State
    requires Enabled(s, step)
  {
    var t := match step
      case Resolving(r, act) => ActShared(s, r, act).(resolves := s.resolves[r := ActLocal(s, r, act)])
      case Announcing(e, move) => MoveShared(s, e, move).(events := s.events[e := MoveLocal(s, e, move)])
      case Leave(k) => Remove(s, k)
      case Strip(k) => s.(forward := StripKey(s.forward, k));
    t.(now := s.now + 1)
  }

  predicate Moves(s: State, step: Step, s': State) {
    Enabled(s, step) && s' == Next(s, step)
  }

  datatype Outcome = Reached(state: State) | Blocked

  /** Runs a schedule from a state; a schedule that asks for a step that is not enabled is
      blocked. */
  function Exec(s: State, steps: seq<Step>): Outcome
    decreases |steps|
  {
    if steps == [] then Reached(s)
    else if Enabled(s, steps[0]) then Exec(Next(s, steps[0]), steps[1..])
    else Blocked
  }
}
