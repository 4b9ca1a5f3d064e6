/** The windowed maximum: two estimators staggered by half a window, each reset every window
    and fed every sample; a read reports the older one. */
module WindowedMaximum {

  /** A sample and when it was observed, in time since the estimator was built. */
  datatype Sample = Sample(t: nat, v: real)

  datatype Half = Half(epoch: int, max: real, n: nat)

  /** No window has this epoch: a half that was never rotated holds nothing. */
  const NO_EPOCH: int := -0x8000_0000_0000_0000

  /** The first half starts on the window, the second half a window ahead. */
  function Offset(w: nat, i: nat): nat { if i == 0 then 0 else w / 2 }

  function Epoch(w: nat, i: nat, t: nat): nat
    requires w > 0
  {
    (t + Offset(w, i)) / w
  }

  function Start(w: nat, i: nat, epoch: int): int { epoch * w - Offset(w, i) }

  function Age(w: nat, i: nat, t: nat): nat
    requires w > 0
  {
    (t + Offset(w, i)) % w
  }

  lemma {:induction false} TimesMonotone(a: nat, b: nat, w: nat)
    requires a <= b
    ensures a * w <= b * w
    decreases b
  {
    if a < b {
      TimesMonotone(a, b - 1, w);
      assert b * w == (b - 1) * w + w;
    }
  }

  /** Quotient and remainder are what they should be. */
  lemma DivisionUnique(x: nat, q: nat, r: nat, w: nat)
    requires r < w && x == q * w + r
    ensures x / w == q && x % w == r
  {
    var p := x / w;
    assert x == p * w + x % w;
    assert (p + 1) * w == p * w + w && (q + 1) * w == q * w + w;
    if p < q {
      TimesMonotone(p + 1, q, w);
    } else if p > q {
      TimesMonotone(q + 1, p, w);
    }
  }

  lemma StartAge(w: nat, i: nat, t: nat)
    requires w > 0
    ensures t - Start(w, i, Epoch(w, i, t)) == Age(w, i, t) < w
  {
    var x := t + Offset(w, i);
    assert x == x / w * w + x % w;
  }

  lemma EpochMonotone(w: nat, i: nat, s: nat, t: nat)
    requires w > 0 && s <= t
    ensures Epoch(w, i, s) <= Epoch(w, i, t)
    ensures Epoch(w, i, s) == Epoch(w, i, t) <==> s >= Start(w, i, Epoch(w, i, t))
  {
    StartAge(w, i, s);
    StartAge(w, i, t);
    EpochOrder(s, t, Offset(w, i), Epoch(w, i, s), Epoch(w, i, t), w);
  }

  lemma EpochOrder(s: nat, t: nat, off: nat, a: nat, b: nat, w: nat)
    requires s <= t && 0 <= s - (a * w - off) < w && 0 <= t - (b * w - off) < w
    ensures a <= b
    ensures a == b <==> s >= b * w - off
  {
    assert (a + 1) * w == a * w + w && (b + 1) * w == b * w + w;
    if a > b {
      TimesMonotone(b + 1, a, w);
    } else if a < b {
      TimesMonotone(a + 1, b, w);
    }
  }

  /** The second half is behind or ahead of the first by half a window. */
  lemma Stagger(w: nat, t: nat)
    requires w > 0
    ensures var h := w / 2;
            Age(w, 1, t) == if Age(w, 0, t) + h < w then Age(w, 0, t) + h else Age(w, 0, t) + h - w
  {
    var h, q, r := w / 2, t / w, t % w;
    assert t == q * w + r;
    if r + h < w {
      DivisionUnique(t + h, q, r + h, w);
    } else {
      assert (q + 1) * w == q * w + w;
      DivisionUnique(t + h, q + 1, r + h - w, w);
    }
  }

  /** The half a read reports. */
  function Older(w: nat, t: nat): nat
    requires w > 0
  {
    if Start(w, 1, Epoch(w, 1, t)) < Start(w, 0, Epoch(w, 0, t)) then 1 else 0
  }

  /** Whenever it is read, the reported half began at least half a window and less than a
      window ago. */
  lemma Coverage(w: nat, t: nat)
    requires w > 0
    ensures w / 2 <= t - Start(w, Older(w, t), Epoch(w, Older(w, t), t)) < w
  {
    Stagger(w, t);
    StartAge(w, 0, t);
    StartAge(w, 1, t);
  }

  /** The samples of a log observed at or after a time. */
  function Since(log: seq<Sample>, start: int): seq<Sample> {
    if log == [] then []
    else
      var rest := Since(log[..|log| - 1], start);
      if log[|log| - 1].t >= start then rest + [log[|log| - 1]] else rest
  }

  lemma {:induction false} SinceMember(log: seq<Sample>, start: int, s: Sample)
    ensures s in Since(log, start) <==> s in log && s.t >= start
    decreases |log|
  {
    if log != [] {
      var n := |log| - 1;
      SinceMember(log[..n], start, s);
      assert log == log[..n] + [log[n]];
    }
  }

  /** The maximum of a window's samples, 0 when there are none. */
  ghost predicate IsMax(ss: seq<Sample>, m: real) {
    && (ss == [] ==> m == 0.0)
    && (ss != [] ==> (exists s | s in ss :: s.v == m) && forall s | s in ss :: s.v <= m)
  }

  /** A half holds exactly the samples of its epoch. */
  ghost predicate Holds(w: nat, i: nat, h: Half, log: seq<Sample>, clock: nat)
    requires w > 0
  {
    && (h.epoch == NO_EPOCH ==> h.n == 0 && log == [])
    && (h.epoch != NO_EPOCH ==> 0 <= h.epoch <= Epoch(w, i, clock))
    && (forall s | s in log :: s.t <= clock && Epoch(w, i, s.t) <= h.epoch)
    && h.n == |Since(log, Start(w, i, h.epoch))|
    && (h.n > 0 ==> IsMax(Since(log, Start(w, i, h.epoch)), h.max))
  }

  /** Rotation: a half whose epoch has passed starts over. */
  function Rotated(w: nat, i: nat, h: Half, now: nat): Half
    requires w > 0
  {
    var e := Epoch(w, i, now);
    if h.epoch != e then Half(e, 0.0, 0) else h
  }

  function Fed(h: Half, v: real): Half {
    Half(h.epoch, if h.n == 0 || v > h.max then v else h.max, h.n + 1)
  }

  lemma {:induction false} SinceNone(log: seq<Sample>, start: int)
    requires forall s | s in log :: s.t < start
    ensures Since(log, start) == []
    decreases |log|
  {
    if log != [] { SinceNone(log[..|log| - 1], start); }
  }

  lemma RotatedHolds(w: nat, i: nat, h: Half, log: seq<Sample>, clock: nat, now: nat)
    requires w > 0 && clock <= now && Holds(w, i, h, log, clock)
    ensures Holds(w, i, Rotated(w, i, h, now), log, now)
  {
    var e := Epoch(w, i, now);
    EpochMonotone(w, i, clock, now);
    if h.epoch != e {
      forall s | s in log ensures s.t < Start(w, i, e) {
        EpochMonotone(w, i, s.t, now);
      }
      SinceNone(log, Start(w, i, e));
    }
  }

  lemma FedHolds(w: nat, i: nat, h: Half, log: seq<Sample>, now: nat, v: real)
    requires w > 0 && Holds(w, i, h, log, now) && h.epoch == Epoch(w, i, now)
    ensures Holds(w, i, Fed(h, v), log + [Sample(now, v)], now)
  {
    var s := Sample(now, v);
    var start := Start(w, i, h.epoch);
    StartAge(w, i, now);
    assert (log + [s])[..|log + [s]| - 1] == log;
    assert Since(log + [s], start) == Since(log, start) + [s];
    assert s in Since(log + [s], start);
    if h.n > 0 {
      var m :| m in Since(log, start) && m.v == h.max;
      assert m in Since(log + [s], start);
    }
  }

  class WindowedMax {
    const w: nat
    var halves: seq<Half>
    ghost var log: seq<Sample>
    ghost var clock: nat

    ghost predicate Valid()
      reads this
    {
      && w > 0 && |halves| == 2
      && Holds(w, 0, halves[0], log, clock) && Holds(w, 1, halves[1], log, clock)
    }

    constructor (w: int)
      ensures Valid() && log == [] && clock == 0
      ensures this.w == if w <= 0 then 60_000_000_000 else w
    {
      this.w := if w <= 0 then 60_000_000_000 else w;
      halves := [Half(NO_EPOCH, 0.0, 0), Half(NO_EPOCH, 0.0, 0)];
      log, clock := [], 0;
    }

    /** Resets each half whose epoch has passed. */
    method RotateHalves(now: nat)
      requires w > 0 && |halves| == 2
      modifies `halves
      ensures halves == [Rotated(w, 0, old(halves[0]), now), Rotated(w, 1, old(halves[1]), now)]
    {
      for i := 0 to 2
        invariant |halves| == 2
        invariant forall j | 0 <= j < i :: halves[j] == Rotated(w, j, old(halves)[j], now)
        invariant forall j | i <= j < 2 :: halves[j] == old(halves)[j]
      {
        var e := Epoch(w, i, now);
        if halves[i].epoch != e {
          halves := halves[i := Half(e, 0.0, 0)];
        }
      }
    }

    method Rotate(now: nat)
      requires Valid() && clock <= now
      modifies `halves, `clock
      ensures Valid() && clock == now && log == old(log)
      ensures halves[0].epoch == Epoch(w, 0, now) && halves[1].epoch == Epoch(w, 1, now)
    {
      RotatedHolds(w, 0, halves[0], log, clock, now);
      RotatedHolds(w, 1, halves[1], log, clock, now);
      RotateHalves(now);
      clock := now;
    }

    method Observe(now: nat, v: real)
      requires Valid() && clock <= now
      modifies this
      ensures Valid() && clock == now && log == old(log) + [Sample(now, v)]
    {
      Rotate(now);
      FedHolds(w, 0, halves[0], log, now, v);
      FedHolds(w, 1, halves[1], log, now, v);
      ghost var rotated := halves;
      for i := 0 to 2
        invariant |halves| == 2
        invariant forall j | 0 <= j < i :: halves[j] == Fed(rotated[j], v)
        invariant forall j | i <= j < 2 :: halves[j] == rotated[j]
        invariant log == old(log) && clock == now
      {
        var h := halves[i];
        if h.n == 0 || v > h.max {
          h := h.(max := v);
        }
        halves := halves[i := h.(n := h.n + 1)];
      }
      log := log + [Sample(now, v)];
    }

    /** The reported maximum is exact over the samples since the reported half began, and that
        half began at least half a window and less than a window before the read. */
    method Read(now: nat) returns (max: real, ghost start: int)
      requires Valid() && clock <= now
      modifies `halves, `clock
      ensures Valid() && clock == now && log == old(log)
      ensures w / 2 <= now - start < w
      ensures now - start == if now % w >= (now + w / 2) % w then now % w else (now + w / 2) % w
      ensures (forall s | s in log :: s.t < start) ==> max == 0.0
      ensures (exists s | s in log :: s.t >= start) ==>
                (exists s | s in log :: s.t >= start && s.v == max) && forall s | s in log && s.t >= start :: s.v <= max
    {
      Rotate(now);
      var start0 := halves[0].epoch * w;
      var start1 := halves[1].epoch * w - w / 2;
      var older := if start1 < start0 then 1 else 0;
      start := Start(w, older, halves[older].epoch);
      Coverage(w, now);
      StartAge(w, 0, now);
      StartAge(w, 1, now);
      var h := halves[older];
      max := if h.n == 0 then 0.0 else h.max;
      assert IsMax(Since(log, start), max);
      forall s ensures s in Since(log, start) <==> s in log && s.t >= start { SinceMember(log, start, s); }
    }
  }
}
