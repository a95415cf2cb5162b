/** The tween engine: `MoveTo` drives an entity's `Translation`, `ScaleTo` its
    `Scale`. Each tick adds the frame's time to the elapsed time, writes the
    eased interpolation between the start and end values, and on passing the
    duration either wraps around (looping) or snaps to the end value and
    removes the tween. Removal is the `present` flag going false; a removed
    tween is no longer ticked. */
module Animation {
  import opened Vectors
  import opened Easings

  /** `(elapsed / duration).min(1.0)`: the progress fed to the easing curve.
      Never above 1, and in [0, 1] for a non-negative elapsed time. */
  function Progress(elapsed: real, duration: real): (p: real)
    requires 0.0 < duration
    ensures p <= 1.0
    ensures 0.0 <= elapsed ==> 0.0 <= p
    ensures p == 1.0 <==> duration <= elapsed
    ensures elapsed <= duration ==> p * duration == elapsed
  {
    var q := elapsed / duration;
    if q < 1.0 then q else 1.0
  }

  /** Rounding toward zero, as a float-to-integer cast does. */
  function Trunc(q: real): (n: int)
    ensures 0.0 <= q ==> n as real <= q < n as real + 1.0
    ensures q < 0.0 ==> n as real - 1.0 < q <= n as real
  {
    if 0.0 <= q then q.Floor else -((-q).Floor)
  }

  /** Multiplying back the truncated quotient of non-negative operands
      leaves a remainder in [0, duration). */
  lemma RemainderBounds(elapsed: real, duration: real, n: int)
    requires 0.0 < duration && 0.0 <= elapsed && n == (elapsed / duration).Floor
    ensures 0.0 <= elapsed - duration * n as real < duration
    ensures elapsed < duration ==> n == 0
  {
    var q := elapsed / duration;
    assert duration * q == elapsed;
    var below, above := q - n as real, n as real + 1.0 - q;
    MulNonNegative(duration, below);
    MulNonNegative(duration, above);
    assert duration * below == elapsed - duration * n as real;
    assert duration * above == duration * n as real + duration - elapsed;
    assert duration * above != 0.0;
    if elapsed < duration {
      assert duration * (1.0 - q) == duration - elapsed;
      PositiveFactor(duration, 1.0 - q);
    }
  }

  /** Taking `n` durations off leaves a difference of exactly `n` durations. */
  lemma WholeMultiple(elapsed: real, duration: real, n: int)
    requires 0.0 < duration
    ensures var k := (elapsed - (elapsed - duration * n as real)) / duration;
      k == n as real && k.Floor == n
  {
    assert elapsed - (elapsed - duration * n as real) == duration * n as real;
    assert (duration * n as real) / duration == n as real;
  }

  lemma PositiveFactor(a: real, b: real)
    requires 0.0 < a && 0.0 < a * b
    ensures 0.0 < b
  {
  }

  lemma MulNonNegative(a: real, b: real)
    requires 0.0 <= a && 0.0 <= b
    ensures 0.0 <= a * b
  {
  }

  /** `elapsed %= duration` on floats: the remainder of a division rounded
      toward zero. For a non-negative elapsed time it lies in [0, duration)
      and leaves a time already below the duration alone. */
  function FRem(elapsed: real, duration: real): (r: real)
    requires 0.0 < duration
    ensures 0.0 <= elapsed ==> 0.0 <= r < duration && r <= elapsed
    ensures 0.0 <= elapsed < duration ==> r == elapsed
    // what is taken away is a whole number of durations
    ensures 0.0 <= elapsed ==> var k := (elapsed - r) / duration; k == k.Floor as real
  {
    var n := Trunc(elapsed / duration);
    if 0.0 <= elapsed then
      RemainderBounds(elapsed, duration, n);
      WholeMultiple(elapsed, duration, n);
      elapsed - duration * n as real
    else
      elapsed - duration * n as real
  }

  // MoveTo

  /** The fields of a `MoveTo` component, and whether it is still attached. */
  datatype MoveToState = MoveToState(
    elapsedTime: real,
    duration: real,
    loopCount: nat,
    startPosition: Vec3,
    endPosition: Vec3,
    ease: Easing,
    bounce: bool,
    present: bool)

  /** The tick passes the duration. */
  predicate MoveCompletes(s: MoveToState, delta: real) {
    s.elapsedTime + delta > s.duration
  }

  /** The component after one tick of `update_move_to`. */
  function MoveNext(s: MoveToState, delta: real): (r: MoveToState)
    requires 0.0 < s.duration
    ensures r.duration == s.duration && r.ease == s.ease && r.bounce == s.bounce
    ensures r.loopCount <= s.loopCount
    // a tick within the duration only advances the clock
    ensures !MoveCompletes(s, delta) ==> r == s.(elapsedTime := s.elapsedTime + delta)
    // a completion with loops left counts one down and wraps the clock
    ensures MoveCompletes(s, delta) && s.loopCount > 0 ==>
      r.loopCount == s.loopCount - 1 && r.present == s.present &&
      r.elapsedTime == FRem(s.elapsedTime + delta, s.duration) &&
      0.0 <= r.elapsedTime < s.duration
    // the last completion removes the tween
    ensures MoveCompletes(s, delta) && s.loopCount == 0 ==>
      r.loopCount == 0 && !r.present
    // every completion of a bouncing tween turns it around
    ensures MoveCompletes(s, delta) ==>
      (r.startPosition, r.endPosition) ==
        if s.bounce then (s.endPosition, s.startPosition) else (s.startPosition, s.endPosition)
  {
    var e := s.elapsedTime + delta;
    if e > s.duration then
      var t := if s.loopCount > 0
        then s.(loopCount := s.loopCount - 1, elapsedTime := FRem(e, s.duration))
        else s.(elapsedTime := e, present := false);
      if s.bounce then t.(startPosition := s.endPosition, endPosition := s.startPosition) else t
    else
      s.(elapsedTime := e)
  }

  /** The `Translation` the tick writes. */
  function MoveOutput(s: MoveToState, delta: real, sqrt: real -> real): (t: Vec3)
    requires 0.0 < s.duration
    // the last completion snaps to the end position (before any swap)
    ensures MoveCompletes(s, delta) && s.loopCount == 0 ==> t == s.endPosition
    // a completion with loops left writes the curve's value at progress 1
    ensures MoveCompletes(s, delta) && s.loopCount > 0 ==>
      t == Lerp(s.startPosition, s.endPosition, EaseFn(s.ease, sqrt)(1.0))
    // with a curve anchored at 1, every completion lands on the end position
    ensures MoveCompletes(s, delta) && EaseFn(s.ease, sqrt)(1.0) == 1.0 ==> t == s.endPosition
    // with a curve anchored at 0, a clock still at 0 leaves it on the start
    ensures s.elapsedTime + delta == 0.0 && EaseFn(s.ease, sqrt)(0.0) == 0.0 ==> t == s.startPosition
    // otherwise it is the eased interpolation at the capped progress
    ensures !MoveCompletes(s, delta) ==>
      t == Lerp(s.startPosition, s.endPosition,
                EaseFn(s.ease, sqrt)((s.elapsedTime + delta) / s.duration))
  {
    var e := s.elapsedTime + delta;
    var done := Progress(e, s.duration);
    var ease := EaseFn(s.ease, sqrt);
    if e > s.duration && s.loopCount == 0 then s.endPosition
    else Lerp(s.startPosition, s.endPosition, ease(done))
  }

  /** The component after a run of ticks; once removed it is not ticked. */
  function MoveRun(s: MoveToState, deltas: seq<real>): (r: MoveToState)
    requires 0.0 < s.duration
    ensures r.duration == s.duration && r.bounce == s.bounce && r.ease == s.ease
    ensures r.loopCount <= s.loopCount
    ensures !s.present ==> r == s
    decreases |deltas|
  {
    if deltas == [] || !s.present then s
    else MoveRun(MoveNext(s, deltas[0]), deltas[1..])
  }

  /** How many ticks of a run pass the duration while the tween is present. */
  function MoveCompletions(s: MoveToState, deltas: seq<real>): nat
    requires 0.0 < s.duration
    decreases |deltas|
  {
    if deltas == [] || !s.present then 0
    else (if MoveCompletes(s, deltas[0]) then 1 else 0)
         + MoveCompletions(MoveNext(s, deltas[0]), deltas[1..])
  }

  /** A tween that starts with `loopCount` k stays while it has completed at
      most k times, counting down once per completion, and is removed by
      exactly its (k+1)-th completion. */
  lemma {:induction false} MoveRunCountsDown(s: MoveToState, deltas: seq<real>)
    requires 0.0 < s.duration && s.present
    ensures MoveCompletions(s, deltas) <= s.loopCount + 1
    ensures MoveRun(s, deltas).present <==> MoveCompletions(s, deltas) <= s.loopCount
    ensures MoveRun(s, deltas).present ==>
      MoveRun(s, deltas).loopCount == s.loopCount - MoveCompletions(s, deltas)
    decreases |deltas|
  {
    if deltas != [] {
      var n := MoveNext(s, deltas[0]);
      if n.present {
        MoveRunCountsDown(n, deltas[1..]);
      } else {
        assert MoveCompletions(n, deltas[1..]) == 0;
      }
    }
  }

  /** A bouncing tween has its ends swapped after an odd number of
      completions, the removing one included; a tween that does not bounce
      keeps its ends. */
  lemma {:induction false} MoveRunBounces(s: MoveToState, deltas: seq<real>)
    requires 0.0 < s.duration
    ensures var swapped := s.bounce && MoveCompletions(s, deltas) % 2 == 1;
      MoveRun(s, deltas).startPosition == (if swapped then s.endPosition else s.startPosition) &&
      MoveRun(s, deltas).endPosition == (if swapped then s.startPosition else s.endPosition)
    decreases |deltas|
  {
    if deltas != [] && s.present {
      var n, rest := MoveNext(s, deltas[0]), deltas[1..];
      MoveRunBounces(n, rest);
      assert MoveRun(s, deltas) == MoveRun(n, rest);
      var c := MoveCompletions(n, rest);
      if MoveCompletes(s, deltas[0]) {
        assert MoveCompletions(s, deltas) == c + 1;
      } else {
        assert MoveCompletions(s, deltas) == c;
        assert n.startPosition == s.startPosition && n.endPosition == s.endPosition;
      }
    }
  }

  /** A present tween's clock stays within [0, duration]. */
  ghost predicate MoveInPhase(s: MoveToState) {
    s.present ==> 0.0 <= s.elapsedTime <= s.duration
  }

  /** Ticks by non-negative frame times keep the clock in phase, so every
      progress handed to the curve lies in [0, 1]. */
  lemma {:induction false} MoveRunInPhase(s: MoveToState, deltas: seq<real>)
    requires 0.0 < s.duration && MoveInPhase(s)
    requires forall i :: 0 <= i < |deltas| ==> 0.0 <= deltas[i]
    ensures MoveInPhase(MoveRun(s, deltas))
    decreases |deltas|
  {
    if deltas != [] && s.present {
      var n := MoveNext(s, deltas[0]);
      assert MoveInPhase(n);
      MoveRunInPhase(n, deltas[1..]);
    }
  }

  // ScaleTo

  /** The fields of a `ScaleTo` component, and whether it is still attached. */
  datatype ScaleToState = ScaleToState(
    elapsedTime: real,
    duration: real,
    looping: bool,
    startScale: real,
    endScale: real,
    ease: Easing,
    present: bool)

  predicate ScaleCompletes(s: ScaleToState, delta: real) {
    s.elapsedTime + delta > s.duration
  }

  /** The component after one tick of `update_scale_to`. */
  function ScaleNext(s: ScaleToState, delta: real): (r: ScaleToState)
    requires 0.0 < s.duration
    // the ends, the duration, the curve and the mode never change
    ensures r.duration == s.duration && r.looping == s.looping && r.ease == s.ease
    ensures r.startScale == s.startScale && r.endScale == s.endScale
    ensures !ScaleCompletes(s, delta) ==> r == s.(elapsedTime := s.elapsedTime + delta)
    // a looping tween wraps its clock and stays
    ensures ScaleCompletes(s, delta) && s.looping ==>
      r.present == s.present &&
      r.elapsedTime == FRem(s.elapsedTime + delta, s.duration) &&
      0.0 <= r.elapsedTime < s.duration
    // a one-shot tween is removed
    ensures ScaleCompletes(s, delta) && !s.looping ==> !r.present
  {
    var e := s.elapsedTime + delta;
    if e > s.duration then
      if s.looping then s.(elapsedTime := FRem(e, s.duration))
      else s.(elapsedTime := e, present := false)
    else
      s.(elapsedTime := e)
  }

  /** The `Scale` the tick writes. */
  function ScaleOutput(s: ScaleToState, delta: real, sqrt: real -> real): (v: real)
    requires 0.0 < s.duration
    ensures ScaleCompletes(s, delta) && !s.looping ==> v == s.endScale
    ensures ScaleCompletes(s, delta) && s.looping ==>
      v == LerpScalar(s.startScale, s.endScale, EaseFn(s.ease, sqrt)(1.0))
    ensures ScaleCompletes(s, delta) && EaseFn(s.ease, sqrt)(1.0) == 1.0 ==> v == s.endScale
    ensures s.elapsedTime + delta == 0.0 && EaseFn(s.ease, sqrt)(0.0) == 0.0 ==> v == s.startScale
    ensures !ScaleCompletes(s, delta) ==>
      v == LerpScalar(s.startScale, s.endScale,
                      EaseFn(s.ease, sqrt)((s.elapsedTime + delta) / s.duration))
  {
    var e := s.elapsedTime + delta;
    var done := Progress(e, s.duration);
    var ease := EaseFn(s.ease, sqrt);
    if e > s.duration && !s.looping then s.endScale
    else LerpScalar(s.startScale, s.endScale, ease(done))
  }

  function ScaleRun(s: ScaleToState, deltas: seq<real>): (r: ScaleToState)
    requires 0.0 < s.duration
    ensures r.duration == s.duration && r.looping == s.looping && r.ease == s.ease
    ensures r.startScale == s.startScale && r.endScale == s.endScale
    ensures !s.present ==> r == s
    decreases |deltas|
  {
    if deltas == [] || !s.present then s
    else ScaleRun(ScaleNext(s, deltas[0]), deltas[1..])
  }

  function ScaleCompletions(s: ScaleToState, deltas: seq<real>): nat
    requires 0.0 < s.duration
    decreases |deltas|
  {
    if deltas == [] || !s.present then 0
    else (if ScaleCompletes(s, deltas[0]) then 1 else 0)
         + ScaleCompletions(ScaleNext(s, deltas[0]), deltas[1..])
  }

  /** A looping `ScaleTo` is never removed; a one-shot one is removed by its
      first completion and completes at most once. */
  lemma {:induction false} ScaleRunPresence(s: ScaleToState, deltas: seq<real>)
    requires 0.0 < s.duration && s.present
    ensures s.looping ==> ScaleRun(s, deltas).present
    ensures !s.looping ==>
      ScaleCompletions(s, deltas) <= 1 &&
      (ScaleRun(s, deltas).present <==> ScaleCompletions(s, deltas) == 0)
    decreases |deltas|
  {
    if deltas != [] {
      var n := ScaleNext(s, deltas[0]);
      if n.present {
        ScaleRunPresence(n, deltas[1..]);
      } else {
        assert ScaleCompletions(n, deltas[1..]) == 0;
      }
    }
  }

  /** A present tween's clock stays within [0, duration]. */
  ghost predicate ScaleInPhase(s: ScaleToState) {
    s.present ==> 0.0 <= s.elapsedTime <= s.duration
  }

  /** Ticks by non-negative frame times keep the clock in phase, so every
      progress handed to the curve lies in [0, 1]. */
  lemma {:induction false} ScaleRunInPhase(s: ScaleToState, deltas: seq<real>)
    requires 0.0 < s.duration && ScaleInPhase(s)
    requires forall i :: 0 <= i < |deltas| ==> 0.0 <= deltas[i]
    ensures ScaleInPhase(ScaleRun(s, deltas))
    decreases |deltas|
  {
    if deltas != [] && s.present {
      var n := ScaleNext(s, deltas[0]);
      assert ScaleInPhase(n);
      ScaleRunInPhase(n, deltas[1..]);
    }
  }

  // The components as objects the systems update in place

  /** An entity's `Translation` component. */
  class Translation {
    var value: Vec3
    constructor (v: Vec3)
      ensures value == v
    {
      value := v;
    }
  }

  /** An entity's `Scale` component. */
  class Scale {
    var value: real
    constructor (v: real)
      ensures value == v
    {
      value := v;
    }
  }

  class MoveTo {
    var elapsedTime: real
    var duration: real
    var loopCount: nat
    var startPosition: Vec3
    var endPosition: Vec3
    var ease: Easing
    var bounce: bool
    var present: bool

    ghost predicate Valid()
      reads this
    {
      0.0 < duration
    }

    function State(): MoveToState
      reads this
    {
      MoveToState(elapsedTime, duration, loopCount, startPosition, endPosition, ease, bounce, present)
    }

    constructor (duration: real, loopCount: nat, startPosition: Vec3, endPosition: Vec3,
                 ease: Easing, bounce: bool)
      requires 0.0 < duration
      ensures Valid()
      ensures State() == MoveToState(0.0, duration, loopCount, startPosition, endPosition,
                                     ease, bounce, true)
    {
      this.elapsedTime := 0.0;
      this.duration := duration;
      this.loopCount := loopCount;
      this.startPosition := startPosition;
      this.endPosition := endPosition;
      this.ease := ease;
      this.bounce := bounce;
      this.present := true;
    }

    /** One pass of `update_move_to` over this tween and its entity's
        translation. */
    method Tick(delta: real, sqrt: real -> real, translation: Translation)
      requires Valid() && present
      modifies this, translation
      ensures Valid()
      ensures State() == MoveNext(old(State()), delta)
      ensures translation.value == MoveOutput(old(State()), delta, sqrt)
    {
      elapsedTime := elapsedTime + delta;
      var done := Progress(elapsedTime, duration);
      var f := EaseFn(ease, sqrt);
      translation.value := Lerp(startPosition, endPosition, f(done));
      if elapsedTime > duration {
        if loopCount > 0 {
          loopCount := loopCount - 1;
          elapsedTime := FRem(elapsedTime, duration);
        } else {
          translation.value := endPosition;
          present := false;
        }
        if bounce {
          var end := endPosition;
          endPosition := startPosition;
          startPosition := end;
        }
      }
    }
  }

  class ScaleTo {
    var elapsedTime: real
    var duration: real
    var looping: bool
    var startScale: real
    var endScale: real
    var ease: Easing
    var present: bool

    ghost predicate Valid()
      reads this
    {
      0.0 < duration
    }

    function State(): ScaleToState
      reads this
    {
      ScaleToState(elapsedTime, duration, looping, startScale, endScale, ease, present)
    }

    constructor (duration: real, looping: bool, startScale: real, endScale: real, ease: Easing)
      requires 0.0 < duration
      ensures Valid()
      ensures State() == ScaleToState(0.0, duration, looping, startScale, endScale, ease, true)
    {
      this.elapsedTime := 0.0;
      this.duration := duration;
      this.looping := looping;
      this.startScale := startScale;
      this.endScale := endScale;
      this.ease := ease;
      this.present := true;
    }

    /** One pass of `update_scale_to` over this tween and its entity's scale. */
    method Tick(delta: real, sqrt: real -> real, scale: Scale)
      requires Valid() && present
      modifies this, scale
      ensures Valid()
      ensures State() == ScaleNext(old(State()), delta)
      ensures scale.value == ScaleOutput(old(State()), delta, sqrt)
    {
      elapsedTime := elapsedTime + delta;
      var done := Progress(elapsedTime, duration);
      var f := EaseFn(ease, sqrt);
      scale.value := LerpScalar(startScale, endScale, f(done));
      if elapsedTime > duration {
        if looping {
          elapsedTime := FRem(elapsedTime, duration);
        } else {
          scale.value := endScale;
          present := false;
        }
      }
    }
  }
}
