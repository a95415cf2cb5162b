# Tween engine of bevy_squares, modelled in Dafny

This project models the animation module of a 2048-style game built on the
Bevy engine (`src/animation.rs`). The module has two parts:

- a tween engine with two components. `MoveTo` drives an entity's
  `Translation`. `ScaleTo` drives its `Scale`.
- a small library of easing curves selected by the `Easing` enum.

On every frame, each tween does the following:

- adds the frame time to its elapsed time;
- computes the progress `min(elapsed / duration, 1)`;
- writes `start + (end - start) * ease(progress)` into the entity's component.

Once the elapsed time passes the duration, the tween completes:

- A `MoveTo` with loops left counts one down and wraps its clock with the
  float remainder. With no loops left, it snaps to its end position and is
  removed. If `bounce` is set, every completion also swaps its start and end.
- A looping `ScaleTo` wraps its clock. A one-shot `ScaleTo` snaps to its end
  scale and is removed.

Files:

- `vectors.dfy` (module `Vectors`): the `Vec3` payload of a `Translation` and
  linear interpolation.
- `easings.dfy` (module `Easings`): the `Easing` variants and their default,
  the curves, and `EaseFn`, which models `get_ease_fn`.
- `animation.dfy` (module `Animation`): one tick of each system as a pure step
  function on a snapshot of the component (`MoveNext`/`MoveOutput`,
  `ScaleNext`/`ScaleOutput`); runs of ticks (`MoveRun`, `ScaleRun`) with the
  number of completions they contain; and the components as classes.
  `MoveTo.Tick` and `ScaleTo.Tick` update the classes' fields and the
  entity's `Translation`/`Scale` object in place. Each `Tick` is proved equal
  to the step functions.

Modelling choices:

- `f32` values are `real`.
- The float remainder `%=` is the remainder of a quotient rounded toward
  zero (`FRem`).
- Removing a component is the `present` flag becoming false. A removed tween
  is not ticked again.
- Floating-point square root is a parameter `sqrt: real -> real`. Properties
  that need a true root assume one through `IsSqrtAt`, at the points they use.
- `ease_out_back` keeps the constant `C1 = 1.70518` as written, with
  `C3 = C1 + 1`.
- The source has no delayed "numeric chase" tween and no grid/merge engine,
  so the model has neither.

## Model

| member | source | states |
|---|---|---|
| `Easings.DefaultEasing` | src/animation.rs:112-116 | The default easing is `EaseOutBack`. |
| `Easings.EaseOutBackCurve` | src/animation.rs:148-153 | The back curve maps 0 to 0 (because `C3 = C1 + 1`) and 1 to 1. |
| `Easings.EaseOutBounceCurve` | src/animation.rs:118-134 | The bounce curve maps 0 to 0, and maps 1 to 1 through its last segment. |
| `Easings.EaseOutBounceInUnit` | src/animation.rs:118-134 | On [0, 1] the bounce curve stays within [0, 1]. |
| `Easings.EaseInCircCurve` | src/animation.rs:136-138 | `1 - sqrt(1 - x^2)` maps 0 to 0 and 1 to 1 when the root is exact at 1 and 0. |
| `Easings.EaseInOutCircAsWritten` | src/animation.rs:140-146 | `ease_in_out_circ` exactly as written maps 0 to 0 and 0.5 to 0.5 when the root is exact at 1. It maps 1 to 1 when the root is exact at 0. |
| `Easings.EaseInOutCircAsWrittenUpperHalfLinear` | src/animation.rs:140-146 | As written, for x in [0.5, 1] the in-out circular curve returns x itself, given a true root of `(2 - 2x)^2`. |
| `Easings.EaseInOutCircAsWrittenNotSymmetric` | src/animation.rs:140-146 | As written, the curve's values at 0.25 and 0.75 do not add up to 1, so it is not point-symmetric as an in-out curve is. |
| `Easings.EaseInOutCircCurve` | src/animation.rs:140-146 | The corrected in-out curve maps 0 to 0, 0.5 to 0.5 and 1 to 1 when the root is exact at 0 and 1. |
| `Easings.EaseInOutCircSymmetric` | src/animation.rs:140-146 | The corrected curve satisfies f(1 - x) = 1 - f(x) for every x below 0.5, whatever the root returns. |
| `Easings.EaseFn` | src/animation.rs:101-110 | The curve each variant selects, with `EaseInOutCirc` selecting the curve as written, is anchored at 0 and 1. For the back and bounce curves this holds unconditionally; for the circular ones it holds when the root is exact at 0 and 1. |
| `Easings.EaseFnDistinct` | src/animation.rs:101-110 | Distinct variants select distinct curves: given a square root that is exact at 0, 1 and 0.75, any two differ at progress 0.5. |
| `Vectors.Lerp` | src/animation.rs:72-73 | The interpolated translation is the start at eased progress 0 and the end at 1; equal ends give that point. |
| `Vectors.LerpScalar` | src/animation.rs:35-36 | The interpolated scale is the start scale at eased progress 0 and the end scale at 1. |
| `Animation.Progress` | src/animation.rs:68 | Progress never exceeds 1. It is non-negative for a non-negative elapsed time. It equals 1 exactly when the duration has been reached; before that it is elapsed / duration. |
| `Animation.FRem` | src/animation.rs:78 | The wrapped clock of a non-negative elapsed time is that time minus a whole number of durations. It lies in [0, duration) and is at most the elapsed time. A time already below the duration is unchanged. |
| `Animation.MoveNext` | src/animation.rs:65-89 | A tick within the duration changes only the elapsed time. A completion with loops left decrements `loop_count` by exactly 1 and keeps the tween. It sets the clock to the float remainder `FRem` of the advanced time, which lies in [0, duration). The last completion removes the tween. Every completion swaps the ends exactly when `bounce` is set. `loop_count` never increases. |
| `Animation.MoveOutput` | src/animation.rs:66-82 | The last completion writes exactly the end position as it was before the swap. A completion with loops left writes the interpolation at the curve's value for progress 1. With a curve anchored at 1, every completion therefore lands on the end position. With a curve anchored at 0, a clock at 0 gives the start position. A tick within the duration writes the eased interpolation at elapsed / duration. |
| `Animation.MoveRun` | src/animation.rs:65-91 | Over any run of ticks the duration, curve and bounce flag are unchanged and `loop_count` does not grow. A removed tween stays as it is. |
| `Animation.MoveRunCountsDown` | src/animation.rs:75-82 | A tween started with `loop_count` k is present after a run exactly when it completed at most k times, and then its count is k minus the completions. It is removed by exactly its (k+1)-th completion and never completes more often. |
| `Animation.MoveRunBounces` | src/animation.rs:84-88 | After a run, a bouncing tween has its ends swapped exactly when the number of completions is odd, the removing one included. A tween without bounce keeps its ends. |
| `Animation.MoveRunInPhase` | src/animation.rs:66-78 | With non-negative frame times, a present tween's clock stays in [0, duration], so every progress handed to the curve is in [0, 1]. |
| `Animation.ScaleNext` | src/animation.rs:28-45 | Start scale, end scale, duration, curve and looping flag never change. A tick within the duration changes only the clock. A looping completion keeps the tween and sets the clock to the float remainder `FRem` of the advanced time, in [0, duration). A one-shot completion removes it. |
| `Animation.ScaleOutput` | src/animation.rs:29-44 | A one-shot completion writes exactly the end scale. A looping completion writes the interpolation at the curve's value for progress 1. With a curve anchored at 1, every completion therefore writes the end scale. A tick within the duration writes the eased interpolation at elapsed / duration. |
| `Animation.ScaleRun` | src/animation.rs:28-46 | Over any run of ticks the ends, the duration, the curve and the looping flag are unchanged. A removed tween stays as it is. |
| `Animation.ScaleRunPresence` | src/animation.rs:38-45 | A looping `ScaleTo` is never removed. A one-shot one completes at most once and is present exactly when it has not completed. |
| `Animation.ScaleRunInPhase` | src/animation.rs:29-40 | With non-negative frame times, a present `ScaleTo`'s clock stays in [0, duration], so every progress handed to the curve is in [0, 1]. |
| `Animation.MoveTo.constructor` | src/animation.rs:49-58 | A newly attached `MoveTo` has its clock at 0, is present, and holds the given loop count, ends, curve and bounce flag. |
| `Animation.MoveTo.Tick` | src/animation.rs:60-91 | One pass of `update_move_to` updates the component's fields in place to `MoveNext` of the old fields and writes `MoveOutput` into the entity's `Translation`. |
| `Animation.ScaleTo.constructor` | src/animation.rs:13-21 | A newly attached `ScaleTo` has its clock at 0, is present, and holds the given ends, curve and looping flag. |
| `Animation.ScaleTo.Tick` | src/animation.rs:23-47 | One pass of `update_scale_to` updates the component's fields in place to `ScaleNext` of the old fields and writes `ScaleOutput` into the entity's `Scale`. |

## Left out

- `AnimationPlugin::build` and the ECS machinery (`Commands`, `Query`, `Res<Time>`): each tween is ticked on its own with an explicit frame time. The loop over the query is not modelled. Deferred component removal is a flag that is cleared at once.
- `f32` rounding, NaN and infinities: all arithmetic is on reals.
- Floating-point square root: it is a parameter of the circular curves, not a defined function.
- Animation.MoveTo.Tick: requires a positive duration. The derived `Default` gives a duration of 0, whose behaviour rests on IEEE division by zero and NaN.
- Animation.ScaleTo.Tick: requires a positive duration, for the same reason.
- Animation.MoveTo.constructor: requires a positive duration, for the same reason.
- Animation.ScaleTo.constructor: requires a positive duration, for the same reason.
- `Default` for `MoveTo` and `ScaleTo` (elapsed time, duration and loop count 0, `ease` `EaseOutBack`, flags false) is not modelled, for the same reason. `Default` for `Easing` is modelled.
- `src/text_sprite.rs` (glyph layout and drawing through the renderer) and `src/main.rs` (window setup and entity spawning) are not part of this model. They are rendering and application setup.
- The tile grid, merging, spawning, scoring and game-over detection do not appear in the source files, so they are not part of this model.

## Findings

| source | as written | input that shows it | evidently intended | confidence | as-written member | corrected member |
|---|---|---|---|---|---|---|
| src/animation.rs:144 | The upper half of `ease_in_out_circ` is `((1 - sqrt((2 - 2x)^2)) + 1) / 2`, which is `x` itself, so the second half of the curve is linear. | x = 0.75 gives 0.75. The mirror of the lower half gives (1 + sqrt(0.75)) / 2 ≈ 0.933. | `(sqrt(1 - (2 - 2x)^2) + 1) / 2`, the mirror image of the lower half | high; not executed | `Easings.EaseInOutCircAsWrittenNotSymmetric` | `Easings.EaseInOutCircSymmetric` |

`Easings.EaseFn`, and through it the tween model, selects the curve as written (`Easings.EaseInOutCircAsWritten`) for `EaseInOutCirc`, as `get_ease_fn` does. The corrected curve `Easings.EaseInOutCircCurve` stands beside it with its symmetry proved.
