/**
 * Light animations for the buttons. The animation builders of the button
 * library are outside this model: their results are the tagged values of
 * `Animation`. The one animation built here is the rolling idle animation
 * of the player's button (`makeRollingAnimation`).
 */
module Lights {
  import opened Wrappers

  /** A shade is a hex colour string; the game only ever compares shades for equality. */
  type Shade = string

  /** The window the rolling animation must cover, in milliseconds. */
  const ROLLING_WINDOW_MS: nat := 20000

  /** One step of a light sequence. */
  datatype AnimationStep = AnimationStep(durationMs: nat, blend: bool, color: Shade)

  /** The animation record `{repeat, targetLights, sequence}`. */
  datatype RollingAnimation = RollingAnimation(repeat: nat, targetLights: seq<string>, sequence: seq<AnimationStep>)

  /** What the animation builders return, as opaque tagged values with their arguments. */
  datatype Animation =
    | SolidAnimation(cycles: nat, color: string, durationMs: nat)
    | FadeOutAnimation(cycles: nat, fadeColor: Option<string>, durationMs: nat)
    | PulseAnimation(cycles: nat, fromColor: string, toColor: string)
    | Rolling(plan: RollingAnimation)

  function Reversed(s: seq<Shade>): (r: seq<Shade>)
    ensures |r| == |s|
  {
    if s == [] then [] else Reversed(s[1..]) + [s[0]]
  }

  lemma {:induction false} ReversedAt(s: seq<Shade>, k: nat)
    requires k < |s|
    ensures Reversed(s)[k] == s[|s| - 1 - k]
  {
    if k < |s| - 1 {
      ReversedAt(s[1..], k);
    }
  }

  /**
   * The order in which the rolling animation shows the shades: forward
   * through all of them, then backward leaving out both end points, so that
   * the loop has no visible jump.
   */
  function PalindromeOrder(shades: seq<Shade>): (order: seq<Shade>)
    ensures |order| == if |shades| < 2 then |shades| else 2 * |shades| - 2
  {
    if |shades| < 2 then shades else shades + Reversed(shades[1..|shades| - 1])
  }

  /** The rolling animation as a value: every step lasts `duration` and does not blend. */
  function RollingPlan(shades: seq<Shade>, duration: nat): RollingAnimation
    requires |shades| > 0 && duration > 0
  {
    var order := PalindromeOrder(shades);
    RollingAnimation(
      ROLLING_WINDOW_MS / (|order| * duration) + 1,
      ["1"],
      seq(|order|, k requires 0 <= k < |order| => AnimationStep(duration, false, order[k])))
  }

  /** `k` repetitions of a cycle of `cycleMs` last longer than the window. */
  ghost predicate CoversWindow(k: nat, cycleMs: nat)
  {
    k * cycleMs > ROLLING_WINDOW_MS
  }

  lemma {:induction false} PalindromeOrderAt(shades: seq<Shade>, k: nat)
    requires k < |PalindromeOrder(shades)|
    ensures PalindromeOrder(shades)[k] == if k < |shades| then shades[k] else shades[2 * |shades| - 2 - k]
  {
    var n := |shades|;
    if n >= 2 && k >= n {
      var inner := shades[1..n - 1];
      ReversedAt(inner, k - n);
      assert PalindromeOrder(shades)[k] == Reversed(inner)[k - n];
    }
  }

  /**
   * The sequence is `shades[0..n-1]` followed by `shades[n-2]` down to
   * `shades[1]`: length `2n-2` for `n >= 2` and 1 for `n = 1`; every step
   * lasts `duration` and does not blend, and the animation lights only
   * light "1".
   */
  lemma RollingPlanShape(shades: seq<Shade>, duration: nat)
    requires |shades| > 0 && duration > 0
    ensures var plan := RollingPlan(shades, duration);
      && |plan.sequence| == (if |shades| == 1 then 1 else 2 * |shades| - 2)
      && plan.targetLights == ["1"]
      && (forall k :: 0 <= k < |plan.sequence| ==>
            plan.sequence[k].durationMs == duration && !plan.sequence[k].blend)
      && (forall k :: 0 <= k < |shades| ==> plan.sequence[k].color == shades[k])
      && (forall k :: |shades| <= k < |plan.sequence| ==>
            plan.sequence[k].color == shades[2 * |shades| - 2 - k])
  {
    var plan := RollingPlan(shades, duration);
    forall k | 0 <= k < |plan.sequence|
      ensures plan.sequence[k].color == if k < |shades| then shades[k] else shades[2 * |shades| - 2 - k]
    {
      PalindromeOrderAt(shades, k);
    }
  }

  /** For three shades `[a, b, c]` the sequence is `[a, b, c, b]`. */
  lemma RollingPlanOfThree(a: Shade, b: Shade, c: Shade, duration: nat)
    requires duration > 0
    ensures var plan := RollingPlan([a, b, c], duration);
      |plan.sequence| == 4 &&
      plan.sequence[0].color == a && plan.sequence[1].color == b &&
      plan.sequence[2].color == c && plan.sequence[3].color == b
  {
    RollingPlanShape([a, b, c], duration);
  }

  /**
   * Read as a cycle the sequence is symmetric: stepping `k` forward from the
   * first shade shows the same shade as stepping `k` backward.
   */
  lemma RollingCycleIsSymmetric(shades: seq<Shade>, duration: nat, k: nat)
    requires |shades| >= 2 && duration > 0
    requires 0 < k < |RollingPlan(shades, duration).sequence|
    ensures var s := RollingPlan(shades, duration).sequence;
      s[k] == s[|s| - k]
  {
    RollingPlanShape(shades, duration);
  }

  lemma MulMonotone(k: nat, q: nat, c: nat)
    requires k <= q
    ensures k * c <= q * c
  {
    assert q * c == k * c + (q - k) * c;
  }

  /**
   * The repeat count `floor(20000 / cycle) + 1` is the least number of
   * cycles that lasts longer than the 20-second window.
   */
  lemma RepeatIsLeastCover(shades: seq<Shade>, duration: nat)
    requires |shades| > 0 && duration > 0
    ensures var plan := RollingPlan(shades, duration);
      var cycle := |plan.sequence| * duration;
      && cycle > 0
      && CoversWindow(plan.repeat, cycle)
      && forall k: nat :: CoversWindow(k, cycle) ==> plan.repeat <= k
  {
    var plan := RollingPlan(shades, duration);
    var cycle := |plan.sequence| * duration;
    MulMonotone(1, |plan.sequence|, duration);
    var q := ROLLING_WINDOW_MS / cycle;
    assert ROLLING_WINDOW_MS == q * cycle + ROLLING_WINDOW_MS % cycle;
    assert plan.repeat == q + 1;
    assert (q + 1) * cycle == q * cycle + cycle;
    forall k: nat | CoversWindow(k, cycle)
      ensures plan.repeat <= k
    {
      if k <= q {
        MulMonotone(k, q, cycle);
      }
    }
  }

  /**
   * Builds the rolling animation with two loops: the shades forward, then
   * the inner shades backward; then the repeat count.
   */
  method MakeRollingAnimation(colorShades: seq<Shade>, duration: nat) returns (anim: RollingAnimation)
    requires |colorShades| > 0 && duration > 0
    ensures anim == RollingPlan(colorShades, duration)
  {
    var n := |colorShades|;
    var sequence: seq<AnimationStep> := [];
    var i := 0;
    while i < n
      invariant 0 <= i <= n
      invariant |sequence| == i
      invariant forall k :: 0 <= k < i ==> sequence[k] == AnimationStep(duration, false, colorShades[k])
    {
      sequence := sequence + [AnimationStep(duration, false, colorShades[i])];
      i := i + 1;
    }
    var j := n - 2;
    while j > 0
      invariant j <= n - 2
      invariant n >= 2 ==> j >= 0
      invariant n == 1 ==> j == -1
      invariant |sequence| == 2 * n - 2 - j
      invariant forall k :: 0 <= k < n ==> sequence[k] == AnimationStep(duration, false, colorShades[k])
      invariant forall k :: n <= k < |sequence| ==>
                  sequence[k] == AnimationStep(duration, false, colorShades[2 * n - 2 - k])
    {
      sequence := sequence + [AnimationStep(duration, false, colorShades[j])];
      j := j - 1;
    }
    var cycleDuration := |sequence| * duration;
    var cycles := ROLLING_WINDOW_MS / cycleDuration + 1;
    anim := RollingAnimation(cycles, ["1"], sequence);
    RollingPlanShape(colorShades, duration);
    var plan := RollingPlan(colorShades, duration);
    assert |sequence| == |plan.sequence|;
    forall k | 0 <= k < |sequence|
      ensures sequence[k] == plan.sequence[k]
    {
    }
    assert sequence == plan.sequence;
  }
}
