/**
 * The entrance-animation gate shared by both adapter versions. A custom animator, when set,
 * always runs and never looks at the watermark. Otherwise a built-in animation type, when
 * set, runs either on every bind (every-time mode) or only for a position past the
 * watermark; whenever it runs the watermark becomes that position.
 */
module AnimationGate {

  /** Which animation a bind starts. */
  datatype Animation = NoAnimation | CustomAnimation | TypedAnimation

  /** What the gate decides for one bind, and the watermark it leaves behind. */
  datatype Decision = Decision(animation: Animation, watermark: int)

  /** The watermark before anything has been animated. */
  const INITIAL_WATERMARK: int := -1

  /**
   * The gate for one bound item at adapter position `position`. The custom animator wins and
   * leaves the watermark alone; the built-in animation fires exactly when every-time mode is
   * on or the position is past the watermark, and only a firing moves the watermark, to the
   * position itself.
   */
  function Gate(hasCustomAnimator: bool, hasAnimationType: bool, everyTime: bool,
                watermark: int, position: int): (d: Decision)
    ensures hasCustomAnimator ==> d == Decision(CustomAnimation, watermark)
    ensures !hasCustomAnimator ==>
      (d.animation == TypedAnimation <==> hasAnimationType && (everyTime || position > watermark))
    ensures !hasCustomAnimator ==> d.animation != CustomAnimation
    ensures d.watermark == if d.animation == TypedAnimation then position else watermark
  {
    if hasCustomAnimator then
      Decision(CustomAnimation, watermark)
    else if hasAnimationType && (everyTime || position > watermark) then
      Decision(TypedAnimation, position)
    else
      Decision(NoAnimation, watermark)
  }

  /** Outside every-time mode the watermark never goes down. */
  lemma WatermarkMonotonic(hasCustomAnimator: bool, hasAnimationType: bool, watermark: int, position: int)
    ensures Gate(hasCustomAnimator, hasAnimationType, false, watermark, position).watermark >= watermark
  {
  }

  /**
   * With no custom animator and every-time mode off, a position that has just been animated
   * is not animated again when it is bound a second time.
   */
  lemma AnimateOnce(hasAnimationType: bool, watermark: int, position: int)
    ensures Gate(false, hasAnimationType, false,
                 Gate(false, hasAnimationType, false, watermark, position).watermark, position).animation
            == NoAnimation
  {
  }

  /**
   * With no custom animator, an animation type set and every-time mode on, the animation
   * fires and the watermark is still overwritten, and may go down.
   */
  lemma EveryTimeOverwritesWatermark(watermark: int, position: int)
    ensures Gate(false, true, true, watermark, position) == Decision(TypedAnimation, position)
  {
  }

  /** The gate run over the positions bound one after another: the animations and the final watermark. */
  function Replay(hasCustomAnimator: bool, hasAnimationType: bool, everyTime: bool,
                  watermark: int, positions: seq<int>): (res: (seq<Animation>, int))
    ensures |res.0| == |positions|
    decreases |positions|
  {
    if |positions| == 0 then
      ([], watermark)
    else
      var d := Gate(hasCustomAnimator, hasAnimationType, everyTime, watermark, positions[0]);
      var rest := Replay(hasCustomAnimator, hasAnimationType, everyTime, d.watermark, positions[1..]);
      ([d.animation] + rest.0, rest.1)
  }

  /** The larger of two positions. */
  function Higher(a: int, b: int): int
  {
    if b > a then b else a
  }

  /** The highest of `watermark` and all of `positions`. */
  function HighestOf(watermark: int, positions: seq<int>): (h: int)
    decreases |positions|
  {
    if |positions| == 0 then watermark else HighestOf(Higher(watermark, positions[0]), positions[1..])
  }

  /**
   * The highest is at least the starting watermark and every position, and it is one of
   * them: the starting watermark or some position.
   */
  lemma {:induction false} HighestOfBounds(watermark: int, positions: seq<int>)
    ensures HighestOf(watermark, positions) >= watermark
    ensures forall i :: 0 <= i < |positions| ==> HighestOf(watermark, positions) >= positions[i]
    ensures HighestOf(watermark, positions) == watermark
         || exists i :: 0 <= i < |positions| && HighestOf(watermark, positions) == positions[i]
    decreases |positions|
  {
    if |positions| > 0 {
      var rest := positions[1..];
      var next := Higher(watermark, positions[0]);
      HighestOfBounds(next, rest);
      forall i | 1 <= i < |positions|
        ensures HighestOf(watermark, positions) >= positions[i]
      {
        assert positions[i] == rest[i - 1];
      }
      if HighestOf(next, rest) != next {
        var k :| 0 <= k < |rest| && HighestOf(next, rest) == rest[k];
        assert positions[k + 1] == rest[k];
      } else if next != watermark {
        assert HighestOf(watermark, positions) == positions[0];
      }
    }
  }

  /**
   * With no custom animator, an animation type set and every-time mode off, the watermark
   * ends at the highest position bound.
   */
  lemma {:induction false} ReplayWatermarkIsHighest(watermark: int, positions: seq<int>)
    ensures Replay(false, true, false, watermark, positions).1 == HighestOf(watermark, positions)
    decreases |positions|
  {
    if |positions| > 0 {
      ReplayWatermarkIsHighest(Higher(watermark, positions[0]), positions[1..]);
    }
  }

  /**
   * With no custom animator, an animation type set and every-time mode off, the i-th bind animates exactly
   * when its position is higher than the starting watermark and every position bound before it.
   */
  lemma {:induction false} ReplayFiresOnNewHigh(watermark: int, positions: seq<int>)
    ensures forall i :: 0 <= i < |positions| ==>
      Replay(false, true, false, watermark, positions).0[i] ==
        (if positions[i] > HighestOf(watermark, positions[..i]) then TypedAnimation else NoAnimation)
    decreases |positions|
  {
    if |positions| > 0 {
      var next := Higher(watermark, positions[0]);
      var rest := positions[1..];
      ReplayFiresOnNewHigh(next, rest);
      forall i | 1 <= i < |positions|
        ensures Replay(false, true, false, watermark, positions).0[i] ==
          (if positions[i] > HighestOf(watermark, positions[..i]) then TypedAnimation else NoAnimation)
      {
        assert positions[..i][1..] == rest[..i - 1];
        assert positions[i] == rest[i - 1];
      }
      assert positions[..0] == [];
    }
  }

  /**
   * With no custom animator, an animation type set and every-time mode off, a position bound a second time
   * in a pass is never animated again.
   */
  lemma ReplayAnimatesOnce(watermark: int, positions: seq<int>, i: nat, j: nat)
    requires i < j < |positions| && positions[i] == positions[j]
    ensures Replay(false, true, false, watermark, positions).0[j] == NoAnimation
  {
    ReplayFiresOnNewHigh(watermark, positions);
    HighestOfBounds(watermark, positions[..j]);
    assert positions[..j][i] == positions[i];
  }

  /** A custom animator animates every bind and never moves the watermark. */
  lemma {:induction false} ReplayCustomBypasses(hasAnimationType: bool, everyTime: bool,
                                                watermark: int, positions: seq<int>)
    ensures forall i :: 0 <= i < |positions| ==>
      Replay(true, hasAnimationType, everyTime, watermark, positions).0[i] == CustomAnimation
    ensures Replay(true, hasAnimationType, everyTime, watermark, positions).1 == watermark
    decreases |positions|
  {
    if |positions| > 0 {
      ReplayCustomBypasses(hasAnimationType, everyTime, watermark, positions[1..]);
    }
  }

  /**
   * In every-time mode with an animation type and no custom animator, over at least one bind,
   * every bind animates and the watermark ends at the last position bound, whether or not it
   * is the highest.
   */
  lemma {:induction false} ReplayEveryTime(watermark: int, positions: seq<int>)
    requires |positions| > 0
    ensures forall i :: 0 <= i < |positions| ==>
      Replay(false, true, true, watermark, positions).0[i] == TypedAnimation
    ensures Replay(false, true, true, watermark, positions).1 == positions[|positions| - 1]
    decreases |positions|
  {
    if |positions| > 1 {
      ReplayEveryTime(positions[0], positions[1..]);
    }
  }
}
