/** Constants shared by both screens (js/common/ColorVisionConstants.js). */
module ColorVisionConstants {

  /** Height of every photon beam, in view units. */
  const BEAM_HEIGHT: real := 130.0

  /** Horizontal velocity of every photon; photons travel right to left. */
  const X_VELOCITY: real := -240.0

  /** Amount of vertical fanning of the photons leaving a bulb. */
  const FAN_FACTOR: real := 1.05
}

/** Value types and small services used by every part of the photon engine. */
module Common {
  import opened ColorVisionConstants

  datatype Option<T> = None | Some(value: T)

  /** A 2D vector, as a value (the source mutates Vector2 objects in place; each such
      mutation is modelled as reassigning the field that holds the vector). */
  datatype Vector2 = Vector2(x: real, y: real)

  /** The position reached after moving for `dt` seconds at `velocity`. */
  function Advance(location: Vector2, velocity: Vector2, dt: real): Vector2
  {
    Vector2(location.x + dt * velocity.x, location.y + dt * velocity.y)
  }

  /** The bounds test both beams use: right of the eye and strictly inside the beam's height. */
  predicate InBeam(location: Vector2)
  {
    location.x > 0.0 && location.y > 0.0 && location.y < BEAM_HEIGHT
  }

  /** An RGBA colour: channels 0-255, alpha 0-1. */
  datatype Color = Color(r: real, g: real, b: real, a: real)
  {
    /** The same colour with its alpha replaced. */
    function WithAlpha(alpha: real): Color
    {
      this.(a := alpha)
    }
  }

  const BLACK: Color := Color(0.0, 0.0, 0.0, 1.0)
  const WHITE: Color := Color(255.0, 255.0, 255.0, 1.0)
  const TRANSPARENT_BLACK: Color := BLACK.WithAlpha(0.0)

  function Abs(x: real): real
  {
    if x < 0.0 then -x else x
  }

  function Min(a: real, b: real): real
  {
    if a <= b then a else b
  }

  /** No reference occurs twice in `s`. */
  ghost predicate Distinct<T>(s: seq<T>)
  {
    forall i, j :: 0 <= i < j < |s| ==> s[i] != s[j]
  }

  /** Removing one element keeps a list free of repeated references, and the removed
      element no longer occurs in it. */
  lemma DistinctRemove<T>(s: seq<T>, i: nat)
    requires Distinct(s) && i < |s|
    ensures Distinct(s[..i] + s[i + 1..])
    ensures forall x :: x in s[..i] + s[i + 1..] ==> x in s
    ensures s[i] !in s[..i] + s[i + 1..]
  {
    var t := s[..i] + s[i + 1..];
    forall a, b | 0 <= a < b < |t|
      ensures t[a] != t[b]
    {
      var a' := if a < i then a else a + 1;
      var b' := if b < i then b else b + 1;
      assert t[a] == s[a'] && t[b] == s[b'];
    }
  }

  /** Every draw lies in [0, 1). */
  ghost predicate UnitDraws(draws: nat -> real)
  {
    forall n: nat :: 0.0 <= draws(n) < 1.0
  }

  /** An injected source of uniform draws in [0, 1), standing for Math.random and
      phet.joist.random: the n-th call returns draws(n). */
  class RandomSource {
    const draws: nat -> real
    var count: nat

    ghost predicate Valid()
    {
      UnitDraws(draws)
    }

    constructor (draws: nat -> real)
      requires UnitDraws(draws)
      ensures Valid() && this.draws == draws && count == 0
    {
      this.draws := draws;
      count := 0;
    }

    method NextDouble() returns (r: real)
      requires Valid()
      modifies this
      ensures r == draws(old(count)) && count == old(count) + 1
      ensures 0.0 <= r < 1.0
    {
      r := draws(count);
      count := count + 1;
    }
  }

  /** A mutable number shared between a model and a beam (an axon NumberProperty
      without its listeners). */
  class NumberProperty {
    var value: real

    constructor (value: real)
      ensures this.value == value
    {
      this.value := value;
    }
  }
}
