/** Photons of the RGB screen and their reuse pool (js/rgb/model/RGBPhoton.js). */
module RGBPhotons {
  import opened ColorVisionConstants
  import opened Common

  /** The value of one photon: what its three fields hold at a given moment. */
  datatype PhotonState = PhotonState(location: Vector2, velocity: Vector2, intensity: real)

  /** The photon after `dt` seconds of straight-line motion. */
  function Moved(p: PhotonState, dt: real): (q: PhotonState)
    ensures q.location == Advance(p.location, p.velocity, dt)
    ensures q.velocity == p.velocity && q.intensity == p.intensity
  {
    p.(location := Advance(p.location, p.velocity, dt))
  }

  class RGBPhoton {
    var location: Vector2
    var velocity: Vector2
    /** 0-255 channel level */
    var intensity: real

    function Data(): PhotonState
      reads this
    {
      PhotonState(location, velocity, intensity)
    }

    constructor (location: Vector2, velocity: Vector2, intensity: real)
      ensures Data() == PhotonState(location, velocity, intensity)
    {
      this.location := location;
      this.velocity := velocity;
      this.intensity := intensity;
    }

    /** Moves the photon by dt times its velocity; velocity and intensity stay. */
    method UpdateAnimationFrame(dt: real)
      modifies this
      ensures Data() == Moved(old(Data()), dt)
      ensures velocity == old(velocity) && intensity == old(intensity)
    {
      location := Advance(location, velocity, dt);
    }
  }

  /** The values held by a list of photons, in list order. */
  ghost function Snapshot(ps: seq<RGBPhoton>): seq<PhotonState>
    reads set p | p in ps
  {
    seq(|ps|, i requires 0 <= i < |ps| reads set p | p in ps => ps[i].Data())
  }

  // ---------------------------------------------------------------------------
  // Fanning: a uniform draw r picks the vertical velocity of a new photon, and the
  // start height is shifted along that velocity so the fan opens from one point.

  function FanVelocity(r: real): real
  {
    (r * FAN_FACTOR - FAN_FACTOR / 2.0) * 60.0
  }

  function FanStartY(yVelocity: real): real
  {
    yVelocity * (25.0 / 60.0) + BEAM_HEIGHT / 2.0
  }

  /** The fan is symmetric about the beam's axis, bounded by 30 * FAN_FACTOR, and
      every start height lies strictly inside the beam. */
  lemma FanBounds(r: real)
    requires 0.0 <= r <= 1.0
    ensures Abs(FanVelocity(r)) <= 30.0 * FAN_FACTOR
    ensures FanVelocity(r) == -FanVelocity(1.0 - r)
    ensures 0.0 < FanStartY(FanVelocity(r)) < BEAM_HEIGHT
  {
  }

  /** Start height and velocity line up: FanStartY is the beam's mid-height advanced
      for 25/60 s along the vertical velocity. */
  lemma FanStartOnRay(yVelocity: real)
    ensures FanStartY(yVelocity) == Advance(Vector2(0.0, BEAM_HEIGHT / 2.0), Vector2(X_VELOCITY, yVelocity), 25.0 / 60.0).y
  {
  }

  // ---------------------------------------------------------------------------
  // The pool (Poolable configuration of RGBPhoton.js).

  const MAX_POOL_SIZE: nat := 50
  const INITIAL_POOL_SIZE: nat := 50

  /** What defaultFactory builds: a photon at the origin moving at X_VELOCITY with intensity 0. */
  function DefaultPhoton(): PhotonState
  {
    PhotonState(Vector2(0.0, 0.0), Vector2(X_VELOCITY, 0.0), 0.0)
  }

  /** What the factory hands out from draw r when it has to allocate: a photon at
      x = size on the fan's start height, moving at (X_VELOCITY, FanVelocity(r)). */
  function FannedPhoton(size: real, intensity: real, r: real): PhotonState
  {
    var yVelocity := FanVelocity(r);
    PhotonState(Vector2(size, FanStartY(yVelocity)), Vector2(X_VELOCITY, yVelocity), intensity)
  }

  class RGBPhotonPool {
    var pool: seq<RGBPhoton>
    ghost var Repr: set<object>

    ghost predicate Valid()
      reads this, Repr
    {
      && this in Repr
      && (forall p :: p in pool ==> p in Repr)
      && Distinct(pool)
      && |pool| <= MAX_POOL_SIZE
    }

    /** The pool starts full: INITIAL_POOL_SIZE distinct default photons. */
    constructor ()
      ensures Valid() && fresh(Repr)
      ensures |pool| == INITIAL_POOL_SIZE
      ensures forall i :: 0 <= i < |pool| ==> pool[i].Data() == DefaultPhoton()
    {
      pool := [];
      Repr := {this};
      new;
      while |pool| < INITIAL_POOL_SIZE
        invariant |pool| <= INITIAL_POOL_SIZE
        invariant this in Repr && fresh(Repr)
        invariant forall p :: p in pool ==> p in Repr
        invariant Distinct(pool)
        invariant forall i :: 0 <= i < |pool| ==> pool[i].Data() == DefaultPhoton()
      {
        var p := new RGBPhoton(Vector2(0.0, 0.0), Vector2(X_VELOCITY, 0.0), 0.0);
        pool := pool + [p];
        Repr := Repr + {p};
      }
    }

    /** createFromPool(size, intensity): one draw fixes the fan; a pooled photon is
        popped and overwritten (all but velocity.x), otherwise a new one is built. */
    method CreateFromPool(size: real, intensity: real, rng: RandomSource) returns (photon: RGBPhoton)
      requires Valid() && rng.Valid() && rng !in Repr
      modifies Repr, rng
      ensures Valid() && fresh(Repr - old(Repr))
      ensures rng.count == old(rng.count) + 1
      ensures old(|pool|) > 0 ==>
        && photon == old(pool[|pool| - 1])
        && pool == old(pool[..|pool| - 1])
        && photon.Data() == FannedPhoton(size, intensity, rng.draws(old(rng.count))).(velocity := Vector2(old(photon.velocity.x), FanVelocity(rng.draws(old(rng.count)))))
      ensures old(|pool|) == 0 ==>
        && fresh(photon)
        && pool == []
        && photon.Data() == FannedPhoton(size, intensity, rng.draws(old(rng.count)))
      ensures forall p :: p in pool ==> p.Data() == old(p.Data())
    {
      var r := rng.NextDouble();
      var yVelocity := FanVelocity(r);
      var yLocation := FanStartY(yVelocity);
      if |pool| > 0 {
        photon := pool[|pool| - 1];
        pool := pool[..|pool| - 1];
        photon.intensity := intensity;
        photon.location := photon.location.(y := yLocation);
        photon.location := photon.location.(x := size);
        photon.velocity := photon.velocity.(y := yVelocity);
      } else {
        photon := new RGBPhoton(Vector2(size, yLocation), Vector2(X_VELOCITY, yVelocity), intensity);
        Repr := Repr + {photon};
      }
    }
  }
}
