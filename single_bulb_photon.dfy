/** Photons of the single-bulb screen and their state records
    (js/singlebulb/model/SingleBulbPhoton.js). */
module SingleBulbPhotons {
  import opened ColorVisionConstants
  import opened Common
  import RGBPhotons

  /** The value of one photon. `wasWhite` remembers whether the photon left the bulb
      white; `isWhite` is cleared when the filter recolours it. The wavelength is
      absent when the creator supplied none. */
  datatype BulbPhoton = BulbPhoton(
    location: Vector2,
    velocity: Vector2,
    intensity: real,
    color: Color,
    isWhite: bool,
    wasWhite: bool,
    passedFilter: bool,
    wavelength: Option<real>)

  /** The photon after `dt` seconds of straight-line motion (the inherited
      updateAnimationFrame). */
  function Moved(p: BulbPhoton, dt: real): (q: BulbPhoton)
    ensures q.location == Advance(p.location, p.velocity, dt)
    ensures q.(location := p.location) == p
  {
    p.(location := Advance(p.location, p.velocity, dt))
  }

  class SingleBulbPhoton {
    var location: Vector2
    var velocity: Vector2
    /** 0-1, used as the colour's alpha */
    var intensity: real
    var color: Color
    var isWhite: bool
    var wasWhite: bool
    var passedFilter: bool
    var wavelength: Option<real>

    function Data(): BulbPhoton
      reads this
    {
      BulbPhoton(location, velocity, intensity, color, isWhite, wasWhite, passedFilter, wavelength)
    }

    /** A new photon has not passed the filter, and is white now exactly when it
        left the bulb white; every other field is stored as given. */
    constructor (location: Vector2, velocity: Vector2, intensity: real, color: Color, isWhite: bool, wavelength: Option<real>)
      ensures this.location == location && this.velocity == velocity && this.intensity == intensity
      ensures this.color == color && this.wavelength == wavelength
      ensures this.isWhite == isWhite && this.wasWhite == isWhite && !passedFilter
    {
      this.location := location;
      this.velocity := velocity;
      this.intensity := intensity;
      passedFilter := false;
      this.isWhite := isWhite;
      this.wasWhite := isWhite;
      this.color := color;
      this.wavelength := wavelength;
    }

    /** Moves the photon by dt times its velocity; nothing else changes. */
    method UpdateAnimationFrame(dt: real)
      modifies this
      ensures Data() == Moved(old(Data()), dt)
    {
      location := Advance(location, velocity, dt);
    }
  }

  /** The values held by a list of photons, in list order. */
  ghost function Snapshot(ps: seq<SingleBulbPhoton>): seq<BulbPhoton>
    reads set p | p in ps
  {
    seq(|ps|, i requires 0 <= i < |ps| reads set p | p in ps => ps[i].Data())
  }

  // ---------------------------------------------------------------------------
  // State records. The base part (location, velocity, intensity) is the record of
  // js/rgb/model/RGBPhotonIO.js; the single-bulb photon adds isWhite, colour and
  // wavelength.

  datatype BulbStateObject = BulbStateObject(
    location: Vector2,
    velocity: Vector2,
    intensity: real,
    isWhite: bool,
    color: Color,
    wavelength: Option<real>)

  /** toStateObject: the six recorded fields of a photon. */
  function ToStateObject(p: SingleBulbPhoton): (s: BulbStateObject)
    reads p
    ensures s.location == p.location && s.velocity == p.velocity && s.intensity == p.intensity
    ensures s.isWhite == p.isWhite && s.color == p.color && s.wavelength == p.wavelength
  {
    BulbStateObject(p.location, p.velocity, p.intensity, p.isWhite, p.color, p.wavelength)
  }

  /** The photon value the constructor builds from a record. */
  function FromState(s: BulbStateObject): BulbPhoton
  {
    BulbPhoton(s.location, s.velocity, s.intensity, s.color, s.isWhite, s.isWhite, false, s.wavelength)
  }

  /** fromStateObject: a new photon whose record is exactly `s`. */
  method FromStateObject(s: BulbStateObject) returns (p: SingleBulbPhoton)
    ensures fresh(p)
    ensures ToStateObject(p) == s
    ensures p.Data() == FromState(s)
  {
    p := new SingleBulbPhoton(s.location, s.velocity, s.intensity, s.color, s.isWhite, s.wavelength);
  }

  /** Round trip through a record keeps the six recorded fields, forgets that the
      photon passed the filter and forgets that a recoloured photon was white. */
  lemma RoundTripResetsFilterHistory(p: SingleBulbPhoton)
    ensures FromState(ToStateObject(p)) == p.Data().(passedFilter := false, wasWhite := p.isWhite)
    ensures FromState(ToStateObject(p)) == p.Data() <==> !p.passedFilter && p.wasWhite == p.isWhite
  {
  }

  /** The other way round the trip is exact: the record read back from a photon
      built from `s` is `s`. */
  lemma RecordRoundTrip(s: BulbStateObject, p: SingleBulbPhoton)
    requires p.Data() == FromState(s)
    ensures ToStateObject(p) == s
  {
  }

  // ---------------------------------------------------------------------------
  // Creation. SingleBulbPhoton has no pool of its own; a photon asked for with
  // (size, intensity, color, isWhite) is built the way the RGB photon's factory
  // builds one (js/rgb/model/RGBPhoton.js:46-63): one draw fans the vertical
  // velocity, and the start height follows from it.

  /** The photon handed out for draw r: at x = size on the fan's start height, with
      no wavelength and the filter not yet passed. */
  function Pooled(size: real, intensity: real, color: Color, isWhite: bool, r: real): (p: BulbPhoton)
    requires 0.0 <= r < 1.0
    ensures p.location.x == size && 0.0 < p.location.y < BEAM_HEIGHT
    ensures p.velocity.x == X_VELOCITY && Abs(p.velocity.y) <= 30.0 * FAN_FACTOR
    ensures p.intensity == intensity && p.color == color
    ensures p.isWhite == isWhite && p.wasWhite == isWhite && !p.passedFilter && p.wavelength == None
  {
    var yVelocity := RGBPhotons.FanVelocity(r);
    RGBPhotons.FanBounds(r);
    BulbPhoton(Vector2(size, RGBPhotons.FanStartY(yVelocity)), Vector2(X_VELOCITY, yVelocity), intensity, color, isWhite, isWhite, false, None)
  }

  /** createFromPool(size, intensity, color, isWhite), with the pool's draw. */
  method CreateFromPool(size: real, intensity: real, color: Color, isWhite: bool, rng: RandomSource) returns (p: SingleBulbPhoton)
    requires rng.Valid()
    modifies rng
    ensures fresh(p)
    ensures rng.count == old(rng.count) + 1
    ensures p.Data() == Pooled(size, intensity, color, isWhite, rng.draws(old(rng.count)))
  {
    var r := rng.NextDouble();
    var yVelocity := (r * FAN_FACTOR - FAN_FACTOR / 2.0) * 60.0;
    var yLocation := yVelocity * (25.0 / 60.0) + BEAM_HEIGHT / 2.0;
    p := new SingleBulbPhoton(Vector2(size, yLocation), Vector2(X_VELOCITY, yVelocity), intensity, color, isWhite, None);
  }
}
