/** The model of the single-bulb screen (js/singlebulb/model/SingleBulbModel.js):
    the settings the person controls, the colour they perceive, and the clock that
    drives the photon beam. */
module SingleBulbModels {
  import opened Common
  import opened Perception
  import opened SingleBulbPhotons
  import opened SingleBulbBeams

  /** Both wavelengths start at 570 nm (yellow). */
  const DEFAULT_WAVELENGTH: real := 570.0
  /** A step never advances the beam by more than half a second. */
  const MAX_DT: real := 0.5
  /** The frame length of a manual step: one frame at 60 frames per second. */
  const MANUAL_DT: real := 1.0 / 60.0

  /** The settings of a new or reset screen: coloured light, solid beam, both
      wavelengths at 570 nm, flashlight and filter off, and transparent black as
      the last photon colour. */
  function DefaultSettings(): (s: Settings)
    ensures s.lightType == Colored && s.beamType == SolidBeam
    ensures s.flashlightWavelength == 570.0 && s.filterWavelength == 570.0
    ensures !s.flashlightOn && !s.filterVisible && s.lastPhotonColor == Color(0.0, 0.0, 0.0, 0.0)
  {
    Settings(DEFAULT_WAVELENGTH, DEFAULT_WAVELENGTH, false, false, Colored, SolidBeam, TRANSPARENT_BLACK)
  }

  /** A new or reset screen shows black: the beam is solid and the flashlight off. */
  lemma DefaultShowsBlack(optics: Optics)
    requires optics.gaussianWidth > 0.0
    ensures PerceivedColor(DefaultSettings(), optics) == BLACK
  {
    FlashlightOffIsBlack(DefaultSettings(), optics);
  }

  /** The frame length a step hands to the beam: dt capped at half a second. It is
      never above 0.5, is dt itself up to there, and is zero exactly when dt is. */
  function CappedDt(dt: real): (d: real)
    ensures d <= MAX_DT && (d == dt || (dt > MAX_DT && d == MAX_DT))
    ensures d == 0.0 <==> dt == 0.0
  {
    Min(dt, MAX_DT)
  }

  /** A frame at the cap creates no photon: the sizing draw is taken and nothing else. */
  lemma CappedFrameCreatesNothing(c: Ctx, size: real, draws: nat -> real, start: nat)
    requires UnitDraws(draws) && c.settings.flashlightOn && c.dt == MAX_DT
    ensures Creation(c, size, draws, start) == ([], start + 1)
  {
    CreationBound(c.dt, draws(start));
  }

  class SingleBulbModel {
    var lightType: LightType
    var beamType: BeamType
    /** in nm */
    var flashlightWavelength: real
    /** in nm */
    var filterWavelength: real
    var flashlightOn: bool
    var filterVisible: bool
    /** the colour of the last photon to reach the eye */
    var lastPhotonColor: Color
    /** the play/pause state, owned by ColorVisionModel */
    var playing: bool

    const photonBeam: SingleBulbPhotonBeam
    const optics: Optics
    /** where the filter sits along the beam */
    const filterOffset: real

    ghost predicate Valid()
      reads this, photonBeam
    {
      photonBeam.Valid() && optics.gaussianWidth > 0.0
    }

    /** The inputs of the perceived-colour derivation, read from the fields. */
    function CurrentSettings(): Settings
      reads this
    {
      Settings(flashlightWavelength, filterWavelength, flashlightOn, filterVisible, lightType, beamType, lastPhotonColor)
    }

    /** What one frame of the beam reads: the settings, optics and filter position. */
    function FrameCtx(dt: real): Ctx
      reads this
    {
      Ctx(CurrentSettings(), optics, filterOffset, dt)
    }

    /** A new screen: default settings and an empty beam of the given length. */
    constructor (beamLength: real, optics: Optics, filterOffset: real, playing: bool)
      requires optics.gaussianWidth > 0.0
      ensures Valid() && fresh(photonBeam)
      ensures CurrentSettings() == DefaultSettings() && this.playing == playing
      ensures photonBeam.Contents() == [] && photonBeam.size == beamLength
      ensures this.optics == optics && this.filterOffset == filterOffset
    {
      lightType := Colored;
      beamType := SolidBeam;
      flashlightWavelength := DEFAULT_WAVELENGTH;
      filterWavelength := DEFAULT_WAVELENGTH;
      flashlightOn := false;
      filterVisible := false;
      lastPhotonColor := TRANSPARENT_BLACK;
      this.playing := playing;
      photonBeam := new SingleBulbPhotonBeam(beamLength);
      this.optics := optics;
      this.filterOffset := filterOffset;
    }

    /** step: while playing, one frame of the beam with dt capped at 0.5; while
        paused, nothing changes. */
    method Step(dt: real, rng: RandomSource)
      requires Valid() && rng.Valid()
      requires playing && flashlightOn ==> dt != 0.0
      modifies this, photonBeam, photonBeam.PhotonSet(), rng
      ensures Valid()
      ensures old(playing) ==>
        var r := Frame(old(photonBeam.Contents()), old(FrameCtx(CappedDt(dt))), photonBeam.size, rng.draws, old(rng.count));
        && photonBeam.Contents() == r.photons && rng.count == r.next
        && CurrentSettings() == old(CurrentSettings()).(lastPhotonColor := r.lastPhotonColor)
      ensures !old(playing) ==>
        photonBeam.Contents() == old(photonBeam.Contents()) && rng.count == old(rng.count)
        && CurrentSettings() == old(CurrentSettings())
      ensures playing == old(playing)
    {
      var capped := Min(dt, MAX_DT);
      if playing {
        lastPhotonColor := photonBeam.UpdateAnimationFrame(FrameCtx(capped), rng);
      }
    }

    /** manualStep: one frame of 1/60 s, whether playing or not. */
    method ManualStep(rng: RandomSource)
      requires Valid() && rng.Valid()
      modifies this, photonBeam, photonBeam.PhotonSet(), rng
      ensures Valid()
      ensures var r := Frame(old(photonBeam.Contents()), old(FrameCtx(MANUAL_DT)), photonBeam.size, rng.draws, old(rng.count));
        && photonBeam.Contents() == r.photons && rng.count == r.next
        && CurrentSettings() == old(CurrentSettings()).(lastPhotonColor := r.lastPhotonColor)
      ensures playing == old(playing)
    {
      lastPhotonColor := photonBeam.UpdateAnimationFrame(FrameCtx(MANUAL_DT), rng);
    }

    /** Sets the flashlight. Switching it from on to off runs the beam's hook, which
        appends one transparent black photon; any other change, or none, leaves the
        beam alone. */
    method SetFlashlightOn(on: bool, rng: RandomSource)
      requires Valid() && rng.Valid()
      modifies this, photonBeam, rng
      ensures Valid() && fresh(photonBeam.PhotonSet() - old(photonBeam.PhotonSet()))
      ensures CurrentSettings() == old(CurrentSettings()).(flashlightOn := on) && playing == old(playing)
      ensures old(flashlightOn) && !on ==>
        && photonBeam.Contents() == old(photonBeam.Contents()) + [Pooled(photonBeam.size, 1.0, TRANSPARENT_BLACK, false, rng.draws(old(rng.count)))]
        && rng.count == old(rng.count) + 1
      ensures !(old(flashlightOn) && !on) ==>
        photonBeam.Contents() == old(photonBeam.Contents()) && rng.count == old(rng.count)
    {
      var was := flashlightOn;
      flashlightOn := on;
      if was && !on {
        photonBeam.FlashlightTurnedOff(rng);
      }
    }

    /** reset: every setting back to its default (switching the flashlight off on the
        way runs the beam's hook), then the beam's reset moves every photon,
        including the hook's, to x = 0. */
    method Reset(rng: RandomSource)
      requires Valid() && rng.Valid()
      modifies this, photonBeam, photonBeam.PhotonSet(), rng
      ensures Valid()
      ensures CurrentSettings() == DefaultSettings() && playing == old(playing)
      ensures old(flashlightOn) ==>
        && photonBeam.Contents() == Parked(old(photonBeam.Contents()) + [Pooled(photonBeam.size, 1.0, TRANSPARENT_BLACK, false, rng.draws(old(rng.count)))])
        && rng.count == old(rng.count) + 1
      ensures !old(flashlightOn) ==>
        photonBeam.Contents() == Parked(old(photonBeam.Contents())) && rng.count == old(rng.count)
    {
      lightType := Colored;
      beamType := SolidBeam;
      flashlightWavelength := DEFAULT_WAVELENGTH;
      filterWavelength := DEFAULT_WAVELENGTH;
      ghost var hook := [Pooled(photonBeam.size, 1.0, TRANSPARENT_BLACK, false, rng.draws(rng.count))];
      SetFlashlightOn(false, rng);
      ghost var before := photonBeam.Contents();
      assert before == if old(flashlightOn) then old(photonBeam.Contents()) + hook else old(photonBeam.Contents());
      filterVisible := false;
      lastPhotonColor := TRANSPARENT_BLACK;
      photonBeam.Reset();
      assert photonBeam.Contents() == Parked(before);
    }
  }
}
