/** The colour the person in the single-bulb screen perceives, derived from the
    screen's settings (the derivation of js/singlebulb/model/SingleBulbModel.js). */
module Perception {
  import opened Common

  /** Kind of light leaving the bulb. */
  datatype LightType = White | Colored

  /** How the light is drawn: a solid beam or individual photons. */
  datatype BeamType = SolidBeam | Photons

  /** The inputs of the derivation: every setting of the screen it depends on. */
  datatype Settings = Settings(
    flashlightWavelength: real,
    filterWavelength: real,
    flashlightOn: bool,
    filterVisible: bool,
    lightType: LightType,
    beamType: BeamType,
    lastPhotonColor: Color)

  /** The filter's transmission width and the wavelength-to-colour map of the
      colour library; both are defined outside this code, so they are inputs. */
  datatype Optics = Optics(gaussianWidth: real, wavelengthToColor: real -> Color)

  function HalfWidth(optics: Optics): real
  {
    optics.gaussianWidth / 2.0
  }

  /** The share of light at the flashlight's wavelength that crosses a filter centred
      on `filter`: none outside [filter - halfWidth, filter + halfWidth], a share
      falling linearly with the distance inside it. */
  function Transmission(flashlight: real, filter: real, halfWidth: real): (t: real)
    requires halfWidth > 0.0
    ensures 0.0 <= t <= 1.0
    ensures t == 1.0 <==> flashlight == filter
    ensures t == 0.0 <==> Abs(filter - flashlight) >= halfWidth
    ensures Abs(filter - flashlight) < halfWidth ==> t * halfWidth == halfWidth - Abs(filter - flashlight)
  {
    if flashlight < filter - halfWidth || flashlight > filter + halfWidth then 0.0
    else
      LinearShare(Abs(filter - flashlight), halfWidth);
      1.0 - Abs(filter - flashlight) / halfWidth
  }

  /** The linear share 1 - d/h for a distance d within [0, h]. */
  lemma LinearShare(d: real, h: real)
    requires 0.0 <= d <= h && h > 0.0
    ensures var t := 1.0 - d / h;
      && 0.0 <= t <= 1.0 && (t == 1.0 <==> d == 0.0) && (t == 0.0 <==> d == h) && t * h == h - d
  {
    var q := d / h;
    assert q * h == d;
    assert (1.0 - q) * h == h - q * h;
    SignOfProduct(q, h);
    SignOfProduct(q - 1.0, h);
    assert (q - 1.0) * h == d - h;
  }

  /** Multiplying by a positive number keeps the sign. */
  lemma SignOfProduct(a: real, h: real)
    requires h > 0.0
    ensures a > 0.0 <==> a * h > 0.0
    ensures a == 0.0 <==> a * h == 0.0
    ensures a < 0.0 <==> a * h < 0.0
  {
    if a < 0.0 {
      assert (-a) * h > 0.0;
      assert a * h == -((-a) * h);
    }
  }

  /** The transmission depends only on the distance between the two wavelengths. */
  lemma TransmissionSymmetric(a: real, b: real, halfWidth: real)
    requires halfWidth > 0.0
    ensures Transmission(a, b, halfWidth) == Transmission(b, a, halfWidth)
  {
    var t := Transmission(a, b, halfWidth);
    var u := Transmission(b, a, halfWidth);
    assert Abs(b - a) == Abs(a - b);
    if Abs(b - a) < halfWidth {
      assert t * halfWidth == u * halfWidth;
    }
  }

  /** The perceived colour, by the first case that applies: the last photon's colour
      in photon mode; black with the flashlight off; the flashlight's colour faded by
      the transmission for coloured light through the filter; the filter's colour for
      white light through it; white for white light without filter; the flashlight's
      colour otherwise. */
  function PerceivedColor(s: Settings, optics: Optics): (c: Color)
    requires optics.gaussianWidth > 0.0
    ensures s.beamType == SolidBeam && s.flashlightOn && s.filterVisible && s.lightType == Colored ==>
      var lit := optics.wavelengthToColor(s.flashlightWavelength);
      && c.r == lit.r && c.g == lit.g && c.b == lit.b
      && 0.0 <= c.a <= 1.0
      && (c.a == 1.0 <==> s.flashlightWavelength == s.filterWavelength)
      && (c.a == 0.0 <==> Abs(s.filterWavelength - s.flashlightWavelength) >= HalfWidth(optics))
  {
    if s.beamType == Photons then s.lastPhotonColor
    else if !s.flashlightOn then BLACK
    else if s.filterVisible && s.lightType == Colored then
      optics.wavelengthToColor(s.flashlightWavelength).WithAlpha(Transmission(s.flashlightWavelength, s.filterWavelength, HalfWidth(optics)))
    else if s.filterVisible && s.lightType == White then optics.wavelengthToColor(s.filterWavelength)
    else if !s.filterVisible && s.lightType == White then WHITE
    else optics.wavelengthToColor(s.flashlightWavelength)
  }

  /** In photon mode the perceived colour is the last photon's colour, whatever the
      other settings are. */
  lemma PhotonModeShowsLastPhoton(s: Settings, t: Settings, optics: Optics)
    requires optics.gaussianWidth > 0.0
    requires s.beamType == Photons && t.beamType == Photons
    ensures PerceivedColor(s, optics) == s.lastPhotonColor
    ensures s.lastPhotonColor == t.lastPhotonColor ==> PerceivedColor(s, optics) == PerceivedColor(t, optics)
  {
  }

  /** In beam mode the last photon's colour is never consulted. */
  lemma SolidBeamIgnoresLastPhoton(s: Settings, c: Color, optics: Optics)
    requires optics.gaussianWidth > 0.0
    requires s.beamType == SolidBeam
    ensures PerceivedColor(s.(lastPhotonColor := c), optics) == PerceivedColor(s, optics)
  {
  }

  /** In beam mode with the flashlight off the person sees black, whatever the
      filter, the light type and the wavelengths are. */
  lemma FlashlightOffIsBlack(s: Settings, optics: Optics)
    requires optics.gaussianWidth > 0.0
    requires s.beamType == SolidBeam && !s.flashlightOn
    ensures PerceivedColor(s, optics) == BLACK
  {
  }

  /** White light through the filter shows the filter's colour, whatever the
      flashlight's wavelength; without the filter it shows plain white. */
  lemma WhiteLightIgnoresFlashlightWavelength(s: Settings, w: real, optics: Optics)
    requires optics.gaussianWidth > 0.0
    requires s.beamType == SolidBeam && s.flashlightOn && s.lightType == White
    ensures PerceivedColor(s.(flashlightWavelength := w), optics) == PerceivedColor(s, optics)
    ensures PerceivedColor(s, optics) == if s.filterVisible then optics.wavelengthToColor(s.filterWavelength) else WHITE
  {
  }

  /** Coloured light without the filter shows the flashlight's colour, whatever the
      filter's wavelength is set to. */
  lemma HiddenFilterIgnoresFilterWavelength(s: Settings, w: real, optics: Optics)
    requires optics.gaussianWidth > 0.0
    requires s.beamType == SolidBeam && s.flashlightOn && !s.filterVisible && s.lightType == Colored
    ensures PerceivedColor(s.(filterWavelength := w), optics) == PerceivedColor(s, optics)
    ensures PerceivedColor(s, optics) == optics.wavelengthToColor(s.flashlightWavelength)
  {
  }

  /** Coloured light through the filter: exchanging the two wavelengths leaves the
      fading unchanged, and only the flashlight's colour is shown. */
  lemma FilteredAlphaSymmetric(s: Settings, optics: Optics)
    requires optics.gaussianWidth > 0.0
    requires s.beamType == SolidBeam && s.flashlightOn && s.filterVisible && s.lightType == Colored
    ensures PerceivedColor(s, optics).a == PerceivedColor(s.(flashlightWavelength := s.filterWavelength, filterWavelength := s.flashlightWavelength), optics).a
  {
    TransmissionSymmetric(s.flashlightWavelength, s.filterWavelength, HalfWidth(optics));
  }
}
