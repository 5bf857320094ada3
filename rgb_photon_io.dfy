/** Serialisation of RGB photons to flat state records (js/rgb/model/RGBPhotonIO.js). */
module RGBPhotonIO {
  import opened Common
  import opened RGBPhotons

  /** The state record: exactly location, velocity and intensity. The vectors are kept
      as values; the encoding Vector2IO gives them is not part of this model. */
  datatype StateObject = StateObject(location: Vector2, velocity: Vector2, intensity: real)

  /** Serialises a photon. The parameter's type is the source's validator: only an
      RGBPhoton (never null) can be passed. */
  function ToStateObject(p: RGBPhoton): (s: StateObject)
    reads p
    ensures s.location == p.location && s.velocity == p.velocity && s.intensity == p.intensity
  {
    StateObject(p.location, p.velocity, p.intensity)
  }

  /** Builds a new photon from the three recorded fields. */
  method FromStateObject(s: StateObject) returns (p: RGBPhoton)
    ensures fresh(p)
    ensures ToStateObject(p) == s
    ensures p.Data() == PhotonState(s.location, s.velocity, s.intensity)
  {
    p := new RGBPhoton(s.location, s.velocity, s.intensity);
  }

  /** The record determines the photon's value and nothing else: two photons have the
      same record exactly when their three fields agree. Hence a photon rebuilt by
      FromStateObject(ToStateObject(q)) equals q field by field. */
  lemma StateObjectDeterminesPhoton(p: RGBPhoton, q: RGBPhoton)
    ensures ToStateObject(p) == ToStateObject(q) <==> p.Data() == q.Data()
  {
  }

  /** Round trip from a photon through its record and back. */
  method RoundTrip(q: RGBPhoton) returns (p: RGBPhoton)
    ensures fresh(p) && p.Data() == q.Data()
  {
    p := FromStateObject(ToStateObject(q));
    StateObjectDeterminesPhoton(p, q);
  }
}
