/** One colour channel's photon beam on the RGB screen (js/rgb/model/RGBPhotonBeam.js). */
module RGBBeams {
  import opened ColorVisionConstants
  import opened Common
  import opened RGBPhotons

  // ---------------------------------------------------------------------------
  // Specification of one frame, on photon values.

  /** Where the photon would be after dt seconds. */
  function NextLocation(p: PhotonState, dt: real): Vector2
  {
    Advance(p.location, p.velocity, dt)
  }

  /** The surviving photons and the perceived intensity after the loop has visited `rest`. */
  datatype SweepResult = SweepResult(photons: seq<PhotonState>, perceived: real)

  /** The move-or-retire loop. A photon whose next position stays in the beam moves
      there; any other photon is retired, publishing its intensity as the perceived
      intensity, and because the loop index is not stepped back after the removal, the
      photon that shifts into its slot is left untouched this frame. */
  function Sweep(rest: seq<PhotonState>, dt: real, perceived: real): (r: SweepResult)
    ensures |r.photons| <= |rest|
    decreases |rest|
  {
    if rest == [] then SweepResult([], perceived)
    else if InBeam(NextLocation(rest[0], dt)) then
      var t := Sweep(rest[1..], dt, perceived);
      SweepResult([Moved(rest[0], dt)] + t.photons, t.perceived)
    else
      var s := if |rest| == 1 then 1 else 2;
      var t := Sweep(rest[s..], dt, rest[0].intensity);
      SweepResult(rest[1..s] + t.photons, t.perceived)
  }

  /** The zero-intensity photon emitted while the channel is off. */
  function BlackPhoton(beamLength: real): PhotonState
  {
    PhotonState(Vector2(beamLength, BEAM_HEIGHT / 2.0), Vector2(X_VELOCITY, 0.0), 0.0)
  }

  /** One call of updateAnimationFrame: the sweep, then the black photon when the
      channel's intensity is 0. */
  function Frame(photons: seq<PhotonState>, dt: real, intensity: real, perceived: real, beamLength: real): (r: SweepResult)
    ensures |r.photons| == |Sweep(photons, dt, perceived).photons| + (if intensity == 0.0 then 1 else 0)
    ensures intensity == 0.0 ==> r.photons[|r.photons| - 1] == BlackPhoton(beamLength)
    ensures r.photons[..|Sweep(photons, dt, perceived).photons|] == Sweep(photons, dt, perceived).photons
    ensures r.perceived == Sweep(photons, dt, perceived).perceived
  {
    var t := Sweep(photons, dt, perceived);
    if intensity == 0.0 then SweepResult(t.photons + [BlackPhoton(beamLength)], t.perceived) else t
  }

  /** The photon createPhoton builds from draw r: the fanned photon as it would be
      `timeElapsed` seconds after leaving x = beamLength. */
  function Spawned(beamLength: real, intensity: real, timeElapsed: real, r: real): (p: PhotonState)
    ensures p.velocity == Vector2(X_VELOCITY, FanVelocity(r)) && p.intensity == intensity
    ensures p.location.x == beamLength + timeElapsed * X_VELOCITY
    ensures p.location.y == FanStartY(FanVelocity(r)) + timeElapsed * p.velocity.y
  {
    var yVelocity := FanVelocity(r);
    var x := beamLength + X_VELOCITY * timeElapsed;
    var initialY := yVelocity * (25.0 / 60.0) + BEAM_HEIGHT / 2.0;
    var deltaY := yVelocity * timeElapsed;
    PhotonState(Vector2(x, initialY + deltaY), Vector2(X_VELOCITY, yVelocity), intensity)
  }

  // ---------------------------------------------------------------------------
  // Properties of the specification.

  /** `out` is obtained from `src` by dropping photons and moving some of the others
      by one frame, keeping their order. */
  ghost predicate Embeds(out: seq<PhotonState>, src: seq<PhotonState>, dt: real)
    decreases |src|
  {
    if out == [] then true
    else if src == [] then false
    else
      || ((out[0] == src[0] || out[0] == Moved(src[0], dt)) && Embeds(out[1..], src[1..], dt))
      || Embeds(out, src[1..], dt)
  }

  /** The sweep only removes photons and moves survivors: every survivor comes from a
      distinct input photon, in the input's order, with its velocity and intensity. */
  lemma {:induction false} SweepOnlyRemoves(rest: seq<PhotonState>, dt: real, perceived: real)
    ensures Embeds(Sweep(rest, dt, perceived).photons, rest, dt)
    decreases |rest|
  {
    var out := Sweep(rest, dt, perceived).photons;
    if rest == [] {
    } else if InBeam(NextLocation(rest[0], dt)) {
      var t := Sweep(rest[1..], dt, perceived);
      SweepOnlyRemoves(rest[1..], dt, perceived);
      assert out[1..] == t.photons;
    } else {
      var s := if |rest| == 1 then 1 else 2;
      var t := Sweep(rest[s..], dt, rest[0].intensity);
      SweepOnlyRemoves(rest[s..], dt, rest[0].intensity);
      if s == 1 {
        assert out == t.photons;
        assert rest[1..] == rest[s..];
      } else {
        assert out == [rest[1]] + t.photons;
        assert out[1..] == t.photons;
        assert rest[1..][1..] == rest[s..];
        assert Embeds(out, rest[1..], dt);
      }
    }
  }

  /** When every photon's next position stays in the beam, all of them move by one
      frame, none is removed and the perceived intensity is untouched. */
  lemma {:induction false} SweepAllInBeam(rest: seq<PhotonState>, dt: real, perceived: real)
    requires forall m :: 0 <= m < |rest| ==> InBeam(NextLocation(rest[m], dt))
    ensures |Sweep(rest, dt, perceived).photons| == |rest|
    ensures forall m :: 0 <= m < |rest| ==> Sweep(rest, dt, perceived).photons[m] == Moved(rest[m], dt)
    ensures Sweep(rest, dt, perceived).perceived == perceived
    decreases |rest|
  {
    if rest != [] {
      assert InBeam(NextLocation(rest[0], dt));
      SweepAllInBeam(rest[1..], dt, perceived);
    }
  }

  /** The beam invariant is kept: if every photon sits inside the beam before the
      frame, every survivor does afterwards (moved ones were checked, skipped ones did
      not move). */
  lemma {:induction false} SweepKeepsInBeam(rest: seq<PhotonState>, dt: real, perceived: real)
    requires forall m :: 0 <= m < |rest| ==> InBeam(rest[m].location)
    ensures forall m :: 0 <= m < |Sweep(rest, dt, perceived).photons| ==> InBeam(Sweep(rest, dt, perceived).photons[m].location)
    decreases |rest|
  {
    if rest == [] {
    } else if InBeam(NextLocation(rest[0], dt)) {
      SweepKeepsInBeam(rest[1..], dt, perceived);
    } else {
      var s := if |rest| == 1 then 1 else 2;
      SweepKeepsInBeam(rest[s..], dt, rest[0].intensity);
    }
  }

  /** The perceived intensity after the frame is either the one before, or the
      intensity of a photon whose next position left the beam. */
  lemma {:induction false} PerceivedComesFromRetired(rest: seq<PhotonState>, dt: real, perceived: real)
    ensures var p := Sweep(rest, dt, perceived).perceived;
      p == perceived || exists m :: 0 <= m < |rest| && !InBeam(NextLocation(rest[m], dt)) && p == rest[m].intensity
    decreases |rest|
  {
    if rest == [] {
    } else if InBeam(NextLocation(rest[0], dt)) {
      PerceivedComesFromRetired(rest[1..], dt, perceived);
      var p := Sweep(rest, dt, perceived).perceived;
      if p != perceived {
        var m :| 0 <= m < |rest[1..]| && !InBeam(NextLocation(rest[1..][m], dt)) && p == rest[1..][m].intensity;
        assert rest[1..][m] == rest[m + 1];
      }
    } else {
      var s := if |rest| == 1 then 1 else 2;
      PerceivedComesFromRetired(rest[s..], dt, rest[0].intensity);
      var p := Sweep(rest, dt, perceived).perceived;
      if p != rest[0].intensity {
        var m :| 0 <= m < |rest[s..]| && !InBeam(NextLocation(rest[s..][m], dt)) && p == rest[s..][m].intensity;
        assert rest[s..][m] == rest[m + s];
      }
    }
  }

  /** Index k of `rest` is visited by the loop: the loop reaches it instead of passing
      it over after a removal. */
  ghost predicate Visits(rest: seq<PhotonState>, dt: real, k: int)
    decreases |rest|
  {
    && 0 <= k < |rest|
    && (k == 0 ||
        if InBeam(NextLocation(rest[0], dt)) then Visits(rest[1..], dt, k - 1)
        else k >= 2 && Visits(rest[2..], dt, k - 2))
  }

  /** When no visited photon retires, the perceived intensity is untouched. */
  lemma {:induction false} NoRetirementKeepsPerceived(rest: seq<PhotonState>, dt: real, perceived: real)
    requires forall m :: Visits(rest, dt, m) ==> InBeam(NextLocation(rest[m], dt))
    ensures Sweep(rest, dt, perceived).perceived == perceived
    decreases |rest|
  {
    if rest != [] {
      assert Visits(rest, dt, 0);
      forall m | Visits(rest[1..], dt, m)
        ensures InBeam(NextLocation(rest[1..][m], dt))
      {
        assert Visits(rest, dt, m + 1);
        assert rest[1..][m] == rest[m + 1];
      }
      NoRetirementKeepsPerceived(rest[1..], dt, perceived);
    }
  }

  /** The last visited photon to retire publishes the perceived intensity: a retiring
      photon sets it to its own intensity, and it stays when no later visited photon
      retires. */
  lemma {:induction false} LastRetirementPublishes(rest: seq<PhotonState>, dt: real, perceived: real, k: nat)
    requires Visits(rest, dt, k) && !InBeam(NextLocation(rest[k], dt))
    requires forall m :: k < m && Visits(rest, dt, m) ==> InBeam(NextLocation(rest[m], dt))
    ensures Sweep(rest, dt, perceived).perceived == rest[k].intensity
    decreases |rest|
  {
    if k == 0 {
      if |rest| >= 2 {
        forall m | Visits(rest[2..], dt, m)
          ensures InBeam(NextLocation(rest[2..][m], dt))
        {
          assert Visits(rest, dt, m + 2);
          assert rest[2..][m] == rest[m + 2];
        }
        NoRetirementKeepsPerceived(rest[2..], dt, rest[0].intensity);
      }
    } else if InBeam(NextLocation(rest[0], dt)) {
      forall m | k - 1 < m && Visits(rest[1..], dt, m)
        ensures InBeam(NextLocation(rest[1..][m], dt))
      {
        assert Visits(rest, dt, m + 1);
        assert rest[1..][m] == rest[m + 1];
      }
      assert rest[1..][k - 1] == rest[k];
      LastRetirementPublishes(rest[1..], dt, perceived, k - 1);
    } else {
      forall m | k - 2 < m && Visits(rest[2..], dt, m)
        ensures InBeam(NextLocation(rest[2..][m], dt))
      {
        assert Visits(rest, dt, m + 2);
        assert rest[2..][m] == rest[m + 2];
      }
      assert rest[2..][k - 2] == rest[k];
      LastRetirementPublishes(rest[2..], dt, rest[0].intensity, k - 2);
    }
  }

  /** The skipped slot: when a photon retires, the one behind it is kept exactly as it
      was, even if its own next position is outside the beam. */
  lemma RetiredPhotonSkipsNext(rest: seq<PhotonState>, dt: real, perceived: real)
    requires |rest| >= 2 && !InBeam(NextLocation(rest[0], dt))
    ensures Sweep(rest, dt, perceived).photons[0] == rest[1]
  {
  }

  /** createPhoton back-dates the spawn: the new photon is exactly the fanned photon
      the pool's factory would place at x = beamLength, moved on for timeElapsed
      seconds. Its vertical speed is bounded by 30 * FAN_FACTOR. */
  lemma SpawnIsBackdated(beamLength: real, intensity: real, timeElapsed: real, r: real)
    requires 0.0 <= r < 1.0
    ensures Spawned(beamLength, intensity, timeElapsed, r) == Moved(FannedPhoton(beamLength, intensity, r), timeElapsed)
    ensures Spawned(beamLength, intensity, timeElapsed, r).velocity.x == X_VELOCITY
    ensures Abs(Spawned(beamLength, intensity, timeElapsed, r).velocity.y) <= 30.0 * FAN_FACTOR
  {
    FanBounds(r);
  }

  // ---------------------------------------------------------------------------
  // The call at RGBPhotonBeam.js:53 as written: `updateAnimationFrame(newX, newY)`
  // reaches RGBPhoton.updateAnimationFrame(dt), so newX is taken as the time step.

  /** The photon after the call as written: moved by newX times its velocity. */
  function AsWrittenCommit(p: PhotonState, dt: real): PhotonState
  {
    var newX := NextLocation(p, dt).x;
    p.(location := Advance(p.location, p.velocity, newX))
  }

  /** As written, the commit agrees with the intended move only when newX happens to
      equal dt; on an ordinary photon it throws the photon far out of the beam. */
  lemma AsWrittenCommitDiverges(p: PhotonState, dt: real)
    requires p.velocity.x != 0.0
    ensures AsWrittenCommit(p, dt) == Moved(p, dt) <==> NextLocation(p, dt).x == dt
  {
    var newX := NextLocation(p, dt).x;
    if AsWrittenCommit(p, dt) == Moved(p, dt) {
      assert p.location.x + newX * p.velocity.x == p.location.x + dt * p.velocity.x;
      assert (newX - dt) * p.velocity.x == 0.0;
    }
  }

  lemma AsWrittenCommitCounterexample()
    ensures var p := PhotonState(Vector2(100.0, 65.0), Vector2(X_VELOCITY, 0.0), 255.0);
      && InBeam(Moved(p, 1.0 / 60.0).location)
      && AsWrittenCommit(p, 1.0 / 60.0).location == Vector2(-22940.0, 65.0)
      && !InBeam(AsWrittenCommit(p, 1.0 / 60.0).location)
  {
  }

  /** The loop's view of the sweep: survivors so far, then the sweep of what is left
      from index k. */
  function SweepFrom(orig: seq<PhotonState>, k: nat, keptData: seq<PhotonState>, dt: real, perceived: real): SweepResult
    requires k <= |orig|
  {
    var t := Sweep(orig[k..], dt, perceived);
    SweepResult(keptData + t.photons, t.perceived)
  }

  lemma SweepFromMoves(orig: seq<PhotonState>, k: nat, keptData: seq<PhotonState>, dt: real, perceived: real)
    requires k < |orig| && InBeam(NextLocation(orig[k], dt))
    ensures SweepFrom(orig, k + 1, keptData + [Moved(orig[k], dt)], dt, perceived) == SweepFrom(orig, k, keptData, dt, perceived)
  {
    assert orig[k..][1..] == orig[k + 1..];
  }

  lemma SweepFromRetires(orig: seq<PhotonState>, k: nat, keptData: seq<PhotonState>, dt: real, perceived: real)
    requires k < |orig| && !InBeam(NextLocation(orig[k], dt))
    ensures k + 1 < |orig| ==> SweepFrom(orig, k + 2, keptData + [orig[k + 1]], dt, orig[k].intensity) == SweepFrom(orig, k, keptData, dt, perceived)
    ensures k + 1 == |orig| ==> SweepFrom(orig, k + 1, keptData, dt, orig[k].intensity) == SweepFrom(orig, k, keptData, dt, perceived)
  {
    if k + 1 < |orig| {
      assert orig[k..][2..] == orig[k + 2..];
      assert orig[k..][1..2] == [orig[k + 1]];
    }
  }

  lemma SnapshotAt(ps: seq<RGBPhoton>, i: nat)
    requires i < |ps|
    ensures Snapshot(ps)[i] == ps[i].Data()
  {
  }

  lemma ReplaceFirst(kept: seq<PhotonState>, rest: seq<PhotonState>, v: PhotonState)
    requires |rest| > 0
    ensures (kept + rest)[|kept| := v] == (kept + [v]) + rest[1..]
  {
  }

  lemma DropFirst(kept: seq<PhotonState>, rest: seq<PhotonState>)
    requires |rest| > 0
    ensures (kept + rest)[..|kept|] + (kept + rest)[|kept| + 1..] == kept + rest[1..]
    ensures |rest| > 1 ==> kept + rest[1..] == (kept + [rest[1]]) + rest[2..]
  {
    assert (kept + rest)[..|kept|] == kept;
    assert (kept + rest)[|kept| + 1..] == rest[1..];
  }

  // ---------------------------------------------------------------------------
  // The beam object.

  class RGBPhotonBeam {
    var photons: seq<RGBPhoton>
    /** an rgb string naming the channel */
    const color: string
    const beamLength: real
    const intensityProperty: NumberProperty
    const perceivedIntensityProperty: NumberProperty

    /** No photon object is listed twice, so moving one photon moves only one entry. */
    ghost predicate Valid()
      reads this
    {
      Distinct(photons)
    }

    /** The photon objects the beam may change. */
    ghost function PhotonSet(): set<RGBPhoton>
      reads this
    {
      set p | p in photons
    }

    ghost function Contents(): seq<PhotonState>
      reads this, PhotonSet()
    {
      Snapshot(photons)
    }

    constructor (color: string, intensityProperty: NumberProperty, perceivedIntensityProperty: NumberProperty, beamLength: real)
      ensures Valid() && photons == []
      ensures this.color == color && this.beamLength == beamLength
      ensures this.intensityProperty == intensityProperty && this.perceivedIntensityProperty == perceivedIntensityProperty
    {
      photons := [];
      this.color := color;
      this.beamLength := beamLength;
      this.intensityProperty := intensityProperty;
      this.perceivedIntensityProperty := perceivedIntensityProperty;
    }

    /** Moves or retires every photon (committing the checked position (newX, newY)),
        then emits the black photon when the channel is off. */
    method UpdateAnimationFrame(dt: real)
      requires Valid()
      modifies this, PhotonSet(), perceivedIntensityProperty
      ensures Valid()
      ensures var r := Frame(old(Contents()), dt, intensityProperty.value, old(perceivedIntensityProperty.value), beamLength);
        Contents() == r.photons && perceivedIntensityProperty.value == r.perceived
    {
      MoveOrRetire(dt);
      if intensityProperty.value == 0.0 {
        var blackPhoton := new RGBPhoton(Vector2(beamLength, BEAM_HEIGHT / 2.0), Vector2(X_VELOCITY, 0.0), 0.0);
        assert Snapshot(photons + [blackPhoton]) == Snapshot(photons) + [BlackPhoton(beamLength)];
        photons := photons + [blackPhoton];
      }
    }

    /** The loop of updateAnimationFrame: one visit per index, photons whose next
        position is in the beam move there, the others are spliced out. */
    method MoveOrRetire(dt: real)
      requires Valid()
      modifies this, PhotonSet(), perceivedIntensityProperty
      ensures Valid() && PhotonSet() <= old(PhotonSet())
      ensures var r := Sweep(old(Contents()), dt, old(perceivedIntensityProperty.value));
        Contents() == r.photons && perceivedIntensityProperty.value == r.perceived
    {
      ghost var orig := Contents();
      ghost var target := Sweep(orig, dt, perceivedIntensityProperty.value);
      ghost var k := 0;
      ghost var keptData: seq<PhotonState> := [];
      var i := 0;
      while i < |photons|
        invariant Valid() && PhotonSet() <= old(PhotonSet())
        invariant 0 <= k <= |orig|
        invariant i == |keptData| || (k == |orig| && i == |keptData| + 1)
        invariant Snapshot(photons) == keptData + orig[k..]
        invariant SweepFrom(orig, k, keptData, dt, perceivedIntensityProperty.value) == target
        decreases |photons| - i
      {
        k, keptData := Visit(i, dt, orig, k, keptData);
        i := i + 1;
      }
    }

    /** One pass of the loop body at index i. The visited photon is orig[k]: it moves,
        or it is spliced out and the photon that slides into slot i is passed over. */
    method Visit(i: nat, dt: real, ghost orig: seq<PhotonState>, ghost k: nat, ghost keptData: seq<PhotonState>)
      returns (ghost k': nat, ghost keptData': seq<PhotonState>)
      requires Valid() && i == |keptData| && i < |photons| && k <= |orig|
      requires Snapshot(photons) == keptData + orig[k..]
      modifies this, photons[i], perceivedIntensityProperty
      ensures Valid() && PhotonSet() <= old(PhotonSet())
      ensures k < k' <= |orig|
      ensures i + 1 == |keptData'| || (k' == |orig| && i == |keptData'|)
      ensures Snapshot(photons) == keptData' + orig[k'..]
      ensures SweepFrom(orig, k', keptData', dt, perceivedIntensityProperty.value) == SweepFrom(orig, k, keptData, dt, old(perceivedIntensityProperty.value))
    {
      SnapshotAt(photons, i);
      var photon := photons[i];
      assert photon.Data() == orig[k];
      var newX := photon.location.x + dt * photon.velocity.x;
      var newY := photon.location.y + dt * photon.velocity.y;
      assert NextLocation(orig[k], dt) == Vector2(newX, newY);
      ghost var before := Snapshot(photons);
      if newX > 0.0 && newY > 0.0 && newY < BEAM_HEIGHT {
        assert Moved(orig[k], dt) == orig[k].(location := Vector2(newX, newY));
        MoveTo(i, Vector2(newX, newY));
        SweepFromMoves(orig, k, keptData, dt, perceivedIntensityProperty.value);
        ReplaceFirst(keptData, orig[k..], Moved(orig[k], dt));
        keptData' := keptData + [Moved(orig[k], dt)];
        k' := k + 1;
      } else {
        SweepFromRetires(orig, k, keptData, dt, perceivedIntensityProperty.value);
        perceivedIntensityProperty.value := photon.intensity;
        RemoveAt(i);
        assert Snapshot(photons) == before[..i] + before[i + 1..];
        DropFirst(keptData, orig[k..]);
        if k + 1 < |orig| {
          keptData' := keptData + [orig[k + 1]];
          k' := k + 2;
        } else {
          keptData' := keptData;
          k' := k + 1;
        }
      }
    }

    /** Commits a new location for the photon at index i; nothing else changes. */
    method MoveTo(i: nat, location: Vector2)
      requires Valid() && i < |photons|
      modifies photons[i]
      ensures Snapshot(photons) == old(Snapshot(photons))[i := old(photons[i].Data()).(location := location)]
    {
      photons[i].location := location;
      forall j | 0 <= j < |photons| && j != i
        ensures photons[j].Data() == old(photons[j].Data())
      {
        assert photons[j] != photons[i];
      }
    }

    /** Splices out the photon at index i without stepping the loop index back. */
    method RemoveAt(i: nat)
      requires Valid() && i < |photons|
      modifies this
      ensures Valid() && PhotonSet() <= old(PhotonSet())
      ensures photons == old(photons[..i] + photons[i + 1..])
      ensures Snapshot(photons) == old(Snapshot(photons)[..i] + Snapshot(photons)[i + 1..])
    {
      DistinctRemove(photons, i);
      photons := photons[..i] + photons[i + 1..];
    }

    /** Appends one photon, drawn from the fan and back-dated by timeElapsed, when the
        channel's intensity is positive; otherwise changes nothing. */
    method CreatePhoton(timeElapsed: real, rng: RandomSource)
      requires Valid() && rng.Valid()
      modifies this, rng
      ensures Valid()
      ensures intensityProperty.value > 0.0 ==>
        && |photons| == old(|photons|) + 1
        && photons[..old(|photons|)] == old(photons)
        && fresh(photons[old(|photons|)])
        && Contents() == old(Contents()) + [Spawned(beamLength, intensityProperty.value, timeElapsed, rng.draws(old(rng.count)))]
        && rng.count == old(rng.count) + 1
      ensures intensityProperty.value <= 0.0 ==> photons == old(photons) && rng.count == old(rng.count)
    {
      var intensity := intensityProperty.value;
      if intensity > 0.0 {
        var x := beamLength + X_VELOCITY * timeElapsed;
        var r := rng.NextDouble();
        var yVelocity := (r * FAN_FACTOR - FAN_FACTOR / 2.0) * 60.0;
        var initialY := yVelocity * (25.0 / 60.0) + BEAM_HEIGHT / 2.0;
        var deltaY := yVelocity * timeElapsed;
        var y := initialY + deltaY;
        var photon := new RGBPhoton(Vector2(x, y), Vector2(X_VELOCITY, yVelocity), intensity);
        assert photon.Data() == Spawned(beamLength, intensity, timeElapsed, r);
        assert Snapshot(photons) == old(Contents());
        assert Snapshot(photons + [photon]) == Snapshot(photons) + [photon.Data()];
        photons := photons + [photon];
      }
    }

    /** Empties the photon list. */
    method Reset()
      requires Valid()
      modifies this
      ensures Valid() && photons == [] && Contents() == []
    {
      while |photons| > 0
        invariant Valid()
        decreases |photons|
      {
        photons := photons[..|photons| - 1];
      }
    }
  }
}
