/** The photon beam of the single-bulb screen, with its filter
    (js/singlebulb/model/SingleBulbPhotonBeam.js). */
module SingleBulbBeams {
  import opened ColorVisionConstants
  import opened Common
  import opened Perception
  import opened SingleBulbPhotons

  /** What one frame reads besides the photon list and the draws: the screen's
      settings, the optics, where the filter sits and the frame's duration. */
  datatype Ctx = Ctx(settings: Settings, optics: Optics, filterOffset: real, dt: real)

  predicate ValidCtx(c: Ctx)
  {
    c.optics.gaussianWidth > 0.0
  }

  // ---------------------------------------------------------------------------
  // Creation.

  /** The number of naturals i with i < x: the number of passes of a loop
      `for (i = 0; i < x; i++)`. */
  function NaturalsBelow(x: real): (n: nat)
    ensures x <= 0.0 ==> n == 0
    ensures x > 0.0 ==> ((n - 1) as real) < x <= n as real
  {
    if x <= 0.0 then 0 else -((-x).Floor)
  }

  /** How many photons a frame of length dt asks for, given draw r. */
  function NumToCreate(dt: real, r: real): real
    requires dt != 0.0
  {
    r * ((5.0 / dt * 0.016).Floor as real)
  }

  /** At most floor(0.08 / dt) photons per frame, and none at all in a frame longer
      than 0.08 s (so none at the 0.5 s cap of the model's step). */
  lemma CreationBound(dt: real, r: real)
    requires dt > 0.0 && 0.0 <= r < 1.0
    ensures NaturalsBelow(NumToCreate(dt, r)) <= (0.08 / dt).Floor
    ensures dt > 0.08 ==> NaturalsBelow(NumToCreate(dt, r)) == 0
  {
    var q := 5.0 / dt * 0.016;
    QuotientFacts(dt);
    var f := q.Floor;
    var x := NumToCreate(dt, r);
    if f > 0 {
      ScaledBelow(r, f as real);
    } else {
      assert x == r * 0.0 == 0.0;
    }
  }

  /** The batch factor 5/dt*0.016 is 0.08/dt: positive, and below 1 when dt > 0.08. */
  lemma QuotientFacts(dt: real)
    requires dt > 0.0
    ensures 5.0 / dt * 0.016 == 0.08 / dt
    ensures 0.08 / dt > 0.0
    ensures dt > 0.08 ==> 0.08 / dt < 1.0
  {
    assert (0.08 / dt) * dt == 0.08;
  }

  lemma ScaledBelow(r: real, f: real)
    requires 0.0 <= r < 1.0 && f > 0.0
    ensures 0.0 <= r * f < f
  {
  }

  /** The colour of a new white-light photon: three draws, each scaled to 0-255
      and rounded down, fully opaque. */
  function RandomColor(d0: real, d1: real, d2: real): (c: Color)
    requires 0.0 <= d0 < 1.0 && 0.0 <= d1 < 1.0 && 0.0 <= d2 < 1.0
    ensures 0.0 <= c.r <= 255.0 && 0.0 <= c.g <= 255.0 && 0.0 <= c.b <= 255.0 && c.a == 1.0
  {
    Color((d0 * 256.0).Floor as real, (d1 * 256.0).Floor as real, (d2 * 256.0).Floor as real, 1.0)
  }

  /** Draws used per created photon: three for a random colour (white light only),
      one for the fan, one for the start offset. */
  function DrawsPerPhoton(c: Ctx): nat
  {
    if c.settings.lightType == White then 5 else 2
  }

  /** Draws used by n created photons. */
  function DrawsFor(n: nat, c: Ctx): nat
  {
    if n == 0 then 0 else DrawsFor(n - 1, c) + DrawsPerPhoton(c)
  }

  /** A batch of n photons uses 5n draws under white light and 2n otherwise. */
  lemma {:induction false} DrawsForBatch(n: nat, c: Ctx)
    ensures DrawsFor(n, c) == n * DrawsPerPhoton(c)
    ensures DrawsFor(n, c) == if c.settings.lightType == White then 5 * n else 2 * n
  {
    if n > 0 {
      DrawsForBatch(n - 1, c);
    }
  }

  /** The photon created from the draws starting at `ix`: a fanned photon of
      intensity 1 at x = size, pushed back along its velocity by up to one frame. */
  function Created(c: Ctx, size: real, draws: nat -> real, ix: nat): (p: BulbPhoton)
    requires UnitDraws(draws)
    ensures size + c.dt * X_VELOCITY <= p.location.x <= size || size <= p.location.x <= size + c.dt * X_VELOCITY
    ensures p.velocity.x == X_VELOCITY && p.intensity == 1.0 && !p.passedFilter
    ensures p.isWhite == p.wasWhite == (c.settings.lightType == White)
    ensures c.settings.lightType == Colored ==> p.color == c.optics.wavelengthToColor(c.settings.flashlightWavelength)
  {
    var white := c.settings.lightType == White;
    var color := if white then RandomColor(draws(ix), draws(ix + 1), draws(ix + 2))
                 else c.optics.wavelengthToColor(c.settings.flashlightWavelength);
    var k := if white then 3 else 0;
    var p := Pooled(size, 1.0, color, white, draws(ix + k));
    var d := draws(ix + k + 1);
    assert 0.0 <= d * c.dt <= c.dt || c.dt <= d * c.dt <= 0.0;
    p.(location := p.location.(x := p.location.x + d * p.velocity.x * c.dt))
  }

  /** The first n photons created in a frame, the first using the draws from `ix`. */
  function Creations(n: nat, c: Ctx, size: real, draws: nat -> real, ix: nat): (ps: seq<BulbPhoton>)
    requires UnitDraws(draws)
    ensures |ps| == n
  {
    if n == 0 then [] else Creations(n - 1, c, size, draws, ix) + [Created(c, size, draws, ix + DrawsFor(n - 1, c))]
  }

  /** One more pass of the creation loop appends the photon made from the next
      DrawsPerPhoton draws. */
  lemma CreationsStep(i: nat, c: Ctx, size: real, draws: nat -> real, ix: nat)
    requires UnitDraws(draws)
    ensures Creations(i + 1, c, size, draws, ix)
         == Creations(i, c, size, draws, ix) + [Created(c, size, draws, ix + DrawsFor(i, c))]
  {
  }

  // ---------------------------------------------------------------------------
  // One visit of the photon loop, on values.

  /** The filter block applies: the filter is shown, the photon is left of it and has
      not crossed it before. */
  predicate AtFilter(p: BulbPhoton, c: Ctx)
  {
    c.settings.filterVisible && p.location.x < c.filterOffset && !p.passedFilter
  }

  /** The chance to cross the filter. It is computed from the flashlight's wavelength,
      not from the photon's own, and is 0.3 for a photon that left the bulb white. */
  function CrossProbability(p: BulbPhoton, c: Ctx): (prob: real)
    requires ValidCtx(c)
    ensures 0.0 <= prob <= 1.0
    ensures p.wasWhite ==> prob == 0.3
    ensures !p.wasWhite ==> prob == Transmission(c.settings.flashlightWavelength, c.settings.filterWavelength, HalfWidth(c.optics))
  {
    if !p.wasWhite then Transmission(c.settings.flashlightWavelength, c.settings.filterWavelength, HalfWidth(c.optics))
    else 0.3
  }

  /** A photon that got through: a white one takes the filter's colour, a coloured
      one takes the crossing probability as intensity, but at least 0.2. */
  function Crossed(p: BulbPhoton, c: Ctx, prob: real): (q: BulbPhoton)
    ensures q.location == p.location && q.velocity == p.velocity && q.wasWhite == p.wasWhite
    ensures q.passedFilter == p.passedFilter && q.wavelength == p.wavelength && !q.isWhite
    ensures p.isWhite ==> q.color == c.optics.wavelengthToColor(c.settings.filterWavelength) && q.intensity == p.intensity
    ensures !p.isWhite ==> q.color == p.color && q.intensity >= 0.2 && q.intensity >= prob && (q.intensity == 0.2 || q.intensity == prob)
    ensures !p.isWhite && prob <= 1.0 ==> q.intensity <= 1.0
  {
    if p.isWhite then p.(color := c.optics.wavelengthToColor(c.settings.filterWavelength), isWhite := false)
    else p.(intensity := if prob < 0.2 then 0.2 else prob)
  }

  /** Records that the photon is left of the filter. */
  function MarkPassed(p: BulbPhoton, c: Ctx): BulbPhoton
  {
    if p.location.x < c.filterOffset then p.(passedFilter := true) else p
  }

  /** The colour a photon leaving the beam reports to the eye. */
  function RetiredColor(p: BulbPhoton): (col: Color)
    ensures p.isWhite ==> col == WHITE
    ensures !p.isWhite ==> col.r == p.color.r && col.g == p.color.g && col.b == p.color.b
    ensures !p.isWhite && !p.wasWhite ==> col.a == p.intensity
    ensures !p.isWhite && p.wasWhite ==> col == p.color
  {
    if p.isWhite then WHITE
    else if !p.wasWhite then p.color.WithAlpha(p.intensity)
    else p.color
  }

  /** What the loop carries from photon to photon: the last computed crossing
      probability (none before the first crossing), the last photon colour and the
      index of the next draw. */
  datatype SweepState = SweepState(probability: Option<real>, lastPhotonColor: Color, next: nat)

  /** The photon after the filter block, whether the block removed it, and the state. */
  datatype Entered = Entered(photon: BulbPhoton, blocked: bool, state: SweepState)

  /** The filter block of one visit. It keeps the photon's position, motion, origin
      and mark and the last photon colour; it takes one draw exactly when it applies,
      and a photon it removes is returned as it came. */
  function Enter(p: BulbPhoton, c: Ctx, draws: nat -> real, st: SweepState): (e: Entered)
    requires ValidCtx(c)
    ensures e.photon.location == p.location && e.photon.velocity == p.velocity
    ensures e.photon.wasWhite == p.wasWhite && e.photon.passedFilter == p.passedFilter && e.photon.wavelength == p.wavelength
    ensures e.state.lastPhotonColor == st.lastPhotonColor
    ensures e.state.next == if AtFilter(p, c) then st.next + 1 else st.next
    ensures e.blocked ==> AtFilter(p, c) && e.photon == p
    ensures !AtFilter(p, c) ==> e.photon == p && e.state == st
  {
    if AtFilter(p, c) then
      var prob := CrossProbability(p, c);
      var st1 := st.(probability := Some(prob), next := st.next + 1);
      if draws(st.next) >= prob then Entered(p, true, st1) else Entered(Crossed(p, c, prob), false, st1)
    else Entered(p, false, st)
  }

  function Cap(n: nat, len: nat): nat
  {
    if n <= len then n else len
  }

  /** What one visit of the loop does at the head of the unvisited suffix: the
      photons it puts in the kept prefix, how many photons of the suffix it goes past
      and the state afterwards. */
  datatype Step = Step(out: seq<BulbPhoton>, skip: nat, state: SweepState)

  /** The photon a visit keeps when p gets through the filter block and stays in the
      beam: crossed when the block applied, marked when left of the filter, then moved
      by one frame. */
  predicate VisitedImage(q: BulbPhoton, p: BulbPhoton, c: Ctx)
    requires ValidCtx(c)
  {
    var p1 := if AtFilter(p, c) then Crossed(p, c, CrossProbability(p, c)) else p;
    q == Moved(MarkPassed(p1, c), c.dt)
  }

  /** What the loop can leave in p's place: p passed over unchanged, or p visited and kept. */
  predicate Successor(q: BulbPhoton, p: BulbPhoton, c: Ctx)
    requires ValidCtx(c)
  {
    q == p || VisitedImage(q, p, c)
  }

  /** One visit of the loop. The head photon goes through the filter block, is marked
      when left of the filter, and then moves if it is inside the beam or retires,
      reporting its colour. Each `splice` leaves the loop index where it is, so after
      one removal the next photon is passed over unchanged; a photon both blocked
      and out of bounds is spliced twice, which removes the photon behind it as well
      and passes over the one after. The visit goes past at least one photon and
      keeps at most one: the last photon it goes past, visited or passed over. */
  function VisitHead(rest: seq<BulbPhoton>, c: Ctx, draws: nat -> real, st: SweepState): (s: Step)
    requires ValidCtx(c) && rest != []
    ensures 0 < s.skip <= |rest| && |s.out| <= 1
    ensures |s.out| == 1 ==> Successor(s.out[0], rest[s.skip - 1], c)
  {
    var e := Enter(rest[0], c, draws, st);
    var p := MarkPassed(e.photon, c);
    var st1 := if InBeam(p.location) then e.state else e.state.(lastPhotonColor := RetiredColor(p));
    if !e.blocked && InBeam(p.location) then Step([Moved(p, c.dt)], 1, st1)
    else
      var removed := if e.blocked && !InBeam(p.location) then 2 else 1;
      var a := Cap(removed, |rest|);
      var b := Cap(removed + 1, |rest|);
      Step(rest[a..b], b, st1)
  }

  datatype SweepResult = SweepResult(photons: seq<BulbPhoton>, state: SweepState)

  /** The photon loop over the unvisited suffix `rest`, one visit after another. */
  function Sweep(rest: seq<BulbPhoton>, c: Ctx, draws: nat -> real, st: SweepState): (r: SweepResult)
    requires ValidCtx(c)
    ensures |r.photons| <= |rest|
    decreases |rest|
  {
    if rest == [] then SweepResult([], st)
    else
      var s := VisitHead(rest, c, draws, st);
      var t := Sweep(rest[s.skip..], c, draws, s.state);
      SweepResult(s.out + t.photons, t.state)
  }

  /** The transparent black photon that resets the perceived colour: made at the
      filter, already marked as past it. */
  function Sentinel(c: Ctx, r: real): (p: BulbPhoton)
    requires 0.0 <= r < 1.0
    ensures p.location.x == c.filterOffset && p.passedFilter && p.color == TRANSPARENT_BLACK && !p.isWhite
  {
    Pooled(c.filterOffset, 1.0, TRANSPARENT_BLACK, false, r).(passedFilter := true)
  }

  /** The sentinel is due when the last crossing probability of the frame was 0, the
      filter is shown and the person does not already see black. */
  predicate SentinelDue(c: Ctx, st: SweepState): (due: bool)
    requires ValidCtx(c)
    ensures due ==> st.probability == Some(0.0) && c.settings.filterVisible
    ensures due && c.settings.beamType == Photons ==> st.lastPhotonColor != BLACK
    ensures due && c.settings.beamType == SolidBeam ==> c.settings.flashlightOn
  {
    && st.probability == Some(0.0)
    && c.settings.filterVisible
    && PerceivedColor(c.settings.(lastPhotonColor := st.lastPhotonColor), c.optics) != BLACK
  }

  datatype FrameResult = FrameResult(photons: seq<BulbPhoton>, lastPhotonColor: Color, next: nat)

  /** The photons created this frame and the index of the first draw after them. */
  /** With the flashlight on, one sizing draw and DrawsPerPhoton draws per photon, at
      most floor(0.08 / dt) photons for dt > 0; with it off, nothing. */
  function Creation(c: Ctx, size: real, draws: nat -> real, start: nat): (r: (seq<BulbPhoton>, nat))
    requires UnitDraws(draws)
    requires c.settings.flashlightOn ==> c.dt != 0.0
    ensures c.settings.flashlightOn ==> r.1 == start + 1 + |r.0| * DrawsPerPhoton(c)
    ensures c.settings.flashlightOn && c.dt > 0.0 ==> |r.0| <= (0.08 / c.dt).Floor
    ensures !c.settings.flashlightOn ==> r == ([], start)
  {
    if c.settings.flashlightOn then
      var n := NaturalsBelow(NumToCreate(c.dt, draws(start)));
      DrawsForBatch(n, c);
      if c.dt > 0.0 then CreationBound(c.dt, draws(start)); (Creations(n, c, size, draws, start + 1), start + 1 + DrawsFor(n, c))
      else (Creations(n, c, size, draws, start + 1), start + 1 + DrawsFor(n, c))
    else ([], start)
  }

  /** One call of updateAnimationFrame: creation, the photon loop, then the sentinel. */
  function Frame(photons: seq<BulbPhoton>, c: Ctx, size: real, draws: nat -> real, start: nat): (r: FrameResult)
    requires ValidCtx(c) && UnitDraws(draws)
    requires c.settings.flashlightOn ==> c.dt != 0.0
    ensures r.next >= start
    ensures |r.photons| <= |photons| + |Creation(c, size, draws, start).0| + 1
    ensures !c.settings.flashlightOn ==> |r.photons| <= |photons| + 1
    ensures !c.settings.flashlightOn && !c.settings.filterVisible ==> r.next == start && |r.photons| <= |photons|
  {
    var (created, n1) := Creation(c, size, draws, start);
    var sw := Sweep(photons + created, c, draws, SweepState(None, c.settings.lastPhotonColor, n1));
    SweepDrawsForward(photons + created, c, draws, SweepState(None, c.settings.lastPhotonColor, n1));
    HiddenFilterDrawsNothing(photons + created, c, draws, SweepState(None, c.settings.lastPhotonColor, n1));
    if SentinelDue(c, sw.state) then
      FrameResult(sw.photons + [Sentinel(c, draws(sw.state.next))], sw.state.lastPhotonColor, sw.state.next + 1)
    else FrameResult(sw.photons, sw.state.lastPhotonColor, sw.state.next)
  }

  // ---------------------------------------------------------------------------
  // Properties of the specification.

  /** The filter block draws once and records the probability exactly when it
      applies; the photon is removed exactly when the draw is at least the crossing
      probability, so a probability of 0 removes every photon that reaches the
      filter. Without the block nothing is drawn and nothing changes. */
  lemma BlockedIff(p: BulbPhoton, c: Ctx, draws: nat -> real, st: SweepState)
    requires ValidCtx(c) && UnitDraws(draws)
    ensures AtFilter(p, c) ==>
      && (Enter(p, c, draws, st).blocked <==> draws(st.next) >= CrossProbability(p, c))
      && Enter(p, c, draws, st).state == st.(probability := Some(CrossProbability(p, c)), next := st.next + 1)
    ensures AtFilter(p, c) && CrossProbability(p, c) == 0.0 ==> Enter(p, c, draws, st).blocked
    ensures !AtFilter(p, c) ==> Enter(p, c, draws, st) == Entered(p, false, st)
  {
  }

  /** A photon that gets through the filter: a white one takes the filter's colour
      and stops being white, but still remembers it was white, at unchanged
      intensity; a coloured one keeps its colour and gets intensity
      max(probability, 0.2), which lies in [0.2, 1]. Nothing else changes. */
  lemma PassingPhoton(p: BulbPhoton, c: Ctx, draws: nat -> real, st: SweepState)
    requires ValidCtx(c) && AtFilter(p, c) && !Enter(p, c, draws, st).blocked
    ensures var q := Enter(p, c, draws, st).photon;
      && q.location == p.location && q.velocity == p.velocity && q.wasWhite == p.wasWhite
      && q.passedFilter == p.passedFilter && q.wavelength == p.wavelength
      && (p.isWhite ==>
            q.color == c.optics.wavelengthToColor(c.settings.filterWavelength) && !q.isWhite && q.intensity == p.intensity)
      && (!p.isWhite ==>
            && q.color == p.color && !q.isWhite
            && q.intensity == (if CrossProbability(p, c) < 0.2 then 0.2 else CrossProbability(p, c))
            && 0.2 <= q.intensity <= 1.0)
  {
  }

  /** The block fires at most once per photon: a photon that got through is marked
      as past the filter, and the mark survives the frame's move, so the block
      cannot apply to it again. */
  lemma FilterFiresOnce(p: BulbPhoton, c: Ctx, draws: nat -> real, st: SweepState)
    requires ValidCtx(c) && AtFilter(p, c)
    ensures var q := MarkPassed(Enter(p, c, draws, st).photon, c);
      q.passedFilter && !AtFilter(q, c) && !AtFilter(Moved(q, c.dt), c)
  {
  }

  /** The photon a visit has just taken through the block is marked when it is left of
      the filter, whatever the block did to it; marking does not move it. */
  lemma LeftOfFilterIsMarked(p: BulbPhoton, c: Ctx)
    requires p.location.x < c.filterOffset
    ensures MarkPassed(p, c).passedFilter && MarkPassed(p, c).location == p.location
  {
  }

  /** With the filter hidden the loop draws nothing and leaves the probability as it was. */
  lemma {:induction false} HiddenFilterDrawsNothing(rest: seq<BulbPhoton>, c: Ctx, draws: nat -> real, st: SweepState)
    requires ValidCtx(c)
    ensures !c.settings.filterVisible ==> Sweep(rest, c, draws, st).state.probability == st.probability
    ensures !c.settings.filterVisible ==> Sweep(rest, c, draws, st).state.next == st.next
    decreases |rest|
  {
    if rest != [] {
      var s := VisitHead(rest, c, draws, st);
      HiddenFilterDrawsNothing(rest[s.skip..], c, draws, s.state);
    }
  }

  /** The loop only ever computes a zero probability for a photon that left the bulb
      coloured while the flashlight's wavelength lies outside the filter's band: a
      probability of 0 at the end of the loop is either the one it started with or
      says that the flashlight's light is fully blocked. */
  lemma {:induction false} ZeroProbabilityMeansOutOfBand(rest: seq<BulbPhoton>, c: Ctx, draws: nat -> real, st: SweepState)
    requires ValidCtx(c)
    requires Sweep(rest, c, draws, st).state.probability == Some(0.0)
    ensures st.probability == Some(0.0) ||
      Abs(c.settings.filterWavelength - c.settings.flashlightWavelength) >= HalfWidth(c.optics)
    decreases |rest|
  {
    if rest != [] {
      var s := VisitHead(rest, c, draws, st);
      ZeroProbabilityMeansOutOfBand(rest[s.skip..], c, draws, s.state);
      if AtFilter(rest[0], c) && s.state.probability == Some(0.0) {
        assert CrossProbability(rest[0], c) == 0.0;
      }
    }
  }

  /** The last photon colour only changes when some photon of the list is outside the
      beam: photons inside it move on without reporting anything. */
  lemma {:induction false} LastColorChangesOnlyOnRetire(rest: seq<BulbPhoton>, c: Ctx, draws: nat -> real, st: SweepState)
    requires ValidCtx(c)
    requires Sweep(rest, c, draws, st).state.lastPhotonColor != st.lastPhotonColor
    ensures exists m :: 0 <= m < |rest| && !InBeam(rest[m].location)
    decreases |rest|
  {
    var s := VisitHead(rest, c, draws, st);
    var p := MarkPassed(Enter(rest[0], c, draws, st).photon, c);
    assert p.location == rest[0].location;
    if InBeam(rest[0].location) {
      LastColorChangesOnlyOnRetire(rest[s.skip..], c, draws, s.state);
      var m :| 0 <= m < |rest[s.skip..]| && !InBeam(rest[s.skip..][m].location);
      assert rest[s.skip..][m] == rest[m + s.skip];
    }
  }

  /** `out` is obtained from `src` by dropping photons and leaving each of the others
      unchanged or visited, keeping their order. */
  ghost predicate Embeds(out: seq<BulbPhoton>, src: seq<BulbPhoton>, c: Ctx)
    requires ValidCtx(c)
    decreases |src|
  {
    if out == [] then true
    else if src == [] then false
    else (Successor(out[0], src[0], c) && Embeds(out[1..], src[1..], c)) || Embeds(out, src[1..], c)
  }

  lemma {:induction false} EmbedsSkipPrefix(out: seq<BulbPhoton>, src: seq<BulbPhoton>, b: nat, c: Ctx)
    requires ValidCtx(c) && b <= |src| && Embeds(out, src[b..], c)
    ensures Embeds(out, src, c)
    decreases b
  {
    if b > 0 {
      assert src[1..][b - 1..] == src[b..];
      EmbedsSkipPrefix(out, src[1..], b - 1, c);
    }
  }

  lemma {:induction false} EmbedsKeepOne(x: BulbPhoton, out: seq<BulbPhoton>, src: seq<BulbPhoton>, c: Ctx)
    requires ValidCtx(c) && |src| > 0 && Successor(x, src[0], c) && Embeds(out, src[1..], c)
    ensures Embeds([x] + out, src, c)
  {
    assert ([x] + out)[1..] == out;
  }

  /** Every element of an embedded list comes from some element of the source. */
  lemma {:induction false} EmbedsMembers(out: seq<BulbPhoton>, src: seq<BulbPhoton>, c: Ctx)
    requires ValidCtx(c) && Embeds(out, src, c)
    ensures forall i :: 0 <= i < |out| ==> exists m :: 0 <= m < |src| && Successor(out[i], src[m], c)
    decreases |src|
  {
    if out != [] {
      if Successor(out[0], src[0], c) && Embeds(out[1..], src[1..], c) {
        EmbedsMembers(out[1..], src[1..], c);
        forall i | 0 <= i < |out|
          ensures exists m :: 0 <= m < |src| && Successor(out[i], src[m], c)
        {
          if i > 0 {
            var m :| 0 <= m < |src[1..]| && Successor(out[1..][i - 1], src[1..][m], c);
            assert src[1..][m] == src[m + 1];
          }
        }
      } else {
        EmbedsMembers(out, src[1..], c);
        forall i | 0 <= i < |out|
          ensures exists m :: 0 <= m < |src| && Successor(out[i], src[m], c)
        {
          var m :| 0 <= m < |src[1..]| && Successor(out[i], src[1..][m], c);
          assert src[1..][m] == src[m + 1];
        }
      }
    }
  }

  /** The loop only removes photons: every survivor is an input photon, either passed
      over unchanged or visited (through the block, marked, moved), and survivors keep
      their order. */
  lemma {:induction false} SweepOnlyRemoves(rest: seq<BulbPhoton>, c: Ctx, draws: nat -> real, st: SweepState)
    requires ValidCtx(c)
    ensures Embeds(Sweep(rest, c, draws, st).photons, rest, c)
    decreases |rest|
  {
    if rest != [] {
      var s := VisitHead(rest, c, draws, st);
      var t := Sweep(rest[s.skip..], c, draws, s.state).photons;
      SweepOnlyRemoves(rest[s.skip..], c, draws, s.state);
      if |s.out| == 1 {
        var tail := rest[s.skip - 1..];
        assert tail[1..] == rest[s.skip..];
        EmbedsKeepOne(s.out[0], t, tail, c);
        assert s.out == [s.out[0]];
        EmbedsSkipPrefix(s.out + t, rest, s.skip - 1, c);
      } else {
        assert s.out + t == t;
        EmbedsSkipPrefix(t, rest, s.skip, c);
      }
    }
  }

  /** A visited photon that was left of the filter leaves the visit marked. */
  lemma VisitedLeftOfFilterIsMarked(q: BulbPhoton, p: BulbPhoton, c: Ctx)
    requires ValidCtx(c) && VisitedImage(q, p, c) && p.location.x < c.filterOffset
    ensures q.passedFilter && q.location == Advance(p.location, p.velocity, c.dt)
  {
  }

  /** Every survivor of the loop is an input photon passed over unchanged, or an input
      photon visited by the loop; a visited one that was left of the filter is marked.
      A passed-over photon keeps its mark as it was, wherever it is. */
  lemma SurvivorsVisitedOrPassedOver(rest: seq<BulbPhoton>, c: Ctx, draws: nat -> real, st: SweepState)
    requires ValidCtx(c)
    ensures var out := Sweep(rest, c, draws, st).photons;
      forall i :: 0 <= i < |out| ==>
        (exists m :: 0 <= m < |rest| &&
          (out[i] == rest[m] ||
           (VisitedImage(out[i], rest[m], c) && (rest[m].location.x < c.filterOffset ==> out[i].passedFilter))))
  {
    var out := Sweep(rest, c, draws, st).photons;
    SweepOnlyRemoves(rest, c, draws, st);
    EmbedsMembers(out, rest, c);
  }

  /** The draw index only moves forward through the loop. */
  lemma {:induction false} SweepDrawsForward(rest: seq<BulbPhoton>, c: Ctx, draws: nat -> real, st: SweepState)
    requires ValidCtx(c)
    ensures Sweep(rest, c, draws, st).state.next >= st.next
    decreases |rest|
  {
    if rest != [] {
      var s := VisitHead(rest, c, draws, st);
      SweepDrawsForward(rest[s.skip..], c, draws, s.state);
    }
  }

  /** One visit, whatever the filter block decides. A photon that got through and is
      in the beam is kept, marked and moved, and reports nothing. Otherwise the
      visited photon is removed (with the photon behind it when it was blocked and is
      out of bounds), the next photon is passed over unchanged, and an out-of-beam
      photon reports its retired colour. */
  lemma VisitOutcome(rest: seq<BulbPhoton>, c: Ctx, draws: nat -> real, st: SweepState)
    requires ValidCtx(c) && rest != []
    ensures var e := Enter(rest[0], c, draws, st);
      var p := MarkPassed(e.photon, c);
      var s := VisitHead(rest, c, draws, st);
      && p.location == rest[0].location
      && (InBeam(rest[0].location) ==> s.state == e.state)
      && (!InBeam(rest[0].location) ==> s.state == e.state.(lastPhotonColor := RetiredColor(p)))
      && (!e.blocked && InBeam(rest[0].location) ==> s.out == [Moved(p, c.dt)] && s.skip == 1)
      && (e.blocked || !InBeam(rest[0].location) ==>
            var gone := if e.blocked && !InBeam(rest[0].location) then 2 else 1;
            && s.out == (if gone < |rest| then [rest[gone]] else [])
            && s.skip == (if gone < |rest| then gone + 1 else |rest|))
  {
  }

  /** A photon removed by a single splice (retired, or blocked but in bounds) takes
      nothing else along, and the photon behind it is passed over unchanged, even when
      it is left of the filter and unmarked. */
  lemma SplicePassesOverNext(p: BulbPhoton, q: BulbPhoton, more: seq<BulbPhoton>, c: Ctx, draws: nat -> real, st: SweepState)
    requires ValidCtx(c)
    requires var e := Enter(p, c, draws, st); e.blocked != !InBeam(p.location)
    ensures var s := VisitHead([p, q] + more, c, draws, st);
      Sweep([p, q] + more, c, draws, st).photons == [q] + Sweep(more, c, draws, s.state).photons
  {
    var rest := [p, q] + more;
    assert rest[0] == p && rest[1] == q && rest[2..] == more;
    VisitOutcome(rest, c, draws, st);
    var s := VisitHead(rest, c, draws, st);
    assert s.skip == 2 && s.out == [q];
  }

  /** A photon blocked at the filter and out of bounds is spliced twice: the photon
      behind it is removed without a visit, and the one after that is passed over. */
  lemma DoubleSplice(p: BulbPhoton, q: BulbPhoton, r: BulbPhoton, more: seq<BulbPhoton>, c: Ctx, draws: nat -> real, st: SweepState)
    requires ValidCtx(c) && AtFilter(p, c) && draws(st.next) >= CrossProbability(p, c) && !InBeam(p.location)
    ensures var st1 := st.(probability := Some(CrossProbability(p, c)), next := st.next + 1,
                           lastPhotonColor := RetiredColor(MarkPassed(p, c)));
      Sweep([p, q, r] + more, c, draws, st).photons == [r] + Sweep(more, c, draws, st1).photons
  {
    var rest := [p, q, r] + more;
    assert rest[0] == p && rest[2] == r && rest[3..] == more;
    var e := Enter(p, c, draws, st);
    assert e.blocked && e.photon == p;
    VisitOutcome(rest, c, draws, st);
    var s := VisitHead(rest, c, draws, st);
    assert s.skip == 3 && s.out == [r];
    assert s.state == st.(probability := Some(CrossProbability(p, c)), next := st.next + 1,
                          lastPhotonColor := RetiredColor(MarkPassed(p, c)));
  }

  /** The sentinel is appended exactly when it is due; the photons before it are
      those the loop kept. */
  lemma SentinelOnlyWhenDue(photons: seq<BulbPhoton>, c: Ctx, size: real, draws: nat -> real, start: nat)
    requires ValidCtx(c) && UnitDraws(draws)
    requires c.settings.flashlightOn ==> c.dt != 0.0
    ensures var (created, n1) := Creation(c, size, draws, start);
      var sw := Sweep(photons + created, c, draws, SweepState(None, c.settings.lastPhotonColor, n1));
      var r := Frame(photons, c, size, draws, start);
      && r.photons[..|sw.photons|] == sw.photons
      && (|r.photons| == |sw.photons| + 1 <==> SentinelDue(c, sw.state))
      && (|r.photons| == |sw.photons| || |r.photons| == |sw.photons| + 1)
      && (SentinelDue(c, sw.state) ==> r.photons[|sw.photons|] == Sentinel(c, draws(sw.state.next)))
      && r.lastPhotonColor == sw.state.lastPhotonColor
  {
  }

  /** With the flashlight off nothing is created and no creation draw is taken. */
  lemma NoCreationWhileOff(c: Ctx, size: real, draws: nat -> real, start: nat)
    requires UnitDraws(draws) && !c.settings.flashlightOn
    ensures Creation(c, size, draws, start) == ([], start)
  {
  }

  /** The list after reset: every photon at x = 0, nothing else changed. */
  function Parked(ps: seq<BulbPhoton>): (qs: seq<BulbPhoton>)
    ensures |qs| == |ps|
    ensures forall i :: 0 <= i < |ps| ==> qs[i].location.x == 0.0 && qs[i].location.y == ps[i].location.y
    ensures forall i :: 0 <= i < |ps| ==> qs[i].(location := ps[i].location) == ps[i]
  {
    seq(|ps|, i requires 0 <= i < |ps| => ps[i].(location := ps[i].location.(x := 0.0)))
  }

  /** A photon at x = 0 is out of the beam when the loop reaches it, whatever the
      filter block does to it, so its visit retires it (lines 109-128). */
  lemma ParkedPhotonRetires(p: BulbPhoton, c: Ctx, draws: nat -> real, st: SweepState)
    requires ValidCtx(c) && p.location.x == 0.0
    ensures var q := MarkPassed(Enter(p, c, draws, st).photon, c);
      q.location == p.location && !InBeam(q.location)
  {
  }

  /** The frame after a reset: every photon at x = 0 is out of the beam when visited,
      so every visited photon retires. Each retirement passes over the photon behind
      it, which survives the frame unchanged, still at x = 0; at most half of the
      photons survive. */
  lemma {:induction false} ParkedFrameKeepsPassedOver(rest: seq<BulbPhoton>, c: Ctx, draws: nat -> real, st: SweepState)
    requires ValidCtx(c)
    requires forall m :: 0 <= m < |rest| ==> rest[m].location.x == 0.0
    ensures var out := Sweep(rest, c, draws, st).photons;
      && 2 * |out| <= |rest|
      && forall i :: 0 <= i < |out| ==> out[i].location.x == 0.0 && exists m :: 0 <= m < |rest| && out[i] == rest[m]
    decreases |rest|
  {
    if rest != [] {
      var s := VisitHead(rest, c, draws, st);
      RetiringVisitKeepsPassedOver(rest, c, draws, st);
      var tail := rest[s.skip..];
      forall m | 0 <= m < |tail|
        ensures tail[m].location.x == 0.0
      {
        assert tail[m] == rest[m + s.skip];
      }
      ParkedFrameKeepsPassedOver(tail, c, draws, s.state);
      var t := Sweep(tail, c, draws, s.state).photons;
      PrependPassedOver(s.out, t, rest, s.skip);
    }
  }

  /** A visit of a photon that is out of the beam keeps nothing but the photon it
      passes over. */
  lemma RetiringVisitKeepsPassedOver(rest: seq<BulbPhoton>, c: Ctx, draws: nat -> real, st: SweepState)
    requires ValidCtx(c) && rest != [] && rest[0].location.x == 0.0
    ensures var s := VisitHead(rest, c, draws, st);
      s.out == [] || (s.skip >= 2 && s.out == [rest[s.skip - 1]])
  {
    VisitOutcome(rest, c, draws, st);
    assert !InBeam(rest[0].location);
  }

  /** Survivors drawn from `rest` stay drawn from it when the photon passed over is
      put in front of them. */
  lemma PrependPassedOver(out: seq<BulbPhoton>, t: seq<BulbPhoton>, rest: seq<BulbPhoton>, skip: nat)
    requires 0 < skip <= |rest|
    requires out == [] || (skip >= 2 && out == [rest[skip - 1]])
    requires rest[skip - 1].location.x == 0.0
    requires 2 * |t| <= |rest| - skip
    requires forall i :: 0 <= i < |t| ==> t[i].location.x == 0.0 && exists m :: 0 <= m < |rest[skip..]| && t[i] == rest[skip..][m]
    ensures 2 * |out + t| <= |rest|
    ensures forall i :: 0 <= i < |out + t| ==> (out + t)[i].location.x == 0.0 && exists m :: 0 <= m < |rest| && (out + t)[i] == rest[m]
  {
    forall i | 0 <= i < |out + t|
      ensures (out + t)[i].location.x == 0.0 && exists m :: 0 <= m < |rest| && (out + t)[i] == rest[m]
    {
      if i < |out| {
        assert (out + t)[i] == rest[skip - 1];
      } else {
        var m :| 0 <= m < |rest[skip..]| && t[i - |out|] == rest[skip..][m];
        assert (out + t)[i] == rest[m + skip];
      }
    }
  }

  /** After a reset the beam is not empty one frame later: with the filter hidden,
      the first parked photon retires and the second is passed over, so the frame
      ends with that photon listed at x = 0. */
  lemma ParkedPairLeavesOne(p: BulbPhoton, q: BulbPhoton, c: Ctx, draws: nat -> real, st: SweepState)
    requires ValidCtx(c) && !c.settings.filterVisible
    ensures var out := Sweep(Parked([p, q]), c, draws, st).photons;
      out == [Parked([p, q])[1]] && out[0].location.x == 0.0
  {
    var ps := Parked([p, q]);
    assert ps == [ps[0], ps[1]] + [];
    ParkedPhotonRetires(ps[0], c, draws, st);
    assert Enter(ps[0], c, draws, st).photon == ps[0];
    SplicePassesOverNext(ps[0], ps[1], [], c, draws, st);
  }

  /** The visit of a photon that is not at the filter, when no photon follows it: an
      in-beam photon moves by dt times its velocity (marked when left of the filter)
      and reports nothing; an out-of-beam one is removed and reports opaque white
      if it is still white, its colour faded to its intensity if it left the bulb
      coloured, and its colour unchanged if it was recoloured by the filter. */
  lemma LonePhotonVisit(p: BulbPhoton, c: Ctx, draws: nat -> real, st: SweepState)
    requires ValidCtx(c) && !AtFilter(p, c)
    ensures var r := Sweep([p], c, draws, st);
      && (InBeam(p.location) ==>
            && r.state == st && |r.photons| == 1
            && r.photons[0].location == Advance(p.location, p.velocity, c.dt)
            && r.photons[0].passedFilter == (p.passedFilter || p.location.x < c.filterOffset)
            && r.photons[0].(location := p.location, passedFilter := p.passedFilter) == p)
      && (!InBeam(p.location) ==>
            && r.photons == [] && r.state.probability == st.probability && r.state.next == st.next
            && r.state.lastPhotonColor ==
                 (if p.isWhite then Color(255.0, 255.0, 255.0, 1.0)
                  else if !p.wasWhite then p.color.(a := p.intensity)
                  else p.color))
  {
    assert [p][1..] == [];
  }

  // ---------------------------------------------------------------------------
  // Loop bookkeeping: the kept prefix, then the sweep of what is left.

  /** Where the loop stands: orig[k] is the next photon to visit, `kept` the values
      of the photons listed before it, `state` what the loop carries. */
  datatype Cursor = Cursor(k: nat, kept: seq<BulbPhoton>, state: SweepState)

  /** The kept prefix followed by the sweep of what is left. */
  function SweepFrom(orig: seq<BulbPhoton>, cur: Cursor, c: Ctx, draws: nat -> real): SweepResult
    requires ValidCtx(c) && cur.k <= |orig|
  {
    var t := Sweep(orig[cur.k..], c, draws, cur.state);
    SweepResult(cur.kept + t.photons, t.state)
  }

  /** The cursor after one visit: the visited photon moves into the kept prefix, or
      it (and its successor when it is blocked and out of bounds) is dropped and the
      photon after them is kept unvisited. */
  function Visited(orig: seq<BulbPhoton>, cur: Cursor, c: Ctx, draws: nat -> real): (next: Cursor)
    requires ValidCtx(c) && cur.k < |orig|
    ensures cur.k < next.k <= |orig|
    ensures |next.kept| == |cur.kept| + 1 || (next.k == |orig| && |next.kept| == |cur.kept|)
  {
    var e := Enter(orig[cur.k], c, draws, cur.state);
    var p := MarkPassed(e.photon, c);
    var st1 := if InBeam(p.location) then e.state else e.state.(lastPhotonColor := RetiredColor(p));
    if !e.blocked && InBeam(p.location) then
      Cursor(cur.k + 1, cur.kept + [Moved(p, c.dt)], st1)
    else
      var removed := if e.blocked && !InBeam(p.location) then 2 else 1;
      var a := Cap(removed, |orig| - cur.k);
      var b := Cap(removed + 1, |orig| - cur.k);
      Cursor(cur.k + b, cur.kept + orig[cur.k + a..cur.k + b], st1)
  }

  /** A visit does not change what the loop ends with. */
  lemma VisitedPreservesSweep(orig: seq<BulbPhoton>, cur: Cursor, c: Ctx, draws: nat -> real)
    requires ValidCtx(c) && cur.k < |orig|
    ensures SweepFrom(orig, Visited(orig, cur, c, draws), c, draws) == SweepFrom(orig, cur, c, draws)
  {
    var rest := orig[cur.k..];
    var s := VisitHead(rest, c, draws, cur.state);
    VisitedIsVisitHead(orig, cur, c, draws);
    assert rest[s.skip..] == orig[cur.k + s.skip..];
    var t := Sweep(orig[cur.k + s.skip..], c, draws, s.state);
    AppendAssoc(cur.kept, s.out, t.photons);
  }

  /** A visit in terms of the loop's indices is the visit at the head of the
      unvisited suffix. */
  lemma VisitedIsVisitHead(orig: seq<BulbPhoton>, cur: Cursor, c: Ctx, draws: nat -> real)
    requires ValidCtx(c) && cur.k < |orig|
    ensures var s := VisitHead(orig[cur.k..], c, draws, cur.state);
      Visited(orig, cur, c, draws) == Cursor(cur.k + s.skip, cur.kept + s.out, s.state)
  {
    var rest := orig[cur.k..];
    assert rest[0] == orig[cur.k];
    forall a: nat, b: nat | a <= b <= |rest|
      ensures rest[a..b] == orig[cur.k + a..cur.k + b]
    {
    }
  }

  lemma AppendAssoc(x: seq<BulbPhoton>, y: seq<BulbPhoton>, z: seq<BulbPhoton>)
    ensures (x + y) + z == x + (y + z)
  {
  }

  lemma SnapshotAt(ps: seq<SingleBulbPhoton>, i: nat)
    requires i < |ps|
    ensures Snapshot(ps)[i] == ps[i].Data()
  {
  }

  lemma ReplaceFirst(kept: seq<BulbPhoton>, rest: seq<BulbPhoton>, v: BulbPhoton)
    requires |rest| > 0
    ensures (kept + rest)[|kept| := v] == (kept + [v]) + rest[1..]
  {
  }

  /** Removing the element at |kept| from kept + rest, whatever it was set to. */
  lemma DropAt(kept: seq<BulbPhoton>, rest: seq<BulbPhoton>, x: BulbPhoton)
    requires |rest| > 0
    ensures var s := (kept + rest)[|kept| := x]; s[..|kept|] + s[|kept| + 1..] == kept + rest[1..]
    ensures (kept + rest)[..|kept|] + (kept + rest)[|kept| + 1..] == kept + rest[1..]
  {
    var s := (kept + rest)[|kept| := x];
    assert s[..|kept|] == kept;
    assert s[|kept| + 1..] == rest[1..];
    assert (kept + rest)[..|kept|] == kept;
    assert (kept + rest)[|kept| + 1..] == rest[1..];
  }

  /** The unvisited part after removals: the photon passed over, then the rest. */
  lemma Regroup(kept: seq<BulbPhoton>, orig: seq<BulbPhoton>, i: nat, a: nat, b: nat)
    requires i + a <= i + b <= |orig|
    ensures kept + orig[i + a..] == (kept + orig[i + a..i + b]) + orig[i + b..]
    ensures i + 2 <= |orig| ==> orig[i + 1..][1..] == orig[i + 2..]
  {
    assert orig[i + a..] == orig[i + a..i + b] + orig[i + b..];
  }

  // ---------------------------------------------------------------------------
  // The beam object.

  class SingleBulbPhotonBeam {
    var photons: seq<SingleBulbPhoton>
    /** the length of the beam; new photons start at x = size */
    const size: real

    /** No photon object is listed twice. */
    ghost predicate Valid()
      reads this
    {
      Distinct(photons)
    }

    ghost function PhotonSet(): set<SingleBulbPhoton>
      reads this
    {
      set p | p in photons
    }

    ghost function Contents(): seq<BulbPhoton>
      reads this, PhotonSet()
    {
      Snapshot(photons)
    }

    constructor (size: real)
      ensures Valid() && photons == [] && this.size == size
    {
      photons := [];
      this.size := size;
    }

    /** The hook run when the flashlight is switched off: one transparent black
        photon, not white, is appended at x = size. */
    method FlashlightTurnedOff(rng: RandomSource)
      requires Valid() && rng.Valid()
      modifies this, rng
      ensures Valid() && rng.count == old(rng.count) + 1 && fresh(PhotonSet() - old(PhotonSet()))
      ensures Contents() == old(Contents()) + [Pooled(size, 1.0, TRANSPARENT_BLACK, false, rng.draws(old(rng.count)))]
    {
      var photon := CreateFromPool(size, 1.0, TRANSPARENT_BLACK, false, rng);
      Push(photon);
    }

    /** One frame: create photons while the flashlight is on, run the photon loop,
        then append the sentinel when it is due. Returns the new last photon colour. */
    method UpdateAnimationFrame(c: Ctx, rng: RandomSource) returns (lastPhotonColor: Color)
      requires Valid() && rng.Valid() && ValidCtx(c)
      requires c.settings.flashlightOn ==> c.dt != 0.0
      modifies this, PhotonSet(), rng
      ensures Valid()
      ensures var r := Frame(old(Contents()), c, size, rng.draws, old(rng.count));
        Contents() == r.photons && lastPhotonColor == r.lastPhotonColor && rng.count == r.next
    {
      ghost var created := Creation(c, size, rng.draws, rng.count);
      if c.settings.flashlightOn {
        CreatePhotons(c, rng);
      }
      assert Contents() == old(Contents()) + created.0 && rng.count == created.1;
      ghost var sw := Sweep(old(Contents()) + created.0, c, rng.draws, SweepState(None, c.settings.lastPhotonColor, created.1));
      var probability, last := MoveFilterOrRetire(c, rng);
      assert Contents() == sw.photons && SweepState(probability, last, rng.count) == sw.state;
      EmitSentinel(c, rng, probability, last);
      lastPhotonColor := last;
    }

    /** Lines 132-136: the transparent black photon, made at the filter and marked as
        past it, is appended when the sentinel is due. */
    method EmitSentinel(c: Ctx, rng: RandomSource, probability: Option<real>, last: Color)
      requires Valid() && rng.Valid() && ValidCtx(c)
      modifies this, rng
      ensures Valid()
      ensures SentinelDue(c, SweepState(probability, last, old(rng.count))) ==>
        Contents() == old(Contents()) + [Sentinel(c, rng.draws(old(rng.count)))] && rng.count == old(rng.count) + 1
      ensures !SentinelDue(c, SweepState(probability, last, old(rng.count))) ==>
        Contents() == old(Contents()) && rng.count == old(rng.count)
    {
      if probability == Some(0.0) && c.settings.filterVisible
        && PerceivedColor(c.settings.(lastPhotonColor := last), c.optics) != BLACK
      {
        var blackPhoton := CreateFromPool(c.filterOffset, 1.0, TRANSPARENT_BLACK, false, rng);
        blackPhoton.passedFilter := true;
        Push(blackPhoton);
      }
    }

    /** photons.push(p) for a photon not yet listed. */
    method Push(p: SingleBulbPhoton)
      requires Valid() && p !in photons
      modifies this
      ensures Valid() && photons == old(photons) + [p]
      ensures PhotonSet() == old(PhotonSet()) + {p}
      ensures Contents() == old(Contents()) + [p.Data()]
    {
      assert Snapshot(photons + [p]) == Snapshot(photons) + [p.Data()];
      photons := photons + [p];
    }

    /** The creation part of the frame (flashlight on): one draw sizes the batch,
        then each photon takes its colour, its fan and its start offset from the
        draws that follow. */
    method CreatePhotons(c: Ctx, rng: RandomSource)
      requires Valid() && rng.Valid() && c.settings.flashlightOn && c.dt != 0.0
      modifies this, rng
      ensures Valid() && fresh(PhotonSet() - old(PhotonSet()))
      ensures var created := Creation(c, size, rng.draws, old(rng.count));
        Contents() == old(Contents()) + created.0 && rng.count == created.1
    {
      var r := rng.NextDouble();
      var numToCreate := r * ((5.0 / c.dt * 0.016).Floor as real);
      assert numToCreate == NumToCreate(c.dt, rng.draws(old(rng.count)));
      CreateBatch(c, rng, numToCreate);
    }

    /** The creation loop: `for (i = 0; i < numToCreate; i++)`, one photon per pass. */
    method CreateBatch(c: Ctx, rng: RandomSource, numToCreate: real)
      requires Valid() && rng.Valid()
      modifies this, rng
      ensures Valid() && fresh(PhotonSet() - old(PhotonSet()))
      ensures Contents() == old(Contents()) + Creations(NaturalsBelow(numToCreate), c, size, rng.draws, old(rng.count))
      ensures rng.count == old(rng.count) + DrawsFor(NaturalsBelow(numToCreate), c)
    {
      ghost var n := NaturalsBelow(numToCreate);
      ghost var start := rng.count;
      ghost var base := Contents();
      ghost var baseSet := PhotonSet();
      var i := 0;
      while (i as real) < numToCreate
        invariant 0 <= i <= n
        invariant Valid() && fresh(PhotonSet() - baseSet)
        invariant rng.count == start + DrawsFor(i, c)
        invariant Contents() == base + Creations(i, c, size, rng.draws, start)
        decreases n - i
      {
        var newPhoton := CreateNext(c, rng, i, start, base);
        i := i + 1;
      }
    }

    /** One pass of the creation loop, photon and push: the list grows by the photon
        made from the next DrawsPerPhoton draws. */
    method CreateNext(c: Ctx, rng: RandomSource, ghost i: nat, ghost start: nat, ghost base: seq<BulbPhoton>) returns (newPhoton: SingleBulbPhoton)
      requires Valid() && rng.Valid()
      requires rng.count == start + DrawsFor(i, c)
      requires Contents() == base + Creations(i, c, size, rng.draws, start)
      modifies this, rng
      ensures Valid() && fresh(newPhoton) && PhotonSet() == old(PhotonSet()) + {newPhoton}
      ensures rng.count == start + DrawsFor(i + 1, c)
      ensures Contents() == base + Creations(i + 1, c, size, rng.draws, start)
    {
      newPhoton := CreateOne(c, rng);
      Push(newPhoton);
      CreationsStep(i, c, size, rng.draws, start);
    }

    /** The new photon of one pass: the colour (three draws for white light, the
        flashlight's colour otherwise), a photon from the pool, and a back-dating
        of its x by a random share of one frame. */
    method CreateOne(c: Ctx, rng: RandomSource) returns (newPhoton: SingleBulbPhoton)
      requires rng.Valid()
      modifies rng
      ensures fresh(newPhoton)
      ensures rng.count == old(rng.count) + DrawsPerPhoton(c)
      ensures newPhoton.Data() == Created(c, size, rng.draws, old(rng.count))
    {
      var white := c.settings.lightType == White;
      var newColor: Color;
      if white {
        var d0 := rng.NextDouble();
        var d1 := rng.NextDouble();
        var d2 := rng.NextDouble();
        newColor := Color((d0 * 256.0).Floor as real, (d1 * 256.0).Floor as real, (d2 * 256.0).Floor as real, 1.0);
      } else {
        newColor := c.optics.wavelengthToColor(c.settings.flashlightWavelength);
      }
      newPhoton := CreateFromPool(size, 1.0, newColor, white, rng);
      var d := rng.NextDouble();
      newPhoton.location := newPhoton.location.(x := newPhoton.location.x + d * newPhoton.velocity.x * c.dt);
    }

    /** The photon loop (lines 64-129): every visit may splice the list, and the
        index steps on regardless. Returns the last crossing probability and the
        last photon colour. */
    method MoveFilterOrRetire(c: Ctx, rng: RandomSource) returns (probability: Option<real>, last: Color)
      requires Valid() && rng.Valid() && ValidCtx(c)
      modifies this, PhotonSet(), rng
      ensures Valid()
      ensures var r := Sweep(old(Contents()), c, rng.draws, SweepState(None, c.settings.lastPhotonColor, old(rng.count)));
        Contents() == r.photons && SweepState(probability, last, rng.count) == r.state
    {
      ghost var orig := Contents();
      ghost var target := Sweep(orig, c, rng.draws, SweepState(None, c.settings.lastPhotonColor, rng.count));
      ghost var k := 0;
      ghost var keptData: seq<BulbPhoton> := [];
      probability := None;
      last := c.settings.lastPhotonColor;
      var j := 0;
      assert orig[0..] == orig;
      while j < |photons|
        invariant Valid() && PhotonSet() <= old(PhotonSet()) && rng.Valid()
        invariant 0 <= k <= |orig|
        invariant j == |keptData| || (k == |orig| && j == |keptData| + 1)
        invariant Snapshot(photons) == keptData + orig[k..]
        invariant SweepFrom(orig, Cursor(k, keptData, SweepState(probability, last, rng.count)), c, rng.draws) == target
        decreases |photons| - j
      {
        ghost var cur := Cursor(k, keptData, SweepState(probability, last, rng.count));
        probability, last, k, keptData := Visit(j, c, rng, probability, last, orig, k, keptData);
        VisitedPreservesSweep(orig, cur, c, rng.draws);
        j := j + 1;
      }
    }

    /** One pass of the loop body at index j, where orig[k] sits. */
    method Visit(j: nat, c: Ctx, rng: RandomSource, probability: Option<real>, last: Color,
                 ghost orig: seq<BulbPhoton>, ghost k: nat, ghost keptData: seq<BulbPhoton>)
      returns (probability': Option<real>, last': Color, ghost k': nat, ghost keptData': seq<BulbPhoton>)
      requires Valid() && rng.Valid() && ValidCtx(c)
      requires j == |keptData| && j < |photons| && k <= |orig|
      requires Snapshot(photons) == keptData + orig[k..]
      modifies this, photons[j], rng
      ensures Valid() && PhotonSet() <= old(PhotonSet())
      ensures k < |orig| && Cursor(k', keptData', SweepState(probability', last', rng.count))
        == Visited(orig, Cursor(k, keptData, SweepState(probability, last, old(rng.count))), c, rng.draws)
      ensures Snapshot(photons) == keptData' + orig[k'..]
    {
      SnapshotAt(photons, j);
      ghost var st := SweepState(probability, last, rng.count);
      ghost var e := Enter(orig[k], c, rng.draws, st);
      var blocked: bool, photon: SingleBulbPhoton;
      blocked, probability', photon := CrossFilter(j, c, rng, probability, last);
      assert SweepState(probability', last, rng.count) == e.state;
      ghost var p := MarkPassed(e.photon, c);
      var inBeam := MarkThenMove(j, photon, blocked, c);
      last' := last;
      if !inBeam {
        if photon.isWhite {
          last' := WHITE;
        } else {
          var colorWithIntensity := photon.color;
          if !photon.wasWhite {
            colorWithIntensity := colorWithIntensity.WithAlpha(photon.intensity);
          }
          last' := colorWithIntensity;
        }
        assert last' == RetiredColor(p);
      }
      if !blocked && inBeam {
        ReplaceFirst(keptData, orig[k..], Moved(p, c.dt));
        keptData' := keptData + [Moved(p, c.dt)];
        k' := k + 1;
        assert Visited(orig, Cursor(k, keptData, st), c, rng.draws) == Cursor(k', keptData', e.state);
      } else {
        k', keptData' := Splice(j, c, orig, k, keptData, blocked, inBeam);
        assert Visited(orig, Cursor(k, keptData, st), c, rng.draws)
            == Cursor(k', keptData', if inBeam then e.state else e.state.(lastPhotonColor := RetiredColor(p)));
      }
    }

    /** The removals of one visit: the visited photon (unless the filter block already
        removed it), and a second splice at the same index when a blocked photon is
        also out of bounds. */
    method Splice(j: nat, c: Ctx, ghost orig: seq<BulbPhoton>, ghost k: nat, ghost keptData: seq<BulbPhoton>, blocked: bool, inBeam: bool)
      returns (ghost k': nat, ghost keptData': seq<BulbPhoton>)
      requires Valid() && j == |keptData| && k < |orig| && (blocked || !inBeam)
      requires !blocked ==> j < |photons| && Snapshot(photons) == (keptData + orig[k..])[j := Snapshot(photons)[j]]
      requires blocked ==> Snapshot(photons) == keptData + orig[k + 1..]
      modifies this
      ensures Valid() && PhotonSet() <= old(PhotonSet())
      ensures var removed := if blocked && !inBeam then 2 else 1;
        k' == k + Cap(removed + 1, |orig| - k) && keptData' == keptData + orig[k + Cap(removed, |orig| - k)..k']
      ensures Snapshot(photons) == keptData' + orig[k'..]
    {
      var removed := if blocked && !inBeam then 2 else 1;
      ghost var a := Cap(removed, |orig| - k);
      ghost var b := Cap(removed + 1, |orig| - k);
      Regroup(keptData, orig, k, a, b);
      if !blocked {
        DropAt(keptData, orig[k..], Snapshot(photons)[j]);
        RemoveAt(j);
      } else if !inBeam && j < |photons| {
        DropAt(keptData, orig[k + 1..], Snapshot(photons)[j]);
        RemoveAt(j);
      }
      k' := k + b;
      keptData' := keptData + orig[k + a..k + b];
    }

    /** The filter block of one visit: when it applies, one draw decides whether the
        photon is spliced out or gets through (recoloured, or dimmed to the crossing
        probability but not below 0.2). */
    method CrossFilter(j: nat, c: Ctx, rng: RandomSource, probability: Option<real>, ghost last: Color)
      returns (blocked: bool, probability': Option<real>, photon: SingleBulbPhoton)
      requires Valid() && rng.Valid() && ValidCtx(c) && j < |photons|
      modifies this, photons[j], rng
      ensures Valid() && PhotonSet() <= old(PhotonSet())
      ensures photon == old(photons[j])
      ensures var e := Enter(old(photons[j].Data()), c, rng.draws, SweepState(probability, last, old(rng.count)));
        && photon.Data() == e.photon && blocked == e.blocked
        && probability' == e.state.probability && rng.count == e.state.next
      ensures blocked ==> photon !in photons && Snapshot(photons) == old(Snapshot(photons)[..j] + Snapshot(photons)[j + 1..])
      ensures !blocked ==> photons == old(photons) && Snapshot(photons) == old(Snapshot(photons))[j := photon.Data()]
    {
      photon := photons[j];
      blocked := false;
      probability' := probability;
      if c.settings.filterVisible && photon.location.x < c.filterOffset && !photon.passedFilter {
        var halfWidth := HalfWidth(c.optics);
        var fw := c.settings.flashlightWavelength;
        var gw := c.settings.filterWavelength;
        var prob: real;
        if fw < gw - halfWidth || fw > gw + halfWidth {
          prob := 0.0;
        } else {
          prob := 1.0 - Abs(gw - fw) / halfWidth;
        }
        prob := if !photon.wasWhite then prob else 0.3;
        probability' := Some(prob);
        var d := rng.NextDouble();
        if d >= prob {
          RemoveAt(j);
          blocked := true;
        } else if photon.isWhite {
          photon.color := c.optics.wavelengthToColor(gw);
          photon.isWhite := false;
        } else {
          photon.intensity := if prob < 0.2 then 0.2 else prob;
        }
      }
      if !blocked {
        forall i | 0 <= i < |photons| && i != j
          ensures photons[i].Data() == old(photons[i].Data())
        {
          assert photons[i] != photons[j];
        }
      }
    }

    /** Lines 102-128 for the visited photon: it is marked when left of the filter,
        then moved when it is inside the beam. A photon the filter block removed is
        no longer listed, so the list's values do not change. */
    method MarkThenMove(j: nat, photon: SingleBulbPhoton, blocked: bool, c: Ctx) returns (inBeam: bool)
      requires Valid()
      requires blocked ==> photon !in photons
      requires !blocked ==> j < |photons| && photons[j] == photon
      modifies photon
      ensures var p := MarkPassed(old(photon.Data()), c);
        && inBeam == InBeam(p.location)
        && photon.Data() == (if inBeam then Moved(p, c.dt) else p)
      ensures blocked ==> Snapshot(photons) == old(Snapshot(photons))
      ensures !blocked ==> Snapshot(photons) == old(Snapshot(photons))[j := photon.Data()]
    {
      if photon.location.x < c.filterOffset {
        photon.passedFilter := true;
      }
      inBeam := photon.location.x > 0.0 && photon.location.y > 0.0 && photon.location.y < BEAM_HEIGHT;
      if inBeam {
        photon.UpdateAnimationFrame(c.dt);
      }
      forall i | 0 <= i < |photons| && photons[i] != photon
        ensures photons[i].Data() == old(photons[i].Data())
      {
      }
    }

    /** Splices out the photon at index j without stepping the loop index back. */
    method RemoveAt(j: nat)
      requires Valid() && j < |photons|
      modifies this
      ensures Valid() && PhotonSet() <= old(PhotonSet())
      ensures photons == old(photons[..j] + photons[j + 1..]) && old(photons[j]) !in photons
      ensures Snapshot(photons) == old(Snapshot(photons)[..j] + Snapshot(photons)[j + 1..])
    {
      DistinctRemove(photons, j);
      photons := photons[..j] + photons[j + 1..];
    }

    /** reset: every photon is moved to x = 0, outside the beam, so the next frame
        retires them; the list and every other field stay. */
    method Reset()
      requires Valid()
      modifies PhotonSet()
      ensures Contents() == Parked(old(Contents()))
    {
      var i := 0;
      while i < |photons|
        invariant 0 <= i <= |photons|
        invariant forall m :: 0 <= m < i ==> photons[m].Data() == old(photons[m].Data()).(location := old(photons[m].location).(x := 0.0))
        invariant forall m :: i <= m < |photons| ==> photons[m].Data() == old(photons[m].Data())
      {
        photons[i].location := photons[i].location.(x := 0.0);
        i := i + 1;
      }
      forall m | 0 <= m < |photons|
        ensures Contents()[m] == Parked(old(Contents()))[m]
      {
        SnapshotAt(photons, m);
      }
    }
  }
}
