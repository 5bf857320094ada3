# Color Vision photon engine, in Dafny

This project models the photon engine of the PhET "Color Vision" simulation and
proves properties of it. The engine has two screens.

- **Single bulb.** A flashlight sends photons towards a person's eye, through an
  optional colour filter. The light is either white or of one wavelength. Each
  frame the beam does four things:
  - creates a random batch of photons;
  - lets each photon that reaches the filter cross it once, with a probability
    set by the distance between the flashlight's and the filter's wavelengths
    (0.3 for white light);
  - retires photons that leave the beam, recording the colour of the last one;
  - may append a transparent black "sentinel" photon that fades the perceived
    colour to black.

  The model object derives the perceived colour from its settings, caps the
  frame length, and resets to default settings.
- **RGB.** Each colour channel has a beam. Every frame a photon either moves on
  or retires; a retiring photon publishes its intensity as the perceived
  intensity. While the channel is off, a zero-intensity photon is emitted.
  Photons are spawned along a vertical fan and back-dated by the time since the
  timer fired. The beam builds each photon with `new RGBPhoton(…)`; the photon
  class also offers a pool of 50 (`createFromPool`), which the beam does not
  use. Photons can be written to and read from flat state records.

## How the model is built

- **Photons.** `RGBPhoton` and `SingleBulbPhoton` are classes whose fields
  methods update in place. `Data()` reads a photon's value as a datatype
  (`PhotonState`, `BulbPhoton`).
- **Beams.** A beam is a class holding a `seq` of photon references that are
  never listed twice. `Contents()` is the list of their values.
- **Frames.** Each frame is specified by pure functions on those values:
  `RGBBeams.Sweep` / `RGBBeams.Frame`, and `SingleBulbBeams.Sweep` /
  `SingleBulbBeams.Frame`. Each beam method is proved to turn `old(Contents())`
  into exactly what the function gives. Lemmas then state the simulation's
  promises about these functions.
- **Randomness.** Every `Math.random()` / `phet.joist.random.nextDouble()` call
  is a draw from an injected `RandomSource`: the n-th call returns `draws(n)`,
  a value in [0, 1). The specification functions take the draws and the index
  of the next draw, and return the index after the ones they used.
- **Colours and filter width.** The wavelength-to-colour map of the colour
  library and the filter's `GAUSSIAN_WIDTH` are inputs (`Perception.Optics`),
  with a width above 0.
- **The splice loop.** Both photon loops remove with `splice` and never step
  the index back. The model keeps that behaviour:
  - the photon that slides into a removed photon's slot is passed over
    unchanged for the frame;
  - in the single-bulb loop, a photon the filter blocked still goes through
    the rest of its iteration. When it is also out of bounds, a second splice
    at the same index removes the photon behind it as well.

## Model

| member | source | states |
|---|---|---|
| `Perception.Transmission` | js/singlebulb/model/SingleBulbModel.js:107-117 | the share is 0 when the flashlight's wavelength lies outside [filter − halfWidth, filter + halfWidth] and 1 − \|Δ\|/halfWidth inside; it lies in [0, 1], is 1 exactly when the wavelengths are equal and 0 exactly when \|Δ\| ≥ halfWidth |
| `Perception.PerceivedColor` | js/singlebulb/model/SingleBulbModel.js:93-131 | coloured light through the filter in beam mode shows the flashlight's colour with an alpha in [0, 1] that is 1 exactly at equal wavelengths and 0 exactly out of band |
| `Perception.TransmissionSymmetric` | js/singlebulb/model/SingleBulbModel.js:111-116 | the transmission depends only on the distance between the two wavelengths |
| `Perception.PhotonModeShowsLastPhoton` | js/singlebulb/model/SingleBulbModel.js:98-100 | in photon mode the perceived colour is the last photon's colour, whatever else is set |
| `Perception.SolidBeamIgnoresLastPhoton` | js/singlebulb/model/SingleBulbModel.js:101-131 | in beam mode the last photon's colour never affects the perceived colour |
| `Perception.FlashlightOffIsBlack` | js/singlebulb/model/SingleBulbModel.js:102-104 | in beam mode with the flashlight off the person sees black |
| `Perception.WhiteLightIgnoresFlashlightWavelength` | js/singlebulb/model/SingleBulbModel.js:121-127 | white light shows the filter's colour through the filter and white without it, independent of the flashlight's wavelength |
| `Perception.HiddenFilterIgnoresFilterWavelength` | js/singlebulb/model/SingleBulbModel.js:128-131 | coloured light without the filter shows the flashlight's colour, independent of the filter's wavelength |
| `Perception.FilteredAlphaSymmetric` | js/singlebulb/model/SingleBulbModel.js:106-118 | exchanging the two wavelengths leaves the filtered alpha unchanged |
| `SingleBulbModels.DefaultSettings` | js/singlebulb/model/SingleBulbModel.js:42-81 | coloured light, beam mode, both wavelengths 570, flashlight and filter off, last photon colour (0, 0, 0, 0) |
| `SingleBulbModels.DefaultShowsBlack` | js/singlebulb/model/SingleBulbModel.js:42-104 | a new or reset screen perceives black |
| `SingleBulbModels.CappedDt` | js/singlebulb/model/SingleBulbModel.js:159 | the frame length is at most 0.5, equals dt up to there, and is 0 exactly when dt is |
| `SingleBulbModels.CappedFrameCreatesNothing` | js/singlebulb/model/SingleBulbModel.js:156-165 | a frame capped at 0.5 s creates no photon and uses only the sizing draw |
| `SingleBulbModels.SingleBulbModel.constructor` | js/singlebulb/model/SingleBulbModel.js:34-140 | a new screen has the default settings and an empty beam of the given length |
| `SingleBulbModels.SingleBulbModel.Step` | js/singlebulb/model/SingleBulbModel.js:156-165 | while playing: one beam frame of length min(dt, 0.5), and the last photon colour it computes becomes the model's; while paused: beam, draws and settings unchanged |
| `SingleBulbModels.SingleBulbModel.ManualStep` | js/singlebulb/model/SingleBulbModel.js:169-172 | one beam frame of exactly 1/60 s, playing or not |
| `SingleBulbModels.SingleBulbModel.SetFlashlightOn` | js/singlebulb/model/SingleBulbPhotonBeam.js:32-34 | switching the flashlight from on to off appends one transparent black photon at x = size; any other setting leaves the beam alone |
| `SingleBulbModels.SingleBulbModel.Reset` | js/singlebulb/model/SingleBulbModel.js:175-188 | every setting back to its default; the beam keeps its photons, each moved to x = 0, with the flashlight-off photon added first when the flashlight was on |
| `SingleBulbPhotons.SingleBulbPhoton.constructor` | js/singlebulb/model/SingleBulbPhoton.js:26-38 | location, velocity, intensity, colour and wavelength stored as given; passedFilter false; isWhite and wasWhite both equal the argument |
| `SingleBulbPhotons.SingleBulbPhoton.UpdateAnimationFrame` | js/rgb/model/RGBPhoton.js:30-33 | the inherited move: location advanced by dt times velocity, every other field unchanged |
| `SingleBulbPhotons.Moved` | js/rgb/model/RGBPhoton.js:30-33 | a move changes the location to location + dt·velocity and nothing else |
| `SingleBulbPhotons.ToStateObject` | js/singlebulb/model/SingleBulbPhoton.js:45-51 | the record holds the base fields plus isWhite, colour and wavelength, each equal to the photon's |
| `SingleBulbPhotons.FromStateObject` | js/singlebulb/model/SingleBulbPhoton.js:55-58 | a new photon whose record is exactly the given record |
| `SingleBulbPhotons.RoundTripResetsFilterHistory` | js/singlebulb/model/SingleBulbPhoton.js:45-58 | a round trip keeps the six recorded fields, resets passedFilter to false and wasWhite to isWhite, and is exact if and only if those two already hold |
| `SingleBulbPhotons.RecordRoundTrip` | js/singlebulb/model/SingleBulbPhoton.js:45-58 | record → photon → record is the identity |
| `SingleBulbPhotons.Pooled` | js/rgb/model/RGBPhoton.js:47-62 | a handed-out photon starts at x = size, strictly inside the beam's height, with velocity.x = X_VELOCITY, \|velocity.y\| ≤ 30·FAN_FACTOR, not past the filter and with no wavelength |
| `SingleBulbPhotons.CreateFromPool` | js/rgb/model/RGBPhoton.js:47-62 | a new photon built from one draw, with the value `Pooled` gives |
| `RGBPhotons.RGBPhoton.constructor` | js/rgb/model/RGBPhoton.js:23-27 | location, velocity and intensity stored unchanged |
| `RGBPhotons.Moved` | js/rgb/model/RGBPhoton.js:30-33 | a move changes the location to location + dt·velocity and keeps velocity and intensity |
| `RGBPhotons.RGBPhoton.UpdateAnimationFrame` | js/rgb/model/RGBPhoton.js:30-33 | location := location + dt·velocity; velocity and intensity unchanged |
| `RGBPhotons.FanBounds` | js/rgb/model/RGBPhoton.js:48-49 | for a draw in [0, 1] the fan velocity is bounded by 30·FAN_FACTOR and symmetric about the axis, and the start height lies strictly inside the beam |
| `RGBPhotons.FanStartOnRay` | js/rgb/model/RGBPhoton.js:48-49 | the start height is the beam's mid-height moved 25/60 s along the vertical velocity |
| `RGBPhotons.RGBPhotonPool.constructor` | js/rgb/model/RGBPhoton.js:41-45 | the pool starts with 50 distinct default photons (origin, velocity (X_VELOCITY, 0), intensity 0) |
| `RGBPhotons.RGBPhotonPool.CreateFromPool` | js/rgb/model/RGBPhoton.js:47-62 | from a non-empty pool: the last photon is popped and gets intensity, location (size, yLocation) and velocity.y, keeping its velocity.x; from an empty pool: a new photon at (size, yLocation) with velocity (X_VELOCITY, yVelocity); the other pooled photons are unchanged |
| `RGBPhotonIO.ToStateObject` | js/rgb/model/RGBPhotonIO.js:26-33 | the record holds exactly the photon's location, velocity and intensity |
| `RGBPhotonIO.FromStateObject` | js/rgb/model/RGBPhotonIO.js:40-46 | a new photon built from the record's three fields, whose record is the given one |
| `RGBPhotonIO.StateObjectDeterminesPhoton` | js/rgb/model/RGBPhotonIO.js:26-46 | two photons have equal records if and only if their values are equal |
| `RGBPhotonIO.RoundTrip` | js/rgb/model/RGBPhotonIO.js:26-46 | fromStateObject(toStateObject(q)) is a new photon equal to q field by field |
| `RGBBeams.Sweep` | js/rgb/model/RGBPhotonBeam.js:46-59 | the move-or-retire loop never lengthens the list |
| `RGBBeams.Spawned` | js/rgb/model/RGBPhotonBeam.js:73-91 | the spawned photon moves at (X_VELOCITY, fan velocity of the draw) with the given intensity; its x is beamLength + timeElapsed·X_VELOCITY and its y is the fan's start height plus timeElapsed·velocity.y |
| `RGBBeams.Frame` | js/rgb/model/RGBPhotonBeam.js:43-70 | the frame's list is the sweep's list followed, exactly when the channel intensity is 0, by the black photon at (beamLength, BEAM_HEIGHT/2); the perceived intensity is the sweep's |
| `RGBBeams.SweepOnlyRemoves` | js/rgb/model/RGBPhotonBeam.js:46-59 | the loop only removes photons and moves survivors by one frame, keeping their order |
| `RGBBeams.SweepAllInBeam` | js/rgb/model/RGBPhotonBeam.js:49-54 | when every next position is inside the beam, every photon moves to it, none is removed, and the perceived intensity is unchanged |
| `RGBBeams.SweepKeepsInBeam` | js/rgb/model/RGBPhotonBeam.js:46-59 | if every photon is inside the beam before the frame, every survivor is inside it afterwards |
| `RGBBeams.PerceivedComesFromRetired` | js/rgb/model/RGBPhotonBeam.js:55-58 | the perceived intensity afterwards is the old one or the intensity of a photon whose next position left the beam |
| `RGBBeams.NoRetirementKeepsPerceived` | js/rgb/model/RGBPhotonBeam.js:46-59 | when no photon the loop visits leaves the beam, the perceived intensity stays as it was |
| `RGBBeams.LastRetirementPublishes` | js/rgb/model/RGBPhotonBeam.js:55-58 | a visited photon that leaves the beam publishes its own intensity, and the last such photon's intensity is the perceived intensity after the frame |
| `RGBBeams.RetiredPhotonSkipsNext` | js/rgb/model/RGBPhotonBeam.js:55-58 | after a retirement the next photon is passed over and kept unchanged |
| `RGBBeams.SpawnIsBackdated` | js/rgb/model/RGBPhotonBeam.js:73-91 | the spawned photon is the fanned photon at x = beamLength moved on by timeElapsed, with velocity.x = X_VELOCITY and \|velocity.y\| ≤ 30·FAN_FACTOR |
| `RGBBeams.AsWrittenCommitDiverges` | js/rgb/model/RGBPhotonBeam.js:53 | the call as written agrees with the intended move only when newX happens to equal dt |
| `RGBBeams.AsWrittenCommitCounterexample` | js/rgb/model/RGBPhotonBeam.js:53 | a photon at (100, 65) that should move to x = 96 is thrown to x = −22940, out of the beam |
| `RGBBeams.RGBPhotonBeam.constructor` | js/rgb/model/RGBPhotonBeam.js:26-36 | an empty list, holding the given colour, length and intensity properties |
| `RGBBeams.RGBPhotonBeam.UpdateAnimationFrame` | js/rgb/model/RGBPhotonBeam.js:43-70 | the photon values and the perceived intensity afterwards are exactly those of `Frame` applied to the values before |
| `RGBBeams.RGBPhotonBeam.MoveOrRetire` | js/rgb/model/RGBPhotonBeam.js:46-59 | the loop leaves exactly the values and perceived intensity of `Sweep`, and lists no photon that was not there before |
| `RGBBeams.RGBPhotonBeam.Visit` | js/rgb/model/RGBPhotonBeam.js:49-58 | one pass moves the photon to its checked position (newX, newY), or splices it out and publishes its intensity; what the loop ends with is unchanged |
| `RGBBeams.RGBPhotonBeam.MoveTo` | js/rgb/model/RGBPhotonBeam.js:53 | the photon at index i gets the committed location; every other photon is unchanged |
| `RGBBeams.RGBPhotonBeam.RemoveAt` | js/rgb/model/RGBPhotonBeam.js:57 | the list loses exactly its i-th photon |
| `RGBBeams.RGBPhotonBeam.CreatePhoton` | js/rgb/model/RGBPhotonBeam.js:73-91 | with intensity > 0, exactly one new photon is appended, with the back-dated, fanned value `Spawned` gives; otherwise the list is unchanged and no draw is taken |
| `RGBBeams.RGBPhotonBeam.Reset` | js/rgb/model/RGBPhotonBeam.js:94-99 | the list is empty |
| `SingleBulbBeams.NaturalsBelow` | js/singlebulb/model/SingleBulbPhotonBeam.js:53 | the number of passes of `for (i = 0; i < x; i++)`: 0 for x ≤ 0, otherwise the n with n − 1 < x ≤ n |
| `SingleBulbBeams.CreationBound` | js/singlebulb/model/SingleBulbPhotonBeam.js:52-53 | a frame creates at most floor(0.08/dt) photons, and none when dt > 0.08 |
| `SingleBulbBeams.RandomColor` | js/singlebulb/model/SingleBulbPhotonBeam.js:39-44 | a random colour has channels in [0, 255] and alpha 1 |
| `SingleBulbBeams.DrawsForBatch` | js/singlebulb/model/SingleBulbPhotonBeam.js:53-60 | a batch of n photons uses 5n draws under white light and 2n otherwise |
| `SingleBulbBeams.Created` | js/singlebulb/model/SingleBulbPhotonBeam.js:54-58 | a created photon has intensity 1, velocity.x = X_VELOCITY and has not passed the filter; it is white exactly under white light; it has the flashlight's colour under coloured light; its x lies between size and size + dt·X_VELOCITY |
| `SingleBulbBeams.Creations` | js/singlebulb/model/SingleBulbPhotonBeam.js:53-60 | n passes create n photons |
| `SingleBulbBeams.CrossProbability` | js/singlebulb/model/SingleBulbPhotonBeam.js:70-80 | the crossing probability lies in [0, 1]; it is 0.3 for a photon that left the bulb white, and otherwise the transmission of the flashlight's wavelength (not the photon's) |
| `SingleBulbBeams.Enter` | js/singlebulb/model/SingleBulbPhotonBeam.js:68-99 | the filter block keeps the photon's location, velocity, origin, mark and wavelength and the last photon colour; it takes one draw exactly when it applies; a removed photon is returned as it came; away from the filter nothing changes |
| `SingleBulbBeams.Crossed` | js/singlebulb/model/SingleBulbPhotonBeam.js:88-98 | a passing photon stops being white and keeps location, velocity, origin, mark and wavelength; a white one takes the filter's colour at unchanged intensity; a coloured one keeps its colour with intensity max(probability, 0.2), which is at most 1 when the probability is |
| `SingleBulbBeams.RetiredColor` | js/singlebulb/model/SingleBulbPhotonBeam.js:115-124 | a retiring photon reports opaque white while white; otherwise its own red, green and blue, with alpha = intensity if it left the bulb coloured and its own colour unchanged if the filter recoloured it |
| `SingleBulbBeams.BlockedIff` | js/singlebulb/model/SingleBulbPhotonBeam.js:68-86 | at the filter, one draw is taken and the photon is removed exactly when the draw is ≥ the probability, so probability 0 always removes; away from the filter nothing is drawn or changed |
| `SingleBulbBeams.PassingPhoton` | js/singlebulb/model/SingleBulbPhotonBeam.js:88-98 | a passing white photon takes the filter's colour and stops being white, with wasWhite and intensity unchanged; a passing coloured photon gets intensity max(probability, 0.2), in [0.2, 1] |
| `SingleBulbBeams.FilterFiresOnce` | js/singlebulb/model/SingleBulbPhotonBeam.js:68-104 | after the block a photon is marked as past the filter, before and after its move, so the block cannot apply to it again |
| `SingleBulbBeams.LeftOfFilterIsMarked` | js/singlebulb/model/SingleBulbPhotonBeam.js:102-104 | the photon being visited is marked when it is left of the filter, and marking does not move it (photons the loop passes over are not visited; see `SurvivorsVisitedOrPassedOver`) |
| `SingleBulbBeams.VisitedLeftOfFilterIsMarked` | js/singlebulb/model/SingleBulbPhotonBeam.js:102-110 | a photon the loop visited and kept, that was left of the filter, comes out marked and moved by dt·velocity |
| `SingleBulbBeams.SurvivorsVisitedOrPassedOver` | js/singlebulb/model/SingleBulbPhotonBeam.js:64-129 | every survivor of the loop is an input photon passed over unchanged, or an input photon visited (through the block, marked, moved), and then marked if it was left of the filter |
| `SingleBulbBeams.LonePhotonVisit` | js/singlebulb/model/SingleBulbPhotonBeam.js:106-128 | for a list of one photon not at the filter: in the beam it moves by dt·velocity and reports nothing; out of the beam it is removed and reports opaque white if white, its colour faded to its intensity if it left the bulb coloured, its colour otherwise |
| `SingleBulbBeams.VisitOutcome` | js/singlebulb/model/SingleBulbPhotonBeam.js:65-128 | one visit of any list, for every filter outcome: a photon that got through and is in the beam is kept as the marked, moved photon and reports nothing; otherwise the photon is removed (with the one behind it when blocked and out of bounds), the next photon is passed over unchanged, and an out-of-beam photon reports its retired colour |
| `SingleBulbBeams.SplicePassesOverNext` | js/singlebulb/model/SingleBulbPhotonBeam.js:83-128 | after a single splice the photon behind the removed one is kept unchanged for the frame, even left of the filter and unmarked |
| `SingleBulbBeams.DoubleSplice` | js/singlebulb/model/SingleBulbPhotonBeam.js:83-128 | a photon blocked at the filter and out of bounds takes the photon behind it out unvisited, and the one after that is passed over |
| `SingleBulbBeams.VisitHead` | js/singlebulb/model/SingleBulbPhotonBeam.js:65-128 | one visit goes past at least one photon and keeps at most one: the last photon it goes past, either unchanged or visited (crossed, marked and moved) |
| `SingleBulbBeams.Sweep` | js/singlebulb/model/SingleBulbPhotonBeam.js:64-129 | the loop never lengthens the list |
| `SingleBulbBeams.SweepOnlyRemoves` | js/singlebulb/model/SingleBulbPhotonBeam.js:64-129 | the loop only removes photons: every survivor is an input photon, either unchanged (passed over) or visited (crossed when the block applied, marked when left of the filter, moved by one frame), in the input's order |
| `SingleBulbBeams.SweepDrawsForward` | js/singlebulb/model/SingleBulbPhotonBeam.js:64-129 | the loop never moves the draw index backwards |
| `SingleBulbBeams.HiddenFilterDrawsNothing` | js/singlebulb/model/SingleBulbPhotonBeam.js:68-86 | with the filter hidden the loop takes no draw and leaves the probability as it was |
| `SingleBulbBeams.ZeroProbabilityMeansOutOfBand` | js/singlebulb/model/SingleBulbPhotonBeam.js:70-80 | a probability of 0 after the loop was there before it or means the flashlight's wavelength is outside the filter's band |
| `SingleBulbBeams.LastColorChangesOnlyOnRetire` | js/singlebulb/model/SingleBulbPhotonBeam.js:109-128 | the last photon colour changes only if some photon is outside the beam |
| `SingleBulbBeams.SentinelDue` | js/singlebulb/model/SingleBulbPhotonBeam.js:132 | the sentinel is due only when the last probability was 0 and the filter is shown; in photon mode only when the last photon colour is not black, in beam mode only when the flashlight is on |
| `SingleBulbBeams.Creation` | js/singlebulb/model/SingleBulbPhotonBeam.js:50-61 | with the flashlight on, one sizing draw plus DrawsPerPhoton draws per created photon, and at most floor(0.08/dt) photons for dt > 0; with it off, nothing is created and no draw is taken |
| `SingleBulbBeams.Frame` | js/singlebulb/model/SingleBulbPhotonBeam.js:37-137 | a frame never goes back in the draws and adds at most the created photons plus one sentinel; with flashlight off and filter hidden it takes no draw and never lengthens the list |
| `SingleBulbBeams.Sentinel` | js/singlebulb/model/SingleBulbPhotonBeam.js:133-135 | the sentinel sits at x = filterOffset, is marked as past the filter, is transparent black and is not white |
| `SingleBulbBeams.SentinelOnlyWhenDue` | js/singlebulb/model/SingleBulbPhotonBeam.js:131-136 | the frame appends at most one photon after the loop's survivors, and does so exactly when the last probability was 0, the filter is shown and the perceived colour is not black |
| `SingleBulbBeams.NoCreationWhileOff` | js/singlebulb/model/SingleBulbPhotonBeam.js:50 | with the flashlight off nothing is created and no creation draw is taken |
| `SingleBulbBeams.Parked` | js/singlebulb/model/SingleBulbPhotonBeam.js:139-144 | same length; every photon at x = 0 with its y and every other field unchanged |
| `SingleBulbBeams.ParkedPhotonRetires` | js/singlebulb/model/SingleBulbPhotonBeam.js:139-144 | a photon at x = 0 is out of the beam when the loop reaches it, whatever the filter block does, so it retires (a photon the loop passes over is not reached; see `ParkedFrameKeepsPassedOver`) |
| `SingleBulbBeams.ParkedFrameKeepsPassedOver` | js/singlebulb/model/SingleBulbPhotonBeam.js:64-144 | in the frame after a reset every visited photon retires, and the survivors are exactly parked photons passed over, still at x = 0; at most half of the photons survive |
| `SingleBulbBeams.ParkedPairLeavesOne` | js/singlebulb/model/SingleBulbPhotonBeam.js:64-144 | with the filter hidden, two parked photons leave the second one listed at x = 0 after one frame: the reset does not empty the beam in one frame |
| `SingleBulbBeams.Visited` | js/singlebulb/model/SingleBulbPhotonBeam.js:64-129 | each visit advances past at least one photon and keeps at most one |
| `SingleBulbBeams.VisitedPreservesSweep` | js/singlebulb/model/SingleBulbPhotonBeam.js:64-129 | one visit does not change what the loop ends with |
| `SingleBulbBeams.SingleBulbPhotonBeam.constructor` | js/singlebulb/model/SingleBulbPhotonBeam.js:24-35 | an empty list and the given size |
| `SingleBulbBeams.SingleBulbPhotonBeam.FlashlightTurnedOff` | js/singlebulb/model/SingleBulbPhotonBeam.js:32-34 | appends one transparent black, non-white photon from the pool at x = size |
| `SingleBulbBeams.SingleBulbPhotonBeam.UpdateAnimationFrame` | js/singlebulb/model/SingleBulbPhotonBeam.js:37-137 | the photon values, the last photon colour and the draws used are exactly those of `Frame` applied to the values before |
| `SingleBulbBeams.SingleBulbPhotonBeam.EmitSentinel` | js/singlebulb/model/SingleBulbPhotonBeam.js:131-136 | the sentinel is appended, taking one draw, exactly when it is due; otherwise nothing changes |
| `SingleBulbBeams.SingleBulbPhotonBeam.CreatePhotons` | js/singlebulb/model/SingleBulbPhotonBeam.js:50-61 | the list grows by exactly the photons `Creation` gives, all of them new objects |
| `SingleBulbBeams.SingleBulbPhotonBeam.CreateBatch` | js/singlebulb/model/SingleBulbPhotonBeam.js:53-60 | the loop appends NaturalsBelow(numToCreate) created photons and uses their draws |
| `SingleBulbBeams.SingleBulbPhotonBeam.CreateOne` | js/singlebulb/model/SingleBulbPhotonBeam.js:54-58 | one new photon with the value `Created` gives, using DrawsPerPhoton draws |
| `SingleBulbBeams.SingleBulbPhotonBeam.MoveFilterOrRetire` | js/singlebulb/model/SingleBulbPhotonBeam.js:64-129 | the loop leaves exactly the values, probability, last photon colour and draw index of `Sweep` |
| `SingleBulbBeams.SingleBulbPhotonBeam.Visit` | js/singlebulb/model/SingleBulbPhotonBeam.js:65-128 | one pass does exactly what `Visited` says to the list, the probability and the last photon colour |
| `SingleBulbBeams.SingleBulbPhotonBeam.Splice` | js/singlebulb/model/SingleBulbPhotonBeam.js:83-128 | the visited photon is removed, and also the one behind it when the photon was blocked and is out of bounds; the photon that slides into the slot is passed over |
| `SingleBulbBeams.SingleBulbPhotonBeam.CrossFilter` | js/singlebulb/model/SingleBulbPhotonBeam.js:68-99 | the filter block does exactly what `Enter` says: the blocked photon leaves the list, a passing one is updated in place, other photons are unchanged |
| `SingleBulbBeams.SingleBulbPhotonBeam.MarkThenMove` | js/singlebulb/model/SingleBulbPhotonBeam.js:102-111 | the photon is marked when left of the filter, then moved exactly when it is inside the beam |
| `SingleBulbBeams.SingleBulbPhotonBeam.Reset` | js/singlebulb/model/SingleBulbPhotonBeam.js:139-144 | the list is kept and every photon moves to x = 0, with nothing else changed (the next frame retires only the photons it visits) |

## Left out

- View, screen wiring and tandem/phet-io instrumentation. They draw or record
  the model and change none of its state.
- The 120 Hz EventTimer of the single-bulb screen (SingleBulbModel.js:146-148).
  The timer library is not part of this model. The callback it runs,
  `photonBeam.createPhoton`, is not defined in SingleBulbPhotonBeam.js.
- SingleBulbModels.SingleBulbModel.Step: the `eventTimer.step(dt)` call is not
  modelled; only the beam frame is. The same holds for ManualStep.
- `playing` and the base reset. `playingProperty` and `ColorVisionModel.prototype.reset`
  belong to ColorVisionModel, which is not part of this model. `playing` is a
  field that Reset leaves as it was.
- The Property/DerivedProperty machinery. The perceived colour is recomputed
  on demand by `Perception.PerceivedColor`. The beam's `onValue(false, …)` hook
  runs only when the flashlight changes from on to off; no other listener is
  modelled.
- Releasing photons to a pool. `freeToPool` (SingleBulbPhotonBeam.js:84,126) is
  not modelled: a removed photon is dropped.
- The single-bulb photon pool. `SingleBulbPhoton.createFromPool` is not defined
  in SingleBulbPhoton.js. RGBPhoton's factory takes only (size, intensity).
  `SingleBulbPhotons.CreateFromPool` builds a new photon with the fan formula
  of RGBPhoton.js:48-49 and the requested colour and whiteness; it never reuses
  an object.
- Names that differ between file versions. The single-bulb beam reads the
  model through older names: `model.flashlightOn`, `model.light`,
  `model.filterVisible`, `model.flashlightWavelength`, `model.filterWavelength`,
  `model.perceivedColor` and `model.lastPhotonColor`. The model reads them as
  the current values of the model's properties. `lightType` `'white'` is white
  light.
- `filterOffset`. The beam file never assigns `this.filterOffset`, so the model
  takes it as a parameter: `Ctx.filterOffset`, fixed per model object. As
  written, `this.filterOffset` is undefined, so every `x < this.filterOffset`
  test is false. The filter block (SingleBulbPhotonBeam.js:68) and the marking
  at lines 102-104 never run. The probability is then never set, so the
  sentinel of line 132 is never emitted.
- `GAUSSIAN_WIDTH`, `SINGLE_BEAM_LENGTH` and `VisibleColor.wavelengthToColor`.
  Their sources (SingleBulbConstants, the colour library) are not part of this
  model, so they are inputs: `Optics.gaussianWidth` (required to be above 0),
  the beam length, and `Optics.wavelengthToColor`.
- `RGBPhoton.prototype.toStateObject`. SingleBulbPhoton.js:50 calls it, but
  RGBPhoton.js does not define it. The single-bulb record takes the three base
  fields as RGBPhotonIO records them.
- The encodings of Vector2IO and of `Color.toStateObject` / `fromStateObject`.
  Vectors and colours stay values in the records.
- `validate(rgbPhoton, …)` (RGBPhotonIO.js:27). The parameter type `RGBPhoton`
  stands for the check, since only an RGBPhoton can be passed.
- The pool's release path (Poolable's free logic, `maxPoolSize` on return).
  The RGB pool is modelled for creation only. `RGBPhotonPool` keeps a `Repr`
  footprint, while the beams, which hold only photons, use the set of listed
  photons.
- Floating point. JavaScript numbers are modelled as exact reals, with no
  rounding. `Math.floor` is `Floor`.
- A frame of length 0 with the flashlight on. There the source does not
  terminate: `5 / dt * 0.016` is Infinity, so `numToCreate` at
  SingleBulbPhotonBeam.js:52 is Infinity for any draw above 0. The loop at
  line 53 then pushes photons forever. (A draw of exactly 0 gives NaN and no
  photons.) `UpdateAnimationFrame`, `Frame`, `Creation` and `Step` require
  dt ≠ 0 in that case, which excludes exactly this input. `CreationBound` is
  stated for dt > 0.
- SingleBulbBeams.ParkedPhotonRetires: stated for the photon the loop visits.
  Parking every photon at x = 0 (SingleBulbPhotonBeam.js:139-144) does not empty
  the beam in the next frame. Each retirement passes over the photon behind it,
  which stays listed at x = 0 (`SingleBulbBeams.ParkedFrameKeepsPassedOver`,
  `SingleBulbBeams.ParkedPairLeavesOne`). Emptying takes several frames.
- SingleBulbBeams.LeftOfFilterIsMarked: stated for the photon being visited,
  not for the whole frame. The source makes no frame-level promise: a photon
  passed over after a splice stays unmarked for the frame, even when it is
  left of the filter (`SingleBulbBeams.SplicePassesOverNext`).
- Randomness. It is an injected sequence of draws (`Common.RandomSource`),
  not a global generator.

## Findings

| source | as written | input that shows it | evidently intended | confidence | as-written member | corrected member |
|---|---|---|---|---|---|---|
| js/rgb/model/RGBPhotonBeam.js:53 | `updateAnimationFrame(newX, newY)` reaches RGBPhoton's `updateAnimationFrame(dt)` (RGBPhoton.js:30-33), so the photon moves by newX·velocity instead of to (newX, newY) | a photon at (100, 65) with velocity (−240, 0) and dt = 1/60 should move to x = 96 but lands at x = −22940 | commit the checked position (newX, newY) | not executed | `RGBBeams.AsWrittenCommitCounterexample` | `RGBBeams.SweepKeepsInBeam` |
