/** Next-event estimation (TraceBase::attenuatedEmission, lightSample,
    bsdfSample, volumeLightSample, volumePhaseSample, sampleDirect,
    volumeSampleDirect, estimateDirect and volumeEstimateDirect): which
    sampling strategies run for a light, when the multiple-importance
    weight is applied, and how the chosen light's contribution is scaled
    by its selection weight. Every collaborator (light, BSDF, phase
    function, shadow-ray scene, multiple-importance heuristic) is an
    oracle input. */
module DirectLighting {
  import opened Core
  import opened ScatterEvents
  import opened ShadowRays
  import opened LightSelection

  /** A probability density reported for a successful sample: positive. */
  type Pdf = x: real | x > 0.0 witness 1.0

  /** Division by a density. */
  function Reciprocal(pdf: Pdf): (r: real)
    ensures r > 0.0
  {
    1.0 / pdf
  }

  /** `1.0f + 1e-3f`: the tolerance on the distance at which a light sampled
      by direction is expected to be hit. */
  const FudgeFactor: real := 1.001

  /** What the core asks of a light: `isDirac()` and its
      `approximateRadiance` at the shading point. */
  datatype Light = Light(isDirac: bool, approximateRadiance: real)

  /** The answers along one connection ray towards the light: whether
      `Primitive::intersect` hits the light and at which distance, the
      light's `emission` at that point, its `inboundPdf` for the ray's
      direction, and the shadow-ray scene between the two ends. */
  datatype Connection = Connection(
    hitsLight: bool,
    farT: real,
    emission: Rgb,
    inboundPdf: real,
    scene: ShadowScene)

  /** `Primitive::sampleInboundDirection`: failure, or a direction towards
      the light as seen from the shading point, its distance and its
      density. */
  datatype LightSampleResult = NoLightSample | LightSampled(d: Vec3, dist: real, pdf: Pdf)

  /** `Bsdf::sample` or `Medium::scatter`: failure, or a sampled outgoing
      direction (local for a BSDF, global for a medium), the sample's weight
      (`event.throughput`) and its density. */
  datatype DirectionSample = NoDirection | Sampled(wo: Vec3, throughput: Rgb, pdf: real)

  /** The BSDF at the shading point: its lobes, `eval` and `pdf` (both for
      an event with `wo` set) and `selectMedium`. */
  datatype Bsdf = Bsdf(
    lobes: Lobes,
    eval: SurfaceEvent -> Rgb,
    pdf: SurfaceEvent -> real,
    selectMedium: (ActiveMedium, bool) -> ActiveMedium)

  /** The medium's phase function at a scattering point: `phaseEval` and
      `phasePdf` for an outgoing direction. */
  datatype Phase = Phase(eval: Vec3 -> Rgb, pdf: Vec3 -> real)

  /** A multiple-importance weight: non-negative. */
  type MisWeight = x: real | x >= 0.0 witness 0.0

  /** `SampleWarp::powerHeuristic`, which is not part of this model: any
      non-negative weight, a function of the two densities. */
  type Heuristic = (real, real) -> MisWeight

  /** The random decisions of one direct-lighting estimate, per strategy:
      the light sample and the ray towards it, and the BSDF (or phase)
      sample and the ray along it. */
  datatype DirectDraws = DirectDraws(
    lightSample: LightSampleResult,
    lightRay: Connection,
    directionSample: DirectionSample,
    directionRay: Connection)

  // ---------------------------------------------------------------------
  // Validity of the oracles (used only for non-negativity)

  ghost predicate ValidBsdf(bsdf: Bsdf)
  {
    forall e :: NonNeg(bsdf.eval(e))
  }

  ghost predicate ValidPhase(phase: Phase)
  {
    forall w :: NonNeg(phase.eval(w))
  }

  predicate ValidDirection(s: DirectionSample)
  {
    s.Sampled? ==> NonNeg(s.throughput)
  }

  ghost predicate ValidConnection(c: Connection)
  {
    NonNeg(c.emission) && ValidScene(c.scene)
  }

  ghost predicate ValidDraws(d: DirectDraws)
  {
    ValidConnection(d.lightRay) && ValidConnection(d.directionRay) && ValidDirection(d.directionSample)
  }

  // ---------------------------------------------------------------------
  // The strategies

  /** `attenuatedEmission`: a Dirac light is taken to lie at the expected
      distance; any other light must be hit along the ray, no nearer than
      the expected distance allows (within the fudge factor). The light's
      emission is then attenuated by the shadow ray ending at the light. */
  function AttenuatedEmission(settings: TraceSettings, isDirac: bool, conn: Connection,
                              medium: ActiveMedium, expectedDist: real, bounce: int): Rgb
  {
    if !isDirac && (!conn.hitsLight || conn.farT * FudgeFactor < expectedDist) then Black()
    else
      var transmittance := Walk(settings, conn.scene, 0, medium, bounce, White());
      if IsBlack(transmittance) then Black()
      else Mul(transmittance, conn.emission)
  }

  /** `lightSample`: sample a direction towards the light, check it against
      the geometric normal, evaluate the BSDF (non-specular lobes) and the
      attenuated emission, divide by the light sample's density and, for a
      non-Dirac light, apply the heuristic against the BSDF's density. */
  function LightSample(settings: TraceSettings, isDirac: bool, event: SurfaceEvent, bsdf: Bsdf,
                       medium: ActiveMedium, bounce: int, sample: LightSampleResult,
                       conn: Connection, mis: Heuristic): Rgb
  {
    if sample.NoLightSample? then Black()
    else
      var e := event.(wo := ToLocal(event.frame, sample.d));
      if !IsConsistent(settings, e, sample.d) then Black()
      else
        var medium' := bsdf.selectMedium(medium, Dot(sample.d, event.ng) < 0.0);
        var e' := e.(requestedLobe := AllButSpecular);
        var f := bsdf.eval(e');
        if IsBlack(f) then Black()
        else
          var em := AttenuatedEmission(settings, isDirac, conn, medium', sample.dist, bounce);
          if IsBlack(em) then Black()
          else
            var lightF := Scale(Mul(f, em), Reciprocal(sample.pdf));
            if !isDirac then Scale(lightF, mis(sample.pdf, bsdf.pdf(e'))) else lightF
  }

  /** `bsdfSample`: sample the BSDF's non-specular lobes, check the
      direction, find the light along it and weight the result by the
      heuristic against the light's density for that direction. */
  function BsdfSample(settings: TraceSettings, isDirac: bool, event: SurfaceEvent, bsdf: Bsdf,
                      medium: ActiveMedium, bounce: int, sample: DirectionSample,
                      conn: Connection, mis: Heuristic): Rgb
  {
    if sample.NoDirection? || IsBlack(sample.throughput) then Black()
    else
      var e := event.(requestedLobe := AllButSpecular, wo := sample.wo);
      var wo := ToGlobal(e.frame, sample.wo);
      if !IsConsistent(settings, e, wo) then Black()
      else
        var medium' := bsdf.selectMedium(medium, Dot(wo, event.ng) < 0.0);
        var em := AttenuatedEmission(settings, isDirac, conn, medium', -1.0, bounce);
        if IsBlack(em) then Black()
        else Scale(Mul(em, sample.throughput), mis(sample.pdf, conn.inboundPdf))
  }

  /** `sampleDirect`: nothing for a purely specular or forward BSDF; the
      light strategy always; the BSDF strategy as well for a non-Dirac
      light. */
  function SampleDirect(settings: TraceSettings, light: Light, event: SurfaceEvent, bsdf: Bsdf,
                        medium: ActiveMedium, bounce: int, draws: DirectDraws, mis: Heuristic): Rgb
  {
    if bsdf.lobes.isPureSpecular || bsdf.lobes.isForward then Black()
    else
      var result := LightSample(settings, light.isDirac, event, bsdf, medium, bounce,
                                draws.lightSample, draws.lightRay, mis);
      if !light.isDirac
      then Add(result, BsdfSample(settings, light.isDirac, event, bsdf, medium, bounce,
                                  draws.directionSample, draws.directionRay, mis))
      else result
  }

  /** `volumeLightSample` at a scattering point inside `medium`. */
  function VolumeLightSample(settings: TraceSettings, isDirac: bool, phase: Phase, medium: ActiveMedium,
                             performMis: bool, bounce: int, sample: LightSampleResult,
                             conn: Connection, mis: Heuristic): Rgb
  {
    if sample.NoLightSample? then Black()
    else
      var f := phase.eval(sample.d);
      if IsBlack(f) then Black()
      else
        var em := AttenuatedEmission(settings, isDirac, conn, medium, sample.dist, bounce);
        if IsBlack(em) then Black()
        else
          var lightF := Scale(Mul(f, em), Reciprocal(sample.pdf));
          if !isDirac && performMis then Scale(lightF, mis(sample.pdf, phase.pdf(sample.d))) else lightF
  }

  /** `volumePhaseSample`: `Medium::scatter` picks the direction. */
  function VolumePhaseSample(settings: TraceSettings, isDirac: bool, medium: ActiveMedium, bounce: int,
                             sample: DirectionSample, conn: Connection, mis: Heuristic): Rgb
  {
    if sample.NoDirection? || IsBlack(sample.throughput) then Black()
    else
      var em := AttenuatedEmission(settings, isDirac, conn, medium, -1.0, bounce);
      if IsBlack(em) then Black()
      else Scale(Mul(em, sample.throughput), mis(sample.pdf, conn.inboundPdf))
  }

  /** `volumeSampleDirect`: multiple importance sampling is always on. */
  function VolumeSampleDirect(settings: TraceSettings, light: Light, phase: Phase, medium: ActiveMedium,
                              bounce: int, draws: DirectDraws, mis: Heuristic): Rgb
  {
    var performMis := true;
    var result := VolumeLightSample(settings, light.isDirac, phase, medium, performMis, bounce,
                                    draws.lightSample, draws.lightRay, mis);
    if !light.isDirac && performMis
    then Add(result, VolumePhaseSample(settings, light.isDirac, medium, bounce,
                                       draws.directionSample, draws.directionRay, mis))
    else result
  }

  /** Every light's `approximateRadiance` at the shading point. */
  function Approximations(lights: seq<Light>): (a: seq<real>)
    ensures |a| == |lights|
    ensures forall i :: 0 <= i < |lights| ==> a[i] == lights[i].approximateRadiance
  {
    seq(|lights|, i requires 0 <= i < |lights| => lights[i].approximateRadiance)
  }

  /** `estimateDirect`: choose a light, sample it, and scale by the
      selection weight. `u` is the selection draw and `draws(i)` the
      decisions made when light i is sampled. */
  function EstimateDirect(settings: TraceSettings, lights: seq<Light>, u: real, event: SurfaceEvent,
                          bsdf: Bsdf, medium: ActiveMedium, bounce: int,
                          draws: nat -> DirectDraws, mis: Heuristic): Rgb
    requires 0.0 <= u < 1.0
  {
    var c := Choose(Approximations(lights), u);
    if c.NoLight? then Black()
    else Scale(SampleDirect(settings, lights[c.index], event, bsdf, medium, bounce, draws(c.index), mis),
               c.weight)
  }

  /** `volumeEstimateDirect`. */
  function VolumeEstimateDirect(settings: TraceSettings, lights: seq<Light>, u: real, phase: Phase,
                                medium: ActiveMedium, bounce: int,
                                draws: nat -> DirectDraws, mis: Heuristic): Rgb
    requires 0.0 <= u < 1.0
  {
    var c := Choose(Approximations(lights), u);
    if c.NoLight? then Black()
    else Scale(VolumeSampleDirect(settings, lights[c.index], phase, medium, bounce, draws(c.index), mis),
               c.weight)
  }

  // ---------------------------------------------------------------------
  // Attenuated emission

  /** The emission a light contributes once it is known to be reached:
      the shadow ray's transmittance times the emission. */
  function Reached(settings: TraceSettings, conn: Connection, medium: ActiveMedium, bounce: int): Rgb
  {
    Mul(Walk(settings, conn.scene, 0, medium, bounce, White()), conn.emission)
  }

  /** A Dirac light is never intersected: whether and where the ray hits it
      and the expected distance play no part. */
  lemma DiracEmissionIgnoresIntersection(settings: TraceSettings, conn: Connection, medium: ActiveMedium,
                                         expectedDist: real, bounce: int)
    ensures AttenuatedEmission(settings, true, conn, medium, expectedDist, bounce)
            == Reached(settings, conn, medium, bounce)
  {
  }

  /** A non-Dirac light contributes exactly when the ray hits it no nearer
      than the fudge factor allows; otherwise it contributes nothing. */
  lemma NonDiracEmission(settings: TraceSettings, conn: Connection, medium: ActiveMedium,
                         expectedDist: real, bounce: int)
    ensures AttenuatedEmission(settings, false, conn, medium, expectedDist, bounce)
            == if conn.hitsLight && expectedDist <= conn.farT * FudgeFactor
               then Reached(settings, conn, medium, bounce) else Black()
  {
  }

  /** The fudge factor accepts a non-Dirac light hit slightly nearer than
      expected: up to one part in a thousand of the hit distance, the
      light's emission still arrives in full. */
  lemma FudgeTolerance(settings: TraceSettings, conn: Connection, medium: ActiveMedium,
                       expectedDist: real, bounce: int)
    requires conn.hitsLight && 0.0 <= conn.farT
    requires expectedDist <= conn.farT + conn.farT / 1000.0
    ensures AttenuatedEmission(settings, false, conn, medium, expectedDist, bounce)
            == Reached(settings, conn, medium, bounce)
  {
    NonDiracEmission(settings, conn, medium, expectedDist, bounce);
    assert expectedDist <= conn.farT * FudgeFactor;
  }

  /** With no expected distance (-1, as the BSDF and phase strategies
      pass), any hit of the light at a non-negative distance counts. */
  lemma NoExpectedDistance(settings: TraceSettings, isDirac: bool, conn: Connection,
                           medium: ActiveMedium, bounce: int)
    requires conn.hitsLight && conn.farT >= 0.0
    ensures AttenuatedEmission(settings, isDirac, conn, medium, -1.0, bounce)
            == Reached(settings, conn, medium, bounce)
  {
  }

  /** A reached light's emission in closed form: attenuated along the whole
      chain of surfaces and media, if none of them is opaque and the bounce
      count ends within [minBounces, maxBounces); zero otherwise. */
  lemma ReachedClosedForm(settings: TraceSettings, conn: Connection, medium: ActiveMedium, bounce: int)
    ensures var n := Surfaces(conn.scene, 0);
            Reached(settings, conn, medium, bounce)
            == if Clear(conn.scene, 0) && (n == 0 || bounce + n < settings.maxBounces) && bounce + n >= settings.minBounces
               then Mul(Attenuation(conn.scene, 0, medium), conn.emission)
               else Black()
  {
    var n := Surfaces(conn.scene, 0);
    var tr := Walk(settings, conn.scene, 0, medium, bounce, White());
    var att := Attenuation(conn.scene, 0, medium);
    WalkClosedForm(settings, conn.scene, 0, medium, bounce, White());
    if Clear(conn.scene, 0) && (n == 0 || bounce + n < settings.maxBounces) && bounce + n >= settings.minBounces {
      assert tr == Mul(White(), att);
      assert Mul(White(), att) == att;
    } else {
      assert tr == Black();
      assert Mul(Black(), conn.emission) == Black();
    }
  }

  /** An opaque surface between the point and the light hides it. */
  lemma OccludedLightIsBlack(settings: TraceSettings, isDirac: bool, conn: Connection,
                             medium: ActiveMedium, expectedDist: real, bounce: int)
    requires !Clear(conn.scene, 0)
    ensures IsBlack(AttenuatedEmission(settings, isDirac, conn, medium, expectedDist, bounce))
  {
    OpaqueOccluderBlocks(settings, conn.scene, 0, medium, bounce, White());
  }

  lemma AttenuatedEmissionNonNeg(settings: TraceSettings, isDirac: bool, conn: Connection,
                                 medium: ActiveMedium, expectedDist: real, bounce: int)
    requires ValidConnection(conn)
    ensures NonNeg(AttenuatedEmission(settings, isDirac, conn, medium, expectedDist, bounce))
  {
    WalkNonNeg(settings, conn.scene, 0, medium, bounce, White());
    MulNonNeg(Walk(settings, conn.scene, 0, medium, bounce, White()), conn.emission);
  }

  // ---------------------------------------------------------------------
  // Which strategies run, and when the heuristic applies

  /** The heuristic that weights nothing. */
  function Unweighted(): Heuristic { (a, b) => 1.0 }

  /** For a Dirac light the light-sampling strategy is never weighted: its
      value does not depend on the heuristic. */
  lemma DiracLightSampleUnweighted(settings: TraceSettings, event: SurfaceEvent, bsdf: Bsdf,
                                   medium: ActiveMedium, bounce: int, sample: LightSampleResult,
                                   conn: Connection, mis: Heuristic)
    ensures LightSample(settings, true, event, bsdf, medium, bounce, sample, conn, mis)
            == LightSample(settings, true, event, bsdf, medium, bounce, sample, conn, Unweighted())
  {
  }

  /** For any other light, the light-sampling strategy is the unweighted
      estimate times the heuristic of the light's density against the
      BSDF's density for the sampled direction. */
  lemma NonDiracLightSampleWeighted(settings: TraceSettings, event: SurfaceEvent, bsdf: Bsdf,
                                    medium: ActiveMedium, bounce: int, sample: LightSampleResult,
                                    conn: Connection, mis: Heuristic)
    requires sample.LightSampled?
    ensures var e := event.(wo := ToLocal(event.frame, sample.d), requestedLobe := AllButSpecular);
            LightSample(settings, false, event, bsdf, medium, bounce, sample, conn, mis)
            == Scale(LightSample(settings, false, event, bsdf, medium, bounce, sample, conn, Unweighted()),
                     mis(sample.pdf, bsdf.pdf(e)))
  {
    var e := event.(wo := ToLocal(event.frame, sample.d));
    var e' := e.(requestedLobe := AllButSpecular);
    var m := mis(sample.pdf, bsdf.pdf(e'));
    var u := Unweighted()(sample.pdf, bsdf.pdf(e'));
    assert u == 1.0;
    if !IsConsistent(settings, e, sample.d) {
    } else {
      var medium' := bsdf.selectMedium(medium, Dot(sample.d, event.ng) < 0.0);
      var f := bsdf.eval(e');
      if IsBlack(f) {
      } else {
        var em := AttenuatedEmission(settings, false, conn, medium', sample.dist, bounce);
        if IsBlack(em) {
        } else {
          var lightF := Scale(Mul(f, em), Reciprocal(sample.pdf));
          ScaleOne(lightF);
          assert LightSample(settings, false, event, bsdf, medium, bounce, sample, conn, Unweighted()) == lightF;
        }
      }
    }
  }

  /** In a medium, the light strategy of a Dirac light, or one run without
      multiple importance sampling, is never weighted. */
  lemma VolumeLightSampleUnweighted(settings: TraceSettings, isDirac: bool, phase: Phase, medium: ActiveMedium,
                                    performMis: bool, bounce: int, sample: LightSampleResult,
                                    conn: Connection, mis: Heuristic)
    requires isDirac || !performMis
    ensures VolumeLightSample(settings, isDirac, phase, medium, performMis, bounce, sample, conn, mis)
            == VolumeLightSample(settings, isDirac, phase, medium, performMis, bounce, sample, conn, Unweighted())
  {
  }

  /** Otherwise it is the unweighted estimate times the heuristic of the
      light's density against the phase function's density. */
  lemma VolumeLightSampleWeighted(settings: TraceSettings, phase: Phase, medium: ActiveMedium,
                                  bounce: int, sample: LightSampleResult,
                                  conn: Connection, mis: Heuristic)
    requires sample.LightSampled?
    ensures VolumeLightSample(settings, false, phase, medium, true, bounce, sample, conn, mis)
            == Scale(VolumeLightSample(settings, false, phase, medium, true, bounce, sample, conn, Unweighted()),
                     mis(sample.pdf, phase.pdf(sample.d)))
  {
    var m := mis(sample.pdf, phase.pdf(sample.d));
    var weighted := VolumeLightSample(settings, false, phase, medium, true, bounce, sample, conn, mis);
    var unweighted := VolumeLightSample(settings, false, phase, medium, true, bounce, sample, conn, Unweighted());
    var f := phase.eval(sample.d);
    var em := AttenuatedEmission(settings, false, conn, medium, sample.dist, bounce);
    if IsBlack(f) || IsBlack(em) {
      assert weighted == Black() && unweighted == Black();
      assert Scale(Black(), m) == Black();
    } else {
      var lightF := Scale(Mul(f, em), Reciprocal(sample.pdf));
      assert Unweighted()(sample.pdf, phase.pdf(sample.d)) == 1.0;
      assert weighted == Scale(lightF, m);
      assert unweighted == Scale(lightF, 1.0);
      ScaleOne(lightF);
    }
  }

  /** The BSDF strategy is always weighted: it is the unweighted estimate
      times the heuristic of the BSDF's density against the light's
      density for the sampled direction. */
  lemma BsdfSampleWeighted(settings: TraceSettings, isDirac: bool, event: SurfaceEvent, bsdf: Bsdf,
                           medium: ActiveMedium, bounce: int, sample: DirectionSample,
                           conn: Connection, mis: Heuristic)
    requires sample.Sampled?
    ensures BsdfSample(settings, isDirac, event, bsdf, medium, bounce, sample, conn, mis)
            == Scale(BsdfSample(settings, isDirac, event, bsdf, medium, bounce, sample, conn, Unweighted()),
                     mis(sample.pdf, conn.inboundPdf))
  {
    var m := mis(sample.pdf, conn.inboundPdf);
    var weighted := BsdfSample(settings, isDirac, event, bsdf, medium, bounce, sample, conn, mis);
    var unweighted := BsdfSample(settings, isDirac, event, bsdf, medium, bounce, sample, conn, Unweighted());
    var e := event.(requestedLobe := AllButSpecular, wo := sample.wo);
    var wo := ToGlobal(e.frame, sample.wo);
    var medium' := bsdf.selectMedium(medium, Dot(wo, event.ng) < 0.0);
    var em := AttenuatedEmission(settings, isDirac, conn, medium', -1.0, bounce);
    if IsBlack(sample.throughput) || !IsConsistent(settings, e, wo) || IsBlack(em) {
      assert weighted == Black() && unweighted == Black();
      assert Scale(Black(), m) == Black();
    } else {
      var bsdfF := Mul(em, sample.throughput);
      assert Unweighted()(sample.pdf, conn.inboundPdf) == 1.0;
      assert weighted == Scale(bsdfF, m);
      assert unweighted == Scale(bsdfF, 1.0);
      ScaleOne(bsdfF);
    }
  }

  /** In a medium, the phase strategy is likewise always weighted, by the
      heuristic of the phase function's density against the light's. */
  lemma VolumePhaseSampleWeighted(settings: TraceSettings, isDirac: bool, medium: ActiveMedium, bounce: int,
                                  sample: DirectionSample, conn: Connection, mis: Heuristic)
    requires sample.Sampled?
    ensures VolumePhaseSample(settings, isDirac, medium, bounce, sample, conn, mis)
            == Scale(VolumePhaseSample(settings, isDirac, medium, bounce, sample, conn, Unweighted()),
                     mis(sample.pdf, conn.inboundPdf))
  {
    var m := mis(sample.pdf, conn.inboundPdf);
    var weighted := VolumePhaseSample(settings, isDirac, medium, bounce, sample, conn, mis);
    var unweighted := VolumePhaseSample(settings, isDirac, medium, bounce, sample, conn, Unweighted());
    var em := AttenuatedEmission(settings, isDirac, conn, medium, -1.0, bounce);
    if IsBlack(sample.throughput) || IsBlack(em) {
      assert weighted == Black() && unweighted == Black();
      assert Scale(Black(), m) == Black();
    } else {
      var phaseF := Mul(em, sample.throughput);
      assert Unweighted()(sample.pdf, conn.inboundPdf) == 1.0;
      assert weighted == Scale(phaseF, m);
      assert unweighted == Scale(phaseF, 1.0);
      ScaleOne(phaseF);
    }
  }

  /** A purely specular or forward BSDF receives no direct light. */
  lemma SpecularReceivesNoDirect(settings: TraceSettings, light: Light, event: SurfaceEvent, bsdf: Bsdf,
                                 medium: ActiveMedium, bounce: int, draws: DirectDraws, mis: Heuristic)
    requires bsdf.lobes.isPureSpecular || bsdf.lobes.isForward
    ensures IsBlack(SampleDirect(settings, light, event, bsdf, medium, bounce, draws, mis))
  {
  }

  /** A Dirac light gets the light-sampling strategy alone, unweighted:
      the BSDF sample, the ray along it and the heuristic play no part. */
  lemma DiracLightSingleStrategy(settings: TraceSettings, light: Light, event: SurfaceEvent, bsdf: Bsdf,
                                 medium: ActiveMedium, bounce: int, draws: DirectDraws, mis: Heuristic)
    requires light.isDirac
    requires !bsdf.lobes.isPureSpecular && !bsdf.lobes.isForward
    ensures SampleDirect(settings, light, event, bsdf, medium, bounce, draws, mis)
            == LightSample(settings, true, event, bsdf, medium, bounce, draws.lightSample, draws.lightRay, Unweighted())
  {
    DiracLightSampleUnweighted(settings, event, bsdf, medium, bounce, draws.lightSample, draws.lightRay, mis);
  }

  /** Any other light gets both strategies, summed. */
  lemma NonDiracLightBothStrategies(settings: TraceSettings, light: Light, event: SurfaceEvent, bsdf: Bsdf,
                                    medium: ActiveMedium, bounce: int, draws: DirectDraws, mis: Heuristic)
    requires !light.isDirac
    requires !bsdf.lobes.isPureSpecular && !bsdf.lobes.isForward
    ensures SampleDirect(settings, light, event, bsdf, medium, bounce, draws, mis)
            == Add(LightSample(settings, false, event, bsdf, medium, bounce, draws.lightSample, draws.lightRay, mis),
                   BsdfSample(settings, false, event, bsdf, medium, bounce, draws.directionSample, draws.directionRay, mis))
  {
  }

  /** In a medium, a Dirac light likewise gets the unweighted light
      strategy alone; any other light gets both strategies, weighted. */
  lemma VolumeStrategies(settings: TraceSettings, light: Light, phase: Phase, medium: ActiveMedium,
                         bounce: int, draws: DirectDraws, mis: Heuristic)
    ensures light.isDirac ==>
              VolumeSampleDirect(settings, light, phase, medium, bounce, draws, mis)
              == VolumeLightSample(settings, true, phase, medium, true, bounce, draws.lightSample, draws.lightRay, Unweighted())
    ensures !light.isDirac ==>
              VolumeSampleDirect(settings, light, phase, medium, bounce, draws, mis)
              == Add(VolumeLightSample(settings, false, phase, medium, true, bounce, draws.lightSample, draws.lightRay, mis),
                     VolumePhaseSample(settings, false, medium, bounce, draws.directionSample, draws.directionRay, mis))
  {
  }

  // ---------------------------------------------------------------------
  // Non-negativity

  lemma LightSampleNonNeg(settings: TraceSettings, isDirac: bool, event: SurfaceEvent, bsdf: Bsdf,
                          medium: ActiveMedium, bounce: int, sample: LightSampleResult,
                          conn: Connection, mis: Heuristic)
    requires ValidBsdf(bsdf) && ValidConnection(conn)
    ensures NonNeg(LightSample(settings, isDirac, event, bsdf, medium, bounce, sample, conn, mis))
  {
    if sample.LightSampled? {
      var e := event.(wo := ToLocal(event.frame, sample.d), requestedLobe := AllButSpecular);
      var medium' := bsdf.selectMedium(medium, Dot(sample.d, event.ng) < 0.0);
      var f := bsdf.eval(e);
      var em := AttenuatedEmission(settings, isDirac, conn, medium', sample.dist, bounce);
      AttenuatedEmissionNonNeg(settings, isDirac, conn, medium', sample.dist, bounce);
      WeightedNonNeg(f, em, Reciprocal(sample.pdf), mis(sample.pdf, bsdf.pdf(e)));
    }
  }

  lemma WeightedNonNeg(f: Rgb, em: Rgb, r: real, m: real)
    requires NonNeg(f) && NonNeg(em) && r >= 0.0 && m >= 0.0
    ensures NonNeg(Scale(Mul(f, em), r)) && NonNeg(Scale(Scale(Mul(f, em), r), m))
  {
    MulNonNeg(f, em);
    ScaleNonNeg(Mul(f, em), r);
    ScaleNonNeg(Scale(Mul(f, em), r), m);
  }

  lemma BsdfSampleNonNeg(settings: TraceSettings, isDirac: bool, event: SurfaceEvent, bsdf: Bsdf,
                         medium: ActiveMedium, bounce: int, sample: DirectionSample,
                         conn: Connection, mis: Heuristic)
    requires ValidDirection(sample) && ValidConnection(conn)
    ensures NonNeg(BsdfSample(settings, isDirac, event, bsdf, medium, bounce, sample, conn, mis))
  {
    if sample.Sampled? {
      var e := event.(requestedLobe := AllButSpecular, wo := sample.wo);
      var wo := ToGlobal(e.frame, sample.wo);
      var medium' := bsdf.selectMedium(medium, Dot(wo, event.ng) < 0.0);
      var em := AttenuatedEmission(settings, isDirac, conn, medium', -1.0, bounce);
      AttenuatedEmissionNonNeg(settings, isDirac, conn, medium', -1.0, bounce);
      WeightedNonNeg(em, sample.throughput, mis(sample.pdf, conn.inboundPdf), 1.0);
    }
  }

  /** Direct lighting at a surface never subtracts light. */
  lemma SampleDirectNonNeg(settings: TraceSettings, light: Light, event: SurfaceEvent, bsdf: Bsdf,
                           medium: ActiveMedium, bounce: int, draws: DirectDraws, mis: Heuristic)
    requires ValidBsdf(bsdf) && ValidDraws(draws)
    ensures NonNeg(SampleDirect(settings, light, event, bsdf, medium, bounce, draws, mis))
  {
    if !bsdf.lobes.isPureSpecular && !bsdf.lobes.isForward {
      var ls := LightSample(settings, light.isDirac, event, bsdf, medium, bounce, draws.lightSample, draws.lightRay, mis);
      LightSampleNonNeg(settings, light.isDirac, event, bsdf, medium, bounce, draws.lightSample, draws.lightRay, mis);
      if !light.isDirac {
        var bs := BsdfSample(settings, light.isDirac, event, bsdf, medium, bounce, draws.directionSample, draws.directionRay, mis);
        BsdfSampleNonNeg(settings, light.isDirac, event, bsdf, medium, bounce, draws.directionSample, draws.directionRay, mis);
        AddNonNeg(ls, bs);
        assert SampleDirect(settings, light, event, bsdf, medium, bounce, draws, mis) == Add(ls, bs);
      } else {
        assert SampleDirect(settings, light, event, bsdf, medium, bounce, draws, mis) == ls;
      }
    }
  }

  lemma VolumeLightSampleNonNeg(settings: TraceSettings, isDirac: bool, phase: Phase, medium: ActiveMedium,
                                performMis: bool, bounce: int, sample: LightSampleResult,
                                conn: Connection, mis: Heuristic)
    requires ValidPhase(phase) && ValidConnection(conn)
    ensures NonNeg(VolumeLightSample(settings, isDirac, phase, medium, performMis, bounce, sample, conn, mis))
  {
    if sample.LightSampled? {
      var f := phase.eval(sample.d);
      var em := AttenuatedEmission(settings, isDirac, conn, medium, sample.dist, bounce);
      AttenuatedEmissionNonNeg(settings, isDirac, conn, medium, sample.dist, bounce);
      WeightedNonNeg(f, em, Reciprocal(sample.pdf), mis(sample.pdf, phase.pdf(sample.d)));
    }
  }

  lemma VolumePhaseSampleNonNeg(settings: TraceSettings, isDirac: bool, medium: ActiveMedium, bounce: int,
                                sample: DirectionSample, conn: Connection, mis: Heuristic)
    requires ValidDirection(sample) && ValidConnection(conn)
    ensures NonNeg(VolumePhaseSample(settings, isDirac, medium, bounce, sample, conn, mis))
  {
    if sample.Sampled? {
      var em := AttenuatedEmission(settings, isDirac, conn, medium, -1.0, bounce);
      AttenuatedEmissionNonNeg(settings, isDirac, conn, medium, -1.0, bounce);
      WeightedNonNeg(em, sample.throughput, mis(sample.pdf, conn.inboundPdf), 1.0);
    }
  }

  /** Direct lighting in a medium never subtracts light. */
  lemma VolumeSampleDirectNonNeg(settings: TraceSettings, light: Light, phase: Phase, medium: ActiveMedium,
                                 bounce: int, draws: DirectDraws, mis: Heuristic)
    requires ValidPhase(phase) && ValidDraws(draws)
    ensures NonNeg(VolumeSampleDirect(settings, light, phase, medium, bounce, draws, mis))
  {
    var ls := VolumeLightSample(settings, light.isDirac, phase, medium, true, bounce, draws.lightSample, draws.lightRay, mis);
    VolumeLightSampleNonNeg(settings, light.isDirac, phase, medium, true, bounce, draws.lightSample, draws.lightRay, mis);
    if !light.isDirac {
      var vs := VolumePhaseSample(settings, light.isDirac, medium, bounce, draws.directionSample, draws.directionRay, mis);
      VolumePhaseSampleNonNeg(settings, light.isDirac, medium, bounce, draws.directionSample, draws.directionRay, mis);
      AddNonNeg(ls, vs);
      assert VolumeSampleDirect(settings, light, phase, medium, bounce, draws, mis) == Add(ls, vs);
    } else {
      assert VolumeSampleDirect(settings, light, phase, medium, bounce, draws, mis) == ls;
    }
  }

  // ---------------------------------------------------------------------
  // Light selection

  /** No light, or several lights none of which is estimated to shine:
      no direct light at all. */
  lemma EstimateDirectNoLight(settings: TraceSettings, lights: seq<Light>, u: real, event: SurfaceEvent,
                              bsdf: Bsdf, medium: ActiveMedium, bounce: int,
                              draws: nat -> DirectDraws, mis: Heuristic)
    requires 0.0 <= u < 1.0
    requires |lights| == 0 || (|lights| >= 2 && forall i :: 0 <= i < |lights| ==> lights[i].approximateRadiance == 0.0)
    ensures IsBlack(EstimateDirect(settings, lights, u, event, bsdf, medium, bounce, draws, mis))
  {
    ChooseNoLightIff(Approximations(lights), u);
  }

  /** A single light is always sampled, with weight exactly 1. */
  lemma EstimateDirectSingleLight(settings: TraceSettings, lights: seq<Light>, u: real, event: SurfaceEvent,
                                  bsdf: Bsdf, medium: ActiveMedium, bounce: int,
                                  draws: nat -> DirectDraws, mis: Heuristic)
    requires 0.0 <= u < 1.0 && |lights| == 1
    ensures EstimateDirect(settings, lights, u, event, bsdf, medium, bounce, draws, mis)
            == SampleDirect(settings, lights[0], event, bsdf, medium, bounce, draws(0), mis)
  {
    ChooseNoLightIff(Approximations(lights), u);
    ScaleOne(SampleDirect(settings, lights[0], event, bsdf, medium, bounce, draws(0), mis));
  }

  /** Among several lights, light i is sampled exactly when the scaled
      draw falls in its slice of the cumulative weights, and its
      contribution is then scaled by the reciprocal of its selection
      probability, total / weight. */
  lemma EstimateDirectSelection(settings: TraceSettings, lights: seq<Light>, u: real, event: SurfaceEvent,
                                bsdf: Bsdf, medium: ActiveMedium, bounce: int,
                                draws: nat -> DirectDraws, mis: Heuristic, i: nat)
    requires 0.0 <= u < 1.0 && |lights| >= 2 && i < |lights|
    requires Sum(Weights(Approximations(lights))) > 0.0
    requires var w := Weights(Approximations(lights));
             Sum(w[..i]) <= ScaledDraw(u, Sum(w)) < Sum(w[..i + 1])
    ensures var w := Weights(Approximations(lights));
            w[i] > 0.0
            && EstimateDirect(settings, lights, u, event, bsdf, medium, bounce, draws, mis)
               == Scale(SampleDirect(settings, lights[i], event, bsdf, medium, bounce, draws(i), mis), Sum(w) / w[i])
  {
    ChooseUnbiased(Approximations(lights), u, i);
  }

  /** In a medium as at a surface: no light, or several lights none of
      which is estimated to shine, gives no direct light at all. */
  lemma VolumeEstimateDirectNoLight(settings: TraceSettings, lights: seq<Light>, u: real, phase: Phase,
                                    medium: ActiveMedium, bounce: int,
                                    draws: nat -> DirectDraws, mis: Heuristic)
    requires 0.0 <= u < 1.0
    requires |lights| == 0 || (|lights| >= 2 && forall i :: 0 <= i < |lights| ==> lights[i].approximateRadiance == 0.0)
    ensures IsBlack(VolumeEstimateDirect(settings, lights, u, phase, medium, bounce, draws, mis))
  {
    ChooseNoLightIff(Approximations(lights), u);
  }

  /** In a medium, a single light is always sampled, with weight exactly 1. */
  lemma VolumeEstimateDirectSingleLight(settings: TraceSettings, lights: seq<Light>, u: real, phase: Phase,
                                        medium: ActiveMedium, bounce: int,
                                        draws: nat -> DirectDraws, mis: Heuristic)
    requires 0.0 <= u < 1.0 && |lights| == 1
    ensures VolumeEstimateDirect(settings, lights, u, phase, medium, bounce, draws, mis)
            == VolumeSampleDirect(settings, lights[0], phase, medium, bounce, draws(0), mis)
  {
    ChooseNoLightIff(Approximations(lights), u);
    ScaleOne(VolumeSampleDirect(settings, lights[0], phase, medium, bounce, draws(0), mis));
  }

  /** In a medium, light i is sampled exactly when the scaled draw falls in
      its slice of the cumulative weights, and its contribution is scaled
      by total / weight. */
  lemma VolumeEstimateDirectSelection(settings: TraceSettings, lights: seq<Light>, u: real, phase: Phase,
                                      medium: ActiveMedium, bounce: int,
                                      draws: nat -> DirectDraws, mis: Heuristic, i: nat)
    requires 0.0 <= u < 1.0 && |lights| >= 2 && i < |lights|
    requires Sum(Weights(Approximations(lights))) > 0.0
    requires var w := Weights(Approximations(lights));
             Sum(w[..i]) <= ScaledDraw(u, Sum(w)) < Sum(w[..i + 1])
    ensures var w := Weights(Approximations(lights));
            w[i] > 0.0
            && VolumeEstimateDirect(settings, lights, u, phase, medium, bounce, draws, mis)
               == Scale(VolumeSampleDirect(settings, lights[i], phase, medium, bounce, draws(i), mis), Sum(w) / w[i])
  {
    ChooseUnbiased(Approximations(lights), u, i);
  }

  /** Direct light after selection never subtracts light. */
  lemma EstimateDirectNonNeg(settings: TraceSettings, lights: seq<Light>, u: real, event: SurfaceEvent,
                             bsdf: Bsdf, medium: ActiveMedium, bounce: int,
                             draws: nat -> DirectDraws, mis: Heuristic)
    requires 0.0 <= u < 1.0
    requires ValidBsdf(bsdf) && forall i :: ValidDraws(draws(i))
    ensures NonNeg(EstimateDirect(settings, lights, u, event, bsdf, medium, bounce, draws, mis))
  {
    var c := Choose(Approximations(lights), u);
    if c.Chosen? {
      var r := SampleDirect(settings, lights[c.index], event, bsdf, medium, bounce, draws(c.index), mis);
      SampleDirectNonNeg(settings, lights[c.index], event, bsdf, medium, bounce, draws(c.index), mis);
      ScaleNonNeg(r, c.weight);
    }
  }

  /** The same in a medium. */
  lemma VolumeEstimateDirectNonNeg(settings: TraceSettings, lights: seq<Light>, u: real, phase: Phase,
                                   medium: ActiveMedium, bounce: int,
                                   draws: nat -> DirectDraws, mis: Heuristic)
    requires 0.0 <= u < 1.0
    requires ValidPhase(phase) && forall i :: ValidDraws(draws(i))
    ensures NonNeg(VolumeEstimateDirect(settings, lights, u, phase, medium, bounce, draws, mis))
  {
    var c := Choose(Approximations(lights), u);
    if c.Chosen? {
      var r := VolumeSampleDirect(settings, lights[c.index], phase, medium, bounce, draws(c.index), mis);
      VolumeSampleDirectNonNeg(settings, lights[c.index], phase, medium, bounce, draws(c.index), mis);
      ScaleNonNeg(r, c.weight);
    }
  }
}
