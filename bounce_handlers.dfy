/** The per-bounce state machine of a path (TraceBase::handleVolume and
    TraceBase::handleSurface). Both handlers update, by reference, the
    path's throughput, accumulated emission, `wasSpecular` and
    `hitSurface` flags, active medium, medium state and ray; here they are
    in-out values gathered in `PathVars`. The medium, the BSDF sample, the
    emission of the hit surface and the direct-lighting draws are oracle
    inputs. */
module BounceHandlers {
  import opened Core
  import opened ScatterEvents
  import opened LightSelection
  import opened DirectLighting

  /** A uniform draw in [0, 1) of `SampleGenerator::next1D`. */
  type UnitDraw = x: real | 0.0 <= x < 1.0 witness 0.0

  /** The parts of a `Ray` the handlers change: its direction and whether
      it is still the camera's primary ray. Positions and the distance
      bounds are not modelled. */
  datatype Ray = Ray(dir: Vec3, primary: bool)

  /** The by-reference state of a path. */
  datatype PathVars = PathVars(
    medium: ActiveMedium,
    throughput: Rgb,
    emission: Rgb,
    wasSpecular: bool,
    hitSurface: bool,
    state: MediumState,
    ray: Ray)

  /** A handler's boolean result (false: the path ends) and the path's
      state afterwards. */
  datatype Outcome = Outcome(ok: bool, vars: PathVars)

  /** `Medium::sampleDistance`: failure (the state is left as it was), or
      the sampled distance `t`, the event's throughput weight and the
      medium state after the step. */
  datatype DistanceSample = NoDistance | Distance(t: real, weight: Rgb, next: MediumState)

  /** The medium's answers at this bounce: the distance sample, its
      `emission` at the event, whether `absorb` ends the path, the
      `scatter` sample (a global direction and its weight), and the phase
      function at the scattering point. */
  datatype MediumAnswers = MediumAnswers(
    distance: DistanceSample,
    emission: Rgb,
    absorbed: bool,
    scatter: DirectionSample,
    phase: Phase)

  /** `Bsdf::sample` for all lobes: failure, or a local outgoing direction,
      its weight (`event.throughput`) and whether the sampled lobe is
      specular. */
  datatype LobeSample = LobeFailed | LobeSampled(wo: Vec3, weight: Rgb, specular: bool)

  /** The answers at a surface hit: the BSDF's forward transparency
      (`eval` of the forward event), the supplemental draw it is compared
      with, the primitive's emission at the hit, whether the primitive is
      samplable as a light, and the BSDF sample. */
  datatype SurfaceAnswers = SurfaceAnswers(
    transparency: Rgb,
    transparencyDraw: UnitDraw,
    emission: Rgb,
    isSamplable: bool,
    sample: LobeSample)

  /** What next-event estimation from this bounce draws: the scene's lights,
      the selection draw, the per-light strategy draws and the heuristic. */
  datatype DirectContext = DirectContext(
    lights: seq<Light>,
    u: UnitDraw,
    draws: nat -> DirectDraws,
    mis: Heuristic)

  // ---------------------------------------------------------------------
  // handleVolume

  /** Whether next-event estimation runs at a scattering point in a medium. */
  predicate VolumeSamplesLights(settings: TraceSettings, bounce: int, adjoint: bool, enableLightSampling: bool)
  {
    !adjoint && enableLightSampling && bounce < settings.maxBounces - 1
  }

  /** `handleVolume` for a ray whose segment through `v.medium` ends at
      distance `maxT` (the next surface, or the end of the scene): sample a
      distance; weight the throughput; add the medium's emission; either
      scatter inside the medium (direct light, absorption, a new direction)
      or pass on to the surface at `maxT`. */
  function VolumeStep(settings: TraceSettings, v: PathVars, bounce: int, adjoint: bool,
                      enableLightSampling: bool, maxT: real, m: MediumAnswers,
                      ctx: DirectContext): Outcome
  {
    match m.distance
    case NoDistance => Outcome(false, v)
    case Distance(t, weight, next) =>
      var throughput := Mul(v.throughput, weight);
      var emission := if !adjoint && bounce >= settings.minBounces
                      then Add(v.emission, Mul(throughput, m.emission)) else v.emission;
      var wasSpecular := if !enableLightSampling then !v.hitSurface else v.wasSpecular;
      var v1 := v.(throughput := throughput, emission := emission, wasSpecular := wasSpecular, state := next);
      if t < maxT then
        var v2 := if VolumeSamplesLights(settings, bounce, adjoint, enableLightSampling)
                  then
                    var direct := VolumeEstimateDirect(settings, ctx.lights, ctx.u, m.phase, v.medium,
                                                       bounce + 1, ctx.draws, ctx.mis);
                    v1.(wasSpecular := false, emission := Add(emission, Mul(throughput, direct)))
                  else v1;
        if m.absorbed || m.scatter.NoDirection? then Outcome(false, v2)
        else Outcome(true, v2.(ray := Ray(m.scatter.wo, false),
                               throughput := Mul(throughput, m.scatter.throughput),
                               hitSurface := false))
      else Outcome(true, v1.(hitSurface := true))
  }

  /** `TraceBase::handleVolume`, updating the path's variables in order:
      the step-by-step form of `VolumeStep`, as the source writes its
      by-reference updates. */
  method HandleVolume(settings: TraceSettings, v: PathVars, bounce: int, adjoint: bool,
                      enableLightSampling: bool, maxT: real, m: MediumAnswers, ctx: DirectContext)
    returns (ok: bool, v': PathVars)
    ensures Outcome(ok, v') == VolumeStep(settings, v, bounce, adjoint, enableLightSampling, maxT, m, ctx)
  {
    var throughput, emission, wasSpecular, hitSurface, state, ray :=
      v.throughput, v.emission, v.wasSpecular, v.hitSurface, v.state, v.ray;
    if m.distance.NoDistance? {
      return false, v;
    }
    state := m.distance.next;
    throughput := Mul(throughput, m.distance.weight);

    if !adjoint && bounce >= settings.minBounces {
      emission := Add(emission, Mul(throughput, m.emission));
    }
    if !enableLightSampling {
      wasSpecular := !hitSurface;
    }

    if m.distance.t < maxT {
      if !adjoint && enableLightSampling && bounce < settings.maxBounces - 1 {
        wasSpecular := false;
        var direct := VolumeEstimateDirect(settings, ctx.lights, ctx.u, m.phase, v.medium,
                                           bounce + 1, ctx.draws, ctx.mis);
        emission := Add(emission, Mul(throughput, direct));
      }
      v' := PathVars(v.medium, throughput, emission, wasSpecular, hitSurface, state, ray);
      if m.absorbed {
        return false, v';
      }
      if m.scatter.NoDirection? {
        return false, v';
      }
      ray := Ray(m.scatter.wo, false);
      throughput := Mul(throughput, m.scatter.throughput);
      hitSurface := false;
    } else {
      hitSurface := true;
    }
    ok := true;
    v' := PathVars(v.medium, throughput, emission, wasSpecular, hitSurface, state, ray);
  }

  /** `handleVolume` ends the path exactly when the distance sample fails,
      or, for a scattering event inside the medium, when the medium absorbs
      the path or fails to scatter it. */
  lemma VolumeFailure(settings: TraceSettings, v: PathVars, bounce: int, adjoint: bool,
                      enableLightSampling: bool, maxT: real, m: MediumAnswers, ctx: DirectContext)
    ensures !VolumeStep(settings, v, bounce, adjoint, enableLightSampling, maxT, m, ctx).ok
            <==> m.distance.NoDistance?
                 || (m.distance.t < maxT && (m.absorbed || m.scatter.NoDirection?))
  {
  }

  /** On success `hitSurface` records whether the sampled distance reached
      the end of the segment; the medium never changes, and the medium
      state is the one the distance sample left. */
  lemma VolumeHitSurface(settings: TraceSettings, v: PathVars, bounce: int, adjoint: bool,
                         enableLightSampling: bool, maxT: real, m: MediumAnswers, ctx: DirectContext)
    ensures var r := VolumeStep(settings, v, bounce, adjoint, enableLightSampling, maxT, m, ctx);
            && (r.ok ==> r.vars.hitSurface == (m.distance.t >= maxT))
            && r.vars.medium == v.medium
            && r.vars.state == (if m.distance.Distance? then m.distance.next else v.state)
  {
  }

  /** Reaching the surface keeps the ray; scattering in the medium replaces
      it by a non-primary ray along the scattered direction and weights the
      throughput by both samples. */
  lemma VolumeRay(settings: TraceSettings, v: PathVars, bounce: int, adjoint: bool,
                  enableLightSampling: bool, maxT: real, m: MediumAnswers, ctx: DirectContext)
    requires m.distance.Distance?
    ensures var r := VolumeStep(settings, v, bounce, adjoint, enableLightSampling, maxT, m, ctx);
            var throughput := Mul(v.throughput, m.distance.weight);
            && (m.distance.t >= maxT ==> r.vars.ray == v.ray && r.vars.throughput == throughput)
            && (r.ok && m.distance.t < maxT ==>
                  r.vars.ray == Ray(m.scatter.wo, false)
                  && r.vars.throughput == Mul(throughput, m.scatter.throughput))
  {
  }

  /** Without light sampling, `wasSpecular` becomes "the previous segment
      did not end on a surface"; with light sampling it is cleared exactly
      when next-event estimation runs at a scattering point. */
  lemma VolumeWasSpecular(settings: TraceSettings, v: PathVars, bounce: int, adjoint: bool,
                          enableLightSampling: bool, maxT: real, m: MediumAnswers, ctx: DirectContext)
    requires m.distance.Distance?
    ensures var r := VolumeStep(settings, v, bounce, adjoint, enableLightSampling, maxT, m, ctx);
            && (!enableLightSampling ==> r.vars.wasSpecular == !v.hitSurface)
            && (enableLightSampling ==>
                  (r.vars.wasSpecular
                   <==> v.wasSpecular && !(m.distance.t < maxT && VolumeSamplesLights(settings, bounce, adjoint, true))))
  {
  }

  /** The medium's emission is added only outside adjoint tracing and from
      `minBounces` on; direct light only at a scattering point, outside
      adjoint tracing, with light sampling on and at least two bounces of
      budget left, evaluated one bounce further. */
  lemma VolumeEmission(settings: TraceSettings, v: PathVars, bounce: int, adjoint: bool,
                       enableLightSampling: bool, maxT: real, m: MediumAnswers, ctx: DirectContext)
    requires m.distance.Distance?
    ensures var r := VolumeStep(settings, v, bounce, adjoint, enableLightSampling, maxT, m, ctx);
            var throughput := Mul(v.throughput, m.distance.weight);
            var withMedium := if !adjoint && bounce >= settings.minBounces
                              then Add(v.emission, Mul(throughput, m.emission)) else v.emission;
            && (adjoint ==> r.vars.emission == v.emission)
            && (!(m.distance.t < maxT && VolumeSamplesLights(settings, bounce, adjoint, enableLightSampling)) ==>
                  r.vars.emission == withMedium)
            && (m.distance.t < maxT && VolumeSamplesLights(settings, bounce, adjoint, enableLightSampling) ==>
                  r.vars.emission
                  == Add(withMedium, Mul(throughput,
                                         VolumeEstimateDirect(settings, ctx.lights, ctx.u, m.phase, v.medium,
                                                              bounce + 1, ctx.draws, ctx.mis))))
  {
  }

  /** Valid oracles keep throughput and emission non-negative. */
  lemma VolumeStepNonNeg(settings: TraceSettings, v: PathVars, bounce: int, adjoint: bool,
                         enableLightSampling: bool, maxT: real, m: MediumAnswers, ctx: DirectContext)
    requires NonNeg(v.throughput) && NonNeg(v.emission)
    requires m.distance.Distance? ==> NonNeg(m.distance.weight)
    requires NonNeg(m.emission) && ValidDirection(m.scatter) && ValidPhase(m.phase)
    requires forall i :: ValidDraws(ctx.draws(i))
    ensures var r := VolumeStep(settings, v, bounce, adjoint, enableLightSampling, maxT, m, ctx);
            NonNeg(r.vars.throughput) && NonNeg(r.vars.emission)
  {
    if m.distance.Distance? {
      var throughput := Mul(v.throughput, m.distance.weight);
      MulNonNeg(v.throughput, m.distance.weight);
      MulNonNeg(throughput, m.emission);
      AddNonNeg(v.emission, Mul(throughput, m.emission));
      var emission := if !adjoint && bounce >= settings.minBounces
                      then Add(v.emission, Mul(throughput, m.emission)) else v.emission;
      if m.distance.t < maxT {
        VolumeScatterNonNeg(settings, throughput, emission, v.medium, bounce, m, ctx);
      }
    }
  }

  lemma VolumeScatterNonNeg(settings: TraceSettings, throughput: Rgb, emission: Rgb, medium: ActiveMedium,
                            bounce: int, m: MediumAnswers, ctx: DirectContext)
    requires NonNeg(throughput) && NonNeg(emission)
    requires ValidDirection(m.scatter) && ValidPhase(m.phase)
    requires forall i :: ValidDraws(ctx.draws(i))
    ensures var direct := VolumeEstimateDirect(settings, ctx.lights, ctx.u, m.phase, medium,
                                               bounce + 1, ctx.draws, ctx.mis);
            NonNeg(Add(emission, Mul(throughput, direct)))
            && (m.scatter.Sampled? ==> NonNeg(Mul(throughput, m.scatter.throughput)))
  {
    var direct := VolumeEstimateDirect(settings, ctx.lights, ctx.u, m.phase, medium,
                                       bounce + 1, ctx.draws, ctx.mis);
    VolumeEstimateDirectNonNeg(settings, ctx.lights, ctx.u, m.phase, medium, bounce + 1, ctx.draws, ctx.mis);
    MulNonNeg(throughput, direct);
    AddNonNeg(emission, Mul(throughput, direct));
    if m.scatter.Sampled? {
      MulNonNeg(throughput, m.scatter.throughput);
    }
  }

  // ---------------------------------------------------------------------
  // handleSurface

  /** The emission gathered at a surface hit before its BSDF is sampled:
      with light sampling, the surface's own emission only when the
      previous bounce could not have found it by next-event estimation
      (it was specular, or the surface is not a samplable light), plus
      direct light one bounce further while the bounce budget lasts;
      without it, the surface's emission. Nothing before `minBounces`
      and nothing when tracing adjoint paths. */
  function SurfaceEmission(settings: TraceSettings, v: PathVars, event: SurfaceEvent, bsdf: Bsdf,
                           bounce: int, adjoint: bool, enableLightSampling: bool,
                           s: SurfaceAnswers, ctx: DirectContext): Rgb
  {
    if adjoint then v.emission
    else if enableLightSampling then
      var e1 := if (v.wasSpecular || !s.isSamplable) && bounce >= settings.minBounces
                then Add(v.emission, Mul(s.emission, v.throughput)) else v.emission;
      if bounce < settings.maxBounces - 1
      then Add(e1, Mul(EstimateDirect(settings, ctx.lights, ctx.u, event, bsdf, v.medium, bounce + 1,
                                      ctx.draws, ctx.mis), v.throughput))
      else e1
    else if bounce >= settings.minBounces then Add(v.emission, Mul(s.emission, v.throughput))
    else v.emission
  }

  /** The emission step of `handleSurface`, adding to the path's emission
      in the source's order: the step-by-step form of `SurfaceEmission`. */
  method GatherSurfaceEmission(settings: TraceSettings, v: PathVars, event: SurfaceEvent, bsdf: Bsdf,
                               bounce: int, adjoint: bool, enableLightSampling: bool,
                               s: SurfaceAnswers, ctx: DirectContext)
    returns (emission: Rgb)
    ensures emission == SurfaceEmission(settings, v, event, bsdf, bounce, adjoint, enableLightSampling, s, ctx)
  {
    emission := v.emission;
    if !adjoint {
      if enableLightSampling {
        if (v.wasSpecular || !s.isSamplable) && bounce >= settings.minBounces {
          emission := Add(emission, Mul(s.emission, v.throughput));
        }
        if bounce < settings.maxBounces - 1 {
          var direct := EstimateDirect(settings, ctx.lights, ctx.u, event, bsdf, v.medium, bounce + 1,
                                       ctx.draws, ctx.mis);
          emission := Add(emission, Mul(direct, v.throughput));
        }
      } else if bounce >= settings.minBounces {
        emission := Add(emission, Mul(s.emission, v.throughput));
      }
    }
  }

  /** The common end of `handleSurface`: select the medium on the side of
      the geometric normal the new direction leaves by, reset the medium
      state and continue along `wo`. */
  function LeaveSurface(v: PathVars, event: SurfaceEvent, bsdf: Bsdf, wo: Vec3): PathVars
  {
    v.(medium := bsdf.selectMedium(v.medium, Dot(wo, event.ng) < 0.0),
       state := Initial,
       ray := Ray(wo, v.ray.primary))
  }

  /** `handleSurface`: with probability equal to the transparency average
      the path passes straight through, weighted by transparency over its
      average; otherwise emission and direct light are gathered, the BSDF
      is sampled for all lobes, the sampled direction is checked for
      consistency, and the throughput, `wasSpecular` and the primary-ray
      flag follow the sampled lobe. */
  function SurfaceStep(settings: TraceSettings, v: PathVars, event: SurfaceEvent, bsdf: Bsdf,
                       bounce: int, adjoint: bool, enableLightSampling: bool,
                       s: SurfaceAnswers, ctx: DirectContext): Outcome
  {
    var transparencyScalar := Avg(s.transparency);
    if s.transparencyDraw < transparencyScalar then
      var v1 := v.(throughput := Mul(v.throughput, Div(s.transparency, transparencyScalar)));
      Outcome(true, LeaveSurface(v1, event, bsdf, v.ray.dir))
    else
      var v1 := v.(emission := SurfaceEmission(settings, v, event, bsdf, bounce, adjoint,
                                               enableLightSampling, s, ctx));
      match s.sample
      case LobeFailed => Outcome(false, v1)
      case LobeSampled(woLocal, weight, specular) =>
        var wo := ToGlobal(event.frame, woLocal);
        if !IsConsistent(settings, event.(requestedLobe := AllLobes, wo := woLocal), wo)
        then Outcome(false, v1)
        else
          var v2 := v1.(throughput := Mul(v.throughput, weight), wasSpecular := specular,
                        ray := v.ray.(primary := v.ray.primary && specular));
          Outcome(true, LeaveSurface(v2, event, bsdf, wo))
  }

  /** `TraceBase::handleSurface`, updating the path's variables in order:
      the step-by-step form of `SurfaceStep`, as the source writes its
      by-reference updates. */
  method HandleSurface(settings: TraceSettings, v: PathVars, event: SurfaceEvent, bsdf: Bsdf,
                       bounce: int, adjoint: bool, enableLightSampling: bool,
                       s: SurfaceAnswers, ctx: DirectContext)
    returns (ok: bool, v': PathVars)
    ensures Outcome(ok, v') == SurfaceStep(settings, v, event, bsdf, bounce, adjoint, enableLightSampling, s, ctx)
  {
    var medium, throughput, emission, wasSpecular, state, ray :=
      v.medium, v.throughput, v.emission, v.wasSpecular, v.state, v.ray;
    var transparencyScalar := Avg(s.transparency);
    var wo: Vec3;
    if s.transparencyDraw < transparencyScalar {
      wo := ray.dir;
      throughput := Mul(throughput, Div(s.transparency, transparencyScalar));
    } else {
      emission := GatherSurfaceEmission(settings, v, event, bsdf, bounce, adjoint, enableLightSampling, s, ctx);
      v' := v.(emission := emission);
      if s.sample.LobeFailed? {
        return false, v';
      }
      wo := ToGlobal(event.frame, s.sample.wo);
      if !IsConsistent(settings, event.(requestedLobe := AllLobes, wo := s.sample.wo), wo) {
        return false, v';
      }
      throughput := Mul(throughput, s.sample.weight);
      wasSpecular := s.sample.specular;
      if !wasSpecular {
        ray := ray.(primary := false);
      }
    }
    var geometricBackside := Dot(wo, event.ng) < 0.0;
    medium := bsdf.selectMedium(medium, geometricBackside);
    state := Initial;
    ray := Ray(wo, ray.primary);
    ok := true;
    v' := PathVars(medium, throughput, emission, wasSpecular, v.hitSurface, state, ray);
  }

  /** `handleSurface` ends the path exactly when the path does not pass
      through and the BSDF sample fails or its direction is inconsistent. */
  lemma SurfaceFailure(settings: TraceSettings, v: PathVars, event: SurfaceEvent, bsdf: Bsdf,
                       bounce: int, adjoint: bool, enableLightSampling: bool,
                       s: SurfaceAnswers, ctx: DirectContext)
    ensures !SurfaceStep(settings, v, event, bsdf, bounce, adjoint, enableLightSampling, s, ctx).ok
            <==> Avg(s.transparency) <= s.transparencyDraw
                 && (s.sample.LobeFailed?
                     || !IsConsistent(settings, event.(requestedLobe := AllLobes, wo := s.sample.wo),
                                      ToGlobal(event.frame, s.sample.wo)))
  {
  }

  /** A draw below the transparency average passes straight through: the
      direction, the primary flag, `wasSpecular` and the emission are kept,
      and the throughput is weighted by transparency over its average. */
  lemma SurfacePassThrough(settings: TraceSettings, v: PathVars, event: SurfaceEvent, bsdf: Bsdf,
                           bounce: int, adjoint: bool, enableLightSampling: bool,
                           s: SurfaceAnswers, ctx: DirectContext)
    requires s.transparencyDraw < Avg(s.transparency)
    ensures var r := SurfaceStep(settings, v, event, bsdf, bounce, adjoint, enableLightSampling, s, ctx);
            && r.ok
            && r.vars.ray == v.ray
            && r.vars.emission == v.emission
            && r.vars.wasSpecular == v.wasSpecular
            && r.vars.throughput == Mul(v.throughput, Div(s.transparency, Avg(s.transparency)))
  {
  }

  /** After a successful BSDF sample, `wasSpecular` is the sampled lobe's
      specularity, the ray stays primary only through specular lobes, the
      ray follows the sampled direction and the throughput is weighted by
      the sample. */
  lemma SurfaceScatter(settings: TraceSettings, v: PathVars, event: SurfaceEvent, bsdf: Bsdf,
                       bounce: int, adjoint: bool, enableLightSampling: bool,
                       s: SurfaceAnswers, ctx: DirectContext)
    requires Avg(s.transparency) <= s.transparencyDraw
    ensures var r := SurfaceStep(settings, v, event, bsdf, bounce, adjoint, enableLightSampling, s, ctx);
            r.ok ==>
              && r.vars.wasSpecular == s.sample.specular
              && r.vars.ray.primary == (v.ray.primary && s.sample.specular)
              && r.vars.ray.dir == ToGlobal(event.frame, s.sample.wo)
              && r.vars.throughput == Mul(v.throughput, s.sample.weight)
  {
  }

  /** Whenever `handleSurface` succeeds the medium state is reset and the
      medium is the BSDF's choice for the side the new direction leaves by;
      `hitSurface` is never changed. */
  lemma SurfaceResetsState(settings: TraceSettings, v: PathVars, event: SurfaceEvent, bsdf: Bsdf,
                           bounce: int, adjoint: bool, enableLightSampling: bool,
                           s: SurfaceAnswers, ctx: DirectContext)
    ensures var r := SurfaceStep(settings, v, event, bsdf, bounce, adjoint, enableLightSampling, s, ctx);
            && r.vars.hitSurface == v.hitSurface
            && (r.ok ==>
                  r.vars.state == Initial
                  && r.vars.medium == bsdf.selectMedium(v.medium, Dot(r.vars.ray.dir, event.ng) < 0.0))
            && (!r.ok ==> r.vars.state == v.state && r.vars.medium == v.medium && r.vars.ray == v.ray)
  {
  }

  /** The gating of emission at a surface: nothing on a pass-through or an
      adjoint path; without light sampling the surface's emission from
      `minBounces` on; with light sampling, a samplable surface reached by a
      non-specular bounce contributes no emission of its own (the previous
      bounce's next-event estimation accounted for it), nor does any surface
      below `minBounces`, and direct light is added while the bounce budget
      lasts. */
  lemma SurfaceEmissionGates(settings: TraceSettings, v: PathVars, event: SurfaceEvent, bsdf: Bsdf,
                             bounce: int, adjoint: bool, enableLightSampling: bool,
                             s: SurfaceAnswers, ctx: DirectContext)
    ensures var r := SurfaceStep(settings, v, event, bsdf, bounce, adjoint, enableLightSampling, s, ctx);
            var scattered := Avg(s.transparency) <= s.transparencyDraw;
            var own := Add(v.emission, Mul(s.emission, v.throughput));
            var direct := EstimateDirect(settings, ctx.lights, ctx.u, event, bsdf, v.medium, bounce + 1,
                                         ctx.draws, ctx.mis);
            && (!scattered || adjoint ==> r.vars.emission == v.emission)
            && (scattered && !adjoint && !enableLightSampling ==>
                  r.vars.emission == if bounce >= settings.minBounces then own else v.emission)
            && (scattered && !adjoint && enableLightSampling
                && ((!v.wasSpecular && s.isSamplable) || bounce < settings.minBounces) ==>
                  r.vars.emission
                  == if bounce < settings.maxBounces - 1 then Add(v.emission, Mul(direct, v.throughput))
                     else v.emission)
            && (scattered && !adjoint && enableLightSampling && (v.wasSpecular || !s.isSamplable)
                && bounce >= settings.minBounces ==>
                  r.vars.emission
                  == if bounce < settings.maxBounces - 1 then Add(own, Mul(direct, v.throughput)) else own)
  {
  }

  /** Valid oracles keep throughput and emission non-negative. */
  lemma SurfaceStepNonNeg(settings: TraceSettings, v: PathVars, event: SurfaceEvent, bsdf: Bsdf,
                          bounce: int, adjoint: bool, enableLightSampling: bool,
                          s: SurfaceAnswers, ctx: DirectContext)
    requires NonNeg(v.throughput) && NonNeg(v.emission)
    requires NonNeg(s.transparency) && NonNeg(s.emission)
    requires s.sample.LobeSampled? ==> NonNeg(s.sample.weight)
    requires ValidBsdf(bsdf) && forall i :: ValidDraws(ctx.draws(i))
    ensures var r := SurfaceStep(settings, v, event, bsdf, bounce, adjoint, enableLightSampling, s, ctx);
            NonNeg(r.vars.throughput) && NonNeg(r.vars.emission)
  {
    var transparencyScalar := Avg(s.transparency);
    if s.transparencyDraw < transparencyScalar {
      DivNonNeg(s.transparency, transparencyScalar);
      MulNonNeg(v.throughput, Div(s.transparency, transparencyScalar));
    } else {
      SurfaceEmissionNonNeg(settings, v, event, bsdf, bounce, adjoint, enableLightSampling, s, ctx);
      if s.sample.LobeSampled? {
        MulNonNeg(v.throughput, s.sample.weight);
      }
    }
  }

  lemma SurfaceEmissionNonNeg(settings: TraceSettings, v: PathVars, event: SurfaceEvent, bsdf: Bsdf,
                              bounce: int, adjoint: bool, enableLightSampling: bool,
                              s: SurfaceAnswers, ctx: DirectContext)
    requires NonNeg(v.throughput) && NonNeg(v.emission) && NonNeg(s.emission)
    requires ValidBsdf(bsdf) && forall i :: ValidDraws(ctx.draws(i))
    ensures NonNeg(SurfaceEmission(settings, v, event, bsdf, bounce, adjoint, enableLightSampling, s, ctx))
  {
    var own := Add(v.emission, Mul(s.emission, v.throughput));
    MulNonNeg(s.emission, v.throughput);
    AddNonNeg(v.emission, Mul(s.emission, v.throughput));
    var e1 := if (v.wasSpecular || !s.isSamplable) && bounce >= settings.minBounces then own else v.emission;
    var direct := EstimateDirect(settings, ctx.lights, ctx.u, event, bsdf, v.medium, bounce + 1,
                                 ctx.draws, ctx.mis);
    EstimateDirectNonNeg(settings, ctx.lights, ctx.u, event, bsdf, v.medium, bounce + 1, ctx.draws, ctx.mis);
    MulNonNeg(direct, v.throughput);
    AddNonNeg(e1, Mul(direct, v.throughput));
  }
}
