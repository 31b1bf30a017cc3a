/** The generalized shadow ray (TraceBase::generalizedShadowRay): the
    attenuation of light travelling along a ray through a chain of
    transparent surfaces and participating media, up to an optional end
    cap (the light being connected to). */
module ShadowRays {
  import opened Core

  /** One result of `Scene::intersect` along the shadow ray: nothing, or a
      primitive. For a primitive: whether it is the end cap, the BSDF's
      response to the forward (pass-through) event, and
      `Primitive::hitBackside` at the hit. */
  datatype Intersection =
    | Miss
    | Hit(isEndCap: bool, forwardResponse: Rgb, hitBackside: bool)

  /** The scene as seen by one shadow ray. `hits[k]` is what the k-th call
      to `intersect` reports (after it, nothing is hit); the ray's geometry
      is folded into these answers. `mediumTransmittance(m, k)` is
      `Medium::transmittance` of medium `m` over the k-th ray segment, and
      `selectMedium(k, m, backside)` is `Bsdf::selectMedium` of the
      BSDF hit at the end of segment k. */
  datatype ShadowScene = ShadowScene(
    hits: seq<Intersection>,
    mediumTransmittance: (MediumId, nat) -> Rgb,
    selectMedium: (nat, ActiveMedium, bool) -> ActiveMedium)

  /** Scene answers are non-negative colours. */
  ghost predicate ValidScene(scene: ShadowScene)
  {
    && (forall m, k :: NonNeg(scene.mediumTransmittance(m, k)))
    && (forall k :: 0 <= k < |scene.hits| && scene.hits[k].Hit? ==> NonNeg(scene.hits[k].forwardResponse))
  }

  function IntersectAt(scene: ShadowScene, k: nat): Intersection
  {
    if k < |scene.hits| then scene.hits[k] else Miss
  }

  /** A hit that the walk passes through (neither a miss nor the end cap). */
  predicate IsOccluder(i: Intersection) { i.Hit? && !i.isEndCap }

  /** The medium's transmittance over segment k, or white outside media. */
  function MediumFactor(scene: ShadowScene, k: nat, medium: ActiveMedium): Rgb
  {
    if medium.InMedium? then scene.mediumTransmittance(medium.id, k) else White()
  }

  /** What the loop body computes, one iteration per segment: `throughput`
      and `bounce` are the loop's running values at segment `k`, with
      `medium` the medium the segment runs through. */
  function Walk(settings: TraceSettings, scene: ShadowScene, k: nat, medium: ActiveMedium,
                bounce: int, throughput: Rgb): Rgb
    decreases |scene.hits| - k
  {
    var hit := IntersectAt(scene, k);
    if IsOccluder(hit) && IsBlack(hit.forwardResponse) then Black()
    else if IsOccluder(hit) && bounce + 1 >= settings.maxBounces then Black()
    else
      var bounce' := if IsOccluder(hit) then bounce + 1 else bounce;
      var throughput' := Mul(if IsOccluder(hit) then Mul(throughput, hit.forwardResponse) else throughput,
                             MediumFactor(scene, k, medium));
      if !IsOccluder(hit) then (if bounce' >= settings.minBounces then throughput' else Black())
      else Walk(settings, scene, k + 1, scene.selectMedium(k, medium, !hit.hitBackside), bounce', throughput')
  }

  /** `generalizedShadowRay(ray, medium, endCap, bounce)`. */
  method GeneralizedShadowRay(settings: TraceSettings, scene: ShadowScene,
                              medium0: ActiveMedium, bounce0: int) returns (r: Rgb)
    ensures r == Walk(settings, scene, 0, medium0, bounce0, White())
  {
    var k: nat := 0;
    var medium, bounce, throughput := medium0, bounce0, White();
    while true
      invariant k <= |scene.hits|
      invariant Walk(settings, scene, k, medium, bounce, throughput) == Walk(settings, scene, 0, medium0, bounce0, White())
      decreases |scene.hits| - k
    {
      var done;
      done, r, medium, bounce, throughput := ShadowRayStep(settings, scene, k, medium, bounce, throughput);
      if done {
        return;
      }
      k := k + 1;
    }
  }

  /** One pass of the loop body, for segment k: either the walk ends with
      result `r`, or it continues through the surface hit at the end of
      segment k with the updated medium, bounce count and throughput. */
  method ShadowRayStep(settings: TraceSettings, scene: ShadowScene, k: nat, medium: ActiveMedium,
                       bounce: int, throughput: Rgb)
    returns (done: bool, r: Rgb, medium': ActiveMedium, bounce': int, throughput': Rgb)
    ensures done ==> r == Walk(settings, scene, k, medium, bounce, throughput)
    ensures !done ==> k < |scene.hits|
                      && Walk(settings, scene, k + 1, medium', bounce', throughput')
                         == Walk(settings, scene, k, medium, bounce, throughput)
  {
    var hit := IntersectAt(scene, k);
    WalkStep(settings, scene, k, medium, bounce, throughput);
    ghost var tp := Mul(if IsOccluder(hit) then Mul(throughput, hit.forwardResponse) else throughput,
                        MediumFactor(scene, k, medium));
    medium', bounce', throughput' := medium, bounce, throughput;
    if IsOccluder(hit) {
      var transmittance := hit.forwardResponse;
      if IsBlack(transmittance) {
        return true, Black(), medium', bounce', throughput';
      }
      throughput' := Mul(throughput', transmittance);
      bounce' := bounce' + 1;
      if bounce' >= settings.maxBounces {
        return true, Black(), medium', bounce', throughput';
      }
    }
    if medium.InMedium? {
      throughput' := Mul(throughput', scene.mediumTransmittance(medium.id, k));
    } else {
      MulWhite(throughput');
    }
    assert throughput' == tp;
    if !IsOccluder(hit) {
      return true, (if bounce' >= settings.minBounces then throughput' else Black()), medium', bounce', throughput';
    }
    medium' := scene.selectMedium(k, medium, !hit.hitBackside);
    done, r := false, Black();
  }

  lemma MulWhite(c: Rgb)
    ensures Mul(c, White()) == c
  {
  }

  /** One iteration of the walk, as the loop performs it. */
  lemma WalkStep(settings: TraceSettings, scene: ShadowScene, k: nat, medium: ActiveMedium,
                 bounce: int, throughput: Rgb)
    ensures var hit := IntersectAt(scene, k);
            var tp := Mul(if IsOccluder(hit) then Mul(throughput, hit.forwardResponse) else throughput,
                          MediumFactor(scene, k, medium));
            var b := if IsOccluder(hit) then bounce + 1 else bounce;
            && (IsOccluder(hit) && IsBlack(hit.forwardResponse) ==>
                  Walk(settings, scene, k, medium, bounce, throughput) == Black())
            && (IsOccluder(hit) && b >= settings.maxBounces ==>
                  Walk(settings, scene, k, medium, bounce, throughput) == Black())
            && (!IsOccluder(hit) ==>
                  Walk(settings, scene, k, medium, bounce, throughput) == if b >= settings.minBounces then tp else Black())
            && (IsOccluder(hit) && !IsBlack(hit.forwardResponse) && b < settings.maxBounces ==>
                  Walk(settings, scene, k, medium, bounce, throughput)
                  == Walk(settings, scene, k + 1, scene.selectMedium(k, medium, !hit.hitBackside), b, tp))
  {
  }

  // ---------------------------------------------------------------------
  // An independent description of the walk's outcome

  /** Number of surfaces the ray passes before it ends (no hit or the end
      cap). */
  function Surfaces(scene: ShadowScene, k: nat): nat
    decreases |scene.hits| - k
  {
    if IsOccluder(IntersectAt(scene, k)) then 1 + Surfaces(scene, k + 1) else 0
  }

  /** Every surface the ray passes through lets some light through. */
  predicate Clear(scene: ShadowScene, k: nat)
    decreases |scene.hits| - k
  {
    var hit := IntersectAt(scene, k);
    IsOccluder(hit) ==> !IsBlack(hit.forwardResponse) && Clear(scene, k + 1)
  }

  /** The product of every surface's pass-through response and every
      medium segment's transmittance along the ray, the medium being
      re-selected at each surface. */
  function Attenuation(scene: ShadowScene, k: nat, medium: ActiveMedium): Rgb
    decreases |scene.hits| - k
  {
    var hit := IntersectAt(scene, k);
    if !IsOccluder(hit) then MediumFactor(scene, k, medium)
    else Mul(Mul(hit.forwardResponse, MediumFactor(scene, k, medium)),
             Attenuation(scene, k + 1, scene.selectMedium(k, medium, !hit.hitBackside)))
  }

  /** The shadow ray's result in closed form: the accumulated attenuation,
      provided no surface on the way is opaque, the bounce budget is not
      exhausted by the surfaces passed, and the path reaches the minimum
      bounce count; zero otherwise. */
  lemma {:induction false} WalkClosedForm(settings: TraceSettings, scene: ShadowScene, k: nat,
                                          medium: ActiveMedium, bounce: int, throughput: Rgb)
    ensures var n := Surfaces(scene, k);
            Walk(settings, scene, k, medium, bounce, throughput)
            == if Clear(scene, k) && (n == 0 || bounce + n < settings.maxBounces) && bounce + n >= settings.minBounces
               then Mul(throughput, Attenuation(scene, k, medium))
               else Black()
    decreases |scene.hits| - k
  {
    var hit := IntersectAt(scene, k);
    if IsOccluder(hit) && !IsBlack(hit.forwardResponse) && bounce + 1 < settings.maxBounces {
      var m' := scene.selectMedium(k, medium, !hit.hitBackside);
      var tp' := Mul(Mul(throughput, hit.forwardResponse), MediumFactor(scene, k, medium));
      WalkClosedForm(settings, scene, k + 1, m', bounce + 1, tp');
      MulAssoc(throughput, hit.forwardResponse, MediumFactor(scene, k, medium));
      MulAssoc(throughput, Mul(hit.forwardResponse, MediumFactor(scene, k, medium)), Attenuation(scene, k + 1, m'));
    }
  }

  /** A ray that hits nothing and runs through no medium transmits its
      throughput unchanged once the minimum bounce count is reached, and
      nothing before. */
  lemma EmptySceneTransmittance(settings: TraceSettings, scene: ShadowScene, k: nat,
                                bounce: int, throughput: Rgb)
    requires |scene.hits| <= k
    ensures Walk(settings, scene, k, NoMedium, bounce, throughput)
            == if bounce >= settings.minBounces then throughput else Black()
  {
    MulWhite(throughput);
  }

  /** A fully opaque surface before the end of the ray blocks all light,
      with or without a medium. */
  lemma OpaqueOccluderBlocks(settings: TraceSettings, scene: ShadowScene, k: nat,
                             medium: ActiveMedium, bounce: int, throughput: Rgb)
    requires !Clear(scene, k)
    ensures IsBlack(Walk(settings, scene, k, medium, bounce, throughput))
  {
    WalkClosedForm(settings, scene, k, medium, bounce, throughput);
  }

  /** A ray that must pass through at least one surface and too many of
      them for the bounce budget returns zero. */
  lemma BounceBudgetExhausted(settings: TraceSettings, scene: ShadowScene, k: nat,
                              medium: ActiveMedium, bounce: int, throughput: Rgb)
    requires Surfaces(scene, k) > 0 && bounce + Surfaces(scene, k) >= settings.maxBounces
    ensures IsBlack(Walk(settings, scene, k, medium, bounce, throughput))
  {
    WalkClosedForm(settings, scene, k, medium, bounce, throughput);
  }

  /** Below the minimum bounce count the shadow ray returns zero. */
  lemma BelowMinimumBounces(settings: TraceSettings, scene: ShadowScene, k: nat,
                            medium: ActiveMedium, bounce: int, throughput: Rgb)
    requires bounce + Surfaces(scene, k) < settings.minBounces
    ensures IsBlack(Walk(settings, scene, k, medium, bounce, throughput))
  {
    WalkClosedForm(settings, scene, k, medium, bounce, throughput);
  }

  /** The attenuation of a valid scene is a non-negative colour. */
  lemma {:induction false} AttenuationNonNeg(scene: ShadowScene, k: nat, medium: ActiveMedium)
    requires ValidScene(scene)
    ensures NonNeg(Attenuation(scene, k, medium))
    decreases |scene.hits| - k
  {
    var hit := IntersectAt(scene, k);
    if IsOccluder(hit) {
      var m' := scene.selectMedium(k, medium, !hit.hitBackside);
      AttenuationNonNeg(scene, k + 1, m');
      MulNonNeg(hit.forwardResponse, MediumFactor(scene, k, medium));
      MulNonNeg(Mul(hit.forwardResponse, MediumFactor(scene, k, medium)), Attenuation(scene, k + 1, m'));
    }
  }

  /** The shadow ray never produces negative light. */
  lemma WalkNonNeg(settings: TraceSettings, scene: ShadowScene, k: nat,
                   medium: ActiveMedium, bounce: int, throughput: Rgb)
    requires ValidScene(scene) && NonNeg(throughput)
    ensures NonNeg(Walk(settings, scene, k, medium, bounce, throughput))
  {
    WalkClosedForm(settings, scene, k, medium, bounce, throughput);
    AttenuationNonNeg(scene, k, medium);
  }
}
