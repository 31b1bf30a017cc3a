# Tungsten path-tracing decisions and scene XML writer, in Dafny

This project models two parts of the Tungsten renderer and proves properties
of the model.

**The per-bounce light-transport logic of `TraceBase`** (`src/core/integrators/TraceBase.cpp`):

- how a surface scatter event is built, and when its shading frame is flipped
  for two-sided shading;
- the consistency check between shading and geometric normals;
- the generalized shadow ray that walks through transparent surfaces and media
  towards a light;
- the attenuated emission of a light;
- the four direct-lighting strategies (surface light sampling, BSDF sampling,
  volume light sampling and phase sampling) and how they are combined with
  multiple importance sampling;
- the position-dependent light selection `chooseLight` over its weight buffer
  `_lightPdf`;
- the two bounce handlers `handleVolume` and `handleSurface`.

**The stack-disciplined XML serialiser `SceneXmlWriter`** of the scene converter
(`src/json2xml/JsonXmlConverter.hpp`):

- its primitives `begin`, `beginPost`, `endInline`, `end` and `assign`;
- the value, boolean and point conversions;
- `convertOrRef`;
- the scene element with its integrator choice between `path` and `volpath`;
- the constructor, which writes the XML declaration and then the scene.

## How it is modelled

- **Colours** are RGB triples of reals (`Core.Rgb`). A float colour compared
  with `0.0f` is `IsBlack`: all three components are zero.
- **Collaborators are oracles.**
  - The scene's intersections along a shadow ray are a finite sequence of hits
    (`ShadowRays.ShadowScene`).
  - A light's sampled direction, density and emission are values
    (`DirectLighting.Light`, `LightSampleResult`, `Connection`).
  - BSDF and phase evaluation are function-typed fields (`Bsdf`, `Phase`).
  - Medium answers (`BounceHandlers.MediumAnswers`) and random draws are values.
  - `SampleWarp::powerHeuristic` is an arbitrary non-negative function of two
    densities (`Heuristic`).
- **Imperative code stays imperative.** Each of these is a method with loops,
  proved against a specification function:
  - `chooseLight` fills an `array<real>` field of a class (`LightSelector`) in
    place, loop by loop;
  - `generalizedShadowRay` is a loop, specified by the recursive `Walk`;
  - the two handlers update their by-reference variables step by step, in the
    source's order, on a `PathVars` value, and are specified by `VolumeStep`
    and `SurfaceStep`;
  - the XML writer is a class whose fields `stream`, `indent` and `blocks` are
    updated in place, specified by the transition function `XmlWriter.Step`.
- **Pure code stays pure.** The flip decision, `isConsistent` and the
  direct-lighting combinators are functions.
- **The XML writer's invariant.**
  - `Balanced` is the intended invariant: one tab of indent per open element.
  - `Nested` says that a sequence of writer operations closes exactly what it
    opens.
  - The conversions of objects whose classes are not part of this model
    (camera, BSDFs, primitives) are given to `ConvertScene` and to the
    constructor as the operation sequences they perform.

**The weight of a light with an unknown estimate.** An unknown light's
weight is the running `total` (TraceBase.cpp:366-373) divided by the number of
known lights. The running total includes the weights already given to earlier
unknown lights, so it is not the mean of the known estimates. A zero total
becomes 1. `LightSelection.FillUnknown` models this, and
`LightSelection.UnknownWeight` states the running-total weight.

## Model

| member | source | states |
|---|---|---|
| ScatterEvents.FlipFrame | src/core/integrators/TraceBase.cpp:30-33 | The flip decision: two-sided shading on, a backside hit of the shading normal, no transmissive lobe. Its consequences are the contract of `MakeLocalScatterEvent` and the lemmas `TwoSidedShadingFacesViewer` and `UnflippedIncomingCosine`. |
| ScatterEvents.MakeLocalScatterEvent | src/core/integrators/TraceBase.cpp:24-52 | The frame is flipped exactly when two-sided shading is on, the ray hits the back of the shading normal, and the BSDF has no transmissive lobe. A flip negates exactly the normal and the tangent and keeps the bitangent; without one the frame is unchanged. The flip is recorded in `flippedFrame`, `requestedLobe` is AllLobes, and `wi` is the reversed ray direction in the resulting frame. |
| ScatterEvents.TwoSidedShadingFacesViewer | src/core/integrators/TraceBase.cpp:30-48 | With two-sided shading on a non-transmissive BSDF, the local incoming direction always lies in the upper hemisphere (`wi.z >= 0`). |
| ScatterEvents.UnflippedIncomingCosine | src/core/integrators/TraceBase.cpp:30-48 | Without a flip, the local `wi.z` is minus the cosine between the shading normal and the ray. |
| ScatterEvents.IsConsistent | src/core/integrators/TraceBase.cpp:54-57 | With consistency checks disabled, every direction is consistent. |
| ScatterEvents.ConsistencyAgainstOriginalNormal | src/core/integrators/TraceBase.cpp:54-61 | With checks enabled, for an event built by `makeLocalScatterEvent` and `wo` given as the local form of `w`, `isConsistent` holds iff `w` lies on the same side of the geometric normal as of the original, unflipped shading normal. The flip flag exactly undoes the flip. |
| ScatterEvents.GeometricFrameIsConsistent | src/core/integrators/TraceBase.cpp:54-61 | When the shading normal is the geometric normal, every direction off the tangent plane is consistent, flipped or not. |
| ScatterEvents.LocalGlobalRoundTrip | src/core/integrators/TraceBase.cpp:226-227 | On an orthonormal frame, taking `toGlobal` of a local direction and then `toLocal` gives the local direction back. |
| ScatterEvents.FlippedOrthonormal | src/core/integrators/TraceBase.cpp:35-40 | Negating the normal and the tangent keeps an orthonormal frame orthonormal. |
| ScatterEvents.ConsistencyOfSampledDirection | src/core/integrators/TraceBase.cpp:494-500 | For a sampled local `wo` off the horizon and its global form `w = toGlobal(wo)` in the event's frame (orthonormal), `isConsistent` holds iff `w` lies on the same side of the geometric normal as of the original, unflipped shading normal. |
| ShadowRays.Walk | src/core/integrators/TraceBase.cpp:73-99 | The specification of the shadow-ray loop, one segment per call. `GeneralizedShadowRay` is proved to compute it; its meaning is stated by `WalkStep`, `WalkClosedForm`, `EmptySceneTransmittance`, `OpaqueOccluderBlocks`, `BounceBudgetExhausted`, `BelowMinimumBounces` and `WalkNonNeg`. |
| ShadowRays.GeneralizedShadowRay | src/core/integrators/TraceBase.cpp:63-101 | The `do/while` loop returns the specification `Walk` from the first hit, with throughput 1, the given medium and the given bounce. |
| ShadowRays.ShadowRayStep | src/core/integrators/TraceBase.cpp:74-98 | One loop iteration either returns `Walk` of the current state, or moves to the next hit with a state whose `Walk` is the same. |
| ShadowRays.WalkStep | src/core/integrators/TraceBase.cpp:74-93 | At one hit: a zero-transmittance occluder gives 0; reaching `maxBounces` gives 0; a miss or the end cap gives the throughput times the medium transmittance when `bounce >= minBounces`, else 0. Otherwise the walk continues in the medium the hit selects, with the bounce count one higher. |
| ShadowRays.WalkClosedForm | src/core/integrators/TraceBase.cpp:72-92 | The result is the product of all surface and medium transmittances up to the end cap, provided that every surface lets light through, the bounce budget is never reached and the final count is at least `minBounces`. Otherwise it is 0. |
| ShadowRays.EmptySceneTransmittance | src/core/integrators/TraceBase.cpp:89-92 | With no surface and no medium, the result is the throughput iff the start bounce is at least `minBounces`, else 0. |
| ShadowRays.OpaqueOccluderBlocks | src/core/integrators/TraceBase.cpp:78-80 | Any zero-transmittance occluder before the end cap makes the result 0. |
| ShadowRays.BounceBudgetExhausted | src/core/integrators/TraceBase.cpp:83-86 | If the surfaces crossed would bring the bounce count to `maxBounces`, the result is 0. |
| ShadowRays.BelowMinimumBounces | src/core/integrators/TraceBase.cpp:91-92 | If the count stays below `minBounces`, the result is 0. |
| ShadowRays.WalkNonNeg | src/core/integrators/TraceBase.cpp:72-92 | Non-negative transmittances and throughput give a non-negative result. |
| LightSelection.Weights | src/core/integrators/TraceBase.cpp:353-374 | The specification of `_lightPdf` after the filling loops. `FillWeights` is proved to compute it; its meaning is stated by `WeightsNonNegative`, `AllUnknownIsUniform` and `TotalZeroIff`. |
| LightSelection.FillUnknown | src/core/integrators/TraceBase.cpp:366-373 | The specification of the replacement loop for unknown estimates. `FillUnknownEstimates` is proved to compute it; its meaning is stated by `FillUnknownFacts` and `UnknownWeight`. |
| LightSelection.Scan | src/core/integrators/TraceBase.cpp:377-386 | The specification of the subtracting scan; a result always lies between the start index and the last light. `ScanDraw` is proved to compute it (through `Pick`); its meaning is stated by `ScanInterval`, `ScanFallback` and `PickInterval`. |
| LightSelection.LightSelector.constructor | src/core/integrators/TraceBase.cpp:11 | The buffer is a new array with one entry per light of the scene. |
| LightSelection.LightSelector.ChooseLight | src/core/integrators/TraceBase.cpp:344-387 | The choice (none, or an index and a weight) is the specification `Choose`. With two or more lights the buffer ends up holding `Weights(approx)`. With fewer, the buffer is untouched. |
| LightSelection.LightSelector.LoadEstimates | src/core/integrators/TraceBase.cpp:353-361 | The buffer holds the approximations. The total is the sum of the non-negative ones, and the count is their number. |
| LightSelection.LightSelector.FillUniform | src/core/integrators/TraceBase.cpp:362-365 | Every entry is 1 and the total is the number of lights. |
| LightSelection.LightSelector.FillUnknownEstimates | src/core/integrators/TraceBase.cpp:366-374 | The buffer becomes `FillUnknown` of its old contents. The total is the old total plus exactly the weights added. |
| LightSelection.LightSelector.ScanDraw | src/core/integrators/TraceBase.cpp:377-386 | The subtracting scan returns `Pick` of the buffer and the draw. |
| LightSelection.LightSelector.FillWeights | src/core/integrators/TraceBase.cpp:353-374 | The buffer ends up holding `Weights(approx)`, and the total is their sum. |
| LightSelection.ChooseNoLightIff | src/core/integrators/TraceBase.cpp:346-351 | With one light, the result is light 0 with weight exactly 1. No light is chosen iff there are no lights, or there are at least two and all their estimates are 0. |
| LightSelection.WeightsNonNegative | src/core/integrators/TraceBase.cpp:353-374 | Every filled weight is non-negative. When some estimate is known, every known estimate is kept as it is. |
| LightSelection.AllUnknownIsUniform | src/core/integrators/TraceBase.cpp:362-365 | If all estimates are negative, every weight is 1 and the total is n. |
| LightSelection.FillUnknownFacts | src/core/integrators/TraceBase.cpp:366-373 | During the fill, known entries are kept and every unknown entry receives a positive weight. |
| LightSelection.UnknownWeight | src/core/integrators/TraceBase.cpp:366-373 | An unknown entry i receives `UniformWeight` of the running total, that is, the known total plus the weights given to the earlier unknown entries. `UniformWeight` is a zero total replaced by 1, divided by the number of known entries. |
| LightSelection.UniformWeight | src/core/integrators/TraceBase.cpp:368 | For a non-negative total, the uniform weight is positive. |
| LightSelection.TotalZeroIff | src/core/integrators/TraceBase.cpp:375-376 | The filled total is 0 iff every estimate is exactly 0. |
| LightSelection.ChooseAmong | src/core/integrators/TraceBase.cpp:375-386 | On non-negative weights, no light is chosen iff the total is 0. A chosen index has a positive weight, and the returned weight times the chosen light's weight is the total. |
| LightSelection.Choose | src/core/integrators/TraceBase.cpp:344-387 | A chosen index is in range and has a positive weight. |
| LightSelection.Pick | src/core/integrators/TraceBase.cpp:377-386 | For a draw below the total, the scan returns an index whose weight is positive. |
| LightSelection.ScanInterval | src/core/integrators/TraceBase.cpp:378-385 | Scanning from j with the draw lowered by the weights before j returns i iff the draw lies in the interval of prefix sums `[S_i, S_{i+1})`. |
| LightSelection.ScanFallback | src/core/integrators/TraceBase.cpp:378-385 | A draw at or above the total (which only rounding produces in the source) makes the scan take the last light. |
| LightSelection.PickInterval | src/core/integrators/TraceBase.cpp:377-386 | The scan returns i iff the draw lies in the prefix-sum interval of i. |
| LightSelection.ChooseAmongUnbiased | src/core/integrators/TraceBase.cpp:375-386 | Light i is chosen iff the scaled draw lies in its interval, whose length is its weight. It is then returned with weight `total / w[i]`. |
| LightSelection.ChooseUnbiased | src/core/integrators/TraceBase.cpp:344-387 | With at least two lights, light i is chosen iff the scaled draw lies in its weight's interval. It then has a positive weight and is returned with weight `total / w[i]`, so that choice probability times weight is 1. |
| LightSelection.KnownCountBounds | src/core/integrators/TraceBase.cpp:355-361 | The count of known estimates is at most n. It equals n iff none is negative and 0 iff all are. Their sum is non-negative, and it is the full sum when all are known. |
| DirectLighting.AttenuatedEmission | src/core/integrators/TraceBase.cpp:103-128 | The specification of `attenuatedEmission`. Its meaning is stated by `DiracEmissionIgnoresIntersection`, `NonDiracEmission`, `FudgeTolerance`, `NoExpectedDistance`, `ReachedClosedForm`, `OccludedLightIsBlack` and `AttenuatedEmissionNonNeg`. |
| DirectLighting.DiracEmissionIgnoresIntersection | src/core/integrators/TraceBase.cpp:113-114 | For a Dirac light, the result is the shadow-ray transmittance times the emission, whatever the re-intersection answers and whatever the expected distance. |
| DirectLighting.NonDiracEmission | src/core/integrators/TraceBase.cpp:111-127 | For other lights the result is 0 unless the light is hit no nearer than the expected distance divided by `1 + 1e-3`. Otherwise it is the shadow-ray transmittance times the light's emission. |
| DirectLighting.FudgeTolerance | src/core/integrators/TraceBase.cpp:111-127 | A non-Dirac light that is hit, with an expected distance at most 0.1% beyond the hit distance, is not rejected: its attenuated emission is the reached emission, the shadow-ray transmittance times the light's emission. |
| DirectLighting.NoExpectedDistance | src/core/integrators/TraceBase.cpp:113-118 | The expected distance -1, which BSDF and phase sampling pass, never rejects a light that is hit. |
| DirectLighting.ReachedClosedForm | src/core/integrators/TraceBase.cpp:119-127 | The reached emission equals the full transmittance along the shadow ray times the emission when the shadow walk succeeds, and 0 otherwise. |
| DirectLighting.OccludedLightIsBlack | src/core/integrators/TraceBase.cpp:123-125 | An occluder with zero transmittance makes the attenuated emission 0. |
| DirectLighting.AttenuatedEmissionNonNeg | src/core/integrators/TraceBase.cpp:103-128 | The attenuated emission is non-negative for a valid connection. |
| DirectLighting.LightSample | src/core/integrators/TraceBase.cpp:171-210 | The specification of `lightSample`. Its meaning is stated by `DiracLightSampleUnweighted`, `NonDiracLightSampleWeighted` and `LightSampleNonNeg`. |
| DirectLighting.BsdfSample | src/core/integrators/TraceBase.cpp:212-246 | The specification of `bsdfSample`. Its meaning is stated by `BsdfSampleWeighted` and `BsdfSampleNonNeg`; the consistency test it applies is the one `ConsistencyOfSampledDirection` characterises. |
| DirectLighting.VolumeLightSample | src/core/integrators/TraceBase.cpp:248-280 | The specification of `volumeLightSample`. Its meaning is stated by `VolumeLightSampleUnweighted`, `VolumeLightSampleWeighted`, `VolumeStrategies` and `VolumeLightSampleNonNeg`. |
| DirectLighting.VolumePhaseSample | src/core/integrators/TraceBase.cpp:282-308 | The specification of `volumePhaseSample`. Its meaning is stated by `VolumePhaseSampleWeighted`, `VolumeStrategies` and `VolumePhaseSampleNonNeg`. |
| DirectLighting.SampleDirect | src/core/integrators/TraceBase.cpp:310-326 | The specification of `sampleDirect`. Its meaning is stated by `SpecularReceivesNoDirect`, `DiracLightSingleStrategy`, `NonDiracLightBothStrategies` and `SampleDirectNonNeg`. |
| DirectLighting.VolumeSampleDirect | src/core/integrators/TraceBase.cpp:328-342 | The specification of `volumeSampleDirect`. Its meaning is stated by `VolumeStrategies` and `VolumeSampleDirectNonNeg`. |
| DirectLighting.EstimateDirect | src/core/integrators/TraceBase.cpp:410-420 | The specification of `estimateDirect`. Its meaning is stated by `EstimateDirectNoLight`, `EstimateDirectSingleLight`, `EstimateDirectSelection` and `EstimateDirectNonNeg`. |
| DirectLighting.VolumeEstimateDirect | src/core/integrators/TraceBase.cpp:398-408 | The specification of `volumeEstimateDirect`. Its meaning is stated by `VolumeEstimateDirectNoLight`, `VolumeEstimateDirectSingleLight`, `VolumeEstimateDirectSelection` and `VolumeEstimateDirectNonNeg`. |
| DirectLighting.DiracLightSampleUnweighted | src/core/integrators/TraceBase.cpp:204-209 | For a Dirac light, the light-sampling term does not depend on the MIS heuristic. |
| DirectLighting.NonDiracLightSampleWeighted | src/core/integrators/TraceBase.cpp:204-207 | For other lights, the light-sampling term is the unweighted term times `powerHeuristic(light pdf, BSDF pdf)`. The BSDF pdf is taken at the sampled direction for non-specular lobes. |
| DirectLighting.VolumeLightSampleUnweighted | src/core/integrators/TraceBase.cpp:273-279 | In a medium, for a Dirac light or with multiple importance sampling off, the light-sampling term does not depend on the heuristic. |
| DirectLighting.VolumeLightSampleWeighted | src/core/integrators/TraceBase.cpp:273-277 | For other lights with multiple importance sampling on, the volume light-sampling term is the unweighted term times `powerHeuristic(light pdf, phase pdf)` at the sampled direction. |
| DirectLighting.BsdfSampleWeighted | src/core/integrators/TraceBase.cpp:236-245 | For a sampled direction, for Dirac and other lights alike, the BSDF-sampling term is the unweighted term times `powerHeuristic(BSDF pdf, light's inbound pdf)`. |
| DirectLighting.VolumePhaseSampleWeighted | src/core/integrators/TraceBase.cpp:298-307 | For a sampled direction, the phase-sampling term is the unweighted term times `powerHeuristic(phase pdf, light's inbound pdf)`. |
| DirectLighting.SpecularReceivesNoDirect | src/core/integrators/TraceBase.cpp:318-319 | Pure-specular or forward BSDFs receive no direct light. |
| DirectLighting.DiracLightSingleStrategy | src/core/integrators/TraceBase.cpp:321-322 | A Dirac light gets only the light-sampling term, unweighted. |
| DirectLighting.NonDiracLightBothStrategies | src/core/integrators/TraceBase.cpp:321-323 | Other lights get the sum of the light-sampling and BSDF-sampling terms. |
| DirectLighting.VolumeStrategies | src/core/integrators/TraceBase.cpp:328-342 | In a medium, a Dirac light gets only the unweighted light-sampling term; other lights get light sampling plus phase sampling. |
| DirectLighting.LightSampleNonNeg | src/core/integrators/TraceBase.cpp:171-210 | The surface light-sampling term is non-negative. |
| DirectLighting.BsdfSampleNonNeg | src/core/integrators/TraceBase.cpp:212-246 | The BSDF-sampling term is non-negative. |
| DirectLighting.SampleDirectNonNeg | src/core/integrators/TraceBase.cpp:310-326 | Direct light from one light at a surface is non-negative. |
| DirectLighting.VolumeLightSampleNonNeg | src/core/integrators/TraceBase.cpp:248-280 | The volume light-sampling term is non-negative. |
| DirectLighting.VolumePhaseSampleNonNeg | src/core/integrators/TraceBase.cpp:282-308 | The phase-sampling term is non-negative. |
| DirectLighting.VolumeSampleDirectNonNeg | src/core/integrators/TraceBase.cpp:328-342 | Direct light from one light in a medium is non-negative. |
| DirectLighting.EstimateDirectNoLight | src/core/integrators/TraceBase.cpp:416-418 | When no light can be chosen (no lights, or at least two lights that are all estimated dark), the estimate is 0. |
| DirectLighting.EstimateDirectSingleLight | src/core/integrators/TraceBase.cpp:416-419 | With one light, the estimate is that light's direct light, unscaled. |
| DirectLighting.EstimateDirectSelection | src/core/integrators/TraceBase.cpp:416-419 | When the draw falls in light i's interval, the estimate is light i's direct light scaled by `total / w[i]`. |
| DirectLighting.EstimateDirectNonNeg | src/core/integrators/TraceBase.cpp:410-420 | The surface direct-light estimate is non-negative. |
| DirectLighting.VolumeEstimateDirectNoLight | src/core/integrators/TraceBase.cpp:404-406 | In a medium too, when no light can be chosen (no lights, or at least two lights that are all estimated dark), the estimate is 0. |
| DirectLighting.VolumeEstimateDirectSingleLight | src/core/integrators/TraceBase.cpp:404-407 | In a medium, with one light, the estimate is that light's direct light, unscaled. |
| DirectLighting.VolumeEstimateDirectSelection | src/core/integrators/TraceBase.cpp:404-407 | In a medium, when the draw falls in light i's interval, the estimate is light i's volume direct light scaled by `total / w[i]`. |
| DirectLighting.VolumeEstimateDirectNonNeg | src/core/integrators/TraceBase.cpp:398-408 | The volume direct-light estimate is non-negative. |
| BounceHandlers.VolumeStep | src/core/integrators/TraceBase.cpp:422-460 | The specification of `handleVolume`. `HandleVolume` is proved to compute it; its meaning is stated by `VolumeFailure`, `VolumeHitSurface`, `VolumeRay`, `VolumeWasSpecular`, `VolumeEmission` and `VolumeStepNonNeg`. |
| BounceHandlers.HandleVolume | src/core/integrators/TraceBase.cpp:422-460 | The imperative handler returns the outcome and the variables of the specification `VolumeStep`. |
| BounceHandlers.VolumeFailure | src/core/integrators/TraceBase.cpp:428-450 | The handler returns false iff distance sampling fails, or the path scatters inside the medium and is then absorbed or fails to scatter. |
| BounceHandlers.VolumeHitSurface | src/core/integrators/TraceBase.cpp:428-457 | On success, `hitSurface` is `t >= maxT`. The active medium never changes. The medium state is the one distance sampling left. |
| BounceHandlers.VolumeRay | src/core/integrators/TraceBase.cpp:430-456 | Passing on to the surface keeps the ray and multiplies the throughput by the distance weight. Scattering continues along the sampled direction as a non-primary ray, with the scatter weight applied too. |
| BounceHandlers.VolumeWasSpecular | src/core/integrators/TraceBase.cpp:436-443 | Without light sampling, `wasSpecular` becomes `!hitSurface`. With it, `wasSpecular` is cleared exactly when next-event estimation runs. |
| BounceHandlers.VolumeEmission | src/core/integrators/TraceBase.cpp:433-445 | Medium emission is added only if `!adjoint && bounce >= minBounces`. Direct light from `volumeEstimateDirect` at the next bounce is added exactly when the path scatters inside the medium, the path is not adjoint, light sampling is on and the bounce budget allows it. |
| BounceHandlers.VolumeStepNonNeg | src/core/integrators/TraceBase.cpp:422-460 | Non-negative throughput and emission stay non-negative. |
| BounceHandlers.SurfaceEmission | src/core/integrators/TraceBase.cpp:480-490 | The specification of the emission gathered at a surface. `GatherSurfaceEmission` is proved to compute it; its meaning is stated by `SurfaceEmissionGates` and `SurfaceEmissionNonNeg`. |
| BounceHandlers.LeaveSurface | src/core/integrators/TraceBase.cpp:507-511 | The common end of `handleSurface`. Its meaning is stated by `SurfaceResetsState`. |
| BounceHandlers.SurfaceStep | src/core/integrators/TraceBase.cpp:462-514 | The specification of `handleSurface`. `HandleSurface` is proved to compute it; its meaning is stated by `SurfaceFailure`, `SurfacePassThrough`, `SurfaceScatter`, `SurfaceResetsState`, `SurfaceEmissionGates` and `SurfaceStepNonNeg`. |
| BounceHandlers.GatherSurfaceEmission | src/core/integrators/TraceBase.cpp:480-490 | The emission the imperative code accumulates is the one `SurfaceEmission` specifies. |
| BounceHandlers.SurfaceEmissionGates | src/core/integrators/TraceBase.cpp:476-490 | On pass-through, or for adjoint paths, emission is unchanged. Without light sampling, the surface's emission is added from `minBounces` on. With it, the surface's emission is added exactly when the previous bounce was specular or the surface is not a samplable light, and the bounce is at least `minBounces`; otherwise only direct light is added. Direct light at the next bounce is added while `bounce < maxBounces - 1`. |
| BounceHandlers.HandleSurface | src/core/integrators/TraceBase.cpp:462-514 | The imperative handler returns the outcome and the variables of the specification `SurfaceStep`. |
| BounceHandlers.SurfaceFailure | src/core/integrators/TraceBase.cpp:476-499 | The handler returns false iff the draw is not below the transparency average and then either the BSDF sample fails or the sampled direction is inconsistent. |
| BounceHandlers.SurfacePassThrough | src/core/integrators/TraceBase.cpp:476-478 | A draw below the transparency average keeps the ray direction, the emission and `wasSpecular`, and multiplies the throughput by the transparency divided by its average. |
| BounceHandlers.SurfaceScatter | src/core/integrators/TraceBase.cpp:492-505 | After a successful BSDF sample, `wasSpecular` is the sampled lobe's specularity, and the primary flag survives only a specular lobe. The new direction is the sampled one in global space, and the throughput is multiplied by the sample weight. |
| BounceHandlers.SurfaceResetsState | src/core/integrators/TraceBase.cpp:507-511 | On success, the medium state is reset and the active medium is the one the BSDF selects on the side of the geometric normal that the new direction leaves by. On failure, state, medium and ray are untouched. `hitSurface` is never changed. |
| BounceHandlers.SurfaceStepNonNeg | src/core/integrators/TraceBase.cpp:462-514 | Non-negative throughput and emission stay non-negative. |
| XmlWriter.Step | src/json2xml/JsonXmlConverter.hpp:55-85 | The transition function of the writer's five primitives; the class's methods are proved to perform it. Its meaning is stated by `StepBalanced`, `RunToBalanced`, `NestedRunTo`, `NestedLeavesStack` and `ClosingTagAtOpeningIndent`. |
| XmlWriter.SceneXmlWriter.Begin | src/json2xml/JsonXmlConverter.hpp:55-60 | `begin(b)` appends `indent + "<" + b + " "`, adds one tab to the indent and pushes `b`. |
| XmlWriter.SceneXmlWriter.BeginPost | src/json2xml/JsonXmlConverter.hpp:62-65 | `beginPost` appends `">\n"` and changes neither the indent nor the stack. |
| XmlWriter.SceneXmlWriter.EndInline | src/json2xml/JsonXmlConverter.hpp:67-72 | On a non-empty stack, `endInline` appends `"/>\n"`, removes one tab and pops. |
| XmlWriter.SceneXmlWriter.End | src/json2xml/JsonXmlConverter.hpp:74-79 | On a non-empty stack, `end` first removes one tab. It then appends the reduced indent, `"</"`, the top element and `">\n"`, and pops. |
| XmlWriter.SceneXmlWriter.Assign | src/json2xml/JsonXmlConverter.hpp:81-85 | `assign(n, v)` appends exactly `n + "=\"" + v + "\" "` and nothing else changes. |
| XmlWriter.StepBalanced | src/json2xml/JsonXmlConverter.hpp:55-85 | Every primitive keeps one tab of indent per open element. Only `endInline` and `end` can fail, and only on an empty stack. Every primitive only appends to the stream. |
| XmlWriter.RunToBalanced | src/json2xml/JsonXmlConverter.hpp:55-85 | Starting from a balanced writer, indent depth equals stack depth after every prefix of any run that succeeds, and the stream only grows. |
| XmlWriter.NestedRunTo | src/json2xml/JsonXmlConverter.hpp:55-85 | A run that never closes more elements than it opened cannot fail. After every prefix, the writer is balanced with exactly that many more elements open, the elements open at the start are still open below them, and the stream only grows. |
| XmlWriter.NestedLeavesStack | src/json2xml/JsonXmlConverter.hpp:55-85 | Properly nested operations leave the indent and the stack exactly as they found them. |
| XmlWriter.ClosingTagAtOpeningIndent | src/json2xml/JsonXmlConverter.hpp:55-79 | An element opened by `begin`, with attributes, `beginPost`, nested content and `end`, has its closing tag at the opening tag's indent. The document ends with that closing tag, and the indent and the stack are restored. |
| XmlWriter.ValueElement | src/json2xml/JsonXmlConverter.hpp:87-94 | `convert(blockname, name, v)` writes exactly one self-closing line at the current indent with the name and value attributes, and leaves the indent and the stack as they were. |
| XmlWriter.SceneXmlWriter.ConvertValue | src/json2xml/JsonXmlConverter.hpp:87-94 | The method performs the value element's operations. |
| XmlWriter.BoolElement | src/json2xml/JsonXmlConverter.hpp:123-126 | `convert(name, bool)` writes a `boolean` element whose value is `"true"` for true and `"false"` for false. |
| XmlWriter.SceneXmlWriter.ConvertBool | src/json2xml/JsonXmlConverter.hpp:123-126 | The method performs the boolean element's operations. |
| XmlWriter.AxisNames | src/json2xml/JsonXmlConverter.hpp:152-153 | The coordinate attributes are named `x`, `y` and `z`, and the fourth is `{`, which is `'x' + 3`. |
| XmlWriter.CoordinatesRunTo | src/json2xml/JsonXmlConverter.hpp:152-153 | The first k coordinate assignments append attribute i named `'x' + i` holding coordinate i, in order. |
| XmlWriter.PointElement | src/json2xml/JsonXmlConverter.hpp:148-156 | `convertPoint` writes one self-closing `point` line with its name and then one attribute per coordinate, and leaves the indent and the stack as they were. |
| XmlWriter.SceneXmlWriter.AssignCoordinates | src/json2xml/JsonXmlConverter.hpp:152-153 | The coordinate loop appends the text of all coordinate attributes and changes nothing else. |
| XmlWriter.SceneXmlWriter.ConvertPoint | src/json2xml/JsonXmlConverter.hpp:148-156 | The method performs the point element's operations. |
| XmlWriter.ConvertOrRefElement | src/json2xml/JsonXmlConverter.hpp:682-692 | An unnamed object is written by its full conversion. A named one becomes a single self-closing `ref` line whose `id` is its name, leaving the indent and the stack unchanged. |
| XmlWriter.SceneXmlWriter.ConvertOrRef | src/json2xml/JsonXmlConverter.hpp:682-692 | The method performs the operations of `convertOrRef`. |
| XmlWriter.SceneXmlWriter.Replay | src/json2xml/JsonXmlConverter.hpp:659-665 | Performing a sequence of operations one method call at a time yields the state the specification run gives. |
| XmlWriter.IntegratorElement | src/json2xml/JsonXmlConverter.hpp:649-657 | The integrator element has type `volpath` exactly when the scene has media and `path` otherwise. Next come the `strictNormals` = true and `maxDepth` = 64 lines one tab deeper, then the closing tag at the opening indent. |
| XmlWriter.IntegratorNested | src/json2xml/JsonXmlConverter.hpp:649-657 | The integrator element is properly nested. |
| XmlWriter.SceneXmlWriter.ConvertIntegrator | src/json2xml/JsonXmlConverter.hpp:649-657 | The method performs the integrator element's operations. |
| XmlWriter.SceneDocument | src/json2xml/JsonXmlConverter.hpp:643-679 | For properly nested content, a fresh writer's document starts with the XML declaration and the scene's opening tag. It ends with the scene's closing tag, with no indent and no element left open. |
| XmlWriter.SceneXmlWriter.ConvertScene | src/json2xml/JsonXmlConverter.hpp:643-668 | The method performs the scene's operations and restores the indent and the stack. |
| XmlWriter.SceneXmlWriter.constructor | src/json2xml/JsonXmlConverter.hpp:671-679 | The constructor writes the XML declaration and then the scene, and ends with an empty indent and stack. |

## Left out

- `chooseLightAdjoint` (TraceBase.cpp:389-396): it uses a `Distribution1D`, which is not part of this model.
- `lensSample` (TraceBase.cpp:130-169): it is a camera operation, and it is not among the decision rules modelled here.
- The `TraceBase` constructor (TraceBase.cpp:5-22): the sizing of `_lightPdf` to one entry per light (line 11) is modelled by `LightSelector`'s constructor. The `makeSamplable` calls and the `Distribution1D` set-up for `chooseLightAdjoint` are left out, because they only prepare collaborators that are not part of this model.
- `ReversibleJumpMltTracer.hpp`: it holds only declarations and no logic.
- **Collaborator internals.** Scene intersection, BSDF and medium sampling and evaluation, light sampling, `inboundPdf`, `approximateRadiance` and `powerHeuristic` are oracle inputs. The properties hold for every oracle that meets the stated validity predicates, such as non-negative responses and positive densities.
- **Floating point.** Colours and weights are reals, so IEEE rounding is not modelled. The fudge factor `1 + 1e-3` is an exact real. Monte Carlo convergence is not a property of this model.
- **Ray geometry.** Positions, `hitpoint`, `nearT`/`farT`, the epsilon offsets and the remaining-distance bookkeeping of `generalizedShadowRay` are not modelled. The shadow ray's hits are given in order, each with the medium transmittance of the segment before it. The handlers model a ray as its direction and its primary flag.
- **A failed intersection.** A `Scene::intersect` that finds nothing is modelled as `Miss`, which ends the walk as a null `info.primitive` does. The source declares `info` once, before the loop (TraceBase.cpp:69), and does not reset it between iterations (TraceBase.cpp:74, 91). The model therefore assumes that a failed `intersect` leaves `info.primitive` null. `Scene.hpp` is not part of this model.
- **A failed distance sample.** When `sampleDistance` fails, `handleVolume` returns false at once (TraceBase.cpp:428-429). The model assumes that the failed call leaves the medium state as it was. What a medium writes to the state before failing is not part of this model.
- **The primary flag.** `Ray::scatter` is assumed to keep the primary flag of the ray it starts from. `Ray.hpp` is not part of this model.
- **Sampler state.** Random numbers are given as draws in [0, 1), one per use, so the order in which a sampler is consumed is not modelled.
- **`absorb`.** In `handleVolume`, `absorb` is modelled as a yes/no answer. It may also update the medium state; this model does not track that update.
- **Event mutation.** In `handleSurface` and the direct-lighting functions, the updates to the `SurfaceScatterEvent` (`wo`, `requestedLobe`) are used where the source reads them, but the mutated event is not returned to the caller.
- **ScatterEvents.MakeLocalScatterEvent:** the shading frame comes from `setupTangentFrame`, and it is an input. The outgoing direction, which the source leaves unset, is zero. The lemmas that carry a direction between local and global coordinates assume an orthonormal frame (`Orthonormal`).
- **ScatterEvents.IsConsistent:** its own contract states only the disabled case. The enabled case is stated for events built by `makeLocalScatterEvent` in `ConsistencyAgainstOriginalNormal` and `GeometricFrameIsConsistent`.
- **An empty stack.** `endInline` and `end` on an empty stack are undefined behaviour in the source. The specification `Step` returns a failure there, and the methods require a non-empty stack.
- **AxisName:** models `'x' + i` converted to a `char` modulo 256. It does not model a signed `char`.
- **Scene content.** The per-type converters the scene invokes are `dynamic_cast` dispatch over classes that are not part of this model: camera, BSDFs, primitives, textures and media. They include the converters that open an element for a caller to close. `ConvertScene` and the constructor take their output as a sequence of operations, which must be properly nested (`Nested`).
- **Omitted converters.** The vector, matrix and `convertVector` converters are not modelled, and neither is float or integer formatting by `std::ostream`. Values and coordinates are given as the text they print. The integer 64 is the text `"64"`.
- **`std::endl`.** It is modelled as `"\n"`; the flush is not modelled.
- **File I/O.** `saveAsObj` and `createDirectory` are not modelled.
