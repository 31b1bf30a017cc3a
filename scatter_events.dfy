/** Construction of the per-bounce surface scattering event (its local
    shading frame and the two-sided shading flip) and the optional
    consistency check between geometric and shading normals
    (TraceBase::makeLocalScatterEvent and TraceBase::isConsistent). */
module ScatterEvents {
  import opened Core

  /** An orthonormal shading frame, as `Primitive::setupTangentFrame` builds it. */
  datatype TangentFrame = TangentFrame(normal: Vec3, tangent: Vec3, bitangent: Vec3)

  /** `TangentFrame::toLocal`: coordinates along tangent, bitangent and normal. */
  function ToLocal(f: TangentFrame, v: Vec3): Vec3
  {
    Vec3(Dot(f.tangent, v), Dot(f.bitangent, v), Dot(f.normal, v))
  }

  /** `TangentFrame::toGlobal`. */
  function ToGlobal(f: TangentFrame, v: Vec3): Vec3
  {
    Plus(Plus(Times(f.tangent, v.x), Times(f.bitangent, v.y)), Times(f.normal, v.z))
  }

  /** The lobe masks the core requests of a BSDF. */
  datatype LobeRequest = AllLobes | AllButSpecular

  /** The capability queries the core makes of `Bsdf::lobes()`. */
  datatype Lobes = Lobes(isPureSpecular: bool, isForward: bool, isTransmissive: bool)

  /** The parts of `SurfaceScatterEvent` the core reads or writes: the
      local frame, the hit's geometric normal `Ng`, the local incoming and
      outgoing directions, the requested lobes and the frame-flip flag. */
  datatype SurfaceEvent = SurfaceEvent(
    frame: TangentFrame,
    ng: Vec3,
    wi: Vec3,
    wo: Vec3,
    requestedLobe: LobeRequest,
    flippedFrame: bool)

  /** The frame with its normal and tangent negated. */
  function Flipped(f: TangentFrame): TangentFrame
  {
    f.(normal := Neg(f.normal), tangent := Neg(f.tangent))
  }

  /** Whether `makeLocalScatterEvent` flips the frame: two-sided shading is
      on, the ray arrives from behind the shading normal, and the BSDF has
      no transmissive lobe. */
  predicate FlipFrame(settings: TraceSettings, frame: TangentFrame, rayDir: Vec3, lobes: Lobes)
  {
    settings.enableTwoSidedShading && Dot(frame.normal, rayDir) > 0.0 && !lobes.isTransmissive
  }

  /** `makeLocalScatterEvent`: builds the event for a ray hitting a surface
      whose shading frame is `frame` and whose geometric normal is `ng`.
      The outgoing direction is not set by the source; it is zero here. */
  function MakeLocalScatterEvent(settings: TraceSettings, frame: TangentFrame, ng: Vec3,
                                 rayDir: Vec3, lobes: Lobes): (e: SurfaceEvent)
    ensures e.flippedFrame <==> FlipFrame(settings, frame, rayDir, lobes)
    ensures e.flippedFrame ==> e.frame.normal == Neg(frame.normal) && e.frame.tangent == Neg(frame.tangent)
    ensures e.frame.bitangent == frame.bitangent
    ensures !e.flippedFrame ==> e.frame == frame
    ensures e.ng == ng && e.requestedLobe == AllLobes
    ensures e.wi == ToLocal(e.frame, Neg(rayDir))
  {
    var flip := FlipFrame(settings, frame, rayDir, lobes);
    var f := if flip then Flipped(frame) else frame;
    SurfaceEvent(f, ng, ToLocal(f, Neg(rayDir)), Vec3(0.0, 0.0, 0.0), AllLobes, flip)
  }

  /** `isConsistent`: with checks enabled, the side of the geometric normal
      that `w` lies on must match the side of the local z axis that the
      event's `wo` lies on, corrected by the frame-flip flag. */
  function IsConsistent(settings: TraceSettings, e: SurfaceEvent, w: Vec3): (ok: bool)
    ensures !settings.enableConsistencyChecks ==> ok
  {
    if !settings.enableConsistencyChecks then true
    else
      var geometricBackside := Dot(w, e.ng) < 0.0;
      var shadingBackside := (e.wo.z < 0.0) != e.flippedFrame;
      geometricBackside == shadingBackside
  }

  lemma DotNeg(a: Vec3, b: Vec3)
    ensures Dot(Neg(a), b) == -Dot(a, b) && Dot(a, Neg(b)) == -Dot(a, b)
  {
  }

  lemma DotSymmetric(a: Vec3, b: Vec3)
    ensures Dot(a, b) == Dot(b, a)
  {
  }

  /** With two-sided shading on a non-transmissive BSDF, the incoming
      direction always lies in the upper local hemisphere, as it does for
      a front-side hit: the flip makes a backside hit look like a front
      side one. */
  lemma TwoSidedShadingFacesViewer(settings: TraceSettings, frame: TangentFrame, ng: Vec3,
                                   rayDir: Vec3, lobes: Lobes)
    requires settings.enableTwoSidedShading && !lobes.isTransmissive
    ensures MakeLocalScatterEvent(settings, frame, ng, rayDir, lobes).wi.z >= 0.0
  {
    DotNeg(frame.normal, rayDir);
    DotNeg(Neg(frame.normal), rayDir);
    assert Neg(Neg(frame.normal)) == frame.normal;
  }

  /** Without the flip (front-side hit, one-sided shading, or a transmissive
      BSDF) the local incoming z coordinate is the cosine against the
      unmodified shading normal. */
  lemma UnflippedIncomingCosine(settings: TraceSettings, frame: TangentFrame, ng: Vec3,
                                rayDir: Vec3, lobes: Lobes)
    requires !FlipFrame(settings, frame, rayDir, lobes)
    ensures MakeLocalScatterEvent(settings, frame, ng, rayDir, lobes).wi.z == -Dot(frame.normal, rayDir)
  {
    DotNeg(frame.normal, rayDir);
  }

  /** The flip flag exactly compensates the flip: for a direction `w` that
      is not tangent to the shading normal, checking `w` against the event
      built by `makeLocalScatterEvent` compares the geometric side of `w`
      with its side of the ORIGINAL shading normal, whether or not the frame
      was flipped. */
  lemma ConsistencyAgainstOriginalNormal(settings: TraceSettings, frame: TangentFrame, ng: Vec3,
                                        rayDir: Vec3, lobes: Lobes, w: Vec3)
    requires settings.enableConsistencyChecks
    requires Dot(frame.normal, w) != 0.0
    ensures var e := MakeLocalScatterEvent(settings, frame, ng, rayDir, lobes);
            IsConsistent(settings, e.(wo := ToLocal(e.frame, w)), w)
            == ((Dot(w, ng) < 0.0) == (Dot(frame.normal, w) < 0.0))
  {
    DotNeg(frame.normal, w);
  }

  /** Unit axes, pairwise perpendicular: what `setupTangentFrame` promises
      of the frames it builds. */
  predicate Orthonormal(f: TangentFrame)
  {
    Dot(f.tangent, f.tangent) == 1.0 && Dot(f.bitangent, f.bitangent) == 1.0 && Dot(f.normal, f.normal) == 1.0
    && Dot(f.tangent, f.bitangent) == 0.0 && Dot(f.tangent, f.normal) == 0.0 && Dot(f.bitangent, f.normal) == 0.0
  }

  /** The dot product with a global direction is linear in its local
      coordinates. */
  lemma DotToGlobal(a: Vec3, f: TangentFrame, v: Vec3)
    ensures Dot(a, ToGlobal(f, v))
            == Dot(a, f.tangent) * v.x + Dot(a, f.bitangent) * v.y + Dot(a, f.normal) * v.z
  {
    var t, b, n := Times(f.tangent, v.x), Times(f.bitangent, v.y), Times(f.normal, v.z);
    DotPlus(a, Plus(t, b), n);
    DotPlus(a, t, b);
    DotTimes(a, f.tangent, v.x);
    DotTimes(a, f.bitangent, v.y);
    DotTimes(a, f.normal, v.z);
  }

  lemma DotPlus(a: Vec3, b: Vec3, c: Vec3)
    ensures Dot(a, Plus(b, c)) == Dot(a, b) + Dot(a, c)
  {
  }

  lemma DotTimes(a: Vec3, b: Vec3, s: real)
    ensures Dot(a, Times(b, s)) == Dot(a, b) * s
  {
  }

  /** `toLocal` undoes `toGlobal` on an orthonormal frame. */
  lemma LocalGlobalRoundTrip(f: TangentFrame, v: Vec3)
    requires Orthonormal(f)
    ensures ToLocal(f, ToGlobal(f, v)) == v
  {
    DotToGlobal(f.tangent, f, v);
    DotToGlobal(f.bitangent, f, v);
    DotSymmetric(f.bitangent, f.tangent);
    DotToGlobal(f.normal, f, v);
    DotSymmetric(f.normal, f.tangent);
    DotSymmetric(f.normal, f.bitangent);
  }

  /** The two-sided shading flip keeps a frame orthonormal. */
  lemma FlippedOrthonormal(f: TangentFrame)
    requires Orthonormal(f)
    ensures Orthonormal(Flipped(f))
  {
    DotNeg(f.tangent, f.tangent);
    DotNeg(Neg(f.tangent), f.tangent);
    DotNeg(f.normal, f.normal);
    DotNeg(Neg(f.normal), f.normal);
    DotNeg(f.tangent, f.bitangent);
    DotNeg(f.bitangent, f.normal);
    DotNeg(f.tangent, Neg(f.normal));
    DotNeg(f.tangent, f.normal);
  }

  /** The form in which `bsdfSample` and `handleSurface` use the check: a
      direction sampled in local coordinates `wo`, off the local horizon, is
      carried to the global `w` by the event's frame, and the check compares
      the geometric side of `w` with its side of the original shading
      normal, whether or not the frame was flipped. */
  lemma ConsistencyOfSampledDirection(settings: TraceSettings, frame: TangentFrame, ng: Vec3,
                                      rayDir: Vec3, lobes: Lobes, wo: Vec3)
    requires settings.enableConsistencyChecks && Orthonormal(frame)
    requires wo.z != 0.0
    ensures var e := MakeLocalScatterEvent(settings, frame, ng, rayDir, lobes);
            var w := ToGlobal(e.frame, wo);
            IsConsistent(settings, e.(wo := wo), w)
            == ((Dot(w, ng) < 0.0) == (Dot(frame.normal, w) < 0.0))
  {
    var e := MakeLocalScatterEvent(settings, frame, ng, rayDir, lobes);
    var w := ToGlobal(e.frame, wo);
    if e.flippedFrame {
      FlippedOrthonormal(frame);
    }
    assert Orthonormal(e.frame);
    LocalGlobalRoundTrip(e.frame, wo);
    assert ToLocal(e.frame, w) == wo;
    DotNeg(frame.normal, w);
    assert Dot(frame.normal, w) != 0.0;
    ConsistencyAgainstOriginalNormal(settings, frame, ng, rayDir, lobes, w);
  }

  /** A shading frame whose normal is the geometric normal never fails the
      consistency check, flipped or not: the check only rejects directions
      made possible by a perturbed shading normal. */
  lemma GeometricFrameIsConsistent(settings: TraceSettings, frame: TangentFrame,
                                   rayDir: Vec3, lobes: Lobes, w: Vec3)
    requires Dot(frame.normal, w) != 0.0
    ensures var e := MakeLocalScatterEvent(settings, frame, frame.normal, rayDir, lobes);
            IsConsistent(settings, e.(wo := ToLocal(e.frame, w)), w)
  {
    if settings.enableConsistencyChecks {
      ConsistencyAgainstOriginalNormal(settings, frame, frame.normal, rayDir, lobes, w);
      DotSymmetric(w, frame.normal);
    }
  }
}
