/** Shared vocabulary of the light-transport core: colours, vectors, the
    integrator settings and the active-medium reference. Colours and weights
    are real numbers; floating-point rounding is not modelled. */
module Core {

  /** An RGB colour (radiance, throughput, transmittance). */
  datatype Rgb = Rgb(r: real, g: real, b: real)

  function Black(): Rgb { Rgb(0.0, 0.0, 0.0) }
  function White(): Rgb { Rgb(1.0, 1.0, 1.0) }

  /** `c == 0.0f` on a colour: every component is zero. */
  predicate IsBlack(c: Rgb) { c.r == 0.0 && c.g == 0.0 && c.b == 0.0 }

  predicate NonNeg(c: Rgb) { c.r >= 0.0 && c.g >= 0.0 && c.b >= 0.0 }

  /** Component-wise product (`Vec3f * Vec3f`). */
  function Mul(a: Rgb, b: Rgb): Rgb { Rgb(a.r * b.r, a.g * b.g, a.b * b.b) }

  function Add(a: Rgb, b: Rgb): Rgb { Rgb(a.r + b.r, a.g + b.g, a.b + b.b) }

  /** Scaling by a scalar (`Vec3f * float`). */
  function Scale(a: Rgb, s: real): Rgb { Rgb(a.r * s, a.g * s, a.b * s) }

  /** Division by a scalar (`Vec3f / float`). */
  function Div(a: Rgb, s: real): Rgb
    requires s != 0.0
  {
    Rgb(a.r / s, a.g / s, a.b / s)
  }

  /** `Vec3f::avg()`. */
  function Avg(a: Rgb): real { (a.r + a.g + a.b) / 3.0 }

  lemma MulNonNeg(a: Rgb, b: Rgb)
    requires NonNeg(a) && NonNeg(b)
    ensures NonNeg(Mul(a, b))
  {
  }

  lemma ScaleNonNeg(a: Rgb, s: real)
    requires NonNeg(a) && s >= 0.0
    ensures NonNeg(Scale(a, s))
  {
  }

  lemma DivNonNeg(a: Rgb, s: real)
    requires NonNeg(a) && s > 0.0
    ensures NonNeg(Div(a, s))
  {
  }

  lemma ScaleOne(a: Rgb)
    ensures Scale(a, 1.0) == a
  {
  }

  lemma AddNonNeg(a: Rgb, b: Rgb)
    requires NonNeg(a) && NonNeg(b)
    ensures NonNeg(Add(a, b))
  {
  }

  lemma MulAssoc(a: Rgb, b: Rgb, c: Rgb)
    ensures Mul(Mul(a, b), c) == Mul(a, Mul(b, c))
  {
  }

  /** A 3-vector of reals (positions, directions, normals). */
  datatype Vec3 = Vec3(x: real, y: real, z: real)

  function Dot(a: Vec3, b: Vec3): real { a.x * b.x + a.y * b.y + a.z * b.z }

  function Neg(a: Vec3): Vec3 { Vec3(-a.x, -a.y, -a.z) }

  function Plus(a: Vec3, b: Vec3): Vec3 { Vec3(a.x + b.x, a.y + b.y, a.z + b.z) }

  function Times(a: Vec3, s: real): Vec3 { Vec3(a.x * s, a.y * s, a.z * s) }

  /** The integrator settings the core reads (`TraceSettings`). */
  datatype TraceSettings = TraceSettings(
    enableConsistencyChecks: bool,
    enableTwoSidedShading: bool,
    minBounces: int,
    maxBounces: int)

  /** Identity of a participating medium of the scene. */
  type MediumId = nat

  /** The `const Medium *` threaded through a path: null, or a medium. */
  datatype ActiveMedium = NoMedium | InMedium(id: MediumId)

  /** `Medium::MediumState`: opaque traversal state owned by the medium;
      the core only ever resets it. */
  datatype MediumState = Initial | Advanced(token: nat)
}
