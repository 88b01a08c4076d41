/** Side-view forward and inverse kinematics of one leg.

    Angles are directions: an angle is the unit vector of its cosine and sine, so two angles a
    full turn apart are the same. Lengths are exact reals, and the square root is a parameter
    `sqrt` of which only `IsSqrt` is used. */
module LegKinematics {
  import opened Results
  import opened Reals

  datatype Vec = Vec(x: real, y: real)

  datatype Angles = Angles(femur: Vec, tibia: Vec)

  datatype IkError =
    | OutOfReach(distanceCm: real, maxReachCm: real)
    | TooClose(distanceCm: real, minReachCm: real)

  predicate RootAt(sqrt: real -> real, x: real) {
    x >= 0.0 ==> sqrt(x) >= 0.0 && sqrt(x) * sqrt(x) == x
  }

  ghost predicate IsSqrt(sqrt: real -> real) {
    forall x: real :: RootAt(sqrt, x)
  }

  // -------------------------------------------------------------------- plane geometry

  function NormSq(v: Vec): real { v.x * v.x + v.y * v.y }

  predicate Zero(v: Vec) { v.x == 0.0 && v.y == 0.0 }

  predicate Unit(v: Vec) { NormSq(v) == 1.0 }

  function Scale(k: real, v: Vec): Vec { Vec(k * v.x, k * v.y) }

  function Plus(a: Vec, b: Vec): Vec { Vec(a.x + b.x, a.y + b.y) }

  /** The sum of two angles; on vectors, the complex product. */
  function Turn(a: Vec, b: Vec): Vec { Vec(a.x * b.x - a.y * b.y, a.x * b.y + a.y * b.x) }

  /** The opposite angle. */
  function Opposite(a: Vec): Vec { Vec(a.x, -a.y) }

  function Angle0(): Vec { Vec(1.0, 0.0) }

  /** The angle of `atan2(v.y, v.x)`, which is 0 at the origin. */
  function Direction(sqrt: real -> real, v: Vec): Vec
    requires IsSqrt(sqrt)
  {
    if Zero(v) then Angle0()
    else
      NormPositive(v);
      RootPositive(sqrt, NormSq(v));
      var h := sqrt(NormSq(v));
      Vec(v.x / h, v.y / h)
  }

  /** The angle of `acos(c)`. */
  function ArcCos(sqrt: real -> real, c: real): Vec { Vec(c, sqrt(1.0 - c * c)) }

  lemma NormProducts(v: Vec)
    ensures NormSq(v) == Product(v.x, v.x) + Product(v.y, v.y)
  {
  }

  lemma NormPositive(v: Vec)
    ensures NormSq(v) >= 0.0
    ensures NormSq(v) == 0.0 <==> Zero(v)
  {
    NormProducts(v);
    hide NormSq, Product;
    ProductSign(v.x, v.x);
    ProductSign(v.y, v.y);
  }

  lemma Root(sqrt: real -> real, x: real)
    requires IsSqrt(sqrt) && x >= 0.0
    ensures sqrt(x) >= 0.0 && sqrt(x) * sqrt(x) == x
  {
    assert RootAt(sqrt, x);
  }

  lemma RootPositive(sqrt: real -> real, x: real)
    requires IsSqrt(sqrt) && x > 0.0
    ensures sqrt(x) > 0.0 && sqrt(x) * sqrt(x) == x
  {
    Root(sqrt, x);
  }

  lemma RootZero(sqrt: real -> real)
    requires IsSqrt(sqrt)
    ensures sqrt(0.0) == 0.0
  {
    Root(sqrt, 0.0);
    ProductSign(sqrt(0.0), sqrt(0.0));
  }

  lemma RootUnique(a: real, b: real)
    requires a >= 0.0 && b >= 0.0 && a * a == b * b
    ensures a == b
  {
    SquareOrder(a, b);
    SquareOrder(b, a);
  }

  lemma SquareOrder(a: real, b: real)
    requires a >= 0.0 && b >= 0.0
    ensures a <= b <==> a * a <= b * b
  {
    Difference(a, b);
    hide Product;
    ProductSign(a - b, a + b);
    ProductSign(b - a, a + b);
  }

  lemma Difference(a: real, b: real)
    ensures Product(a - b, a + b) == a * a - b * b
    ensures Product(b - a, a + b) == b * b - a * a
  {
  }

  lemma ScaleNorm(k: real, v: Vec)
    ensures NormSq(Scale(k, v)) == k * (k * NormSq(v))
  {
    var (x, y) := (v.x, v.y);
    assert (k * x) * (k * x) == (k * k) * (x * x);
    assert (k * y) * (k * y) == (k * k) * (y * y);
  }

  lemma UnitQuotient(v: Vec, h: real)
    requires h > 0.0 && h * h == NormSq(v)
    ensures var u := Vec(v.x / h, v.y / h); Unit(u) && Scale(h, u) == v
  {
    var u := Vec(v.x / h, v.y / h);
    Quotient(v.x, h);
    Quotient(v.y, h);
    ScaleNorm(h, u);
    hide NormSq;
    Cancel(h, h * NormSq(u), h);
    Cancel(h, NormSq(u), 1.0);
  }

  lemma DirectionNonZero(sqrt: real -> real, v: Vec)
    requires IsSqrt(sqrt) && !Zero(v)
    ensures Unit(Direction(sqrt, v))
    ensures v == Scale(sqrt(NormSq(v)), Direction(sqrt, v))
  {
    hide NormSq;
    NormPositive(v);
    RootPositive(sqrt, NormSq(v));
    UnitQuotient(v, sqrt(NormSq(v)));
  }

  lemma DirectionScales(sqrt: real -> real, v: Vec)
    requires IsSqrt(sqrt)
    ensures Unit(Direction(sqrt, v))
    ensures v == Scale(sqrt(NormSq(v)), Direction(sqrt, v))
  {
    if Zero(v) {
      NormPositive(v);
      RootZero(sqrt);
      Angle0IsUnit();
    } else {
      DirectionNonZero(sqrt, v);
    }
    hide NormSq;
  }

  lemma Angle0IsUnit()
    ensures Unit(Angle0())
  {
  }

  /** A positive multiple of a unit vector has that direction and that length. */
  lemma DirectionUnique(sqrt: real -> real, k: real, u: Vec)
    requires IsSqrt(sqrt) && k > 0.0 && Unit(u)
    ensures sqrt(NormSq(Scale(k, u))) == k
    ensures Direction(sqrt, Scale(k, u)) == u
  {
    var v := Scale(k, u);
    ScaleNorm(k, u);
    DirectionScales(sqrt, v);
    NormPositive(v);
    hide NormSq, Direction;
    Root(sqrt, NormSq(v));
    RootUnique(sqrt(NormSq(v)), k);
    var w := Direction(sqrt, v);
    Cancel(k, w.x, u.x);
    Cancel(k, w.y, u.y);
  }

  lemma TurnNorm(a: Vec, b: Vec)
    ensures NormSq(Turn(a, b)) == NormSq(a) * NormSq(b)
  {
    var (p, q, r, s) := (a.x * b.x, a.y * b.y, a.x * b.y, a.y * b.x);
    assert p * q == r * s;
    assert p * p == (a.x * a.x) * (b.x * b.x);
    assert q * q == (a.y * a.y) * (b.y * b.y);
    assert r * r == (a.x * a.x) * (b.y * b.y);
    assert s * s == (a.y * a.y) * (b.x * b.x);
    assert (p - q) * (p - q) + (r + s) * (r + s) == p * p + q * q + r * r + s * s;
    var (ax, ay, bx, bz) := (a.x * a.x, a.y * a.y, b.x * b.x, b.y * b.y);
    assert (ax + ay) * (bx + bz) == ax * bx + ay * bz + ax * bz + ay * bx;
  }

  lemma TurnAssociative(a: Vec, b: Vec, c: Vec)
    ensures Turn(Turn(a, b), c) == Turn(a, Turn(b, c))
  {
    assert (a.x * b.x) * c.x == a.x * (b.x * c.x) && (a.y * b.y) * c.x == a.y * (b.y * c.x);
    assert (a.x * b.y) * c.y == a.x * (b.y * c.y) && (a.y * b.x) * c.y == a.y * (b.x * c.y);
    assert (a.x * b.x) * c.y == a.x * (b.x * c.y) && (a.y * b.y) * c.y == a.y * (b.y * c.y);
    assert (a.x * b.y) * c.x == a.x * (b.y * c.x) && (a.y * b.x) * c.x == a.y * (b.x * c.x);
  }

  lemma TurnBack(a: Vec)
    requires Unit(a)
    ensures Turn(a, Opposite(a)) == Angle0() && Turn(Opposite(a), a) == Angle0()
  {
  }

  lemma TurnScales(a: Vec, k: real, b: Vec)
    ensures Turn(a, Scale(k, b)) == Scale(k, Turn(a, b))
  {
    assert a.x * (k * b.x) == k * (a.x * b.x) && a.y * (k * b.y) == k * (a.y * b.y);
    assert a.x * (k * b.y) == k * (a.x * b.y) && a.y * (k * b.x) == k * (a.y * b.x);
  }

  lemma OppositeNorm(a: Vec)
    ensures NormSq(Opposite(a)) == NormSq(a)
  {
  }

  lemma OppositeTurn(a: Vec, b: Vec)
    ensures Opposite(Turn(a, b)) == Turn(Opposite(a), Opposite(b))
  {
  }

  // ---------------------------------------------------------------- forward kinematics

  /** Where the foot stands relative to the coxa end: outward reach, height. */
  function Foot(l1: real, l2: real, a: Angles): Vec {
    Plus(Scale(l1, a.femur), Scale(l2, Turn(a.femur, a.tibia)))
  }

  datatype SideView = SideView(coxaEnd: Vec, femurEnd: Vec, tibiaEnd: Vec)

  function OffsetSidePoint(start: Vec, outward: real, angle: Vec, length: real): Vec {
    Vec(start.x + outward * angle.x * length, start.y + angle.y * length)
  }

  function SideViewPose(leftSide: bool, coxaLength: real, l1: real, l2: real, a: Angles): SideView {
    var outward := if leftSide then -1.0 else 1.0;
    var coxaEnd := Vec(outward * coxaLength, 0.0);
    var femurEnd := OffsetSidePoint(coxaEnd, outward, a.femur, l1);
    SideView(coxaEnd, femurEnd, OffsetSidePoint(femurEnd, outward, Turn(a.femur, a.tibia), l2))
  }

  // ---------------------------------------------------------------- inverse kinematics

  function KneeCosine(dSq: real, l1: real, l2: real): real
    requires l1 > 0.0 && l2 > 0.0
  {
    (dSq - l1 * l1 - l2 * l2) / (2.0 * l1 * l2)
  }

  /** The knee angle before it is used: the arc cosine of the clamped law of cosines. */
  function Knee(sqrt: real -> real, dSq: real, l1: real, l2: real): Vec
    requires l1 > 0.0 && l2 > 0.0
  {
    ArcCos(sqrt, Clamp(KneeCosine(dSq, l1, l2), -1.0, 1.0))
  }

  /** The foot seen from the coxa end along the femur, with the knee turned by `beta`. */
  function Far(l1: real, l2: real, beta: Vec): Vec { Vec(l1 + l2 * beta.x, l2 * beta.y) }

  function Theta(sqrt: real -> real, target: Vec, l1: real, l2: real): Vec
    requires IsSqrt(sqrt) && l1 > 0.0 && l2 > 0.0
  {
    var beta := Knee(sqrt, NormSq(target), l1, l2);
    var gamma := Direction(sqrt, Opposite(target));
    var alpha := Direction(sqrt, Far(l1, l2, beta));
    Turn(gamma, Opposite(alpha))
  }

  /** What remains to the target, in the mirrored frame, after the femur. */
  function Residual(target: Vec, l1: real, theta: Vec): Vec {
    Vec(target.x - l1 * theta.x, -target.y - l1 * theta.y)
  }

  function Ik2d(sqrt: real -> real, target: Vec, l1: real, l2: real): Result<Angles, IkError>
    requires IsSqrt(sqrt) && l1 > 0.0 && l2 > 0.0
  {
    var d := sqrt(NormSq(target));
    if d > l1 + l2 then Err(OutOfReach(d, l1 + l2))
    else if d < Abs(l1 - l2) then Err(TooClose(d, Abs(l1 - l2)))
    else
      var theta := Theta(sqrt, target, l1, l2);
      var femur := Opposite(theta);
      var phi := Direction(sqrt, Residual(target, l1, theta));
      Ok(Angles(femur, Turn(Opposite(phi), Opposite(femur))))
  }

  predicate InReach(dSq: real, l1: real, l2: real) {
    (l1 - l2) * (l1 - l2) <= dSq <= (l1 + l2) * (l1 + l2)
  }

  lemma AbsSquare(x: real)
    ensures Abs(x) * Abs(x) == x * x
  {
  }

  lemma OkIffInReach(sqrt: real -> real, target: Vec, l1: real, l2: real)
    requires IsSqrt(sqrt) && l1 > 0.0 && l2 > 0.0
    ensures Ik2d(sqrt, target, l1, l2).Ok? <==> InReach(NormSq(target), l1, l2)
  {
    hide NormSq, Theta, Direction, Residual, Turn;
    var d := sqrt(NormSq(target));
    NormPositive(target);
    Root(sqrt, NormSq(target));
    SquareOrder(d, l1 + l2);
    SquareOrder(Abs(l1 - l2), d);
    AbsSquare(l1 - l2);
  }

  /** In reach the clamp does nothing, and the knee closes the triangle. */
  lemma ClampIsNoOp(dSq: real, l1: real, l2: real)
    requires l1 > 0.0 && l2 > 0.0 && InReach(dSq, l1, l2)
    ensures -1.0 <= KneeCosine(dSq, l1, l2) <= 1.0
    ensures 2.0 * l1 * l2 * KneeCosine(dSq, l1, l2) == dSq - l1 * l1 - l2 * l2
  {
    var (k, n) := (2.0 * l1 * l2, dSq - l1 * l1 - l2 * l2);
    assert l1 * l2 > 0.0;
    assert (l1 - l2) * (l1 - l2) == l1 * l1 + l2 * l2 - k;
    assert (l1 + l2) * (l1 + l2) == l1 * l1 + l2 * l2 + k;
    assert -k <= n <= k;
    QuotientInUnit(n, k);
  }

  lemma QuotientInUnit(n: real, k: real)
    requires k > 0.0 && -k <= n <= k
    ensures -1.0 <= n / k <= 1.0 && k * (n / k) == n
  {
    Quotient(n, k);
    Between(k, n / k);
  }

  lemma Between(k: real, q: real)
    requires k > 0.0 && -k <= k * q <= k
    ensures -1.0 <= q <= 1.0
  {
    assert Product(k, q - 1.0) == k * q - k && Product(k, -1.0 - q) == -k - k * q;
    hide Product;
    ProductSign(k, q - 1.0);
    ProductSign(k, -1.0 - q);
  }

  lemma ArcCosIsUnit(sqrt: real -> real, c: real)
    requires IsSqrt(sqrt) && -1.0 <= c <= 1.0
    ensures Unit(ArcCos(sqrt, c)) && ArcCos(sqrt, c).y >= 0.0
  {
    assert Product(1.0 - c, 1.0 + c) == 1.0 - c * c;
    ProductSign(1.0 - c, 1.0 + c);
    hide Product;
    Root(sqrt, 1.0 - c * c);
  }

  lemma KneeIsUnit(sqrt: real -> real, dSq: real, l1: real, l2: real)
    requires IsSqrt(sqrt) && l1 > 0.0 && l2 > 0.0 && InReach(dSq, l1, l2)
    ensures Unit(Knee(sqrt, dSq, l1, l2)) && Knee(sqrt, dSq, l1, l2).y >= 0.0
    ensures Knee(sqrt, dSq, l1, l2).x == KneeCosine(dSq, l1, l2)
  {
    ClampIsNoOp(dSq, l1, l2);
    hide KneeCosine;
    ArcCosIsUnit(sqrt, KneeCosine(dSq, l1, l2));
  }

  /** The leg seen from the femur: `l1 + l2 * beta` has the squared length of the target. */
  lemma KneeCloses(l1: real, l2: real, beta: Vec, dSq: real)
    requires Unit(beta) && 2.0 * l1 * l2 * beta.x == dSq - l1 * l1 - l2 * l2
    ensures NormSq(Far(l1, l2, beta)) == dSq
  {
    var (c, s) := (beta.x, beta.y);
    assert (l1 + l2 * c) * (l1 + l2 * c) == l1 * l1 + 2.0 * l1 * l2 * c + (l2 * c) * (l2 * c);
    ScaleNorm(l2, beta);
  }

  /** `theta * (l1 + l2 * beta)` is the mirrored target. */
  lemma ThetaReaches(sqrt: real -> real, target: Vec, l1: real, l2: real)
    requires IsSqrt(sqrt) && l1 > 0.0 && l2 > 0.0 && InReach(NormSq(target), l1, l2)
    ensures var (beta, theta) := (Knee(sqrt, NormSq(target), l1, l2), Theta(sqrt, target, l1, l2));
            Unit(theta) && Turn(theta, Far(l1, l2, beta)) == Opposite(target)
  {
    var dSq := NormSq(target);
    var beta := Knee(sqrt, dSq, l1, l2);
    KneeIsUnit(sqrt, dSq, l1, l2);
    ClampIsNoOp(dSq, l1, l2);
    hide NormSq, Direction, Turn, Far, Knee, KneeCosine;
    OppositeNorm(target);
    KneeCloses(l1, l2, beta, dSq);
    TurnBetween(sqrt, Opposite(target), Far(l1, l2, beta));
  }

  /** The turn from the direction of `a` to that of an equally long `p` takes `a` to `p`. */
  lemma TurnBetween(sqrt: real -> real, p: Vec, a: Vec)
    requires IsSqrt(sqrt) && NormSq(p) == NormSq(a)
    ensures var theta := Turn(Direction(sqrt, p), Opposite(Direction(sqrt, a)));
            Unit(theta) && Turn(theta, a) == p
  {
    hide NormSq, Direction, Turn;
    DirectionScales(sqrt, p);
    DirectionScales(sqrt, a);
    Unturn(Direction(sqrt, p), Direction(sqrt, a), sqrt(NormSq(p)));
  }

  lemma Unturn(gamma: Vec, alpha: Vec, d: real)
    requires Unit(gamma) && Unit(alpha)
    ensures Unit(Turn(gamma, Opposite(alpha)))
    ensures Turn(Turn(gamma, Opposite(alpha)), Scale(d, alpha)) == Scale(d, gamma)
  {
    TurnNorm(gamma, Opposite(alpha));
    TurnAssociative(gamma, Opposite(alpha), Scale(d, alpha));
    TurnScales(Opposite(alpha), d, alpha);
    TurnBack(alpha);
    TurnScales(gamma, d, Angle0());
  }

  /** After the femur exactly `l2` remains, in the direction `theta * beta`. */
  lemma ResidualIsTibia(sqrt: real -> real, target: Vec, l1: real, l2: real)
    requires IsSqrt(sqrt) && l1 > 0.0 && l2 > 0.0 && InReach(NormSq(target), l1, l2)
    ensures var (beta, theta) := (Knee(sqrt, NormSq(target), l1, l2), Theta(sqrt, target, l1, l2));
            && Unit(Turn(theta, beta))
            && Residual(target, l1, theta) == Scale(l2, Turn(theta, beta))
            && sqrt(NormSq(Residual(target, l1, theta))) == l2
            && Direction(sqrt, Residual(target, l1, theta)) == Turn(theta, beta)
  {
    var (beta, theta) := (Knee(sqrt, NormSq(target), l1, l2), Theta(sqrt, target, l1, l2));
    ThetaReaches(sqrt, target, l1, l2);
    KneeIsUnit(sqrt, NormSq(target), l1, l2);
    TurnNorm(theta, beta);
    Distribute(theta, l1, l2, beta);
    assert Residual(target, l1, theta) == Scale(l2, Turn(theta, beta));
    DirectionUnique(sqrt, l2, Turn(theta, beta));
  }

  lemma Distribute(theta: Vec, l1: real, l2: real, beta: Vec)
    ensures Turn(theta, Far(l1, l2, beta))
         == Plus(Scale(l1, theta), Scale(l2, Turn(theta, beta)))
  {
    TurnScales(theta, l2, beta);
    assert theta.x * (l1 + l2 * beta.x) == l1 * theta.x + theta.x * (l2 * beta.x);
    assert theta.y * (l1 + l2 * beta.x) == l1 * theta.y + theta.y * (l2 * beta.x);
  }

  /** The solution in closed form: the tibia is the knee angle turned the other way. */
  lemma SolutionForm(sqrt: real -> real, target: Vec, l1: real, l2: real)
    requires IsSqrt(sqrt) && l1 > 0.0 && l2 > 0.0 && Ik2d(sqrt, target, l1, l2).Ok?
    ensures Ik2d(sqrt, target, l1, l2).value
         == Angles(Opposite(Theta(sqrt, target, l1, l2)), Opposite(Knee(sqrt, NormSq(target), l1, l2)))
  {
    OkIffInReach(sqrt, target, l1, l2);
    var (beta, theta) := (Knee(sqrt, NormSq(target), l1, l2), Theta(sqrt, target, l1, l2));
    ThetaReaches(sqrt, target, l1, l2);
    ResidualIsTibia(sqrt, target, l1, l2);
    TibiaOf(theta, beta);
  }

  lemma TibiaOf(theta: Vec, beta: Vec)
    requires Unit(theta)
    ensures Turn(Opposite(Turn(theta, beta)), Opposite(Opposite(theta))) == Opposite(beta)
  {
    var t := Opposite(theta);
    OppositeTurn(theta, beta);
    assert Opposite(t) == theta;
    assert Turn(t, Opposite(beta)) == Turn(Opposite(beta), t);
    TurnAssociative(Opposite(beta), t, theta);
    TurnBack(theta);
  }

  lemma FoldedBackLands(l1: real, l2: real, theta: Vec, beta: Vec, target: Vec)
    requires Turn(theta, Far(l1, l2, beta)) == Opposite(target)
    ensures Foot(l1, l2, Angles(Opposite(theta), Opposite(beta))) == target
  {
    Distribute(theta, l1, l2, beta);
    OppositeTurn(theta, beta);
  }

  /** Forward kinematics of the solution lands on the requested foot, and the solution always
      takes the branch whose tibia sine is not positive. */
  lemma FkOfIk(sqrt: real -> real, target: Vec, l1: real, l2: real)
    requires IsSqrt(sqrt) && l1 > 0.0 && l2 > 0.0 && Ik2d(sqrt, target, l1, l2).Ok?
    ensures var a := Ik2d(sqrt, target, l1, l2).value;
            && Unit(a.femur) && Unit(a.tibia) && a.tibia.y <= 0.0
            && Foot(l1, l2, a) == target
  {
    hide NormSq, Direction, Turn, Far, Knee, Theta, Ik2d, Foot;
    OkIffInReach(sqrt, target, l1, l2);
    SolutionForm(sqrt, target, l1, l2);
    KneeIsUnit(sqrt, NormSq(target), l1, l2);
    ThetaReaches(sqrt, target, l1, l2);
    OppositeNorm(Theta(sqrt, target, l1, l2));
    OppositeNorm(Knee(sqrt, NormSq(target), l1, l2));
    FoldedBackLands(l1, l2, Theta(sqrt, target, l1, l2), Knee(sqrt, NormSq(target), l1, l2), target);
  }

  /** On either side of the body, the side view of the solution ends at the requested foot. */
  lemma SideViewReachesFoot(sqrt: real -> real, leftSide: bool, coxaLength: real, target: Vec, l1: real, l2: real)
    requires IsSqrt(sqrt) && l1 > 0.0 && l2 > 0.0 && Ik2d(sqrt, target, l1, l2).Ok?
    ensures var view := SideViewPose(leftSide, coxaLength, l1, l2, Ik2d(sqrt, target, l1, l2).value);
            var outward := if leftSide then -1.0 else 1.0;
            view.tibiaEnd == Vec(view.coxaEnd.x + outward * target.x, view.coxaEnd.y + target.y)
  {
    FkOfIk(sqrt, target, l1, l2);
    SideViewIsFoot(leftSide, coxaLength, l1, l2, Ik2d(sqrt, target, l1, l2).value);
  }

  lemma SideViewIsFoot(leftSide: bool, coxaLength: real, l1: real, l2: real, a: Angles)
    ensures var view := SideViewPose(leftSide, coxaLength, l1, l2, a);
            var outward := if leftSide then -1.0 else 1.0;
            view.tibiaEnd == Vec(view.coxaEnd.x + outward * Foot(l1, l2, a).x,
                                 view.coxaEnd.y + Foot(l1, l2, a).y)
  {
  }

  /** The upper part of the side view: the coxa lies level, outward on its side, and the femur
      follows its angle. */
  lemma SideViewFemur(leftSide: bool, coxaLength: real, l1: real, l2: real, a: Angles)
    ensures var view := SideViewPose(leftSide, coxaLength, l1, l2, a);
            && view.coxaEnd == Vec(if leftSide then -coxaLength else coxaLength, 0.0)
            && view.femurEnd.x - view.coxaEnd.x == (if leftSide then -(l1 * a.femur.x) else l1 * a.femur.x)
            && view.femurEnd.y - view.coxaEnd.y == l1 * a.femur.y
  {
  }

  /** What the solver says of a foot it does not reach: its distance, and the bound it breaks. */
  lemma RefusedFoot(sqrt: real -> real, target: Vec, l1: real, l2: real)
    requires IsSqrt(sqrt) && l1 > 0.0 && l2 > 0.0
    ensures var (d, r) := (sqrt(NormSq(target)), Ik2d(sqrt, target, l1, l2));
            && (d > l1 + l2 ==> r == Err(OutOfReach(d, l1 + l2)))
            && (d < l1 - l2 ==> r == Err(TooClose(d, l1 - l2)))
            && (d < l2 - l1 ==> r == Err(TooClose(d, l2 - l1)))
  {
    hide Theta, Direction, Residual, Turn, NormSq;
    NormPositive(target);
    Root(sqrt, NormSq(target));
  }

  /** The squared reach of a pose depends on the knee only. */
  lemma FootNorm(l1: real, l2: real, a: Angles)
    requires Unit(a.femur) && Unit(a.tibia)
    ensures NormSq(Foot(l1, l2, a)) == l1 * l1 + l2 * l2 + 2.0 * l1 * l2 * a.tibia.x
  {
    var t := Far(l1, l2, a.tibia);
    Distribute(a.femur, l1, l2, a.tibia);
    TurnNorm(a.femur, t);
    KneeCloses(l1, l2, a.tibia, l1 * l1 + l2 * l2 + 2.0 * l1 * l2 * a.tibia.x);
  }

  lemma UnitBounds(u: Vec)
    requires Unit(u)
    ensures -1.0 <= u.x <= 1.0
  {
    NormProducts(u);
    assert Product(1.0 - u.x, 1.0 + u.x) == 1.0 - Product(u.x, u.x);
    hide Product, NormSq;
    ProductSign(u.y, u.y);
    ProductSign(1.0 - u.x, 1.0 + u.x);
    ProductSign(u.x - 1.0, u.x + 1.0);
    if u.x > 1.0 || u.x < -1.0 {
      OutsideUnit(u.x);
    }
  }

  lemma OutsideUnit(x: real)
    requires x > 1.0 || x < -1.0
    ensures Product(1.0 - x, 1.0 + x) < 0.0
  {
    assert Product(1.0 - x, 1.0 + x) == -Product(x - 1.0, x + 1.0);
    hide Product;
    ProductSign(x - 1.0, x + 1.0);
  }

  lemma FootInReach(l1: real, l2: real, a: Angles)
    requires l1 > 0.0 && l2 > 0.0 && Unit(a.femur) && Unit(a.tibia)
    ensures InReach(NormSq(Foot(l1, l2, a)), l1, l2)
  {
    FootNorm(l1, l2, a);
    UnitBounds(a.tibia);
    hide NormSq, Foot;
    KneeRange(l1, l2, a.tibia.x);
  }

  lemma KneeRange(l1: real, l2: real, c: real)
    requires l1 > 0.0 && l2 > 0.0 && -1.0 <= c <= 1.0
    ensures InReach(l1 * l1 + l2 * l2 + 2.0 * l1 * l2 * c, l1, l2)
  {
    ProductSign(l1, l2);
    ProductSign(l1 * l2, 1.0 - c);
    ProductSign(l1 * l2, 1.0 + c);
    assert Product(l1 * l2, 1.0 - c) == l1 * l2 - l1 * l2 * c;
    assert Product(l1 * l2, 1.0 + c) == l1 * l2 + l1 * l2 * c;
  }

  /** The solver answers exactly for the feet some pose reaches. */
  lemma SolvesIffReachable(sqrt: real -> real, target: Vec, l1: real, l2: real)
    requires IsSqrt(sqrt) && l1 > 0.0 && l2 > 0.0
    ensures Ik2d(sqrt, target, l1, l2).Ok? <==>
            exists a: Angles :: Unit(a.femur) && Unit(a.tibia) && Foot(l1, l2, a) == target
  {
    if Ik2d(sqrt, target, l1, l2).Ok? {
      FkOfIk(sqrt, target, l1, l2);
    }
    forall a: Angles | Unit(a.femur) && Unit(a.tibia) && Foot(l1, l2, a) == target
      ensures Ik2d(sqrt, target, l1, l2).Ok?
    {
      FootInReach(l1, l2, a);
      OkIffInReach(sqrt, target, l1, l2);
    }
  }

  /** On the upper half circle the cosine determines the angle. */
  lemma SameCosine(u: Vec, v: Vec)
    requires Unit(u) && Unit(v) && u.x == v.x && u.y >= 0.0 && v.y >= 0.0
    ensures u == v
  {
    RootUnique(u.y, v.y);
  }

  lemma SameKnee(l1: real, l2: real, dSq: real, c: real, t: real)
    requires l1 > 0.0 && l2 > 0.0
    requires 2.0 * l1 * l2 * c == dSq - l1 * l1 - l2 * l2
    requires dSq == l1 * l1 + l2 * l2 + 2.0 * l1 * l2 * t
    ensures c == t
  {
    var k := 2.0 * l1 * l2;
    ProductSign(l1, l2);
    assert k == 2.0 * Product(l1, l2);
    assert k * c == k * t;
    hide Product;
    Cancel(k, c, t);
  }

  /** The knee angle recovered from a reached foot is the tibia turned the other way. */
  lemma KneeOfFoot(sqrt: real -> real, l1: real, l2: real, a: Angles)
    requires IsSqrt(sqrt) && l1 > 0.0 && l2 > 0.0
    requires Unit(a.femur) && Unit(a.tibia) && a.tibia.y <= 0.0
    ensures Knee(sqrt, NormSq(Foot(l1, l2, a)), l1, l2) == Opposite(a.tibia)
  {
    var dSq := NormSq(Foot(l1, l2, a));
    FootNorm(l1, l2, a);
    FootInReach(l1, l2, a);
    KneeIsUnit(sqrt, dSq, l1, l2);
    ClampIsNoOp(dSq, l1, l2);
    OppositeNorm(a.tibia);
    hide NormSq, Foot, Knee, KneeCosine, InReach;
    SameKnee(l1, l2, dSq, KneeCosine(dSq, l1, l2), a.tibia.x);
    SameCosine(Knee(sqrt, dSq, l1, l2), Opposite(a.tibia));
  }

  /** A foot's mirror image is the femur's, turned by the leg as seen from the femur. */
  lemma MirroredFoot(l1: real, l2: real, a: Angles)
    ensures Opposite(Foot(l1, l2, a))
         == Turn(Opposite(a.femur), Far(l1, l2, Opposite(a.tibia)))
  {
    Distribute(a.femur, l1, l2, a.tibia);
    OppositeTurn(a.femur, Far(l1, l2, a.tibia));
  }

  lemma ThetaOfFoot(sqrt: real -> real, l1: real, l2: real, a: Angles)
    requires IsSqrt(sqrt) && l1 > 0.0 && l2 > 0.0
    requires Unit(a.femur) && Unit(a.tibia) && a.tibia.y <= 0.0
    requires !Zero(Foot(l1, l2, a))
    ensures Theta(sqrt, Foot(l1, l2, a), l1, l2) == Opposite(a.femur)
  {
    hide NormSq, Direction, Turn, Far, Knee, Foot;
    KneeOfFoot(sqrt, l1, l2, a);
    MirroredFoot(l1, l2, a);
    OppositeNorm(a.femur);
    DirectionTurns(sqrt, Opposite(a.femur), Far(l1, l2, Opposite(a.tibia)));
  }

  lemma TurnZero(u: Vec, v: Vec)
    ensures Zero(v) ==> Zero(Turn(u, v))
  {
  }

  /** Turning a vector turns its direction. */
  lemma DirectionTurns(sqrt: real -> real, u: Vec, v: Vec)
    requires IsSqrt(sqrt) && Unit(u) && !Zero(Turn(u, v))
    ensures Turn(Direction(sqrt, Turn(u, v)), Opposite(Direction(sqrt, v))) == u
  {
    hide NormSq, Direction, Turn;
    var (w, k) := (Direction(sqrt, v), sqrt(NormSq(v)));
    DirectionScales(sqrt, v);
    TurnZero(u, v);
    NormPositive(v);
    RootPositive(sqrt, NormSq(v));
    TurnScales(u, k, w);
    TurnNorm(u, w);
    DirectionUnique(sqrt, k, Turn(u, w));
    TurnAssociative(u, w, Opposite(w));
    TurnBack(w);
    TurnUnit(u);
  }

  lemma TurnUnit(u: Vec)
    ensures Turn(u, Angle0()) == u && Turn(Angle0(), u) == u
  {
  }

  /** Solving for the foot of a pose gives back that pose exactly when its tibia is on the
      solver's branch, and either the foot is away from the coxa end or the femur lies level
      outward: with the foot on the coxa end the solver always answers with a level femur. */
  lemma IkOfFk(sqrt: real -> real, l1: real, l2: real, a: Angles)
    requires IsSqrt(sqrt) && l1 > 0.0 && l2 > 0.0 && Unit(a.femur) && Unit(a.tibia)
    ensures Ik2d(sqrt, Foot(l1, l2, a), l1, l2) == Ok(a) <==>
            a.tibia.y <= 0.0 && (!Zero(Foot(l1, l2, a)) || a.femur == Angle0())
  {
    hide NormSq, Direction, Turn, Knee, Theta, Ik2d, Foot;
    var foot := Foot(l1, l2, a);
    FootInReach(l1, l2, a);
    OkIffInReach(sqrt, foot, l1, l2);
    FkOfIk(sqrt, foot, l1, l2);
    SolutionForm(sqrt, foot, l1, l2);
    NormPositive(foot);
    if Zero(foot) {
      assert foot == Vec(0.0, 0.0);
      FoldedTheta(sqrt, l1, l2);
    }
    if a.tibia.y <= 0.0 {
      KneeOfFoot(sqrt, l1, l2, a);
      if !Zero(foot) {
        ThetaOfFoot(sqrt, l1, l2, a);
      }
    }
  }

  lemma FarFolded(sqrt: real -> real, l1: real, l2: real)
    requires IsSqrt(sqrt) && l1 > 0.0 && l2 > 0.0 && InReach(0.0, l1, l2)
    ensures Zero(Far(l1, l2, Knee(sqrt, 0.0, l1, l2)))
  {
    KneeIsUnit(sqrt, 0.0, l1, l2);
    ClampIsNoOp(0.0, l1, l2);
    hide NormSq, Knee, KneeCosine, Far;
    KneeCloses(l1, l2, Knee(sqrt, 0.0, l1, l2), 0.0);
    NormPositive(Far(l1, l2, Knee(sqrt, 0.0, l1, l2)));
  }

  lemma FoldedTheta(sqrt: real -> real, l1: real, l2: real)
    requires IsSqrt(sqrt) && l1 > 0.0 && l2 > 0.0 && InReach(0.0, l1, l2)
    ensures Theta(sqrt, Vec(0.0, 0.0), l1, l2) == Angle0()
  {
    hide NormSq, Knee, Far, InReach, Turn, Direction, Opposite, Zero, Angle0;
    Origin();
    FarFolded(sqrt, l1, l2);
    NoDirection(sqrt, Opposite(Vec(0.0, 0.0)));
    NoDirection(sqrt, Far(l1, l2, Knee(sqrt, 0.0, l1, l2)));
    TurnUnit(Angle0());
  }

  lemma Origin()
    ensures NormSq(Vec(0.0, 0.0)) == 0.0 && Zero(Opposite(Vec(0.0, 0.0))) && Opposite(Angle0()) == Angle0()
  {
  }

  lemma NoDirection(sqrt: real -> real, v: Vec)
    requires IsSqrt(sqrt) && Zero(v)
    ensures Direction(sqrt, v) == Angle0()
  {
  }

  /** The original pose is recovered over the whole half turn the robot uses: for every foot
      away from the coxa end. */
  lemma IkRecoversPose(sqrt: real -> real, l1: real, l2: real, a: Angles)
    requires IsSqrt(sqrt) && l1 > 0.0 && l2 > 0.0 && Unit(a.femur) && Unit(a.tibia)
    requires a.tibia.y <= 0.0 && !Zero(Foot(l1, l2, a))
    ensures Ik2d(sqrt, Foot(l1, l2, a), l1, l2) == Ok(a)
  {
    IkOfFk(sqrt, l1, l2, a);
  }
}
