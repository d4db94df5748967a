/**
 * Pair potentials: pure functions of two particles and their squared
 * distance `r2`, returning an energy in the potential's own unit (multiply
 * by `tokT` to get thermal units). Hard-core terms return the infinity
 * sentinel. A combined potential holds two sub-potentials by value and
 * returns the sum of their `tokT`-scaled energies; it nests to any depth.
 *
 * Each functional form is a function of plain numbers whose contract says
 * what the form means; `PairEnergy` dispatches on the form, as the virtual
 * `operator()` does.
 */
module Potentials {
  import opened Particles
  import opened RealArith

  /** A pair potential: its short name, its unit scale and its functional form. */
  datatype Pot = Pot(name: string, tokT: real, form: Form)

  datatype Form =
    | Harmonic(k: real, req: real)
    | HardSphere
    | LennardJones(eps: real)
    | LennardJonesR12(eps: real)
    | SquareWell(threshold: real, depth: real)
    | SquareWellHydrophobic(threshold: real, depth: real)
    | SoftRepulsion(sigma6: real)
    | R12Repulsion(eps: real)
    | Coulomb
    | Combined(sr1: Pot, sr2: Pot)

  /** Contact distance of two particles: the sum of their radii. */
  function Contact(a: Particle, b: Particle): real { a.radius + b.radius }

  /** `sqrt` returns the non-negative square root of `x`. */
  predicate SqrtAt(sqrt: real -> real, x: real)
  {
    sqrt(x) >= 0.0 && Sq(sqrt(x)) == x
  }

  /** `(s2 / r2)^3`: with `s2 = sigma^2`, the sixth power of `sigma / r`. */
  function R6(s2: real, r2: real): real
    requires r2 > 0.0
  {
    Cube(Div(s2, r2))
  }

  /** Every sub-potential of a combination has a positive unit scale. */
  predicate WellScaled(p: Pot)
  {
    match p.form
    case Combined(s1, s2) => s1.tokT > 0.0 && s2.tokT > 0.0 && WellScaled(s1) && WellScaled(s2)
    case _ => true
  }

  /**
   * The form divides by the distance or its square, so that it is undefined
   * for coincident particles: Lennard-Jones, both R12 forms and Coulomb, or
   * a combination with such a part. The other forms are defined at `r2 = 0`.
   */
  predicate DividesByDistance(p: Pot)
  {
    match p.form
    case LennardJones(_) => true
    case LennardJonesR12(_) => true
    case R12Repulsion(_) => true
    case Coulomb => true
    case Combined(s1, s2) => DividesByDistance(s1) || DividesByDistance(s2)
    case _ => false
  }

  /** The combined potential contains a hard-sphere term. */
  predicate HasHardSphere(p: Pot)
  {
    match p.form
    case HardSphere => true
    case Combined(s1, s2) => HasHardSphere(s1) || HasHardSphere(s2)
    case _ => false
  }

  // ------------------------------------------------------ functional forms

  /** `k d d` at displacement `d` from the equilibrium distance: a well with its minimum at `d = 0`. */
  function HarmonicEnergy(k: real, d: real): (e: real)
    ensures k >= 0.0 ==> e >= 0.0
    ensures d == 0.0 ==> e == 0.0
    ensures k > 0.0 && d != 0.0 ==> e > 0.0
  {
    Mul(Mul(k, d), d)
  }

  /** Infinite strictly inside the contact distance, zero from contact on. */
  function HardSphereEnergy(mindist: real, r2: real): (e: Energy)
    ensures e.Inf? <==> r2 < Sq(mindist)
    ensures e.Fin? ==> e.v == 0.0
  {
    if r2 < Sq(mindist) then Inf else Fin(0.0)
  }

  /** `eps (x^2 - x)` with `x = (s2/r2)^3`: repulsive inside contact, zero at contact, attractive beyond. */
  function LennardJonesEnergy(eps: real, s2: real, r2: real): (e: real)
    requires r2 > 0.0
    ensures eps > 0.0 && s2 > 0.0 ==>
      && (r2 < s2 ==> e > 0.0)
      && (r2 == s2 ==> e == 0.0)
      && (r2 > s2 ==> e < 0.0)
  {
    var x := R6(s2, r2);
    if s2 > 0.0 then LennardJonesBracket(s2, r2); Mul(eps, Sq(x) - x)
    else Mul(eps, Sq(x) - x)
  }

  /** `eps x x`, the repulsive part of Lennard-Jones; non-negative for `eps >= 0`. */
  function LennardJonesR12Energy(eps: real, s2: real, r2: real): (e: real)
    requires r2 > 0.0
    ensures eps >= 0.0 ==> e >= 0.0
  {
    var x := R6(s2, r2);
    Mul(Mul(eps, x), x)
  }

  /** `eps (x x)`, the stand-alone R12 repulsion; non-negative for `eps >= 0`. */
  function R12RepulsionEnergy(eps: real, s2: real, r2: real): (e: real)
    requires r2 > 0.0
    ensures eps >= 0.0 ==> e >= 0.0
  {
    var x := R6(s2, r2);
    Mul(eps, Sq(x))
  }

  /** `-depth` strictly inside the well edge `d`, zero from the edge on. */
  function SquareWellEnergy(d: real, depth: real, r2: real): (e: real)
    ensures r2 < Sq(d) ==> e == -depth
    ensures r2 >= Sq(d) ==> e == 0.0
  {
    if r2 < Sq(d) then -depth else 0.0
  }

  /**
   * `sigma6 / (r - d)^6` beyond contact `d`, infinite at and inside it;
   * `r` is the centre distance, the square root of `r2`.
   */
  function SoftRepulsionEnergy(sigma6: real, d: real, r2: real, r: real): (e: Energy)
    requires r >= 0.0 && Sq(r) == r2
    ensures e.Inf? <==> r2 <= Sq(d)
    ensures e.Fin? && sigma6 > 0.0 ==> e.v > 0.0
  {
    if r2 <= Sq(d) then Inf
    else
      BeyondContact(r, r2, d);
      var t2 := Sq(r - d);
      Fin(Div(sigma6, Cube(t2)))
  }

  /** `qa qb / r`: zero for a neutral particle, repulsive for like and attractive for unlike charges. */
  function CoulombEnergy(qa: real, qb: real, r: real): (e: real)
    requires r > 0.0
    ensures qa == 0.0 || qb == 0.0 ==> e == 0.0
    ensures (qa > 0.0 && qb > 0.0) || (qa < 0.0 && qb < 0.0) ==> e > 0.0
    ensures (qa > 0.0 && qb < 0.0) || (qa < 0.0 && qb > 0.0) ==> e < 0.0
  {
    Div(Mul(qa, qb), r)
  }

  /** The value of `operator()(a, b, r2)` of potential `p`. */
  function PairEnergy(p: Pot, a: Particle, b: Particle, r2: real, sqrt: real -> real): Energy
    requires (r2 > 0.0 || !DividesByDistance(p)) && SqrtAt(sqrt, r2) && WellScaled(p)
  {
    match p.form
    case Harmonic(k, req) => Fin(HarmonicEnergy(k, sqrt(r2) - req))
    case HardSphere => HardSphereEnergy(Contact(a, b), r2)
    case LennardJones(eps) => Fin(LennardJonesEnergy(eps, Sq(Contact(a, b)), r2))
    case LennardJonesR12(eps) => Fin(LennardJonesR12Energy(eps, Sq(Contact(a, b)), r2))
    case SquareWell(threshold, depth) =>
      Fin(SquareWellEnergy(Contact(a, b) + threshold, depth, r2))
    case SquareWellHydrophobic(threshold, depth) =>
      if a.hydrophobic && b.hydrophobic then Fin(SquareWellEnergy(Contact(a, b) + threshold, depth, r2))
      else Fin(0.0)
    case SoftRepulsion(sigma6) => SoftRepulsionEnergy(sigma6, Contact(a, b), r2, sqrt(r2))
    case R12Repulsion(eps) => Fin(R12RepulsionEnergy(eps, Sq(Contact(a, b)), r2))
    case Coulomb =>
      SqrtPositive(sqrt(r2), r2);
      Fin(CoulombEnergy(a.charge, b.charge, sqrt(r2)))
    case Combined(s1, s2) =>
      Weighted(PairEnergy(s1, a, b, r2, sqrt), s1.tokT, PairEnergy(s2, a, b, r2, sqrt), s2.tokT)
  }

  /** `t1 e1 + t2 e2` for positive scales, infinite when either part is. */
  function Weighted(e1: Energy, t1: real, e2: Energy, t2: real): (e: Energy)
    requires t1 > 0.0 && t2 > 0.0
    ensures e.Inf? <==> e1.Inf? || e2.Inf?
    ensures e.Fin? ==> e.v == Mul(t1, e1.v) + Mul(t2, e2.v)
  {
    e1.Times(t1).Plus(e2.Times(t2))
  }

  /** The combination of two potentials, as built by its constructor. */
  function Combine(p1: Pot, p2: Pot): (r: Pot)
    ensures r.name == p1.name + "+" + p2.name
    ensures r.tokT == 1.0
    ensures r.form.Combined? && r.form.sr1 == p1 && r.form.sr2 == p2
  {
    Pot(p1.name + "+" + p2.name, 1.0, Combined(p1, p2))
  }

  /** `_setScale` of a combination leaves it unchanged. */
  function CombinedSetScale(p: Pot, s: real): (r: Pot)
    requires p.form.Combined?
    ensures r == p
  {
    p
  }

  // ---------------------------------------------------------------- helpers

  lemma SqrtPositive(r: real, r2: real)
    requires r >= 0.0 && Sq(r) == r2 && r2 > 0.0
    ensures r > 0.0
  {
  }

  /** For a non-negative root `r` of `r2` and `d >= 0`, comparing `r2` with `d^2` compares `r` with `d`. */
  lemma SqrtCompare(r: real, r2: real, d: real)
    requires r >= 0.0 && Sq(r) == r2 && d >= 0.0
    ensures r2 < Sq(d) <==> r < d
    ensures r2 == Sq(d) <==> r == d
  {
    if r < d {
      SquareMonotone(r, d);
    } else if r > d {
      SquareMonotone(d, r);
    }
  }

  lemma BeyondContact(r: real, r2: real, d: real)
    requires r >= 0.0 && Sq(r) == r2 && r2 > Sq(d)
    ensures r - d > 0.0
  {
    if d >= 0.0 {
      SqrtCompare(r, r2, d);
    }
  }

  /** For positive `s2` and `r2`, `x^2 - x` with `x = (s2/r2)^3` has the sign of `s2 - r2`. */
  lemma LennardJonesBracket(s2: real, r2: real)
    requires r2 > 0.0 && s2 > 0.0
    ensures var x := R6(s2, r2);
      && (r2 < s2 ==> Sq(x) - x > 0.0)
      && (r2 == s2 ==> Sq(x) - x == 0.0)
      && (r2 > s2 ==> Sq(x) - x < 0.0)
  {
    SquareMinusSelf(R6(s2, r2));
  }

  /** A combination of two defined parts is defined, and its energy is their weighted sum. */
  lemma CombineUnfolds(sqrt: real -> real, p1: Pot, p2: Pot, a: Particle, b: Particle, r2: real)
    requires (r2 > 0.0 || !(DividesByDistance(p1) || DividesByDistance(p2))) && SqrtAt(sqrt, r2)
    requires p1.tokT > 0.0 && p2.tokT > 0.0 && WellScaled(p1) && WellScaled(p2)
    ensures WellScaled(Combine(p1, p2)) && Combine(p1, p2).tokT > 0.0
    ensures DividesByDistance(Combine(p1, p2)) == (DividesByDistance(p1) || DividesByDistance(p2))
    ensures PairEnergy(Combine(p1, p2), a, b, r2, sqrt)
         == Weighted(PairEnergy(p1, a, b, r2, sqrt), p1.tokT, PairEnergy(p2, a, b, r2, sqrt), p2.tokT)
  {
  }

  // ------------------------------------------------------------- properties

  /** Hard sphere: infinite exactly when the centre distance is below contact; contact itself costs nothing. */
  lemma HardSphereOverlap(sqrt: real -> real, name: string, s: real, a: Particle, b: Particle, r2: real)
    requires SqrtAt(sqrt, r2) && Contact(a, b) >= 0.0
    ensures var e := PairEnergy(Pot(name, s, HardSphere), a, b, r2, sqrt);
      && (e == Inf <==> sqrt(r2) < Contact(a, b))
      && (e != Inf ==> e == Fin(0.0))
      && (sqrt(r2) == Contact(a, b) ==> e == Fin(0.0))
  {
    SqrtCompare(sqrt(r2), r2, Contact(a, b));
  }

  /** Soft repulsion between two particles: infinite exactly up to contact, positive beyond it when `sigma6 > 0`. */
  lemma SoftRepulsionSign(sqrt: real -> real, name: string, s: real, sigma6: real, a: Particle, b: Particle, r2: real)
    requires SqrtAt(sqrt, r2) && Contact(a, b) >= 0.0
    ensures var e := PairEnergy(Pot(name, s, SoftRepulsion(sigma6)), a, b, r2, sqrt);
      && (e == Inf <==> sqrt(r2) <= Contact(a, b))
      && (e != Inf && sigma6 > 0.0 ==> e.v > 0.0)
  {
    SqrtCompare(sqrt(r2), r2, Contact(a, b));
  }

  /** Square well: `-depth` exactly when the surfaces are closer than `threshold`, 0 otherwise. */
  lemma SquareWellRange(sqrt: real -> real, name: string, s: real, threshold: real, depth: real, a: Particle, b: Particle, r2: real)
    requires SqrtAt(sqrt, r2) && Contact(a, b) + threshold >= 0.0
    ensures var e := PairEnergy(Pot(name, s, SquareWell(threshold, depth)), a, b, r2, sqrt);
      && (sqrt(r2) < Contact(a, b) + threshold ==> e == Fin(-depth))
      && (sqrt(r2) >= Contact(a, b) + threshold ==> e == Fin(0.0))
  {
    SqrtCompare(sqrt(r2), r2, Contact(a, b) + threshold);
  }

  /** The hydrophobic square well acts only between two hydrophobic particles, and then as the plain well. */
  lemma SquareWellHydrophobicIsGated(sqrt: real -> real, name: string, s: real, threshold: real, depth: real, a: Particle, b: Particle, r2: real)
    requires SqrtAt(sqrt, r2)
    ensures PairEnergy(Pot(name, s, SquareWellHydrophobic(threshold, depth)), a, b, r2, sqrt)
         == if a.hydrophobic && b.hydrophobic then PairEnergy(Pot(name, s, SquareWell(threshold, depth)), a, b, r2, sqrt)
            else Fin(0.0)
  {
  }

  /** Lennard-Jones between two particles of non-zero contact distance: repulsive inside contact, zero at it, attractive beyond. */
  lemma LennardJonesShape(sqrt: real -> real, name: string, s: real, eps: real, a: Particle, b: Particle, r2: real)
    requires r2 > 0.0 && SqrtAt(sqrt, r2) && eps > 0.0 && Contact(a, b) > 0.0
    ensures var e := PairEnergy(Pot(name, s, LennardJones(eps)), a, b, r2, sqrt);
      && (sqrt(r2) < Contact(a, b) ==> e.v > 0.0)
      && (sqrt(r2) == Contact(a, b) ==> e.v == 0.0)
      && (sqrt(r2) > Contact(a, b) ==> e.v < 0.0)
  {
    SqrtCompare(sqrt(r2), r2, Contact(a, b));
  }

  /** The two R12 repulsions agree, and Lennard-Jones minus its R12 part is the attractive `-eps x`. */
  lemma LennardJonesSplit(eps: real, s2: real, r2: real)
    requires r2 > 0.0
    ensures LennardJonesR12Energy(eps, s2, r2) == R12RepulsionEnergy(eps, s2, r2)
    ensures LennardJonesEnergy(eps, s2, r2) - LennardJonesR12Energy(eps, s2, r2) == -Mul(eps, R6(s2, r2))
  {
    var x := R6(s2, r2);
    MulAssoc(eps, x, x);
    MulSub(eps, Sq(x), x);
  }

  /** Harmonic bond: non-negative for `k >= 0`, zero at the equilibrium distance, positive off it for `k > 0`. */
  lemma HarmonicMinimum(sqrt: real -> real, name: string, s: real, k: real, req: real, a: Particle, b: Particle, r2: real)
    requires SqrtAt(sqrt, r2)
    ensures var e := PairEnergy(Pot(name, s, Harmonic(k, req)), a, b, r2, sqrt);
      && (k >= 0.0 ==> e.v >= 0.0)
      && (sqrt(r2) == req ==> e.v == 0.0)
      && (k > 0.0 && sqrt(r2) != req ==> e.v > 0.0)
  {
  }

  /** Coulomb is symmetric in its two particles. */
  lemma CoulombSymmetric(sqrt: real -> real, name: string, s: real, a: Particle, b: Particle, r2: real)
    requires r2 > 0.0 && SqrtAt(sqrt, r2)
    ensures PairEnergy(Pot(name, s, Coulomb), a, b, r2, sqrt) == PairEnergy(Pot(name, s, Coulomb), b, a, r2, sqrt)
  {
    MulComm(a.charge, b.charge);
  }

  /** A combination returns exactly the `tokT`-weighted sum of its two parts, infinity absorbing. */
  lemma CombinedIsScaledSum(sqrt: real -> real, p1: Pot, p2: Pot, a: Particle, b: Particle, r2: real)
    requires (r2 > 0.0 || !(DividesByDistance(p1) || DividesByDistance(p2))) && SqrtAt(sqrt, r2)
    requires p1.tokT > 0.0 && p2.tokT > 0.0 && WellScaled(p1) && WellScaled(p2)
    ensures var e := PairEnergy(Combine(p1, p2), a, b, r2, sqrt);
      var e1 := PairEnergy(p1, a, b, r2, sqrt);
      var e2 := PairEnergy(p2, a, b, r2, sqrt);
      && (e == Inf <==> e1 == Inf || e2 == Inf)
      && (e != Inf ==> e.v == Mul(p1.tokT, e1.v) + Mul(p2.tokT, e2.v))
  {
  }

  /** Left and right nesting of three potentials give the same energy and the same name. */
  lemma CombineAssociative(sqrt: real -> real, p1: Pot, p2: Pot, p3: Pot, a: Particle, b: Particle, r2: real)
    requires (r2 > 0.0 || !(DividesByDistance(p1) || DividesByDistance(p2) || DividesByDistance(p3))) && SqrtAt(sqrt, r2)
    requires p1.tokT > 0.0 && p2.tokT > 0.0 && p3.tokT > 0.0
    requires WellScaled(p1) && WellScaled(p2) && WellScaled(p3)
    ensures Combine(Combine(p1, p2), p3).name == Combine(p1, Combine(p2, p3)).name
    ensures PairEnergy(Combine(Combine(p1, p2), p3), a, b, r2, sqrt)
         == PairEnergy(Combine(p1, Combine(p2, p3)), a, b, r2, sqrt)
  {
    assert p1.name + "+" + p2.name + "+" + p3.name == p1.name + "+" + (p2.name + "+" + p3.name);
    var e1 := PairEnergy(p1, a, b, r2, sqrt);
    var e2 := PairEnergy(p2, a, b, r2, sqrt);
    var e3 := PairEnergy(p3, a, b, r2, sqrt);
    CombineUnfolds(sqrt, p1, p2, a, b, r2);
    CombineUnfolds(sqrt, p2, p3, a, b, r2);
    var left := Weighted(e1, p1.tokT, e2, p2.tokT);
    var right := Weighted(e2, p2.tokT, e3, p3.tokT);
    CombineUnfolds(sqrt, Combine(p1, p2), p3, a, b, r2);
    CombineUnfolds(sqrt, p1, Combine(p2, p3), a, b, r2);
    if left.Fin? {
      MulOne(left.v);
    }
    if right.Fin? {
      MulOne(right.v);
    }
  }

  /** An overlapping hard-sphere term anywhere in a combination makes the whole energy infinite. */
  lemma {:induction false} HardCoreDominates(sqrt: real -> real, p: Pot, a: Particle, b: Particle, r2: real)
    requires (r2 > 0.0 || !DividesByDistance(p)) && SqrtAt(sqrt, r2) && WellScaled(p)
    requires HasHardSphere(p) && r2 < Sq(Contact(a, b))
    ensures PairEnergy(p, a, b, r2, sqrt) == Inf
  {
    match p.form
    case HardSphere =>
    case Combined(s1, s2) =>
      if HasHardSphere(s1) {
        HardCoreDominates(sqrt, s1, a, b, r2);
      } else {
        HardCoreDominates(sqrt, s2, a, b, r2);
      }
  }
}
