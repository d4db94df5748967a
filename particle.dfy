/**
 * Shared value types of the simulation: positions, particles, the energy
 * type with its infinity sentinel, and the elementary real functions that
 * the model leaves uninterpreted (they are passed in as parameters and only
 * their basic properties are assumed, through the requires of their users).
 */
module Particles {
  import opened RealArith

  /** A positive integer: a molecule size, a bin width. */
  type PosInt = n: int | n > 0 witness 1

  /** A position in space; the model never does geometry with it. */
  datatype Point = Point(x: real, y: real, z: real)

  /** A particle: position, charge, radius, species id and hydrophobicity. */
  datatype Particle = Particle(pos: Point, charge: real, radius: real, id: int, hydrophobic: bool)

  /**
   * An energy value: finite, or the hard-core infinity sentinel. Infinity
   * absorbs every finite addend, and a positive scale keeps it infinite.
   */
  datatype Energy = Inf | Fin(v: real)
  {
    function Plus(other: Energy): (r: Energy)
      ensures r.Inf? <==> (Inf? || other.Inf?)
      ensures r.Fin? ==> r.v == v + other.v
    {
      if Inf? || other.Inf? then Inf else Fin(v + other.v)
    }

    /** Multiplication by a positive scale factor. */
    function Times(s: real): (r: Energy)
      requires s > 0.0
      ensures r.Inf? <==> Inf?
      ensures r.Fin? ==> r.v == Mul(s, v)
    {
      if Inf? then Inf else Fin(Mul(s, v))
    }
  }

  /** Result code of a move's last attempt: none yet, accepted, or rejected on energy. */
  datatype Code = Unset | Ok | EnergyRejected

  /** The floating-point library functions, left uninterpreted. */
  datatype RealFns = RealFns(exp: real -> real, log: real -> real, cbrt: real -> real, sqrt: real -> real)

  // Applications of the library functions, named so that they do not depend on the heap.
  function Exp(f: RealFns, x: real): real { f.exp(x) }
  function Log(f: RealFns, x: real): real { f.log(x) }
  function Cbrt(f: RealFns, x: real): real { f.cbrt(x) }

  /** `exp` is positive and `pow(x, 1/3)` is positive on positive arguments. */
  ghost predicate VolumeAxioms(f: RealFns)
  {
    && (forall x :: Exp(f, x) > 0.0)
    && (forall x :: x > 0.0 ==> Cbrt(f, x) > 0.0)
  }
}
