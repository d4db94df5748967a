/**
 * Physical constants, the temperature setting and the unit conversions
 * that depend on it: kT per molecule to kJ per mole and back, Debye to
 * electron-Angstrom, and the Bjerrum length.
 *
 * Arithmetic is on exact reals; the constants are the decimal values the
 * program assigns (pi is the double nearest to it, written to the digits
 * that double prints with).
 */
module PhysConst {
  import opened RealArith

  const Pi: real := 3.141592653589793
  /** Permittivity of vacuum [C^2/(J m)]. */
  const E0: real := 8.85419e-12
  /** Elementary charge [C]. */
  const Ech: real := 1.602177e-19
  /** Boltzmann's constant [J/K]. */
  const KB: real := 1.380658e-23
  /** Avogadro's number [1/mol]. */
  const Nav: real := 6.022137e23
  /** Molar gas constant [J/(K mol)]: `kB * Nav`. */
  const R: real := KB * Nav
  /** The temperature before any is set [K]. */
  const DefaultT: real := 298.15

  /** `u * kB * T * Nav * 1e-3`: the energy `u` in kT per molecule, in kJ/mol at temperature `t`. */
  function KTtoKJ(u: real, t: real): real
  {
    Mul(Mul(Mul(u, KB), t), Nav) * 0.001
  }

  /** `e^2 / (4 pi e0 e_r 1e-10 kB T)`: the Bjerrum length in Angstrom at relative permittivity `er` and temperature `t`. */
  function Bjerrum(er: real, t: real): real
    requires er != 0.0 && t != 0.0
  {
    NonzeroProduct(er, t);
    Div(Mul(Ech, Ech), Mul(Mul(BjerrumScale(), er), t))
  }

  /** The constant factor `4 pi e0 1e-10 kB` of the Bjerrum length's denominator. */
  function BjerrumScale(): (c: real)
    ensures c > 0.0
  {
    Mul(Mul(4.0 * Pi, E0) * 1.0e-10, KB)
  }

  /** D2eA: Debye to electron-Angstrom; one Debye when no dipole is given. */
  function D2eA(d: real := 1.0): (r: real)
    ensures (r > 0.0 <==> d > 0.0) && (r < 0.0 <==> d < 0.0)
    ensures r / 0.20819434 == d
  {
    0.20819434 * d
  }

  /**
   * The temperature. In the program it is a static member shared by every
   * user of the constants and starts at `DefaultT`; here it is the field of
   * the one object that every user is given.
   */
  class PhysicalConstants {
    var temp: real

    /** PhysicalConstants(): the default temperature. */
    constructor Default()
      ensures T() == DefaultT
    {
      temp := DefaultT;
    }

    /** PhysicalConstants(temp): sets the temperature. */
    constructor (t: real)
      ensures T() == t
    {
      temp := t;
    }

    /** setT */
    method SetT(t: real)
      modifies this
      ensures T() == t
    {
      temp := t;
    }

    /** T(): the temperature last set. */
    function T(): real
      reads this
    {
      temp
    }

    /**
     * kT2kJ(u): kT per molecule to kJ/mol at the current temperature; one kT
     * when no energy is given. It is `u` times the molar value of one kT,
     * `R T / 1000`.
     */
    function KT2kJ(u: real := 1.0): (r: real)
      reads this
      ensures r == Mul(u, KTtoKJ(1.0, temp))
      ensures r == Mul(Mul(u, R), temp) * 0.001
    {
      KTtoKJScales(u, temp);
      KTtoKJMolar(u, temp);
      KTtoKJ(u, temp)
    }

    /**
     * kJ2kT(u): kJ/mol to kT per molecule, by division by `kT2kJ(1)`; one
     * kJ/mol when no energy is given. Converting the result back gives `u`.
     */
    function KJ2kT(u: real := 1.0): (r: real)
      reads this
      requires temp != 0.0
      ensures r == Div(u, KTtoKJ(1.0, temp))
      ensures KTtoKJ(r, temp) == u
    {
      KTtoKJUnit(temp);
      KTtoKJScales(Div(u, KTtoKJ(1.0, temp)), temp);
      DivMulCancel(u, KTtoKJ(1.0, temp));
      Div(u, KT2kJ())
    }

    /**
     * lB(e_r): the Bjerrum length at the current temperature, the length
     * at which two unit charges interact with one kT: its product with
     * `4 pi e0 e_r 1e-10 kB T` is `e^2`.
     */
    function LB(er: real): (r: real)
      reads this
      requires er != 0.0 && temp != 0.0
      ensures Mul(r, Mul(Mul(BjerrumScale(), er), temp)) == Mul(Ech, Ech)
      ensures er > 0.0 && temp > 0.0 ==> r > 0.0
    {
      NonzeroProduct(er, temp);
      DivMulCancel(Mul(Ech, Ech), Mul(Mul(BjerrumScale(), er), temp));
      Bjerrum(er, temp)
    }
  }

  // ---------------------------------------------------------------- lemmas

  /** A product of two non-zero factors, one of them the positive scale, is non-zero. */
  lemma NonzeroProduct(er: real, t: real)
    requires er != 0.0 && t != 0.0
    ensures Mul(Mul(BjerrumScale(), er), t) != 0.0
  {
  }

  /** `kT2kJ(1)` is non-zero at a non-zero temperature, and positive at a positive one. */
  lemma KTtoKJUnit(t: real)
    ensures t != 0.0 ==> KTtoKJ(1.0, t) != 0.0
    ensures t > 0.0 ==> KTtoKJ(1.0, t) > 0.0
  {
    MulOne(KB);
  }

  /** The conversion is the scaling of `u` by `kT2kJ(1)`. */
  lemma KTtoKJScales(u: real, t: real)
    ensures KTtoKJ(u, t) == Mul(u, KTtoKJ(1.0, t))
  {
    MulOne(KB);
    MulAssoc(u, KB, t);
    MulAssoc(u, Mul(KB, t), Nav);
    assert Mul(u, Mul(Mul(KB, t), Nav)) * 0.001 == Mul(u, Mul(Mul(KB, t), Nav) * 0.001) by {
      MulScale(u, Mul(Mul(KB, t), Nav), 0.001);
    }
  }

  /** The conversion is linear in the energy. */
  lemma KTtoKJLinear(a: real, b: real, c: real, t: real)
    ensures KTtoKJ(a + b, t) == KTtoKJ(a, t) + KTtoKJ(b, t)
    ensures KTtoKJ(Mul(c, a), t) == Mul(c, KTtoKJ(a, t))
  {
    KTtoKJScales(a + b, t);
    KTtoKJScales(a, t);
    KTtoKJScales(b, t);
    KTtoKJScales(Mul(c, a), t);
    MulAdd(a, b, KTtoKJ(1.0, t));
    MulAssoc(c, a, KTtoKJ(1.0, t));
  }

  /** In terms of the gas constant: `kT2kJ(u) = u R T / 1000`. */
  lemma KTtoKJMolar(u: real, t: real)
    ensures KTtoKJ(u, t) == Mul(Mul(u, R), t) * 0.001
  {
    MulAssoc(u, KB, t);
    MulAssoc(u, KB, Nav);
    MulComm(KB, t);
    MulAssoc(u, t, KB);
    MulAssoc(Mul(u, t), KB, Nav);
    MulAssoc(u, t, Mul(KB, Nav));
    MulAssoc(u, Mul(KB, Nav), t);
    MulComm(t, Mul(KB, Nav));
    assert Mul(KB, Nav) == R;
  }

  /** kJ2kT undoes kT2kJ at any non-zero temperature. */
  lemma KJ2kTRoundTrip(pc: PhysicalConstants, u: real)
    requires pc.temp != 0.0
    ensures pc.KJ2kT(pc.KT2kJ(u)) == u
    ensures pc.KT2kJ(pc.KJ2kT(u)) == u
  {
    var c := KTtoKJ(1.0, pc.temp);
    KTtoKJUnit(pc.temp);
    KTtoKJScales(u, pc.temp);
    MulDivCancel(u, c);
    KTtoKJScales(Div(u, c), pc.temp);
    DivMulCancel(u, c);
  }

  /** The conversion from Debye is linear. */
  lemma D2eALinear(a: real, b: real)
    ensures D2eA(a + b) == D2eA(a) + D2eA(b)
    ensures D2eA(1.0) == 0.20819434 && D2eA(-a) == -D2eA(a)
  {
  }

  /** The Bjerrum length is positive at positive temperature and permittivity. */
  lemma BjerrumPositive(er: real, t: real)
    requires er > 0.0 && t > 0.0
    ensures Bjerrum(er, t) > 0.0
  {
  }

  /** Doubling the temperature halves the Bjerrum length. */
  lemma BjerrumHalves(er: real, t: real)
    requires er != 0.0 && t != 0.0
    ensures Bjerrum(er, 2.0 * t) == Bjerrum(er, t) / 2.0
  {
    var x := Mul(BjerrumScale(), er);
    NonzeroProduct(er, t);
    MulDouble(x, t);
    DivDouble(Mul(Ech, Ech), Mul(x, t));
  }
}
