/**
 * The isobaric (NPT) volume move and its optional penalty (bias) histogram.
 *
 * A move draws a new volume by a random step in ln V, rejects it outright
 * when the cubic box length leaves the window `(minlen, maxlen)`, and
 * otherwise scales every macromolecule into the trial configuration, sums
 * the pair energies of all unordered pairs of macromolecules in the old and
 * the trial configuration, and applies the Metropolis test to
 *   dh = du + P*dV - (N+1)*ln(newV/V) + penaltyEnergy.
 *
 * The container holds one value per macromolecule for the accepted and the
 * trial configuration. Scaling a macromolecule, the pair energy of two of
 * them, the Metropolis test, the random numbers and exp/log/cube root are
 * parameters of the move.
 */
module Isobaric {
  import opened RealArith
  import opened Particles

  /** A macromolecule: its mass centre and its particles. */
  datatype Molecule = Molecule(cm: Point, atoms: seq<Particle>)

  /** The simulation container: its volume and the accepted and trial macromolecules. */
  class Container {
    var volume: real
    var p: seq<Molecule>
    var trial: seq<Molecule>

    constructor (v: real, conf: seq<Molecule>)
      requires v > 0.0
      ensures volume == v && p == conf && trial == conf
    {
      volume := v;
      p := conf;
      trial := conf;
    }
  }

  // ------------------------------------------------ integer helpers (C++ semantics)

  /** `int(x)`: conversion of a double to int, truncating toward zero. */
  function Trunc(x: real): (t: int)
    ensures x >= 0.0 ==> 0 <= t && t as real <= x < t as real + 1.0
    ensures x < 0.0 ==> t <= 0 && t as real - 1.0 < x <= t as real
  {
    if x >= 0.0 then x.Floor else -((-x).Floor)
  }

  /** Integer product, kept behind a name so that only the lemmas below reason about it. */
  function IMul(a: int, b: int): int
  {
    a * b
  }

  /** C++ integer division by a positive divisor: the quotient is truncated toward zero. */
  function CDiv(a: int, b: PosInt): (q: int)
    ensures a >= 0 ==> q >= 0 && IMul(q, b) <= a < IMul(q, b) + b
    ensures a < 0 ==> q <= 0 && IMul(q, b) - b < a <= IMul(q, b)
  {
    if a >= 0 then
      EuclidBounds(a, b);
      a / b
    else
      EuclidBounds(-a, b);
      -((-a) / b)
  }

  lemma EuclidBounds(a: nat, b: PosInt)
    ensures a / b >= 0 && IMul(a / b, b) <= a < IMul(a / b, b) + b
  {
    var q, m := a / b, a % b;
    assert a == q * b + m && 0 <= m < b;
  }

  /** Number of penalty bins for box lengths spanning `span`: the ceiling of `span / scale`. */
  function NumBins(span: nat, scale: PosInt): (n: nat)
    ensures IMul(n - 1, scale) < span <= IMul(n, scale)
  {
    span / scale + (if span % scale != 0 then 1 else 0)
  }

  /** The penalty bin of box length `l`: `int(l - minlen) / scale`. */
  function PenBin(l: real, minlen: int, scale: PosInt): int
  {
    CDiv(Trunc(l - minlen as real), scale)
  }

  /** Penalty difference between the bins of the lengths `newL` and `curL`. */
  function PenDiffOf(tab: seq<real>, newL: real, curL: real, minlen: int, scale: PosInt): (d: real)
    requires 0 <= PenBin(newL, minlen, scale) < |tab| && 0 <= PenBin(curL, minlen, scale) < |tab|
    ensures PenBin(newL, minlen, scale) == PenBin(curL, minlen, scale) ==> d == 0.0
  {
    tab[PenBin(newL, minlen, scale)] - tab[PenBin(curL, minlen, scale)]
  }

  /**
   * The penalty term of `dh` for a proposed length `newL` inside the window:
   * the penalty difference when the bias is on, 0 when it is off.
   */
  function BiasTerm(tab: seq<real>, on: bool, newL: real, curL: real, minlen: int, maxlen: int, scale: PosInt): (b: real)
    requires on ==> minlen <= maxlen && |tab| == NumBins(maxlen - minlen, scale)
    requires on ==> 0 <= PenBin(curL, minlen, scale) < |tab|
    ensures !on ==> b == 0.0
    ensures on && minlen as real < newL < maxlen as real ==>
              && 0 <= PenBin(newL, minlen, scale) < |tab|
              && b == tab[PenBin(newL, minlen, scale)] - tab[PenBin(curL, minlen, scale)]
  {
    if on && minlen as real < newL < maxlen as real then
      BinInWindow(newL, minlen, maxlen, scale);
      PenDiffOf(tab, newL, curL, minlen, scale)
    else 0.0
  }

  /** The outcome of the acceptance test `test` on the Hamiltonian difference `dh`. */
  function Passes(test: real -> bool, dh: real): bool
  {
    test(dh)
  }

  /** The NPT Hamiltonian difference before the penalty term: `du + P*dV - (N+1)*ln(newV/V)`. */
  function NptEnergy(du: real, pressure: real, dV: real, n: nat, logRatio: real): real
  {
    du + Mul(pressure, dV) - Mul((n + 1) as real, logRatio)
  }

  // ------------------------------------------------ sequences of reals and molecules

  function Total(s: seq<real>): real
  {
    if |s| == 0 then 0.0 else Total(s[..|s| - 1]) + s[|s| - 1]
  }

  /** Element-wise sum of two tables of equal length. */
  function AddSeq(a: seq<real>, b: seq<real>): (r: seq<real>)
    requires |a| == |b|
    ensures |r| == |a| && forall i :: 0 <= i < |r| ==> r[i] == a[i] + b[i]
  {
    seq(|a|, i requires 0 <= i < |a| => a[i] + b[i])
  }

  function Zeros(n: nat): (r: seq<real>)
    ensures |r| == n && forall i :: 0 <= i < n ==> r[i] == 0.0
  {
    seq(n, i => 0.0)
  }

  function Filled(n: nat, x: real): (r: seq<real>)
    ensures |r| == n && forall i :: 0 <= i < n ==> r[i] == x
  {
    seq(n, i => x)
  }

  /** Every macromolecule scaled from the container at volume `v` to box length `l`. */
  function ScaledAll(c: seq<Molecule>, scale: (Molecule, real, real) -> Molecule, v: real, l: real): (r: seq<Molecule>)
    ensures |r| == |c| && forall i :: 0 <= i < |c| ==> r[i] == scale(c[i], v, l)
  {
    seq(|c|, i requires 0 <= i < |c| => scale(c[i], v, l))
  }

  /** Energy between macromolecule `j` and macromolecules `j+1 .. k-1`. */
  function RowSum(v: real, c: seq<Molecule>, e: (real, Molecule, Molecule) -> real, j: nat, k: int): real
    requires j < |c| && k <= |c|
    decreases k
  {
    if k <= j + 1 then 0.0 else RowSum(v, c, e, j, k - 1) + e(v, c[j], c[k - 1])
  }

  /** Energy of all pairs `(j, k)` with `j < rows` and `j < k < |c|`, for a potential at volume `v`. */
  function PairTotal(v: real, c: seq<Molecule>, e: (real, Molecule, Molecule) -> real, rows: nat): real
    requires rows <= |c|
  {
    if rows == 0 then 0.0 else PairTotal(v, c, e, rows - 1) + RowSum(v, c, e, rows - 1, |c|)
  }

  /** Sum of all unordered pairs of macromolecules. */
  function AllPairs(v: real, c: seq<Molecule>, e: (real, Molecule, Molecule) -> real): real
  {
    PairTotal(v, c, e, |c|)
  }

  /** The state that a move inside the window reads and writes, as one value. */
  datatype Snapshot = Snapshot(volume: real, p: seq<Molecule>, trial: seq<Molecule>, potVolume: real,
                               naccept: nat, utot: real, dpsqr: real, rc: Code, dh: real)

  /**
   * The outcome of an attempt, from state `s` to state `t` with result `r`,
   * whose new volume `newV` has its box length inside the window: every
   * macromolecule is scaled to the new length, `dh` is the NPT Hamiltonian
   * difference of the pair-energy difference plus `bias`, and the Metropolis
   * test on `dh` either accepts the volume and the scaled configuration
   * (counting the acceptance and adding the energy change to the running
   * total) or resets the trial configuration to the accepted one and
   * changes nothing else.
   */
  ghost predicate WindowOutcome(s: Snapshot, t: Snapshot, r: real, newV: real, dV: real, pressure: real, bias: real,
                                f: RealFns, scaleFn: (Molecule, real, real) -> Molecule,
                                e: (real, Molecule, Molecule) -> real, metropolis: real -> bool)
  {
    && s.volume > 0.0
    && var trialConf := ScaledAll(s.trial, scaleFn, s.volume, Cbrt(f, newV));
       var delta := AllPairs(newV, trialConf, e) - AllPairs(s.potVolume, s.p, e);
       && t.dh == NptEnergy(delta, pressure, dV, |s.p|, Log(f, Div(newV, s.volume))) + bias
       && (Passes(metropolis, t.dh) ==>
             && r == delta
             && t == Snapshot(newV, trialConf, trialConf, newV, s.naccept + 1, s.utot + delta,
                              s.dpsqr + Cbrt(f, newV), Ok, t.dh))
       && (!Passes(metropolis, t.dh) ==>
             && r == 0.0
             && t == s.(trial := s.p, rc := EnergyRejected, dh := t.dh))
  }

  class IsobaricMove {
    const con: Container
    /** True for the penalty variant (the dynamic type is `isobaricPenalty`). */
    const hasPenalty: bool
    const P: real
    const minlen: int
    const maxlen: int
    const scale: PosInt
    const scalepen: real
    const initpen: real
    /** Fraction of the moves an attempt is made in; the run test draws against it. */
    const runfraction: real

    var dp: real
    var cnt: nat
    var naccept: nat
    var utot: real
    var du: real
    var dh: real
    var dV: real
    var newV: real
    var dpsqr: real
    var rc: Code
    /** Volume set in the live pair potential and in its trial copy. */
    var potVolume: real
    var trialPotVolume: real
    /** Samples of the volume, its inverse, the box length and its inverse. */
    var vol: seq<real>
    var ivol: seq<real>
    var len: seq<real>
    var ilen: seq<real>
    var penalize: bool
    var pen: real
    var penalty: array<real>
    var newpenalty: array<real>

    ghost predicate Valid()
      reads this, con
    {
      && con.volume > 0.0
      && |con.p| == |con.trial|
      && penalty != newpenalty
      && penalty.Length == newpenalty.Length
      && (hasPenalty ==> minlen <= maxlen && penalty.Length == NumBins(maxlen - minlen, scale))
    }

    /** The part of the state that a move inside the window changes. */
    ghost function Snap(): Snapshot
      reads this, con
    {
      Snapshot(con.volume, con.p, con.trial, potVolume, naccept, utot, dpsqr, rc, dh)
    }

    /** isobaric: pressure, box-length window; the live potential is at volume `v0`. */
    constructor (c: Container, pressure: real, maxsize: int, minsize: int, v0: real)
      requires c.volume > 0.0 && |c.p| == |c.trial|
      ensures Valid() && fresh(penalty) && fresh(newpenalty)
      ensures con == c && !hasPenalty && P == pressure && maxlen == maxsize && minlen == minsize
      ensures runfraction == 1.0 && dp == 100.0 && cnt == 0 && naccept == 0 && utot == 0.0 && rc == Unset
      ensures potVolume == v0 && trialPotVolume == v0
      ensures vol == [] && ivol == [] && len == [] && ilen == [] && !penalize
    {
      con := c;
      hasPenalty := false;
      P := pressure;
      minlen := minsize;
      maxlen := maxsize;
      scale := 1;
      scalepen := 0.0;
      initpen := 0.0;
      runfraction := 1.0;
      dp := 100.0;
      cnt := 0;
      naccept := 0;
      utot := 0.0;
      du := 0.0;
      dh := 0.0;
      dV := 0.0;
      newV := c.volume;
      dpsqr := 0.0;
      rc := Unset;
      potVolume := v0;
      trialPotVolume := v0;
      vol, ivol, len, ilen := [], [], [], [];
      penalize := false;
      pen := 0.0;
      penalty := new real[0];
      newpenalty := new real[0];
    }

    /**
     * isobaricPenalty: as above, with `ceil((maxlen - minlen) / scale)` penalty
     * bins, every bin of both tables at 1e-20, and the bias off.
     */
    constructor Penalty(c: Container, pressure: real, initialPen: real, scpen: real,
                        maxsize: int, minsize: int, sc: int, v0: real)
      requires c.volume > 0.0 && |c.p| == |c.trial|
      requires sc > 0 && minsize <= maxsize
      ensures Valid() && fresh(penalty) && fresh(newpenalty)
      ensures con == c && hasPenalty && P == pressure && maxlen == maxsize && minlen == minsize
      ensures scale == sc && pen == initialPen && initpen == initialPen && scalepen == scpen
      ensures penalty.Length == NumBins(maxsize - minsize, sc)
      ensures penalty[..] == Filled(penalty.Length, 1.0e-20) && newpenalty[..] == Filled(penalty.Length, 1.0e-20)
      ensures !penalize && runfraction == 1.0 && dp == 100.0 && cnt == 0 && naccept == 0 && utot == 0.0 && rc == Unset
      ensures potVolume == v0 && trialPotVolume == v0
      ensures vol == [] && ivol == [] && len == [] && ilen == []
    {
      con := c;
      hasPenalty := true;
      P := pressure;
      minlen := minsize;
      maxlen := maxsize;
      scale := sc;
      scalepen := scpen;
      initpen := initialPen;
      runfraction := 1.0;
      dp := 100.0;
      cnt := 0;
      naccept := 0;
      utot := 0.0;
      du := 0.0;
      dh := 0.0;
      dV := 0.0;
      newV := c.volume;
      dpsqr := 0.0;
      rc := Unset;
      potVolume := v0;
      trialPotVolume := v0;
      vol, ivol, len, ilen := [], [], [], [];
      var nb := NumBins(maxsize - minsize, sc);
      penalty := new real[nb](i => 1.0e-20);
      newpenalty := new real[nb](i => 1.0e-20);
      pen := initialPen;
      penalize := false;
    }

    /**
     * Switches the bias on with fresh tables, as `loadpenaltyfunction` does
     * before reading its file (and leaves them when the file cannot be used).
     */
    method StartBias()
      requires Valid() && hasPenalty
      modifies this`penalize, this`penalty, this`newpenalty
      ensures Valid() && penalize && fresh(penalty) && fresh(newpenalty)
      ensures penalty.Length == NumBins(maxlen - minlen, scale)
      ensures penalty[..] == Filled(penalty.Length, 1.0e-20) && newpenalty[..] == Filled(penalty.Length, 1.0e-20)
    {
      penalize := true;
      var nb := NumBins(maxlen - minlen, scale);
      penalty := new real[nb](i => 1.0e-20);
      newpenalty := new real[nb](i => 1.0e-20);
    }

    /** The bias can be evaluated: when it is on, the current box length has a bin. */
    ghost predicate BiasReady(f: RealFns)
      reads this, con
    {
      hasPenalty && penalize ==> 0 <= PenBin(Cbrt(f, con.volume), minlen, scale) < penalty.Length
    }

    /** isobaricPenalty::pendiff: penalty at the bin of the new length minus that of the current one. */
    function PenDiff(f: RealFns): (d: real)
      reads this, con, penalty
      requires Valid() && hasPenalty
      requires 0 <= PenBin(Cbrt(f, newV), minlen, scale) < penalty.Length
      requires 0 <= PenBin(Cbrt(f, con.volume), minlen, scale) < penalty.Length
      ensures PenBin(Cbrt(f, newV), minlen, scale) == PenBin(Cbrt(f, con.volume), minlen, scale) ==> d == 0.0
      ensures d == -PenDiffOf(penalty[..], Cbrt(f, con.volume), Cbrt(f, newV), minlen, scale)
    {
      PenDiffTelescopes(penalty[..], Cbrt(f, con.volume), Cbrt(f, newV), Cbrt(f, newV), minlen, scale);
      PenDiffOf(penalty[..], Cbrt(f, newV), Cbrt(f, con.volume), minlen, scale)
    }

    /** The penalty energy: 0 for the plain move and whenever the bias is off, `pendiff` otherwise. */
    function PenaltyEnergy(f: RealFns): (e: real)
      reads this, con, penalty
      requires Valid()
      requires hasPenalty && penalize ==> 0 <= PenBin(Cbrt(f, newV), minlen, scale) < penalty.Length
      requires BiasReady(f)
      ensures !(hasPenalty && penalize) ==> e == 0.0
      ensures hasPenalty && penalize ==> e == PenDiffOf(penalty[..], Cbrt(f, newV), Cbrt(f, con.volume), minlen, scale)
    {
      if hasPenalty && penalize then PenDiff(f) else 0.0
    }

    /** newvolume: a step of `half * dp` in ln V, set into the trial potential. */
    method NewVolume(f: RealFns, half: real)
      requires Valid()
      modifies this`newV, this`trialPotVolume, this`dV
      ensures newV == Exp(f, Log(f, con.volume) + Mul(half, dp))
      ensures trialPotVolume == newV && dV == newV - con.volume
    {
      newV := Exp(f, Log(f, con.volume) + Mul(half, dp));
      trialPotVolume := newV;
      dV := newV - con.volume;
    }

    /** accept: counts the acceptance and moves the container and the live potential to `newV`. */
    method AcceptVolume(f: RealFns)
      requires Valid() && VolumeAxioms(f)
      modifies this`naccept, this`rc, this`utot, this`dpsqr, this`potVolume, con`volume
      ensures naccept == old(naccept) + 1 && rc == Ok && utot == old(utot) + du
      ensures dpsqr == old(dpsqr) + Cbrt(f, newV)
      ensures con.volume == newV && potVolume == newV
    {
      naccept := naccept + 1;
      rc := Ok;
      utot := utot + du;
      dpsqr := dpsqr + Cbrt(f, newV);
      con.volume := newV;
      potVolume := newV;
    }

    /** isobaric::updateVars: one sample each of V, 1/V, L = V^(1/3) and 1/L for the current volume. */
    method UpdateVars(f: RealFns)
      requires con.volume > 0.0 && VolumeAxioms(f)
      modifies this`vol, this`ivol, this`len, this`ilen
      ensures vol == old(vol) + [con.volume] && ivol == old(ivol) + [Div(1.0, con.volume)]
      ensures len == old(len) + [Cbrt(f, con.volume)] && ilen == old(ilen) + [Div(1.0, Cbrt(f, con.volume))]
    {
      var v := con.volume;
      var l := Cbrt(f, v);
      vol := vol + [v];
      ivol := ivol + [Div(1.0, v)];
      len := len + [l];
      ilen := ilen + [Div(1.0, l)];
    }

    /**
     * isobaricPenalty::updateVars: the base samples, and `pen` added to the
     * bin of the current box length when `pen` is not zero. The move calls
     * the base version, so this one is reached only by a direct call.
     */
    method PenaltyUpdateVars(f: RealFns)
      requires Valid() && hasPenalty && VolumeAxioms(f)
      requires pen != 0.0 ==> 0 <= PenBin(Cbrt(f, con.volume), minlen, scale) < newpenalty.Length
      modifies this`vol, this`ivol, this`len, this`ilen, newpenalty
      ensures vol == old(vol) + [con.volume] && ivol == old(ivol) + [Div(1.0, con.volume)]
      ensures len == old(len) + [Cbrt(f, con.volume)] && ilen == old(ilen) + [Div(1.0, Cbrt(f, con.volume))]
      ensures pen == 0.0 ==> newpenalty[..] == old(newpenalty[..])
      ensures pen != 0.0 ==>
                var b := PenBin(Cbrt(f, con.volume), minlen, scale);
                newpenalty[..] == old(newpenalty[..])[b := old(newpenalty[b]) + pen]
    {
      UpdateVars(f);
      if pen != 0.0 {
        var b := PenBin(Cbrt(f, con.volume), minlen, scale);
        newpenalty[b] := newpenalty[b] + pen;
      }
    }

    /** updatepenalty: folds `newpenalty` into `penalty`, zeroes `newpenalty` and scales `pen`. */
    method UpdatePenalty()
      requires Valid()
      modifies penalty, newpenalty, this`pen
      ensures penalty[..] == AddSeq(old(penalty[..]), old(newpenalty[..]))
      ensures newpenalty[..] == Zeros(newpenalty.Length)
      ensures pen == Mul(old(pen), scalepen)
    {
      var i := 0;
      while i < penalty.Length
        invariant 0 <= i <= penalty.Length && pen == old(pen)
        invariant forall j :: 0 <= j < i ==> penalty[j] == old(penalty[j]) + old(newpenalty[j])
        invariant forall j :: i <= j < penalty.Length ==> penalty[j] == old(penalty[j])
        invariant forall j :: 0 <= j < i ==> newpenalty[j] == 0.0
        invariant forall j :: i <= j < newpenalty.Length ==> newpenalty[j] == old(newpenalty[j])
      {
        penalty[i] := penalty[i] + newpenalty[i];
        newpenalty[i] := 0.0;
        i := i + 1;
      }
      pen := Mul(pen, scalepen);
    }

    /**
     * isobaricmove of every macromolecule: each trial configuration is scaled
     * from the container, at its current volume, to box length `l`.
     */
    method ScaleGroups(scaleFn: (Molecule, real, real) -> Molecule, l: real)
      modifies con`trial
      ensures con.trial == ScaledAll(old(con.trial), scaleFn, con.volume, l)
    {
      var i := 0;
      while i < |con.trial|
        invariant 0 <= i <= |con.trial| && |con.trial| == |old(con.trial)|
        invariant forall j :: 0 <= j < i ==> con.trial[j] == scaleFn(old(con.trial)[j], con.volume, l)
        invariant forall j :: i <= j < |con.trial| ==> con.trial[j] == old(con.trial)[j]
      {
        con.trial := con.trial[i := scaleFn(con.trial[i], con.volume, l)];
        i := i + 1;
      }
    }

    /**
     * The double loop over unordered pairs of macromolecules: the old energy
     * with the live potential on the accepted configuration, the new energy
     * with the trial potential on the trial configuration.
     */
    method PairEnergies(e: (real, Molecule, Molecule) -> real) returns (uold: real, unew: real)
      requires |con.p| == |con.trial|
      ensures uold == AllPairs(potVolume, con.p, e)
      ensures unew == AllPairs(trialPotVolume, con.trial, e)
    {
      var n := |con.p|;
      uold, unew := 0.0, 0.0;
      var j := 0;
      while j < n - 1
        invariant 0 <= j <= n
        invariant n > 0 ==> j <= n - 1
        invariant uold == PairTotal(potVolume, con.p, e, j)
        invariant unew == PairTotal(trialPotVolume, con.trial, e, j)
      {
        var k := j + 1;
        var rowOld, rowNew := 0.0, 0.0;
        while k < n
          invariant j + 1 <= k <= n
          invariant rowOld == RowSum(potVolume, con.p, e, j, k)
          invariant rowNew == RowSum(trialPotVolume, con.trial, e, j, k)
        {
          rowOld := rowOld + e(potVolume, con.p[j], con.p[k]);
          rowNew := rowNew + e(trialPotVolume, con.trial[j], con.trial[k]);
          k := k + 1;
        }
        uold := uold + rowOld;
        unew := unew + rowNew;
        j := j + 1;
      }
      if n > 0 {
        assert RowSum(potVolume, con.p, e, n - 1, n) == 0.0;
        assert RowSum(trialPotVolume, con.trial, e, n - 1, n) == 0.0;
      }
    }

    /** accept of every macromolecule: the trial configuration becomes the accepted one. */
    method AcceptGroups()
      requires |con.p| == |con.trial|
      modifies con`p
      ensures con.p == con.trial
    {
      var i := 0;
      while i < |con.p|
        invariant 0 <= i <= |con.p| == |con.trial|
        invariant con.p[..i] == con.trial[..i]
      {
        con.p := con.p[i := con.trial[i]];
        i := i + 1;
      }
    }

    /** undo of every macromolecule: the trial configuration is reset to the accepted one. */
    method UndoGroups()
      requires |con.p| == |con.trial|
      modifies con`trial
      ensures con.trial == con.p
    {
      var i := 0;
      while i < |con.trial|
        invariant 0 <= i <= |con.trial| == |con.p|
        invariant con.trial[..i] == con.p[..i]
      {
        con.trial := con.trial[i := con.p[i]];
        i := i + 1;
      }
    }

    /**
     * isobaric::move. `runtest` is the outcome of the test against `runfraction`,
     * `half` the uniform number in [-1/2, 1/2], `scaleFn` the scaling of a
     * macromolecule from the container at its current volume to a box length, `e` the pair energy of two
     * macromolecules for a potential at a given volume, and `metropolis` the
     * ensemble's acceptance test on `dh`.
     */
    method Move(runtest: bool, half: real, f: RealFns, scaleFn: (Molecule, real, real) -> Molecule,
                e: (real, Molecule, Molecule) -> real, metropolis: real -> bool) returns (r: real)
      requires Valid() && VolumeAxioms(f) && BiasReady(f)
      modifies this`du, this`cnt, this`newV, this`trialPotVolume, this`dV, this`dh
      modifies this`naccept, this`rc, this`utot, this`dpsqr, this`potVolume
      modifies this`vol, this`ivol, this`len, this`ilen, con
      ensures Valid()
      ensures r == du
      // The run test fails: nothing but `du` changes.
      ensures !runtest ==>
                && r == 0.0 && cnt == old(cnt) && naccept == old(naccept) && utot == old(utot)
                && dpsqr == old(dpsqr) && rc == old(rc) && newV == old(newV) && dV == old(dV) && dh == old(dh)
                && potVolume == old(potVolume) && trialPotVolume == old(trialPotVolume)
                && vol == old(vol) && ivol == old(ivol) && len == old(len) && ilen == old(ilen)
                && con.volume == old(con.volume) && con.p == old(con.p) && con.trial == old(con.trial)
      // Every attempt past the run test: one trial counted, a new volume drawn, one sample taken.
      ensures runtest ==>
                && cnt == old(cnt) + 1
                && newV == Exp(f, Log(f, old(con.volume)) + Mul(half, dp))
                && trialPotVolume == newV && dV == newV - old(con.volume)
                && vol == old(vol) + [con.volume] && ivol == old(ivol) + [Div(1.0, con.volume)]
                && len == old(len) + [Cbrt(f, con.volume)] && ilen == old(ilen) + [Div(1.0, Cbrt(f, con.volume))]
      // The new box length leaves the window: rejected before any scaling or energy.
      ensures runtest && !(minlen as real < Cbrt(f, newV) < maxlen as real) ==>
                && r == 0.0 && naccept == old(naccept) && utot == old(utot) && dpsqr == old(dpsqr)
                && rc == old(rc) && dh == old(dh) && potVolume == old(potVolume)
                && con.volume == old(con.volume) && con.p == old(con.p) && con.trial == old(con.trial)
      // Inside the window: the energy difference and the NPT Hamiltonian difference.
      ensures runtest && minlen as real < Cbrt(f, newV) < maxlen as real ==>
                WindowOutcome(old(Snap()), Snap(), r, newV, dV, P,
                              BiasTerm(old(penalty[..]), hasPenalty && old(penalize), Cbrt(f, newV),
                                       Cbrt(f, old(con.volume)), minlen, maxlen, scale),
                              f, scaleFn, e, metropolis)
    {
      if !runtest {
        du := 0.0;
        return du;
      }
      r := Attempt(half, f, scaleFn, e, metropolis);
    }

    /** An attempt that has passed the run test. */
    method Attempt(half: real, f: RealFns, scaleFn: (Molecule, real, real) -> Molecule,
                   e: (real, Molecule, Molecule) -> real, metropolis: real -> bool) returns (r: real)
      requires Valid() && VolumeAxioms(f) && BiasReady(f)
      modifies this`du, this`cnt, this`newV, this`trialPotVolume, this`dV, this`dh
      modifies this`naccept, this`rc, this`utot, this`dpsqr, this`potVolume
      modifies this`vol, this`ivol, this`len, this`ilen, con
      ensures Valid()
      ensures r == du
      // Every attempt past the run test: one trial counted, a new volume drawn, one sample taken.
      ensures && cnt == old(cnt) + 1
                && newV == Exp(f, Log(f, old(con.volume)) + Mul(half, dp))
                && trialPotVolume == newV && dV == newV - old(con.volume)
                && vol == old(vol) + [con.volume] && ivol == old(ivol) + [Div(1.0, con.volume)]
                && len == old(len) + [Cbrt(f, con.volume)] && ilen == old(ilen) + [Div(1.0, Cbrt(f, con.volume))]
      // The new box length leaves the window: rejected before any scaling or energy.
      ensures !(minlen as real < Cbrt(f, newV) < maxlen as real) ==>
                && r == 0.0 && naccept == old(naccept) && utot == old(utot) && dpsqr == old(dpsqr)
                && rc == old(rc) && dh == old(dh) && potVolume == old(potVolume)
                && con.volume == old(con.volume) && con.p == old(con.p) && con.trial == old(con.trial)
      // Inside the window: the energy difference and the NPT Hamiltonian difference.
      ensures minlen as real < Cbrt(f, newV) < maxlen as real ==>
                WindowOutcome(old(Snap()), Snap(), r, newV, dV, P,
                              BiasTerm(old(penalty[..]), hasPenalty && old(penalize), Cbrt(f, newV),
                                       Cbrt(f, old(con.volume)), minlen, maxlen, scale),
                              f, scaleFn, e, metropolis)
    {
      Begin(f, half);
      var newL := Cbrt(f, newV);
      if minlen as real < newL < maxlen as real {
        r := InWindow(f, scaleFn, e, metropolis);
      } else {
        r := OutOfWindow(f);
      }
    }

    /** The opening of `_trialMove`: clears `du`, counts the attempt and draws the trial volume. */
    method Begin(f: RealFns, half: real)
      requires Valid()
      modifies this`du, this`cnt, this`newV, this`trialPotVolume, this`dV
      ensures du == 0.0 && cnt == old(cnt) + 1
      ensures newV == Exp(f, Log(f, con.volume) + Mul(half, dp))
      ensures trialPotVolume == newV && dV == newV - con.volume
    {
      du := 0.0;
      cnt := cnt + 1;
      NewVolume(f, half);
    }

    /** A proposed box length outside the window: rejected with no scaling and no energy. */
    method OutOfWindow(f: RealFns) returns (r: real)
      requires con.volume > 0.0 && VolumeAxioms(f)
      modifies this`dpsqr, this`vol, this`ivol, this`len, this`ilen
      ensures r == du && dpsqr == old(dpsqr)
      ensures vol == old(vol) + [con.volume] && ivol == old(ivol) + [Div(1.0, con.volume)]
      ensures len == old(len) + [Cbrt(f, con.volume)] && ilen == old(ilen) + [Div(1.0, Cbrt(f, con.volume))]
    {
      dpsqr := dpsqr + 0.0;
      UpdateVars(f);
      return du;
    }

    /** A proposed volume whose box length lies inside the window. */
    method InWindow(f: RealFns, scaleFn: (Molecule, real, real) -> Molecule,
                    e: (real, Molecule, Molecule) -> real, metropolis: real -> bool) returns (r: real)
      requires Valid() && VolumeAxioms(f) && BiasReady(f)
      requires minlen as real < Cbrt(f, newV) < maxlen as real && trialPotVolume == newV && newV > 0.0
      modifies con`trial, con`p, con`volume, this`du, this`dh
      modifies this`naccept, this`rc, this`utot, this`dpsqr, this`potVolume
      modifies this`vol, this`ivol, this`len, this`ilen
      ensures Valid() && r == du
      ensures vol == old(vol) + [con.volume] && ivol == old(ivol) + [Div(1.0, con.volume)]
      ensures len == old(len) + [Cbrt(f, con.volume)] && ilen == old(ilen) + [Div(1.0, Cbrt(f, con.volume))]
      // Inside the window: the energy difference and the NPT Hamiltonian difference.
      ensures WindowOutcome(old(Snap()), Snap(), r, newV, dV, P,
                              BiasTerm(old(penalty[..]), hasPenalty && old(penalize), Cbrt(f, newV),
                                       Cbrt(f, old(con.volume)), minlen, maxlen, scale),
                              f, scaleFn, e, metropolis)
    {
      ProposeEnergy(f, scaleFn, e);
      r := Decide(f, metropolis);
    }

    /**
     * The part of the move inside the window: every macromolecule is scaled
     * into the trial configuration, `du` is the pair-energy difference and
     * `dh` the NPT Hamiltonian difference with the penalty energy added.
     */
    method ProposeEnergy(f: RealFns, scaleFn: (Molecule, real, real) -> Molecule, e: (real, Molecule, Molecule) -> real)
      requires Valid() && VolumeAxioms(f) && BiasReady(f)
      requires minlen as real < Cbrt(f, newV) < maxlen as real
      modifies con`trial, this`du, this`dh
      ensures Valid()
      ensures con.trial == ScaledAll(old(con.trial), scaleFn, con.volume, Cbrt(f, newV))
      ensures du == AllPairs(trialPotVolume, con.trial, e) - AllPairs(potVolume, con.p, e)
      ensures dh == NptEnergy(du, P, dV, |con.p|, Log(f, Div(newV, con.volume)))
                    + BiasTerm(penalty[..], hasPenalty && penalize, Cbrt(f, newV), Cbrt(f, con.volume), minlen, maxlen, scale)
    {
      var newL := Cbrt(f, newV);
      var n := |con.p|;
      ScaleGroups(scaleFn, newL);
      var uold, unew := PairEnergies(e);
      du := unew - uold;
      dh := NptEnergy(du, P, dV, n, Log(f, Div(newV, con.volume)));
      if hasPenalty && penalize {
        BinInWindow(newL, minlen, maxlen, scale);
      }
      dh := dh + PenaltyEnergy(f);
    }

    /** The Metropolis test on `dh`: accept the volume and the trial configuration, or undo it. */
    method Decide(f: RealFns, metropolis: real -> bool) returns (r: real)
      requires Valid() && VolumeAxioms(f) && newV > 0.0
      modifies this`naccept, this`rc, this`utot, this`dpsqr, this`potVolume, this`du
      modifies this`vol, this`ivol, this`len, this`ilen, con`volume, con`p, con`trial
      ensures Valid() && r == du
      ensures vol == old(vol) + [con.volume] && ivol == old(ivol) + [Div(1.0, con.volume)]
      ensures len == old(len) + [Cbrt(f, con.volume)] && ilen == old(ilen) + [Div(1.0, Cbrt(f, con.volume))]
      ensures Passes(metropolis, dh) ==>
                && r == old(du) && naccept == old(naccept) + 1 && utot == old(utot) + old(du) && rc == Ok
                && dpsqr == old(dpsqr) + Cbrt(f, newV)
                && con.volume == newV && potVolume == newV
                && con.p == old(con.trial) && con.trial == old(con.trial)
      ensures !Passes(metropolis, dh) ==>
                && r == 0.0 && naccept == old(naccept) && utot == old(utot) && rc == EnergyRejected
                && dpsqr == old(dpsqr)
                && con.volume == old(con.volume) && potVolume == old(potVolume)
                && con.p == old(con.p) && con.trial == old(con.p)
    {
      if Passes(metropolis, dh) {
        AcceptVolume(f);
        UpdateVars(f);
        AcceptGroups();
        return du;
      } else {
        rc := EnergyRejected;
      }
      du := 0.0;
      dpsqr := dpsqr + 0.0;
      UndoGroups();
      UpdateVars(f);
      return du;
    }
  }

  // ---------------------------------------------------------------- lemmas

  lemma MulMonoInt(a: int, b: int, s: PosInt)
    requires a < b
    ensures IMul(a, s) < IMul(b, s)
  {
    AtLeastOnce(b - a, s);
    assert b * s - a * s == (b - a) * s;
  }

  lemma {:induction false} AtLeastOnce(x: int, s: PosInt)
    requires x >= 1
    ensures x * s >= s
    decreases x
  {
    if x > 1 {
      AtLeastOnce(x - 1, s);
      assert x * s == (x - 1) * s + s;
    }
  }

  /** A box length strictly inside the window falls into one of the `NumBins` bins. */
  lemma BinInWindow(l: real, minlen: int, maxlen: int, scale: PosInt)
    requires minlen <= maxlen && minlen as real < l < maxlen as real
    ensures 0 <= PenBin(l, minlen, scale) < NumBins(maxlen - minlen, scale)
  {
    var span := maxlen - minlen;
    var t := Trunc(l - minlen as real);
    assert 0 <= t < span;
    var q := CDiv(t, scale);
    var n := NumBins(span, scale);
    assert IMul(q, scale) <= t < span <= IMul(n, scale);
    if q >= n {
      if q > n {
        MulMonoInt(n, q, scale);
      }
      assert false;
    }
  }

  /** Penalty differences telescope: going through an intermediate length changes nothing. */
  lemma PenDiffTelescopes(tab: seq<real>, l1: real, l2: real, l3: real, minlen: int, scale: PosInt)
    requires 0 <= PenBin(l1, minlen, scale) < |tab|
    requires 0 <= PenBin(l2, minlen, scale) < |tab|
    requires 0 <= PenBin(l3, minlen, scale) < |tab|
    ensures PenDiffOf(tab, l2, l1, minlen, scale) + PenDiffOf(tab, l3, l2, minlen, scale)
            == PenDiffOf(tab, l3, l1, minlen, scale)
    ensures PenDiffOf(tab, l1, l2, minlen, scale) == -PenDiffOf(tab, l2, l1, minlen, scale)
  {
  }

  /** Folding `newpenalty` into `penalty` conserves the total penalty. */
  lemma {:induction false} TotalAdd(a: seq<real>, b: seq<real>)
    requires |a| == |b|
    ensures Total(AddSeq(a, b)) == Total(a) + Total(b)
    decreases |a|
  {
    if |a| > 0 {
      var n := |a| - 1;
      TotalAdd(a[..n], b[..n]);
      assert AddSeq(a, b)[..n] == AddSeq(a[..n], b[..n]);
    }
  }

  /** Adding `x` to one bin raises the total by exactly `x`. */
  lemma {:induction false} TotalBump(s: seq<real>, i: nat, x: real)
    requires i < |s|
    ensures Total(s[i := s[i] + x]) == Total(s) + x
    decreases |s|
  {
    var n := |s| - 1;
    if i == n {
      assert s[i := s[i] + x][..n] == s[..n];
    } else {
      TotalBump(s[..n], i, x);
      assert s[i := s[i] + x][..n] == s[..n][i := s[i] + x];
    }
  }

  lemma {:induction false} TotalZeros(n: nat)
    ensures Total(Zeros(n)) == 0.0
  {
    if n > 0 {
      TotalZeros(n - 1);
      assert Zeros(n)[..n - 1] == Zeros(n - 1);
    }
  }

  /** Two macromolecules interact once; fewer interact not at all. */
  lemma PairsOfFew(v: real, c: seq<Molecule>, e: (real, Molecule, Molecule) -> real)
    requires |c| <= 2
    ensures |c| < 2 ==> AllPairs(v, c, e) == 0.0
    ensures |c| == 2 ==> AllPairs(v, c, e) == e(v, c[0], c[1])
  {
    if |c| == 2 {
      assert RowSum(v, c, e, 1, 2) == 0.0;
      assert RowSum(v, c, e, 0, 1) == 0.0;
      assert RowSum(v, c, e, 0, 2) == e(v, c[0], c[1]);
      assert PairTotal(v, c, e, 1) == RowSum(v, c, e, 0, 2);
    } else if |c| == 1 {
      assert RowSum(v, c, e, 0, 1) == 0.0;
      assert PairTotal(v, c, e, 1) == 0.0;
    }
  }

  /** Each of the `N` row sums is only over the molecules behind its row, so the sum depends on nothing else. */
  lemma {:induction false} RowSumLocal(v: real, c: seq<Molecule>, d: seq<Molecule>,
                                       e: (real, Molecule, Molecule) -> real, j: nat, k: int)
    requires j < |c| && k <= |c| && |c| <= |d|
    requires forall i :: 0 <= i < |c| ==> c[i] == d[i]
    ensures RowSum(v, c, e, j, k) == RowSum(v, d, e, j, k)
    decreases k
  {
    if k > j + 1 {
      RowSumLocal(v, c, d, e, j, k - 1);
    }
  }

  /** Adding a macromolecule adds exactly its interactions with each of the others. */
  lemma {:induction false} PairTotalAppend(v: real, c: seq<Molecule>, m: Molecule,
                                           e: (real, Molecule, Molecule) -> real, rows: nat)
    requires rows <= |c|
    ensures PairTotal(v, c + [m], e, rows) == PairTotal(v, c, e, rows) + Column(v, c, m, e, rows)
    decreases rows
  {
    if rows > 0 {
      PairTotalAppend(v, c, m, e, rows - 1);
      var d := c + [m];
      var j := rows - 1;
      RowSumLocal(v, c, d, e, j, |c|);
      if |c| > j + 1 {
        assert RowSum(v, d, e, j, |d|) == RowSum(v, d, e, j, |c|) + e(v, d[j], m);
      } else {
        assert RowSum(v, d, e, j, |d|) == e(v, d[j], m);
      }
    }
  }

  /** Interactions of `m` with the first `rows` macromolecules of `c`. */
  function Column(v: real, c: seq<Molecule>, m: Molecule, e: (real, Molecule, Molecule) -> real, rows: nat): real
    requires rows <= |c|
  {
    if rows == 0 then 0.0 else Column(v, c, m, e, rows - 1) + e(v, c[rows - 1], m)
  }
}
