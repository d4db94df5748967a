/**
 * The type-switch (titration) sweep: one attempt per titratable site, each
 * exchanging one particle of the trial configuration between its two
 * types, weighing the change of that particle's energy with the ensemble's
 * acceptance test, and then taking one sample of the fraction of sites
 * that hold the second type.
 *
 * The random choice of the site, the exchange of a particle, the energy of
 * one particle with the rest, the ensemble's energy term and its Metropolis
 * test are parameters of the sweep, bundled in `Env`.
 */
module Switch {
  import opened RealArith
  import opened Particles
  import opened Groups

  /** The parameters of one sweep. */
  datatype Env = Env(
    /** Particle indices of the titratable sites. */
    sites: seq<int>,
    /** For attempt `i`, the position in `sites` that the exchange draws. */
    picks: seq<int>,
    /** The particle type counted by the samples. */
    fType2: int,
    /** The exchange of one particle between its two types. */
    swap: Particle -> Particle,
    /** Energy of particle `k` with the rest of a configuration. */
    pot: (seq<Particle>, int) -> real,
    /** The ensemble's energy of a proposal: accepted and trial configuration and `du`. */
    ham: (seq<Particle>, seq<Particle>, real) -> real,
    /** The ensemble's acceptance test. */
    metropolis: real -> bool)

  // Applications of the parameters, named so that they do not depend on the heap.
  function Swapped(env: Env, q: Particle): Particle { env.swap(q) }
  function SiteEnergy(env: Env, c: seq<Particle>, k: int): real { env.pot(c, k) }
  function Accepts(env: Env, p: seq<Particle>, t: seq<Particle>, du: real): bool { env.metropolis(env.ham(p, t, du)) }

  /** The sites are particles of a configuration of `n` particles, and every draw names a site. */
  predicate Fits(env: Env, n: int)
  {
    && (forall i :: 0 <= i < |env.sites| ==> 0 <= env.sites[i] < n)
    && |env.sites| <= |env.picks|
    && (forall i :: 0 <= i < |env.picks| ==> 0 <= env.picks[i] < |env.sites|)
  }

  /** The particle that attempt `i` exchanges. */
  function Site(env: Env, n: int, i: int): (k: int)
    requires Fits(env, n) && 0 <= i < |env.sites|
    ensures 0 <= k < n
  {
    env.sites[env.picks[i]]
  }

  /** A configuration with particle `k` exchanged. */
  function Exchanged(env: Env, c: seq<Particle>, k: int): (r: seq<Particle>)
    requires 0 <= k < |c|
    ensures |r| == |c|
  {
    c[k := Swapped(env, c[k])]
  }

  /** Number of sites whose particle in `c` has type `t`. */
  function CountOf(c: seq<Particle>, sites: seq<int>, t: int): nat
  {
    if |sites| == 0 then 0
    else CountOf(c, sites[..|sites| - 1], t) + (if Holds(c, sites[|sites| - 1], t) then 1 else 0)
  }

  /** Particle `k` of `c` exists and has type `t`. */
  predicate Holds(c: seq<Particle>, k: int, t: int)
  {
    0 <= k < |c| && c[k].id == t
  }

  /** The sample that `samplesites` takes of configuration `c`. */
  function Fraction(env: Env, c: seq<Particle>): real
    requires |env.sites| > 0 && Fits(env, |c|)
  {
    Div(CountOf(c, env.sites, env.fType2) as real, |env.sites| as real)
  }

  /** The state a sweep works on: both configurations, the counters and the samples. */
  datatype Sweep = Sweep(p: seq<Particle>, trial: seq<Particle>, cnt: int, naccept: int, utot: real,
                         rc: Code, frac2: seq<real>)

  /** The energy change `du` of attempt `i` from state `s`. */
  function Du(env: Env, s: Sweep, i: int): real
    requires Fits(env, |s.p|) && |s.trial| == |s.p| && 0 <= i < |env.sites|
  {
    var k := Site(env, |s.p|, i);
    SiteEnergy(env, Exchanged(env, s.trial, k), k) - SiteEnergy(env, s.p, k)
  }

  /** Whether the test accepts attempt `i` from state `s`. */
  predicate Accepted(env: Env, s: Sweep, i: int)
    requires Fits(env, |s.p|) && |s.trial| == |s.p| && 0 <= i < |env.sites|
  {
    Accepts(env, s.p, Exchanged(env, s.trial, Site(env, |s.p|, i)), Du(env, s, i))
  }

  /**
   * Attempt `i`: exchange the drawn particle in the trial configuration,
   * take `du` as the change of its energy, and either accept (exchange it
   * in the accepted configuration too, count the acceptance and add `du` to
   * the total energy) or reject (exchange it back in the trial
   * configuration); either way count the attempt and sample the accepted
   * configuration.
   */
  function Step(env: Env, s: Sweep, i: int): (t: Sweep)
    requires Fits(env, |s.p|) && |s.trial| == |s.p| && 0 <= i < |env.sites|
  {
    var k := Site(env, |s.p|, i);
    var t1 := Exchanged(env, s.trial, k);
    if Accepted(env, s, i) then
      var p1 := Exchanged(env, s.p, k);
      Sweep(p1, t1, s.cnt + 1, s.naccept + 1, s.utot + Du(env, s, i), Ok, s.frac2 + [Fraction(env, p1)])
    else
      Sweep(s.p, Exchanged(env, t1, k), s.cnt + 1, s.naccept, s.utot, EnergyRejected, s.frac2 + [Fraction(env, s.p)])
  }

  /** The first `n` attempts of a sweep from `s`. */
  function Steps(env: Env, s: Sweep, n: int): (t: Sweep)
    requires Fits(env, |s.p|) && |s.trial| == |s.p| && 0 <= n <= |env.sites|
    ensures |t.p| == |s.p| && |t.trial| == |s.p|
  {
    if n == 0 then s else Step(env, Steps(env, s, n - 1), n - 1)
  }

  /** The run-fraction-free sweep over every site. */
  class SwitchMove {
    const con: Space
    const runfraction: real
    var cnt: nat
    var naccept: nat
    var utot: real
    var du: real
    var rc: Code
    /** The particle exchanged by the last attempt. */
    var recent: int
    /** Count of sites of the second type at the last sample. */
    var n: nat
    /** Samples of the fraction of sites of the second type. */
    var frac2: seq<real>

    ghost predicate Valid()
      reads this, con
    {
      con.Valid()
    }

    /** The state a sweep works on, as one value. */
    ghost function State(): Sweep
      reads this, con, con.p, con.trial
    {
      Sweep(con.p[..], con.trial[..], cnt, naccept, utot, rc, frac2)
    }

    /** switch_type: run every time, and start from a trial configuration equal to the accepted one. */
    constructor (c: Space)
      requires c.Valid()
      modifies c.trial
      ensures Valid() && con == c && runfraction == 1.0
      ensures c.trial[..] == old(c.p[..]) && c.p[..] == old(c.p[..])
      ensures cnt == 0 && naccept == 0 && utot == 0.0 && rc == Unset && frac2 == []
    {
      con := c;
      runfraction := 1.0;
      cnt, naccept, utot, du, rc, recent, n, frac2 := 0, 0, 0.0, 0.0, Unset, 0, 0, [];
      new;
      CopyToTrial(c);
    }

    /** samplesites: count the sites that hold the second type and add their fraction as one sample. */
    method SampleSites(env: Env)
      requires Valid() && Fits(env, con.p.Length) && |env.sites| > 0
      modifies this`n, this`frac2
      ensures n == CountOf(con.p[..], env.sites, env.fType2)
      ensures frac2 == old(frac2) + [Fraction(env, con.p[..])]
    {
      ghost var c := con.p[..];
      n := 0;
      var i := 0;
      while i < |env.sites|
        invariant 0 <= i <= |env.sites|
        invariant n == CountOf(c, env.sites[..i], env.fType2) && frac2 == old(frac2)
      {
        var k := env.sites[i];
        assert env.sites[..i + 1][..i] == env.sites[..i];
        if con.p[k].id == env.fType2 {
          assert Holds(c, k, env.fType2);
          n := n + 1;
        } else {
          assert !Holds(c, k, env.fType2);
        }
        i := i + 1;
      }
      assert env.sites[..i] == env.sites;
      frac2 := frac2 + [Div(n as real, |env.sites| as real)];
    }

    /**
     * titrateall: one attempt per site. The new state is that of the sweep
     * `Steps` over every site, and the returned sum is the energy change it
     * added to `utot`.
     */
    method TitrateAll(env: Env) returns (sum: real)
      requires Valid() && Fits(env, con.p.Length)
      modifies this`cnt, this`naccept, this`utot, this`du, this`rc, this`recent, this`n, this`frac2
      modifies con.p, con.trial
      ensures Valid()
      ensures State() == Steps(env, old(State()), |env.sites|)
      ensures utot == old(utot) + sum
      ensures |env.sites| == 0 ==> du == 0.0
      ensures |env.sites| > 0 ==> du == Du(env, Steps(env, old(State()), |env.sites| - 1), |env.sites| - 1)
    {
      ghost var s0 := State();
      du := 0.0;
      sum := 0.0;
      var i := 0;
      while i < |env.sites|
        invariant 0 <= i <= |env.sites| && Valid()
        invariant State() == Steps(env, s0, i) && utot == s0.utot + sum
        invariant i == 0 ==> du == 0.0
        invariant i > 0 ==> du == Du(env, Steps(env, s0, i - 1), i - 1)
      {
        var gain := AttemptSite(env, i);
        sum := sum + gain;
        i := i + 1;
      }
    }

    /** One iteration of `titrateall`: attempt `i` with its sample; returns the `du` added to the sum. */
    method AttemptSite(env: Env, i: int) returns (gain: real)
      requires Valid() && Fits(env, con.p.Length) && 0 <= i < |env.sites|
      modifies this`cnt, this`naccept, this`utot, this`du, this`rc, this`recent, this`n, this`frac2
      modifies con.p, con.trial
      ensures Valid()
      ensures State() == Step(env, old(State()), i) && utot == old(utot) + gain
      ensures du == Du(env, old(State()), i)
    {
      ghost var s := State();
      cnt := cnt + 1;
      var k := Site(env, con.p.Length, i);
      recent := k;
      con.trial[k] := Swapped(env, con.trial[k]);
      assert con.trial[..] == Exchanged(env, s.trial, k);
      var uold := SiteEnergy(env, con.p[..], k);
      var unew := SiteEnergy(env, con.trial[..], k);
      du := unew - uold;
      gain := 0.0;
      if Accepts(env, con.p[..], con.trial[..], du) {
        rc := Ok;
        utot := utot + du;
        naccept := naccept + 1;
        con.p[k] := Swapped(env, con.p[k]);
        assert con.p[..] == Exchanged(env, s.p, k);
        gain := du;
      } else {
        rc := EnergyRejected;
        con.trial[k] := Swapped(env, con.trial[k]);
        assert con.trial[..] == Exchanged(env, Exchanged(env, s.trial, k), k);
      }
      SampleSites(env);
    }
  }

  /** `con->trial = con->p`: the trial configuration becomes a copy of the accepted one. */
  method CopyToTrial(c: Space)
    requires c.Valid()
    modifies c.trial
    ensures c.trial[..] == c.p[..] && c.p[..] == old(c.p[..])
  {
    var i := 0;
    while i < c.p.Length
      invariant 0 <= i <= c.p.Length
      invariant c.p[..] == old(c.p[..])
      invariant forall j :: 0 <= j < i ==> c.trial[j] == c.p[j]
    {
      c.trial[i] := c.p[i];
      i := i + 1;
    }
    assert c.trial[..] == c.p[..];
  }

  // ---------------------------------------------------------------- lemmas

  /** Every attempt is counted and adds one sample, and at most one acceptance. */
  lemma {:induction false} StepsCount(env: Env, s: Sweep, n: int)
    requires Fits(env, |s.p|) && |s.trial| == |s.p| && 0 <= n <= |env.sites|
    ensures Steps(env, s, n).cnt == s.cnt + n
    ensures |Steps(env, s, n).frac2| == |s.frac2| + n
    ensures s.naccept <= Steps(env, s, n).naccept <= s.naccept + n
  {
    if n > 0 {
      StepsCount(env, s, n - 1);
    }
  }

  /** The count of matching sites never exceeds the number of sites. */
  lemma {:induction false} CountAtMostSites(c: seq<Particle>, sites: seq<int>, t: int)
    ensures CountOf(c, sites, t) <= |sites|
  {
    if |sites| > 0 {
      CountAtMostSites(c, sites[..|sites| - 1], t);
    }
  }

  /** A sample is a fraction: it lies in [0, 1]. */
  lemma FractionInUnit(env: Env, c: seq<Particle>)
    requires |env.sites| > 0 && Fits(env, |c|)
    ensures 0.0 <= Fraction(env, c) <= 1.0
  {
    CountAtMostSites(c, env.sites, env.fType2);
  }

  /** Every sample a sweep takes lies in [0, 1]. */
  lemma {:induction false} SamplesInUnit(env: Env, s: Sweep, n: int)
    requires Fits(env, |s.p|) && |s.trial| == |s.p| && 0 <= n <= |env.sites|
    requires forall j :: 0 <= j < |s.frac2| ==> 0.0 <= s.frac2[j] <= 1.0
    ensures forall j :: 0 <= j < |Steps(env, s, n).frac2| ==> 0.0 <= Steps(env, s, n).frac2[j] <= 1.0
  {
    if n > 0 {
      SamplesInUnit(env, s, n - 1);
      var m := Steps(env, s, n - 1);
      FractionInUnit(env, m.p);
      FractionInUnit(env, Exchanged(env, m.p, Site(env, |m.p|, n - 1)));
    }
  }

  /**
   * When the exchange undoes itself, the trial configuration stays equal
   * to the accepted one: an accepted attempt exchanges both, a rejected one
   * exchanges the trial particle back.
   */
  lemma {:induction false} TrialFollowsAccepted(env: Env, s: Sweep, n: int)
    requires Fits(env, |s.p|) && |s.trial| == |s.p| && 0 <= n <= |env.sites|
    requires forall q :: Swapped(env, Swapped(env, q)) == q
    requires s.trial == s.p
    ensures Steps(env, s, n).trial == Steps(env, s, n).p
  {
    if n > 0 {
      TrialFollowsAccepted(env, s, n - 1);
      var m := Steps(env, s, n - 1);
      var k := Site(env, |m.p|, n - 1);
      assert Exchanged(env, Exchanged(env, m.trial, k), k) == m.p;
    }
  }

  /**
   * When the test rejects everything, a sweep leaves the accepted
   * configuration, the total energy and the acceptance count alone.
   */
  lemma {:induction false} RejectedLeaveAlone(env: Env, s: Sweep, n: int)
    requires Fits(env, |s.p|) && |s.trial| == |s.p| && 0 <= n <= |env.sites|
    requires forall x :: !env.metropolis(x)
    ensures Steps(env, s, n).p == s.p && Steps(env, s, n).utot == s.utot
    ensures Steps(env, s, n).naccept == s.naccept
  {
    if n > 0 {
      RejectedLeaveAlone(env, s, n - 1);
    }
  }

  /**
   * The total energy changes only on an accepted attempt, and then by that
   * attempt's `du`; a rejected attempt adds nothing and leaves the accepted
   * configuration alone.
   */
  lemma StepEnergy(env: Env, s: Sweep, i: int)
    requires Fits(env, |s.p|) && |s.trial| == |s.p| && 0 <= i < |env.sites|
    ensures var t := Step(env, s, i);
            && (t.rc == Ok <==> Accepted(env, s, i))
            && (t.rc == Ok ==> t.naccept == s.naccept + 1 && t.utot == s.utot + Du(env, s, i))
            && (t.rc != Ok ==> t.naccept == s.naccept && t.utot == s.utot && t.p == s.p)
  {
  }

  // ------------------------------------------------ the loop counter as written

  /** The site index after one `i++` when `i` is an `unsigned short`. */
  function ShortIncrement(i: int): (j: int)
    ensures 0 <= j < 65536
  {
    (i + 1) % 65536
  }

  /** The site index after `k` iterations of the loop as written. */
  function ShortIndexAfter(k: nat): (i: int)
  {
    if k == 0 then 0 else ShortIncrement(ShortIndexAfter(k - 1))
  }

  /**
   * After `k` iterations the index is `k` modulo 65536; so with 65536 sites
   * or more the loop test `i < sites.size()` holds after every iteration,
   * and the loop as written never ends.
   */
  lemma {:induction false} ShortIndexNeverExits(size: int, k: nat)
    requires size >= 65536
    ensures ShortIndexAfter(k) == k % 65536
    ensures ShortIndexAfter(k) < size
  {
    if k > 0 {
      ShortIndexNeverExits(size, k - 1);
      assert ShortIndexAfter(k) == ((k - 1) % 65536 + 1) % 65536;
    }
  }
}
