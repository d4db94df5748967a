/**
 * Groups: contiguous index ranges over the two particle buffers of a
 * simulation space, the accepted configuration `p` and the trial
 * configuration `trial`. A move changes `trial` inside a group's range; the
 * group is then accepted (trial copied into `p`) or undone (`p` copied back
 * into `trial`).
 *
 * The C++ class hierarchy Group / GroupAtomic / GroupMolecular / GroupArray
 * is represented by one class whose constant `kind` records the dynamic type.
 */
module Groups {
  import opened Particles

  /** An index range `[front, front + size - 1]`; `back` is derived. */
  datatype Range = Range(front: int, size: nat)
  {
    function Back(): int { front + size - 1 }

    predicate Contains(i: int) { front <= i <= Back() }

    predicate IsEmpty() { size == 0 }

    /** The indices a loop over the range visits, in order. */
    function Indices(): (r: seq<int>)
      ensures |r| == size
      ensures forall k :: 0 <= k < |r| ==> Contains(r[k])
      ensures forall i :: Contains(i) ==> i in r
    {
      var r := seq(size, k => front + k);
      assert forall i :: Contains(i) ==> r[i - front] == i;
      r
    }

    /** Moves the front, keeping the size. */
    function SetFront(f: int): Range { Range(f, size) }

    /** Moves the back, keeping the front; a back before the front empties the range. */
    function SetBack(b: int): (r: Range)
      ensures r.front == front
      ensures b >= front - 1 ==> r.Back() == b
      ensures b < front - 1 ==> r.IsEmpty()
    {
      Range(front, if b - front + 1 >= 0 then b - front + 1 else 0)
    }

    function Resize(n: nat): Range { Range(front, n) }
  }

  /** The range `[front, back]`; a back before the front gives an empty range at `front`. */
  function RangeOf(front: int, back: int): (r: Range)
    ensures r.front == front
    ensures back >= front - 1 ==> r.Back() == back
  {
    Range(front, 0).SetBack(back)
  }

  /** The dynamic type of a group. `MolArray(n)` is an array of molecules of `n` particles each. */
  datatype Kind = Plain | Atomic | Molecular | MolArray(n: PosInt)

  /** The simulation space: accepted and trial particle buffers of equal length. */
  class Space {
    var p: array<Particle>
    var trial: array<Particle>

    ghost predicate Valid()
      reads this
    {
      p != trial && p.Length == trial.Length
    }

    constructor (init: seq<Particle>)
      ensures Valid() && fresh(p) && fresh(trial)
      ensures p[..] == init && trial[..] == init
    {
      p := new Particle[|init|](i requires 0 <= i < |init| => init[i]);
      trial := new Particle[|init|](i requires 0 <= i < |init| => init[i]);
    }
  }

  /** The range lies within a buffer of length `len` (an empty range may sit anywhere). */
  predicate Within(r: Range, len: int)
  {
    r.size == 0 || (0 <= r.front && r.front + r.size <= len)
  }

  /** Sum of the charges of `p[lo..hi]`. */
  ghost function ChargeSum(p: seq<Particle>, lo: int, hi: int): real
    requires hi <= lo || (0 <= lo && hi <= |p|)
    decreases hi - lo
  {
    if hi <= lo then 0.0 else ChargeSum(p, lo, hi - 1) + p[hi - 1].charge
  }

  /** Sum of `counts` up to the first entry that is not positive. */
  function LeadingTotal(counts: seq<int>): nat
  {
    if |counts| == 0 || counts[0] <= 0 then 0 else counts[0] + LeadingTotal(counts[1..])
  }

  /** Plain sum of a sequence. */
  function Sum(s: seq<int>): int
  {
    if |s| == 0 then 0 else Sum(s[..|s| - 1]) + s[|s| - 1]
  }

  class Group {
    var range: Range
    var cm: Point
    var cmTrial: Point
    const kind: Kind
    /** The molecule last selected by `Select` (GroupArray only). */
    var sel: Range

    /** A group spanning `[front, back]`; empty when either bound is negative. */
    constructor (front: int, back: int, kind: Kind)
      requires !kind.MolArray?
      ensures this.kind == kind
      ensures range.front == front
      ensures front < 0 || back < 0 ==> range.IsEmpty()
      ensures front >= 0 && back >= front - 1 ==> range.size == back - front + 1 && range.Back() == back
    {
      var r := RangeOf(front, back);
      if front < 0 || back < 0 {
        r := r.Resize(0);
      }
      range := r;
      this.kind := kind;
      cm := Point(0.0, 0.0, 0.0);
      cmTrial := Point(0.0, 0.0, 0.0);
      sel := Range(0, 0);
    }

    /** An empty array of molecules with `n` particles each. */
    constructor Array(n: PosInt)
      ensures kind == MolArray(n)
      ensures range.IsEmpty() && sel.IsEmpty()
    {
      kind := MolArray(n);
      range := Range(0, 0);
      cm := Point(0.0, 0.0, 0.0);
      cmTrial := Point(0.0, 0.0, 0.0);
      sel := Range(0, 0);
    }

    /** Total charge of the particles of `p` inside the range. */
    method Charge(p: array<Particle>) returns (z: real)
      requires Within(range, p.Length)
      ensures z == ChargeSum(p[..], range.front, range.front + range.size)
    {
      z := 0.0;
      var i := range.front;
      while i < range.front + range.size
        invariant range.front <= i <= range.front + range.size
        invariant z == ChargeSum(p[..], range.front, i)
      {
        z := z + p[i].charge;
        i := i + 1;
      }
    }

    /** Copies the trial configuration into the accepted one over the range; `cm := cmTrial`. */
    method Accept(s: Space)
      requires s.Valid() && Within(range, s.p.Length)
      modifies s.p, this`cm
      ensures cm == old(cmTrial)
      ensures forall i :: 0 <= i < s.p.Length && range.Contains(i) ==> s.p[i] == s.trial[i]
      ensures forall i :: 0 <= i < s.p.Length && !range.Contains(i) ==> s.p[i] == old(s.p[i])
      ensures s.trial[..] == old(s.trial[..])
    {
      var i := range.front;
      while i < range.front + range.size
        invariant range.front <= i <= range.front + range.size
        invariant forall j :: 0 <= j < s.p.Length && range.front <= j < i ==> s.p[j] == s.trial[j]
        invariant forall j :: 0 <= j < s.p.Length && !(range.front <= j < i) ==> s.p[j] == old(s.p[j])
      {
        s.p[i] := s.trial[i];
        i := i + 1;
      }
      cm := cmTrial;
    }

    /** Copies the accepted configuration into the trial one over the range; `cmTrial := cm`. */
    method Undo(s: Space)
      requires s.Valid() && Within(range, s.trial.Length)
      modifies s.trial, this`cmTrial
      ensures cmTrial == old(cm)
      ensures forall i :: 0 <= i < s.trial.Length && range.Contains(i) ==> s.trial[i] == s.p[i]
      ensures forall i :: 0 <= i < s.trial.Length && !range.Contains(i) ==> s.trial[i] == old(s.trial[i])
      ensures s.p[..] == old(s.p[..])
    {
      var i := range.front;
      while i < range.front + range.size
        invariant range.front <= i <= range.front + range.size
        invariant forall j :: 0 <= j < s.trial.Length && range.front <= j < i ==> s.trial[j] == s.p[j]
        invariant forall j :: 0 <= j < s.trial.Length && !(range.front <= j < i) ==> s.trial[j] == old(s.trial[j])
      {
        s.trial[i] := s.p[i];
        i := i + 1;
      }
      cmTrial := cm;
    }

    /** A random index of the range drawn from the random integer `r`, or -1 for an empty group. */
    function Random(r: nat): (i: int)
      reads this
      ensures range.IsEmpty() ==> i == -1
      ensures !range.IsEmpty() ==> range.Contains(i) && i == range.front + r % range.size
    {
      if !range.IsEmpty() then range.front + r % range.size else -1
    }

    predicate IsAtomic() reads this { kind.Atomic? }

    predicate IsMolecular() reads this { kind.Molecular? }

    /** Number of molecules: the size for plain and atomic groups, one for a molecule, size / N for an array. */
    function NumMolecules(): (m: int)
      reads this
      ensures m >= 0
      ensures kind.Molecular? ==> m == 1
      ensures kind.Plain? || kind.Atomic? ==> m == range.size
      ensures kind.MolArray? ==> m * kind.n <= range.size < m * kind.n + kind.n
      ensures kind.MolArray? && range.size % kind.n == 0 ==> m * kind.n == range.size
    {
      match kind
      case Plain => range.size
      case Atomic => range.size
      case Molecular => 1
      case MolArray(n) => range.size / n
    }

    /**
     * GroupAtomic::add: the group starts at the current end `pSize` of the
     * particle buffer and takes one block of `counts[k]` particles for each
     * leading positive entry; the scan stops at the first entry that is not
     * positive, and every entry past the end of `counts` reads as 0.
     */
    method AddAtomic(pSize: nat, counts: seq<int>)
      requires kind.Atomic?
      modifies this`range
      ensures range == Range(pSize, LeadingTotal(counts))
    {
      range := range.SetFront(pSize);
      var size := 0;
      var n := 1;
      while true
        invariant 1 <= n <= |counts| + 1
        invariant size + LeadingTotal(counts[n - 1..]) == LeadingTotal(counts)
        invariant range.front == pSize
        decreases |counts| + 1 - n
      {
        var npart := if n - 1 < |counts| then counts[n - 1] else 0;
        n := n + 1;
        if npart > 0 {
          size := size + npart;
        } else {
          break;
        }
      }
      if size > 0 {
        range := range.Resize(size);
      } else {
        range := range.Resize(0);
      }
    }

    /**
     * GroupArray::add: a molecule `g` whose size is a multiple of N is adopted
     * when the array is empty, or appended when it starts right after the
     * back; otherwise nothing changes.
     */
    method ArrayAdd(g: Range)
      requires kind.MolArray?
      modifies this`range
      ensures g.size % kind.n != 0 ==> range == old(range)
      ensures g.size % kind.n == 0 && old(range).IsEmpty() ==> range == g
      ensures g.size % kind.n == 0 && !old(range).IsEmpty() && g.front == old(range).Back() + 1 ==>
                range == Range(old(range).front, old(range).size + g.size)
      ensures g.size % kind.n == 0 && !old(range).IsEmpty() && g.front != old(range).Back() + 1 ==>
                range == old(range)
      ensures old(range).size % kind.n == 0 ==> range.size % kind.n == 0
    {
      if g.size % kind.n == 0 {
        if range.IsEmpty() {
          range := RangeOf(g.front, g.Back());
        } else if g.front == range.Back() + 1 {
          if range.size % kind.n == 0 {
            ModSum(range.size, g.size, kind.n);
          }
          range := range.SetBack(g.Back());
        }
      }
    }

    /** GroupArray[i]: selects the i-th molecule, `[front + i*N, front + i*N + N - 1]`. */
    method Select(i: int)
      requires kind.MolArray? && 0 <= i < NumMolecules()
      modifies this`sel
      ensures sel == Range(range.front + i * kind.n, kind.n)
      ensures range.Contains(sel.front) && range.Contains(sel.Back())
    {
      SliceInside(range.size, kind.n, i);
      sel := sel.SetFront(range.front + i * kind.n);
      sel := sel.SetBack(sel.front + kind.n - 1);
    }
  }

  // ---------------------------------------------------------------- lemmas

  lemma ModSum(a: int, b: int, n: PosInt)
    requires a % n == 0 && b % n == 0
    ensures (a + b) % n == 0
  {
    var qa, qb := a / n, b / n;
    assert a == qa * n;
    assert b == qb * n;
    assert a + b == (qa + qb) * n;
    MultipleMod(qa + qb, n);
  }

  lemma MultipleMod(k: int, n: PosInt)
    ensures (k * n) % n == 0
  {
    var q, m := (k * n) / n, (k * n) % n;
    assert k * n == q * n + m;
    var d := k - q;
    assert d * n == m;
  }

  /** Molecule `i < size / n` ends inside a range of `size` indices. */
  lemma SliceInside(size: nat, n: PosInt, i: int)
    requires 0 <= i < size / n
    ensures 0 <= i * n && i * n + n <= size
  {
    var q := size / n;
    assert q * n <= size;
    assert i + 1 <= q;
    assert (i + 1) * n <= q * n;
  }

  /** Distinct molecules of an array do not overlap: molecule `i` ends before molecule `j` starts. */
  lemma SlicesDisjoint(n: PosInt, i: int, j: int)
    requires 0 <= i < j
    ensures i * n + n <= j * n
  {
    assert i + 1 <= j;
    assert (i + 1) * n <= j * n;
  }

  /** Every offset `k` of the range lies in molecule `k / n`. */
  lemma SlicesCover(n: PosInt, k: nat)
    ensures (k / n) * n <= k < (k / n) * n + n
  {
  }

  /** Charge is additive over adjacent ranges. */
  lemma {:induction false} ChargeSplit(p: seq<Particle>, lo: int, mid: int, hi: int)
    requires 0 <= lo <= mid <= hi <= |p|
    ensures ChargeSum(p, lo, hi) == ChargeSum(p, lo, mid) + ChargeSum(p, mid, hi)
    decreases hi - mid
  {
    if hi > mid {
      ChargeSplit(p, lo, mid, hi - 1);
    }
  }

  /** Charge depends only on the particles inside the range. */
  lemma {:induction false} ChargeLocal(p: seq<Particle>, q: seq<Particle>, lo: int, hi: int)
    requires 0 <= lo && hi <= |p| && hi <= |q|
    requires forall i :: lo <= i < hi ==> p[i].charge == q[i].charge
    ensures ChargeSum(p, lo, hi) == ChargeSum(q, lo, hi)
    decreases hi - lo
  {
    if hi > lo {
      ChargeLocal(p, q, lo, hi - 1);
    }
  }

  /** The atomic total is the sum of the counts before the first non-positive entry. */
  lemma {:induction false} LeadingTotalIsPrefixSum(counts: seq<int>, k: nat)
    requires k <= |counts|
    requires forall i :: 0 <= i < k ==> counts[i] > 0
    requires k < |counts| ==> counts[k] <= 0
    ensures LeadingTotal(counts) == Sum(counts[..k])
    decreases k
  {
    if k == 0 {
    } else {
      LeadingTotalIsPrefixSum(counts[1..], k - 1);
      SumFront(counts[..k]);
      assert counts[..k][1..] == counts[1..][..k - 1];
    }
  }

  /** `Sum` also peels off the first element. */
  lemma {:induction false} SumFront(s: seq<int>)
    requires |s| > 0
    ensures Sum(s) == s[0] + Sum(s[1..])
    decreases |s|
  {
    if |s| > 1 {
      SumFront(s[..|s| - 1]);
      assert s[..|s| - 1][1..] == s[1..][..|s| - 2];
    }
  }
}
