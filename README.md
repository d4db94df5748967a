# faunus core in Dafny

This project models the core of the faunus Monte Carlo engine for molecular simulation. It covers six parts:

- **Groups** (`group.dfy`, module `Groups`). An index range over the two particle buffers of a simulation space: `p` is the accepted configuration and `trial` the speculative one. `accept` and `undo` copy one buffer into the other over the range. The model also covers `charge`, the random member, the molecule count of the four group kinds, the counting loop of `GroupAtomic::add`, and the slicing and appending of a `GroupArray`, whose size stays a multiple of its molecule size `N`. The C++ class hierarchy becomes one class whose constant `kind` records the dynamic type.
- **The isobaric volume move** (`volume.dfy`, module `Isobaric`), class `IsobaricMove`:
  - It steps ln V and checks the box-length window.
  - It scales every macromolecule and sums the pair energies over unordered pairs.
  - It computes the NPT Hamiltonian difference `dh`.
  - It ends in one of three outcomes: rejected outside the window, rejected on energy, or accepted.
  - The penalty (bias) histogram of `isobaricPenalty`: bin count, bin lookup, difference, per-bin increment, and fold-and-decay.
- **The type-switch (titration) sweep** (`switch.dfy`, module `Switch`), class `SwitchMove`. It makes one accept/reject attempt per titratable site. After every attempt it takes a sample of the fraction of sites that hold the second type. The new state after a sweep is a value-level fold `Steps` over the attempts, and the lemmas are about that fold.
- **Pair potentials** (`potentials.dfy`, module `Potentials`). Each functional form comes with the property its shape promises. Energies are `Inf | Fin(v)`, where `Inf` is the hard-core infinity. `CombinedPairPotential` is the `tokT`-weighted sum of two sub-potentials.
- **Physical constants** (`physconst.dfy`, module `PhysConst`). The temperature setting, the kT/kJ conversions, Debye to eÅ, and the Bjerrum length.
- **`IO::strip`** (`io.dfy`, module `Io`). Removes every line that contains a pattern.

Supporting modules:

- `particle.dfy` (module `Particles`) holds the shared value types: positions, particles, the energy type and the result code of a move.
- `arith.dfy` (module `RealArith`) wraps products and quotients of reals in functions that carry the sign rules.

Arithmetic is on exact reals. These are parameters of the operations that use them:

- `exp`, `log`, the cube root and `sqrt`;
- the random numbers;
- the Metropolis test of the ensemble;
- the pair energy of two macromolecules;
- the scaling of a macromolecule;
- the exchange of a titratable particle;
- the energy of one particle with the rest.

Only the basic facts the proofs need are required of these parameters: `exp` and the cube root are positive, and `sqrt` is a non-negative root.

## Model

| member | source | states |
|---|---|---|
| Groups.RangeOf | src/group.cpp:13 | the range `[front, back]` has the given front, and its back is `back` whenever `back >= front - 1` |
| Groups.Range.Indices | src/group.cpp:23 | a loop over a range visits exactly `size` indices, each inside the range, and every index of the range is visited |
| Groups.Range.SetBack | src/group.cpp:263 | setting the back keeps the front; the new back is the given one, or the range is empty when it would lie before the front |
| Groups.Group.constructor | src/group.cpp:13-17 | `Group(front, back)` starts at `front`; when `back >= front - 1` its size is `back - front + 1`; it is empty when either bound is negative |
| Groups.Group.Array | src/group.cpp:243-245 | a new array of molecules of size `N` is empty, with kind `MolArray(N)` |
| Groups.Group.Charge | src/group.cpp:21-26 | the result is the sum of the charges over the range (0 for an empty group) |
| Groups.Group.Accept | src/group.cpp:126-130 | `p[i] := trial[i]` on the range; `p` elsewhere and all of `trial` are unchanged; `cm := cm_trial` |
| Groups.Group.Undo | src/group.cpp:120-124 | `trial[i] := p[i]` on the range; `trial` elsewhere and all of `p` are unchanged; `cm_trial := cm` |
| Groups.Group.Random | src/group.cpp:143-150 | -1 for an empty group; otherwise `front + r % size`, which lies in `[front, back]` |
| Groups.Group.NumMolecules | src/group.cpp:253-256 | `size` for plain and atomic groups, 1 for a molecule, `size / N` for an array (exact when `N` divides the size) |
| Groups.Group.AddAtomic | src/group.cpp:184-209 | the group starts at the old end of the buffer, and its size is the total of the leading positive counts |
| Groups.Group.ArrayAdd | src/group.cpp:278-286 | when `g`'s size is a multiple of `N`: a molecule is adopted into an empty array and appended when it starts right after the back; in every other case nothing changes; a size that is a multiple of `N` stays one |
| Groups.Group.Select | src/group.cpp:261-268 | molecule `i < numMolecules` is `[front + i*N, front + i*N + N - 1]`, size `N`, both ends inside the array |
| Groups.SliceInside | src/group.cpp:261-268 | molecule `i < size / N` ends inside the range |
| Groups.SlicesDisjoint | src/group.cpp:261-263 | distinct molecules of an array do not overlap |
| Groups.SlicesCover | src/group.cpp:247-248 | every offset of the range lies in molecule `offset / N` |
| Groups.ChargeSplit | src/group.cpp:21-26 | charge is additive over adjacent ranges |
| Groups.ChargeLocal | src/group.cpp:21-26 | charge depends only on the particles inside the range |
| Groups.LeadingTotalIsPrefixSum | src/group.cpp:188-202 | the atomic size is the sum of the counts before the first non-positive one |
| Isobaric.Trunc | include/faunus/moves/volume.h:285 | `int(x)` truncates toward zero: within 1 of `x` on the side of 0 |
| Isobaric.CDiv | include/faunus/moves/volume.h:285 | C++ integer division by a positive divisor truncates toward zero |
| Isobaric.NumBins | include/faunus/moves/volume.h:186-188 | the bin count is the ceiling of `(maxlen - minlen) / scale` |
| Isobaric.PenDiffOf | include/faunus/moves/volume.h:276-281 | the penalty difference of two lengths in one bin is 0 |
| Isobaric.BiasTerm | include/faunus/moves/volume.h:124-125 | the penalty term of `dh` is 0 with the bias off; with the bias on and the new length inside the window, the new bin exists and the term is `penalty[bin(new)] - penalty[bin(current)]` |
| Isobaric.ScaledAll | include/faunus/moves/volume.h:114-115 | every macromolecule is scaled from the container at its current volume to the new length, and no other change is made |
| Isobaric.IsobaricMove.constructor | include/faunus/moves/volume.h:53-60 | pressure and window as given, `runfraction = 1`, `dp = 100`, counters zero, no samples, no bias |
| Isobaric.IsobaricMove.Penalty | include/faunus/moves/volume.h:180-197 | `ceil((maxlen - minlen) / scale)` bins in both tables, every bin at 1e-20, `pen = initpen = PEN`, `runfraction = 1`, bias off |
| Isobaric.IsobaricMove.StartBias | include/faunus/moves/volume.h:221-230 | the bias is on, and both tables are fresh with the bin count and every bin at 1e-20 |
| Isobaric.IsobaricMove.PenDiff | include/faunus/moves/volume.h:276-281 | `pendiff` is 0 when the new and the current length share a bin, and it is the negation of the difference for the reverse move |
| Isobaric.IsobaricMove.PenaltyEnergy | include/faunus/moves/volume.h:303-307 | 0 for the plain move and with the bias off, `pendiff` otherwise |
| Isobaric.IsobaricMove.NewVolume | include/faunus/moves/volume.h:77-82 | `newV = exp(log V + half*dp)`, set into the trial potential, with `dV = newV - V` |
| Isobaric.IsobaricMove.AcceptVolume | include/faunus/moves/volume.h:84-91 | `naccept + 1`, `rc = OK`, `utot += du`, `dpsqr += newV^(1/3)`; the container and the live potential move to `newV` |
| Isobaric.IsobaricMove.UpdateVars | include/faunus/moves/volume.h:93-100 | one sample each of V, 1/V, L and 1/L, for the current volume |
| Isobaric.IsobaricMove.PenaltyUpdateVars | include/faunus/moves/volume.h:297-301 | the base samples, plus `pen` added to the current bin of `newpenalty` only when `pen != 0` |
| Isobaric.IsobaricMove.UpdatePenalty | include/faunus/moves/volume.h:289-295 | `penalty` gains `newpenalty` element-wise, `newpenalty` becomes all zero, `pen *= scalepen` |
| Isobaric.IsobaricMove.ScaleGroups | include/faunus/moves/volume.h:114-115 | the trial configuration becomes every macromolecule scaled, from the container at its current volume, to the new length |
| Isobaric.IsobaricMove.PairEnergies | include/faunus/moves/volume.h:116-122 | `uold` and `unew` are the sums over all unordered pairs, on the accepted configuration with the live potential and on the trial configuration with the trial potential |
| Isobaric.IsobaricMove.AcceptGroups | include/faunus/moves/volume.h:129-130 | the accepted configuration becomes the trial one |
| Isobaric.IsobaricMove.UndoGroups | include/faunus/moves/volume.h:136-137 | the trial configuration is reset to the accepted one |
| Isobaric.IsobaricMove.Move | include/faunus/moves/volume.h:104-145 | the whole move. A failed run test returns 0 and changes nothing. Otherwise `cnt + 1`, one new volume and one sample of each average. Outside the window: returns 0 and leaves energy, acceptance, volume and configurations alone. Inside: `du` is the pair-energy difference and `dh = du + P dV - (N+1) ln(newV/V) + bias`. Acceptance moves volume, potential and configuration to the trial ones and returns `du`; rejection undoes the trial and returns 0 |
| Isobaric.IsobaricMove.Attempt | include/faunus/moves/volume.h:108-145 | the same three outcomes for a move past the run test |
| Isobaric.IsobaricMove.Begin | include/faunus/moves/volume.h:105-110 | `du = 0`, `cnt + 1`, and the new volume drawn |
| Isobaric.IsobaricMove.OutOfWindow | include/faunus/moves/volume.h:141-144 | returns `du` (0), `dpsqr` unchanged, and one sample of each average |
| Isobaric.IsobaricMove.InWindow | include/faunus/moves/volume.h:112-140 | the accept-or-undo outcome of the `WindowOutcome` predicate, with one sample of each average taken after the decision |
| Isobaric.IsobaricMove.ProposeEnergy | include/faunus/moves/volume.h:113-125 | trial is the scaled configuration, `du = unew - uold` and `dh = du + P dV - (N+1) ln(newV/V) + penaltyEnergy` |
| Isobaric.IsobaricMove.Decide | include/faunus/moves/volume.h:126-139 | Metropolis on `dh`. Accept: `naccept + 1`, `utot += du`, `rc = OK`, the container and potential at `newV`, `p := trial`, returns `du`. Reject: `rc = ENERGY`, `trial := p`, nothing else changes, returns 0 |
| Isobaric.BinInWindow | include/faunus/moves/volume.h:278-287 | a box length strictly inside the window has its bin (`penbin` for the current length) in `[0, nbins)` |
| Isobaric.PenDiffTelescopes | include/faunus/moves/volume.h:276-281 | penalty differences telescope and are antisymmetric |
| Isobaric.TotalAdd | include/faunus/moves/volume.h:289-293 | folding `newpenalty` into `penalty` conserves the total penalty |
| Isobaric.TotalBump | include/faunus/moves/volume.h:299-300 | adding `pen` to one bin raises the total by exactly `pen` |
| Isobaric.TotalZeros | include/faunus/moves/volume.h:292 | the zeroed table has total 0 |
| Isobaric.PairsOfFew | include/faunus/moves/volume.h:117-121 | fewer than two macromolecules have no pair energy; two have exactly their one pair |
| Isobaric.RowSumLocal | include/faunus/moves/volume.h:118-121 | a row of the pair sum reads only the macromolecules up to its end |
| Isobaric.PairTotalAppend | include/faunus/moves/volume.h:117-121 | adding a macromolecule adds exactly its pair energies with each of the earlier ones |
| Potentials.HarmonicEnergy | include/faunus/potentials.h:73-76 | `k d d` is non-negative for `k >= 0`, zero at `d = 0` and positive off it for `k > 0` |
| Potentials.HardSphereEnergy | include/faunus/potentials.h:88-93 | infinite exactly when `r2 < mindist^2`, 0 otherwise |
| Potentials.LennardJonesEnergy | include/faunus/potentials.h:119-122 | `eps (x^2 - x)` is positive inside contact, zero at contact and negative beyond it |
| Potentials.LennardJonesR12Energy | include/faunus/potentials.h:132-135 | `eps x x` is non-negative for `eps >= 0` |
| Potentials.R12RepulsionEnergy | include/faunus/potentials.h:222-225 | `eps (x x)` is non-negative for `eps >= 0` |
| Potentials.SquareWellEnergy | include/faunus/potentials.h:149-154 | `-depth` exactly when `r2 < d^2`, 0 otherwise |
| Potentials.SoftRepulsionEnergy | include/faunus/potentials.h:195-202 | infinite exactly when `r2 <= d^2`, so contact counts as overlap; otherwise positive for `sigma6 > 0` |
| Potentials.CoulombEnergy | include/faunus/potentials.h:263-265 | `za zb / r` is 0 for a neutral particle, positive for like charges and negative for unlike ones |
| Potentials.Weighted | include/faunus/potentials.h:334-336 | `t1 e1 + t2 e2`, infinite when either part is infinite |
| Potentials.Combine | include/faunus/potentials.h:328-330 | the name is `name1 + "+" + name2`, the parts are held by value, and the own scale is 1 |
| Potentials.CombinedSetScale | include/faunus/potentials.h:323-326 | `_setScale` of a combination changes nothing |
| Potentials.HardSphereOverlap | include/faunus/potentials.h:88-93 | for two particles, coincident ones included: infinite iff the distance is below contact; exact contact costs 0 |
| Potentials.SoftRepulsionSign | include/faunus/potentials.h:195-202 | for two particles, coincident ones included: infinite iff the distance is at or inside contact; positive beyond it for `sigma6 > 0` |
| Potentials.SquareWellRange | include/faunus/potentials.h:149-154 | for two particles: `-depth` iff the distance is below `ra + rb + threshold`, 0 otherwise |
| Potentials.SquareWellHydrophobicIsGated | include/faunus/potentials.h:176-181 | equal to the square well when both particles are hydrophobic, 0 otherwise |
| Potentials.LennardJonesShape | include/faunus/potentials.h:119-122 | for two particles: repulsive inside contact, zero at contact, attractive beyond |
| Potentials.LennardJonesSplit | include/faunus/potentials.h:132-135 | the two R12 forms agree, and `LJ - R12 = -eps x` |
| Potentials.HarmonicMinimum | include/faunus/potentials.h:73-76 | for two particles: non-negative for `k >= 0`, zero at `sqrt(r2) == req` |
| Potentials.CoulombSymmetric | include/faunus/potentials.h:263-265 | Coulomb is symmetric in its two particles |
| Potentials.CombinedIsScaledSum | include/faunus/potentials.h:334-336 | a combination returns exactly `sr1.tokT() sr1(a, b, r2) + sr2.tokT() sr2(a, b, r2)`, and infinity in either part makes it infinite |
| Potentials.CombineAssociative | include/faunus/potentials.h:328-336 | left and right nesting give equal names and equal energies |
| Potentials.HardCoreDominates | include/faunus/potentials.h:88-93 | an overlapping hard-sphere term anywhere in a combination makes the whole energy infinite |
| Switch.SwitchMove.constructor | src/moves/switch.cpp:21-28 | run fraction 1, and the trial configuration is a copy of the accepted one |
| Switch.CopyToTrial | src/moves/switch.cpp:27 | `trial` becomes equal to `p`, and `p` is unchanged |
| Switch.SwitchMove.SampleSites | src/moves/switch.cpp:74-81 | `n` is the number of sites whose particle has type `fType2`, and one sample `n / sites.size()` is appended |
| Switch.SwitchMove.TitrateAll | src/moves/switch.cpp:35-72 | the new state is the sweep `Steps` over every site, `utot` rises by exactly the returned sum, and `du` is 0 with no sites and otherwise the energy difference of the last attempt |
| Switch.SwitchMove.AttemptSite | src/moves/switch.cpp:41-69 | one attempt. The trial particle is exchanged and `du` is the change of its energy, kept after the attempt. Accept: `p` is exchanged too, `naccept + 1`, `utot += du`, and `du` is added to the sum. Reject: the trial is exchanged back. Either way `cnt + 1` and one sample |
| Switch.StepsCount | src/moves/switch.cpp:40-41 | a sweep over `n` sites adds exactly `n` to `cnt`, exactly `n` samples, and at most `n` acceptances |
| Switch.StepEnergy | src/moves/switch.cpp:59-67 | `utot` changes only on acceptance and then by `du`; on rejection `p`, `utot` and `naccept` stay |
| Switch.RejectedLeaveAlone | src/moves/switch.cpp:65-67 | when the test rejects everything, a sweep leaves `p`, `utot` and `naccept` alone |
| Switch.TrialFollowsAccepted | src/moves/switch.cpp:59-68 | when exchange is its own inverse and `trial == p` at the start, `trial == p` after every attempt |
| Switch.CountAtMostSites | src/moves/switch.cpp:76-78 | the count never exceeds the number of sites |
| Switch.FractionInUnit | src/moves/switch.cpp:80 | every sample lies in `[0, 1]` |
| Switch.SamplesInUnit | src/moves/switch.cpp:69 | all the samples a sweep adds lie in `[0, 1]` |
| Switch.ShortIncrement | src/moves/switch.cpp:40 | `i++` on an `unsigned short` stays in `[0, 65536)` |
| Switch.ShortIndexNeverExits | src/moves/switch.cpp:40 | as written, the index after `k` iterations is `k mod 65536`, so with 65536 sites or more the loop never ends |
| PhysConst.PhysicalConstants.constructor | include/faunus/physconst.h:72-73 | constructing with `t` makes `T() == t` |
| PhysConst.PhysicalConstants.Default | include/faunus/physconst.h:69 | constructing without a temperature, or before any is set, gives `T() == 298.15`, the initial value of `_T` and the default of the constructor's argument (line 23) |
| PhysConst.PhysicalConstants.SetT | include/faunus/physconst.h:75-76 | after `setT(t)`, `T() == t` |
| PhysConst.PhysicalConstants.KT2kJ | include/faunus/physconst.h:86 | `kT2kJ(u)`, with `u = 1` by default (line 33), is `u` times the molar value of one kT, and equals `u R T / 1000` |
| PhysConst.PhysicalConstants.KJ2kT | include/faunus/physconst.h:88-89 | `kJ2kT(u)`, with `u = 1` by default (line 34), is `u / kT2kJ(1)`, and `kT2kJ` of the result gives `u` back |
| PhysConst.PhysicalConstants.LB | include/faunus/physconst.h:81-83 | `lB(e_r)` times `4 pi e0 e_r 1e-10 kB T` is `e^2`, and it is positive for positive `e_r` and `T` |
| PhysConst.BjerrumScale | include/faunus/physconst.h:82 | the constant factor `4 pi e0 1e-10 kB` of the Bjerrum denominator is positive |
| PhysConst.KTtoKJUnit | include/faunus/physconst.h:88-89 | `kT2kJ(1)` is non-zero at a non-zero temperature and positive at a positive one |
| PhysConst.KTtoKJScales | include/faunus/physconst.h:86 | `kT2kJ(u) = u kT2kJ(1)` |
| PhysConst.KTtoKJLinear | include/faunus/physconst.h:86 | `kT2kJ` is additive and homogeneous in `u` |
| PhysConst.KTtoKJMolar | include/faunus/physconst.h:65-66 | `kT2kJ(u) = u R T / 1000`, with `R = kB Nav` |
| PhysConst.KJ2kTRoundTrip | include/faunus/physconst.h:86-89 | `kJ2kT` and `kT2kJ` undo each other at any non-zero temperature |
| PhysConst.D2eA | include/faunus/physconst.h:92 | `D2eA(d)`, with `d = 1` by default (line 37), has the sign of `d`, and dividing by 0.20819434 gives `d` back |
| PhysConst.D2eALinear | include/faunus/physconst.h:92 | `D2eA` is linear with `D2eA(1) = 0.20819434` |
| PhysConst.BjerrumPositive | include/faunus/physconst.h:81-83 | the Bjerrum length is positive for positive `T` and `e_r` |
| PhysConst.BjerrumHalves | include/faunus/physconst.h:81-83 | doubling the temperature halves the Bjerrum length |
| Io.Find | include/faunus/io.h:66 | `find` returns the first occurrence at or after the start, or -1 (`npos`) when there is none |
| Io.Matches | include/faunus/io.h:66 | `find(pat) != npos` holds exactly when the line contains `pat` |
| Io.Strip | include/faunus/io.h:63-69 | the result is the lines that do not contain `pat`, in order |
| Io.FilterNoneLeft | include/faunus/io.h:63-69 | no remaining line contains the pattern |
| Io.FilterCounts | include/faunus/io.h:63-69 | every line that does not contain the pattern is kept as often as it occurs; every line that does is removed |
| Io.FilterSubsequence | include/faunus/io.h:63-69 | the kept lines keep their relative order |
| Io.FilterIdempotent | include/faunus/io.h:63-69 | stripping twice equals stripping once |
| Io.EmptyPatternStripsAll | include/faunus/io.h:66-67 | with the empty pattern every line matches, so the list becomes empty |

## Left out

- Geometry is not modelled: mass centres, `rotate`, `translate`, `scale`, `GroupMolecular::scale`, `GroupArray::scale` and `dipolemoment` (src/group.cpp:71-118, 218-235, 288-294). They depend on the geometry and the quaternion code, which are not part of this model. Particles and mass centres are opaque values.
- The group string builders and stream operators are not modelled (`info`, `write`, `operator<<`, src/group.cpp:28-65). They are I/O only.
- `GroupAtomic::add` inserts particles into the space by atom name. That is a call into the species table and the space, which are not part of this model. The model keeps the counting loop and the resulting range, and reads the `nionX` counts as a sequence.
- Groups.Group.constructor: `Range` is not part of this model. A range reversed by more than one, such as `Group(5, 2)`, where the source passes the size `back - front + 1 < 0` to `Range`, is modelled as empty.
- `isAtomic` and `isMolecular` are the predicates `IsAtomic` and `IsMolecular` on `kind`, with no contract of their own.
- Isobaric: the OpenMP reduction over pairs (include/faunus/moves/volume.h:116) is treated as a sequential sum. This leaves out concurrency.
- Isobaric: `info`, `check`, `printpenalty` and `printupdatedpenalty` are left out, as is the file-reading part of `loadpenaltyfunction`. They are I/O. `StartBias` models only the part of `loadpenaltyfunction` that switches the bias on and resets both tables.
- Isobaric: `updateVars` is not virtual in the base class (include/faunus/moves/volume.h:35). So `move` always calls the base version, and `isobaricPenalty::updateVars` is reached only by a direct call. The model follows the code: `Move` uses `UpdateVars`, and `PenaltyUpdateVars` is a separate method that `Move` never calls.
- Isobaric.IsobaricMove.Move: requires `BiasReady`, meaning a bin exists for the current box length when the bias is on. The source indexes the table without a check.
- Isobaric.IsobaricMove.Penalty: requires `sc > 0` and `minsize <= maxsize`. The source divides by `scale` and would size the tables with a negative count otherwise.
- Isobaric.IsobaricMove.PenaltyUpdateVars: requires the current bin to exist when `pen != 0`. The source indexes unchecked.
- Isobaric and Switch: the counters `cnt`, `naccept`, `utot` and `rc` belong to the base class `markovmove`, which is not part of this model. The constructors start them at zero (and `rc` unset), as that base class is assumed to do.
- Isobaric: `isobaricmove` of a macromolecule is the parameter `scaleFn`. It sees the molecule, the container's current volume and the new box length. The rest of the container is not passed to it.
- Isobaric: the live pair potential and its trial copy are modelled only by the volume each is set to. Energies are the parameter `e`, applied at that volume.
- Trunc and CDiv model the C++ `int(...)` conversion and integer `/`. Double rounding is not modelled.
- Switch: `exchange`, `energy(con, du)` and `ens->metropolis` come from headers that are not part of this model. They are the parameters `swap`, `pot`, `ham` and `metropolis` of `Env`. The random choice of a site is the sequence `picks`.
- Switch: `uold` and `unew` are members in the source. The model keeps them as locals of `AttemptSite`; no other code reads them.
- Switch: `info` is left out (I/O).
- Switch.SwitchMove.SampleSites: requires at least one site. With no sites the source adds the NaN sample `0.0/0.0`, which reals cannot express. `TitrateAll` never calls it then, because it makes no attempts.
- Potentials: `DebyeHuckel`, the constructors reading an `InputMap`, `brief`, `info` and `setTemperature` are left out. They depend on `exp`, on input files or on code that is not part of this model.
- Potentials: `PairEnergy` requires `r2 > 0` only for the forms that divide by the distance: Lennard-Jones, both R12 forms and Coulomb, and any combination holding one of them (predicate `DividesByDistance`). At `r2 = 0` these divide by zero in the source. Harmonic, hard sphere, both square wells and soft repulsion are modelled at `r2 = 0` as well. `PairEnergy` also requires positive `tokT` scales in a combination, because a non-positive `tokT` has no physical meaning.
- PhysConst: `pi` is `acos(-1.)`, the double nearest to pi. The model writes it to the digits that double prints with, 3.141592653589793, which is not its exact binary value. `infty` is the `Inf` constructor of the energy type.
- PhysConst.PhysicalConstants.KJ2kT: requires `T != 0`. At `T = 0` the source divides by zero and returns infinity or NaN.
- PhysConst.PhysicalConstants.LB: requires `e_r != 0` and `T != 0`, for the same reason.
- PhysConst: `_T` is a static member of the class. The model keeps it as a field of one `PhysicalConstants` object that every user shares.
- Io: `v.erase(iter)` without reassigning `iter` invalidates the iterator. `Strip` models the evident intent: after an erase, the walk goes on at the line that moved into the erased place.
- Io: the `Format*` classes and `IO::readFile` / `writeFile` are left out (file and XDR I/O).
- Floating-point effects are not modelled anywhere: rounding, NaN and overflow. `exp`, `log`, `sqrt` and the cube root are uninterpreted parameters.

## Findings

| source | as written | input that shows it | evidently intended | confidence | as-written member | corrected member |
|---|---|---|---|---|---|---|
| src/moves/switch.cpp:40 | the sweep counter is `unsigned short i`, compared with `sites.size()` | 65536 or more titratable sites: `i++` wraps from 65535 to 0, so `i < sites.size()` always holds and the sweep never ends | one attempt per site, then return the sum | medium, not executed | Switch.ShortIndexNeverExits | Switch.SwitchMove.TitrateAll |
