/** The electron shell allocator, `makeElectronsForElement`. */
module Shells {

  /** One orbiting electron: orbit radius, current angle (radians) and angular speed (radians per second). */
  datatype Electron = Electron(radius: real, angle: real, speed: real)

  const SHELL_COUNT: nat := 4
  const SHELL_CAP: seq<nat> := [2, 8, 8, 18]
  const SHELL_RADII: seq<real> := [30.0, 50.0, 70.0, 90.0]
  /** Atomic numbers above this are drawn with this many electrons. */
  const VISUAL_CAP: int := 24
  /** The single-precision constant `makeElectronsForElement` uses for pi. */
  const PI_F: real := 3.1415926

  function Min(a: int, b: int): int
  {
    if a <= b then a else b
  }

  function Max(a: int, b: int): int
  {
    if a >= b then a else b
  }

  /** The number of electrons an atomic number is drawn with. */
  function Capped(atomicNumber: int): nat
  {
    Max(0, Min(atomicNumber, VISUAL_CAP))
  }

  /** Sign and magnitude of a shell's angular speed before jitter. */
  function BaseSpeed(s: nat): real
  {
    (if s % 2 == 0 then 0.8 else -0.5) * (1.0 - (s as real) * 0.1)
  }

  /** The random variance added to each speed, from one `std::rand()` draw. */
  function Jitter(draw: nat): real
  {
    (((draw % 100) as real) / 100.0 - 0.5) * 0.2
  }

  function InitialAngle(i: nat, inShell: int): real
  {
    (2.0 * PI_F * (i as real)) / (Max(1, inShell) as real)
  }

  /** Electron `i` of the `inShell` electrons placed in shell `s`. */
  function ShellElectron(s: nat, i: nat, inShell: int, draw: nat): Electron
    requires s < SHELL_COUNT
  {
    Electron(SHELL_RADII[s], InitialAngle(i, inShell), BaseSpeed(s) + Jitter(draw))
  }

  /**
   * The first `count` electrons of shell `s`, which holds `inShell` in all;
   * `base` electrons were created before them, so their draws start at `roll(base)`.
   */
  function ShellRun(s: nat, count: nat, inShell: int, base: nat, roll: nat -> nat): seq<Electron>
    requires s < SHELL_COUNT
  {
    seq(count, i requires 0 <= i < count => ShellElectron(s, i, inShell, roll(base + i)))
  }

  /** A run grows by one electron at a time, as the inner loop of `makeElectronsForElement` does. */
  lemma ShellRunExtend(s: nat, count: nat, inShell: int, base: nat, roll: nat -> nat)
    requires s < SHELL_COUNT
    ensures ShellRun(s, count + 1, inShell, base, roll) ==
            ShellRun(s, count, inShell, base, roll) + [ShellElectron(s, count, inShell, roll(base + count))]
  {
  }

  /**
   * Reference definition: how many electrons each shell receives, in closed
   * form. Every shell is filled to capacity before the next receives any.
   */
  function ShellCounts(atomicNumber: int): (c: seq<nat>)
    ensures |c| == SHELL_COUNT
    ensures forall s :: 0 <= s < SHELL_COUNT ==> c[s] <= SHELL_CAP[s]
    ensures forall s :: 0 < s < SHELL_COUNT && c[s] > 0 ==> c[s - 1] == SHELL_CAP[s - 1]
    ensures c[0] + c[1] + c[2] + c[3] == Capped(atomicNumber)
  {
    var m := Capped(atomicNumber);
    var c0 := Min(m, 2);
    var c1 := Min(m - c0, 8);
    var c2 := Min(m - c0 - c1, 8);
    [c0, c1, c2, m - c0 - c1 - c2]
  }

  /** Number of electrons in the shells before shell `s`. */
  function ShellOffset(c: seq<nat>, s: nat): nat
    requires s <= |c|
  {
    if s == 0 then 0 else ShellOffset(c, s - 1) + c[s - 1]
  }

  /** The first `s` shells, each holding the number of electrons `c` gives it. */
  function Shells(c: seq<nat>, s: nat, roll: nat -> nat): seq<Electron>
    requires |c| == SHELL_COUNT && s <= SHELL_COUNT
  {
    if s == 0 then []
    else Shells(c, s - 1, roll) + ShellRun(s - 1, c[s - 1], c[s - 1], ShellOffset(c, s - 1), roll)
  }

  /** The electrons allocated for an atomic number, given the `k`-th random draw `roll(k)`. */
  function Allocation(atomicNumber: int, roll: nat -> nat): seq<Electron>
  {
    Shells(ShellCounts(atomicNumber), SHELL_COUNT, roll)
  }

  /** Pass `s` of the outer loop places `min(remaining, cap[s])` electrons, and that is `ShellCounts(n)[s]`. */
  lemma ShellCountIsStep(atomicNumber: int, s: nat)
    requires s < SHELL_COUNT
    ensures var c := ShellCounts(atomicNumber);
      c[s] == Max(0, Min(Min(atomicNumber, VISUAL_CAP) - ShellOffset(c, s), SHELL_CAP[s]))
  {
    var c := ShellCounts(atomicNumber);
    assert SHELL_CAP[0] == 2 && SHELL_CAP[1] == 8 && SHELL_CAP[2] == 8 && SHELL_CAP[3] == 18;
    assert ShellOffset(c, 1) == c[0];
    assert ShellOffset(c, 2) == c[0] + c[1];
    assert ShellOffset(c, 3) == c[0] + c[1] + c[2];
  }

  lemma {:induction false} ShellsSize(c: seq<nat>, s: nat, roll: nat -> nat)
    requires |c| == SHELL_COUNT && s <= SHELL_COUNT
    ensures |Shells(c, s, roll)| == ShellOffset(c, s)
  {
    if s > 0 {
      ShellsSize(c, s - 1, roll);
    }
  }

  /** Electron `i` of shell `j` sits at position `ShellOffset(c, j) + i`. */
  lemma {:induction false} ShellsMember(c: seq<nat>, s: nat, roll: nat -> nat, j: nat, i: nat)
    requires |c| == SHELL_COUNT && j < s <= SHELL_COUNT && i < c[j]
    ensures var k := ShellOffset(c, j) + i;
      k < |Shells(c, s, roll)| && Shells(c, s, roll)[k] == ShellElectron(j, i, c[j], roll(k))
  {
    ShellsSize(c, s - 1, roll);
    if j < s - 1 {
      ShellsMember(c, s - 1, roll, j, i);
    }
  }

  /** Once nothing is left to place, the remaining shells are empty. */
  lemma {:induction false} ShellsRestEmpty(atomicNumber: int, s: nat, roll: nat -> nat)
    requires s <= SHELL_COUNT
    requires Min(atomicNumber, VISUAL_CAP) <= ShellOffset(ShellCounts(atomicNumber), s)
    ensures Allocation(atomicNumber, roll) == Shells(ShellCounts(atomicNumber), s, roll)
  {
    var c := ShellCounts(atomicNumber);
    OffsetTotal(c);
    var j := s;
    while j < SHELL_COUNT
      invariant s <= j <= SHELL_COUNT
      invariant ShellOffset(c, j) == ShellOffset(c, s)
      invariant Shells(c, j, roll) == Shells(c, s, roll)
    {
      OffsetMonotone(c, j + 1, SHELL_COUNT);
      assert c[j] == 0;
      assert ShellRun(j, 0, 0, ShellOffset(c, j), roll) == [];
      j := j + 1;
    }
  }

  lemma OffsetTotal(c: seq<nat>)
    requires |c| == SHELL_COUNT
    ensures ShellOffset(c, SHELL_COUNT) == c[0] + c[1] + c[2] + c[3]
  {
    assert ShellOffset(c, 1) == c[0];
    assert ShellOffset(c, 2) == c[0] + c[1];
    assert ShellOffset(c, 3) == c[0] + c[1] + c[2];
  }

  lemma {:induction false} OffsetMonotone(c: seq<nat>, s: nat, t: nat)
    requires s <= t <= |c|
    ensures ShellOffset(c, s) <= ShellOffset(c, t)
  {
    if s < t {
      OffsetMonotone(c, s, t - 1);
    }
  }

  /** Exactly `min(n, 24)` electrons for `n >= 0`, and none for `n <= 0`. */
  lemma AllocationSize(atomicNumber: int, roll: nat -> nat)
    ensures |Allocation(atomicNumber, roll)| == Capped(atomicNumber)
    ensures atomicNumber <= 0 ==> Allocation(atomicNumber, roll) == []
  {
    var c := ShellCounts(atomicNumber);
    ShellsSize(c, SHELL_COUNT, roll);
    OffsetTotal(c);
  }

  /**
   * Electron `i` of shell `s` sits at position `ShellOffset(c, s) + i` of the
   * allocation, on that shell's radius, at angle `2 pi i / c[s]`.
   */
  lemma AllocationShellMember(atomicNumber: int, roll: nat -> nat, s: nat, i: nat)
    requires s < SHELL_COUNT
    requires i < ShellCounts(atomicNumber)[s]
    ensures var c := ShellCounts(atomicNumber);
      var e := Allocation(atomicNumber, roll);
      var k := ShellOffset(c, s) + i;
      k < |e| && e[k] == ShellElectron(s, i, c[s], roll(k))
      && e[k].radius == SHELL_RADII[s] && e[k].angle == InitialAngle(i, c[s])
  {
    ShellsMember(ShellCounts(atomicNumber), SHELL_COUNT, roll, s, i);
  }

  /** Hydrogen: one electron, on the innermost shell, at angle 0. */
  lemma HydrogenAllocation(roll: nat -> nat)
    ensures |Allocation(1, roll)| == 1
    ensures Allocation(1, roll)[0].radius == 30.0 && Allocation(1, roll)[0].angle == 0.0
  {
    AllocationSize(1, roll);
    AllocationShellMember(1, roll, 0, 0);
  }

  /** Atomic number 10: two electrons at radius 30, then eight at radius 50. */
  lemma TenElectronAllocation(roll: nat -> nat)
    ensures ShellCounts(10) == [2, 8, 0, 0]
    ensures |Allocation(10, roll)| == 10
    ensures forall k :: 0 <= k < 10 ==> Allocation(10, roll)[k].radius == if k < 2 then 30.0 else 50.0
  {
    AllocationSize(10, roll);
    var c := ShellCounts(10);
    assert ShellOffset(c, 1) == 2;
    forall k | 0 <= k < 10
      ensures Allocation(10, roll)[k].radius == if k < 2 then 30.0 else 50.0
    {
      if k < 2 {
        AllocationShellMember(10, roll, 0, k);
      } else {
        AllocationShellMember(10, roll, 1, k - 2);
      }
    }
  }

  /** Chlorine (17): two, eight and seven electrons in the first three shells. */
  lemma ChlorineAllocation(roll: nat -> nat)
    ensures ShellCounts(17) == [2, 8, 7, 0]
    ensures |Allocation(17, roll)| == 17
    ensures forall k :: 10 <= k < 17 ==> Allocation(17, roll)[k].radius == 70.0
  {
    AllocationSize(17, roll);
    var c := ShellCounts(17);
    assert ShellOffset(c, 2) == 10;
    forall k | 10 <= k < 17
      ensures Allocation(17, roll)[k].radius == 70.0
    {
      AllocationShellMember(17, roll, 2, k - 10);
    }
  }

  /**
   * `makeElectronsForElement`: its nested loops, filling
   * shells in order with a decrementing `remaining` counter.
   */
  method MakeElectronsForElement(atomicNumber: int, roll: nat -> nat) returns (e: seq<Electron>)
    ensures e == Allocation(atomicNumber, roll)
    ensures |e| == Capped(atomicNumber)
  {
    ghost var c := ShellCounts(atomicNumber);
    e := [];
    var remaining := Min(atomicNumber, VISUAL_CAP);
    var s: nat := 0;
    while s < SHELL_COUNT && remaining > 0
      invariant s <= SHELL_COUNT
      invariant e == Shells(c, s, roll)
      invariant remaining == Min(atomicNumber, VISUAL_CAP) - ShellOffset(c, s)
      decreases SHELL_COUNT - s
    {
      var inShell := Min(remaining, SHELL_CAP[s]);
      ShellCountIsStep(atomicNumber, s);
      ShellsSize(c, s, roll);
      ghost var e0 := e;
      var i := 0;
      while i < inShell
        invariant 0 <= i <= inShell
        invariant e == e0 + ShellRun(s, i, inShell, |e0|, roll)
      {
        var angle := (2.0 * PI_F * (i as real)) / (Max(1, inShell) as real);
        var speed := BaseSpeed(s);
        speed := speed + Jitter(roll(|e|));
        ShellRunExtend(s, i, inShell, |e0|, roll);
        assert Electron(SHELL_RADII[s], angle, speed) == ShellElectron(s, i, inShell, roll(|e0| + i));
        assert e0 + ShellRun(s, i + 1, inShell, |e0|, roll) == e + [ShellElectron(s, i, inShell, roll(|e0| + i))];
        e := e + [Electron(SHELL_RADII[s], angle, speed)];
        i := i + 1;
      }
      assert e == Shells(c, s + 1, roll);
      remaining := remaining - inShell;
      s := s + 1;
    }
    OffsetTotal(c);
    ShellsRestEmpty(atomicNumber, s, roll);
    AllocationSize(atomicNumber, roll);
  }
}
