/** The Keccak-f[1600] permutation of FIPS 202, sections 3.2 to 3.4, and the in-place form that lets
    the lanes of the state wander through four unrolled rounds instead of moving them back. */
module Keccak {

  type Lane = bv64

  function Xor(a: Lane, b: Lane): Lane
  {
    a ^ b
  }

  function Or(a: Lane, b: Lane): Lane
  {
    a | b
  }

  function Up(a: Lane, k: bv6): Lane
  {
    a << k
  }

  function Down(a: Lane, k: bv6): Lane
  {
    a >> k
  }

  /** Rotation towards the higher bits, by two shifts; in the six bits of the amount, 64 - k is -k. */
  function Rol(a: Lane, k: bv6): Lane
  {
    Or(Up(a, k), Down(a, -k))
  }

  /** An offset in six bits: doubling drops what no longer fits. */
  function Amount(k: nat): bv6
  {
    if k == 0 then 0 else (Amount(k / 2) << 1) | (if k % 2 == 1 then 1 else 0)
  }

  function Turn(a: Lane, k: nat): Lane
    requires k < 64
  {
    if k == 0 then a else Rol(a, Amount(k))
  }

  /** The nonlinear mix of three neighbours in a row. */
  function Mix(a: Lane, b: Lane, c: Lane): Lane
  {
    a ^ ((!b) & c)
  }

  // ----- the permutation as the standard defines it -----

  /** Coordinates are taken modulo 5. */
  type Coord = n: nat | n < 5

  function Wrap(n: nat): Coord
  {
    if n < 5 then n
    else if n < 10 then n - 5
    else if n < 15 then n - 10
    else if n < 20 then n - 15
    else if n < 25 then n - 20
    else if n < 30 then n - 25
    else n % 5
  }

  lemma WrapMod(n: nat)
    ensures Wrap(n) == n % 5
  {
  }

  /** A state: lane (x, y) is at index 5y + x. */
  type State = s: seq<Lane> | |s| == 25 witness seq(25, i => 0)

  function At(a: State, x: Coord, y: Coord): Lane
  {
    a[5 * y + x]
  }

  lemma Index(x: Coord, y: Coord)
    ensures Wrap(5 * y + x) == x && (5 * y + x) / 5 == y
  {
    WrapMod(5 * y + x);
  }

  lemma SameState(a: State, b: State)
    requires forall x: Coord, y: Coord :: At(a, x, y) == At(b, x, y)
    ensures a == b
  {
    forall i | 0 <= i < 25
      ensures a[i] == b[i]
    {
      assert At(a, i % 5, i / 5) == At(b, i % 5, i / 5);
    }
  }

  function Column(a: State, x: Coord): Lane
  {
    Xor(Xor(Xor(Xor(At(a, x, 0), At(a, x, 1)), At(a, x, 2)), At(a, x, 3)), At(a, x, 4))
  }

  /** What two columns bring to the one between them. */
  function Beside(left: Lane, right: Lane): Lane
  {
    Xor(left, Rol(right, 1))
  }

  function ThetaEffect(a: State, x: Coord): Lane
  {
    Beside(Column(a, Wrap(x + 4)), Column(a, Wrap(x + 1)))
  }

  /** Each lane is mixed with the parity of two neighbouring columns. */
  function ThetaLane(a: State, x: Coord, y: Coord): Lane
  {
    Xor(At(a, x, y), ThetaEffect(a, x))
  }

  function Theta(a: State): State
  {
    seq(25, i requires 0 <= i < 25 => ThetaLane(a, Wrap(i), i / 5))
  }

  lemma ThetaAt(a: State, x: Coord, y: Coord)
    ensures At(Theta(a), x, y) == ThetaLane(a, x, y)
  {
    hide ThetaLane, Wrap;
    Index(x, y);
  }

  /** The offsets of FIPS 202, table 2, reduced modulo the lane size. */
  function Offset(x: Coord, y: Coord): (k: nat)
    ensures k < 64
  {
    match y
    case 0 => [0, 1, 62, 28, 27][x]
    case 1 => [36, 44, 6, 55, 20][x]
    case 2 => [3, 10, 43, 25, 39][x]
    case 3 => [41, 45, 15, 21, 8][x]
    case _ => [18, 2, 61, 56, 14][x]
  }

  /** Each lane is rotated by its offset. */
  function RhoLane(a: State, x: Coord, y: Coord): Lane
  {
    Turn(At(a, x, y), Offset(x, y))
  }

  function Rho(a: State): State
  {
    seq(25, i requires 0 <= i < 25 => RhoLane(a, Wrap(i), i / 5))
  }

  lemma RhoAt(a: State, x: Coord, y: Coord)
    ensures At(Rho(a), x, y) == RhoLane(a, x, y)
  {
    hide RhoLane, Wrap;
    Index(x, y);
  }

  /** The lanes change places. */
  function PiLane(a: State, x: Coord, y: Coord): Lane
  {
    At(a, Wrap(x + 3 * y), x)
  }

  function Pi(a: State): State
  {
    seq(25, i requires 0 <= i < 25 => PiLane(a, Wrap(i), i / 5))
  }

  lemma PiAt(a: State, x: Coord, y: Coord)
    ensures At(Pi(a), x, y) == PiLane(a, x, y)
  {
    hide PiLane, Wrap;
    Index(x, y);
  }

  /** Each row is mixed. */
  function ChiLane(a: State, x: Coord, y: Coord): Lane
  {
    Mix(At(a, x, y), At(a, Wrap(x + 1), y), At(a, Wrap(x + 2), y))
  }

  function Chi(a: State): State
  {
    seq(25, i requires 0 <= i < 25 => ChiLane(a, Wrap(i), i / 5))
  }

  lemma ChiAt(a: State, x: Coord, y: Coord)
    ensures At(Chi(a), x, y) == ChiLane(a, x, y)
  {
    hide ChiLane, Wrap;
    Index(x, y);
  }

  function Iota(a: State, rc: Lane): State
  {
    a[0 := Xor(a[0], rc)]
  }

  function Round(a: State, rc: Lane): State
  {
    Iota(Chi(Pi(Rho(Theta(a)))), rc)
  }

  function RoundConstant(i: nat): Lane
    requires i < 24
  {
    [0x0000000000000001, 0x0000000000008082, 0x800000000000808a, 0x8000000080008000,
     0x000000000000808b, 0x0000000080000001, 0x8000000080008081, 0x8000000000008009,
     0x000000000000008a, 0x0000000000000088, 0x0000000080008009, 0x000000008000000a,
     0x000000008000808b, 0x800000000000008b, 0x8000000000008089, 0x8000000000008003,
     0x8000000000008002, 0x8000000000000080, 0x000000000000800a, 0x800000008000000a,
     0x8000000080008081, 0x8000000000008080, 0x0000000080000001, 0x8000000080008008][i]
  }

  function Rounds(a: State, n: nat): State
    requires n <= 24
  {
    if n == 0 then a else Round(Rounds(a, n - 1), RoundConstant(n - 1))
  }

  function KeccakF(a: State): State
  {
    Rounds(a, 24)
  }

  // ----- wandering lanes -----

  /** The row of lane (x, y) after r rounds of a group of four: (2^r - 1) x + 2^r y. */
  function Row(r: nat, x: Coord, y: Coord): Coord
    requires r <= 4
  {
    if r == 1 then Wrap(x + 2 * y)
    else if r == 2 then Wrap(3 * x + 4 * y)
    else if r == 3 then Wrap(2 * x + 3 * y)
    else y
  }

  /** The state that the array holds after r rounds of a group. */
  function View(s: State, r: nat): State
    requires r <= 4
  {
    seq(25, i requires 0 <= i < 25 => At(s, Wrap(i), Row(r, Wrap(i), i / 5)))
  }

  lemma ViewAt(s: State, r: nat, x: Coord, y: Coord)
    requires r <= 4
    ensures At(View(s, r), x, y) == At(s, x, Row(r, x, y))
  {
    hide Row, Wrap;
    Index(x, y);
  }

  /** After a group of four rounds every lane is back in its place. */
  lemma ViewIdentity(s: State)
    ensures View(s, 0) == s && View(s, 4) == s
  {
    hide At, View;
    forall x: Coord, y: Coord
      ensures At(View(s, 0), x, y) == At(s, x, y) == At(View(s, 4), x, y)
    {
      ViewAt(s, 0, x, y);
      ViewAt(s, 4, x, y);
    }
    SameState(View(s, 0), s);
    SameState(View(s, 4), s);
  }

  lemma RowInjective(r: nat, x: Coord, y: Coord, y': Coord)
    requires r <= 4 && y != y'
    ensures Row(r, x, y) != Row(r, x, y')
  {
    hide Wrap;
    var d := if y < y' then y' - y else y - y';
    if r == 1 {
      Distinct(x + 2 * y, 2 * d, x + 2 * y');
    } else if r == 2 {
      Distinct(3 * x + 4 * y, 4 * d, 3 * x + 4 * y');
    } else if r == 3 {
      Distinct(2 * x + 3 * y, 3 * d, 2 * x + 3 * y');
    }
  }

  lemma MultipleOf5(d: nat, q: int)
    requires d == 5 * q
    ensures d % 5 == 0
  {
  }

  lemma Distinct(a: nat, d: nat, b: nat)
    requires (b == a + d || a == b + d) && d % 5 != 0
    ensures Wrap(a) != Wrap(b)
  {
    hide Wrap;
    WrapMod(a);
    WrapMod(b);
    var q := if b == a + d then b / 5 - a / 5 else a / 5 - b / 5;
    if d == 5 * q {
      MultipleOf5(d, q);
      assert false;
    }
  }

  /** Lane (x, y) before chi. */
  function Moved(a: State, x: Coord, y: Coord): Lane
  {
    var from := Wrap(x + 3 * y);
    Turn(Xor(At(a, from, x), ThetaEffect(a, from)), Offset(from, x))
  }

  lemma MovedAt(a: State, x: Coord, y: Coord)
    ensures At(Pi(Rho(Theta(a))), x, y) == Moved(a, x, y)
  {
    var from := Wrap(x + 3 * y);
    hide At, Theta, Rho, Pi, Wrap, Offset, Turn, ThetaEffect, Xor;
    PiAt(Rho(Theta(a)), x, y);
    RhoAt(Theta(a), from, x);
    ThetaAt(a, from, x);
  }

  /** Lane (x, y) after chi. */
  function Mixed(a: State, x: Coord, y: Coord): Lane
  {
    Mix(Moved(a, x, y), Moved(a, Wrap(x + 1), y), Moved(a, Wrap(x + 2), y))
  }

  lemma MixedAt(a: State, x: Coord, y: Coord)
    ensures At(Chi(Pi(Rho(Theta(a)))), x, y) == Mixed(a, x, y)
  {
    hide At, Theta, Rho, Pi, Chi, Wrap, Moved, Mix;
    ChiAt(Pi(Rho(Theta(a))), x, y);
    MovedAt(a, x, y);
    MovedAt(a, Wrap(x + 1), y);
    MovedAt(a, Wrap(x + 2), y);
  }

  lemma IotaAt(a: State, rc: Lane, x: Coord, y: Coord)
    ensures At(Iota(a, rc), x, y) == if x == 0 && y == 0 then Xor(At(a, 0, 0), rc) else At(a, x, y)
  {
    hide Xor;
  }

  // ----- one round in place -----

  /** The first done planes (of new row y, all columns) hold the wanted lanes; the places of the other
      planes are as they were. */
  ghost predicate PlanesDone(before: State, after: State, next: nat, wanted: State, done: nat)
    requires next <= 4
  {
    forall x: Coord, y: Coord ::
      At(after, x, Row(next, x, y)) == if y < done then At(wanted, x, y) else At(before, x, Row(next, x, y))
  }

  /** The places of new row y are as they were. */
  ghost predicate RowKept(before: State, s: State, next: nat, y: Coord)
    requires next <= 4
  {
    forall x: Coord :: At(s, x, Row(next, x, y)) == At(before, x, Row(next, x, y))
  }

  ghost predicate Effects(d: seq<Lane>, a: State)
  {
    |d| == 5 && forall x: Coord :: d[x] == ThetaEffect(a, x)
  }

  lemma PlanesToRound(before: State, after: State, r: nat, wanted: State)
    requires r < 4 && PlanesDone(before, after, r + 1, wanted, 5)
    ensures View(after, r + 1) == wanted
  {
    hide At, View, Row;
    forall x: Coord, y: Coord
      ensures At(View(after, r + 1), x, y) == At(wanted, x, y)
    {
      ViewAt(after, r + 1, x, y);
    }
    SameState(View(after, r + 1), wanted);
  }

  lemma Multiple5(a: nat, b: nat, q: int)
    requires a == b + 5 * q
    ensures Wrap(a) == Wrap(b)
  {
    hide Wrap;
    WrapMod(a);
    WrapMod(b);
    var u := a / 5 - b / 5 - q;
    assert 5 * u == b % 5 - a % 5;
  }

  /** The lane that moves to (x, y) is where the new lane of its column goes. */
  lemma RowStep(r: nat, x: Coord, y: Coord)
    requires r < 4
    ensures Row(r, x, Wrap(x + 2 * y)) == Row(r + 1, x, y)
  {
    var n := x + 2 * y;
    var q := n / 5;
    hide Wrap;
    WrapMod(n);
    assert n == 5 * q + Wrap(n);
    if r == 1 {
      Multiple5(3 * x + 4 * y, x + 2 * Wrap(n), 2 * q);
    } else if r == 2 {
      Multiple5(3 * x + 4 * Wrap(n), 2 * x + 3 * y, x + y - 4 * q);
    } else if r == 3 {
      Multiple5(2 * x + 3 * Wrap(n), y, x + y - 3 * q);
      Small(y);
    }
  }

  lemma Small(y: Coord)
    ensures Wrap(y) == y
  {
  }

  lemma BackAlong(x: Coord, y: Coord)
    ensures Wrap(Wrap(x + 2 * y) + 3 * y) == x
  {
    var n := x + 2 * y;
    var q := n / 5;
    hide Wrap;
    WrapMod(n);
    assert n == 5 * q + Wrap(n);
    Multiple5(Wrap(n) + 3 * y, x, y - q);
    Small(x);
  }

  /** What the lane of column x contributes, when new row y is made, before chi. */
  lemma MovedFrom(before: State, r: nat, x: Coord, y: Coord)
    requires r < 4
    ensures var to := Wrap(x + 2 * y);
            Moved(View(before, r), to, y)
            == Turn(Xor(At(before, x, Row(r + 1, x, y)), ThetaEffect(View(before, r), x)), Offset(x, to))
  {
    var to := Wrap(x + 2 * y);
    BackAlong(x, y);
    hide At, Turn, Xor, ThetaEffect, Offset, Wrap, Row, View;
    ViewAt(before, r, x, to);
    RowStep(r, x, y);
  }

  /** The literal positions, rotations and shift of one new row. */
  datatype Plane = Plane(p: seq<nat>, k: seq<nat>, along: Coord)

  predicate WellPlaced(w: Plane)
  {
    && |w.p| == |w.k| == 5
    && (forall x: Coord :: w.p[x] < 25 && w.k[x] < 64)
    && (forall x: Coord, x': Coord :: x != x' ==> w.p[x] != w.p[x'])
  }

  /** Lane of column x, mixed with the column effect and rotated. */
  function Turned(s: State, d: seq<Lane>, w: Plane, x: Coord): Lane
    requires WellPlaced(w) && |d| == 5
  {
    Turn(Xor(s[w.p[x]], d[x]), w.k[x])
  }

  /** The column whose lane comes to stand at x. */
  function ComesFrom(x: Coord, along: Coord): Coord
  {
    Wrap(x + 5 - along)
  }

  /** The lane that comes to stand at x when the columns are shifted along the row. */
  function Shifted(s: State, d: seq<Lane>, w: Plane, x: Coord): Lane
    requires WellPlaced(w) && |d| == 5
  {
    Turned(s, d, w, ComesFrom(x, w.along))
  }

  function Woven(s: State, d: seq<Lane>, w: Plane, x: Coord): Lane
    requires WellPlaced(w) && |d| == 5
  {
    Mix(Shifted(s, d, w, x), Shifted(s, d, w, Wrap(x + 1)), Shifted(s, d, w, Wrap(x + 2)))
  }

  lemma Neighbours()
    ensures Wrap(0) == 0 && Wrap(1) == 1 && Wrap(2) == 2 && Wrap(3) == 3 && Wrap(4) == 4 && Wrap(5) == 0
    ensures Wrap(6) == 1 && Wrap(7) == 2 && Wrap(8) == 3 && Wrap(9) == 4 && Wrap(10) == 0 && Wrap(11) == 1
    ensures Wrap(12) == 2
  {
  }

  /** The state after one new row has been put back where its lanes came from. */
  function Weave(s: State, d: seq<Lane>, w: Plane): State
    requires WellPlaced(w) && |d| == 5
  {
    hide Woven;
    s[w.p[0] := Woven(s, d, w, 0)][w.p[1] := Woven(s, d, w, 1)][w.p[2] := Woven(s, d, w, 2)]
     [w.p[3] := Woven(s, d, w, 3)][w.p[4] := Woven(s, d, w, 4)]
  }

  lemma WeaveAt(s: State, d: seq<Lane>, w: Plane, i: nat)
    requires WellPlaced(w) && |d| == 5 && i < 25
    ensures forall x: Coord :: w.p[x] == i ==> Weave(s, d, w)[i] == Woven(s, d, w, x)
    ensures (forall x: Coord :: w.p[x] != i) ==> Weave(s, d, w)[i] == s[i]
  {
    hide Woven;
  }

  lemma WovenRow(s: State, d: seq<Lane>, w: Plane)
    requires WellPlaced(w) && |d| == 5
    ensures var b := x requires 0 <= x < 5 => Shifted(s, d, w, x);
            && Woven(s, d, w, 0) == Mix(b(0), b(1), b(2)) && Woven(s, d, w, 1) == Mix(b(1), b(2), b(3))
            && Woven(s, d, w, 2) == Mix(b(2), b(3), b(4)) && Woven(s, d, w, 3) == Mix(b(3), b(4), b(0))
            && Woven(s, d, w, 4) == Mix(b(4), b(0), b(1))
  {
    hide Mix, Shifted, Wrap;
    Neighbours();
  }

  /** One new row: five lanes, one from each column, are mixed with the column effects d, rotated,
      shifted along the row and put back, mixed, where they came from. */
  method MixPlane(s: array<Lane>, d: seq<Lane>, w: Plane)
    requires s.Length == 25 && |d| == 5 && WellPlaced(w)
    modifies s
    ensures s[..] == Weave(old(s[..]), d, w)
  {
    hide Mix, Turned, Woven, Wrap, Shifted;
    WovenRow(s[..], d, w);
    var b0, b1, b2, b3, b4 := TurnPlane(s, d, w);
    s[w.p[0]] := Mix(b0, b1, b2);
    s[w.p[1]] := Mix(b1, b2, b3);
    s[w.p[2]] := Mix(b2, b3, b4);
    s[w.p[3]] := Mix(b3, b4, b0);
    s[w.p[4]] := Mix(b4, b0, b1);
  }

  function TurnedColumns(s: State, d: seq<Lane>, w: Plane): (e: seq<Lane>)
    requires WellPlaced(w) && |d| == 5
    ensures |e| == 5 && forall x: Coord :: e[x] == Turned(s, d, w, x)
  {
    hide Turned, WellPlaced;
    seq(5, x requires 0 <= x < 5 => Turned(s, d, w, x))
  }

  method TurnPlane(s: array<Lane>, d: seq<Lane>, w: Plane)
    returns (b0: Lane, b1: Lane, b2: Lane, b3: Lane, b4: Lane)
    requires s.Length == 25 && |d| == 5 && WellPlaced(w)
    ensures b0 == Shifted(s[..], d, w, 0) && b1 == Shifted(s[..], d, w, 1) && b2 == Shifted(s[..], d, w, 2)
    ensures b3 == Shifted(s[..], d, w, 3) && b4 == Shifted(s[..], d, w, 4)
  {
    var e := MixColumns(s, d, w);
    hide ComesFrom, Turned, TurnedColumns;
    b0 := e[ComesFrom(0, w.along)];
    b1 := e[ComesFrom(1, w.along)];
    b2 := e[ComesFrom(2, w.along)];
    b3 := e[ComesFrom(3, w.along)];
    b4 := e[ComesFrom(4, w.along)];
  }

  method MixColumns(s: array<Lane>, d: seq<Lane>, w: Plane) returns (e: seq<Lane>)
    requires s.Length == 25 && |d| == 5 && WellPlaced(w)
    ensures e == TurnedColumns(s[..], d, w)
  {
    hide Turn, Xor, Wrap, TurnedColumns;
    e := [Turn(Xor(s[w.p[0]], d[0]), w.k[0]), Turn(Xor(s[w.p[1]], d[1]), w.k[1]),
          Turn(Xor(s[w.p[2]], d[2]), w.k[2]), Turn(Xor(s[w.p[3]], d[3]), w.k[3]),
          Turn(Xor(s[w.p[4]], d[4]), w.k[4])];
    ghost var wanted := TurnedColumns(s[..], d, w);
    assert e[0] == wanted[0] && e[1] == wanted[1] && e[2] == wanted[2] && e[3] == wanted[3] && e[4] == wanted[4];
  }

  // ----- a whole round -----

  /** These are the rows, column by column, where the lanes of new row y are put. */
  predicate RowPlaces(next: nat, y: Coord, p0: Coord, p1: Coord, p2: Coord, p3: Coord, p4: Coord)
    requires next <= 4
  {
    && p0 == Row(next, 0, y) && p1 == Row(next, 1, y) && p2 == Row(next, 2, y)
    && p3 == Row(next, 3, y) && p4 == Row(next, 4, y)
  }

  /** These are the rotations of the lanes that new row y is made of, by column. */
  predicate RowTurns(y: Coord, k0: int, k1: int, k2: int, k3: int, k4: int)
  {
    && k0 == Offset(0, Wrap(2 * y)) && k1 == Offset(1, Wrap(1 + 2 * y)) && k2 == Offset(2, Wrap(2 + 2 * y))
    && k3 == Offset(3, Wrap(3 + 2 * y)) && k4 == Offset(4, Wrap(4 + 2 * y))
  }

  /** These are the rows where the lanes of a column are after r rounds of a group. */
  predicate ColumnPlaces(r: nat, x: Coord, q0: Coord, q1: Coord, q2: Coord, q3: Coord, q4: Coord)
    requires r <= 4
  {
    && q0 == Row(r, x, 0) && q1 == Row(r, x, 1) && q2 == Row(r, x, 2) && q3 == Row(r, x, 3) && q4 == Row(r, x, 4)
  }

  predicate Fits(w: Plane, r: nat, y: Coord)
    requires r < 4
  {
    && |w.p| == |w.k| == 5 && w.along == Wrap(2 * y)
    && w.p[0] == 5 * Row(r + 1, 0, y) && w.p[1] == 5 * Row(r + 1, 1, y) + 1 && w.p[2] == 5 * Row(r + 1, 2, y) + 2
    && w.p[3] == 5 * Row(r + 1, 3, y) + 3 && w.p[4] == 5 * Row(r + 1, 4, y) + 4
    && RowTurns(y, w.k[0], w.k[1], w.k[2], w.k[3], w.k[4])
  }

  lemma FitsAt(w: Plane, r: nat, x: Coord, y: Coord)
    requires r < 4 && Fits(w, r, y)
    ensures w.p[x] == 5 * Row(r + 1, x, y) + x && w.k[x] == Offset(x, Wrap(x + 2 * y))
  {
    hide Row, Offset, Wrap;
    if x == 0 {} else if x == 1 {} else if x == 2 {} else if x == 3 {} else { assert x == 4; }
  }

  lemma FitsLengths(w: Plane, r: nat, y: Coord)
    requires r < 4 && Fits(w, r, y)
    ensures |w.p| == |w.k| == 5 && w.along == Wrap(2 * y)
  {
  }

  lemma FitsPlaced(w: Plane, r: nat, y: Coord)
    requires r < 4 && Fits(w, r, y)
    ensures WellPlaced(w)
  {
    hide Row, Offset, Fits;
    assert |w.p| == |w.k| == 5 by { FitsLengths(w, r, y); }
    forall x: Coord
      ensures w.p[x] < 25 && w.k[x] < 64
    {
      FitsAt(w, r, x, y);
    }
    forall x: Coord, x': Coord | x != x'
      ensures w.p[x] != w.p[x']
    {
      FitsAt(w, r, x, y);
      FitsAt(w, r, x', y);
    }
  }

  lemma AlongAndBack(x: Coord, y: Coord)
    ensures Wrap(ComesFrom(x, Wrap(2 * y)) + 2 * y) == x
  {
    hide Wrap;
    var n := 2 * y;
    var along := Wrap(n);
    var q := n / 5;
    WrapMod(n);
    assert n == 5 * q + along;
    var m := x + 5 - along;
    var t := m / 5;
    WrapMod(m);
    assert m == 5 * t + Wrap(m);
    Multiple5(Wrap(m) + 2 * y, x, 1 + q - t);
    Small(x);
  }

  lemma ShiftedMoved(before: State, s: State, d: seq<Lane>, w: Plane, r: nat, x: Coord, y: Coord)
    requires r < 4 && Fits(w, r, y) && WellPlaced(w) && Effects(d, View(before, r))
    requires RowKept(before, s, r + 1, y)
    ensures Shifted(s, d, w, x) == Moved(View(before, r), x, y)
  {
    hide Wrap, Row, Offset, Turn, Xor, ThetaEffect, View, Moved, ComesFrom;
    var from := ComesFrom(x, w.along);
    FitsAt(w, r, from, y);
    AlongAndBack(x, y);
    MovedFrom(before, r, from, y);
    assert At(s, from, Row(r + 1, from, y)) == s[w.p[from]];
  }

  lemma WovenMixed(before: State, s: State, d: seq<Lane>, w: Plane, r: nat, x: Coord, y: Coord)
    requires r < 4 && Fits(w, r, y) && WellPlaced(w) && Effects(d, View(before, r))
    requires RowKept(before, s, r + 1, y)
    ensures Woven(s, d, w, x) == Mixed(View(before, r), x, y)
  {
    hide Wrap, Row, Offset, Mix, ThetaEffect, View, Moved, Shifted, Fits, WellPlaced, At;
    ShiftedMoved(before, s, d, w, r, x, y);
    ShiftedMoved(before, s, d, w, r, Wrap(x + 1), y);
    ShiftedMoved(before, s, d, w, r, Wrap(x + 2), y);
  }

  ghost predicate RowWanted(wanted: State, a: State, y: Coord)
  {
    forall x: Coord :: At(wanted, x, y) == Mixed(a, x, y)
  }

  /** Making new row y brings the state one row further. */
  lemma WeavePlane(before: State, s: State, d: seq<Lane>, w: Plane, r: nat, y: Coord, wanted: State)
    requires r < 4 && Fits(w, r, y) && WellPlaced(w) && Effects(d, View(before, r))
    requires PlanesDone(before, s, r + 1, wanted, y)
    requires RowWanted(wanted, View(before, r), y)
    ensures PlanesDone(before, Weave(s, d, w), r + 1, wanted, y + 1)
  {
    hide Wrap, Offset, ThetaEffect, View, Mixed, Woven, Weave, WellPlaced, Row;
    var after := Weave(s, d, w);
    forall x: Coord, y': Coord
      ensures At(after, x, Row(r + 1, x, y'))
              == if y' < y + 1 then At(wanted, x, y') else At(before, x, Row(r + 1, x, y'))
    {
      var i := 5 * Row(r + 1, x, y') + x;
      WeaveAt(s, d, w, i);
      FitsAt(w, r, x, y);
      if y' == y {
        WovenMixed(before, s, d, w, r, x, y);
      } else {
        RowInjective(r + 1, x, y, y');
        forall c: Coord
          ensures w.p[c] != i
        {
          FitsAt(w, r, c, y);
        }
      }
    }
  }

  /** What a round makes of the state a, before and after its last step. */
  lemma RoundTargets(a: State, rc: Lane, mixed: State)
    requires mixed == Chi(Pi(Rho(Theta(a))))
    ensures Round(a, rc) == Iota(mixed, rc) && RowWanted(mixed, a, 0)
    ensures forall y: Coord :: y > 0 ==> RowWanted(Round(a, rc), a, y)
  {
    hide At, Theta, Rho, Pi, Chi, Iota, Mixed, Xor;
    forall x: Coord, y: Coord
      ensures At(mixed, x, y) == Mixed(a, x, y)
      ensures y > 0 ==> At(Round(a, rc), x, y) == Mixed(a, x, y)
    {
      MixedAt(a, x, y);
      IotaAt(mixed, rc, x, y);
    }
  }

  lemma NoneDone(before: State, r: nat, wanted: State)
    requires r < 4
    ensures PlanesDone(before, before, r + 1, wanted, 0)
  {
  }

  /** The round constant goes to lane (0, 0), which never moves. */
  lemma IotaStep(before: State, s: State, r: nat, mixed: State, rc: Lane)
    requires r < 4 && PlanesDone(before, s, r + 1, mixed, 1)
    ensures PlanesDone(before, s[0 := Xor(s[0], rc)], r + 1, Iota(mixed, rc), 1)
  {
    hide Iota, At, Xor, Row;
    forall x: Coord, y: Coord
      ensures At(s[0 := Xor(s[0], rc)], x, Row(r + 1, x, y))
              == if y < 1 then At(Iota(mixed, rc), x, y) else At(before, x, Row(r + 1, x, y))
    {
      IotaAt(mixed, rc, x, y);
      IotaOnce(s, rc, r + 1, x, y);
    }
  }

  lemma IotaOnce(s: State, rc: Lane, next: nat, x: Coord, y: Coord)
    requires next <= 4
    ensures var s' := s[0 := Xor(s[0], rc)];
            At(s', x, Row(next, x, y))
            == if x == 0 && y == 0 then Xor(At(s, 0, Row(next, 0, 0)), rc) else At(s, x, Row(next, x, y))
  {
    hide Xor;
    if x == 0 {
      if y != 0 { RowInjective(next, 0, y, 0); }
    }
  }

  /** Parity of a column, its lanes taken from where they are after r rounds. */
  method Parity(s: array<Lane>, ghost r: nat, x: Coord, q0: Coord, q1: Coord, q2: Coord, q3: Coord, q4: Coord)
    returns (c: Lane)
    requires s.Length == 25 && r <= 4 && ColumnPlaces(r, x, q0, q1, q2, q3, q4)
    ensures c == Column(View(s[..], r), x)
  {
    hide Xor, View, Row;
    ViewAt(s[..], r, x, 0);
    ViewAt(s[..], r, x, 1);
    ViewAt(s[..], r, x, 2);
    ViewAt(s[..], r, x, 3);
    ViewAt(s[..], r, x, 4);
    c := Xor(Xor(Xor(Xor(s[5 * q0 + x], s[5 * q1 + x]), s[5 * q2 + x]), s[5 * q3 + x]), s[5 * q4 + x]);
  }

  /** What each column adds to all of its lanes. */
  method ColumnEffects(c0: Lane, c1: Lane, c2: Lane, c3: Lane, c4: Lane, ghost a: State) returns (d: seq<Lane>)
    requires c0 == Column(a, 0) && c1 == Column(a, 1) && c2 == Column(a, 2) && c3 == Column(a, 3)
    requires c4 == Column(a, 4)
    ensures Effects(d, a)
  {
    hide *;
    EffectsOf(a);
    d := [Beside(c4, c1), Beside(c0, c2), Beside(c1, c3), Beside(c2, c4), Beside(c3, c0)];
    AllEffects(d, a);
  }

  lemma EffectsOf(a: State)
    ensures ThetaEffect(a, 0) == Beside(Column(a, 4), Column(a, 1))
    ensures ThetaEffect(a, 1) == Beside(Column(a, 0), Column(a, 2))
    ensures ThetaEffect(a, 2) == Beside(Column(a, 1), Column(a, 3))
    ensures ThetaEffect(a, 3) == Beside(Column(a, 2), Column(a, 4))
    ensures ThetaEffect(a, 4) == Beside(Column(a, 3), Column(a, 0))
  {
    hide Beside, Column;
    Neighbours();
  }

  lemma AllEffects(d: seq<Lane>, a: State)
    requires |d| == 5 && d[0] == ThetaEffect(a, 0) && d[1] == ThetaEffect(a, 1) && d[2] == ThetaEffect(a, 2)
    requires d[3] == ThetaEffect(a, 3) && d[4] == ThetaEffect(a, 4)
    ensures Effects(d, a)
  {
    hide ThetaEffect;
  }

  lemma EffectsLength(d: seq<Lane>, a: State)
    requires Effects(d, a)
    ensures |d| == 5
  {
  }

  /** Makes new row y of a round, with the given places, rotations and shift along the row. */
  method NewRow(s: array<Lane>, d: seq<Lane>, p0: Coord, p1: Coord, p2: Coord, p3: Coord, p4: Coord,
                k0: nat, k1: nat, k2: nat, k3: nat, k4: nat, along: Coord,
                ghost before: State, ghost r: nat, ghost y: Coord, ghost wanted: State)
    requires s.Length == 25 && r < 4 && Effects(d, View(before, r))
    requires along == Wrap(2 * y) && RowPlaces(r + 1, y, p0, p1, p2, p3, p4) && RowTurns(y, k0, k1, k2, k3, k4)
    requires PlanesDone(before, s[..], r + 1, wanted, y)
    requires RowWanted(wanted, View(before, r), y)
    modifies s
    ensures PlanesDone(before, s[..], r + 1, wanted, y + 1)
  {
    EffectsLength(d, View(before, r));
    var w := Plane([5 * p0, 5 * p1 + 1, 5 * p2 + 2, 5 * p3 + 3, 5 * p4 + 4], [k0, k1, k2, k3, k4], along);
    LiteralsFit(w, r, y, p0, p1, p2, p3, p4, k0, k1, k2, k3, k4);
    hide *;
    FitsPlaced(w, r, y);
    WeavePlane(before, s[..], d, w, r, y, wanted);
    MixPlane(s, d, w);
  }

  lemma LiteralsFit(w: Plane, r: nat, y: Coord, p0: Coord, p1: Coord, p2: Coord, p3: Coord, p4: Coord,
                    k0: nat, k1: nat, k2: nat, k3: nat, k4: nat)
    requires r < 4 && w == Plane([5 * p0, 5 * p1 + 1, 5 * p2 + 2, 5 * p3 + 3, 5 * p4 + 4], [k0, k1, k2, k3, k4], Wrap(2 * y))
    requires RowPlaces(r + 1, y, p0, p1, p2, p3, p4) && RowTurns(y, k0, k1, k2, k3, k4)
    ensures Fits(w, r, y)
  {
    hide RowTurns, Wrap, Row;
  }

  lemma Rows0()
    ensures Row(0, 0, 0) == 0 && Row(0, 1, 0) == 0 && Row(0, 2, 0) == 0 && Row(0, 3, 0) == 0 && Row(0, 4, 0) == 0
    ensures Row(0, 0, 1) == 1 && Row(0, 1, 1) == 1 && Row(0, 2, 1) == 1 && Row(0, 3, 1) == 1 && Row(0, 4, 1) == 1
    ensures Row(0, 0, 2) == 2 && Row(0, 1, 2) == 2 && Row(0, 2, 2) == 2 && Row(0, 3, 2) == 2 && Row(0, 4, 2) == 2
    ensures Row(0, 0, 3) == 3 && Row(0, 1, 3) == 3 && Row(0, 2, 3) == 3 && Row(0, 3, 3) == 3 && Row(0, 4, 3) == 3
    ensures Row(0, 0, 4) == 4 && Row(0, 1, 4) == 4 && Row(0, 2, 4) == 4 && Row(0, 3, 4) == 4 && Row(0, 4, 4) == 4
  {
  }

  lemma Rows1()
    ensures Row(1, 0, 0) == 0 && Row(1, 1, 0) == 1 && Row(1, 2, 0) == 2 && Row(1, 3, 0) == 3 && Row(1, 4, 0) == 4
    ensures Row(1, 0, 1) == 2 && Row(1, 1, 1) == 3 && Row(1, 2, 1) == 4 && Row(1, 3, 1) == 0 && Row(1, 4, 1) == 1
    ensures Row(1, 0, 2) == 4 && Row(1, 1, 2) == 0 && Row(1, 2, 2) == 1 && Row(1, 3, 2) == 2 && Row(1, 4, 2) == 3
    ensures Row(1, 0, 3) == 1 && Row(1, 1, 3) == 2 && Row(1, 2, 3) == 3 && Row(1, 3, 3) == 4 && Row(1, 4, 3) == 0
    ensures Row(1, 0, 4) == 3 && Row(1, 1, 4) == 4 && Row(1, 2, 4) == 0 && Row(1, 3, 4) == 1 && Row(1, 4, 4) == 2
  {
  }

  lemma Rows2()
    ensures Row(2, 0, 0) == 0 && Row(2, 1, 0) == 3 && Row(2, 2, 0) == 1 && Row(2, 3, 0) == 4 && Row(2, 4, 0) == 2
    ensures Row(2, 0, 1) == 4 && Row(2, 1, 1) == 2 && Row(2, 2, 1) == 0 && Row(2, 3, 1) == 3 && Row(2, 4, 1) == 1
    ensures Row(2, 0, 2) == 3 && Row(2, 1, 2) == 1 && Row(2, 2, 2) == 4 && Row(2, 3, 2) == 2 && Row(2, 4, 2) == 0
    ensures Row(2, 0, 3) == 2 && Row(2, 1, 3) == 0 && Row(2, 2, 3) == 3 && Row(2, 3, 3) == 1 && Row(2, 4, 3) == 4
    ensures Row(2, 0, 4) == 1 && Row(2, 1, 4) == 4 && Row(2, 2, 4) == 2 && Row(2, 3, 4) == 0 && Row(2, 4, 4) == 3
  {
  }

  lemma Rows3()
    ensures Row(3, 0, 0) == 0 && Row(3, 1, 0) == 2 && Row(3, 2, 0) == 4 && Row(3, 3, 0) == 1 && Row(3, 4, 0) == 3
    ensures Row(3, 0, 1) == 3 && Row(3, 1, 1) == 0 && Row(3, 2, 1) == 2 && Row(3, 3, 1) == 4 && Row(3, 4, 1) == 1
    ensures Row(3, 0, 2) == 1 && Row(3, 1, 2) == 3 && Row(3, 2, 2) == 0 && Row(3, 3, 2) == 2 && Row(3, 4, 2) == 4
    ensures Row(3, 0, 3) == 4 && Row(3, 1, 3) == 1 && Row(3, 2, 3) == 3 && Row(3, 3, 3) == 0 && Row(3, 4, 3) == 2
    ensures Row(3, 0, 4) == 2 && Row(3, 1, 4) == 4 && Row(3, 2, 4) == 1 && Row(3, 3, 4) == 3 && Row(3, 4, 4) == 0
  {
  }

  lemma Rows4()
    ensures Row(4, 0, 0) == 0 && Row(4, 1, 0) == 0 && Row(4, 2, 0) == 0 && Row(4, 3, 0) == 0 && Row(4, 4, 0) == 0
    ensures Row(4, 0, 1) == 1 && Row(4, 1, 1) == 1 && Row(4, 2, 1) == 1 && Row(4, 3, 1) == 1 && Row(4, 4, 1) == 1
    ensures Row(4, 0, 2) == 2 && Row(4, 1, 2) == 2 && Row(4, 2, 2) == 2 && Row(4, 3, 2) == 2 && Row(4, 4, 2) == 2
    ensures Row(4, 0, 3) == 3 && Row(4, 1, 3) == 3 && Row(4, 2, 3) == 3 && Row(4, 3, 3) == 3 && Row(4, 4, 3) == 3
    ensures Row(4, 0, 4) == 4 && Row(4, 1, 4) == 4 && Row(4, 2, 4) == 4 && Row(4, 3, 4) == 4 && Row(4, 4, 4) == 4
  {
  }

  lemma Offsets()
    ensures Offset(0, 0) == 0 && Offset(1, 0) == 1 && Offset(2, 0) == 62 && Offset(3, 0) == 28 && Offset(4, 0) == 27
    ensures Offset(0, 1) == 36 && Offset(1, 1) == 44 && Offset(2, 1) == 6 && Offset(3, 1) == 55 && Offset(4, 1) == 20
    ensures Offset(0, 2) == 3 && Offset(1, 2) == 10 && Offset(2, 2) == 43 && Offset(3, 2) == 25 && Offset(4, 2) == 39
    ensures Offset(0, 3) == 41 && Offset(1, 3) == 45 && Offset(2, 3) == 15 && Offset(3, 3) == 21 && Offset(4, 3) == 8
    ensures Offset(0, 4) == 18 && Offset(1, 4) == 2 && Offset(2, 4) == 61 && Offset(3, 4) == 56 && Offset(4, 4) == 14
  {
  }

  /** The rotations are the same in every round. */
  lemma Turns()
    ensures RowTurns(0, 0, 44, 43, 21, 14) && Wrap(2 * 0) == 0
    ensures RowTurns(1, 3, 45, 61, 28, 20) && Wrap(2 * 1) == 2
    ensures RowTurns(2, 18, 1, 6, 25, 8) && Wrap(2 * 2) == 4
    ensures RowTurns(3, 36, 10, 15, 56, 27) && Wrap(2 * 3) == 1
    ensures RowTurns(4, 41, 2, 62, 55, 39) && Wrap(2 * 4) == 3
  {
    hide Wrap, Offset;
    Neighbours();
    Offsets();
  }

  method Round0(s: array<Lane>, rc: Lane)
    requires s.Length == 25
    modifies s
    ensures View(s[..], 1) == Round(View(old(s[..]), 0), rc)
  {
    hide At, View, Xor, Chi, Pi, Rho, Theta, Effects, PlanesDone, Round, Iota, RowWanted, Column, Row, Wrap, Offset,
      RowTurns, Rol, Turn, Mix, ThetaEffect, Mixed, Moved;
    ghost var before := s[..];
    ghost var a := View(before, 0);
    ghost var mixed, wanted := Chi(Pi(Rho(Theta(a)))), Round(a, rc);
    Turns();
    Rows0();
    Rows1();
    RoundTargets(a, rc, mixed);
    NoneDone(before, 0, mixed);
    var c0 := Parity(s, 0, 0, 0, 1, 2, 3, 4);
    var c1 := Parity(s, 0, 1, 0, 1, 2, 3, 4);
    var c2 := Parity(s, 0, 2, 0, 1, 2, 3, 4);
    var c3 := Parity(s, 0, 3, 0, 1, 2, 3, 4);
    var c4 := Parity(s, 0, 4, 0, 1, 2, 3, 4);
    var d := ColumnEffects(c0, c1, c2, c3, c4, a);
    NewRow(s, d, 0, 1, 2, 3, 4, 0, 44, 43, 21, 14, 0, before, 0, 0, mixed);
    IotaStep(before, s[..], 0, mixed, rc);
    s[0] := Xor(s[0], rc);
    NewRow(s, d, 2, 3, 4, 0, 1, 3, 45, 61, 28, 20, 2, before, 0, 1, wanted);
    NewRow(s, d, 4, 0, 1, 2, 3, 18, 1, 6, 25, 8, 4, before, 0, 2, wanted);
    NewRow(s, d, 1, 2, 3, 4, 0, 36, 10, 15, 56, 27, 1, before, 0, 3, wanted);
    NewRow(s, d, 3, 4, 0, 1, 2, 41, 2, 62, 55, 39, 3, before, 0, 4, wanted);
    PlanesToRound(before, s[..], 0, wanted);
  }

  method Round1(s: array<Lane>, rc: Lane)
    requires s.Length == 25
    modifies s
    ensures View(s[..], 2) == Round(View(old(s[..]), 1), rc)
  {
    hide At, View, Xor, Chi, Pi, Rho, Theta, Effects, PlanesDone, Round, Iota, RowWanted, Column, Row, Wrap, Offset,
      RowTurns, Rol, Turn, Mix, ThetaEffect, Mixed, Moved;
    ghost var before := s[..];
    ghost var a := View(before, 1);
    ghost var mixed, wanted := Chi(Pi(Rho(Theta(a)))), Round(a, rc);
    Turns();
    Rows1();
    Rows2();
    RoundTargets(a, rc, mixed);
    NoneDone(before, 1, mixed);
    var c0 := Parity(s, 1, 0, 0, 2, 4, 1, 3);
    var c1 := Parity(s, 1, 1, 1, 3, 0, 2, 4);
    var c2 := Parity(s, 1, 2, 2, 4, 1, 3, 0);
    var c3 := Parity(s, 1, 3, 3, 0, 2, 4, 1);
    var c4 := Parity(s, 1, 4, 4, 1, 3, 0, 2);
    var d := ColumnEffects(c0, c1, c2, c3, c4, a);
    NewRow(s, d, 0, 3, 1, 4, 2, 0, 44, 43, 21, 14, 0, before, 1, 0, mixed);
    IotaStep(before, s[..], 1, mixed, rc);
    s[0] := Xor(s[0], rc);
    NewRow(s, d, 4, 2, 0, 3, 1, 3, 45, 61, 28, 20, 2, before, 1, 1, wanted);
    NewRow(s, d, 3, 1, 4, 2, 0, 18, 1, 6, 25, 8, 4, before, 1, 2, wanted);
    NewRow(s, d, 2, 0, 3, 1, 4, 36, 10, 15, 56, 27, 1, before, 1, 3, wanted);
    NewRow(s, d, 1, 4, 2, 0, 3, 41, 2, 62, 55, 39, 3, before, 1, 4, wanted);
    PlanesToRound(before, s[..], 1, wanted);
  }

  method Round2(s: array<Lane>, rc: Lane)
    requires s.Length == 25
    modifies s
    ensures View(s[..], 3) == Round(View(old(s[..]), 2), rc)
  {
    hide At, View, Xor, Chi, Pi, Rho, Theta, Effects, PlanesDone, Round, Iota, RowWanted, Column, Row, Wrap, Offset,
      RowTurns, Rol, Turn, Mix, ThetaEffect, Mixed, Moved;
    ghost var before := s[..];
    ghost var a := View(before, 2);
    ghost var mixed, wanted := Chi(Pi(Rho(Theta(a)))), Round(a, rc);
    Turns();
    Rows2();
    Rows3();
    RoundTargets(a, rc, mixed);
    NoneDone(before, 2, mixed);
    var c0 := Parity(s, 2, 0, 0, 4, 3, 2, 1);
    var c1 := Parity(s, 2, 1, 3, 2, 1, 0, 4);
    var c2 := Parity(s, 2, 2, 1, 0, 4, 3, 2);
    var c3 := Parity(s, 2, 3, 4, 3, 2, 1, 0);
    var c4 := Parity(s, 2, 4, 2, 1, 0, 4, 3);
    var d := ColumnEffects(c0, c1, c2, c3, c4, a);
    NewRow(s, d, 0, 2, 4, 1, 3, 0, 44, 43, 21, 14, 0, before, 2, 0, mixed);
    IotaStep(before, s[..], 2, mixed, rc);
    s[0] := Xor(s[0], rc);
    NewRow(s, d, 3, 0, 2, 4, 1, 3, 45, 61, 28, 20, 2, before, 2, 1, wanted);
    NewRow(s, d, 1, 3, 0, 2, 4, 18, 1, 6, 25, 8, 4, before, 2, 2, wanted);
    NewRow(s, d, 4, 1, 3, 0, 2, 36, 10, 15, 56, 27, 1, before, 2, 3, wanted);
    NewRow(s, d, 2, 4, 1, 3, 0, 41, 2, 62, 55, 39, 3, before, 2, 4, wanted);
    PlanesToRound(before, s[..], 2, wanted);
  }

  method Round3(s: array<Lane>, rc: Lane)
    requires s.Length == 25
    modifies s
    ensures View(s[..], 4) == Round(View(old(s[..]), 3), rc)
  {
    hide At, View, Xor, Chi, Pi, Rho, Theta, Effects, PlanesDone, Round, Iota, RowWanted, Column, Row, Wrap, Offset,
      RowTurns, Rol, Turn, Mix, ThetaEffect, Mixed, Moved;
    ghost var before := s[..];
    ghost var a := View(before, 3);
    ghost var mixed, wanted := Chi(Pi(Rho(Theta(a)))), Round(a, rc);
    Turns();
    Rows3();
    Rows4();
    RoundTargets(a, rc, mixed);
    NoneDone(before, 3, mixed);
    var c0 := Parity(s, 3, 0, 0, 3, 1, 4, 2);
    var c1 := Parity(s, 3, 1, 2, 0, 3, 1, 4);
    var c2 := Parity(s, 3, 2, 4, 2, 0, 3, 1);
    var c3 := Parity(s, 3, 3, 1, 4, 2, 0, 3);
    var c4 := Parity(s, 3, 4, 3, 1, 4, 2, 0);
    var d := ColumnEffects(c0, c1, c2, c3, c4, a);
    NewRow(s, d, 0, 0, 0, 0, 0, 0, 44, 43, 21, 14, 0, before, 3, 0, mixed);
    IotaStep(before, s[..], 3, mixed, rc);
    s[0] := Xor(s[0], rc);
    NewRow(s, d, 1, 1, 1, 1, 1, 3, 45, 61, 28, 20, 2, before, 3, 1, wanted);
    NewRow(s, d, 2, 2, 2, 2, 2, 18, 1, 6, 25, 8, 4, before, 3, 2, wanted);
    NewRow(s, d, 3, 3, 3, 3, 3, 36, 10, 15, 56, 27, 1, before, 3, 3, wanted);
    NewRow(s, d, 4, 4, 4, 4, 4, 41, 2, 62, 55, 39, 3, before, 3, 4, wanted);
    PlanesToRound(before, s[..], 3, wanted);
  }

  // ----- all rounds -----

  lemma FourRounds(a: State, b: State, i: nat)
    requires i + 4 <= 24 && b == Rounds(a, i)
    ensures Round(Round(Round(Round(b, RoundConstant(i)), RoundConstant(i + 1)), RoundConstant(i + 2)),
                  RoundConstant(i + 3)) == Rounds(a, i + 4)
  {
    hide Round, RoundConstant;
    assert Rounds(a, i + 1) == Round(b, RoundConstant(i));
    assert Rounds(a, i + 2) == Round(Rounds(a, i + 1), RoundConstant(i + 1));
    assert Rounds(a, i + 3) == Round(Rounds(a, i + 2), RoundConstant(i + 2));
  }

  /** The whole permutation, four rounds at a time. */
  method KeccakF1600Step(s: array<Lane>)
    requires s.Length == 25
    modifies s
    ensures s[..] == KeccakF(old(s[..]))
  {
    hide Round, RoundConstant, View, At;
    ghost var start := s[..];
    var i := 0;
    while i < 24
      invariant i <= 24 && i % 4 == 0
      invariant s[..] == Rounds(start, i)
    {
      ghost var b := s[..];
      ViewIdentity(b);
      FourRounds(start, b, i);
      Round0(s, RoundConstant(i));
      Round1(s, RoundConstant(i + 1));
      Round2(s, RoundConstant(i + 2));
      Round3(s, RoundConstant(i + 3));
      ViewIdentity(s[..]);
      i := i + 4;
    }
  }
}
