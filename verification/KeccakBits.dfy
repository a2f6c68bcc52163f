/** The permutation bit by bit, as FIPS 202 defines it in section 3.2: what the words of the lanes, their
    shifts and their exclusive ors come to. */
module KeccakBits {
  import opened Keccak

  /** Bit z of a lane; places along a lane are taken modulo 64. */
  function Bit(a: Lane, z: bv6): bool
  {
    (a >> z) & 1 == 1
  }

  /** The state as an array of bits. */
  type Bits = (Coord, Coord, bv6) -> bool

  function BitsOf(s: State): Bits
  {
    (x: Coord, y: Coord, z: bv6) => Bit(At(s, x, y), z)
  }

  ghost predicate Same(a: Bits, b: Bits)
  {
    forall x: Coord, y: Coord, z: bv6 :: a(x, y, z) == b(x, y, z)
  }

  // ----- the step mappings, as the standard has them -----

  function ColumnParity(a: Bits, x: Coord, z: bv6): bool
  {
    a(x, 0, z) != (a(x, 1, z) != (a(x, 2, z) != (a(x, 3, z) != a(x, 4, z))))
  }

  function ThetaBits(a: Bits): Bits
  {
    (x: Coord, y: Coord, z: bv6) =>
      a(x, y, z) != (ColumnParity(a, (x + 4) % 5, z) != ColumnParity(a, (x + 1) % 5, z - 1))
  }

  function RhoBits(a: Bits): Bits
  {
    (x: Coord, y: Coord, z: bv6) => a(x, y, z - Amount(Offset(x, y)))
  }

  function Across(x: Coord, y: Coord): Coord
  {
    (x + 3 * y) % 5
  }

  function PiBits(a: Bits): Bits
  {
    (x: Coord, y: Coord, z: bv6) => a(Across(x, y), x, z)
  }

  function ChiBits(a: Bits): Bits
  {
    (x: Coord, y: Coord, z: bv6) => a(x, y, z) != (!a((x + 1) % 5, y, z) && a((x + 2) % 5, y, z))
  }

  function IotaBits(a: Bits, rc: Lane): Bits
  {
    (x: Coord, y: Coord, z: bv6) => a(x, y, z) != (x == 0 && y == 0 && Bit(rc, z))
  }

  function RoundBits(a: Bits, rc: Lane): Bits
  {
    IotaBits(ChiBits(PiBits(RhoBits(ThetaBits(a)))), rc)
  }

  function RoundsBits(a: Bits, n: nat): Bits
    requires n <= 24
  {
    if n == 0 then a else RoundBits(RoundsBits(a, n - 1), RoundConstant(n - 1))
  }

  // ----- words and their bits -----

  lemma BitOfXor(a: Lane, b: Lane, z: bv6)
    ensures Bit(a ^ b, z) <==> Bit(a, z) != Bit(b, z)
  {
  }

  lemma XorBit(a: Lane, b: Lane, z: bv6)
    ensures Bit(Xor(a, b), z) <==> Bit(a, z) != Bit(b, z)
  {
    hide Bit;
    BitOfXor(a, b, z);
  }

  lemma BitOfMix(a: Lane, b: Lane, c: Lane, z: bv6)
    ensures Bit(a ^ ((!b) & c), z) <==> Bit(a, z) != (!Bit(b, z) && Bit(c, z))
  {
  }

  lemma MixBit(a: Lane, b: Lane, c: Lane, z: bv6)
    ensures Bit(Mix(a, b, c), z) <==> Bit(a, z) != (!Bit(b, z) && Bit(c, z))
  {
    hide Bit;
    BitOfMix(a, b, c, z);
  }

  lemma BitOfOr(a: Lane, b: Lane, z: bv6)
    ensures Bit(a | b, z) <==> Bit(a, z) || Bit(b, z)
  {
  }

  lemma OrBit(a: Lane, b: Lane, z: bv6)
    ensures Bit(Or(a, b), z) <==> Bit(a, z) || Bit(b, z)
  {
    hide Bit;
    BitOfOr(a, b, z);
  }

  lemma UpFar(a: Lane, k: bv6, z: bv6)
    requires 32 <= k <= z
    ensures Bit(a << k, z) <==> Bit(a, z - k)
  {
  }

  lemma UpAcross(a: Lane, k: bv6, z: bv6)
    requires k < 32 <= z
    ensures Bit(a << k, z) <==> Bit(a, z - k)
  {
  }

  lemma UpNear(a: Lane, k: bv6, z: bv6)
    requires k <= z < 32
    ensures Bit(a << k, z) <==> Bit(a, z - k)
  {
  }

  lemma UpEmpty(a: Lane, k: bv6, z: bv6)
    requires z < k
    ensures !Bit(a << k, z)
  {
  }

  lemma UpBit(a: Lane, k: bv6, z: bv6)
    ensures Bit(Up(a, k), z) <==> z >= k && Bit(a, z - k)
  {
    hide Bit;
    if z < k {
      UpEmpty(a, k, z);
    } else if k >= 32 {
      UpFar(a, k, z);
    } else if z >= 32 {
      UpAcross(a, k, z);
    } else {
      UpNear(a, k, z);
    }
  }

  lemma DownPart(a: Lane, k: bv6, z: bv6)
    requires z + k >= k
    ensures Bit(a >> k, z) <==> Bit(a, z + k)
  {
  }

  lemma DownEmpty(a: Lane, k: bv6, z: bv6)
    requires z + k < k
    ensures !Bit(a >> k, z)
  {
  }

  lemma DownBit(a: Lane, k: bv6, z: bv6)
    ensures Bit(Down(a, k), z) <==> z + k >= k && Bit(a, z + k)
  {
    hide Bit;
    if z + k >= k {
      DownPart(a, k, z);
    } else {
      DownEmpty(a, k, z);
    }
  }

  lemma Around(k: bv6, z: bv6)
    ensures z + -k == z - k && (z + -k >= -k <==> k == 0 || z < k)
  {
  }

  /** Rotation moves every bit up by the amount, around the end. */
  lemma RolBit(a: Lane, k: bv6, z: bv6)
    ensures Bit(Rol(a, k), z) <==> Bit(a, z - k)
  {
    hide Bit, Or, Up, Down;
    UpBit(a, k, z);
    DownBit(a, -k, z);
    Around(k, z);
    OrBit(Up(a, k), Down(a, -k), z);
  }

  /** An offset in six bits is the offset modulo 64: it goes up by one with it. */
  lemma AmountNext(k: nat)
    ensures Amount(0) == 0 && Amount(k + 1) == Amount(k) + 1
  {
    if k % 2 == 1 {
      AmountNext(k / 2);
      assert (k + 1) / 2 == k / 2 + 1;
    }
  }

  lemma TurnBit(a: Lane, k: nat, z: bv6)
    requires k < 64
    ensures Bit(Turn(a, k), z) <==> Bit(a, z - Amount(k))
  {
    hide Bit, Rol;
    RolBit(a, Amount(k), z);
    AmountNext(0);
  }

  // ----- the step mappings on lanes -----

  lemma ColumnBit(s: State, x: Coord, z: bv6)
    ensures Bit(Column(s, x), z) == ColumnParity(BitsOf(s), x, z)
  {
    hide Bit, Xor, At;
    var a0, a1, a2, a3, a4 := At(s, x, 0), At(s, x, 1), At(s, x, 2), At(s, x, 3), At(s, x, 4);
    XorBit(a0, a1, z);
    XorBit(Xor(a0, a1), a2, z);
    XorBit(Xor(Xor(a0, a1), a2), a3, z);
    XorBit(Xor(Xor(Xor(a0, a1), a2), a3), a4, z);
  }

  lemma ThetaIs(s: State)
    ensures Same(BitsOf(Theta(s)), ThetaBits(BitsOf(s)))
  {
    hide Bit, Xor, At, Theta, Column, ColumnParity, Rol;
    forall x: Coord, y: Coord, z: bv6
      ensures BitsOf(Theta(s))(x, y, z) == ThetaBits(BitsOf(s))(x, y, z)
    {
      ThetaAt(s, x, y);
      WrapMod(x + 4);
      WrapMod(x + 1);
      var left, right := Column(s, Wrap(x + 4)), Column(s, Wrap(x + 1));
      XorBit(At(s, x, y), Beside(left, right), z);
      XorBit(left, Rol(right, 1), z);
      RolBit(right, 1, z);
      ColumnBit(s, Wrap(x + 4), z);
      ColumnBit(s, Wrap(x + 1), z - 1);
    }
  }

  lemma RhoIs(s: State)
    ensures Same(BitsOf(Rho(s)), RhoBits(BitsOf(s)))
  {
    hide Bit, At, Rho, Turn, Offset, Amount;
    forall x: Coord, y: Coord, z: bv6
      ensures BitsOf(Rho(s))(x, y, z) == RhoBits(BitsOf(s))(x, y, z)
    {
      RhoAt(s, x, y);
      TurnBit(At(s, x, y), Offset(x, y), z);
    }
  }

  lemma FromPi(s: State, x: Coord, y: Coord)
    ensures PiLane(s, x, y) == At(s, Across(x, y), x)
  {
    hide At, Wrap;
    WrapMod(x + 3 * y);
  }

  lemma PiIs(s: State)
    ensures Same(BitsOf(Pi(s)), PiBits(BitsOf(s)))
  {
    hide Bit, At, Pi, Wrap, PiLane, Across;
    forall x: Coord, y: Coord, z: bv6
      ensures BitsOf(Pi(s))(x, y, z) == PiBits(BitsOf(s))(x, y, z)
    {
      PiAt(s, x, y);
      FromPi(s, x, y);
    }
  }

  lemma ChiIs(s: State)
    ensures Same(BitsOf(Chi(s)), ChiBits(BitsOf(s)))
  {
    hide Bit, At, Chi, Wrap, Mix;
    forall x: Coord, y: Coord, z: bv6
      ensures BitsOf(Chi(s))(x, y, z) == ChiBits(BitsOf(s))(x, y, z)
    {
      ChiAt(s, x, y);
      WrapMod(x + 1);
      WrapMod(x + 2);
      MixBit(At(s, x, y), At(s, Wrap(x + 1), y), At(s, Wrap(x + 2), y), z);
    }
  }

  lemma IotaIs(s: State, rc: Lane)
    ensures Same(BitsOf(Iota(s, rc)), IotaBits(BitsOf(s), rc))
  {
    hide Bit, At, Iota, Xor;
    forall x: Coord, y: Coord, z: bv6
      ensures BitsOf(Iota(s, rc))(x, y, z) == IotaBits(BitsOf(s), rc)(x, y, z)
    {
      IotaAt(s, rc, x, y);
      XorBit(At(s, 0, 0), rc, z);
    }
  }

  // ----- the same bits before a step are the same bits after it -----

  lemma SameTheta(a: Bits, b: Bits)
    requires Same(a, b)
    ensures Same(ThetaBits(a), ThetaBits(b))
  {
  }

  lemma SameRho(a: Bits, b: Bits)
    requires Same(a, b)
    ensures Same(RhoBits(a), RhoBits(b))
  {
  }

  lemma SamePi(a: Bits, b: Bits)
    requires Same(a, b)
    ensures Same(PiBits(a), PiBits(b))
  {
    forall x: Coord, y: Coord, z: bv6
      ensures PiBits(a)(x, y, z) == PiBits(b)(x, y, z)
    {
      assert a(Across(x, y), x, z) == b(Across(x, y), x, z);
    }
  }

  lemma SameChi(a: Bits, b: Bits)
    requires Same(a, b)
    ensures Same(ChiBits(a), ChiBits(b))
  {
  }

  lemma SameIota(a: Bits, b: Bits, rc: Lane)
    requires Same(a, b)
    ensures Same(IotaBits(a, rc), IotaBits(b, rc))
  {
    hide Bit;
  }

  lemma SameRound(a: Bits, b: Bits, rc: Lane)
    requires Same(a, b)
    ensures Same(RoundBits(a, rc), RoundBits(b, rc))
  {
    hide Same, ThetaBits, RhoBits, PiBits, ChiBits, IotaBits;
    SameTheta(a, b);
    SameRho(ThetaBits(a), ThetaBits(b));
    SamePi(RhoBits(ThetaBits(a)), RhoBits(ThetaBits(b)));
    SameChi(PiBits(RhoBits(ThetaBits(a))), PiBits(RhoBits(ThetaBits(b))));
    SameIota(ChiBits(PiBits(RhoBits(ThetaBits(a)))), ChiBits(PiBits(RhoBits(ThetaBits(b)))), rc);
  }

  lemma SameSame(a: Bits, b: Bits, c: Bits)
    requires Same(a, b) && Same(b, c)
    ensures Same(a, c)
  {
  }

  lemma SameAsItself(a: Bits)
    ensures Same(a, a)
  {
  }

  lemma RoundIs(s: State, rc: Lane)
    ensures Same(BitsOf(Round(s, rc)), RoundBits(BitsOf(s), rc))
  {
    hide Same, BitsOf, Theta, Rho, Pi, Chi, Iota, ThetaBits, RhoBits, PiBits, ChiBits, IotaBits;
    var a := BitsOf(s);
    var theta := Theta(s);
    var rho := Rho(theta);
    var pi := Pi(rho);
    var chi := Chi(pi);
    ThetaIs(s);
    RhoIs(theta);
    SameRho(BitsOf(theta), ThetaBits(a));
    SameSame(BitsOf(rho), RhoBits(BitsOf(theta)), RhoBits(ThetaBits(a)));
    PiIs(rho);
    SamePi(BitsOf(rho), RhoBits(ThetaBits(a)));
    SameSame(BitsOf(pi), PiBits(BitsOf(rho)), PiBits(RhoBits(ThetaBits(a))));
    ChiIs(pi);
    SameChi(BitsOf(pi), PiBits(RhoBits(ThetaBits(a))));
    SameSame(BitsOf(chi), ChiBits(BitsOf(pi)), ChiBits(PiBits(RhoBits(ThetaBits(a)))));
    IotaIs(chi, rc);
    SameIota(BitsOf(chi), ChiBits(PiBits(RhoBits(ThetaBits(a)))), rc);
    SameSame(BitsOf(Iota(chi, rc)), IotaBits(BitsOf(chi), rc), RoundBits(a, rc));
  }

  /** The permutation of the lanes is that of the bits. */
  lemma {:induction false} KeccakIsBitwise(s: State, n: nat)
    requires n <= 24
    ensures Same(BitsOf(Rounds(s, n)), RoundsBits(BitsOf(s), n))
  {
    hide Bit, BitsOf, Round, RoundBits, RoundConstant, Same;
    if n > 0 {
      KeccakIsBitwise(s, n - 1);
      RoundIs(Rounds(s, n - 1), RoundConstant(n - 1));
      SameRound(BitsOf(Rounds(s, n - 1)), RoundsBits(BitsOf(s), n - 1), RoundConstant(n - 1));
      SameSame(BitsOf(Rounds(s, n)), RoundBits(BitsOf(Rounds(s, n - 1)), RoundConstant(n - 1)),
               RoundsBits(BitsOf(s), n));
    } else {
      SameAsItself(BitsOf(s));
    }
  }

  /** So is the whole of it, with all 24 rounds. */
  lemma KeccakFIsBitwise(s: State)
    ensures Same(BitsOf(KeccakF(s)), RoundsBits(BitsOf(s), 24))
  {
    hide Rounds, RoundsBits, Same, BitsOf;
    KeccakIsBitwise(s, 24);
  }
}
