/** The tables of the permutation are the ones the standard's own procedures generate. */
module KeccakTables {
  import opened Keccak

  /** One step of the feedback shift register of FIPS 202, algorithm 5, its first bit lowest. */
  function NextBits(r: bv8): bv8
  {
    (r << 1) ^ (if r & 0x80 != 0 then 0x71 else 0)
  }

  /** The register after n steps. */
  function After(r: bv8, n: nat): bv8
  {
    if n == 0 then r else NextBits(After(r, n - 1))
  }

  /** The register when round i takes its bits: seven steps a round, starting from 1. */
  function Register(i: nat): bv8
  {
    if i == 0 then 1 else After(Register(i - 1), 7)
  }

  /** The first bit of the register, at the given place of the lane. */
  function BitAt(r: bv8, place: bv64): Lane
  {
    if r & 1 != 0 then place else 0
  }

  /** The constant of FIPS 202, algorithm 6: bit 2^j - 1 is the j-th of the seven bits taken. */
  function GeneratedConstant(r: bv8): Lane
  {
    BitAt(r, 1) | BitAt(After(r, 1), 2) | BitAt(After(r, 2), 8) | BitAt(After(r, 3), 0x80)
    | BitAt(After(r, 4), 0x8000) | BitAt(After(r, 5), 0x8000_0000) | BitAt(After(r, 6), 0x8000_0000_0000_0000)
  }

  lemma SevenSteps(r: bv8)
    ensures After(r, 1) == NextBits(r) && After(r, 2) == NextBits(After(r, 1)) && After(r, 3) == NextBits(After(r, 2))
    ensures After(r, 4) == NextBits(After(r, 3)) && After(r, 5) == NextBits(After(r, 4))
    ensures After(r, 6) == NextBits(After(r, 5)) && After(r, 7) == NextBits(After(r, 6))
  {
    hide NextBits;
  }

  lemma Registers()
    ensures Register(0) == 0x01 && Register(1) == 0x80 && Register(2) == 0xd8 && Register(3) == 0x1a
    ensures Register(4) == 0xdf && Register(5) == 0x09 && Register(6) == 0x35 && Register(7) == 0x4f
    ensures Register(8) == 0xca && Register(9) == 0x70 && Register(10) == 0x41 && Register(11) == 0xec
    ensures Register(12) == 0xd5 && Register(13) == 0xcd && Register(14) == 0x63 && Register(15) == 0xab
    ensures Register(16) == 0xaa && Register(17) == 0x2a && Register(18) == 0xf2 && Register(19) == 0xe8
    ensures Register(20) == 0x37 && Register(21) == 0x3e && Register(22) == 0x0b && Register(23) == 0x44
  {
    SevenSteps(0x01);
    assert Register(1) == 0x80;
    SevenSteps(0x80);
    assert Register(2) == 0xd8;
    SevenSteps(0xd8);
    assert Register(3) == 0x1a;
    SevenSteps(0x1a);
    assert Register(4) == 0xdf;
    SevenSteps(0xdf);
    assert Register(5) == 0x09;
    SevenSteps(0x09);
    assert Register(6) == 0x35;
    SevenSteps(0x35);
    assert Register(7) == 0x4f;
    SevenSteps(0x4f);
    assert Register(8) == 0xca;
    SevenSteps(0xca);
    assert Register(9) == 0x70;
    SevenSteps(0x70);
    assert Register(10) == 0x41;
    SevenSteps(0x41);
    assert Register(11) == 0xec;
    SevenSteps(0xec);
    assert Register(12) == 0xd5;
    SevenSteps(0xd5);
    assert Register(13) == 0xcd;
    SevenSteps(0xcd);
    assert Register(14) == 0x63;
    SevenSteps(0x63);
    assert Register(15) == 0xab;
    SevenSteps(0xab);
    assert Register(16) == 0xaa;
    SevenSteps(0xaa);
    assert Register(17) == 0x2a;
    SevenSteps(0x2a);
    assert Register(18) == 0xf2;
    SevenSteps(0xf2);
    assert Register(19) == 0xe8;
    SevenSteps(0xe8);
    assert Register(20) == 0x37;
    SevenSteps(0x37);
    assert Register(21) == 0x3e;
    SevenSteps(0x3e);
    assert Register(22) == 0x0b;
    SevenSteps(0x0b);
    assert Register(23) == 0x44;
  }

  /** Every round constant of the table is the generated one. */
  lemma RoundConstantsGenerated(i: nat)
    requires i < 24
    ensures RoundConstant(i) == GeneratedConstant(Register(i))
  {
    Registers();
    hide Register, RoundConstant, GeneratedConstant, After, NextBits;
    if i < 6 {
      First(i, Register(i));
    } else if i < 12 {
      Second(i, Register(i));
    } else if i < 18 {
      Third(i, Register(i));
    } else {
      Fourth(i, Register(i));
    }
  }

  lemma First(i: nat, r: bv8)
    requires 0 <= i < 6
    requires r == [0x01, 0x80, 0xd8, 0x1a, 0xdf, 0x09][i - 0]
    ensures RoundConstant(i) == GeneratedConstant(r)
  {
    SevenSteps(r);
    hide After;
  }

  lemma Second(i: nat, r: bv8)
    requires 6 <= i < 12
    requires r == [0x35, 0x4f, 0xca, 0x70, 0x41, 0xec][i - 6]
    ensures RoundConstant(i) == GeneratedConstant(r)
  {
    SevenSteps(r);
    hide After;
  }

  lemma Third(i: nat, r: bv8)
    requires 12 <= i < 18
    requires r == [0xd5, 0xcd, 0x63, 0xab, 0xaa, 0x2a][i - 12]
    ensures RoundConstant(i) == GeneratedConstant(r)
  {
    SevenSteps(r);
    hide After;
  }

  lemma Fourth(i: nat, r: bv8)
    requires 18 <= i < 24
    requires r == [0xf2, 0xe8, 0x37, 0x3e, 0x0b, 0x44][i - 18]
    ensures RoundConstant(i) == GeneratedConstant(r)
  {
    SevenSteps(r);
    hide After;
  }

  // ----- rotation offsets -----

  datatype Position = Position(x: Coord, y: Coord)

  function Next(p: Position): Position
  {
    Position(p.y, Wrap(2 * p.x + 3 * p.y))
  }

  /** The walk of FIPS 202, section 3.2.2, over the 24 lanes other than (0, 0). */
  function Walk(t: nat): Position
  {
    if t == 0 then Position(1, 0) else Next(Walk(t - 1))
  }

  /** How far the lane met at step t turns: (t + 1)(t + 2) / 2. */
  function Turns(t: nat): nat
  {
    if t == 0 then 1 else Turns(t - 1) + t + 1
  }

  lemma {:induction false} TurnsFormula(t: nat)
    ensures 2 * Turns(t) == (t + 1) * (t + 2)
  {
    if t > 0 { TurnsFormula(t - 1); }
  }

  lemma Step(t: nat, p: Position, n: nat)
    requires Walk(t) == p && Turns(t) == n
    ensures Walk(t + 1) == Next(p) && Turns(t + 1) == n + t + 2
  {
  }

  ghost predicate OffsetMet(t: nat)
  {
    Offset(Walk(t).x, Walk(t).y) == Turns(t) % 64
  }

  lemma Walk0()
    ensures OffsetMet(0) && OffsetMet(1) && OffsetMet(2) && OffsetMet(3)
    ensures Walk(3) == Position(1, 2) && Turns(3) == 10
  {
    Step(0, Position(1, 0), 1);
    Step(1, Position(0, 2), 3);
    Step(2, Position(2, 1), 6);
  }

  lemma Walk1()
    requires Walk(3) == Position(1, 2) && Turns(3) == 10
    ensures OffsetMet(4) && OffsetMet(5) && OffsetMet(6) && OffsetMet(7)
    ensures Walk(7) == Position(0, 1) && Turns(7) == 36
  {
    hide Walk, Turns;
    Step(3, Position(1, 2), 10);
    Step(4, Position(2, 3), 15);
    Step(5, Position(3, 3), 21);
    Step(6, Position(3, 0), 28);
  }

  lemma Walk2()
    requires Walk(7) == Position(0, 1) && Turns(7) == 36
    ensures OffsetMet(8) && OffsetMet(9) && OffsetMet(10) && OffsetMet(11)
    ensures Walk(11) == Position(4, 4) && Turns(11) == 78
  {
    hide Walk, Turns;
    Step(7, Position(0, 1), 36);
    Step(8, Position(1, 3), 45);
    Step(9, Position(3, 1), 55);
    Step(10, Position(1, 4), 66);
  }

  lemma Walk3()
    requires Walk(11) == Position(4, 4) && Turns(11) == 78
    ensures OffsetMet(12) && OffsetMet(13) && OffsetMet(14) && OffsetMet(15)
    ensures Walk(15) == Position(4, 3) && Turns(15) == 136
  {
    hide Walk, Turns;
    Step(11, Position(4, 4), 78);
    Step(12, Position(4, 0), 91);
    Step(13, Position(0, 3), 105);
    Step(14, Position(3, 4), 120);
  }

  lemma Walk4()
    requires Walk(15) == Position(4, 3) && Turns(15) == 136
    ensures OffsetMet(16) && OffsetMet(17) && OffsetMet(18) && OffsetMet(19)
    ensures Walk(19) == Position(0, 4) && Turns(19) == 210
  {
    hide Walk, Turns;
    Step(15, Position(4, 3), 136);
    Step(16, Position(3, 2), 153);
    Step(17, Position(2, 2), 171);
    Step(18, Position(2, 0), 190);
  }

  lemma Walk5()
    requires Walk(19) == Position(0, 4) && Turns(19) == 210
    ensures OffsetMet(20) && OffsetMet(21) && OffsetMet(22) && OffsetMet(23)
    ensures Walk(23) == Position(1, 1) && Turns(23) == 300
  {
    hide Walk, Turns;
    Step(19, Position(0, 4), 210);
    Step(20, Position(4, 2), 231);
    Step(21, Position(2, 4), 253);
    Step(22, Position(4, 1), 276);
  }

  /** Every offset of the table is the one the walk gives. */
  lemma OffsetsWalked(t: nat)
    requires t < 24
    ensures OffsetMet(t) && 2 * Turns(t) == (t + 1) * (t + 2)
  {
    hide Walk, Turns, OffsetMet;
    TurnsFormula(t);
    Walk0();
    Walk1();
    Walk2();
    Walk3();
    Walk4();
    Walk5();
  }
}
