/** The functions of section 4.1.2 of FIPS 180-4 on 32-bit words, and what they do to each bit. */
module WordBits {
  // ----- section 3.2: operations on words -----

  function Xor(x: bv32, y: bv32): bv32 {
    x ^ y
  }

  function And(x: bv32, y: bv32): bv32 {
    x & y
  }

  function Not(x: bv32): bv32 {
    !x
  }

  /** Rotation to the right. */
  function Turn(x: bv32, n: nat): bv32
    requires n < 32
  {
    x.RotateRight(n)
  }

  /** Shift to the right. */
  function Shift(x: bv32, n: nat): bv32
    requires n < 32
  {
    x >> n
  }

  // ----- section 4.1.2: functions -----

  function Choose(x: bv32, y: bv32, z: bv32): bv32 {
    Xor(And(x, y), And(Not(x), z))
  }

  function Majority(x: bv32, y: bv32, z: bv32): bv32 {
    Xor(Xor(And(x, y), And(x, z)), And(y, z))
  }

  function BigSigma0(x: bv32): bv32 {
    Xor(Xor(Turn(x, 2), Turn(x, 13)), Turn(x, 22))
  }

  function BigSigma1(x: bv32): bv32 {
    Xor(Xor(Turn(x, 6), Turn(x, 11)), Turn(x, 25))
  }

  function SmallSigma0(x: bv32): bv32 {
    Xor(Xor(Turn(x, 7), Turn(x, 18)), Shift(x, 3))
  }

  function SmallSigma1(x: bv32): bv32 {
    Xor(Xor(Turn(x, 17), Turn(x, 19)), Shift(x, 10))
  }

  // ----- bit by bit -----

  /** Bit i of a word, counted from the lowest. */
  predicate Bit(x: bv32, i: bv6)
    requires i < 32
  {
    (x >> i) & 1 == 1
  }

  lemma XorBit(x: bv32, y: bv32, i: bv6)
    requires i < 32
    ensures Bit(Xor(x, y), i) <==> Bit(x, i) != Bit(y, i)
  {
    hide Bit;
    BitOfXor(x, y, i);
  }

  lemma BitOfXor(x: bv32, y: bv32, i: bv6)
    requires i < 32
    ensures Bit(x ^ y, i) <==> Bit(x, i) != Bit(y, i)
  {
    hide Xor;
  }

  lemma AndBit(x: bv32, y: bv32, i: bv6)
    requires i < 32
    ensures Bit(And(x, y), i) <==> Bit(x, i) && Bit(y, i)
  {
  }

  lemma NotBit(x: bv32, i: bv6)
    requires i < 32
    ensures Bit(Not(x), i) <==> !Bit(x, i)
  {
  }

  lemma Turn2Bit(x: bv32, i: bv6)
    requires i < 32
    ensures Bit(Turn(x, 2), i) <==> Bit(x, (i + 2) % 32)
  {
  }

  lemma Turn6Bit(x: bv32, i: bv6)
    requires i < 32
    ensures Bit(Turn(x, 6), i) <==> Bit(x, (i + 6) % 32)
  {
  }

  lemma Turn7Bit(x: bv32, i: bv6)
    requires i < 32
    ensures Bit(Turn(x, 7), i) <==> Bit(x, (i + 7) % 32)
  {
  }

  lemma Turn11Bit(x: bv32, i: bv6)
    requires i < 32
    ensures Bit(Turn(x, 11), i) <==> Bit(x, (i + 11) % 32)
  {
  }

  lemma Turn13Bit(x: bv32, i: bv6)
    requires i < 32
    ensures Bit(Turn(x, 13), i) <==> Bit(x, (i + 13) % 32)
  {
  }

  lemma Turn17Bit(x: bv32, i: bv6)
    requires i < 32
    ensures Bit(Turn(x, 17), i) <==> Bit(x, (i + 17) % 32)
  {
  }

  lemma Turn18Bit(x: bv32, i: bv6)
    requires i < 32
    ensures Bit(Turn(x, 18), i) <==> Bit(x, (i + 18) % 32)
  {
  }

  lemma Turn19Bit(x: bv32, i: bv6)
    requires i < 32
    ensures Bit(Turn(x, 19), i) <==> Bit(x, (i + 19) % 32)
  {
  }

  lemma Turn22Bit(x: bv32, i: bv6)
    requires i < 32
    ensures Bit(Turn(x, 22), i) <==> Bit(x, (i + 22) % 32)
  {
  }

  lemma Turn25Bit(x: bv32, i: bv6)
    requires i < 32
    ensures Bit(Turn(x, 25), i) <==> Bit(x, (i + 25) % 32)
  {
  }

  lemma Shift3Bit(x: bv32, i: bv6)
    requires i < 32
    ensures Bit(Shift(x, 3), i) <==> i < 29 && Bit(x, i + 3)
  {
  }

  lemma Shift10Bit(x: bv32, i: bv6)
    requires i < 32
    ensures Bit(Shift(x, 10), i) <==> i < 22 && Bit(x, i + 10)
  {
  }

  lemma ThreeXored(x: bv32, y: bv32, z: bv32, i: bv6)
    requires i < 32
    ensures Bit(Xor(Xor(x, y), z), i) <==> ((Bit(x, i) != Bit(y, i)) != Bit(z, i))
  {
    hide Bit, Xor;
    XorBit(x, y, i);
    XorBit(Xor(x, y), z, i);
  }

  lemma ChooseBit(x: bv32, y: bv32, z: bv32, i: bv6)
    requires i < 32
    ensures Bit(Choose(x, y, z), i) <==> if Bit(x, i) then Bit(y, i) else Bit(z, i)
  {
    hide Bit, Xor, And, Not;
    AndBit(x, y, i);
    NotBit(x, i);
    AndBit(Not(x), z, i);
    XorBit(And(x, y), And(Not(x), z), i);
  }

  lemma MajorityBit(x: bv32, y: bv32, z: bv32, i: bv6)
    requires i < 32
    ensures Bit(Majority(x, y, z), i) <==>
            (Bit(x, i) && Bit(y, i)) || (Bit(x, i) && Bit(z, i)) || (Bit(y, i) && Bit(z, i))
  {
    hide Bit, Xor, And;
    AndBit(x, y, i);
    AndBit(x, z, i);
    AndBit(y, z, i);
    ThreeXored(And(x, y), And(x, z), And(y, z), i);
  }

  lemma BigSigma0Bit(x: bv32, i: bv6)
    requires i < 32
    ensures Bit(BigSigma0(x), i) <==>
            ((Bit(x, (i + 2) % 32) != Bit(x, (i + 13) % 32)) != Bit(x, (i + 22) % 32))
  {
    hide Bit, Xor, Turn, Shift;
    Turn2Bit(x, i);
    Turn13Bit(x, i);
    Turn22Bit(x, i);
    ThreeXored(Turn(x, 2), Turn(x, 13), Turn(x, 22), i);
  }

  lemma BigSigma1Bit(x: bv32, i: bv6)
    requires i < 32
    ensures Bit(BigSigma1(x), i) <==>
            ((Bit(x, (i + 6) % 32) != Bit(x, (i + 11) % 32)) != Bit(x, (i + 25) % 32))
  {
    hide Bit, Xor, Turn, Shift;
    Turn6Bit(x, i);
    Turn11Bit(x, i);
    Turn25Bit(x, i);
    ThreeXored(Turn(x, 6), Turn(x, 11), Turn(x, 25), i);
  }

  lemma SmallSigma0Bit(x: bv32, i: bv6)
    requires i < 32
    ensures Bit(SmallSigma0(x), i) <==>
            ((Bit(x, (i + 7) % 32) != Bit(x, (i + 18) % 32)) != (i < 29 && Bit(x, i + 3)))
  {
    hide Bit, Xor, Turn, Shift;
    Turn7Bit(x, i);
    Turn18Bit(x, i);
    Shift3Bit(x, i);
    ThreeXored(Turn(x, 7), Turn(x, 18), Shift(x, 3), i);
  }

  lemma SmallSigma1Bit(x: bv32, i: bv6)
    requires i < 32
    ensures Bit(SmallSigma1(x), i) <==>
            ((Bit(x, (i + 17) % 32) != Bit(x, (i + 19) % 32)) != (i < 22 && Bit(x, i + 10)))
  {
    hide Bit, Xor, Turn, Shift;
    Turn17Bit(x, i);
    Turn19Bit(x, i);
    Shift10Bit(x, i);
    ThreeXored(Turn(x, 17), Turn(x, 19), Shift(x, 10), i);
  }
}
