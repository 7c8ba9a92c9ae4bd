/** Properties of the CHIP-8 semantics in Chip8Spec: what each opcode does to
    pc, registers, flags, memory and pixels, and how opcodes compose. */
module Chip8Properties {
  import opened Chip8Spec

  // ---------------------------------------------------------------------------
  // Decoding a fetched word

  /** The fields of the word `hi * 0x100 + lo` that fetch assembles. */
  lemma DecodeWord(hi: u8, lo: u8)
    ensures hi * 0x100 + lo < 0x1_0000
    ensures var op: u16 := hi * 0x100 + lo;
      && Family(op) == hi / 0x10
      && RegX(op) == hi % 0x10
      && RegY(op) == lo / 0x10
      && LowNibble(op) == lo % 0x10
      && LowByte(op) == lo
      && Address(op) == (hi % 0x10) * 0x100 + lo
  {
    var op := hi * 0x100 + lo;
    assert op / 0x100 == hi;
    assert op % 0x100 == lo;
    assert op / 0x1000 == hi / 0x10;
    assert op / 0x10 == hi * 0x10 + lo / 0x10;
    assert op % 0x10 == lo % 0x10;
    assert op % 0x1000 == (hi % 0x10) * 0x100 + lo;
  }

  // ---------------------------------------------------------------------------
  // make_bitvector

  /** Reads a bit vector as a binary number, most significant bit first. */
  function FromBits(bits: seq<u8>): nat
  {
    if bits == [] then 0 else 2 * FromBits(bits[..|bits| - 1]) + bits[|bits| - 1]
  }

  /** `b >> k` on naturals, by halving. */
  function Shr(b: nat, k: nat): nat {
    if k == 0 then b else Shr(b / 2, k - 1)
  }

  lemma {:induction false} BitIsShr(b: nat, k: nat)
    ensures Bit(b, k) == Shr(b, k) % 2
  {
    if k > 0 {
      BitIsShr(b / 2, k - 1);
    }
  }

  lemma {:induction false} ShrStep(b: nat, k: nat)
    ensures Shr(b, k + 1) == Shr(b, k) / 2
  {
    if k > 0 {
      ShrStep(b / 2, k - 1);
    }
  }

  lemma {:induction false} ShrMonotone(b: nat, c: nat, k: nat)
    requires b <= c
    ensures Shr(b, k) <= Shr(c, k)
  {
    if k > 0 {
      ShrMonotone(b / 2, c / 2, k - 1);
    }
  }

  /** The first `n` pixels of a row, read as a number, are the byte shifted
      right by 8 - n. */
  lemma {:induction false} PrefixValue(b: u8, n: nat)
    requires 1 <= n <= 7
    ensures FromBits(BitVector(b)[..n]) == Shr(b, 8 - n)
  {
    var v := BitVector(b);
    BitIsShr(b, 8 - n);
    if n == 1 {
      ShrMonotone(b, 255, 7);
      assert Shr(255, 7) == 1;
      assert v[..1][..0] == [];
    } else {
      PrefixValue(b, n - 1);
      ShrStep(b, 8 - n);
      assert v[..n][..n - 1] == v[..n - 1];
    }
  }

  /** The eight pixels of a sprite row spell out the byte with its lowest bit
      cleared: bits 7..1 come out in order and the last pixel is always 0. */
  lemma {:induction false} BitVectorReadsBack(b: u8)
    ensures FromBits(BitVector(b)) == b - b % 2
  {
    var v := BitVector(b);
    PrefixValue(b, 7);
    assert v[..8][..7] == v[..7];
    assert v[..8] == v;
  }

  /** The bits of 0b01101110, from the top. */
  lemma BitsOf0x6E()
    ensures Bit(0x6E, 7) == 0 && Bit(0x6E, 6) == 1 && Bit(0x6E, 5) == 1 && Bit(0x6E, 4) == 0
    ensures Bit(0x6E, 3) == 1 && Bit(0x6E, 2) == 1 && Bit(0x6E, 1) == 1
  {
  }

  /** The unit test of `make_bitvector`: 0b01101110 gives [0,1,1,0,1,1,1,0]. */
  lemma BitVectorExample()
    ensures BitVector(0x6E) == [0, 1, 1, 0, 1, 1, 1, 0]
  {
    BitsOf0x6E();
  }

  /** An odd byte draws exactly like the even byte below it. */
  lemma LowestBitNeverDrawn(b: u8)
    requires b % 2 == 1
    ensures BitVector(b) == BitVector(b - 1)
  {
    forall i | 0 <= i < 7
      ensures BitVector(b)[i] == BitVector(b - 1)[i]
    {
      BitOfOddPredecessor(b, 7 - i);
    }
  }

  lemma BitOfOddPredecessor(b: nat, k: nat)
    requires b % 2 == 1 && k >= 1
    ensures Bit(b, k) == Bit(b - 1, k)
  {
    assert (b - 1) / 2 == b / 2;
  }

  // ---------------------------------------------------------------------------
  // Unknown opcodes

  /** The opcodes `executeOpcode` has an arm for, listed family by family. */
  predicate Known(op: u16) {
    || op == 0x00E0 || op == 0x00EE
    || Family(op) in {0x1, 0x2, 0x3, 0x4, 0x5, 0x6, 0x7, 0x9, 0xA, 0xB, 0xC, 0xD}
    || (Family(op) == 0x8 && LowNibble(op) in {0x0, 0x1, 0x2, 0x3, 0x4, 0x5, 0x6, 0x7, 0xE})
    || (Family(op) == 0xE && LowByte(op) in {0x9E, 0xA1})
    || (Family(op) == 0xF && LowByte(op) in {0x07, 0x0A, 0x15, 0x18, 0x1E, 0x29, 0x33, 0x55, 0x65})
  }

  /** Exactly the opcodes without an arm panic as bad opcodes; a known opcode
      may fail in other ways but never with this fault. */
  lemma UnknownOpcodePanics(m: Machine, rnd: RandomByte)
    requires WellFormed(m)
    ensures !Known(m.opcode) <==> Execute(m, rnd) == Err(UnknownOpcode(m.opcode))
  {
  }

  // ---------------------------------------------------------------------------
  // Skips

  /** The six conditional-skip opcodes. */
  predicate IsSkip(op: u16) {
    || Family(op) in {0x3, 0x4, 0x5, 0x9}
    || (Family(op) == 0xE && LowByte(op) in {0x9E, 0xA1})
  }

  /** When a skip opcode skips. */
  predicate SkipTaken(m: Machine)
    requires WellFormed(m) && IsSkip(m.opcode)
    requires Family(m.opcode) == 0xE ==> m.reg[RegX(m.opcode)] < KeyCount
  {
    var op := m.opcode;
    var vx: int := m.reg[RegX(op)];
    var vy: int := m.reg[RegY(op)];
    match Family(op)
    case 0x3 => vx == LowByte(op)
    case 0x4 => vx != LowByte(op)
    case 0x5 => vx == vy
    case 0x9 => vx != vy
    case _ => if LowByte(op) == 0x9E then m.key[vx] != 0 else m.key[vx] == 0
  }

  /** 3XNN, 4XNN, 5XY?, 9XY?, EX9E and EXA1 move pc by 4 when the condition
      holds and by 2 otherwise, and change nothing else. */
  lemma SkipAdvancesPc(m: Machine, rnd: RandomByte)
    requires WellFormed(m) && IsSkip(m.opcode) && m.pc + 4 <= MaxU16
    requires Family(m.opcode) == 0xE ==> m.reg[RegX(m.opcode)] < KeyCount
    ensures Execute(m, rnd) == Ok(m.(pc := m.pc + if SkipTaken(m) then 4 else 2))
  {
  }

  /** 5XY? and 9XY? only look at the high nibble: the low nibble is ignored. */
  lemma RegisterSkipIgnoresLowNibble(m: Machine, rnd: RandomByte, op2: u16)
    requires WellFormed(m) && Family(m.opcode) in {0x5, 0x9}
    requires op2 / 0x10 == m.opcode / 0x10
    ensures Execute(m.(opcode := op2), rnd).Ok? == Execute(m, rnd).Ok?
    ensures Execute(m, rnd).Ok? ==>
      Execute(m.(opcode := op2), rnd).value == Execute(m, rnd).value.(opcode := op2)
  {
    var op := m.opcode;
    assert op / 0x1000 == (op / 0x10) / 0x100 && op2 / 0x1000 == (op2 / 0x10) / 0x100;
    assert op / 0x100 == (op / 0x10) / 0x10 && op2 / 0x100 == (op2 / 0x10) / 0x10;
  }

  /** EX9E and EXA1 with VX past the last key panic. */
  lemma KeySkipOutOfRange(m: Machine, rnd: RandomByte)
    requires WellFormed(m) && Family(m.opcode) == 0xE && LowByte(m.opcode) in {0x9E, 0xA1}
    requires m.reg[RegX(m.opcode)] >= KeyCount
    ensures Execute(m, rnd) == Err(KeyOutOfBounds(m.reg[RegX(m.opcode)]))
  {
  }

  // ---------------------------------------------------------------------------
  // Call and return

  /** 2NNN pushes pc and jumps; 00EE then pops and lands after the call. */
  lemma CallThenReturn(m: Machine, rnd: RandomByte, rnd': RandomByte)
    requires WellFormed(m) && Family(m.opcode) == 0x2 && m.sp < StackSize && m.pc + 2 <= MaxU16
    ensures Execute(m, rnd).Ok?
    ensures var called := Execute(m, rnd).value;
      && called.sp == m.sp + 1 && called.pc == Address(m.opcode) && called.stack[m.sp] == m.pc
      && Execute(called.(opcode := 0x00EE), rnd') ==
           Ok(m.(opcode := 0x00EE, stack := called.stack, pc := m.pc + 2))
  {
  }

  /** 00EE with an empty stack panics: `sp -= 1` underflows. */
  lemma ReturnOnEmptyStack(m: Machine, rnd: RandomByte)
    requires WellFormed(m) && m.opcode == 0x00EE && m.sp == 0
    ensures Execute(m, rnd) == Err(StackUnderflow)
  {
  }

  /** 2NNN with all sixteen slots in use panics. */
  lemma CallOnFullStack(m: Machine, rnd: RandomByte)
    requires WellFormed(m) && Family(m.opcode) == 0x2 && m.sp == StackSize
    ensures Execute(m, rnd) == Err(StackOutOfBounds(StackSize))
  {
  }

  /** 00EE on its own: pops the top return address, lands just after it and
      leaves the stack contents as they were. */
  lemma ReturnPopsStack(m: Machine, rnd: RandomByte)
    requires WellFormed(m) && m.opcode == 0x00EE && 0 < m.sp <= StackSize
    requires m.stack[m.sp - 1] + 2 <= MaxU16
    ensures Execute(m, rnd) == Ok(m.(sp := m.sp - 1, pc := m.stack[m.sp - 1] + 2))
  {
  }

  /** 00EE with sp past the sixteen slots panics on the slot it reads. */
  lemma ReturnAboveStack(m: Machine, rnd: RandomByte)
    requires WellFormed(m) && m.opcode == 0x00EE && m.sp > StackSize
    ensures Execute(m, rnd) == Err(StackOutOfBounds(m.sp - 1))
  {
  }

  /** 00EE to a return address of 0xFFFE or more overflows `pc += 2`. */
  lemma ReturnPastLastAddress(m: Machine, rnd: RandomByte)
    requires WellFormed(m) && m.opcode == 0x00EE && 0 < m.sp <= StackSize
    requires m.stack[m.sp - 1] + 2 > MaxU16
    ensures Execute(m, rnd) == Err(PcOverflow)
  {
  }

  // ---------------------------------------------------------------------------
  // Jumps and the index register

  /** 1NNN sets pc to NNN and changes nothing else. */
  lemma JumpSetsPc(m: Machine, rnd: RandomByte)
    requires WellFormed(m) && Family(m.opcode) == 0x1
    ensures Execute(m, rnd) == Ok(m.(pc := Address(m.opcode)))
    ensures Execute(m, rnd).value.pc < MemorySize
  {
  }

  /** BNNN jumps to NNN + V0, which is at most 0xFFF + 0xFF and so never
      overflows; nothing else changes. */
  lemma JumpWithOffsetSetsPc(m: Machine, rnd: RandomByte)
    requires WellFormed(m) && Family(m.opcode) == 0xB
    ensures Execute(m, rnd) == Ok(m.(pc := Address(m.opcode) + m.reg[0] as int))
    ensures Execute(m, rnd).value.pc <= 0xFFF + 0xFF
  {
  }

  /** ANNN sets index to NNN and moves pc by 2. */
  lemma SetIndexToAddress(m: Machine, rnd: RandomByte)
    requires WellFormed(m) && Family(m.opcode) == 0xA && m.pc + 2 <= MaxU16
    ensures Execute(m, rnd) == Ok(m.(index := Address(m.opcode), pc := m.pc + 2))
    ensures Execute(m, rnd).value.index < MemorySize
  {
  }

  /** FX1E adds VX to index; the sum leaving 16 bits is the only way it panics. */
  lemma AddToIndex(m: Machine, rnd: RandomByte)
    requires WellFormed(m) && Family(m.opcode) == 0xF && LowByte(m.opcode) == 0x1E && m.pc + 2 <= MaxU16
    ensures var sum := m.index as int + m.reg[RegX(m.opcode)];
      && (Execute(m, rnd).Err? <==> sum > MaxU16)
      && (sum > MaxU16 ==> Execute(m, rnd) == Err(IndexOverflow))
      && (sum <= MaxU16 ==> Execute(m, rnd) == Ok(m.(index := sum, pc := m.pc + 2)))
  {
  }

  // ---------------------------------------------------------------------------
  // Arithmetic and flags

  /** The registers other than VX and VF are untouched. */
  predicate OthersKept(before: seq<u8>, after: seq<u8>, x: int)
    requires |before| == RegCount && |after| == RegCount
  {
    forall r :: 0 <= r < RegCount && r != x && r != FlagReg ==> after[r] == before[r]
  }

  /** 8XY0..8XY3: VX gets VY, VX | VY, VX & VY or VX ^ VY; VF and the other
      registers are untouched and pc moves by 2. */
  lemma CopyAndLogicSetRegister(m: Machine, rnd: RandomByte)
    requires WellFormed(m) && Family(m.opcode) == 0x8 && LowNibble(m.opcode) <= 0x3 && m.pc + 2 <= MaxU16
    ensures var x := RegX(m.opcode); var vx := m.reg[x]; var vy := m.reg[RegY(m.opcode)];
      var v := match LowNibble(m.opcode)
        case 0x0 => vy
        case 0x1 => BitOr(vx, vy)
        case 0x2 => BitAnd(vx, vy)
        case _ => BitXor(vx, vy);
      Execute(m, rnd) == Ok(m.(reg := m.reg[x := v], pc := m.pc + 2))
  {
  }

  /** 8XX3 clears VX, and 8XX1 and 8XX2 leave it as it was. */
  lemma LogicWithItself(a: u8)
    ensures BitXor(a, a) == 0 && BitOr(a, a) == a && BitAnd(a, a) == a
  {
  }

  /** The three unit tests of 8XY1..8XY3 with VA = 0xB and V2 = 0xC. */
  lemma LogicExamples()
    ensures BitOr(0xB, 0xC) == 0xF && BitAnd(0xB, 0xC) == 0x8 && BitXor(0xB, 0xC) == 0x7
  {
  }

  /** 8XY4: VF is 1 exactly when VX + VY exceeds 255; VX gets the sum mod 256. */
  lemma AddSetsCarry(m: Machine, rnd: RandomByte)
    requires WellFormed(m) && Family(m.opcode) == 0x8 && LowNibble(m.opcode) == 0x4
    requires RegX(m.opcode) != FlagReg && RegY(m.opcode) != FlagReg && m.pc + 2 <= MaxU16
    ensures var r := Execute(m, rnd); var vx: int := m.reg[RegX(m.opcode)]; var vy: int := m.reg[RegY(m.opcode)];
      && r.Ok? && r.value.pc == m.pc + 2
      && (r.value.reg[FlagReg] == 1 <==> vx + vy > 0xFF)
      && (r.value.reg[FlagReg] == 0 <==> vx + vy <= 0xFF)
      && r.value.reg[RegX(m.opcode)] == (vx + vy) % 0x100
      && OthersKept(m.reg, r.value.reg, RegX(m.opcode))
  {
  }

  /** 8XY5: VF is 0 exactly when VY > VX (a borrow); VX gets VX - VY mod 256. */
  lemma SubSetsBorrow(m: Machine, rnd: RandomByte)
    requires WellFormed(m) && Family(m.opcode) == 0x8 && LowNibble(m.opcode) == 0x5
    requires RegX(m.opcode) != FlagReg && RegY(m.opcode) != FlagReg && m.pc + 2 <= MaxU16
    ensures var r := Execute(m, rnd); var vx: int := m.reg[RegX(m.opcode)]; var vy: int := m.reg[RegY(m.opcode)];
      && r.Ok? && r.value.pc == m.pc + 2
      && (r.value.reg[FlagReg] == 0 <==> vy > vx)
      && (r.value.reg[FlagReg] == 1 <==> vy <= vx)
      && r.value.reg[RegX(m.opcode)] == (vx - vy) % 0x100
      && OthersKept(m.reg, r.value.reg, RegX(m.opcode))
  {
  }

  /** 8XY7: VF is 0 exactly when VX > VY; VX gets VY - VX mod 256. */
  lemma ReverseSubSetsBorrow(m: Machine, rnd: RandomByte)
    requires WellFormed(m) && Family(m.opcode) == 0x8 && LowNibble(m.opcode) == 0x7
    requires RegX(m.opcode) != FlagReg && RegY(m.opcode) != FlagReg && m.pc + 2 <= MaxU16
    ensures var r := Execute(m, rnd); var vx: int := m.reg[RegX(m.opcode)]; var vy: int := m.reg[RegY(m.opcode)];
      && r.Ok? && r.value.pc == m.pc + 2
      && (r.value.reg[FlagReg] == 0 <==> vx > vy)
      && (r.value.reg[FlagReg] == 1 <==> vx <= vy)
      && r.value.reg[RegX(m.opcode)] == (vy - vx) % 0x100
      && OthersKept(m.reg, r.value.reg, RegX(m.opcode))
  {
  }

  /** The top bit of a byte, by halving, is the byte divided by 0x80. */
  lemma TopBit(v: u8)
    ensures Bit(v, 7) == v / 0x80
  {
    var c1 := v / 2;
    var c2 := c1 / 2;
    var c3 := c2 / 2;
    var c4 := c3 / 2;
    var c5 := c4 / 2;
    var c6 := c5 / 2;
    var c7 := c6 / 2;
    assert c2 == v / 4 && c3 == v / 8 && c4 == v / 16 && c5 == v / 32 && c6 == v / 64 && c7 == v / 0x80;
    assert Bit(v, 7) == Bit(c1, 6) == Bit(c2, 5) == Bit(c3, 4) == Bit(c4, 3) == Bit(c5, 2)
                     == Bit(c6, 1) == Bit(c7, 0);
  }

  /** 8XY6: VF gets the lowest bit of VX and VX is halved. */
  lemma ShiftRightSetsLowBit(m: Machine, rnd: RandomByte)
    requires WellFormed(m) && Family(m.opcode) == 0x8 && LowNibble(m.opcode) == 0x6
    requires RegX(m.opcode) != FlagReg && m.pc + 2 <= MaxU16
    ensures var r := Execute(m, rnd); var vx: int := m.reg[RegX(m.opcode)];
      && r.Ok? && r.value.pc == m.pc + 2
      && OthersKept(m.reg, r.value.reg, RegX(m.opcode))
      && r.value.reg[FlagReg] == Bit(vx, 0)
      && 2 * r.value.reg[RegX(m.opcode)] + Bit(vx, 0) == vx
  {
  }

  /** 8XYE: VF gets the highest bit of VX and VX is doubled, that bit dropping off. */
  lemma ShiftLeftSetsHighBit(m: Machine, rnd: RandomByte)
    requires WellFormed(m) && Family(m.opcode) == 0x8 && LowNibble(m.opcode) == 0xE
    requires RegX(m.opcode) != FlagReg && m.pc + 2 <= MaxU16
    ensures var r := Execute(m, rnd); var vx: int := m.reg[RegX(m.opcode)];
      && r.Ok? && r.value.pc == m.pc + 2
      && OthersKept(m.reg, r.value.reg, RegX(m.opcode))
      && r.value.reg[FlagReg] == Bit(vx, 7)
      && r.value.reg[RegX(m.opcode)] + 0x100 * Bit(vx, 7) == 2 * vx
  {
    var x := RegX(m.opcode);
    var vx: int := m.reg[x];
    TopBit(vx);
    var f := m.reg[FlagReg := vx / 0x80];
    assert ExecArithmetic(m) == Ok(m.(reg := f[x := (vx * 2) % 0x100], pc := m.pc + 2));
    assert (vx * 2) % 0x100 + 0x100 * (vx / 0x80) == 2 * vx;
  }

  /** With VF as the destination of 8FY4, the flag is written first and then
      overwritten by the sum, which reads the new flag as its VX operand. */
  lemma AddIntoFlagLosesCarry(m: Machine, rnd: RandomByte)
    requires WellFormed(m) && Family(m.opcode) == 0x8 && LowNibble(m.opcode) == 0x4
    requires RegX(m.opcode) == FlagReg && RegY(m.opcode) != FlagReg && m.pc + 2 <= MaxU16
    ensures var r := Execute(m, rnd); var carry: int := if m.reg[FlagReg] as int + m.reg[RegY(m.opcode)] > 0xFF then 1 else 0;
      && r.Ok?
      && r.value.reg[FlagReg] == (carry + m.reg[RegY(m.opcode)]) % 0x100
  {
  }

  /** With VF as the source of 8XF4, the sum adds the freshly written carry,
      not the old VF. */
  lemma AddFromFlagReadsCarry(m: Machine, rnd: RandomByte)
    requires WellFormed(m) && Family(m.opcode) == 0x8 && LowNibble(m.opcode) == 0x4
    requires RegX(m.opcode) != FlagReg && RegY(m.opcode) == FlagReg && m.pc + 2 <= MaxU16
    ensures var r := Execute(m, rnd); var vx: int := m.reg[RegX(m.opcode)];
      var carry := if vx + m.reg[FlagReg] > 0xFF then 1 else 0;
      && r.Ok?
      && r.value.reg[FlagReg] == carry
      && r.value.reg[RegX(m.opcode)] == (vx + carry) % 0x100
  {
  }

  /** 8FY6 always leaves VF at 0: the shifted-out bit is itself shifted. */
  lemma ShiftRightIntoFlagClearsIt(m: Machine, rnd: RandomByte)
    requires WellFormed(m) && Family(m.opcode) == 0x8 && LowNibble(m.opcode) == 0x6
    requires RegX(m.opcode) == FlagReg && m.pc + 2 <= MaxU16
    ensures Execute(m, rnd).Ok? && Execute(m, rnd).value.reg[FlagReg] == 0
  {
  }

  /** 6XNN sets VX to NN and moves pc by 2. */
  lemma SetRegisterToByte(m: Machine, rnd: RandomByte)
    requires WellFormed(m) && Family(m.opcode) == 0x6 && m.pc + 2 <= MaxU16
    ensures Execute(m, rnd) == Ok(m.(reg := m.reg[RegX(m.opcode) := LowByte(m.opcode)], pc := m.pc + 2))
  {
  }

  /** With VF as the destination of 8FY5, the borrow flag is written first
      and VY is then subtracted from it. */
  lemma SubIntoFlag(m: Machine, rnd: RandomByte)
    requires WellFormed(m) && Family(m.opcode) == 0x8 && LowNibble(m.opcode) == 0x5
    requires RegX(m.opcode) == FlagReg && RegY(m.opcode) != FlagReg && m.pc + 2 <= MaxU16
    ensures var r := Execute(m, rnd); var vy: int := m.reg[RegY(m.opcode)];
      var flag: int := if vy > m.reg[FlagReg] then 0 else 1;
      && r.Ok?
      && r.value.reg[FlagReg] == (flag - vy) % 0x100
  {
  }

  /** With VF as the source of 8XF5, VX loses the freshly written flag, not
      the old VF. */
  lemma SubFromFlag(m: Machine, rnd: RandomByte)
    requires WellFormed(m) && Family(m.opcode) == 0x8 && LowNibble(m.opcode) == 0x5
    requires RegX(m.opcode) != FlagReg && RegY(m.opcode) == FlagReg && m.pc + 2 <= MaxU16
    ensures var r := Execute(m, rnd); var vx: int := m.reg[RegX(m.opcode)];
      var flag: int := if m.reg[FlagReg] > vx then 0 else 1;
      && r.Ok?
      && r.value.reg[FlagReg] == flag
      && r.value.reg[RegX(m.opcode)] == (vx - flag) % 0x100
  {
  }

  /** With VF as the destination of 8FY7, the flag is written first and then
      subtracted from VY. */
  lemma ReverseSubIntoFlag(m: Machine, rnd: RandomByte)
    requires WellFormed(m) && Family(m.opcode) == 0x8 && LowNibble(m.opcode) == 0x7
    requires RegX(m.opcode) == FlagReg && RegY(m.opcode) != FlagReg && m.pc + 2 <= MaxU16
    ensures var r := Execute(m, rnd); var vy: int := m.reg[RegY(m.opcode)];
      var flag: int := if m.reg[FlagReg] > vy then 0 else 1;
      && r.Ok?
      && r.value.reg[FlagReg] == (vy - flag) % 0x100
  {
  }

  /** With VF as the source of 8XF7, VX becomes the freshly written flag
      minus VX, not the old VF minus VX. */
  lemma ReverseSubFromFlag(m: Machine, rnd: RandomByte)
    requires WellFormed(m) && Family(m.opcode) == 0x8 && LowNibble(m.opcode) == 0x7
    requires RegX(m.opcode) != FlagReg && RegY(m.opcode) == FlagReg && m.pc + 2 <= MaxU16
    ensures var r := Execute(m, rnd); var vx: int := m.reg[RegX(m.opcode)];
      var flag: int := if vx > m.reg[FlagReg] then 0 else 1;
      && r.Ok?
      && r.value.reg[FlagReg] == flag
      && r.value.reg[RegX(m.opcode)] == (flag - vx) % 0x100
  {
  }

  /** 8F?E leaves VF at 2 when its top bit was set and at 0 otherwise: the
      shifted-out bit is itself doubled. */
  lemma ShiftLeftIntoFlag(m: Machine, rnd: RandomByte)
    requires WellFormed(m) && Family(m.opcode) == 0x8 && LowNibble(m.opcode) == 0xE
    requires RegX(m.opcode) == FlagReg && m.pc + 2 <= MaxU16
    ensures Execute(m, rnd).Ok?
    ensures Execute(m, rnd).value.reg[FlagReg] == if m.reg[FlagReg] >= 0x80 then 2 else 0
  {
  }

  /** 7XNN wraps and leaves VF alone. */
  lemma AddImmediateWraps(m: Machine, rnd: RandomByte)
    requires WellFormed(m) && Family(m.opcode) == 0x7 && RegX(m.opcode) != FlagReg && m.pc + 2 <= MaxU16
    ensures var r := Execute(m, rnd); var x := RegX(m.opcode);
      && r.Ok? && r.value.reg[x] == (m.reg[x] as int + LowByte(m.opcode)) % 0x100
      && (r.value.reg[x] < m.reg[x] <==> m.reg[x] as int + LowByte(m.opcode) > 0xFF)
      && r.value.reg[FlagReg] == m.reg[FlagReg]
  {
  }

  /** CXNN: VX gets NN masked with the random byte. */
  lemma RandomIsMasked(m: Machine, rnd: RandomByte)
    requires WellFormed(m) && Family(m.opcode) == 0xC && m.pc + 2 <= MaxU16
    ensures var r := Execute(m, rnd);
      && r.Ok? && r.value == m.(reg := m.reg[RegX(m.opcode) := BitAnd(LowByte(m.opcode), rnd)], pc := m.pc + 2)
  {
  }

  // ---------------------------------------------------------------------------
  // Sprites

  /** The pixel a sprite cell covers, as the row and column loops compute it. */
  predicate CellCovers(s: Sprite, row: int, col: int, p: int) {
    && 0 <= row < |s.rows| && 0 <= col < 8
    && s.x + col < Width && s.y + row < Height
    && p == Width * (s.y + row) + (s.x + col)
  }

  lemma PixelSplit(p: int)
    requires 0 <= p
    ensures p == Width * (p / Width) + p % Width && 0 <= p % Width < Width
  {
  }

  lemma PixelJoin(row: int, col: int)
    requires 0 <= row && 0 <= col < Width
    ensures (Width * row + col) / Width == row && (Width * row + col) % Width == col
  {
  }

  /** A pixel is hit exactly when some set bit of some sprite row lands on it
      inside the grid: the closed form matches the loops of DXYN. */
  lemma HitIffSpriteCell(s: Sprite, p: int)
    requires 0 <= s.x && 0 <= s.y && 0 <= p < PixelCount
    ensures Hit(s, p) <==>
      exists row, col :: CellCovers(s, row, col, p) && BitVector(s.rows[row])[col] != 0
  {
    if Hit(s, p) {
      var row, col := p / Width - s.y, p % Width - s.x;
      PixelSplit(p);
      assert CellCovers(s, row, col, p);
    }
    if exists row, col :: CellCovers(s, row, col, p) && BitVector(s.rows[row])[col] != 0 {
      var row, col :| CellCovers(s, row, col, p) && BitVector(s.rows[row])[col] != 0;
      PixelJoin(s.y + row, s.x + col);
    }
  }

  /** XOR drawing is its own inverse. */
  lemma DrawPixelsTwice(g: seq<u8>, s: Sprite)
    requires |g| == PixelCount
    ensures DrawPixels(DrawPixels(g, s), s) == g
  {
    var once := DrawPixels(g, s);
    forall p | 0 <= p < PixelCount
      ensures DrawPixels(once, s)[p] == g[p]
    {
      if Hit(s, p) {
        assert Flip(Flip(g[p])) == g[p];
      }
    }
  }

  /** Drawing a sprite over its own image collides exactly where a hit pixel
      was 0 before the first drawing. */
  lemma SecondDrawCollides(g: seq<u8>, s: Sprite)
    requires |g| == PixelCount
    ensures Collides(DrawPixels(g, s), s) <==> exists p :: 0 <= p < PixelCount && Hit(s, p) && g[p] == 0
  {
    var g1 := DrawPixels(g, s);
    if exists p :: 0 <= p < PixelCount && Hit(s, p) && g[p] == 0 {
      var p :| 0 <= p < PixelCount && Hit(s, p) && g[p] == 0;
      assert g1[p] == 1;
    }
    if Collides(g1, s) {
      var p :| 0 <= p < PixelCount && Hit(s, p) && g1[p] == 1;
      assert Flip(g[p]) == 1;
    }
  }

  /** DXYN drawn twice with the same registers restores the frame buffer, and
      the second draw reports a collision exactly when some hit pixel was 0
      before the first draw. */
  lemma DrawTwiceRestores(m: Machine, rnd: RandomByte)
    requires WellFormed(m) && Family(m.opcode) == 0xD
    requires RegX(m.opcode) != FlagReg && RegY(m.opcode) != FlagReg
    requires Execute(m, rnd).Ok? && m.pc + 4 <= MaxU16
    ensures var once := Execute(m, rnd).value;
      var twice := Execute(once, rnd);
      && twice.Ok? && twice.value.graphics == m.graphics && twice.value.pc == m.pc + 4
      && (twice.value.reg[FlagReg] == 1 <==>
            exists p :: 0 <= p < PixelCount && Hit(SpriteAt(m), p) && m.graphics[p] == 0)
  {
    var s := SpriteAt(m);
    var g1 := DrawPixels(m.graphics, s);
    var once := m.(graphics := g1, reg := m.reg[FlagReg := if Collides(m.graphics, s) then 1 else 0],
                   drawFlag := true, pc := m.pc + 2);
    assert Execute(m, rnd) == ExecDraw(m) == Ok(once);
    assert SpriteAt(once) == s;
    assert Execute(once, rnd) == ExecDraw(once);
    DrawPixelsTwice(m.graphics, s);
    SecondDrawCollides(m.graphics, s);
  }

  /** DXYN panics when `start + n` leaves 16 bits, before any row is read. */
  lemma DrawIndexOverflow(m: Machine, rnd: RandomByte)
    requires WellFormed(m) && Family(m.opcode) == 0xD && m.index + LowNibble(m.opcode) > MaxU16
    ensures Execute(m, rnd) == Err(IndexOverflow)
  {
  }

  /** DXYN with sprite rows past the end of memory panics at the first row
      address beyond it. */
  lemma DrawPastMemory(m: Machine, rnd: RandomByte)
    requires WellFormed(m) && Family(m.opcode) == 0xD && LowNibble(m.opcode) > 0
    requires MemorySize < m.index + LowNibble(m.opcode) <= MaxU16
    ensures Execute(m, rnd) == Err(MemoryOutOfBounds(FirstBadAddress(m.index)))
  {
  }

  /** DXYN always raises the draw flag and moves pc by 2, even with N = 0, and
      changes only the pixels and VF besides. */
  lemma DrawRaisesFlag(m: Machine, rnd: RandomByte)
    requires WellFormed(m) && Family(m.opcode) == 0xD && Execute(m, rnd).Ok?
    ensures var r := Execute(m, rnd).value;
      && r.drawFlag && r.pc == m.pc + 2
      && (forall i :: 0 <= i < RegCount && i != FlagReg ==> r.reg[i] == m.reg[i])
      && r == m.(graphics := r.graphics, reg := r.reg, drawFlag := true, pc := m.pc + 2)
  {
  }

  /** 00E0 blanks every pixel and raises the draw flag, whatever was drawn;
      memory, registers, timers and stack are kept. */
  lemma ClearBlanksScreen(m: Machine, rnd: RandomByte)
    requires WellFormed(m) && m.opcode == 0x00E0 && m.pc + 2 <= MaxU16
    ensures Execute(m, rnd).Ok?
    ensures var r := Execute(m, rnd).value;
      && (forall p :: 0 <= p < PixelCount ==> r.graphics[p] == 0)
      && r == m.(graphics := r.graphics, drawFlag := true, pc := m.pc + 2)
  {
  }

  // ---------------------------------------------------------------------------
  // Memory transfers

  /** FX33 writes three decimal digits of VX at index..index+2. */
  lemma BcdStoresDigits(m: Machine, rnd: RandomByte)
    requires WellFormed(m) && Family(m.opcode) == 0xF && LowByte(m.opcode) == 0x33
    requires m.index + 2 < MemorySize && m.pc + 2 <= MaxU16
    ensures var r := Execute(m, rnd); var v: int := m.reg[RegX(m.opcode)];
      && r.Ok?
      && var mem := r.value.memory;
      && mem[m.index] < 10 && mem[m.index + 1] < 10 && mem[m.index + 2] < 10
      && 100 * mem[m.index] + 10 * mem[m.index + 1] + mem[m.index + 2] == v
      && forall a :: 0 <= a < MemorySize && !(m.index <= a <= m.index + 2) ==> mem[a] == m.memory[a]
  {
  }

  /** FX33 with index + 2 past the end of memory panics at the first address
      beyond it. */
  lemma BcdOutOfRange(m: Machine, rnd: RandomByte)
    requires WellFormed(m) && Family(m.opcode) == 0xF && LowByte(m.opcode) == 0x33
    requires m.index + 2 >= MemorySize
    ensures Execute(m, rnd) == Err(MemoryOutOfBounds(FirstBadAddress(m.index)))
  {
  }

  /** FX33 on 255 stores the digits 2, 5, 5. */
  lemma BcdOf255()
    ensures Bcd(0xFF) == [2, 5, 5]
  {
  }

  /** FX55 writes V0..VX at index..index+X and no other byte. */
  lemma StoreWritesOnlyItsWindow(m: Machine, rnd: RandomByte)
    requires WellFormed(m) && Family(m.opcode) == 0xF && LowByte(m.opcode) == 0x55
    requires m.index + RegX(m.opcode) < MemorySize && m.pc + 2 <= MaxU16
    ensures var r := Execute(m, rnd); var x := RegX(m.opcode);
      && r.Ok?
      && (forall i :: 0 <= i <= x ==> r.value.memory[m.index + i] == m.reg[i])
      && (forall a :: 0 <= a < MemorySize && !(m.index <= a <= m.index + x) ==> r.value.memory[a] == m.memory[a])
      && r.value.reg == m.reg
  {
  }

  /** FX55 followed by FX65 with the same X and index gives back V0..VX, and
      so every register. */
  lemma StoreThenLoadRestores(m: Machine, op2: u16, rnd: RandomByte, rnd': RandomByte)
    requires WellFormed(m) && Family(m.opcode) == 0xF && LowByte(m.opcode) == 0x55
    requires Family(op2) == 0xF && LowByte(op2) == 0x65 && RegX(op2) == RegX(m.opcode)
    requires m.index + RegX(m.opcode) < MemorySize && m.pc + 4 <= MaxU16
    ensures Execute(m, rnd).Ok?
    ensures var stored := Execute(m, rnd).value;
      var loaded := Execute(stored.(opcode := op2), rnd');
      loaded.Ok? && loaded.value.reg == m.reg && loaded.value.index == m.index
  {
    var x := RegX(m.opcode);
    var stored := Execute(m, rnd).value;
    var loaded := Execute(stored.(opcode := op2), rnd').value;
    assert stored.memory == StoreRegs(m, x);
    assert loaded.reg == LoadRegs(stored, x);
    forall i | 0 <= i < RegCount
      ensures loaded.reg[i] == m.reg[i]
    {
      if i <= x {
        assert stored.memory[m.index + i] == m.reg[i];
      }
    }
  }

  /** FX65 fills V0..VX from index..index+X, keeps the registers above X and
      changes nothing else but pc. */
  lemma LoadReadsItsWindow(m: Machine, rnd: RandomByte)
    requires WellFormed(m) && Family(m.opcode) == 0xF && LowByte(m.opcode) == 0x65
    requires m.index + RegX(m.opcode) < MemorySize && m.pc + 2 <= MaxU16
    ensures var r := Execute(m, rnd); var x := RegX(m.opcode);
      && r.Ok?
      && (forall i :: 0 <= i <= x ==> r.value.reg[i] == m.memory[m.index + i])
      && (forall i :: x < i < RegCount ==> r.value.reg[i] == m.reg[i])
      && r.value == m.(reg := r.value.reg, pc := m.pc + 2)
  {
  }

  /** FX65 past the end of memory panics at the first address beyond it. */
  lemma LoadOutOfRange(m: Machine, rnd: RandomByte)
    requires WellFormed(m) && Family(m.opcode) == 0xF && LowByte(m.opcode) == 0x65
    requires m.index + RegX(m.opcode) >= MemorySize
    ensures Execute(m, rnd) == Err(MemoryOutOfBounds(FirstBadAddress(m.index)))
  {
  }

  /** FX55 past the end of memory panics at the first address beyond it. */
  lemma StoreOutOfRange(m: Machine, rnd: RandomByte)
    requires WellFormed(m) && Family(m.opcode) == 0xF && LowByte(m.opcode) == 0x55
    requires m.index + RegX(m.opcode) >= MemorySize
    ensures Execute(m, rnd) == Err(MemoryOutOfBounds(FirstBadAddress(m.index)))
  {
  }

  /** FX29 points index at the glyph of the digit in VX, and with the font
      where `new` put it, the five bytes there are that glyph. */
  lemma FontGlyphAddress(m: Machine, rnd: RandomByte)
    requires WellFormed(m) && Family(m.opcode) == 0xF && LowByte(m.opcode) == 0x29
    requires m.reg[RegX(m.opcode)] < 16 && m.pc + 2 <= MaxU16
    requires m.memory[..|FontSet|] == FontSet
    ensures var r := Execute(m, rnd); var d := m.reg[RegX(m.opcode)];
      && r.Ok? && r.value.index == 5 * d
      && r.value.memory[r.value.index .. r.value.index + 5] == FontSet[5 * d .. 5 * d + 5]
  {
    var d := m.reg[RegX(m.opcode)];
    var r := Execute(m, rnd).value;
    assert r.memory[5 * d .. 5 * d + 5] == m.memory[..|FontSet|][5 * d .. 5 * d + 5];
  }

  // ---------------------------------------------------------------------------
  // Keys

  /** FX0A with no key among 0..14 pressed changes nothing, so the same
      instruction runs again; key 15 alone does not release it. */
  lemma WaitWithoutKeyStalls(m: Machine, rnd: RandomByte)
    requires WellFormed(m) && Family(m.opcode) == 0xF && LowByte(m.opcode) == 0x0A
    requires forall k :: 0 <= k < 0xF ==> m.key[k] == 0
    ensures Execute(m, rnd) == Ok(m)
  {
  }

  /** FX0A with a key pressed stores the lowest pressed key in VX. */
  lemma WaitTakesLowestKey(m: Machine, rnd: RandomByte, k: int)
    requires WellFormed(m) && Family(m.opcode) == 0xF && LowByte(m.opcode) == 0x0A && m.pc + 2 <= MaxU16
    requires 0 <= k < 0xF && m.key[k] != 0 && forall j :: 0 <= j < k ==> m.key[j] == 0
    ensures Execute(m, rnd) == Ok(m.(reg := m.reg[RegX(m.opcode) := k], pc := m.pc + 2))
  {
  }

  // ---------------------------------------------------------------------------
  // Timers within a cycle

  /** The word at pc, as a precondition on the two fetched bytes. */
  predicate Fetches(m: Machine, hi: u8, lo: u8)
    requires WellFormed(m)
  {
    m.pc + 1 < MemorySize && m.memory[m.pc] == hi && m.memory[m.pc + 1] == lo
  }

  /** FX15 with VX = v leaves the delay timer at v - 1 after the cycle (at 0
      when v is 0), because the tick runs after the instruction. */
  lemma SetDelayThenTick(m: Machine, x: int, rnd: RandomByte)
    requires WellFormed(m) && 0 <= x < 16 && Fetches(m, 0xF0 + x, 0x15) && m.pc + 2 <= MaxU16
    ensures var r := Cycle(m, rnd);
      && r.Ok? && r.value.pc == m.pc + 2
      && r.value.delayTimer == if m.reg[x] > 0 then m.reg[x] - 1 else 0
  {
    DecodeWord(0xF0 + x, 0x15);
  }

  /** FX18 copies VX into the sound timer and leaves the delay timer alone. */
  lemma SetSoundTimer(m: Machine, rnd: RandomByte)
    requires WellFormed(m) && Family(m.opcode) == 0xF && LowByte(m.opcode) == 0x18 && m.pc + 2 <= MaxU16
    ensures Execute(m, rnd) == Ok(m.(soundTimer := m.reg[RegX(m.opcode)], pc := m.pc + 2))
  {
  }

  /** FX18 with VX = v leaves the sound timer at v - 1 after the cycle (at 0
      when v is 0). */
  lemma SetSoundThenTick(m: Machine, x: int, rnd: RandomByte)
    requires WellFormed(m) && 0 <= x < 16 && Fetches(m, 0xF0 + x, 0x18) && m.pc + 2 <= MaxU16
    ensures var r := Cycle(m, rnd);
      && r.Ok? && r.value.pc == m.pc + 2
      && r.value.soundTimer == if m.reg[x] > 0 then m.reg[x] - 1 else 0
  {
    DecodeWord(0xF0 + x, 0x18);
  }

  /** FX07 copies the delay timer as it was before this cycle's tick. */
  lemma ReadDelayBeforeTick(m: Machine, x: int, rnd: RandomByte)
    requires WellFormed(m) && 0 <= x < 16 && Fetches(m, 0xF0 + x, 0x07) && m.pc + 2 <= MaxU16
    ensures var r := Cycle(m, rnd);
      && r.Ok? && r.value.reg[x] == m.delayTimer
      && r.value.delayTimer == if m.delayTimer > 0 then m.delayTimer - 1 else 0
  {
    DecodeWord(0xF0 + x, 0x07);
  }

  /** A fault in fetch or execute stops the cycle before the timers tick. */
  lemma FaultSkipsTick(m: Machine, rnd: RandomByte)
    requires WellFormed(m)
    ensures Fetch(m).Err? ==> Cycle(m, rnd) == Err(Fetch(m).fault)
    ensures Fetch(m).Ok? && Execute(m.(opcode := Fetch(m).value), rnd).Err? ==>
      Cycle(m, rnd) == Err(Execute(m.(opcode := Fetch(m).value), rnd).fault)
  {
  }

  // ---------------------------------------------------------------------------
  // pc stays in range

  /** Every return address on the stack lies inside memory. */
  predicate StackInMemory(m: Machine)
    requires WellFormed(m)
  {
    forall i :: 0 <= i < StackSize ==> m.stack[i] < MemorySize
  }

  /** A new machine starts with an empty stack of zeros. */
  lemma InitialStackInMemory()
    ensures StackInMemory(Initial())
  {
  }

  /** The result of one opcode group when pc was fetched from memory: pc does
      not overflow and the stack is unchanged. */
  predicate StaysInRange(m: Machine, r: Result<Machine>) {
    r != Err(PcOverflow) && (r.Ok? ==> r.value.stack == m.stack)
  }

  lemma SystemStaysInRange(m: Machine)
    requires WellFormed(m) && StackInMemory(m) && m.pc + 1 < MemorySize
    ensures StaysInRange(m, ExecSystem(m))
  {
  }

  lemma ArithmeticStaysInRange(m: Machine)
    requires WellFormed(m) && m.pc + 1 < MemorySize
    ensures StaysInRange(m, ExecArithmetic(m))
  {
  }

  lemma DrawStaysInRange(m: Machine)
    requires WellFormed(m) && m.pc + 1 < MemorySize
    ensures StaysInRange(m, ExecDraw(m))
  {
  }

  lemma KeySkipStaysInRange(m: Machine)
    requires WellFormed(m) && m.pc + 1 < MemorySize
    ensures StaysInRange(m, ExecKeySkip(m))
  {
  }

  lemma MiscStaysInRange(m: Machine)
    requires WellFormed(m) && m.pc + 1 < MemorySize
    ensures StaysInRange(m, ExecMisc(m))
  {
  }

  /** One instruction at a fetched pc neither overflows pc nor pushes an
      address outside memory. */
  lemma ExecuteKeepsPcInRange(e: Machine, rnd: RandomByte)
    requires WellFormed(e) && StackInMemory(e) && e.pc + 1 < MemorySize
    ensures Execute(e, rnd) != Err(PcOverflow)
    ensures Execute(e, rnd).Ok? ==> StackInMemory(Execute(e, rnd).value)
  {
    match Family(e.opcode)
    case 0x0 => SystemStaysInRange(e);
    case 0x2 =>
      if ExecCall(e).Ok? {
        assert ExecCall(e).value.stack == e.stack[e.sp := e.pc];
      }
    case 0x8 => ArithmeticStaysInRange(e);
    case 0xD => DrawStaysInRange(e);
    case 0xE => KeySkipStaysInRange(e);
    case 0xF => MiscStaysInRange(e);
    case _ =>
  }

  /** While return addresses lie inside memory, no cycle overflows pc: a
      fetched pc is at most 4094, a jump target at most 0xFFF + 0xFF, and a
      return lands at most 2 past a stacked pc.  The property survives the
      cycle, so it holds for every run from a new machine. */
  lemma CycleKeepsPcInRange(m: Machine, rnd: RandomByte)
    requires WellFormed(m) && StackInMemory(m)
    ensures Cycle(m, rnd) != Err(PcOverflow)
    ensures Cycle(m, rnd).Ok? ==> StackInMemory(Cycle(m, rnd).value)
  {
    if Fetch(m).Ok? {
      ExecuteKeepsPcInRange(m.(opcode := Fetch(m).value), rnd);
    }
  }

  // ---------------------------------------------------------------------------
  // Whole programs

  /** Loading [0x6A, 0x2F] into a new machine and running one cycle sets VA to
      0x2F and moves pc to 514. */
  lemma LoadAndRunSetRegister(rnd: RandomByte)
    ensures Load(Initial(), [0x6A, 0x2F]).Ok?
    ensures var r := Cycle(Load(Initial(), [0x6A, 0x2F]).value, rnd);
      r.Ok? && r.value.reg[0xA] == 0x2F && r.value.pc == 514
  {
    var m := Load(Initial(), [0x6A, 0x2F]).value;
    assert Fetches(m, 0x6A, 0x2F);
    DecodeWord(0x6A, 0x2F);
  }
}
