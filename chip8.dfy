/** The `Chip8` struct of src/lib.rs as a class over arrays.  Every method
    changes the fields in place, as the Rust methods do, and is proved to leave
    the state that the matching function of Chip8Spec computes. */
module Chip8Interpreter {
  import opened Chip8Spec

  /** What a step reports: still running, or the panic that stopped it. */
  datatype Status = Running | Halted(fault: Fault)

  /** A method's status and final state agree with a specification result.  On
      a fault the state is left as it was. */
  ghost predicate Follows(spec: Result<Machine>, status: Status, before: Machine, after: Machine) {
    match spec
    case Ok(next) => status == Running && after == next
    case Err(f) => status == Halted(f) && after == before
  }

  // ---------------------------------------------------------------------------
  // Progress of the DXYN row and column loops

  /** Pixel `p` belongs to a sprite cell visited before cell (`row`, `col`). */
  ghost predicate Before(s: Sprite, p: int, row: int, col: int)
    requires 0 <= p < PixelCount
  {
    var pr := p / Width - s.y;
    var pcol := p % Width - s.x;
    pr < row || (pr == row && pcol < col)
  }

  /** Some pixel visited before (`row`, `col`) was hit while it was 1. */
  ghost predicate CollidesBefore(g: seq<u8>, s: Sprite, row: int, col: int)
    requires |g| == PixelCount
  {
    exists p :: 0 <= p < PixelCount && Hit(s, p) && Before(s, p, row, col) && g[p] == 1
  }

  class Chip8 {
    var drawFlag: bool
    var opcode: u16
    const memory: array<u8>
    const reg: array<u8>
    var index: u16
    var pc: u16
    const graphics: array<u8>
    var delayTimer: u8
    var soundTimer: u8
    const stack: array<u16>
    var sp: u16
    const key: array<u8>

    /** The array sizes of the struct, and no two arrays shared. */
    ghost predicate Valid() {
      && memory.Length == MemorySize
      && reg.Length == RegCount
      && graphics.Length == PixelCount
      && stack.Length == StackSize
      && key.Length == KeyCount
      && memory != reg && memory != graphics && memory != key
      && reg != graphics && reg != key && graphics != key
    }

    /** The machine snapshot the fields hold. */
    ghost function State(): (m: Machine)
      reads this, memory, reg, graphics, stack, key
      requires Valid()
      ensures WellFormed(m)
    {
      Machine(drawFlag, opcode, memory[..], reg[..], index, pc, graphics[..],
              delayTimer, soundTimer, stack[..], sp, key[..])
    }

    /** `Chip8::new` */
    constructor ()
      ensures Valid() && State() == Initial()
      ensures fresh(memory) && fresh(reg) && fresh(graphics) && fresh(stack) && fresh(key)
    {
      drawFlag := true;
      opcode := 0;
      memory := new u8[MemorySize](_ => 0);
      reg := new u8[RegCount](_ => 0);
      index := 0;
      pc := ProgramStart;
      graphics := new u8[PixelCount](_ => 0);
      delayTimer := 0;
      soundTimer := 0;
      stack := new u16[StackSize](_ => 0);
      sp := 0;
      key := new u8[KeyCount](_ => 0);
      new;
      for i := 0 to |FontSet|
        modifies memory
        invariant forall a :: 0 <= a < MemorySize ==> memory[a] == if a < i then FontSet[a] else 0
      {
        memory[i] := FontSet[i];
      }
      assert memory[..] == Initial().memory;
    }

    /** `loadHex`: copies `game` to memory from address 0x200 on. */
    method LoadHex(game: seq<u8>) returns (status: Status)
      requires Valid()
      modifies memory
      ensures Follows(Load(old(State()), game), status, old(State()), State())
    {
      if |game| > MaxProgramSize {
        return Halted(MemoryOutOfBounds(MemorySize));
      }
      for c := 0 to |game|
        invariant forall a :: 0 <= a < MemorySize ==>
          memory[a] == if ProgramStart <= a < ProgramStart + c then game[a - ProgramStart] else old(memory[a])
      {
        memory[c + ProgramStart] := game[c];
      }
      assert memory[..] == Load(old(State()), game).value.memory;
      status := Running;
    }

    /** `emulateCycle`: fetch, execute, tick.  After a fault only the opcode
        register may have moved. */
    method EmulateCycle(rnd: RandomByte) returns (status: Status)
      requires Valid()
      modifies this, memory, reg, graphics, stack
      ensures status.Running? <==> Cycle(old(State()), rnd).Ok?
      ensures status.Running? ==> State() == Cycle(old(State()), rnd).value
      ensures status.Halted? ==> status.fault == Cycle(old(State()), rnd).fault
      ensures status.Halted? ==> State() == old(State()).(opcode := opcode)
    {
      status := FetchOpcode();
      if status.Halted? {
        return;
      }
      status := ExecuteOpcode(rnd);
      if status.Halted? {
        return;
      }
      UpdateTimers();
    }

    /** `fetchOpcode` */
    method FetchOpcode() returns (status: Status)
      requires Valid()
      modifies this`opcode
      ensures match Fetch(old(State()))
        case Ok(op) => status == Running && State() == old(State()).(opcode := op)
        case Err(f) => status == Halted(f) && State() == old(State())
    {
      if pc >= MemorySize {
        return Halted(MemoryOutOfBounds(pc));
      }
      if pc + 1 >= MemorySize {
        return Halted(MemoryOutOfBounds(pc + 1));
      }
      opcode := (memory[pc] as int) * 0x100 + memory[pc + 1];
      status := Running;
    }

    /** `updateTimers` */
    method UpdateTimers()
      requires Valid()
      modifies this`delayTimer, this`soundTimer
      ensures State() == Tick(old(State()))
    {
      if delayTimer > 0 {
        delayTimer := delayTimer - 1;
      }
      if soundTimer > 0 {
        soundTimer := soundTimer - 1;
      }
    }

    /** `executeOpcode` */
    method ExecuteOpcode(rnd: RandomByte) returns (status: Status)
      requires Valid()
      modifies this, memory, reg, graphics, stack
      ensures Follows(Execute(old(State()), rnd), status, old(State()), State())
    {
      var x := RegX(opcode);
      var y := RegY(opcode);
      match Family(opcode) {
        case 0x0 =>
          status := ExecuteSystem();
        case 0x1 =>
          pc := Address(opcode);
          status := Running;
        case 0x2 =>
          status := ExecuteCall();
        case 0x3 =>
          status := SkipIf(reg[x] == LowByte(opcode));
        case 0x4 =>
          status := SkipIf(reg[x] != LowByte(opcode));
        case 0x5 =>
          status := SkipIf(reg[x] == reg[y]);
        case 0x6 =>
          status := SetRegister(x, LowByte(opcode));
        case 0x7 =>
          status := SetRegister(x, (reg[x] as int + LowByte(opcode)) % 0x100);
        case 0x8 =>
          status := ExecuteArithmetic();
        case 0x9 =>
          status := SkipIf(reg[x] != reg[y]);
        case 0xA =>
          if pc + 2 > MaxU16 {
            return Halted(PcOverflow);
          }
          index := Address(opcode);
          pc := pc + 2;
          status := Running;
        case 0xB =>
          pc := Address(opcode) + reg[0] as int;
          status := Running;
        case 0xC =>
          status := SetRegister(x, BitAnd(LowByte(opcode), rnd));
        case 0xD =>
          status := ExecuteDraw();
        case 0xE =>
          status := ExecuteKeySkip();
        case _ =>
          status := ExecuteMisc();
      }
    }

    /** `if cond { pc += 2 } pc += 2` */
    method SkipIf(cond: bool) returns (status: Status)
      requires Valid()
      modifies this`pc
      ensures Follows(Skip(old(State()), cond), status, old(State()), State())
    {
      if pc + (if cond then 4 else 2) > MaxU16 {
        return Halted(PcOverflow);
      }
      if cond {
        pc := pc + 2;
      }
      pc := pc + 2;
      status := Running;
    }

    /** `reg[x] = v; pc += 2` */
    method SetRegister(x: int, v: u8) returns (status: Status)
      requires Valid() && 0 <= x < RegCount
      modifies this`pc, reg
      ensures Follows(SetReg(old(State()), x, v), status, old(State()), State())
    {
      if pc + 2 > MaxU16 {
        return Halted(PcOverflow);
      }
      reg[x] := v;
      pc := pc + 2;
      status := Running;
    }

    /** 00E0 and 00EE */
    method ExecuteSystem() returns (status: Status)
      requires Valid()
      modifies this, graphics
      ensures Follows(ExecSystem(old(State())), status, old(State()), State())
    {
      if opcode == 0x00E0 {
        if pc + 2 > MaxU16 {
          return Halted(PcOverflow);
        }
        ClearScreen();
        drawFlag := true;
        pc := pc + 2;
        status := Running;
      } else if opcode == 0x00EE {
        if sp == 0 {
          return Halted(StackUnderflow);
        }
        if sp - 1 >= StackSize {
          return Halted(StackOutOfBounds(sp - 1));
        }
        if stack[sp - 1] + 2 > MaxU16 {
          return Halted(PcOverflow);
        }
        sp := sp - 1;
        pc := stack[sp];
        pc := pc + 2;
        status := Running;
      } else {
        status := Halted(UnknownOpcode(opcode));
      }
    }

    /** The 00E0 loop over every pixel. */
    method ClearScreen()
      requires Valid()
      modifies graphics
      ensures graphics[..] == seq(PixelCount, _ => 0)
    {
      for i := 0 to PixelCount
        invariant forall p :: 0 <= p < i ==> graphics[p] == 0
      {
        graphics[i] := 0;
      }
    }

    /** 2NNN */
    method ExecuteCall() returns (status: Status)
      requires Valid()
      modifies this, stack
      ensures Follows(ExecCall(old(State())), status, old(State()), State())
    {
      if sp >= StackSize {
        return Halted(StackOutOfBounds(sp));
      }
      stack[sp] := pc;
      sp := sp + 1;
      pc := Address(opcode);
      status := Running;
    }

    /** 8XY? */
    method ExecuteArithmetic() returns (status: Status)
      requires Valid()
      modifies this, reg
      ensures Follows(ExecArithmetic(old(State())), status, old(State()), State())
    {
      var x := RegX(opcode);
      var y := RegY(opcode);
      var sub := LowNibble(opcode);
      if sub == 0x0 {
        status := SetRegister(x, reg[y]);
      } else if sub == 0x1 {
        status := SetRegister(x, BitOr(reg[x], reg[y]));
      } else if sub == 0x2 {
        status := SetRegister(x, BitAnd(reg[x], reg[y]));
      } else if sub == 0x3 {
        status := SetRegister(x, BitXor(reg[x], reg[y]));
      } else if sub in {0x4, 0x5, 0x7} {
        status := ExecuteAddSub(x, y, sub);
      } else if sub in {0x6, 0xE} {
        status := ExecuteShift(x, sub);
      } else {
        status := Halted(UnknownOpcode(opcode));
      }
    }

    /** 8XY4, 8XY5 and 8XY7: VF is written first, then VX is computed from
        the registers as they now stand. */
    method ExecuteAddSub(x: int, y: int, sub: int) returns (status: Status)
      requires Valid() && x == RegX(opcode) && y == RegY(opcode) && sub == LowNibble(opcode)
      requires sub in {0x4, 0x5, 0x7}
      modifies this`pc, reg
      ensures Follows(ExecArithmetic(old(State())), status, old(State()), State())
    {
      if pc + 2 > MaxU16 {
        return Halted(PcOverflow);
      }
      if sub == 0x4 {
        reg[FlagReg] := if reg[y] > 0xFF - reg[x] then 1 else 0;
        reg[x] := (reg[x] as int + reg[y]) % 0x100;
      } else if sub == 0x5 {
        reg[FlagReg] := if reg[y] > reg[x] then 0 else 1;
        reg[x] := (reg[x] as int - reg[y]) % 0x100;
      } else {
        reg[FlagReg] := if reg[x] > reg[y] then 0 else 1;
        reg[x] := (reg[y] as int - reg[x]) % 0x100;
      }
      pc := pc + 2;
      status := Running;
    }

    /** 8XY6 and 8XYE: VF gets the bit shifted out, then VX is shifted as it
        now stands. */
    method ExecuteShift(x: int, sub: int) returns (status: Status)
      requires Valid() && x == RegX(opcode) && sub == LowNibble(opcode)
      requires sub in {0x6, 0xE}
      modifies this`pc, reg
      ensures Follows(ExecArithmetic(old(State())), status, old(State()), State())
    {
      if pc + 2 > MaxU16 {
        return Halted(PcOverflow);
      }
      if sub == 0x6 {
        reg[FlagReg] := reg[x] % 2;
        reg[x] := reg[x] / 2;
      } else {
        reg[FlagReg] := reg[x] / 0x80;
        reg[x] := (reg[x] as int * 2) % 0x100;
      }
      pc := pc + 2;
      status := Running;
    }

    /** EX9E and EXA1 */
    method ExecuteKeySkip() returns (status: Status)
      requires Valid()
      modifies this`pc
      ensures Follows(ExecKeySkip(old(State())), status, old(State()), State())
    {
      var k := reg[RegX(opcode)];
      var sub := LowByte(opcode);
      if sub == 0x9E {
        if k >= KeyCount {
          return Halted(KeyOutOfBounds(k));
        }
        status := SkipIf(key[k] != 0);
      } else if sub == 0xA1 {
        if k >= KeyCount {
          return Halted(KeyOutOfBounds(k));
        }
        status := SkipIf(key[k] == 0);
      } else {
        status := Halted(UnknownOpcode(opcode));
      }
    }

    /** FX?? */
    method ExecuteMisc() returns (status: Status)
      requires Valid()
      modifies this, memory, reg
      ensures Follows(ExecMisc(old(State())), status, old(State()), State())
    {
      var x := RegX(opcode);
      var sub := LowByte(opcode);
      if sub == 0x07 {
        status := SetRegister(x, delayTimer);
      } else if sub == 0x0A {
        status := WaitForKey(x);
      } else if sub == 0x15 || sub == 0x18 || sub == 0x29 {
        if pc + 2 > MaxU16 {
          return Halted(PcOverflow);
        }
        if sub == 0x15 {
          delayTimer := reg[x];
        } else if sub == 0x18 {
          soundTimer := reg[x];
        } else {
          index := 5 * (reg[x] as int);
        }
        pc := pc + 2;
        status := Running;
      } else if sub == 0x1E {
        if index as int + reg[x] > MaxU16 {
          return Halted(IndexOverflow);
        }
        if pc + 2 > MaxU16 {
          return Halted(PcOverflow);
        }
        index := index + reg[x];
        pc := pc + 2;
        status := Running;
      } else if sub == 0x33 {
        status := StoreBcd(x);
      } else if sub == 0x55 {
        status := StoreRegisters(x);
      } else if sub == 0x65 {
        status := LoadRegisters(x);
      } else {
        status := Halted(UnknownOpcode(opcode));
      }
    }

    /** FX0A: scan keys 0..0xF (exclusive) and take the first one pressed; with
        none pressed pc stays put and the instruction runs again next cycle. */
    method WaitForKey(x: int) returns (status: Status)
      requires Valid() && 0 <= x < RegCount
      modifies this`pc, reg
      ensures Follows(match FirstPressed(old(State()).key)
                      case Some(k) => SetReg(old(State()), x, k)
                      case None => Ok(old(State())),
                      status, old(State()), State())
    {
      var k := 0;
      while k < 0xF
        invariant 0 <= k <= 0xF
        invariant forall j :: 0 <= j < k ==> key[j] == 0
        invariant reg[..] == old(reg[..]) && pc == old(pc)
      {
        if key[k] != 0 {
          status := SetRegister(x, k);
          return;
        }
        k := k + 1;
      }
      status := Running;
    }

    /** FX33 */
    method StoreBcd(x: int) returns (status: Status)
      requires Valid() && 0 <= x < RegCount && x == RegX(opcode) && LowByte(opcode) == 0x33
      modifies this`pc, memory
      ensures Follows(ExecMisc(old(State())), status, old(State()), State())
    {
      if index + 2 >= MemorySize {
        return Halted(MemoryOutOfBounds(FirstBadAddress(index)));
      }
      if pc + 2 > MaxU16 {
        return Halted(PcOverflow);
      }
      var v := reg[x];
      memory[index] := v / 100;
      memory[index + 1] := (v / 10) % 10;
      memory[index + 2] := (v % 100) % 10;
      pc := pc + 2;
      status := Running;
    }

    /** FX55: the copy loop over V0..VX. */
    method StoreRegisters(x: int) returns (status: Status)
      requires Valid() && 0 <= x < RegCount && x == RegX(opcode) && LowByte(opcode) == 0x55
      modifies this`pc, memory
      ensures Follows(ExecMisc(old(State())), status, old(State()), State())
    {
      if index + x >= MemorySize {
        return Halted(MemoryOutOfBounds(FirstBadAddress(index)));
      }
      if pc + 2 > MaxU16 {
        return Halted(PcOverflow);
      }
      for i := 0 to x + 1
        modifies memory
        invariant forall a :: 0 <= a < MemorySize ==>
          memory[a] == if index <= a < index + i then reg[a - index] else old(memory[a])
      {
        memory[index + i] := reg[i];
      }
      assert memory[..] == StoreRegs(old(State()), x);
      pc := pc + 2;
      status := Running;
    }

    /** FX65: the copy loop into V0..VX. */
    method LoadRegisters(x: int) returns (status: Status)
      requires Valid() && 0 <= x < RegCount && x == RegX(opcode) && LowByte(opcode) == 0x65
      modifies this`pc, reg
      ensures Follows(ExecMisc(old(State())), status, old(State()), State())
    {
      if index + x >= MemorySize {
        return Halted(MemoryOutOfBounds(FirstBadAddress(index)));
      }
      if pc + 2 > MaxU16 {
        return Halted(PcOverflow);
      }
      for i := 0 to x + 1
        modifies reg
        invariant forall j :: 0 <= j < RegCount ==>
          reg[j] == if j < i then memory[index + j] else old(reg[j])
      {
        reg[i] := memory[index + i];
      }
      assert reg[..] == LoadRegs(old(State()), x);
      pc := pc + 2;
      status := Running;
    }

    /** DXYN: the row and column loops. */
    method ExecuteDraw() returns (status: Status)
      requires Valid()
      modifies this, reg, graphics
      ensures Follows(ExecDraw(old(State())), status, old(State()), State())
    {
      var x := reg[RegX(opcode)];
      var y := reg[RegY(opcode)];
      var n := LowNibble(opcode);
      var start := index;
      if start + n > MaxU16 {
        return Halted(IndexOverflow);
      }
      if n > 0 && start + n > MemorySize {
        return Halted(MemoryOutOfBounds(FirstBadAddress(start)));
      }
      if pc + 2 > MaxU16 {
        return Halted(PcOverflow);
      }
      ghost var s := SpriteAt(State());
      ghost var g0 := graphics[..];
      reg[FlagReg] := 0;
      var i := start;
      while i < start + n
        modifies reg, graphics
        invariant start <= i <= start + n
        invariant forall p :: 0 <= p < PixelCount ==>
          graphics[p] == if Hit(s, p) && Before(s, p, i - start, 0) then Flip(g0[p]) else g0[p]
        invariant reg[FlagReg] == if CollidesBefore(g0, s, i - start, 0) then 1 else 0
        invariant forall r :: 0 <= r < RegCount && r != FlagReg ==> reg[r] == old(reg[r])
      {
        var row := i - start;
        var bits := MakeBitvector(memory[i]);
        DrawRow(s, g0, x, y, row, bits);
        i := i + 1;
      }
      assert forall p :: 0 <= p < PixelCount && Hit(s, p) ==> Before(s, p, n, 0);
      assert graphics[..] == DrawPixels(g0, s);
      assert CollidesBefore(g0, s, n, 0) == Collides(g0, s);
      drawFlag := true;
      pc := pc + 2;
      status := Running;
    }

    /** The column loop of one DXYN row. */
    method DrawRow(ghost s: Sprite, ghost g0: seq<u8>, x: u8, y: u8, row: int, bits: seq<u8>)
      requires Valid() && |g0| == PixelCount
      requires 0 <= row < |s.rows| && s.x == x && s.y == y
      requires bits == BitVector(s.rows[row])
      requires forall p :: 0 <= p < PixelCount ==>
        graphics[p] == if Hit(s, p) && Before(s, p, row, 0) then Flip(g0[p]) else g0[p]
      requires reg[FlagReg] == if CollidesBefore(g0, s, row, 0) then 1 else 0
      modifies reg, graphics
      ensures forall p :: 0 <= p < PixelCount ==>
        graphics[p] == if Hit(s, p) && Before(s, p, row + 1, 0) then Flip(g0[p]) else g0[p]
      ensures reg[FlagReg] == if CollidesBefore(g0, s, row + 1, 0) then 1 else 0
      ensures forall r :: 0 <= r < RegCount && r != FlagReg ==> reg[r] == old(reg[r])
    {
      for j := 0 to 8
        invariant forall p :: 0 <= p < PixelCount ==>
          graphics[p] == if Hit(s, p) && Before(s, p, row, j) then Flip(g0[p]) else g0[p]
        invariant reg[FlagReg] == if CollidesBefore(g0, s, row, j) then 1 else 0
        invariant forall r :: 0 <= r < RegCount && r != FlagReg ==> reg[r] == old(reg[r])
      {
        DrawCell(s, g0, x, y, row, j, bits[j]);
      }
    }

    /** The body of the column loop: pixel (x + j, y + row), if on screen and
        set in the row, records a collision when it is 1 and is toggled. */
    method DrawCell(ghost s: Sprite, ghost g0: seq<u8>, x: u8, y: u8, row: int, j: int, bit: u8)
      requires Valid() && |g0| == PixelCount
      requires 0 <= row < |s.rows| && 0 <= j < 8 && s.x == x && s.y == y
      requires bit == BitVector(s.rows[row])[j]
      requires forall p :: 0 <= p < PixelCount ==>
        graphics[p] == if Hit(s, p) && Before(s, p, row, j) then Flip(g0[p]) else g0[p]
      requires reg[FlagReg] == if CollidesBefore(g0, s, row, j) then 1 else 0
      modifies reg, graphics
      ensures forall p :: 0 <= p < PixelCount ==>
        graphics[p] == if Hit(s, p) && Before(s, p, row, j + 1) then Flip(g0[p]) else g0[p]
      ensures reg[FlagReg] == if CollidesBefore(g0, s, row, j + 1) then 1 else 0
      ensures forall r :: 0 <= r < RegCount && r != FlagReg ==> reg[r] == old(reg[r])
    {
      var xs := x + j;
      var ys := y + row;
      if xs < Width && ys < Height {
        var address := Width * ys + xs;
        if bit != 0 {
          if graphics[address] == 1 {
            reg[FlagReg] := 1;
          }
          graphics[address] := Flip(graphics[address]);
        }
      }
    }
  }

  /** `make_bitvector`: fills bits 0..6 of an eight-element vector. */
  method MakeBitvector(b: u8) returns (bits: seq<u8>)
    ensures bits == BitVector(b)
  {
    var v := new u8[8](_ => 0);
    for i := 0 to 7
      invariant forall k :: 0 <= k < 8 ==> v[k] == if k < i then Bit(b, 7 - k) else 0
    {
      v[i] := if Bit(b, 7 - i) != 0 then 1 else 0;
    }
    bits := v[..];
  }
}
