/** Value-level semantics of the CHIP-8 interpreter in src/lib.rs.

    A `Machine` is a snapshot of every field of the Rust `Chip8` struct.  Each
    operation of the interpreter is a function from a snapshot to a `Result`:
    `Err` stands for a Rust panic (an unknown opcode, an index out of bounds, a
    u16 overflow in a debug build), `Ok` carries the next snapshot.  The class
    in chip8.dfy is proved to follow these functions step by step. */
module Chip8Spec {

  type u8 = x: int | 0 <= x < 0x100
  type u16 = x: int | 0 <= x < 0x1_0000

  /** The values `gen_range(0, 255)` can produce: the upper bound is exclusive. */
  type RandomByte = x: int | 0 <= x < 0xFF

  const MemorySize := 4096
  const ProgramStart := 0x200
  const MaxProgramSize := MemorySize - ProgramStart
  const RegCount := 16
  const StackSize := 16
  const KeyCount := 16
  const Width := 64
  const Height := 32
  const PixelCount := Width * Height
  const FlagReg := 0xF
  const MaxU16 := 0xFFFF

  /** The sixteen 4x5 hexadecimal glyphs, five bytes each, loaded at address 0. */
  const FontSet: seq<u8> := [
    0xF0, 0x90, 0x90, 0x90, 0xF0, // 0
    0x20, 0x60, 0x20, 0x20, 0x70, // 1
    0xF0, 0x10, 0xF0, 0x80, 0xF0, // 2
    0xF0, 0x10, 0xF0, 0x10, 0xF0, // 3
    0x90, 0x90, 0xF0, 0x10, 0x10, // 4
    0xF0, 0x80, 0xF0, 0x10, 0xF0, // 5
    0xF0, 0x80, 0xF0, 0x90, 0xF0, // 6
    0xF0, 0x10, 0x20, 0x40, 0x40, // 7
    0xF0, 0x90, 0xF0, 0x90, 0xF0, // 8
    0xF0, 0x90, 0xF0, 0x10, 0xF0, // 9
    0xF0, 0x90, 0xF0, 0x90, 0x90, // A
    0xE0, 0x90, 0xE0, 0x90, 0xE0, // B
    0xF0, 0x80, 0x80, 0x80, 0xF0, // C
    0xE0, 0x90, 0x90, 0x90, 0xE0, // D
    0xF0, 0x80, 0xF0, 0x80, 0xF0, // E
    0xF0, 0x80, 0xF0, 0x80, 0x80  // F
  ]

  datatype Option<T> = None | Some(value: T)

  /** Why a cycle panics. */
  datatype Fault =
    | UnknownOpcode(opcode: u16)
    | MemoryOutOfBounds(address: int)
    | StackOutOfBounds(slot: int)
    | KeyOutOfBounds(key: int)
    | StackUnderflow
    | PcOverflow
    | IndexOverflow

  datatype Result<T> = Ok(value: T) | Err(fault: Fault)

  /** Every field of the `Chip8` struct, with arrays as sequences. */
  datatype Machine = Machine(
    drawFlag: bool,
    opcode: u16,
    memory: seq<u8>,
    reg: seq<u8>,
    index: u16,
    pc: u16,
    graphics: seq<u8>,
    delayTimer: u8,
    soundTimer: u8,
    stack: seq<u16>,
    sp: u16,
    key: seq<u8>)

  /** The fixed array sizes of the struct. */
  predicate WellFormed(m: Machine) {
    && |m.memory| == MemorySize
    && |m.reg| == RegCount
    && |m.graphics| == PixelCount
    && |m.stack| == StackSize
    && |m.key| == KeyCount
  }

  // ---------------------------------------------------------------------------
  // Opcode fields

  /** The high nibble, on which `executeOpcode` dispatches first. */
  function Family(op: u16): (r: int)
    ensures 0 <= r < 16
  {
    op / 0x1000
  }

  /** `(opcode & 0x0F00) >> 8` */
  function RegX(op: u16): (r: int)
    ensures 0 <= r < 16
  {
    (op / 0x100) % 0x10
  }

  /** `(opcode & 0x00F0) >> 4` */
  function RegY(op: u16): (r: int)
    ensures 0 <= r < 16
  {
    (op / 0x10) % 0x10
  }

  /** `opcode & 0x000F` */
  function LowNibble(op: u16): (r: int)
    ensures 0 <= r < 16
  {
    op % 0x10
  }

  /** `opcode & 0x00FF` */
  function LowByte(op: u16): (r: u8)
  {
    op % 0x100
  }

  /** `opcode & 0x0FFF` */
  function Address(op: u16): (r: int)
    ensures 0 <= r < 0x1000
  {
    op % 0x1000
  }

  // ---------------------------------------------------------------------------
  // Byte helpers

  function BitOr(a: u8, b: u8): u8 {
    ((a as bv8) | (b as bv8)) as int
  }

  function BitAnd(a: u8, b: u8): u8 {
    ((a as bv8) & (b as bv8)) as int
  }

  function BitXor(a: u8, b: u8): u8 {
    ((a as bv8) ^ (b as bv8)) as int
  }

  /** `p ^ 1`: toggles the lowest bit of a frame-buffer byte. */
  function Flip(p: u8): (r: u8)
    ensures r % 2 != p % 2 && r / 2 == p / 2
  {
    if p % 2 == 0 then p + 1 else p - 1
  }

  /** Bit `k` of `b`, counting from the least significant bit. */
  function Bit(b: nat, k: nat): (r: nat)
    ensures r <= 1
  {
    if k == 0 then b % 2 else Bit(b / 2, k - 1)
  }

  /** `make_bitvector`: the eight pixels of one sprite row, most significant bit
      first.  Its loop runs over 0..7, so element 7 keeps its initial 0 and the
      byte's lowest bit never reaches the screen. */
  function BitVector(b: u8): (r: seq<u8>)
    ensures |r| == 8 && r[7] == 0
    ensures forall i :: 0 <= i < 8 ==> r[i] <= 1
  {
    seq(8, i requires 0 <= i < 8 => if i < 7 then Bit(b, 7 - i) else 0)
  }

  /** The binary-coded decimal digits written by FX33. */
  function Bcd(v: u8): (r: seq<u8>)
    ensures |r| == 3
    ensures r[0] < 10 && r[1] < 10 && r[2] < 10
    ensures 100 * (r[0] as int) + 10 * (r[1] as int) + r[2] == v
  {
    [v / 100, (v / 10) % 10, (v % 100) % 10]
  }

  // ---------------------------------------------------------------------------
  // Lifecycle

  /** `Chip8::new`: the font at 0..80, everything else zero, pc at 0x200 and
      the draw flag raised. */
  function Initial(): (m: Machine)
    ensures WellFormed(m)
    ensures m.memory[..|FontSet|] == FontSet
    ensures forall a :: |FontSet| <= a < MemorySize ==> m.memory[a] == 0
    ensures m.pc == ProgramStart && m.sp == 0 && m.index == 0 && m.drawFlag
    ensures forall r :: 0 <= r < RegCount ==> m.reg[r] == 0
    ensures forall p :: 0 <= p < PixelCount ==> m.graphics[p] == 0
    ensures m.delayTimer == 0 && m.soundTimer == 0
    ensures m.opcode == 0
    ensures forall i :: 0 <= i < StackSize ==> m.stack[i] == 0
    ensures forall k :: 0 <= k < KeyCount ==> m.key[k] == 0
  {
    Machine(
      drawFlag := true,
      opcode := 0,
      memory := FontSet + seq(MemorySize - |FontSet|, _ => 0),
      reg := seq(RegCount, _ => 0),
      index := 0,
      pc := ProgramStart,
      graphics := seq(PixelCount, _ => 0),
      delayTimer := 0,
      soundTimer := 0,
      stack := seq(StackSize, _ => 0),
      sp := 0,
      key := seq(KeyCount, _ => 0))
  }

  /** `loadHex`: copies the program to 0x200.  A program longer than the space
      above 0x200 indexes past the end of memory, which panics at address 4096. */
  function Load(m: Machine, game: seq<u8>): (r: Result<Machine>)
    requires WellFormed(m)
    ensures r.Ok? <==> |game| <= MaxProgramSize
    ensures r.Err? ==> r.fault == MemoryOutOfBounds(MemorySize)
    ensures r.Ok? ==> WellFormed(r.value)
    ensures r.Ok? ==> forall c :: 0 <= c < |game| ==> r.value.memory[ProgramStart + c] == game[c]
    ensures r.Ok? ==> forall a :: 0 <= a < MemorySize && !(ProgramStart <= a < ProgramStart + |game|) ==>
                        r.value.memory[a] == m.memory[a]
    ensures r.Ok? ==> r.value == m.(memory := r.value.memory)
  {
    if |game| > MaxProgramSize then Err(MemoryOutOfBounds(MemorySize))
    else Ok(m.(memory := m.memory[..ProgramStart] + game + m.memory[ProgramStart + |game|..]))
  }

  // ---------------------------------------------------------------------------
  // Fetch and timers

  /** `fetchOpcode`: the big-endian word at pc.  `memory[pc]` is indexed first,
      then `memory[pc + 1]`. */
  function Fetch(m: Machine): (r: Result<u16>)
    requires WellFormed(m)
    ensures r.Ok? <==> m.pc + 1 < MemorySize
    ensures r.Ok? ==> r.value / 0x100 == m.memory[m.pc] && r.value % 0x100 == m.memory[m.pc + 1]
    ensures r.Err? ==> r.fault == MemoryOutOfBounds(if m.pc < MemorySize then m.pc + 1 else m.pc)
  {
    if m.pc >= MemorySize then Err(MemoryOutOfBounds(m.pc))
    else if m.pc + 1 >= MemorySize then Err(MemoryOutOfBounds(m.pc + 1))
    else Ok((m.memory[m.pc] as int) * 0x100 + m.memory[m.pc + 1])
  }

  /** `updateTimers`: each nonzero timer goes down by one; zero stays zero. */
  function Tick(m: Machine): (r: Machine)
    ensures m.delayTimer > 0 ==> r.delayTimer == m.delayTimer - 1
    ensures m.delayTimer == 0 ==> r.delayTimer == 0
    ensures m.soundTimer > 0 ==> r.soundTimer == m.soundTimer - 1
    ensures m.soundTimer == 0 ==> r.soundTimer == 0
    ensures r == m.(delayTimer := r.delayTimer, soundTimer := r.soundTimer)
  {
    m.(delayTimer := if m.delayTimer > 0 then m.delayTimer - 1 else 0,
       soundTimer := if m.soundTimer > 0 then m.soundTimer - 1 else 0)
  }

  // ---------------------------------------------------------------------------
  // Execute

  /** A successful step keeps the array sizes, the current opcode and the keys. */
  predicate Keeps(m: Machine, r: Result<Machine>) {
    r.Ok? ==> WellFormed(r.value) && r.value.opcode == m.opcode && r.value.key == m.key
  }

  /** `pc += step`, which panics in a debug build when it leaves the u16 range. */
  function Advance(m: Machine, step: nat): (r: Result<Machine>)
    ensures r.Ok? <==> m.pc + step <= MaxU16
    ensures r.Ok? ==> r.value == m.(pc := m.pc + step)
    ensures r.Err? ==> r.fault == PcOverflow
  {
    if m.pc + step > MaxU16 then Err(PcOverflow) else Ok(m.(pc := m.pc + step))
  }

  /** The skip pattern `if cond { pc += 2 } pc += 2`. */
  function Skip(m: Machine, cond: bool): Result<Machine> {
    Advance(m, if cond then 4 else 2)
  }

  /** `reg[x] = v; pc += 2` */
  function SetReg(m: Machine, x: int, v: u8): (r: Result<Machine>)
    requires WellFormed(m) && 0 <= x < RegCount
    ensures Keeps(m, r)
  {
    Advance(m.(reg := m.reg[x := v]), 2)
  }

  /** 00E0 (clear), 00EE (return) and the unknown 0NNN. */
  function ExecSystem(m: Machine): (r: Result<Machine>)
    requires WellFormed(m)
    ensures Keeps(m, r)
  {
    if m.opcode == 0x00E0 then
      Advance(m.(graphics := seq(PixelCount, _ => 0), drawFlag := true), 2)
    else if m.opcode == 0x00EE then
      if m.sp == 0 then Err(StackUnderflow)
      else if m.sp - 1 >= StackSize then Err(StackOutOfBounds(m.sp - 1))
      else Advance(m.(sp := m.sp - 1, pc := m.stack[m.sp - 1]), 2)
    else Err(UnknownOpcode(m.opcode))
  }

  /** 2NNN: push pc, then jump. */
  function ExecCall(m: Machine): (r: Result<Machine>)
    requires WellFormed(m)
    ensures Keeps(m, r)
  {
    if m.sp >= StackSize then Err(StackOutOfBounds(m.sp))
    else Ok(m.(stack := m.stack[m.sp := m.pc], sp := m.sp + 1, pc := Address(m.opcode)))
  }

  /** 8XY?: register arithmetic.  The flag-setting forms write VF first and then
      re-read VX and VY, so VF as an operand sees the new flag. */
  function ExecArithmetic(m: Machine): (r: Result<Machine>)
    requires WellFormed(m)
    ensures Keeps(m, r)
  {
    var x := RegX(m.opcode);
    var y := RegY(m.opcode);
    var sub := LowNibble(m.opcode);
    if sub == 0x0 then SetReg(m, x, m.reg[y])
    else if sub == 0x1 then SetReg(m, x, BitOr(m.reg[x], m.reg[y]))
    else if sub == 0x2 then SetReg(m, x, BitAnd(m.reg[x], m.reg[y]))
    else if sub == 0x3 then SetReg(m, x, BitXor(m.reg[x], m.reg[y]))
    else if sub == 0x4 then
      var f := m.reg[FlagReg := if m.reg[y] > 0xFF - m.reg[x] then 1 else 0];
      Advance(m.(reg := f[x := (f[x] as int + f[y]) % 0x100]), 2)
    else if sub == 0x5 then
      var f := m.reg[FlagReg := if m.reg[y] > m.reg[x] then 0 else 1];
      Advance(m.(reg := f[x := (f[x] as int - f[y]) % 0x100]), 2)
    else if sub == 0x6 then
      var f := m.reg[FlagReg := m.reg[x] % 2];
      Advance(m.(reg := f[x := f[x] / 2]), 2)
    else if sub == 0x7 then
      var f := m.reg[FlagReg := if m.reg[x] > m.reg[y] then 0 else 1];
      Advance(m.(reg := f[x := (f[y] as int - f[x]) % 0x100]), 2)
    else if sub == 0xE then
      var f := m.reg[FlagReg := m.reg[x] / 0x80];
      Advance(m.(reg := f[x := (f[x] as int * 2) % 0x100]), 2)
    else Err(UnknownOpcode(m.opcode))
  }

  /** A DXYN sprite: its top-left corner and its rows of bits. */
  datatype Sprite = Sprite(x: int, y: int, rows: seq<u8>)

  /** Whether drawing `s` toggles pixel `p`: the pixel lies inside the sprite's
      footprint and the row's bit vector has a 1 in that column. */
  predicate Hit(s: Sprite, p: int)
    requires 0 <= p < PixelCount
  {
    var row := p / Width - s.y;
    var col := p % Width - s.x;
    0 <= row < |s.rows| && 0 <= col < 8 && BitVector(s.rows[row])[col] != 0
  }

  /** The frame buffer after drawing `s`: every hit pixel is XORed with 1. */
  function DrawPixels(g: seq<u8>, s: Sprite): (r: seq<u8>)
    requires |g| == PixelCount
    ensures |r| == PixelCount
  {
    seq(PixelCount, p requires 0 <= p < PixelCount => if Hit(s, p) then Flip(g[p]) else g[p])
  }

  /** Whether drawing `s` on `g` toggles some pixel that was 1. */
  predicate Collides(g: seq<u8>, s: Sprite)
    requires |g| == PixelCount
  {
    exists p :: 0 <= p < PixelCount && Hit(s, p) && g[p] == 1
  }

  /** The sprite DXYN draws: at (VX, VY), N rows read from memory at index. */
  function SpriteAt(m: Machine): (s: Sprite)
    requires WellFormed(m)
    requires LowNibble(m.opcode) == 0 || m.index + LowNibble(m.opcode) <= MemorySize
    ensures |s.rows| == LowNibble(m.opcode)
  {
    var n := LowNibble(m.opcode);
    Sprite(m.reg[RegX(m.opcode)], m.reg[RegY(m.opcode)],
           if n == 0 then [] else m.memory[m.index .. m.index + n])
  }

  /** DXYN.  `start + n` is computed first (a u16 addition); the row loop then
      reads `memory[start..start+n]`. */
  function ExecDraw(m: Machine): (r: Result<Machine>)
    requires WellFormed(m)
    ensures Keeps(m, r)
  {
    var n := LowNibble(m.opcode);
    if m.index + n > MaxU16 then Err(IndexOverflow)
    else if n > 0 && m.index + n > MemorySize then
      Err(MemoryOutOfBounds(if m.index < MemorySize then MemorySize else m.index))
    else
      var s := SpriteAt(m);
      Advance(m.(graphics := DrawPixels(m.graphics, s),
                 reg := m.reg[FlagReg := if Collides(m.graphics, s) then 1 else 0],
                 drawFlag := true), 2)
  }

  /** EX9E and EXA1: skip on the key named by VX. */
  function ExecKeySkip(m: Machine): (r: Result<Machine>)
    requires WellFormed(m)
    ensures Keeps(m, r)
  {
    var k := m.reg[RegX(m.opcode)];
    var sub := LowByte(m.opcode);
    if sub == 0x9E then
      if k >= KeyCount then Err(KeyOutOfBounds(k)) else Skip(m, m.key[k] != 0)
    else if sub == 0xA1 then
      if k >= KeyCount then Err(KeyOutOfBounds(k)) else Skip(m, m.key[k] == 0)
    else Err(UnknownOpcode(m.opcode))
  }

  /** The key FX0A takes: the first pressed key among 0..14 (the scan stops
      before key 15). */
  function FirstPressed(keys: seq<u8>): (r: Option<int>)
    requires |keys| == KeyCount
    ensures r.Some? ==> 0 <= r.value < 0xF && keys[r.value] != 0
    ensures r.Some? ==> forall k :: 0 <= k < r.value ==> keys[k] == 0
    ensures r.None? ==> forall k :: 0 <= k < 0xF ==> keys[k] == 0
  {
    ScanKeys(keys, 0)
  }

  function ScanKeys(keys: seq<u8>, from: nat): (r: Option<int>)
    requires |keys| == KeyCount && from <= 0xF
    requires forall k :: 0 <= k < from ==> keys[k] == 0
    ensures r.Some? ==> from <= r.value < 0xF && keys[r.value] != 0
    ensures r.Some? ==> forall k :: 0 <= k < r.value ==> keys[k] == 0
    ensures r.None? ==> forall k :: 0 <= k < 0xF ==> keys[k] == 0
    decreases 0xF - from
  {
    if from == 0xF then None
    else if keys[from] != 0 then Some(from)
    else ScanKeys(keys, from + 1)
  }

  /** Memory after FX55: V0..VX stored at index..index+X. */
  function StoreRegs(m: Machine, x: int): (mem: seq<u8>)
    requires WellFormed(m) && 0 <= x < RegCount && m.index + x < MemorySize
    ensures |mem| == MemorySize
  {
    seq(MemorySize, a requires 0 <= a < MemorySize =>
      if m.index <= a <= m.index + x then m.reg[a - m.index] else m.memory[a])
  }

  /** Registers after FX65: V0..VX loaded from index..index+X. */
  function LoadRegs(m: Machine, x: int): (regs: seq<u8>)
    requires WellFormed(m) && 0 <= x < RegCount && m.index + x < MemorySize
    ensures |regs| == RegCount
  {
    seq(RegCount, i requires 0 <= i < RegCount =>
      if i <= x then m.memory[m.index + i] else m.reg[i])
  }

  /** The first address at or after `index` that lies outside memory. */
  function FirstBadAddress(index: int): int {
    if index < MemorySize then MemorySize else index
  }

  /** FX??: timers, keys, index and memory transfers. */
  function ExecMisc(m: Machine): (r: Result<Machine>)
    requires WellFormed(m)
    ensures Keeps(m, r)
  {
    var x := RegX(m.opcode);
    var sub := LowByte(m.opcode);
    if sub == 0x07 then SetReg(m, x, m.delayTimer)
    else if sub == 0x0A then
      match FirstPressed(m.key)
      case Some(k) => SetReg(m, x, k)
      case None => Ok(m)
    else if sub == 0x15 then Advance(m.(delayTimer := m.reg[x]), 2)
    else if sub == 0x18 then Advance(m.(soundTimer := m.reg[x]), 2)
    else if sub == 0x1E then
      if m.index as int + m.reg[x] > MaxU16 then Err(IndexOverflow)
      else Advance(m.(index := m.index as int + m.reg[x]), 2)
    else if sub == 0x29 then Advance(m.(index := 5 * (m.reg[x] as int)), 2)
    else if sub == 0x33 then
      if m.index + 2 >= MemorySize then Err(MemoryOutOfBounds(FirstBadAddress(m.index)))
      else
        var d := Bcd(m.reg[x]);
        Advance(m.(memory := m.memory[m.index := d[0]][m.index + 1 := d[1]][m.index + 2 := d[2]]), 2)
    else if sub == 0x55 then
      if m.index + x >= MemorySize then Err(MemoryOutOfBounds(FirstBadAddress(m.index)))
      else Advance(m.(memory := StoreRegs(m, x)), 2)
    else if sub == 0x65 then
      if m.index + x >= MemorySize then Err(MemoryOutOfBounds(FirstBadAddress(m.index)))
      else Advance(m.(reg := LoadRegs(m, x)), 2)
    else Err(UnknownOpcode(m.opcode))
  }

  /** `executeOpcode`: dispatch on the high nibble of the current opcode. */
  function Execute(m: Machine, rnd: RandomByte): (r: Result<Machine>)
    requires WellFormed(m)
    ensures Keeps(m, r)
  {
    var op := m.opcode;
    var x := RegX(op);
    var y := RegY(op);
    match Family(op)
    case 0x0 => ExecSystem(m)
    case 0x1 => Ok(m.(pc := Address(op)))
    case 0x2 => ExecCall(m)
    case 0x3 => Skip(m, m.reg[x] == LowByte(op))
    case 0x4 => Skip(m, m.reg[x] != LowByte(op))
    case 0x5 => Skip(m, m.reg[x] == m.reg[y])
    case 0x6 => SetReg(m, x, LowByte(op))
    case 0x7 => SetReg(m, x, (m.reg[x] as int + LowByte(op)) % 0x100)
    case 0x8 => ExecArithmetic(m)
    case 0x9 => Skip(m, m.reg[x] != m.reg[y])
    case 0xA => Advance(m.(index := Address(op)), 2)
    case 0xB => Ok(m.(pc := Address(op) + m.reg[0] as int))
    case 0xC => SetReg(m, x, BitAnd(LowByte(op), rnd))
    case 0xD => ExecDraw(m)
    case 0xE => ExecKeySkip(m)
    case _ => ExecMisc(m)
  }

  /** `emulateCycle`: fetch, execute, then tick the timers.  A panic in fetch
      or execute ends the cycle before the timers move. */
  function Cycle(m: Machine, rnd: RandomByte): (r: Result<Machine>)
    requires WellFormed(m)
    ensures r.Ok? ==> WellFormed(r.value)
  {
    match Fetch(m)
    case Err(f) => Err(f)
    case Ok(op) =>
      match Execute(m.(opcode := op), rnd)
      case Err(f) => Err(f)
      case Ok(next) => Ok(Tick(next))
  }
}
