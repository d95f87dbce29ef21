/**
  The newer engine, class Chip8 of src/Chip8.cpp: one call of `runCycle` is
  one fetch and one execution of the switch in `decodeAndExecute`, and
  `updateTimers` is the 60 Hz tick. The framebuffer is a separate 2048-byte
  array of which drawing uses the first 256 bytes (32 rows of 8 bytes).
 */
module Chip8 {
  import opened Layout
  import opened Opcode
  import opened Outcomes
  import Alu
  import Sprite
  import Rom
  import opened Transfer

  type Graphics = s: seq<bv8> | |s| == GraphicsBufferSize witness seq(GraphicsBufferSize, _ => 0)

  /** The state of a Chip8 object. The call stack's top is its last element. */
  datatype Machine = Machine(
    memory: Memory,
    v: Registers,
    index: bv16,
    pc: bv16,
    opcode: bv16,
    gfx: Graphics,
    delay: bv8,
    sound: bv8,
    stack: seq<bv16>,
    keypad: Keypad,
    romBytes: int,
    dirty: bool)

  /** `init`: everything zeroed except the font at the bottom of memory and
      the program counter at 0x200. The keypad is not touched by `init` (and
      is never initialised by the class), so it is kept as it was. */
  function Init(m: Machine): (r: Machine)
    ensures r.memory[..FontSize] == Font
    ensures forall a :: FontSize <= a < MemorySize ==> r.memory[a] == 0
    ensures forall i :: 0 <= i < NumberOfRegisters ==> r.v[i] == 0
    ensures forall a :: 0 <= a < GraphicsBufferSize ==> r.gfx[a] == 0
    ensures r.stack == [] && r.pc == 0x200 && r.index == 0 && r.opcode == 0
    ensures r.delay == 0 && r.sound == 0 && r.romBytes == 0 && !r.dirty
    ensures r.keypad == m.keypad
  {
    Machine(FontMemory(), Zeros(NumberOfRegisters), 0, 0x200, 0,
            Zeros(GraphicsBufferSize), 0, 0, [], m.keypad, 0, false)
  }

  /** Memory as `init` leaves it: the font, then zeros. */
  function FontMemory(): (mem: Memory)
    ensures mem[..FontSize] == Font
    ensures forall a :: FontSize <= a < MemorySize ==> mem[a] == 0
  {
    Font + Zeros(MemorySize - FontSize)
  }

  /** `loadROM` on the machine: memory and the byte count; the result says
      whether the ROM was accepted. */
  function LoadRom(m: Machine, rom: seq<bv8>, stale: bv8): (r: (Machine, bool))
    ensures r.0 == m.(memory := r.0.memory, romBytes := r.0.romBytes)
  {
    var loaded := Rom.LoadRom(m.memory, rom, stale);
    (m.(memory := loaded.memory, romBytes := loaded.romBytes), loaded.ok)
  }

  /** `fetch`: the big-endian word at pc. Reading memory[pc + 1] past the end
      of memory is undefined behaviour. */
  function Fetch(m: Machine): (r: Outcome<Machine>)
    ensures r.Next? || r.Undefined?
    ensures r.Next? <==> m.pc as int + 1 < MemorySize
    ensures r.Next? ==> r.m == m.(opcode := r.m.opcode)
    ensures r.Next? ==> r.m.opcode == (m.memory[m.pc] as bv16) * 256 + m.memory[m.pc as int + 1] as bv16
  {
    if m.pc as int + 1 >= MemorySize then Undefined(FetchPastMemory)
    else Next(m.(opcode := Fetched(m)))
  }

  /** The opcode at pc. */
  function Fetched(m: Machine): bv16
    requires m.pc as int + 1 < MemorySize
  {
    Word(m.memory[m.pc], m.memory[m.pc as int + 1])
  }

  /** `runCycle`: clear the dirty flag, fetch, decode and execute. */
  function Cycle(m: Machine, env: Env): Outcome<Machine>
  {
    match Fetch(m.(dirty := false))
    case Next(fetched) => Execute(fetched, Decode(fetched.opcode), env)
    case other => other
  }

  /** `pc += 2`. */
  function Advance(m: Machine): Machine
  {
    m.(pc := m.pc + 2)
  }

  /** The body of `decodeAndExecute` once the switch has picked an instruction. */
  function Execute(m: Machine, i: Instr, env: Env): Outcome<Machine>
  {
    match i
    case ClearScreen => ExecClearScreen(m)
    case Return => ExecReturn(m)
    case Jump(t) => ExecJump(m, t)
    case Call(t) => ExecCall(m, t)
    case SkipEqImm(x, nn) => ExecSkip(m, m.v[x] == nn)
    case SkipNeImm(x, nn) => ExecSkip(m, m.v[x] != nn)
    case SkipEqReg(x, y) => ExecSkip(m, m.v[x] == m.v[y])
    case SetImm(x, nn) => ExecSetRegister(m, x, nn)
    case AddImm(x, nn) => ExecArith(m, Alu.AddImm(m.v, x, nn))
    case Arith(k, x, y) => ExecArith(m, Calculate(m.v, k, x, y))
    case SkipNeReg(x, y) => ExecSkip(m, m.v[x] != m.v[y])
    case SetIndex(t) => ExecSetIndex(m, t)
    case JumpOffset(t) => ExecJumpOffset(m, t)
    case Random(x, nn) => ExecSetRegister(m, x, Alu.Masked(env.random, nn))
    case Draw(x, y, n) => ExecDraw(m, x, y, n)
    case SkipKey(x) => ExecSkipKey(m, x, true)
    case SkipNoKey(x) => ExecSkipKey(m, x, false)
    case ReadDelay(x) => ExecSetRegister(m, x, m.delay)
    case WaitKey(x) => ExecSetRegister(m, x, env.typed)
    case SetDelay(x) => ExecSetTimers(m, m.v[x], m.sound)
    case SetSound(x) => ExecSetTimers(m, m.delay, m.v[x])
    case AddIndex(x) => ExecSetIndex(m, Alu.AddIndex(m.index, m.v[x]))
    case FontChar(x) => ExecSetIndex(m, Alu.FontAddress(m.v[x]))
    case StoreBcd(x) => ExecStoreBcd(m, x)
    case StoreRegs(x) => ExecStoreRegs(m, x)
    case LoadRegs(x) => ExecLoadRegs(m, x)
    case Unsupported => Stopped(m, Unimplemented)
  }

  /** 00E0: every byte of the framebuffer cleared. */
  function ExecClearScreen(m: Machine): (r: Outcome<Machine>)
    ensures r.Next? && r.m == m.(gfx := r.m.gfx, pc := m.pc + 2, dirty := true)
    ensures forall a :: 0 <= a < GraphicsBufferSize ==> r.m.gfx[a] == 0
  {
    Next(Advance(m.(gfx := Zeros(GraphicsBufferSize), dirty := true)))
  }

  /** The conditional skips: `pc += 4` when the condition holds, else `pc += 2`. */
  function ExecSkip(m: Machine, condition: bool): (r: Outcome<Machine>)
    ensures r.Next? && r.m == m.(pc := r.m.pc)
    ensures r.m.pc == m.pc + 4 || r.m.pc == m.pc + 2
    ensures r.m.pc == m.pc + 4 <==> condition
  {
    Next(m.(pc := if condition then m.pc + 4 else m.pc + 2))
  }

  /** 6XNN, CXNN, FX07 and FX0A: one register receives a byte. */
  function ExecSetRegister(m: Machine, x: Nibble, b: bv8): (r: Outcome<Machine>)
    ensures r.Next? && r.m == m.(v := r.m.v, pc := m.pc + 2)
    ensures r.m.v[x] == b && forall i: Nibble :: i != x ==> r.m.v[i] == m.v[i]
  {
    Next(Advance(m.(v := Alu.Put(m.v, x, b))))
  }

  /** 7XNN and the 8XY? group: the registers after the arithmetic. */
  function ExecArith(m: Machine, v: Registers): Outcome<Machine>
  {
    Next(Advance(m.(v := v)))
  }

  /** ANNN, FX1E and FX29: a new index. */
  function ExecSetIndex(m: Machine, index: bv16): Outcome<Machine>
  {
    Next(Advance(m.(index := index)))
  }

  /** FX15 and FX18: new timer values. */
  function ExecSetTimers(m: Machine, delay: bv8, sound: bv8): Outcome<Machine>
  {
    Next(Advance(m.(delay := delay, sound := sound)))
  }

  /** BNNN: jump to V0 + NNN; pc does not advance past the jump. */
  function ExecJumpOffset(m: Machine, t: Addr): (r: Outcome<Machine>)
    ensures r.Next? && r.m == m.(pc := r.m.pc)
    ensures r.m.pc as bv32 == m.v[0] as bv32 + t as bv32
  {
    Next(m.(pc := Alu.Offset(m.v[0], t)))
  }

  /** 00EE: pop the return address into pc; an empty stack stops the cycle. */
  function ExecReturn(m: Machine): (r: Outcome<Machine>)
    ensures r.Next? || r.Stopped?
    ensures r.Stopped? <==> m.stack == []
    ensures r.Stopped? ==> r == Stopped(m, StackUnderflow)
    ensures r.Next? ==> r.m == m.(pc := r.m.pc, stack := r.m.stack)
    ensures r.Next? ==> m.stack == r.m.stack + [r.m.pc]
  {
    if |m.stack| == 0 then Stopped(m, StackUnderflow)
    else Next(m.(pc := m.stack[|m.stack| - 1], stack := m.stack[..|m.stack| - 1]))
  }

  /** 1NNN: jump; a jump to itself can never leave, so the cycle stops
      (after pc has been set, which changes nothing). */
  function ExecJump(m: Machine, t: Addr): (r: Outcome<Machine>)
    ensures (r.Next? || r.Stopped?) && r.m == m.(pc := t)
    ensures r.Stopped? <==> t == m.pc
    ensures r.Stopped? ==> r.why == SelfJump
  {
    if t == m.pc then Stopped(m.(pc := t), SelfJump) else Next(m.(pc := t))
  }

  /** 2NNN: push pc + 2 and jump; more than 16 return addresses stop the
      cycle, after the push and the jump. */
  function ExecCall(m: Machine, t: Addr): (r: Outcome<Machine>)
    ensures (r.Next? || r.Stopped?) && r.m == m.(stack := m.stack + [m.pc + 2], pc := t)
    ensures r.Stopped? <==> |m.stack| >= StackDepth
    ensures r.Stopped? ==> r.why == StackOverflow
  {
    var called := m.(stack := m.stack + [m.pc + 2], pc := t);
    if |called.stack| > StackDepth then Stopped(called, StackOverflow) else Next(called)
  }

  /** The 8XY? group, each sub-operation as the source writes it; the shifts
      act on V[X] itself. */
  function Calculate(v: Registers, k: AluOp, x: Nibble, y: Nibble): Registers
  {
    match k
    case Assign => Alu.Put(v, x, v[y])
    case Or => Alu.Put(v, x, v[x] | v[y])
    case And => Alu.Put(v, x, v[x] & v[y])
    case Xor => Alu.Put(v, x, v[x] ^ v[y])
    case Add => Alu.AddCarry(v, x, y)
    case Sub => Alu.Sub(v, x, y)
    case ShiftRight => Alu.ShiftRightFlagFirst(v, x, v[x])
    case SubReversed => Alu.SubReversed(v, x, y)
    case ShiftLeft => Alu.ShiftLeftFlagFirst(v, x, v[x])
  }

  /** EX9E (`pressed`) and EXA1: skip on the key named by V[X]; a key number
      of 16 or more indexes past the keypad array. */
  function ExecSkipKey(m: Machine, x: Nibble, pressed: bool): (r: Outcome<Machine>)
    ensures r.Next? || r == Undefined(KeyOutOfRange)
    ensures r.Next? <==> m.v[x] < 16
    ensures r.Next? ==> r.m == m.(pc := r.m.pc)
    ensures r.Next? ==> (r.m.pc == m.pc + 4 <==> (m.keypad[m.v[x]] != 0) == pressed)
  {
    if m.v[x] >= 16 then Undefined(KeyOutOfRange)
    else ExecSkip(m, (m.keypad[m.v[x]] != 0) == pressed)
  }

  /** Whether the `n` sprite bytes from address `i` lie inside memory. */
  predicate SpriteInMemory(i: int, n: Nibble)
  {
    n == 0 || i + n as int <= MemorySize
  }

  /** The `n` sprite bytes from address `i`. */
  function SpriteBytes(memory: Memory, i: nat, n: Nibble): (s: seq<bv8>)
    requires SpriteInMemory(i, n)
    ensures |s| == n as int
    ensures forall k :: 0 <= k < n as int ==> s[k] == memory[i + k]
  {
    if n == 0 then [] else memory[i .. i + n as int]
  }

  /** What DXYN changes: the registers and the framebuffer. */
  datatype Drawn = Drawn(v: Registers, gfx: Graphics)

  /** DXYN's effect on registers `v` and framebuffer `gfx`, the sprite being
      read from address `i`: VF is cleared before the coordinates are read,
      so X or Y equal to F draws at coordinate 0; an origin off the screen
      draws nothing; otherwise VF ends up as the collision flag. */
  function Drawing(v: Registers, gfx: Graphics, memory: Memory, i: nat, x: Nibble, y: Nibble, n: Nibble)
    : (r: Outcome<Drawn>)
    ensures r.Next? || r == Undefined(MemoryPastEnd)
  {
    var cleared := Alu.Put(v, VF, 0);
    var px, py := cleared[x] as int, cleared[y] as int;
    if px < ScreenWidth && py < ScreenHeight then
      if !SpriteInMemory(i, n) then Undefined(MemoryPastEnd)
      else
        var drawn := Sprite.Blit(gfx, Sprite.SpriteWrites(SpriteBytes(memory, i, n), px, py), Sprite.Erased);
        Next(Drawn(Alu.Put(cleared, VF, if drawn.hit then 1 else 0), drawn.gfx))
    else
      Next(Drawn(cleared, gfx))
  }

  /** DXYN on the machine: only the registers, the framebuffer, the dirty
      flag and pc change. */
  function ExecDraw(m: Machine, x: Nibble, y: Nibble, n: Nibble): (r: Outcome<Machine>)
    ensures r.Next? || r == Undefined(MemoryPastEnd)
    ensures r.Next? ==> r.m == m.(v := r.m.v, gfx := r.m.gfx, pc := m.pc + 2, dirty := true)
  {
    var d := Drawing(m.v, m.gfx, m.memory, m.index as int, x, y, n);
    if d.Next? then Next(Advance(m.(v := d.m.v, gfx := d.m.gfx, dirty := true)))
    else Undefined(MemoryPastEnd)
  }

  /** FX33 on the machine; a digit past the end of memory is undefined. */
  function ExecStoreBcd(m: Machine, x: Nibble): (r: Outcome<Machine>)
    ensures r.Next? || r == Undefined(MemoryPastEnd)
    ensures r.Next? <==> m.index as int + 2 < MemorySize
    ensures r.Next? ==> r.m == m.(memory := r.m.memory, pc := m.pc + 2)
  {
    if m.index as int + 2 >= MemorySize then Undefined(MemoryPastEnd)
    else Next(Advance(m.(memory := StoredBcd(m.memory, m.index as int, m.v[x]))))
  }

  /** FX55 on the machine; index itself is left alone. */
  function ExecStoreRegs(m: Machine, x: Nibble): (r: Outcome<Machine>)
    ensures r.Next? || r == Undefined(MemoryPastEnd)
    ensures r.Next? <==> m.index as int + x as int < MemorySize
    ensures r.Next? ==> r.m == m.(memory := r.m.memory, pc := m.pc + 2)
  {
    if m.index as int + x as int >= MemorySize then Undefined(MemoryPastEnd)
    else Next(Advance(m.(memory := StoredRegs(m.memory, m.v, m.index as int, x as int))))
  }

  /** FX65 on the machine; index itself is left alone. */
  function ExecLoadRegs(m: Machine, x: Nibble): (r: Outcome<Machine>)
    ensures r.Next? || r == Undefined(MemoryPastEnd)
    ensures r.Next? <==> m.index as int + x as int < MemorySize
    ensures r.Next? ==> r.m == m.(v := r.m.v, pc := m.pc + 2)
  {
    if m.index as int + x as int >= MemorySize then Undefined(MemoryPastEnd)
    else Next(Advance(m.(v := LoadedRegs(m.v, m.memory, m.index as int, x as int))))
  }

  /** `updateTimers`: each timer counts down by one unless it is already zero. */
  function UpdateTimers(m: Machine): (r: Machine)
    ensures r.delay as int == if m.delay == 0 then 0 else m.delay as int - 1
    ensures r.sound as int == if m.sound == 0 then 0 else m.sound as int - 1
    ensures r == m.(delay := r.delay, sound := r.sound)
  {
    m.(delay := Alu.Tick(m.delay), sound := Alu.Tick(m.sound))
  }

  /** `runCycle` repeated while it returns true, one environment per cycle. */
  function Run(m: Machine, envs: seq<Env>): Outcome<Machine>
    decreases |envs|
  {
    if envs == [] then Next(m)
    else match Cycle(m, envs[0])
      case Next(m') => Run(m', envs[1..])
      case other => other
  }
}
