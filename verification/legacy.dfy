/**
  The older engine, class chip8 of src/chip8.cpp. Its state is the newer
  engine's without the dirty flag (the model keeps that field; no
  operation here reads it, and `init` resets it with the rest), and its
  2048-byte graphicsBuffer is zeroed by `init` and never used again: this
  engine draws into the last 256 bytes of memory, from 0xF00 on, which
  `getScreen` hands out.

  `runCycle` is `fetch() && decode() && execute()`: the fetch refuses an
  odd program counter, `decode` runs the instruction, and `execute` ticks
  both timers, but only when `decode` returned true. The instructions that
  behave exactly as in the newer engine reuse its definitions; what differs
  is below: 00E0 clears memory, 00EE returns to the saved address plus two,
  1NNN and 2NNN check their target instead of looking for a self-jump, 2NNN
  saves pc itself, the shifts read V[Y], and DXYN clips at the screen's
  edges instead of wrapping.
 */
module Chip8Legacy {
  import opened Layout
  import opened Opcode
  import opened Outcomes
  import Alu
  import Sprite
  import Rom
  import opened Transfer
  import Chip8

  type Machine = Chip8.Machine

  /** `init`: the same reset as the newer engine's, graphicsBuffer included. */
  function Init(m: Machine): (r: Machine)
    ensures r.memory[..FontSize] == Font
    ensures forall a :: FontSize <= a < MemorySize ==> r.memory[a] == 0
    ensures forall i :: 0 <= i < NumberOfRegisters ==> r.v[i] == 0
    ensures forall a :: 0 <= a < GraphicsBufferSize ==> r.gfx[a] == 0
    ensures r.stack == [] && r.pc == 0x200 && r.index == 0 && r.opcode == 0
    ensures r.delay == 0 && r.sound == 0 && r.romBytes == 0
    ensures r.keypad == m.keypad
  {
    Chip8.Init(m)
  }

  /** `loadROM`, whose `romBytes--` is unconditional. */
  function LoadRom(m: Machine, rom: seq<bv8>, stale: bv8): (r: (Machine, bool))
    ensures r.0 == m.(memory := r.0.memory, romBytes := r.0.romBytes)
    ensures 0 <= r.0.romBytes < 0x1_0000
  {
    var loaded := Rom.LoadRomLegacy(m.memory, rom, stale);
    (m.(memory := loaded.memory, romBytes := loaded.romBytes), loaded.ok)
  }

  /** `getScreen`: the 256 bytes of memory from 0xF00 on. */
  function Screen(m: Machine): (s: seq<bv8>)
    ensures |s| == ScreenSize
    ensures forall k :: 0 <= k < ScreenSize ==> s[k] == m.memory[ScreenStart + k]
  {
    m.memory[ScreenStart..]
  }

  /** `fetch`: an odd program counter ends the run; otherwise the big-endian
      word at pc, where reading past the end of memory has no meaning. */
  function Fetch(m: Machine): (r: Outcome<Machine>)
    ensures r.Next? || r.Stopped? || r == Undefined(FetchPastMemory)
    ensures r.Stopped? <==> m.pc % 2 == 1
    ensures r.Stopped? ==> r == Stopped(m, OddProgramCounter)
    ensures r.Next? <==> m.pc % 2 == 0 && m.pc as int + 1 < MemorySize
    ensures r.Next? ==> r.m == m.(opcode := r.m.opcode)
    ensures r.Next? ==> r.m.opcode == (m.memory[m.pc] as bv16) * 256 + m.memory[m.pc as int + 1] as bv16
  {
    if m.pc % 2 == 1 then Stopped(m, OddProgramCounter)
    else if m.pc as int + 1 >= MemorySize then Undefined(FetchPastMemory)
    else Next(m.(opcode := Word(m.memory[m.pc], m.memory[m.pc as int + 1])))
  }

  /** `execute`: the sound timer, then the delay timer, each counted down
      unless already zero. */
  function Tick(m: Machine): (r: Machine)
    ensures r.delay as int == if m.delay == 0 then 0 else m.delay as int - 1
    ensures r.sound as int == if m.sound == 0 then 0 else m.sound as int - 1
    ensures r == m.(delay := r.delay, sound := r.sound)
  {
    m.(sound := Alu.Tick(m.sound), delay := Alu.Tick(m.delay))
  }

  /** `runCycle`: the timers tick only after a fetch and a decode that both
      returned true. */
  function Cycle(m: Machine, env: Env): Outcome<Machine>
  {
    match Fetch(m)
    case Next(fetched) =>
      (match Execute(fetched, Decode(fetched.opcode), env)
       case Next(decoded) => Next(Tick(decoded))
       case other => other)
    case other => other
  }

  /** `runCycle` repeated while it returns true, one environment per cycle. */
  function Run(m: Machine, envs: seq<Env>): Outcome<Machine>
    decreases |envs|
  {
    if envs == [] then Next(m)
    else match Cycle(m, envs[0])
      case Next(m') => Run(m', envs[1..])
      case other => other
  }

  /** `decode` once its switch has picked an instruction. */
  function Execute(m: Machine, i: Instr, env: Env): Outcome<Machine>
  {
    match i
    case ClearScreen => ExecClearScreen(m)
    case Return => ExecReturn(m)
    case Jump(t) => ExecJump(m, t)
    case Call(t) => ExecCall(m, t)
    case SkipEqImm(x, nn) => Chip8.ExecSkip(m, m.v[x] == nn)
    case SkipNeImm(x, nn) => Chip8.ExecSkip(m, m.v[x] != nn)
    case SkipEqReg(x, y) => Chip8.ExecSkip(m, m.v[x] == m.v[y])
    case SetImm(x, nn) => Chip8.ExecSetRegister(m, x, nn)
    case AddImm(x, nn) => Chip8.ExecArith(m, Alu.AddImm(m.v, x, nn))
    case Arith(k, x, y) => Chip8.ExecArith(m, Calculate(m.v, k, x, y))
    case SkipNeReg(x, y) => Chip8.ExecSkip(m, m.v[x] != m.v[y])
    case SetIndex(t) => Chip8.ExecSetIndex(m, t)
    case JumpOffset(t) => Chip8.ExecJumpOffset(m, t)
    case Random(x, nn) => Chip8.ExecSetRegister(m, x, Alu.Masked(env.random, nn))
    case Draw(x, y, n) => ExecDraw(m, x, y, n)
    case SkipKey(x) => Chip8.ExecSkipKey(m, x, true)
    case SkipNoKey(x) => Chip8.ExecSkipKey(m, x, false)
    case ReadDelay(x) => Chip8.ExecSetRegister(m, x, m.delay)
    case WaitKey(x) => Chip8.ExecSetRegister(m, x, env.typed)
    case SetDelay(x) => Chip8.ExecSetTimers(m, m.v[x], m.sound)
    case SetSound(x) => Chip8.ExecSetTimers(m, m.delay, m.v[x])
    case AddIndex(x) => Chip8.ExecSetIndex(m, Alu.AddIndex(m.index, m.v[x]))
    case FontChar(x) => Chip8.ExecSetIndex(m, Alu.FontAddress(m.v[x]))
    case StoreBcd(x) => Chip8.ExecStoreBcd(m, x)
    case StoreRegs(x) => Chip8.ExecStoreRegs(m, x)
    case LoadRegs(x) => Chip8.ExecLoadRegs(m, x)
    case Unsupported => Stopped(m, Unimplemented)
  }

  /** Memory with the screen, 0xF00..0xFFF, zeroed. */
  function ClearedScreen(memory: Memory): (mem: Memory)
    ensures forall a :: 0 <= a < ScreenStart ==> mem[a] == memory[a]
    ensures forall a :: ScreenStart <= a < MemorySize ==> mem[a] == 0
  {
    Splice(memory, ScreenStart, Zeros(ScreenSize))
  }

  /** 00E0: the screen area of memory cleared. */
  function ExecClearScreen(m: Machine): (r: Outcome<Machine>)
    ensures r.Next? && r.m == m.(memory := r.m.memory, pc := m.pc + 2)
  {
    Next(Chip8.Advance(m.(memory := ClearedScreen(m.memory))))
  }

  /** 00EE: back to the saved address plus two; an empty stack ends the
      process with exit(1). */
  function ExecReturn(m: Machine): (r: Outcome<Machine>)
    ensures r.Next? || r == Exited
    ensures r == Exited <==> m.stack == []
    ensures r.Next? ==> r.m == m.(pc := r.m.pc, stack := r.m.stack)
    ensures r.Next? ==> m.stack == r.m.stack + [r.m.pc - 2]
  {
    if |m.stack| == 0 then Exited
    else Next(m.(pc := m.stack[|m.stack| - 1] + 2, stack := m.stack[..|m.stack| - 1]))
  }

  /** A jump or call target the source refuses: below the code or odd. */
  predicate BadTarget(t: bv16)
  {
    t < 0x200 || t % 2 == 1
  }

  /** 1NNN: pc is set first, then a bad target stops the run. */
  function ExecJump(m: Machine, t: Addr): (r: Outcome<Machine>)
    ensures (r.Next? || r.Stopped?) && r.m == m.(pc := t)
    ensures r.Stopped? <==> BadTarget(t)
    ensures r.Stopped? ==> r.why == BadJumpTarget
  {
    var jumped := m.(pc := t);
    if BadTarget(t) then Stopped(jumped, BadJumpTarget) else Next(jumped)
  }

  /** 2NNN: pc itself is saved and the jump taken; then more than 16 saved
      addresses, or a bad target, stop the run. */
  function ExecCall(m: Machine, t: Addr): (r: Outcome<Machine>)
    ensures (r.Next? || r.Stopped?) && r.m == m.(stack := m.stack + [m.pc], pc := t)
    ensures r.Stopped? <==> |m.stack| >= StackDepth || BadTarget(t)
    ensures r.Stopped? && |m.stack| >= StackDepth ==> r.why == StackOverflow
    ensures r.Stopped? && |m.stack| < StackDepth ==> r.why == BadJumpTarget
  {
    var called := m.(stack := m.stack + [m.pc], pc := t);
    if |called.stack| > StackDepth then Stopped(called, StackOverflow)
    else if BadTarget(t) then Stopped(called, BadJumpTarget)
    else Next(called)
  }

  /** The 8XY? group; unlike the newer engine, both shifts read V[Y], and
      the right shift writes its flag last. */
  function Calculate(v: Registers, k: AluOp, x: Nibble, y: Nibble): Registers
  {
    match k
    case Assign => Alu.Put(v, x, v[y])
    case Or => Alu.Put(v, x, v[x] | v[y])
    case And => Alu.Put(v, x, v[x] & v[y])
    case Xor => Alu.Put(v, x, v[x] ^ v[y])
    case Add => Alu.AddCarry(v, x, y)
    case Sub => Alu.Sub(v, x, y)
    case ShiftRight => Alu.ShiftRightFlagLast(v, x, v[y])
    case SubReversed => Alu.SubReversed(v, x, y)
    case ShiftLeft => Alu.ShiftLeftFlagFirst(v, x, v[y])
  }

  // ---------------------------------------------------------------- DXYN

  /** Memory and the collision flag while DXYN runs. */
  datatype Canvas = Canvas(memory: Memory, hit: bool)

  /** `memory[loc] ^= bits`, raising the flag when test `t` holds: the
      split-row loop's `temp & toWrite`, made on the byte before the XOR,
      or the aligned loop's `temp & memory[loc]`, made after it. */
  function XorByte(c: Canvas, loc: int, bits: bv8, t: Sprite.Test): (r: Canvas)
    requires 0 <= loc < MemorySize
    ensures r.memory[loc] ^ bits == c.memory[loc]
    ensures r.memory == c.memory[loc := r.memory[loc]]
    ensures r.hit <==> c.hit || Sprite.Hits(t, c.memory[loc], bits)
  {
    var before := c.memory[loc];
    Canvas(c.memory[loc := before ^ bits], c.hit || Sprite.Hits(t, before, bits))
  }

  /** The collision test of the byte-aligned loop as the source writes it:
      `temp & memory[loc]` after the XOR. It reports the pixels the sprite
      left lit, not the ones it switched off. */
  function AlignedHitAsWritten(before: bv8, bits: bv8): (h: bool)
    ensures h <==> before & !bits != 0
    ensures h <==> Sprite.Hits(Sprite.LeftLit, before, bits)
  {
    before & (before ^ bits) != 0
  }

  /** The screen byte holding column `xByte` of screen row `row`. */
  function ScreenByte(xByte: int, row: int): (loc: int)
    requires 0 <= xByte < ScreenWidthBytes && 0 <= row < ScreenHeight
    ensures ScreenStart <= loc < MemorySize
    ensures xByte < 7 ==> loc + 1 < MemorySize
    ensures loc % ScreenWidthBytes == xByte
    ensures ScreenStart + row * ScreenWidthBytes <= loc < ScreenStart + (row + 1) * ScreenWidthBytes
  {
    ScreenStart + row * ScreenWidthBytes + xByte
  }

  /** One sprite row, read from memory[src], drawn at screen row `row`: one
      byte when xBit is 0, tested with `aligned`, else the left part at
      column xByte and the right part at column xByte + 1, which is dropped
      in the last column, both tested with `Erased`. The right part re-reads
      memory[src] after the left part has been written. */
  function DrawRow(c: Canvas, src: int, xByte: int, xBit: int, row: int, aligned: Sprite.Test): (r: Canvas)
    requires 0 <= src < MemorySize && 0 <= xByte < ScreenWidthBytes && 0 <= xBit < 8
    requires 0 <= row < ScreenHeight
    ensures r.memory[..ScreenStart] == c.memory[..ScreenStart]
    ensures c.hit ==> r.hit
  {
    var loc := ScreenByte(xByte, row);
    if xBit == 0 then XorByte(c, loc, c.memory[src], aligned)
    else
      var left := XorByte(c, loc, Sprite.LeftHalf(c.memory[src], xBit), Sprite.Erased);
      if xByte < 7 then XorByte(left, loc + 1, Sprite.RightHalf(left.memory[src], xBit), Sprite.Erased) else left
  }

  /** The source's row loop from row i on: it stops at row h or at the
      bottom of the screen; reading a sprite byte past the end of memory
      has no meaning. The code below the screen is never written. */
  function DrawRows(c: Canvas, index: int, xByte: int, xBit: int, y: int, h: int, i: nat, aligned: Sprite.Test)
    : (r: Outcome<Canvas>)
    requires 0 <= index && 0 <= xByte < ScreenWidthBytes && 0 <= xBit < 8 && 0 <= y < ScreenHeight
    ensures r.Next? || r == Undefined(MemoryPastEnd)
    ensures r.Next? ==> r.m.memory[..ScreenStart] == c.memory[..ScreenStart]
    ensures r.Next? && c.hit ==> r.m.hit
    decreases h - i
  {
    if i >= h || y + i >= ScreenHeight then Next(c)
    else if index + i >= MemorySize then Undefined(MemoryPastEnd)
    else DrawRows(DrawRow(c, index + i, xByte, xBit, y + i, aligned), index, xByte, xBit, y, h, i + 1, aligned)
  }

  /** One turn of the row loop, for a row on screen and in memory. */
  lemma DrawRowsUnfold(c: Canvas, next: Canvas, index: int, xByte: int, xBit: int, y: int, h: int, i: nat,
                       src: int, row: int, aligned: Sprite.Test)
    requires 0 <= index && 0 <= xByte < ScreenWidthBytes && 0 <= xBit < 8 && 0 <= y < ScreenHeight
    requires i < h && src == index + i < MemorySize && row == y + i < ScreenHeight
    requires next == DrawRow(c, src, xByte, xBit, row, aligned)
    ensures DrawRows(c, index, xByte, xBit, y, h, i, aligned) == DrawRows(next, index, xByte, xBit, y, h, i + 1, aligned)
  {
  }

  /** What DXYN changes: the registers and memory. */
  datatype Drawn = Drawn(v: Registers, memory: Memory)

  /** The test a row makes: the aligned loop's own, or `Erased` when the
      rows are split, which never make the aligned test. */
  function RowTest(xBit: int, aligned: Sprite.Test): Sprite.Test
  {
    if xBit == 0 then aligned else Sprite.Erased
  }

  /** The sprite drawn with its top-left pixel at (px, py), which is on the
      screen; the code below the screen is never written. */
  function SpriteRows(memory: Memory, index: nat, px: int, py: int, n: int, aligned: Sprite.Test): (r: Outcome<Canvas>)
    requires 0 <= px < ScreenWidth && 0 <= py < ScreenHeight
    ensures r.Next? || r == Undefined(MemoryPastEnd)
    ensures r.Next? ==> r.m.memory[..ScreenStart] == memory[..ScreenStart]
  {
    DrawRows(Canvas(memory, false), index, px / 8, px % 8, py, n, 0, RowTest(px % 8, aligned))
  }

  /** DXYN's effect: VF is cleared before the coordinates are read; an
      origin off the screen draws nothing; otherwise VF ends as the
      collision flag. */
  function Drawing(v: Registers, memory: Memory, index: nat, x: Nibble, y: Nibble, n: Nibble, aligned: Sprite.Test)
    : (r: Outcome<Drawn>)
    ensures r.Next? || r == Undefined(MemoryPastEnd)
    ensures r.Next? ==> r.m.memory[..ScreenStart] == memory[..ScreenStart]
    ensures r.Next? ==> forall k: Nibble :: k != VF ==> r.m.v[k] == v[k]
    ensures r.Next? ==> r.m.v[VF] == 0 || r.m.v[VF] == 1
  {
    var cleared := Alu.Put(v, VF, 0);
    var px, py := cleared[x] as int, cleared[y] as int;
    if px < ScreenWidth && py < ScreenHeight then
      var rows := SpriteRows(memory, index, px, py, n as int, aligned);
      if rows.Next? then Next(Drawn(Alu.Put(cleared, VF, if rows.m.hit then 1 else 0), rows.m.memory))
      else Undefined(MemoryPastEnd)
    else
      Next(Drawn(cleared, memory))
  }

  /** DXYN on the machine, its aligned rows making collision test
      `aligned`: only the registers, memory and pc change. */
  function ExecDrawWith(m: Machine, x: Nibble, y: Nibble, n: Nibble, aligned: Sprite.Test): (r: Outcome<Machine>)
    ensures r.Next? || r == Undefined(MemoryPastEnd)
    ensures r.Next? ==> r.m == m.(v := r.m.v, memory := r.m.memory, pc := m.pc + 2)
  {
    var d := Drawing(m.v, m.memory, m.index as int, x, y, n, aligned);
    if d.Next? then Next(Chip8.Advance(m.(v := d.m.v, memory := d.m.memory)))
    else Undefined(MemoryPastEnd)
  }

  /** DXYN as the source writes it: an aligned row raises VF when the
      screen byte still has a lit pixel after the XOR. */
  function ExecDraw(m: Machine, x: Nibble, y: Nibble, n: Nibble): (r: Outcome<Machine>)
    ensures r.Next? || r == Undefined(MemoryPastEnd)
    ensures r.Next? ==> r.m == m.(v := r.m.v, memory := r.m.memory, pc := m.pc + 2)
  {
    ExecDrawWith(m, x, y, n, Sprite.LeftLit)
  }

  /** DXYN as evidently intended: an aligned row raises VF, like a split
      row, when the sprite switches a lit pixel off. */
  function ExecDrawIntended(m: Machine, x: Nibble, y: Nibble, n: Nibble): (r: Outcome<Machine>)
    ensures r.Next? || r == Undefined(MemoryPastEnd)
    ensures r.Next? ==> r.m == m.(v := r.m.v, memory := r.m.memory, pc := m.pc + 2)
  {
    ExecDrawWith(m, x, y, n, Sprite.Erased)
  }
}
