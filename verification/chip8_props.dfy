/**
  What one cycle of the newer engine promises: how the program counter
  moves, which opcodes halt, which instructions touch the screen and
  memory, the call/return discipline of the stack, the XOR drawing
  discipline, the register copies of FX55/FX65 and the timers.
 */
module Chip8Properties {
  import opened Layout
  import opened Opcode
  import opened Outcomes
  import Alu
  import Sprite
  import Rom
  import opened Chip8
  import opened Transfer

  /** A cycle whose fetch is in bounds executes what the fetched word decodes to. */
  lemma CycleExecutes(m: Machine, env: Env)
    ensures m.pc as int + 1 >= MemorySize ==> Cycle(m, env) == Undefined(FetchPastMemory)
    ensures m.pc as int + 1 < MemorySize ==>
      Cycle(m, env) == Execute(m.(dirty := false, opcode := Fetched(m)), Decode(Fetched(m)), env)
  {
  }

  // ---------------------------------------------------------------- frame

  /** The instructions that neither jump nor skip. */
  predicate Sequential(i: Instr)
  {
    i.ClearScreen? || i.SetImm? || i.AddImm? || i.Arith? || i.SetIndex? || i.Random? ||
    i.Draw? || i.ReadDelay? || i.WaitKey? || i.SetDelay? || i.SetSound? || i.AddIndex? ||
    i.FontChar? || i.StoreBcd? || i.StoreRegs? || i.LoadRegs?
  }

  /** What an instruction leaves alone: the opcode register, the keypad and
      the ROM size always; memory unless it is FX33 or FX55; the screen and
      its dirty flag unless it is 00E0 or DXYN (which set the flag); the
      stack unless it is a call or a return. */
  predicate Framed(m: Machine, i: Instr, r: Machine)
  {
    r.opcode == m.opcode && r.keypad == m.keypad && r.romBytes == m.romBytes &&
    (!i.StoreBcd? && !i.StoreRegs? ==> r.memory == m.memory) &&
    (!i.ClearScreen? && !i.Draw? ==> r.gfx == m.gfx && r.dirty == m.dirty) &&
    (i.ClearScreen? || i.Draw? ==> r.dirty) &&
    (!i.Call? && !i.Return? ==> r.stack == m.stack)
  }

  /** The frame and program-counter discipline of one instruction: a
      sequential instruction never halts, but continues two bytes further on
      or leaves C++ without meaning; a call or a return moves the stack by one. */
  predicate Disciplined(m: Machine, i: Instr, r: Outcome<Machine>)
  {
    ((r.Next? || r.Stopped?) ==> Framed(m, i, r.m)) &&
    (Sequential(i) ==> (r.Next? || r.Undefined?) && (r.Next? ==> r.m.pc == m.pc + 2)) &&
    (i.Call? && r.Next? ==> |r.m.stack| == |m.stack| + 1 <= StackDepth) &&
    (i.Return? && r.Next? ==> |r.m.stack| == |m.stack| - 1)
  }

  /** Every instruction keeps that discipline. */
  lemma ExecuteFrame(m: Machine, i: Instr, env: Env)
    ensures Disciplined(m, i, Execute(m, i, env))
  {
    if i.Return? || i.Jump? || i.Call? {
      FlowFrame(m, i, env);
    } else if i.ClearScreen? || i.JumpOffset? || i.Unsupported? {
      OtherFrame(m, i, env);
    } else if i.SkipEqImm? || i.SkipNeImm? {
      SkipFrame(m, i, env);
    } else if i.SkipEqReg? || i.SkipNeReg? {
      RegSkipFrame(m, i, env);
    } else if i.SkipKey? || i.SkipNoKey? {
      KeyFrame(m, i, env);
    } else if i.SetImm? || i.AddImm? || i.Random? || i.ReadDelay? || i.WaitKey? {
      RegisterFrame(m, i, env);
    } else if i.Arith? {
      ArithFrame(m, i, env);
    } else if i.SetIndex? || i.AddIndex? || i.FontChar? {
      IndexFrame(m, i, env);
    } else if i.SetDelay? || i.SetSound? {
      TimerFrame(m, i, env);
    } else if i.Draw? {
      DrawFrame(m, i, env);
    } else {
      MemoryFrame(m, i, env);
    }
  }

  lemma FlowFrame(m: Machine, i: Instr, env: Env)
    requires i.Return? || i.Jump? || i.Call?
    ensures Disciplined(m, i, Execute(m, i, env))
  {
  }

  lemma OtherFrame(m: Machine, i: Instr, env: Env)
    requires i.ClearScreen? || i.JumpOffset? || i.Unsupported?
    ensures Disciplined(m, i, Execute(m, i, env))
  {
  }

  lemma SkipFrame(m: Machine, i: Instr, env: Env)
    requires i.SkipEqImm? || i.SkipNeImm?
    ensures Disciplined(m, i, Execute(m, i, env))
  {
  }

  lemma RegSkipFrame(m: Machine, i: Instr, env: Env)
    requires i.SkipEqReg? || i.SkipNeReg?
    ensures Disciplined(m, i, Execute(m, i, env))
  {
  }

  lemma KeyFrame(m: Machine, i: Instr, env: Env)
    requires i.SkipKey? || i.SkipNoKey?
    ensures Disciplined(m, i, Execute(m, i, env))
  {
  }

  lemma RegisterFrame(m: Machine, i: Instr, env: Env)
    requires i.SetImm? || i.AddImm? || i.Random? || i.ReadDelay? || i.WaitKey?
    ensures Disciplined(m, i, Execute(m, i, env))
  {
  }

  lemma ArithFrame(m: Machine, i: Instr, env: Env)
    requires i.Arith?
    ensures Disciplined(m, i, Execute(m, i, env))
  {
  }

  lemma IndexFrame(m: Machine, i: Instr, env: Env)
    requires i.SetIndex? || i.AddIndex? || i.FontChar?
    ensures Disciplined(m, i, Execute(m, i, env))
  {
  }

  lemma TimerFrame(m: Machine, i: Instr, env: Env)
    requires i.SetDelay? || i.SetSound?
    ensures Disciplined(m, i, Execute(m, i, env))
  {
  }

  lemma DrawFrame(m: Machine, i: Instr, env: Env)
    requires i.Draw?
    ensures Disciplined(m, i, Execute(m, i, env))
  {
    var r := ExecDraw(m, i.x, i.y, i.n);
    assert Execute(m, i, env) == r;
    assert r.Next? ==> r.m == m.(v := r.m.v, gfx := r.m.gfx, pc := m.pc + 2, dirty := true);
  }

  lemma MemoryFrame(m: Machine, i: Instr, env: Env)
    requires i.StoreBcd? || i.StoreRegs? || i.LoadRegs?
    ensures Disciplined(m, i, Execute(m, i, env))
  {
  }

  /** Sequential instructions continue two bytes further on. */
  lemma SequentialAdvances(m: Machine, i: Instr, env: Env)
    requires Sequential(i)
    ensures Execute(m, i, env).Next? || Execute(m, i, env).Undefined?
    ensures Execute(m, i, env).Next? ==> Execute(m, i, env).m.pc == m.pc + 2
  {
    ExecuteFrame(m, i, env);
  }

  predicate IsSkip(i: Instr)
  {
    i.SkipEqImm? || i.SkipNeImm? || i.SkipEqReg? || i.SkipNeReg? || i.SkipKey? || i.SkipNoKey?
  }

  /** The condition each conditional skip tests, as its mnemonic reads. */
  predicate Taken(m: Machine, i: Instr)
    requires IsSkip(i) && !KeyFault(m, i)
  {
    match i
    case SkipEqImm(x, nn) => m.v[x] == nn
    case SkipNeImm(x, nn) => m.v[x] != nn
    case SkipEqReg(x, y) => m.v[x] == m.v[y]
    case SkipNeReg(x, y) => m.v[x] != m.v[y]
    case SkipKey(x) => m.keypad[m.v[x]] != 0
    case SkipNoKey(x) => m.keypad[m.v[x]] == 0
    case _ => false
  }

  /** A key skip naming a key number past 15. */
  predicate KeyFault(m: Machine, i: Instr)
  {
    (i.SkipKey? || i.SkipNoKey?) && m.v[i.x] >= 16
  }

  /** Each conditional skip tests the condition its mnemonic names, so with
      ExecSkip's contract it moves pc by 4 exactly when that condition holds
      and by 2 otherwise, changing nothing else; a key number past 15 has no
      meaning. */
  lemma SkipAdvances(m: Machine, i: Instr, env: Env)
    requires IsSkip(i)
    ensures KeyFault(m, i) ==> Execute(m, i, env) == Undefined(KeyOutOfRange)
    ensures !KeyFault(m, i) ==> Execute(m, i, env) == ExecSkip(m, Taken(m, i))
  {
  }

  /** Every opcode outside the recognised set stops the cycle right after the
      fetch, with nothing changed but the opcode register and the dirty flag. */
  lemma UnimplementedStops(m: Machine, env: Env)
    requires m.pc as int + 1 < MemorySize
    requires !Implemented(Fetched(m))
    ensures Cycle(m, env) == Stopped(m.(dirty := false, opcode := Fetched(m)), Unimplemented)
  {
    CycleExecutes(m, env);
    DecodeImplemented(Fetched(m));
    assert Decode(Fetched(m)) == Unsupported;
  }

  /** And every recognised opcode either continues or stops for one of the
      control-flow reasons, never as unimplemented. */
  lemma ImplementedRuns(m: Machine, env: Env)
    requires m.pc as int + 1 < MemorySize
    requires Implemented(Fetched(m))
    ensures !(Cycle(m, env).Stopped? && Cycle(m, env).why == Unimplemented)
  {
    CycleExecutes(m, env);
    DecodeImplemented(Fetched(m));
    var f := m.(dirty := false, opcode := Fetched(m));
    StopReasons(f, Decode(Fetched(m)), env);
  }

  /** Only an unrecognised opcode stops as unimplemented. */
  lemma StopReasons(m: Machine, i: Instr, env: Env)
    ensures Execute(m, i, env).Stopped? && Execute(m, i, env).why == Unimplemented ==> i.Unsupported?
  {
    if i.ClearScreen? || i.Return? || i.Jump? || i.Call? || i.JumpOffset? || i.Unsupported? {
    } else {
      ExecuteFrame(m, i, env);
    }
  }

  // ---------------------------------------------------------------- effects

  /** The dirty flag after a cycle says exactly whether it cleared or drew. */
  lemma DirtyMeansScreenOp(m: Machine, env: Env)
    requires Cycle(m, env).Next? || Cycle(m, env).Stopped?
    ensures var r := Cycle(m, env).m;
      r.dirty <==> Decode(r.opcode).ClearScreen? || Decode(r.opcode).Draw?
  {
    var f := m.(dirty := false, opcode := Fetched(m));
    CycleExecutes(m, env);
    ExecuteFrame(f, Decode(f.opcode), env);
  }

  /** Only FX33 and FX55 write memory; in particular drawing never does. */
  lemma MemoryOnlyByStores(m: Machine, i: Instr, env: Env)
    requires !i.StoreBcd? && !i.StoreRegs?
    requires Execute(m, i, env).Next? || Execute(m, i, env).Stopped?
    ensures Execute(m, i, env).m.memory == m.memory
  {
    ExecuteFrame(m, i, env);
  }

  /** Only 00E0 and DXYN touch the framebuffer. */
  lemma GraphicsOnlyByScreenOps(m: Machine, i: Instr, env: Env)
    requires !i.ClearScreen? && !i.Draw?
    requires Execute(m, i, env).Next? || Execute(m, i, env).Stopped?
    ensures Execute(m, i, env).m.gfx == m.gfx
  {
    ExecuteFrame(m, i, env);
  }

  // ---------------------------------------------------------------- stack

  /** A call followed by a return lands on the instruction after the call
      with the stack as it was. */
  lemma CallThenReturn(m: Machine, t: Addr)
    requires |m.stack| < StackDepth
    ensures ExecCall(m, t).Next?
    ensures ExecCall(m, t).m.pc == t
    ensures ExecReturn(ExecCall(m, t).m) == Next(m.(pc := m.pc + 2))
  {
    var c := m.(stack := m.stack + [m.pc + 2], pc := t);
    assert c.stack[..|c.stack| - 1] == m.stack;
  }

  /** 00EE with nothing to return to halts and changes nothing. */
  lemma ReturnUnderflow(m: Machine)
    requires m.stack == []
    ensures ExecReturn(m) == Stopped(m, StackUnderflow)
  {
  }

  /** The seventeenth pending call halts, but only after pushing and jumping. */
  lemma CallOverflow(m: Machine, t: Addr)
    requires |m.stack| == StackDepth
    ensures ExecCall(m, t) == Stopped(m.(stack := m.stack + [m.pc + 2], pc := t), StackOverflow)
  {
  }

  /** A jump to itself halts; any other jump continues at its target. */
  lemma JumpRule(m: Machine, t: Addr)
    ensures t == m.pc ==> ExecJump(m, t) == Stopped(m, SelfJump)
    ensures t != m.pc ==> ExecJump(m, t) == Next(m.(pc := t))
  {
  }

  /** A cycle that continues never leaves more than 16 return addresses. */
  lemma CycleStackBounded(m: Machine, env: Env)
    requires |m.stack| <= StackDepth
    ensures Cycle(m, env).Next? ==> |Cycle(m, env).m.stack| <= StackDepth
  {
    if m.pc as int + 1 < MemorySize {
      var f := m.(dirty := false, opcode := Fetched(m));
      CycleExecutes(m, env);
      ExecuteFrame(f, Decode(f.opcode), env);
    }
  }

  /** So does any run of cycles. */
  lemma {:induction false} RunStackBounded(m: Machine, envs: seq<Env>)
    requires |m.stack| <= StackDepth
    ensures Run(m, envs).Next? ==> |Run(m, envs).m.stack| <= StackDepth
    decreases |envs|
  {
    if envs != [] {
      CycleStackBounded(m, envs[0]);
      if Cycle(m, envs[0]).Next? {
        RunStackBounded(Cycle(m, envs[0]).m, envs[1..]);
      }
    }
  }

  /** Running a + b is running a, then b from where a left off. */
  lemma {:induction false} RunAppend(m: Machine, a: seq<Env>, b: seq<Env>)
    ensures Run(m, a + b) == match Run(m, a) case Next(m') => Run(m', b) case other => other
    decreases |a|
  {
    if a == [] {
      assert a + b == b;
    } else {
      assert (a + b)[1..] == a[1..] + b;
      if Cycle(m, a[0]).Next? {
        RunAppend(Cycle(m, a[0]).m, a[1..], b);
      }
    }
  }

  // ---------------------------------------------------------------- FX??

  /** FX55 then FX65 with the same X and index gives back V0..VX (and every
      other register) unchanged. */
  lemma StoreThenLoad(m: Machine, x: Nibble)
    requires m.index as int + x as int < MemorySize
    ensures ExecStoreRegs(m, x).Next?
    ensures ExecLoadRegs(ExecStoreRegs(m, x).m, x).Next?
    ensures ExecLoadRegs(ExecStoreRegs(m, x).m, x).m.v == m.v
  {
    var i, n := m.index as int, x as int;
    var stored := ExecStoreRegs(m, x).m;
    assert stored.memory == StoredRegs(m.memory, m.v, i, n) && stored.v == m.v && stored.index == m.index;
    RegistersRoundTrip(m.memory, m.v, i, n);
  }

  /** FX65 then FX55 leaves memory as it was: the registers only carry the
      bytes back where they came from. */
  lemma LoadThenStore(m: Machine, x: Nibble)
    requires m.index as int + x as int < MemorySize
    ensures ExecLoadRegs(m, x).Next?
    ensures ExecStoreRegs(ExecLoadRegs(m, x).m, x).Next?
    ensures ExecStoreRegs(ExecLoadRegs(m, x).m, x).m.memory == m.memory
  {
    var i, n := m.index as int, x as int;
    var loaded := ExecLoadRegs(m, x).m;
    assert loaded.v == LoadedRegs(m.v, m.memory, i, n) && loaded.memory == m.memory && loaded.index == m.index;
    MemoryRoundTrip(m.memory, m.v, i, n);
  }

  /** FX33 writes the decimal digits of V[X], most significant first, at
      index, index + 1 and index + 2; past the end of memory it has no meaning. */
  lemma StoreBcdWrites(m: Machine, x: Nibble)
    ensures m.index as int + 2 >= MemorySize ==> ExecStoreBcd(m, x) == Undefined(MemoryPastEnd)
    ensures m.index as int + 2 < MemorySize ==>
      var r := ExecStoreBcd(m, x);
      var i := m.index as int;
      r.Next? &&
      r.m.memory[i] < 10 && r.m.memory[i + 1] < 10 && r.m.memory[i + 2] < 10 &&
      r.m.memory[i] as int * 100 + r.m.memory[i + 1] as int * 10 + r.m.memory[i + 2] as int == m.v[x] as int
  {
  }

  /** FX29 on a hexadecimal digit points index at that digit's glyph, which
      lies inside the font as long as the font is where `init` put it. */
  lemma FontCharGlyph(m: Machine, x: Nibble, env: Env)
    requires m.v[x] < 16
    requires m.memory[..FontSize] == Font
    ensures var r := Execute(m, FontChar(x), env);
      var d := m.v[x] as int * BytesPerFontChar;
      r.Next? && r.m.index as int == d && d + BytesPerFontChar <= FontSize &&
      r.m.memory[d .. d + BytesPerFontChar] == Font[d .. d + BytesPerFontChar]
  {
    assert Execute(m, FontChar(x), env) == ExecSetIndex(m, Alu.FontAddress(m.v[x]));
    GlyphInFont(m.memory, m.v[x]);
  }

  lemma GlyphInFont(memory: Memory, b: bv8)
    requires b < 16
    requires memory[..FontSize] == Font
    ensures var d := b as int * BytesPerFontChar;
      d + BytesPerFontChar <= FontSize &&
      memory[d .. d + BytesPerFontChar] == Font[d .. d + BytesPerFontChar]
  {
    var d := b as int * BytesPerFontChar;
    assert memory[d .. d + BytesPerFontChar] == memory[..FontSize][d .. d + BytesPerFontChar];
  }

  /** FX0A stores the character that was typed, a code of 0x30 or more, and
      so never the value 0..15 of the key it names. */
  lemma WaitKeyStoresCharacter(m: Machine, x: Nibble, env: Env)
    ensures Execute(m, WaitKey(x), env).Next?
    ensures Execute(m, WaitKey(x), env).m.v[x] == env.typed
    ensures Execute(m, WaitKey(x), env).m.v[x] >= 0x30
  {
  }

  // ---------------------------------------------------------------- DXYN

  /** The coordinate DXYN reads from register `r`: VF is cleared before V[X]
      and V[Y] are read, so naming VF as a coordinate register means 0. */
  function Origin(v: Registers, r: Nibble): (c: bv8)
    ensures r == VF ==> c == 0
    ensures r != VF ==> c == v[r]
  {
    Alu.Put(v, VF, 0)[r]
  }

  predicate OriginOnScreen(v: Registers, x: Nibble, y: Nibble)
  {
    (Origin(v, x) as int) < ScreenWidth && (Origin(v, y) as int) < ScreenHeight
  }

  /** The byte writes of a DXYN whose origin is on the screen. */
  function DrawWrites(v: Registers, memory: Memory, i: nat, x: Nibble, y: Nibble, n: Nibble): seq<Sprite.Write>
    requires OriginOnScreen(v, x, y) && SpriteInMemory(i, n)
  {
    Sprite.SpriteWrites(SpriteBytes(memory, i, n), Origin(v, x) as int, Origin(v, y) as int)
  }

  /** An origin off the screen draws nothing: VF becomes 0, pc moves on and
      the screen is marked dirty, and nothing else changes. */
  lemma DrawOffScreen(m: Machine, x: Nibble, y: Nibble, n: Nibble)
    requires !OriginOnScreen(m.v, x, y)
    ensures ExecDraw(m, x, y, n) == Next(m.(v := Alu.Put(m.v, VF, 0), pc := m.pc + 2, dirty := true))
  {
  }

  /** An on-screen draw whose sprite lies past the end of memory has no meaning. */
  lemma DrawPastMemory(m: Machine, x: Nibble, y: Nibble, n: Nibble)
    requires OriginOnScreen(m.v, x, y)
    ensures ExecDraw(m, x, y, n).Undefined? <==> !SpriteInMemory(m.index as int, n)
  {
    var d := Drawing(m.v, m.gfx, m.memory, m.index as int, x, y, n);
    assert d.Undefined? <==> !SpriteInMemory(m.index as int, n);
  }

  /** An on-screen draw XORs the sprite into the screen: each framebuffer
      byte ends as its old value XOR every sprite byte written there. */
  lemma DrawXors(m: Machine, x: Nibble, y: Nibble, n: Nibble, a: int)
    requires OriginOnScreen(m.v, x, y) && SpriteInMemory(m.index as int, n)
    requires 0 <= a < GraphicsBufferSize
    ensures ExecDraw(m, x, y, n).Next?
    ensures ExecDraw(m, x, y, n).m.gfx[a] ==
      m.gfx[a] ^ Sprite.XorAt(DrawWrites(m.v, m.memory, m.index as int, x, y, n), a)
  {
    var ws := DrawWrites(m.v, m.memory, m.index as int, x, y, n);
    var d := Drawing(m.v, m.gfx, m.memory, m.index as int, x, y, n);
    assert d.Next? && d.m.gfx == Sprite.Blit(m.gfx, ws, Sprite.Erased).gfx;
    Sprite.BlitPointwise(m.gfx, ws, Sprite.Erased, a);
  }

  /** The collision flag: VF ends as 1 exactly when some sprite byte shares
      a set pixel with the screen byte it is XORed into, and as 0 otherwise. */
  lemma DrawCollision(m: Machine, x: Nibble, y: Nibble, n: Nibble)
    requires OriginOnScreen(m.v, x, y) && SpriteInMemory(m.index as int, n)
    ensures ExecDraw(m, x, y, n).Next?
    ensures ExecDraw(m, x, y, n).m.v[VF] ==
      if Sprite.Overlaps(m.gfx, DrawWrites(m.v, m.memory, m.index as int, x, y, n), Sprite.Erased) then 1 else 0
  {
    var i := m.index as int;
    Sprite.SpriteWritesDistinct(SpriteBytes(m.memory, i, n), Origin(m.v, x) as int, Origin(m.v, y) as int);
    Sprite.BlitHit(m.gfx, DrawWrites(m.v, m.memory, i, x, y, n), Sprite.Erased);
  }

  /** The same draw twice in a row restores the screen. This holds even when
      X or Y is F: both draws read coordinate 0 from the cleared VF. */
  lemma DrawTwiceRestores(m: Machine, x: Nibble, y: Nibble, n: Nibble)
    requires ExecDraw(m, x, y, n).Next?
    ensures ExecDraw(ExecDraw(m, x, y, n).m, x, y, n).Next?
    ensures ExecDraw(ExecDraw(m, x, y, n).m, x, y, n).m.gfx == m.gfx
  {
    DrawingTwice(m.v, m.gfx, m.memory, m.index as int, x, y, n);
  }

  lemma DrawingTwice(v: Registers, gfx: Graphics, memory: Memory, i: nat, x: Nibble, y: Nibble, n: Nibble)
    requires Drawing(v, gfx, memory, i, x, y, n).Next?
    ensures var d := Drawing(v, gfx, memory, i, x, y, n).m;
      Drawing(d.v, d.gfx, memory, i, x, y, n).Next? &&
      Drawing(d.v, d.gfx, memory, i, x, y, n).m.gfx == gfx
  {
    var d := Drawing(v, gfx, memory, i, x, y, n).m;
    assert Alu.Put(d.v, VF, 0) == Alu.Put(v, VF, 0);
    if OriginOnScreen(v, x, y) {
      Sprite.BlitTwice(gfx, DrawWrites(v, memory, i, x, y, n), Sprite.Erased, Sprite.Erased);
    }
  }

  // ---------------------------------------------------------------- state

  /** `init` followed by a successful `loadROM` of at least one instruction:
      the first fetch reads the ROM's first two bytes. */
  lemma FirstFetchAfterLoad(m: Machine, rom: seq<bv8>, stale: bv8)
    requires 2 <= |rom| < Rom.CodeCapacity
    ensures var loaded := LoadRom(Init(m), rom, stale);
      loaded.1 && Fetch(loaded.0) == Next(loaded.0.(opcode := Word(rom[0], rom[1])))
  {
    var loaded := LoadRom(Init(m), rom, stale);
    assert loaded.0.memory[CodeStart + 0] == rom[0] && loaded.0.memory[CodeStart + 1] == rom[1];
  }

  /** `k` timer ticks. */
  function Frames(m: Machine, k: nat): Machine
  {
    if k == 0 then m else UpdateTimers(Frames(m, k - 1))
  }

  /** Both timers count down to zero and stay there; nothing else changes. */
  lemma {:induction false} FramesSaturate(m: Machine, k: nat)
    ensures Frames(m, k).delay as int == if m.delay as int >= k then m.delay as int - k else 0
    ensures Frames(m, k).sound as int == if m.sound as int >= k then m.sound as int - k else 0
    ensures Frames(m, k) == m.(delay := Frames(m, k).delay, sound := Frames(m, k).sound)
  {
    if k > 0 {
      FramesSaturate(m, k - 1);
    }
  }

  /** FX15 then FX07: V[Y] reads back the byte FX15 stored from V[X], since
      no instruction ticks the timers; FX15 leaves the sound timer alone. */
  lemma DelayReadBack(m: Machine, x: Nibble, y: Nibble, env: Env, env': Env)
    ensures Execute(m, SetDelay(x), env).Next?
    ensures Execute(Execute(m, SetDelay(x), env).m, ReadDelay(y), env').Next?
    ensures var r := Execute(Execute(m, SetDelay(x), env).m, ReadDelay(y), env').m;
      r.v[y] == m.v[x] && r.delay == m.v[x] && r.sound == m.sound && r.pc == m.pc + 4
  {
  }

  /** FX18 followed by k timer updates: the sound timer counts down from
      V[X] to zero, and the delay timer from its old value. */
  lemma SoundCountsDown(m: Machine, x: Nibble, env: Env, k: nat)
    ensures Execute(m, SetSound(x), env).Next?
    ensures var r := Frames(Execute(m, SetSound(x), env).m, k);
      r.sound as int == (if m.v[x] as int >= k then m.v[x] as int - k else 0) &&
      r.delay as int == (if m.delay as int >= k then m.delay as int - k else 0)
  {
    FramesSaturate(Execute(m, SetSound(x), env).m, k);
  }
}
