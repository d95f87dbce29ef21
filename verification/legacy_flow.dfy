/**
  What one cycle of the older engine promises apart from the drawing, and
  how it compares with the newer engine: the instructions both run alike,
  the fields the older engine never touches, when its timers tick, why it
  stops, the target checks of jumps and calls, the return address, the
  shifts that read V[Y], and the screen kept in memory.
 */
module Chip8LegacyFlow {
  import opened Layout
  import opened Opcode
  import opened Outcomes
  import Alu
  import Sprite
  import Rom
  import Chip8
  import Chip8Properties
  import opened Chip8Legacy
  import Chip8LegacyProperties

  // ---------------------------------------------------------------- sharing

  /** The instructions the older engine runs exactly as the newer one. */
  predicate Shared(i: Instr)
  {
    !i.ClearScreen? && !i.Return? && !i.Jump? && !i.Call? && !i.Draw? &&
    !(i.Arith? && (i.op.ShiftRight? || i.op.ShiftLeft?))
  }

  /** Outside 00E0, 00EE, 1NNN, 2NNN, DXYN and the two shifts, both engines
      compute the same outcome from the same machine. */
  lemma EnginesAgree(m: Machine, i: Instr, env: Env)
    requires Shared(i)
    ensures Execute(m, i, env) == Chip8.Execute(m, i, env)
  {
    if i.Arith? {
      assert Calculate(m.v, i.op, i.x, i.y) == Chip8.Calculate(m.v, i.op, i.x, i.y);
    }
  }

  // ---------------------------------------------------------------- frame

  /** What an instruction of the older engine leaves alone: the opcode, the
      keypad and the ROM size always; the graphics buffer and the dirty flag
      always, since this engine draws into memory; memory outside 00E0,
      DXYN, FX33 and FX55; the timers outside FX15 and FX18; the stack
      outside 2NNN and 00EE. */
  predicate Confined(m: Machine, i: Instr, r: Machine)
  {
    r.opcode == m.opcode && r.keypad == m.keypad && r.romBytes == m.romBytes &&
    r.gfx == m.gfx && r.dirty == m.dirty &&
    (!i.ClearScreen? && !i.Draw? && !i.StoreBcd? && !i.StoreRegs? ==> r.memory == m.memory) &&
    (!i.SetDelay? ==> r.delay == m.delay) &&
    (!i.SetSound? ==> r.sound == m.sound) &&
    (!i.Call? && !i.Return? ==> r.stack == m.stack)
  }

  /** Confinement of every machine an instruction hands on, and the stack
      moving by exactly one on a call or a return that continues. */
  predicate Kept(m: Machine, i: Instr, r: Outcome<Machine>)
  {
    ((r.Next? || r.Stopped?) ==> Confined(m, i, r.m)) &&
    (i.Call? && r.Next? ==> |r.m.stack| == |m.stack| + 1 <= StackDepth) &&
    (i.Return? && r.Next? ==> |r.m.stack| == |m.stack| - 1)
  }

  lemma ExecuteKept(m: Machine, i: Instr, env: Env)
    ensures Kept(m, i, Execute(m, i, env))
  {
    if i.ClearScreen? || i.Return? || i.Jump? || i.Call? || i.Draw? {
      OwnKept(m, i, env);
    } else if i.Arith? {
      ArithKept(m, i, env);
    } else if i.SkipEqImm? || i.SkipNeImm? || i.SkipEqReg? || i.SkipNeReg? || i.SkipKey? || i.SkipNoKey? {
      SkipKept(m, i, env);
    } else if i.SetImm? || i.AddImm? || i.Random? || i.ReadDelay? || i.WaitKey? {
      RegisterKept(m, i, env);
    } else if i.SetIndex? || i.AddIndex? || i.FontChar? || i.JumpOffset? || i.Unsupported? {
      IndexKept(m, i, env);
    } else if i.SetDelay? || i.SetSound? {
      TimerKept(m, i, env);
    } else {
      MemoryKept(m, i, env);
    }
  }

  lemma OwnKept(m: Machine, i: Instr, env: Env)
    requires i.ClearScreen? || i.Return? || i.Jump? || i.Call? || i.Draw?
    ensures Kept(m, i, Execute(m, i, env))
  {
  }

  lemma ArithKept(m: Machine, i: Instr, env: Env)
    requires i.Arith?
    ensures Kept(m, i, Execute(m, i, env))
  {
  }

  lemma SkipKept(m: Machine, i: Instr, env: Env)
    requires i.SkipEqImm? || i.SkipNeImm? || i.SkipEqReg? || i.SkipNeReg? || i.SkipKey? || i.SkipNoKey?
    ensures Kept(m, i, Execute(m, i, env))
  {
  }

  lemma RegisterKept(m: Machine, i: Instr, env: Env)
    requires i.SetImm? || i.AddImm? || i.Random? || i.ReadDelay? || i.WaitKey?
    ensures Kept(m, i, Execute(m, i, env))
  {
  }

  lemma IndexKept(m: Machine, i: Instr, env: Env)
    requires i.SetIndex? || i.AddIndex? || i.FontChar? || i.JumpOffset? || i.Unsupported?
    ensures Kept(m, i, Execute(m, i, env))
  {
  }

  lemma TimerKept(m: Machine, i: Instr, env: Env)
    requires i.SetDelay? || i.SetSound?
    ensures Kept(m, i, Execute(m, i, env))
  {
  }

  lemma MemoryKept(m: Machine, i: Instr, env: Env)
    requires i.StoreBcd? || i.StoreRegs? || i.LoadRegs?
    ensures Kept(m, i, Execute(m, i, env))
  {
  }

  // ---------------------------------------------------------------- cycle

  /** One cycle: an odd pc stops before anything happens, a fetch past the
      end of memory has no meaning, and otherwise the fetched instruction
      runs and, only if it continues, both timers tick. */
  lemma CycleSteps(m: Machine, env: Env)
    ensures m.pc % 2 == 1 ==> Cycle(m, env) == Stopped(m, OddProgramCounter)
    ensures m.pc % 2 == 0 && m.pc as int + 1 >= MemorySize ==> Cycle(m, env) == Undefined(FetchPastMemory)
    ensures m.pc % 2 == 0 && m.pc as int + 1 < MemorySize ==>
      var f := m.(opcode := Chip8.Fetched(m));
      var e := Execute(f, Decode(f.opcode), env);
      Cycle(m, env) == if e.Next? then Next(Tick(e.m)) else e
  {
  }

  /** The timers of a cycle: one tick on a cycle that continues, unless its
      instruction set that timer; none on a cycle that stops. */
  lemma CycleTimers(m: Machine, env: Env)
    ensures Cycle(m, env).Stopped? ==>
      Cycle(m, env).m.delay == m.delay && Cycle(m, env).m.sound == m.sound
    ensures Cycle(m, env).Next? && !Decode(Cycle(m, env).m.opcode).SetDelay? ==>
      Cycle(m, env).m.delay == Alu.Tick(m.delay)
    ensures Cycle(m, env).Next? && !Decode(Cycle(m, env).m.opcode).SetSound? ==>
      Cycle(m, env).m.sound == Alu.Tick(m.sound)
  {
    if m.pc % 2 == 0 && m.pc as int + 1 < MemorySize {
      var f := m.(opcode := Chip8.Fetched(m));
      var e := Execute(f, Decode(f.opcode), env);
      CycleFetched(m, env, f, e);
      ExecuteKept(f, Decode(f.opcode), env);
      ExecuteStops(f, Decode(f.opcode), env);
    } else {
      CycleSteps(m, env);
    }
  }

  /** FX15 then FX07 over two cycles: the first cycle ticks the delay timer
      right after setting it, so V[Y] reads back V[X] counted down once,
      where the newer engine, which ticks only in `updateTimers`, reads back
      V[X] itself. */
  lemma DelayReadBack(m: Machine, x: Nibble, y: Nibble, env: Env, env': Env)
    requires m.pc % 2 == 0 && m.pc as int + 3 < MemorySize
    requires Decode(Chip8.Fetched(m)) == SetDelay(x)
    requires Decode(Chip8.Fetched(m.(pc := m.pc + 2))) == ReadDelay(y)
    ensures Cycle(m, env).Next? && Cycle(Cycle(m, env).m, env').Next?
    ensures Cycle(Cycle(m, env).m, env').m.v[y] == Alu.Tick(m.v[x])
    ensures Chip8.Cycle(m, env).Next? && Chip8.Cycle(Chip8.Cycle(m, env).m, env').Next?
    ensures Chip8.Cycle(Chip8.Cycle(m, env).m, env').m.v[y] == m.v[x]
  {
    SetDelayCycle(m, x, env);
    ReadDelayCycle(m, Cycle(m, env).m, y, env');
    Chip8SetDelayCycle(m, x, env);
    Chip8ReadDelayCycle(m, Chip8.Cycle(m, env).m, y, env');
  }

  /** A cycle running FX15 in the older engine. */
  lemma SetDelayCycle(m: Machine, x: Nibble, env: Env)
    requires m.pc % 2 == 0 && m.pc as int + 1 < MemorySize && Decode(Chip8.Fetched(m)) == SetDelay(x)
    ensures Cycle(m, env).Next?
    ensures var r := Cycle(m, env).m;
      r.memory == m.memory && r.pc == m.pc + 2 && r.delay == Alu.Tick(m.v[x])
  {
    var f := m.(opcode := Chip8.Fetched(m));
    var e := Execute(f, SetDelay(x), env);
    assert e.Next? && e.m.memory == m.memory && e.m.pc == m.pc + 2 && e.m.delay == m.v[x];
    CycleFetched(m, env, f, e);
  }

  /** A cycle running FX07 in the older engine, on the word after `m`'s. */
  lemma ReadDelayCycle(m: Machine, r: Machine, y: Nibble, env: Env)
    requires m.pc % 2 == 0 && m.pc as int + 3 < MemorySize
    requires r.memory == m.memory && r.pc == m.pc + 2
    requires Decode(Chip8.Fetched(m.(pc := m.pc + 2))) == ReadDelay(y)
    ensures Cycle(r, env).Next? && Cycle(r, env).m.v[y] == r.delay
  {
    NextFetch(m, r);
    NextEven(m.pc, r.pc);
    var f := r.(opcode := Chip8.Fetched(r));
    ReadDelayRuns(f, y, env);
    CycleFetched(r, env, f, Execute(f, ReadDelay(y), env));
  }

  /** FX07 in the older engine, away from any fetch. */
  lemma ReadDelayRuns(f: Machine, y: Nibble, env: Env)
    ensures Execute(f, ReadDelay(y), env).Next? && Execute(f, ReadDelay(y), env).m.v[y] == f.delay
  {
  }

  /** A machine two bytes on from `m`, with the same memory, fetches the
      word after `m`'s. */
  lemma NextFetch(m: Machine, r: Machine)
    requires r.memory == m.memory && r.pc == m.pc + 2 && m.pc as int + 3 < MemorySize
    ensures r.pc as int + 1 < MemorySize && Chip8.Fetched(r) == Chip8.Fetched(m.(pc := m.pc + 2))
  {
    NextAddress(m.pc);
    SameFetch(r, m.(pc := m.pc + 2));
  }

  /** Two bytes on from an even address is even again, wrap-around or not. */
  lemma NextEven(p: bv16, q: bv16)
    requires p % 2 == 0 && q == p + 2
    ensures q % 2 == 0
  {
  }

  /** Machines with the same memory and pc fetch the same word. */
  lemma SameFetch(a: Machine, b: Machine)
    requires a.memory == b.memory && a.pc == b.pc && a.pc as int + 1 < MemorySize
    ensures Chip8.Fetched(a) == Chip8.Fetched(b)
  {
  }

  /** A cycle running FX15 in the newer engine. */
  lemma Chip8SetDelayCycle(m: Machine, x: Nibble, env: Env)
    requires m.pc as int + 1 < MemorySize && Decode(Chip8.Fetched(m)) == SetDelay(x)
    ensures Chip8.Cycle(m, env).Next?
    ensures var r := Chip8.Cycle(m, env).m;
      r.memory == m.memory && r.pc == m.pc + 2 && r.delay == m.v[x]
  {
    var f := m.(dirty := false, opcode := Chip8.Fetched(m));
    Chip8Properties.CycleExecutes(m, env);
    SetDelayRuns(f, x, env);
  }

  /** FX15 in the newer engine, away from any fetch. */
  lemma SetDelayRuns(f: Machine, x: Nibble, env: Env)
    ensures Chip8.Execute(f, SetDelay(x), env).Next?
    ensures var r := Chip8.Execute(f, SetDelay(x), env).m;
      r.memory == f.memory && r.pc == f.pc + 2 && r.delay == f.v[x]
  {
  }

  /** A cycle running FX07 in the newer engine, on the word after `m`'s. */
  lemma Chip8ReadDelayCycle(m: Machine, r: Machine, y: Nibble, env: Env)
    requires m.pc as int + 3 < MemorySize
    requires r.memory == m.memory && r.pc == m.pc + 2
    requires Decode(Chip8.Fetched(m.(pc := m.pc + 2))) == ReadDelay(y)
    ensures Chip8.Cycle(r, env).Next? && Chip8.Cycle(r, env).m.v[y] == r.delay
  {
    NextFetch(m, r);
    Chip8Properties.CycleExecutes(r, env);
    Chip8ReadDelayRuns(r.(dirty := false, opcode := Chip8.Fetched(r)), y, env);
  }

  /** FX07 in the newer engine, away from any fetch. */
  lemma Chip8ReadDelayRuns(f: Machine, y: Nibble, env: Env)
    ensures Chip8.Execute(f, ReadDelay(y), env).Next? && Chip8.Execute(f, ReadDelay(y), env).m.v[y] == f.delay
  {
  }

  /** The program counter two bytes on, well inside memory. */
  lemma NextAddress(p: bv16)
    requires p as int + 3 < MemorySize
    ensures (p + 2) as int == p as int + 2
  {
  }

  /** A cycle from an even pc inside memory, in terms of the instruction it
      runs. */
  lemma CycleFetched(m: Machine, env: Env, f: Machine, e: Outcome<Machine>)
    requires m.pc % 2 == 0 && m.pc as int + 1 < MemorySize
    requires f == m.(opcode := Chip8.Fetched(m)) && e == Execute(f, Decode(f.opcode), env)
    ensures Cycle(m, env).Next? <==> e.Next?
    ensures e.Next? ==> Cycle(m, env).m == Tick(e.m)
    ensures !e.Next? ==> Cycle(m, env) == e
  {
    assert Fetch(m) == Next(f);
  }

  /** Why the older engine stops: an odd pc, a bad jump or call target, a
      seventeenth return address or an unrecognised opcode; a self-jump or
      an empty-stack return never stops it. */
  lemma StopReasons(m: Machine, env: Env)
    ensures Cycle(m, env).Stopped? && Cycle(m, env).why == OddProgramCounter <==> m.pc % 2 == 1
    ensures Cycle(m, env).Stopped? && Cycle(m, env).why != OddProgramCounter ==>
      Stops(Decode(Cycle(m, env).m.opcode), Cycle(m, env).why)
  {
    CycleSteps(m, env);
    if m.pc % 2 == 0 && m.pc as int + 1 < MemorySize {
      var f := m.(opcode := Chip8.Fetched(m));
      var i := Decode(f.opcode);
      ExecuteKept(f, i, env);
      ExecuteStops(f, i, env);
    }
  }

  /** The reasons an instruction of the older engine may give for stopping. */
  predicate Stops(i: Instr, why: Stop)
  {
    (why == BadJumpTarget && (i.Jump? || i.Call?) && BadTarget(i.target)) ||
    (why == StackOverflow && i.Call?) ||
    (why == Unimplemented && i.Unsupported?)
  }

  lemma ExecuteStops(m: Machine, i: Instr, env: Env)
    ensures Execute(m, i, env).Stopped? ==> Stops(i, Execute(m, i, env).why)
  {
    if Shared(i) {
      EnginesAgree(m, i, env);
      Chip8Properties.StopReasons(m, i, env);
      Chip8Properties.ExecuteFrame(m, i, env);
    }
  }

  /** A continuing cycle never leaves more than 16 return addresses. */
  lemma CycleStackBounded(m: Machine, env: Env)
    requires |m.stack| <= StackDepth
    ensures Cycle(m, env).Next? ==> |Cycle(m, env).m.stack| <= StackDepth
  {
    CycleSteps(m, env);
    if m.pc % 2 == 0 && m.pc as int + 1 < MemorySize {
      var f := m.(opcode := Chip8.Fetched(m));
      ExecuteKept(f, Decode(f.opcode), env);
    }
  }

  /** Nor does any run of cycles. */
  lemma {:induction false} RunStackBounded(m: Machine, envs: seq<Env>)
    requires |m.stack| <= StackDepth
    ensures Run(m, envs).Next? ==> |Run(m, envs).m.stack| <= StackDepth
    decreases |envs|
  {
    if envs != [] {
      CycleStackBounded(m, envs[0]);
      if Cycle(m, envs[0]).Next? {
        RunStackBounded(Cycle(m, envs[0]).m, envs[1..]);
      }
    }
  }

  /** A run never touches the graphics buffer, the dirty flag, the keypad or
      the ROM size. */
  lemma {:induction false} RunLeavesBuffer(m: Machine, envs: seq<Env>)
    ensures Run(m, envs).Next? ==>
      Run(m, envs).m.gfx == m.gfx && Run(m, envs).m.dirty == m.dirty &&
      Run(m, envs).m.keypad == m.keypad && Run(m, envs).m.romBytes == m.romBytes
    decreases |envs|
  {
    if envs != [] {
      CycleSteps(m, envs[0]);
      if m.pc % 2 == 0 && m.pc as int + 1 < MemorySize {
        var f := m.(opcode := Chip8.Fetched(m));
        ExecuteKept(f, Decode(f.opcode), envs[0]);
      }
      if Cycle(m, envs[0]).Next? {
        RunLeavesBuffer(Cycle(m, envs[0]).m, envs[1..]);
      }
    }
  }

  // ---------------------------------------------------------------- flow

  /** A call to a good target followed by a return lands on the instruction
      after the call, with the stack as it was. */
  lemma CallThenReturn(m: Machine, t: Addr)
    requires |m.stack| < StackDepth && !BadTarget(t)
    ensures ExecCall(m, t).Next?
    ensures ExecCall(m, t).m.pc == t
    ensures ExecReturn(ExecCall(m, t).m) == Next(m.(pc := m.pc + 2))
  {
    var c := m.(stack := m.stack + [m.pc], pc := t);
    assert c.stack[..|c.stack| - 1] == m.stack;
  }

  /** The engines save different return addresses, pc and pc + 2, but 00EE
      adds two only in the older one, so a call and its return end in the
      same place in both. */
  lemma CallReturnAgree(m: Machine, t: Addr)
    requires |m.stack| < StackDepth && !BadTarget(t)
    ensures ExecCall(m, t).m.stack[|m.stack|] == m.pc
    ensures Chip8.ExecCall(m, t).m.stack[|m.stack|] == m.pc + 2
    ensures ExecReturn(ExecCall(m, t).m) == Chip8.ExecReturn(Chip8.ExecCall(m, t).m)
  {
    CallThenReturn(m, t);
    Chip8Properties.CallThenReturn(m, t);
  }

  /** Both engines refuse the same call depth: a call with 16 addresses
      already saved stops, one with fewer continues. */
  lemma CallDepthAgree(m: Machine, t: Addr)
    requires !BadTarget(t)
    ensures ExecCall(m, t).Stopped? <==> Chip8.ExecCall(m, t).Stopped?
    ensures ExecCall(m, t).Stopped? <==> |m.stack| >= StackDepth
  {
  }

  /** 00EE on an empty stack: the older engine ends the process, the newer
      one stops the run with the machine unchanged. */
  lemma ReturnUnderflow(m: Machine)
    requires m.stack == []
    ensures ExecReturn(m) == Exited
    ensures Chip8.ExecReturn(m) == Stopped(m, StackUnderflow)
  {
  }

  /** A jump to a good target continues, and the next fetch from there is
      defined; a jump to a bad one stops with pc already moved. */
  lemma JumpThenFetch(m: Machine, t: Addr)
    ensures !BadTarget(t) ==> ExecJump(m, t) == Next(m.(pc := t)) && Fetch(ExecJump(m, t).m).Next?
    ensures BadTarget(t) ==> ExecJump(m, t) == Stopped(m.(pc := t), BadJumpTarget)
  {
  }

  /** A jump to itself: the newer engine stops, the older one spins, a
      cycle that goes nowhere but ticks the timers. */
  lemma SelfJumpSpins(m: Machine, env: Env)
    requires m.pc >= 0x200 && m.pc % 2 == 0 && m.pc as int + 1 < MemorySize
    requires Decode(Chip8.Fetched(m)) == Jump(m.pc)
    ensures Cycle(m, env).Next? && Cycle(m, env).m.pc == m.pc
    ensures Cycle(m, env).m.delay == Alu.Tick(m.delay) && Cycle(m, env).m.sound == Alu.Tick(m.sound)
    ensures Chip8.Cycle(m, env).Stopped? && Chip8.Cycle(m, env).why == SelfJump
  {
    var f := m.(opcode := Chip8.Fetched(m));
    SelfJumpRuns(f, env);
    CycleFetched(m, env, f, Execute(f, Jump(m.pc), env));
    Chip8Properties.CycleExecutes(m, env);
    SelfJumpStops(m.(dirty := false, opcode := Chip8.Fetched(m)), env);
  }

  /** A self-jump in the older engine, away from any fetch. */
  lemma SelfJumpRuns(f: Machine, env: Env)
    requires 0x200 <= f.pc < 0x1000 && f.pc % 2 == 0
    ensures Execute(f, Jump(f.pc), env).Next?
    ensures var r := Execute(f, Jump(f.pc), env).m;
      r.pc == f.pc && r.delay == f.delay && r.sound == f.sound
  {
  }

  /** A self-jump in the newer engine, away from any fetch. */
  lemma SelfJumpStops(f: Machine, env: Env)
    requires f.pc < 0x1000
    ensures Chip8.Execute(f, Jump(f.pc), env).Stopped? && Chip8.Execute(f, Jump(f.pc), env).why == SelfJump
  {
  }

  // ---------------------------------------------------------------- shifts

  /** With X other than F, a shift gives the same registers in both engines
      exactly when V[X] and V[Y] hold the same byte. */
  lemma ShiftsAgree(v: Registers, k: AluOp, x: Nibble, y: Nibble)
    requires k.ShiftRight? || k.ShiftLeft?
    requires x != VF
    ensures Calculate(v, k, x, y) == Chip8.Calculate(v, k, x, y) <==> v[x] == v[y]
  {
    if v[x] == v[y] {
      SameShift(v, k, x, y);
    }
    if Calculate(v, k, x, y) == Chip8.Calculate(v, k, x, y) {
      ShiftFixes(v, k, x, y);
    }
  }

  lemma SameShift(v: Registers, k: AluOp, x: Nibble, y: Nibble)
    requires k.ShiftRight? || k.ShiftLeft?
    requires x != VF && v[x] == v[y]
    ensures Calculate(v, k, x, y) == Chip8.Calculate(v, k, x, y)
  {
    var a, b := Calculate(v, k, x, y), Chip8.Calculate(v, k, x, y);
    forall i: Nibble
      ensures a[i] == b[i]
    {
    }
  }

  lemma ShiftFixes(v: Registers, k: AluOp, x: Nibble, y: Nibble)
    requires k.ShiftRight? || k.ShiftLeft?
    requires x != VF && Calculate(v, k, x, y) == Chip8.Calculate(v, k, x, y)
    ensures v[x] == v[y]
  {
    var a, b := Calculate(v, k, x, y), Chip8.Calculate(v, k, x, y);
    assert a[x] == b[x] && a[VF] == b[VF];
    if k.ShiftRight? {
      HalfAndLowBit(v[x], v[y]);
    } else {
      DoubleAndHighBit(v[x], v[y]);
    }
  }

  /** A byte is fixed by its half and its low bit. */
  lemma HalfAndLowBit(s: bv8, t: bv8)
    requires Alu.Half(s) == Alu.Half(t) && Alu.LowBit(s) == Alu.LowBit(t)
    ensures s == t
  {
    assert s as int == 2 * (Alu.Half(s) as int) + Alu.LowBit(s) as int;
    assert t as int == 2 * (Alu.Half(t) as int) + Alu.LowBit(t) as int;
  }

  /** A byte is fixed by its double and its high bit. */
  lemma DoubleAndHighBit(s: bv8, t: bv8)
    requires Alu.Double(s) == Alu.Double(t) && Alu.HighBit(s) == Alu.HighBit(t)
    ensures s == t
  {
    var ds, dt := Alu.Double(s) as int, Alu.Double(t) as int;
    if s as int >= 128 {
      assert ds == s as int * 2 - 256 && dt == t as int * 2 - 256;
    } else {
      assert ds == s as int * 2 && dt == t as int * 2;
    }
  }

  /** 8FY6: the older engine writes the flag last, so VF keeps the bit
      shifted out of V[Y]; the newer one keeps half of VF itself. */
  lemma ShiftRightIntoFlag(v: Registers, y: Nibble)
    ensures Calculate(v, ShiftRight, VF, y)[VF] == Alu.LowBit(v[y])
    ensures Chip8.Calculate(v, ShiftRight, VF, y)[VF] == Alu.Half(v[VF])
  {
  }

  // ---------------------------------------------------------------- screen

  /** 00E0 blanks the 256 screen bytes of memory and keeps everything below
      them, code and sprites included; the graphics buffer is not touched. */
  lemma ClearBlanksScreen(m: Machine)
    ensures ExecClearScreen(m).Next?
    ensures forall k :: 0 <= k < ScreenSize ==> Screen(ExecClearScreen(m).m)[k] == 0
    ensures ExecClearScreen(m).m.memory[..ScreenStart] == m.memory[..ScreenStart]
    ensures ExecClearScreen(m).m.gfx == m.gfx
  {
    var mem := ExecClearScreen(m).m.memory;
    assert forall a :: 0 <= a < ScreenStart ==> mem[..ScreenStart][a] == m.memory[..ScreenStart][a];
  }

  /** A sprite drawn on a cleared screen collides with nothing, under
      either test of the aligned rows. */
  lemma ClearThenDraw(m: Machine, x: Nibble, y: Nibble, n: Nibble)
    requires Chip8Properties.OriginOnScreen(m.v, x, y) && m.index as int + n as int <= ScreenStart
    ensures ExecDraw(ExecClearScreen(m).m, x, y, n).Next?
    ensures ExecDraw(ExecClearScreen(m).m, x, y, n).m.v[VF] == 0
  {
    var c := ExecClearScreen(m).m;
    ClearBlanksScreen(m);
    Chip8LegacyProperties.DrawCollision(c, x, y, n);
    var g := Screen(c);
    var ws := Chip8LegacyProperties.DrawWrites(c.v, c.memory, c.index as int, x, y, n);
    forall k | 0 <= k < |ws|
      ensures !Sprite.Covers(g[ws[k].loc], ws[k].bits) && !Sprite.Covers(g[ws[k].loc], !ws[k].bits)
    {
      assert g[ws[k].loc] == 0;
    }
  }

  /** The aligned collision test as written misses a full erase: a sprite
      row of one byte drawn at a column that is a multiple of 8, over the
      screen byte `a` at the origin holding the same lit pixels, switches
      them all off, yet the program leaves VF at 0 where the corrected draw
      sets it to 1. */
  lemma AlignedCollisionMissed(m: Machine, x: Nibble, y: Nibble, a: int)
    requires Chip8Properties.OriginOnScreen(m.v, x, y) && Chip8LegacyProperties.AlignedOrigin(m.v, x)
    requires a == Chip8Properties.Origin(m.v, y) as int * ScreenWidthBytes + Chip8Properties.Origin(m.v, x) as int / 8
    requires m.index as int < ScreenStart && Screen(m)[a] == m.memory[m.index] != 0
    ensures ExecDraw(m, x, y, 1).Next? && ExecDrawIntended(m, x, y, 1).Next?
    ensures Screen(ExecDraw(m, x, y, 1).m)[a] == 0
    ensures ExecDraw(m, x, y, 1).m.v[VF] == 0
    ensures ExecDrawIntended(m, x, y, 1).m.v[VF] == 1
  {
    var px, py := Chip8Properties.Origin(m.v, x) as int, Chip8Properties.Origin(m.v, y) as int;
    var ws := Chip8LegacyProperties.DrawWrites(m.v, m.memory, m.index as int, x, y, 1);
    OneAlignedWrite(m.memory, m.index as int, px, py, a);
    assert ws == [Sprite.Write(a, m.memory[m.index])];
    ErasedUnseen(Screen(m), ws, a, m.memory[m.index]);
    Chip8LegacyProperties.DrawCollision(m, x, y, 1);
    Chip8LegacyProperties.DrawCollisionIntended(m, x, y, 1);
    Chip8LegacyProperties.DrawXors(m, x, y, 1, a);
  }

  /** One write of `b` over a screen byte holding `b`: it covers lit
      pixels, leaves none lit, and the byte ends as 0. */
  lemma ErasedUnseen(g: seq<bv8>, ws: seq<Sprite.Write>, a: int, b: bv8)
    requires |g| >= ScreenSize && 0 <= a < ScreenSize && ws == [Sprite.Write(a, b)] && g[a] == b != 0
    ensures exists k :: 0 <= k < |ws| && Sprite.Covers(g[ws[k].loc], ws[k].bits)
    ensures !exists k :: 0 <= k < |ws| && Sprite.Covers(g[ws[k].loc], !ws[k].bits)
    ensures g[a] ^ Sprite.XorAt(ws, a) == 0
  {
    assert Sprite.Covers(g[ws[0].loc], ws[0].bits);
    assert ws[1..] == [];
  }

  /** A one-row aligned sprite held below the screen is one write. */
  lemma OneAlignedWrite(memory: Memory, index: nat, px: int, py: int, a: int)
    requires 0 <= px < ScreenWidth && 0 <= py < ScreenHeight && px % 8 == 0 && index < ScreenStart
    requires a == py * ScreenWidthBytes + px / 8
    ensures Chip8LegacyProperties.SpriteAt(memory, index, px, py, 1) == [Sprite.Write(a, memory[index])]
  {
    var sprite := memory[index..index + 1];
    assert sprite[0] == memory[index];
    Chip8LegacyProperties.ClippedUnfold(sprite, px / 8, 0, py, 0, sprite[0], py);
    assert Chip8LegacyProperties.ClippedWrites(sprite, px / 8, 0, py, 1) == [];
  }

  // ---------------------------------------------------------------- load

  /** `init` then a successful `loadROM`: the first fetch reads the ROM's
      first two bytes, as in the newer engine. */
  lemma FirstFetchAfterLoad(m: Machine, rom: seq<bv8>, stale: bv8)
    requires 2 <= |rom| < Rom.CodeCapacity
    ensures var loaded := LoadRom(Init(m), rom, stale);
      loaded.1 && Fetch(loaded.0) == Next(loaded.0.(opcode := Word(rom[0], rom[1])))
  {
    Rom.LoadersAgree(Init(m).memory, rom, stale);
    Chip8Properties.FirstFetchAfterLoad(m, rom, stale);
  }
}
