/**
  What one interpreter cycle consumes and what it can lead to. `runCycle` returns a boolean, and
  the machine keeps whatever it changed before returning false; besides
  those two ends the older engine can call exit(1), and some inputs make
  the C++ code index an array out of bounds, which the model refuses to
  give a meaning to.
 */
module Outcomes {

  /** Why a cycle returned false. */
  datatype Stop =
    | Unimplemented       // an opcode the switch does not recognise
    | SelfJump            // 1NNN whose target is the jump itself
    | StackOverflow       // 2NNN left more than 16 return addresses
    | StackUnderflow      // 00EE with an empty call stack
    | OddProgramCounter   // older engine: fetch at an odd address
    | BadJumpTarget       // older engine: 1NNN/2NNN below 0x200 or odd

  /** The out-of-bounds accesses the source does not guard against. */
  datatype Fault =
    | FetchPastMemory     // memory[pc] or memory[pc + 1] beyond 4095
    | MemoryPastEnd       // memory[index + i] beyond 4095
    | KeyOutOfRange       // keypad[V[X]] with V[X] >= 16

  datatype Outcome<M> =
    | Next(m: M)                 // the cycle returned true
    | Stopped(m: M, why: Stop)   // the cycle returned false; partial effects kept
    | Exited                     // the process ended with exit(1)
    | Undefined(fault: Fault)    // the C++ behaviour is undefined

  /** The characters `isxdigit` accepts: 0-9, A-F and a-f. */
  predicate IsHexDigit(c: bv8)
  {
    0x30 <= c <= 0x39 || 0x41 <= c <= 0x46 || 0x61 <= c <= 0x66
  }

  type HexChar = c: bv8 | IsHexDigit(c) witness 0x30

  /** What one cycle takes from outside the machine: the byte `rand() % 256`
      would produce for CXNN, and the first hexadecimal character the FX0A
      loop would read from standard input. */
  datatype Env = Env(random: bv8, typed: HexChar)
}
