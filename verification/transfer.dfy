/**
  The byte copies of FX33, FX55 and FX65, which both engine generations
  perform identically: the memory or registers they produce, given the
  address `i` held in index and the last register number `n`. The engines
  differ only in what surrounds these copies.
 */
module Transfer {
  import opened Layout
  import Alu

  /** FX33's memory: the three decimal digits of `b` at i, i + 1 and i + 2. */
  function StoredBcd(memory: Memory, i: nat, b: bv8): (mem: Memory)
    requires i + 2 < MemorySize
    ensures mem[i] as int * 100 + mem[i + 1] as int * 10 + mem[i + 2] as int == b as int
    ensures mem[i] < 10 && mem[i + 1] < 10 && mem[i + 2] < 10
    ensures forall a :: 0 <= a < MemorySize && !(i <= a < i + 3) ==> mem[a] == memory[a]
  {
    var d := Alu.Bcd(b);
    seq(MemorySize, a requires 0 <= a < MemorySize => if i <= a < i + 3 then d[a - i] else memory[a])
  }

  /** FX55's memory: registers 0..n from address i on. */
  function StoredRegs(memory: Memory, v: Registers, i: nat, n: nat): (mem: Memory)
    requires i + n < MemorySize && n < NumberOfRegisters
    ensures forall k :: 0 <= k <= n ==> mem[i + k] == v[k]
    ensures forall a :: 0 <= a < MemorySize && !(i <= a <= i + n) ==> mem[a] == memory[a]
  {
    seq(MemorySize, a requires 0 <= a < MemorySize => if i <= a <= i + n then v[a - i] else memory[a])
  }

  /** FX65's registers: registers 0..n from memory at i on, the rest kept. */
  function LoadedRegs(v: Registers, memory: Memory, i: nat, n: nat): (v': Registers)
    requires i + n < MemorySize && n < NumberOfRegisters
    ensures forall k :: 0 <= k <= n ==> v'[k] == memory[i + k]
    ensures forall k :: n < k < NumberOfRegisters ==> v'[k] == v[k]
  {
    seq(NumberOfRegisters, k requires 0 <= k < NumberOfRegisters => if k <= n then memory[i + k] else v[k])
  }

  /** Registers 0..n stored at i and loaded back from i are the registers. */
  lemma RegistersRoundTrip(memory: Memory, v: Registers, i: nat, n: nat)
    requires i + n < MemorySize && n < NumberOfRegisters
    ensures LoadedRegs(v, StoredRegs(memory, v, i, n), i, n) == v
  {
    var v' := LoadedRegs(v, StoredRegs(memory, v, i, n), i, n);
    assert forall k :: 0 <= k < NumberOfRegisters ==> v'[k] == v[k];
  }

  /** Bytes i..i + n loaded into registers and stored back leave memory as it was. */
  lemma MemoryRoundTrip(memory: Memory, v: Registers, i: nat, n: nat)
    requires i + n < MemorySize && n < NumberOfRegisters
    ensures StoredRegs(memory, LoadedRegs(v, memory, i, n), i, n) == memory
  {
    var mem := StoredRegs(memory, LoadedRegs(v, memory, i, n), i, n);
    assert forall a :: 0 <= a < MemorySize ==> mem[a] == memory[a] by {
      forall a | 0 <= a < MemorySize
        ensures mem[a] == memory[a]
      {
        if i <= a <= i + n {
          assert mem[i + (a - i)] == LoadedRegs(v, memory, i, n)[a - i];
        }
      }
    }
  }
}
