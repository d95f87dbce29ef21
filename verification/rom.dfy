/**
  The ROM loader of both engine generations (`loadROM`): the file is read one
  byte at a time into memory from 0x200 upward until memory is full or a read
  hits the end of the file. The loop body stores `op` even when the read
  failed, and a failed single-byte read leaves `op` as it was, so the byte
  after the ROM receives a second copy of the ROM's last byte (or, for an
  empty file, whatever `op` held before the loop). The loop thus runs one
  iteration more than the file is long, which is what the final decrement of
  `romBytes` compensates for.
 */
module Rom {
  import opened Layout

  /** The number of bytes that fit between the code start and the end of memory. */
  const CodeCapacity: int := MemorySize - CodeStart

  /** Where the loop stopped: the memory it wrote, the final value of `i`,
      and whether the stream had reported end of file. */
  datatype Filled = Filled(memory: Memory, next: int, eof: bool)

  /** What `loadROM` leaves behind and returns. */
  datatype Loaded = Loaded(memory: Memory, romBytes: int, ok: bool)

  /** The loop from address `i` on, the reads before it having all succeeded;
      `op` is the byte the previous read left in the local variable. */
  function Fill(mem: Memory, rom: seq<bv8>, i: int, op: bv8): (r: Filled)
    requires CodeStart <= i <= MemorySize && i - CodeStart <= |rom|
    ensures r.eof <==> |rom| < CodeCapacity
    ensures r.next == if |rom| < CodeCapacity then CodeStart + |rom| + 1 else MemorySize
    ensures forall a :: 0 <= a < i ==> r.memory[a] == mem[a]
    ensures forall a :: i <= a < MemorySize && a - CodeStart < |rom| ==> r.memory[a] == rom[a - CodeStart]
    ensures |rom| < CodeCapacity ==>
      r.memory[CodeStart + |rom|] == if i < CodeStart + |rom| then rom[|rom| - 1] else op
    ensures forall a :: CodeStart + |rom| < a < MemorySize ==> r.memory[a] == mem[a]
    decreases MemorySize - i
  {
    if i == MemorySize then
      Filled(mem, i, false)
    else if i - CodeStart < |rom| then
      var b := rom[i - CodeStart];
      Fill(mem[i := b], rom, i + 1, b)
    else
      Filled(mem[i := op], i + 1, true)
  }

  /** The byte count the loop leaves in `romBytes` before the decrement. */
  function Count(f: Filled): int
  {
    f.next - CodeStart
  }

  /** The verdict both engines return: the ROM was too large, or it was empty. */
  function Accepted(f: Filled, romBytes: int): bool
  {
    !((f.next >= MemorySize && !f.eof) || romBytes == 0)
  }

  /** The newer engine's `loadROM`, which decrements `romBytes` only when it
      is positive. `stale` is the uninitialised `op` of the C++ code. */
  function LoadRom(mem: Memory, rom: seq<bv8>, stale: bv8): (r: Loaded)
    ensures |rom| < CodeCapacity ==> r.romBytes == |rom| && (r.ok <==> |rom| > 0)
    ensures |rom| >= CodeCapacity ==> r.romBytes == CodeCapacity - 1 && !r.ok
    ensures forall a :: 0 <= a < CodeStart ==> r.memory[a] == mem[a]
    ensures forall k :: 0 <= k < |rom| && k < CodeCapacity ==> r.memory[CodeStart + k] == rom[k]
    ensures |rom| < CodeCapacity ==>
      r.memory[CodeStart + |rom|] == if |rom| == 0 then stale else rom[|rom| - 1]
    ensures forall a :: CodeStart + |rom| < a < MemorySize ==> r.memory[a] == mem[a]
  {
    var f := Fill(mem, rom, CodeStart, stale);
    var count := Count(f);
    var romBytes := if count > 0 then count - 1 else count;
    Loaded(f.memory, romBytes, Accepted(f, romBytes))
  }

  /** The older engine's `loadROM`, which decrements `romBytes` unconditionally;
      the `unsigned short` would wrap at zero. */
  function LoadRomLegacy(mem: Memory, rom: seq<bv8>, stale: bv8): Loaded
  {
    var f := Fill(mem, rom, CodeStart, stale);
    var romBytes := (Count(f) - 1) % 0x1_0000;
    Loaded(f.memory, romBytes, Accepted(f, romBytes))
  }

  /** The loop always runs at least once, so the older engine's unconditional
      decrement never wraps below zero and the two loaders agree. */
  lemma LoadersAgree(mem: Memory, rom: seq<bv8>, stale: bv8)
    ensures LoadRomLegacy(mem, rom, stale) == LoadRom(mem, rom, stale)
  {
    var f := Fill(mem, rom, CodeStart, stale);
    var count := Count(f);
    assert 1 <= count <= CodeCapacity + 1;
    assert (count - 1) % 0x1_0000 == count - 1;
  }

  /** A ROM that fills memory exactly is rejected: after the 3584th byte the
      loop stops on the address bound before any read has reported end of file. */
  lemma ExactFitRejected(mem: Memory, rom: seq<bv8>, stale: bv8)
    requires |rom| == CodeCapacity
    ensures !LoadRom(mem, rom, stale).ok
  {
  }

  /** The largest accepted ROM is one byte shorter; it runs into the older
      engine's framebuffer at 0xF00, which `loadROM` does not guard. */
  lemma LongestRomReachesScreen(mem: Memory, rom: seq<bv8>, stale: bv8)
    requires |rom| == CodeCapacity - 1
    ensures LoadRomLegacy(mem, rom, stale).ok
    ensures LoadRomLegacy(mem, rom, stale).memory[ScreenStart] == rom[ScreenStart - CodeStart]
  {
    LoadersAgree(mem, rom, stale);
  }
}
