# A Dafny model of the imit8 CHIP-8 interpreter core

This project models the two CHIP-8 CPU cores of imit8-chip8 and proves properties about them.

- **The newer engine** is class `Chip8` in src/Chip8.cpp. It covers `init`, `loadROM`, `runCycle`, `fetch`, `decodeAndExecute`, `updateTimers` and the hex-digit helpers.
- **The older engine** is class `chip8` in src/chip8.cpp. It covers `init`, `loadROM`, `getScreen`, `runCycle`, `fetch`, `decode` and `execute`.

A machine is an immutable `Chip8.Machine`. It holds:

- 4096 bytes of memory;
- the sixteen V registers;
- the 16-bit index, program counter and opcode;
- the 2048-byte graphics buffer;
- the delay and sound timers;
- the call stack, as a sequence with the top at the end;
- the keypad;
- `romBytes`;
- the dirty flag.

C++ `unsigned char` arithmetic is `bv8` arithmetic and `unsigned short` arithmetic is `bv16` arithmetic, so every wrap-around in the source is explicit.

A cycle returns an `Outcomes.Outcome`, which is one of four values:

- `Next(m)`: the C++ function returned true.
- `Stopped(m, why)`: it returned false. The machine keeps the changes made before returning.
- `Exited`: the older engine called `exit(1)`.
- `Undefined(fault)`: the C++ code would index an array out of bounds. This covers memory past 4095 and a keypad index past 15.

The outside world enters through an `Outcomes.Env` of two values:

- the byte `rand() % 256` that CXNN masks;
- the first hexadecimal character that FX0A's `getchar` loop reads.

Modules:

- `Layout`: the constants of both headers, the font, and byte-sequence helpers.
- `Opcode`: the hex-digit helpers, the decoder `Decode` and its inverse `Encode`.
- `Alu`: register arithmetic, binary-coded decimal and timer ticks.
- `Rom`: the `loadROM` loop over a byte sequence.
- `Transfer`: FX33, FX55 and FX65 on memory.
- `Sprite`: XOR drawing as a list of byte writes.
- `Chip8` and `Chip8Properties`: the newer engine.
- `Chip8Legacy`: the older engine.
  - `Chip8LegacyProperties` covers its clipping DXYN.
  - `Chip8LegacyFlow` covers the rest, and how it compares with the newer engine.

Where the engines behave alike, the older engine reuses the newer one's definitions, and `Chip8LegacyFlow.EnginesAgree` proves that they agree there. The model follows the C++ code as written, including:

- the order in which 8XY? writes VF;
- DXYN clearing VF before reading V[X] and V[Y];
- FX0A storing the typed character code rather than a key number;
- the extra byte that `loadROM` copies after the last one;
- the older DXYN's collision test on byte-aligned rows, which reads the screen byte after the XOR (see "## Findings").

The older engine's `Chip8Legacy.ExecDraw` runs that test as written. `Chip8Legacy.ExecDrawIntended` is the same instruction with the test the unaligned rows use, and `Chip8LegacyProperties.DrawsAgree` proves that the two differ only in VF, and only when V[X] is a multiple of 8.

## Model

| member | source | states |
|---|---|---|
| Layout.MemoryMap | src/chip8.h:16-27 | The font fits below 0x200, a screen row is 8 bytes, and the older engine's screen is exactly the last 256 bytes of memory |
| Layout.Splice | src/Chip8.cpp:631-644 | A byte-copy loop writes its part at the given offset and leaves every other byte as it was |
| Opcode.Word | src/Chip8.cpp:136 | The fetched word has the byte at pc as its high byte |
| Opcode.WordDigits | src/Chip8.cpp:694-730 | getHexDigit1..4, getHexDigits3and4 and getHexAddress of a fetched word are the nibbles of its two bytes, high byte first |
| Opcode.FieldHelpers | src/Chip8.cpp:718-730 | The low-byte and address helpers agree with the single-digit helpers |
| Opcode.SplitJoin | src/Chip8.cpp:694-716 | Splitting an opcode into four digits and joining them back are inverse |
| Opcode.JoinSplit | src/Chip8.cpp:694-716 | Joining four digits and splitting them back are inverse |
| Opcode.AluCodeRoundTrip | src/Chip8.cpp:288-412 | Every 8XY? operation has a low digit the switch accepts, and that digit selects the operation again |
| Opcode.DecodeEncode | src/Chip8.cpp:144-674 | Every recognised instruction survives encoding and decoding |
| Opcode.EncodeDecode | src/Chip8.cpp:144-674 | Every opcode the switch accepts is the canonical encoding of what it decodes to, so decoding loses no bit |
| Opcode.DecodeImplemented | src/Chip8.cpp:144-674 | Decoding rejects exactly the opcodes for which the switch falls into a default case: 0NNN other than 00E0/00EE, 5XY? and 9XY? with a non-zero low digit, 8XY? with a low digit outside 0-7 and E, and E/F groups with an unknown low byte |
| Opcode.SystemImplemented | src/Chip8.cpp:150-186 | Group 0 accepts exactly the addresses 0E0 and 0EE |
| Opcode.KeyImplemented | src/Chip8.cpp:530-563 | Group E accepts exactly the low bytes 9E and A1 |
| Opcode.MiscImplemented | src/Chip8.cpp:566-664 | Group F accepts exactly the low bytes 07, 0A, 15, 18, 1E, 29, 33, 55 and 65 |
| Alu.Sum | src/Chip8.cpp:279-281 | Byte addition is the sum modulo 256 |
| Alu.Carry | src/Chip8.cpp:336 | The test `r > 0xFF - s` is 1 exactly when the true sum exceeds 255 |
| Alu.NoBorrow | src/Chip8.cpp:351 | The borrow flag is 0 exactly when the subtrahend is larger |
| Alu.Difference | src/Chip8.cpp:350 | Byte subtraction undoes addition and is exact when nothing is borrowed |
| Alu.AddCarry | src/Chip8.cpp:331-343 | 8XY4 stores the wrapped sum and then the carry, so with X = F the carry is what VF keeps |
| Alu.Sub | src/Chip8.cpp:346-358 | 8XY5 stores the difference and then the no-borrow flag, which wins when X = F |
| Alu.SubReversed | src/Chip8.cpp:376-390 | 8XY7 stores V[Y] - V[X] and then the no-borrow flag of that difference |
| Alu.ShiftRightFlagFirst | src/Chip8.cpp:361-373 | The newer right shift writes the low bit to VF first, so with X = F the shifted value wins |
| Alu.ShiftRightFlagLast | src/chip8.cpp:326-334 | The older right shift writes the shifted V[Y] first and the low bit last, so with X = F the flag wins |
| Alu.ShiftLeftFlagFirst | src/Chip8.cpp:394-406 | A left shift writes the bit shifted out to VF first, then the doubled value |
| Alu.Masked | src/Chip8.cpp:448-453 | CXNN keeps only the random bits that NN allows, and the whole random byte when NN is FF |
| Alu.AddIndex | src/Chip8.cpp:605-609 | FX1E adds V[X] to index modulo 65536 |
| Alu.Offset | src/Chip8.cpp:442-446 | BNNN's target V0 + NNN is exact and below 0x1100 |
| Alu.FontAddress | src/Chip8.cpp:612-617 | FX29 points at V[X] times 5, which stays inside the font for a hexadecimal digit |
| Alu.Bcd | src/Chip8.cpp:620-629 | FX33's three bytes are decimal digits whose value is the byte |
| Alu.Tick | src/Chip8.cpp:676-692 | A timer tick counts down by one but never below zero |
| Alu.TicksSaturate | src/Chip8.cpp:676-692 | k ticks leave max(t - k, 0) |
| Rom.Fill | src/Chip8.cpp:95-105 | The read loop copies the ROM from 0x200 on, then copies the last byte once more when the read fails at end of file, and changes nothing else |
| Rom.LoadRom | src/Chip8.cpp:95-115 | loadROM counts the ROM bytes and accepts exactly a non-empty ROM shorter than 3584 bytes; memory below 0x200 and past the copied bytes is kept |
| Rom.LoadersAgree | src/chip8.cpp:82-99 | The older loader's unconditional `romBytes--` never goes below zero, so both loaders give the same result |
| Rom.ExactFitRejected | src/Chip8.cpp:114 | A ROM that fills memory exactly is rejected, because end of file has not yet been seen when memory is full |
| Rom.LongestRomReachesScreen | src/chip8.cpp:82-99 | The longest ROM accepted overwrites the older engine's screen at 0xF00 |
| Transfer.StoredBcd | src/Chip8.cpp:620-629 | FX33 writes three decimal digits whose value is V[X] at index, index + 1 and index + 2, and nothing else |
| Transfer.StoredRegs | src/Chip8.cpp:632-644 | FX55 writes V0..VX from index on and nothing else |
| Transfer.LoadedRegs | src/Chip8.cpp:647-657 | FX65 reads V0..VX from index on and keeps the other registers |
| Transfer.RegistersRoundTrip | src/Chip8.cpp:631-657 | Storing registers and loading them back gives the same registers |
| Transfer.MemoryRoundTrip | src/Chip8.cpp:631-657 | Loading bytes into registers and storing them back leaves memory as it was |
| Sprite.Erases | src/Chip8.cpp:480-485 | The newer collision test `temp & ~new` holds exactly when the sprite byte covers a lit pixel |
| Sprite.RowByte | src/Chip8.cpp:472 | The aligned row byte is column xByte of row (y + i) modulo 32 |
| Sprite.NextByte | src/Chip8.cpp:497-518 | The right half of a split row goes to the next column, which wraps to column 0 of the same row in the last column |
| Sprite.HalvesSpreadRow | src/Chip8.cpp:491-509 | The two halves of a split row are the row moved xBit pixels right, with no pixel lost |
| Sprite.SpriteWrites | src/Chip8.cpp:469-520 | The writes of a sprite, in loop order, all land on the 256-byte screen |
| Sprite.SpriteWritesDistinct | src/Chip8.cpp:469-520 | A sprite of at most 15 rows never writes the same byte twice, even when it wraps |
| Sprite.BlitPointwise | src/Chip8.cpp:478-520 | After the writes, each byte is its old value XOR all bits written to it |
| Sprite.BlitTwice | src/Chip8.cpp:478-520 | Applying the same writes twice restores the framebuffer |
| Sprite.BlitHit | src/Chip8.cpp:478-520 | When no byte is written twice, the collision flag is raised exactly when some write covers a pixel lit before the draw |
| Chip8.Init | src/Chip8.cpp:22-60 | init zeroes registers, screen, stack, memory past the font and all counters, loads the font and sets pc to 0x200; the keypad is not touched |
| Chip8.FontMemory | src/Chip8.cpp:88-93 | The font fills the first 80 bytes and the rest of memory is zero |
| Chip8.LoadRom | src/Chip8.cpp:95-115 | loadROM changes only memory and romBytes |
| Chip8.Fetch | src/Chip8.cpp:133-141 | A fetch reads the big-endian word at pc and changes only the opcode; reading past 4095 has no meaning |
| Chip8.ExecClearScreen | src/Chip8.cpp:154-164 | 00E0 zeroes the graphics buffer, sets the dirty flag and advances pc |
| Chip8.ExecSkip | src/Chip8.cpp:220-269 | A skip adds 4 to pc exactly when its condition holds, adds 2 otherwise, and changes nothing else |
| Chip8.ExecSetRegister | src/Chip8.cpp:271-276 | Sets exactly one register and advances pc |
| Chip8.ExecJumpOffset | src/Chip8.cpp:441-446 | BNNN sets pc to V0 + NNN and nothing else |
| Chip8.ExecReturn | src/Chip8.cpp:166-179 | 00EE pops the saved address into pc; an empty stack stops the run with nothing changed |
| Chip8.ExecJump | src/Chip8.cpp:188-203 | 1NNN sets pc, and stops the run exactly when the target is the jump itself |
| Chip8.ExecCall | src/Chip8.cpp:205-219 | 2NNN pushes pc + 2 and jumps, and stops the run exactly when 16 addresses were already saved |
| Chip8.ExecSkipKey | src/Chip8.cpp:533-555 | EX9E and EXA1 skip exactly when the key is or is not pressed; a key number past 15 has no meaning |
| Chip8.SpriteBytes | src/Chip8.cpp:478-520 | The n sprite bytes come from memory at index |
| Chip8.ExecDraw | src/Chip8.cpp:456-527 | DXYN changes only the registers, the graphics buffer and pc, and sets the dirty flag; a sprite past the end of memory has no meaning |
| Chip8.ExecStoreBcd | src/Chip8.cpp:620-629 | FX33 is defined exactly when index + 2 is inside memory and changes only memory and pc |
| Chip8.ExecStoreRegs | src/Chip8.cpp:632-644 | FX55 is defined exactly when index + X is inside memory and changes only memory and pc |
| Chip8.ExecLoadRegs | src/Chip8.cpp:647-657 | FX65 is defined exactly when index + X is inside memory and changes only registers and pc |
| Chip8.UpdateTimers | src/Chip8.cpp:676-692 | Both timers count down unless they are already zero; nothing else changes |
| Chip8Properties.CycleExecutes | src/Chip8.cpp:125-130 | runCycle clears the dirty flag, fetches, and executes what the fetched word decodes to |
| Chip8Properties.ExecuteFrame | src/Chip8.cpp:144-674 | Every instruction changes only what it names. Sequential instructions continue at pc + 2 or have no meaning, and a continuing call or return moves the stack by one |
| Chip8Properties.SequentialAdvances | src/Chip8.cpp:144-674 | An instruction that neither jumps nor skips never stops and continues at pc + 2 |
| Chip8Properties.SkipAdvances | src/Chip8.cpp:220-269 | Each conditional skip tests the condition its mnemonic names |
| Chip8Properties.UnimplementedStops | src/Chip8.cpp:666-670 | An unrecognised opcode stops the cycle right after the fetch |
| Chip8Properties.ImplementedRuns | src/Chip8.cpp:144-674 | A recognised opcode never stops as unimplemented |
| Chip8Properties.StopReasons | src/Chip8.cpp:144-674 | Only an unrecognised instruction stops as unimplemented |
| Chip8Properties.DirtyMeansScreenOp | src/Chip8.cpp:125-130 | After a cycle the dirty flag says exactly whether it cleared the screen or drew |
| Chip8Properties.MemoryOnlyByStores | src/Chip8.cpp:144-674 | Only FX33 and FX55 write memory |
| Chip8Properties.GraphicsOnlyByScreenOps | src/Chip8.cpp:144-674 | Only 00E0 and DXYN touch the graphics buffer |
| Chip8Properties.CallThenReturn | src/Chip8.cpp:166-219 | A call followed by a return lands after the call with the stack as it was |
| Chip8Properties.ReturnUnderflow | src/Chip8.cpp:169-173 | 00EE on an empty stack stops with nothing changed |
| Chip8Properties.CallOverflow | src/Chip8.cpp:207-215 | The seventeenth pending call stops, but only after pushing and jumping |
| Chip8Properties.JumpRule | src/Chip8.cpp:188-203 | A jump to itself stops; any other jump continues at its target |
| Chip8Properties.CycleStackBounded | src/Chip8.cpp:205-219 | A continuing cycle never leaves more than 16 return addresses |
| Chip8Properties.RunStackBounded | src/Chip8.cpp:125-130 | No run of cycles leaves more than 16 return addresses |
| Chip8Properties.RunAppend | src/Chip8.cpp:125-130 | Running two lists of inputs is running the first, then the second from where the first stopped |
| Chip8Properties.StoreThenLoad | src/Chip8.cpp:631-657 | FX55 then FX65 gives the registers back |
| Chip8Properties.LoadThenStore | src/Chip8.cpp:631-657 | FX65 then FX55 leaves memory as it was |
| Chip8Properties.StoreBcdWrites | src/Chip8.cpp:620-629 | FX33 writes the decimal digits of V[X] at index, index + 1 and index + 2, and has no meaning past the end of memory |
| Chip8Properties.FontCharGlyph | src/Chip8.cpp:612-617 | FX29 on a hexadecimal digit points index at that digit's glyph in the font |
| Chip8Properties.WaitKeyStoresCharacter | src/Chip8.cpp:578-588 | FX0A stores the typed character, a code of 0x30 or more, and never a key number 0-15 |
| Chip8Properties.Origin | src/Chip8.cpp:458-460 | DXYN clears VF before reading V[X] and V[Y], so VF as a coordinate register reads 0 |
| Chip8Properties.DrawOffScreen | src/Chip8.cpp:461 | An origin off the screen draws nothing: VF becomes 0, pc moves on and the screen is marked dirty |
| Chip8Properties.DrawPastMemory | src/Chip8.cpp:478-520 | An on-screen draw has no meaning exactly when the sprite runs past the end of memory |
| Chip8Properties.DrawXors | src/Chip8.cpp:469-520 | Each framebuffer byte ends as its old value XOR every sprite byte written to it |
| Chip8Properties.DrawCollision | src/Chip8.cpp:481-518 | VF ends as 1 exactly when some sprite byte shares a lit pixel with the screen byte it is XORed into |
| Chip8Properties.DrawTwiceRestores | src/Chip8.cpp:456-527 | The same draw twice in a row restores the screen, even when X or Y is F |
| Chip8Properties.FirstFetchAfterLoad | src/Chip8.cpp:95-141 | After init and a successful loadROM, the first fetch reads the ROM's first two bytes |
| Chip8Properties.FramesSaturate | src/Chip8.cpp:676-692 | After k timer updates both timers hold max(t - k, 0), and nothing else changes |
| Chip8Properties.DelayReadBack | src/Chip8.cpp:569-596 | FX15 then FX07 gives V[Y] the value V[X] had, and leaves the sound timer alone |
| Chip8Properties.SoundCountsDown | src/Chip8.cpp:597-602 | After FX18, k timer updates leave the sound timer at max(V[X] - k, 0) and the delay timer at max(delay - k, 0) |
| Chip8Legacy.Init | src/chip8.cpp:15-51 | init resets the machine as the newer engine does |
| Chip8Legacy.LoadRom | src/chip8.cpp:82-99 | loadROM changes only memory and romBytes, and romBytes stays a valid unsigned short |
| Chip8Legacy.Screen | src/chip8.cpp:112-116 | getScreen is the 256 bytes of memory from 0xF00 on |
| Chip8Legacy.Fetch | src/chip8.cpp:126-136 | An odd pc stops the run before anything is read; otherwise the fetch reads the big-endian word at pc and changes only the opcode |
| Chip8Legacy.Tick | src/chip8.cpp:619-635 | execute counts both timers down unless they are already zero, and changes nothing else |
| Chip8Legacy.ClearedScreen | src/chip8.cpp:152-158 | 00E0 zeroes memory from 0xF00 on and keeps everything below |
| Chip8Legacy.ExecClearScreen | src/chip8.cpp:152-159 | 00E0 changes only memory and pc |
| Chip8Legacy.ExecReturn | src/chip8.cpp:161-170 | 00EE pops the saved address and continues two bytes after it; an empty stack ends the process |
| Chip8Legacy.ExecJump | src/chip8.cpp:181-190 | 1NNN sets pc, and then stops exactly when the target is below 0x200 or odd |
| Chip8Legacy.ExecCall | src/chip8.cpp:192-204 | 2NNN pushes pc itself and jumps, then stops exactly on a seventeenth address or a bad target |
| Chip8Legacy.XorByte | src/chip8.cpp:427-446 | One screen byte XORed with the sprite bits, every other byte left as it was; the flag is raised when it was already raised or the byte meets the given test |
| Chip8Legacy.AlignedHitAsWritten | src/chip8.cpp:427-432 | The aligned test `temp & memory[loc]` after the XOR holds exactly when the old byte has a pixel the sprite byte lacks |
| Sprite.HitsAsWritten | src/chip8.cpp:427-446 | The two collision tests agree with the expressions the loops evaluate: one is the newer engine's `temp & ~new`, which is the unaligned rows' `temp & bits`; the other is the aligned rows' `temp & memory[loc]` on the byte after the XOR |
| Chip8Legacy.ScreenByte | src/chip8.cpp:420-426 | The row's first byte is inside the screen, in column xByte of the given row |
| Chip8Legacy.DrawRow | src/chip8.cpp:426-460 | Drawing one row never writes memory below the screen and never clears the flag |
| Chip8Legacy.DrawRows | src/chip8.cpp:424-461 | The row loop stops at the bottom of the screen; it keeps memory below the screen, or has no meaning when the sprite runs past memory |
| Chip8Legacy.Drawing | src/chip8.cpp:410-464 | DXYN changes only VF among the registers, leaves VF as 0 or 1, and keeps memory below the screen |
| Chip8Legacy.ExecDrawWith | src/chip8.cpp:410-464 | DXYN, under either aligned test, continues or has no meaning, and changes only registers, memory and pc |
| Chip8Legacy.ExecDraw | src/chip8.cpp:410-464 | DXYN as written changes only registers, memory and pc |
| Chip8Legacy.ExecDrawIntended | src/chip8.cpp:410-464 | DXYN with the unaligned rows' test on every row changes only registers, memory and pc |
| Chip8LegacyProperties.DrawBlits | src/chip8.cpp:410-464 | When the origin is on screen and the sprite's bytes lie below the screen area, DXYN continues, keeps memory below the screen, leaves the screen as the clipped byte writes applied to it, and sets VF from the flag those writes raise: the aligned test when V[X] is a multiple of 8, the unaligned test otherwise |
| Chip8LegacyProperties.DrawXors | src/chip8.cpp:410-464 | Each screen byte ends as its old value XOR every sprite byte written to it |
| Chip8LegacyProperties.DrawCollision | src/chip8.cpp:410-464 | VF ends as 0 or 1. When V[X] is a multiple of 8 it is 1 exactly when some written screen byte had a lit pixel the sprite byte lacks; otherwise exactly when some sprite byte covers a lit pixel |
| Chip8LegacyProperties.DrawCollisionIntended | src/chip8.cpp:436-446 | With the unaligned test on every row, VF is 1 exactly when some sprite byte covers a pixel lit before the draw |
| Chip8LegacyProperties.DrawsAgree | src/chip8.cpp:410-464 | The draw as written and the corrected draw continue together, write the same memory and the same registers other than VF, and are identical when the origin is off screen or V[X] is not a multiple of 8 |
| Chip8LegacyProperties.DrawClips | src/chip8.cpp:424-461 | A screen byte above the sprite, or outside its one or two columns, keeps its value: nothing wraps |
| Chip8LegacyProperties.DrawTwiceRestores | src/chip8.cpp:410-464 | The same draw twice in a row restores memory |
| Chip8LegacyProperties.DrawOffScreen | src/chip8.cpp:412-416 | An origin off the screen only clears VF and advances pc |
| Chip8LegacyProperties.ClippedShape | src/chip8.cpp:424-461 | The clipped writes of sprite rows i onwards go to pairwise distinct screen bytes, all in screen rows y + i onwards and inside the one or two byte columns the sprite covers |
| Chip8LegacyProperties.BlitAppend | src/chip8.cpp:424-461 | Applying two lists of on-screen writes in turn gives the same screen as applying their concatenation, and the collision flag is the or of the two flags |
| Chip8LegacyFlow.EnginesAgree | src/chip8.cpp:141-615 | Outside 00E0, 00EE, 1NNN, 2NNN, DXYN and the shifts, the older engine computes the same outcome as the newer one |
| Chip8LegacyFlow.ExecuteKept | src/chip8.cpp:141-615 | No instruction touches the opcode, keypad, romBytes, graphics buffer or dirty flag. Memory, timers and stack change only through the instructions that name them, and a continuing call or return moves the stack by one |
| Chip8LegacyFlow.CycleSteps | src/chip8.cpp:119-136 | An odd pc stops the cycle and a fetch past memory has no meaning. Otherwise the fetched instruction runs, and the timers tick only if it continues |
| Chip8LegacyFlow.CycleTimers | src/chip8.cpp:619-635 | A stopped cycle leaves both timers alone; a continuing one ticks each timer its instruction did not set |
| Chip8LegacyFlow.StopReasons | src/chip8.cpp:119-615 | The older engine stops only for an odd pc, a bad jump or call target, a seventeenth return address or an unrecognised opcode; never for a self-jump |
| Chip8LegacyFlow.ExecuteStops | src/chip8.cpp:141-615 | An instruction stops only as a bad jump or call, a call overflow, or an unrecognised opcode |
| Chip8LegacyFlow.CycleStackBounded | src/chip8.cpp:192-204 | A continuing cycle never leaves more than 16 return addresses |
| Chip8LegacyFlow.RunStackBounded | src/chip8.cpp:119-123 | No run of cycles leaves more than 16 return addresses |
| Chip8LegacyFlow.RunLeavesBuffer | src/chip8.cpp:119-123 | A run never touches the graphics buffer, the dirty flag, the keypad or romBytes |
| Chip8LegacyFlow.CallThenReturn | src/chip8.cpp:161-204 | A call to a good target followed by a return lands after the call with the stack as it was |
| Chip8LegacyFlow.CallReturnAgree | src/chip8.cpp:161-204 | The older engine saves pc and the newer pc + 2, yet a call and its return end in the same place in both |
| Chip8LegacyFlow.CallDepthAgree | src/chip8.cpp:192-204 | For a good target, both engines stop a call exactly when 16 addresses are already saved |
| Chip8LegacyFlow.ReturnUnderflow | src/chip8.cpp:162-166 | 00EE on an empty stack ends the process in the older engine and stops the run in the newer |
| Chip8LegacyFlow.JumpThenFetch | src/chip8.cpp:181-190 | A jump to a good target continues with a defined next fetch; a bad one stops with pc already moved |
| Chip8LegacyFlow.SelfJumpSpins | src/chip8.cpp:181-190 | A jump to itself keeps the older engine spinning with the timers ticking, while the newer engine stops |
| Chip8LegacyFlow.ShiftsAgree | src/chip8.cpp:326-362 | With X other than F, a shift gives the same registers in both engines exactly when V[X] equals V[Y] |
| Chip8LegacyFlow.ShiftRightIntoFlag | src/chip8.cpp:326-334 | 8FY6 leaves the bit shifted out of V[Y] in VF; the newer engine leaves half of VF |
| Chip8LegacyFlow.ClearBlanksScreen | src/chip8.cpp:152-159 | 00E0 blanks the screen bytes, keeps all memory below 0xF00 and leaves the graphics buffer alone |
| Chip8LegacyFlow.ClearThenDraw | src/chip8.cpp:410-464 | A sprite drawn on a cleared screen raises no collision |
| Chip8LegacyFlow.AlignedCollisionMissed | src/chip8.cpp:427-432 | As written, a one-row DXYN at a byte-aligned origin over a screen byte equal to the sprite byte erases that byte yet leaves VF as 0, where the corrected draw sets it to 1 |
| Chip8LegacyFlow.DelayReadBack | src/chip8.cpp:505-531 | FX15 then FX07 over two cycles gives V[Y] the value V[X] had counted down once in the older engine, since its cycle ticks right after FX15, and exactly V[X] in the newer |
| Chip8LegacyFlow.FirstFetchAfterLoad | src/chip8.cpp:82-136 | After init and a successful loadROM, the first fetch reads the ROM's first two bytes |

## Left out

- Logging, the console messages and the `LogWriter` are left out because they have no effect on the machine.
- `loadFile` is left out: opening the file belongs to the I/O layer. `loadROM` is modelled over the bytes the stream would deliver.
- The SDL display, `main`, the frame loop and `isDirtyScreen` are I/O, so they are not modelled. The 60 Hz schedule of `updateTimers` is the caller's, so `Chip8Properties.Frames` takes a number of ticks.
- `rand()` and `getchar()` are not modelled. They become the two inputs of `Outcomes.Env`.
- The FX0A loop over a stream that ends without a hexadecimal character is left out. It would spin forever on EOF, so the model assumes such a character arrives.
- The keypad is never written by either core. It is part of the state, and `init` leaves it as it was.
- `srand(time(nullptr))` in `init` is left out because it only seeds the random source.
- The older engine's `graphicsBuffer` is cleared by `init` and never used afterwards. The model keeps it, and `Chip8LegacyFlow.RunLeavesBuffer` proves no cycle touches it.
- The older engine has no dirty flag. The model keeps the field: no operation of that engine reads it, and `init` resets it with the rest.
- Undefined C++ behaviour (array indices past 4095, a keypad index past 15) becomes `Undefined`. Nothing is claimed about what the C++ program would do.
- `exit(1)` on an empty-stack 00EE becomes `Exited`. The process ending is not modelled further.
- Chip8LegacyProperties.DrawXors: proved only when the sprite lies below the screen (`index + n <= 0xF00`). A sprite read from the screen bytes it is drawing over is not covered.
- Chip8LegacyProperties.DrawCollision: proved only for a sprite that lies below the screen, as above.
- Chip8LegacyProperties.DrawTwiceRestores: proved only for a sprite that lies below the screen, as above.
- Chip8LegacyProperties.DrawClips: proved only for a sprite that lies below the screen, as above.
- Chip8LegacyProperties.DrawBlits: proved only for a sprite that lies below the screen, as above.
- Chip8LegacyFlow.ClearThenDraw: proved only for a sprite that lies below the screen, as above.
- Chip8LegacyProperties.DrawCollisionIntended: proved only for a sprite that lies below the screen, as above.
- Chip8Properties.DrawTwiceRestores: assumes the first draw is defined. An undefined draw has no second draw to compare with.

## Findings

| source | as written | input that shows it | evidently intended | confidence | as-written member | corrected member |
|---|---|---|---|---|---|---|
| src/chip8.cpp:427-432 | The aligned branch of the older DXYN tests `temp & memory[loc]` after the XOR. That raises VF when the old byte has a lit pixel the sprite byte does not cover, and not when the sprite erases a pixel | A lit screen byte 0x80 under an aligned sprite row 0x80: the pixel is erased, but `0x80 & 0x00` is 0, so VF stays 0 | Test the old byte against the sprite bits (`temp & sprite`), as the unaligned branch and the newer engine do, so VF is 1 exactly when a lit pixel is erased | high, by reading; not executed | Chip8Legacy.ExecDraw, Chip8LegacyFlow.AlignedCollisionMissed | Chip8Legacy.ExecDrawIntended, Chip8LegacyProperties.DrawCollisionIntended |
