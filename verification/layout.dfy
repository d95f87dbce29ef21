/**
  Geometry, memory map, font table and the fixed-size state cells shared by
  both interpreter generations (src/Chip8.h and the older src/chip8.h).
  The two headers agree on every constant below except ScreenStart, which
  only the older engine uses: it keeps its framebuffer inside memory.
 */
module Layout {

  const ScreenHeight: int := 32
  const ScreenWidth: int := 64
  /** Bytes per framebuffer row: eight pixels are packed into one byte. */
  const ScreenWidthBytes: int := 8
  const ScreenSize: int := 256
  const MemorySize: int := 4096
  const NumberOfRegisters: int := 16
  const StackDepth: int := 16
  const NumberOfKeys: int := 16
  const FontSize: int := 80
  const BytesPerFontChar: int := 5
  const CodeStart: int := 0x200
  /** Where the older engine keeps its framebuffer inside memory. */
  const ScreenStart: int := 0xF00
  /** The declared size of the newer engine's separate framebuffer. */
  const GraphicsBufferSize: int := ScreenHeight * ScreenWidth

  /** Glyphs 0..F, five rows of one byte each; the high nibble holds the pixels. */
  const Font: seq<bv8> := [
    0xF0, 0x90, 0x90, 0x90, 0xF0, 0x20, 0x60, 0x20, 0x20, 0x70,
    0xF0, 0x10, 0xF0, 0x80, 0xF0, 0xF0, 0x10, 0xF0, 0x10, 0xF0,
    0x90, 0x90, 0xF0, 0x10, 0x10, 0xF0, 0x80, 0xF0, 0x10, 0xF0,
    0xF0, 0x80, 0xF0, 0x90, 0xF0, 0xF0, 0x10, 0x20, 0x40, 0x40,
    0xF0, 0x90, 0xF0, 0x90, 0xF0, 0xF0, 0x90, 0xF0, 0x10, 0xF0,
    0xF0, 0x90, 0xF0, 0x90, 0x90, 0xE0, 0x90, 0xE0, 0x90, 0xE0,
    0xF0, 0x80, 0x80, 0x80, 0xF0, 0xE0, 0x90, 0x90, 0x90, 0xE0,
    0xF0, 0x80, 0xF0, 0x80, 0xF0, 0xF0, 0x80, 0xF0, 0x80, 0x80]

  /** A register index, or any other 4-bit opcode field. */
  type Nibble = n: bv8 | n < 16

  /** The flag register VF. */
  const VF: Nibble := 0xF

  type Memory = s: seq<bv8> | |s| == MemorySize witness seq(MemorySize, _ => 0)
  type Registers = s: seq<bv8> | |s| == NumberOfRegisters witness seq(NumberOfRegisters, _ => 0)
  /** One byte per key; a key counts as pressed when its byte is non-zero. */
  type Keypad = s: seq<bv8> | |s| == NumberOfKeys witness seq(NumberOfKeys, _ => 0)

  /** The memory map both headers promise: the font fits below the code,
      one framebuffer row is eight bytes, and the older engine's screen is
      exactly the last 256 bytes of memory. */
  lemma MemoryMap()
    ensures |Font| == FontSize == 16 * BytesPerFontChar
    ensures FontSize <= CodeStart < MemorySize
    ensures ScreenWidth == 8 * ScreenWidthBytes && ScreenSize == ScreenHeight * ScreenWidthBytes
    ensures ScreenSize <= GraphicsBufferSize
    ensures ScreenStart + ScreenSize == MemorySize && CodeStart < ScreenStart
  {
  }

  /** `part` written over `s` from position `at` on, as the byte-copy loops
      of the source do; nothing outside the written range changes. */
  function Splice(s: seq<bv8>, at: int, part: seq<bv8>): (r: seq<bv8>)
    requires 0 <= at && at + |part| <= |s|
    ensures |r| == |s|
    ensures forall i :: 0 <= i < |part| ==> r[at + i] == part[i]
    ensures forall i :: 0 <= i < |s| && !(at <= i < at + |part|) ==> r[i] == s[i]
  {
    s[..at] + part + s[at + |part|..]
  }

  /** `n` copies of the zero byte. */
  function Zeros(n: nat): (z: seq<bv8>)
    ensures |z| == n && forall i :: 0 <= i < n ==> z[i] == 0
  {
    seq(n, _ => 0)
  }
}
