/**
  The opcode layer both engine generations share: the big-endian fetch word,
  the nibble helpers getHexDigit1..4, getHexDigits3and4 and getHexAddress,
  and the switch of decodeAndExecute (newer engine) / decode (older engine)
  as a pure Decode into a tagged instruction. The two switches recognise
  exactly the same opcodes; only what they do with them differs.
 */
module Opcode {
  import opened Layout

  /** A 12-bit address field. */
  type Addr = a: bv16 | a < 0x1000

  /** `memory[pc] << 8 | memory[pc + 1]`: the high byte comes first. */
  function Word(hi: bv8, lo: bv8): (w: bv16)
    ensures w == (hi as bv16) * 256 + lo as bv16
  {
    ((hi as bv16) << 8) | lo as bv16
  }

  function Digit1(op: bv16): (d: Nibble) { (op >> 12) as bv8 }
  function Digit2(op: bv16): (d: Nibble) { ((op >> 8) & 0xF) as bv8 }
  function Digit3(op: bv16): (d: Nibble) { ((op >> 4) & 0xF) as bv8 }
  function Digit4(op: bv16): (d: Nibble) { (op & 0x000F) as bv8 }
  function Digits3and4(op: bv16): bv8 { (op & 0x00FF) as bv8 }
  function Address(op: bv16): Addr { op & 0x0FFF }

  /** An opcode as its four hexadecimal digits, most significant first. */
  datatype Fields = Fields(d1: Nibble, x: Nibble, y: Nibble, n: Nibble)

  function Split(op: bv16): Fields
  {
    Fields(Digit1(op), Digit2(op), Digit3(op), Digit4(op))
  }

  function Join(f: Fields): bv16
  {
    ((f.d1 as bv16) << 12) | ((f.x as bv16) << 8) | ((f.y as bv16) << 4) | f.n as bv16
  }

  /** Two digits as one byte, and a byte as its two digits. */
  function Byte(hi: Nibble, lo: Nibble): bv8 { (hi << 4) | lo }
  function High(nn: bv8): Nibble { nn >> 4 }
  function Low(nn: bv8): Nibble { nn & 0xF }

  /** Three digits as a 12-bit address, and an address as its three digits. */
  function Addr12(a: Nibble, b: Nibble, c: Nibble): Addr
  {
    ((a as bv16) << 8) | ((b as bv16) << 4) | c as bv16
  }
  function AddrHigh(t: Addr): Nibble { (t >> 8) as bv8 }
  function AddrMid(t: Addr): Nibble { ((t >> 4) & 0xF) as bv8 }
  function AddrLow(t: Addr): Nibble { (t & 0xF) as bv8 }

  /** Splitting into digits and joining them back are inverse. */
  lemma SplitJoin(f: Fields)
    ensures Split(Join(f)) == f
  {
  }

  lemma JoinSplit(op: bv16)
    ensures Join(Split(op)) == op
  {
  }

  lemma ByteParts(nn: bv8)
    ensures Byte(High(nn), Low(nn)) == nn
  {
  }

  lemma PartsByte(hi: Nibble, lo: Nibble)
    ensures High(Byte(hi, lo)) == hi && Low(Byte(hi, lo)) == lo
  {
  }

  lemma AddrParts(t: Addr)
    ensures Addr12(AddrHigh(t), AddrMid(t), AddrLow(t)) == t
  {
  }

  lemma PartsAddr(a: Nibble, b: Nibble, c: Nibble)
    ensures AddrHigh(Addr12(a, b, c)) == a && AddrMid(Addr12(a, b, c)) == b
    ensures AddrLow(Addr12(a, b, c)) == c
  {
  }

  /** The low-byte and address helpers agree with the digit helpers. */
  lemma FieldHelpers(op: bv16)
    ensures Digits3and4(op) == Byte(Digit3(op), Digit4(op))
    ensures Address(op) == Addr12(Digit2(op), Digit3(op), Digit4(op))
  {
  }

  /** The fetch word's digits are the nibbles of its two bytes, high byte first. */
  lemma WordDigits(hi: bv8, lo: bv8)
    ensures Digit1(Word(hi, lo)) == High(hi) && Digit2(Word(hi, lo)) == Low(hi)
    ensures Digit3(Word(hi, lo)) == High(lo) && Digit4(Word(hi, lo)) == Low(lo)
    ensures Digits3and4(Word(hi, lo)) == lo
  {
  }

  /** The sub-operations of the 8XY? group, by low digit. */
  datatype AluOp = Assign | Or | And | Xor | Add | Sub | ShiftRight | SubReversed | ShiftLeft

  function AluCode(k: AluOp): (n: Nibble)
  {
    match k
    case Assign => 0x0
    case Or => 0x1
    case And => 0x2
    case Xor => 0x3
    case Add => 0x4
    case Sub => 0x5
    case ShiftRight => 0x6
    case SubReversed => 0x7
    case ShiftLeft => 0xE
  }

  /** The 8XY? low digits the switch recognises. */
  predicate IsAluCode(n: Nibble) { n <= 7 || n == 0xE }

  function AluOpOf(n: Nibble): (k: AluOp)
    requires IsAluCode(n)
    ensures AluCode(k) == n
  {
    if n == 0x0 then Assign
    else if n == 0x1 then Or
    else if n == 0x2 then And
    else if n == 0x3 then Xor
    else if n == 0x4 then Add
    else if n == 0x5 then Sub
    else if n == 0x6 then ShiftRight
    else if n == 0x7 then SubReversed
    else ShiftLeft
  }

  /** Every sub-operation has a recognised code that selects it again. */
  lemma AluCodeRoundTrip(k: AluOp)
    ensures IsAluCode(AluCode(k)) && AluOpOf(AluCode(k)) == k
  {
  }

  /** One decoded instruction; `Unsupported` is every opcode the switch
      rejects by returning false. */
  datatype Instr =
    | ClearScreen                              // 00E0
    | Return                                   // 00EE
    | Jump(target: Addr)                       // 1NNN
    | Call(target: Addr)                       // 2NNN
    | SkipEqImm(x: Nibble, nn: bv8)            // 3XNN
    | SkipNeImm(x: Nibble, nn: bv8)            // 4XNN
    | SkipEqReg(x: Nibble, y: Nibble)          // 5XY0
    | SetImm(x: Nibble, nn: bv8)               // 6XNN
    | AddImm(x: Nibble, nn: bv8)               // 7XNN
    | Arith(op: AluOp, x: Nibble, y: Nibble)   // 8XY0..8XY7, 8XYE
    | SkipNeReg(x: Nibble, y: Nibble)          // 9XY0
    | SetIndex(target: Addr)                   // ANNN
    | JumpOffset(target: Addr)                 // BNNN
    | Random(x: Nibble, nn: bv8)               // CXNN
    | Draw(x: Nibble, y: Nibble, n: Nibble)    // DXYN
    | SkipKey(x: Nibble)                       // EX9E
    | SkipNoKey(x: Nibble)                     // EXA1
    | ReadDelay(x: Nibble)                     // FX07
    | WaitKey(x: Nibble)                       // FX0A
    | SetDelay(x: Nibble)                      // FX15
    | SetSound(x: Nibble)                      // FX18
    | AddIndex(x: Nibble)                      // FX1E
    | FontChar(x: Nibble)                      // FX29
    | StoreBcd(x: Nibble)                      // FX33
    | StoreRegs(x: Nibble)                     // FX55
    | LoadRegs(x: Nibble)                      // FX65
    | Unsupported

  /** The switch: on the leading digit first, then on the address (group 0),
      the low digit (groups 5, 8, 9) or the low byte (groups E, F). */
  function Decode(op: bv16): Instr
  {
    DecodeFields(Split(op))
  }

  function DecodeFields(f: Fields): Instr
  {
    match f.d1
    case 0x0 => DecodeSystem(f)
    case 0x1 => Jump(AddressOf(f))
    case 0x2 => Call(AddressOf(f))
    case 0x3 => SkipEqImm(f.x, ByteOf(f))
    case 0x4 => SkipNeImm(f.x, ByteOf(f))
    case 0x5 => if f.n != 0 then Unsupported else SkipEqReg(f.x, f.y)
    case 0x6 => SetImm(f.x, ByteOf(f))
    case 0x7 => AddImm(f.x, ByteOf(f))
    case 0x8 => if IsAluCode(f.n) then Arith(AluOpOf(f.n), f.x, f.y) else Unsupported
    case 0x9 => if f.n != 0 then Unsupported else SkipNeReg(f.x, f.y)
    case 0xA => SetIndex(AddressOf(f))
    case 0xB => JumpOffset(AddressOf(f))
    case 0xC => Random(f.x, ByteOf(f))
    case 0xD => Draw(f.x, f.y, f.n)
    case 0xE => DecodeKey(f)
    case _ => DecodeMisc(f)
  }

  /** The low byte NN and the address NNN of an opcode's digits. */
  function ByteOf(f: Fields): bv8 { Byte(f.y, f.n) }
  function AddressOf(f: Fields): Addr { Addr12(f.x, f.y, f.n) }

  /** Group 0: only 00E0 and 00EE; any other 0NNN is rejected. */
  function DecodeSystem(f: Fields): Instr
  {
    if f.x == 0 && f.y == 0xE && f.n == 0x0 then ClearScreen
    else if f.x == 0 && f.y == 0xE && f.n == 0xE then Return
    else Unsupported
  }

  /** Group E, selected by the low byte 9E or A1. */
  function DecodeKey(f: Fields): Instr
  {
    if f.y == 0x9 && f.n == 0xE then SkipKey(f.x)
    else if f.y == 0xA && f.n == 0x1 then SkipNoKey(f.x)
    else Unsupported
  }

  /** Group F, selected by the low byte (third digit first, then fourth). */
  function DecodeMisc(f: Fields): Instr
  {
    if f.y == 0x0 then
      (if f.n == 0x7 then ReadDelay(f.x) else if f.n == 0xA then WaitKey(f.x) else Unsupported)
    else if f.y == 0x1 then
      (if f.n == 0x5 then SetDelay(f.x) else if f.n == 0x8 then SetSound(f.x)
       else if f.n == 0xE then AddIndex(f.x) else Unsupported)
    else if f.y == 0x2 then (if f.n == 0x9 then FontChar(f.x) else Unsupported)
    else if f.y == 0x3 then (if f.n == 0x3 then StoreBcd(f.x) else Unsupported)
    else if f.y == 0x5 then (if f.n == 0x5 then StoreRegs(f.x) else Unsupported)
    else if f.y == 0x6 then (if f.n == 0x5 then LoadRegs(f.x) else Unsupported)
    else Unsupported
  }

  /** The canonical opcode of an instruction (the inverse of Decode). */
  function Encode(i: Instr): bv16
  {
    Join(EncodeFields(i))
  }

  function EncodeFields(i: Instr): Fields
  {
    match i
    case ClearScreen => Fields(0x0, 0x0, 0xE, 0x0)
    case Return => Fields(0x0, 0x0, 0xE, 0xE)
    case Jump(t) => AddrForm(0x1, t)
    case Call(t) => AddrForm(0x2, t)
    case SkipEqImm(x, nn) => ByteForm(0x3, x, nn)
    case SkipNeImm(x, nn) => ByteForm(0x4, x, nn)
    case SkipEqReg(x, y) => Fields(0x5, x, y, 0x0)
    case SetImm(x, nn) => ByteForm(0x6, x, nn)
    case AddImm(x, nn) => ByteForm(0x7, x, nn)
    case Arith(k, x, y) => Fields(0x8, x, y, AluCode(k))
    case SkipNeReg(x, y) => Fields(0x9, x, y, 0x0)
    case SetIndex(t) => AddrForm(0xA, t)
    case JumpOffset(t) => AddrForm(0xB, t)
    case Random(x, nn) => ByteForm(0xC, x, nn)
    case Draw(x, y, n) => Fields(0xD, x, y, n)
    case SkipKey(x) => Fields(0xE, x, 0x9, 0xE)
    case SkipNoKey(x) => Fields(0xE, x, 0xA, 0x1)
    case ReadDelay(x) => Fields(0xF, x, 0x0, 0x7)
    case WaitKey(x) => Fields(0xF, x, 0x0, 0xA)
    case SetDelay(x) => Fields(0xF, x, 0x1, 0x5)
    case SetSound(x) => Fields(0xF, x, 0x1, 0x8)
    case AddIndex(x) => Fields(0xF, x, 0x1, 0xE)
    case FontChar(x) => Fields(0xF, x, 0x2, 0x9)
    case StoreBcd(x) => Fields(0xF, x, 0x3, 0x3)
    case StoreRegs(x) => Fields(0xF, x, 0x5, 0x5)
    case LoadRegs(x) => Fields(0xF, x, 0x6, 0x5)
    case Unsupported => Fields(0x0, 0x0, 0x0, 0x0)
  }

  function AddrForm(d1: Nibble, t: Addr): Fields
  {
    Fields(d1, AddrHigh(t), AddrMid(t), AddrLow(t))
  }

  function ByteForm(d1: Nibble, x: Nibble, nn: bv8): Fields
  {
    Fields(d1, x, High(nn), Low(nn))
  }

  /** Every recognised instruction survives encoding and decoding. */
  lemma DecodeEncode(i: Instr)
    requires i != Unsupported
    ensures Decode(Encode(i)) == i
  {
    DecodesFields(i);
    DecodeJoin(EncodeFields(i));
  }

  lemma DecodeJoin(f: Fields)
    ensures Decode(Join(f)) == DecodeFields(f)
  {
    SplitJoin(f);
  }

  lemma DecodesFields(i: Instr)
    requires i != Unsupported
    ensures DecodeFields(EncodeFields(i)) == i
  {
    match i
    case ClearScreen => DecodesClearScreen();
    case Return => DecodesReturn();
    case Jump(t) => DecodesJump(t);
    case Call(t) => DecodesCall(t);
    case SkipEqImm(x, nn) => DecodesSkipEqImm(x, nn);
    case SkipNeImm(x, nn) => DecodesSkipNeImm(x, nn);
    case SkipEqReg(x, y) => DecodesSkipEqReg(x, y);
    case SetImm(x, nn) => DecodesSetImm(x, nn);
    case AddImm(x, nn) => DecodesAddImm(x, nn);
    case Arith(k, x, y) => DecodesArith(k, x, y);
    case SkipNeReg(x, y) => DecodesSkipNeReg(x, y);
    case SetIndex(t) => DecodesSetIndex(t);
    case JumpOffset(t) => DecodesJumpOffset(t);
    case Random(x, nn) => DecodesRandom(x, nn);
    case Draw(x, y, n) => DecodesDraw(x, y, n);
    case SkipKey(x) => DecodesSkipKey(x);
    case SkipNoKey(x) => DecodesSkipNoKey(x);
    case ReadDelay(x) => DecodesReadDelay(x);
    case WaitKey(x) => DecodesWaitKey(x);
    case SetDelay(x) => DecodesSetDelay(x);
    case SetSound(x) => DecodesSetSound(x);
    case AddIndex(x) => DecodesAddIndex(x);
    case FontChar(x) => DecodesFontChar(x);
    case StoreBcd(x) => DecodesStoreBcd(x);
    case StoreRegs(x) => DecodesStoreRegs(x);
    case LoadRegs(x) => DecodesLoadRegs(x);
  }

  /** One lemma per instruction keeps each case analysis small. */
  lemma DecodesClearScreen()
    ensures DecodeFields(EncodeFields(ClearScreen)) == ClearScreen
  {
  }

  lemma DecodesReturn()
    ensures DecodeFields(EncodeFields(Return)) == Return
  {
  }

  lemma DecodesJump(t: Addr)
    ensures DecodeFields(EncodeFields(Jump(t))) == Jump(t)
  {
    AddrParts(t);
  }

  lemma DecodesCall(t: Addr)
    ensures DecodeFields(EncodeFields(Call(t))) == Call(t)
  {
    AddrParts(t);
  }

  lemma DecodesSkipEqImm(x: Nibble, nn: bv8)
    ensures DecodeFields(EncodeFields(SkipEqImm(x, nn))) == SkipEqImm(x, nn)
  {
    ByteParts(nn);
  }

  lemma DecodesSkipNeImm(x: Nibble, nn: bv8)
    ensures DecodeFields(EncodeFields(SkipNeImm(x, nn))) == SkipNeImm(x, nn)
  {
    ByteParts(nn);
  }

  lemma DecodesSkipEqReg(x: Nibble, y: Nibble)
    ensures DecodeFields(EncodeFields(SkipEqReg(x, y))) == SkipEqReg(x, y)
  {
  }

  lemma DecodesSetImm(x: Nibble, nn: bv8)
    ensures DecodeFields(EncodeFields(SetImm(x, nn))) == SetImm(x, nn)
  {
    ByteParts(nn);
  }

  lemma DecodesAddImm(x: Nibble, nn: bv8)
    ensures DecodeFields(EncodeFields(AddImm(x, nn))) == AddImm(x, nn)
  {
    ByteParts(nn);
  }

  lemma DecodesArith(k: AluOp, x: Nibble, y: Nibble)
    ensures DecodeFields(EncodeFields(Arith(k, x, y))) == Arith(k, x, y)
  {
    AluCodeRoundTrip(k);
  }

  lemma DecodesSkipNeReg(x: Nibble, y: Nibble)
    ensures DecodeFields(EncodeFields(SkipNeReg(x, y))) == SkipNeReg(x, y)
  {
  }

  lemma DecodesSetIndex(t: Addr)
    ensures DecodeFields(EncodeFields(SetIndex(t))) == SetIndex(t)
  {
    AddrParts(t);
  }

  lemma DecodesJumpOffset(t: Addr)
    ensures DecodeFields(EncodeFields(JumpOffset(t))) == JumpOffset(t)
  {
    AddrParts(t);
  }

  lemma DecodesRandom(x: Nibble, nn: bv8)
    ensures DecodeFields(EncodeFields(Random(x, nn))) == Random(x, nn)
  {
    ByteParts(nn);
  }

  lemma DecodesDraw(x: Nibble, y: Nibble, n: Nibble)
    ensures DecodeFields(EncodeFields(Draw(x, y, n))) == Draw(x, y, n)
  {
  }

  lemma DecodesSkipKey(x: Nibble)
    ensures DecodeFields(EncodeFields(SkipKey(x))) == SkipKey(x)
  {
  }

  lemma DecodesSkipNoKey(x: Nibble)
    ensures DecodeFields(EncodeFields(SkipNoKey(x))) == SkipNoKey(x)
  {
  }

  lemma DecodesReadDelay(x: Nibble)
    ensures DecodeFields(EncodeFields(ReadDelay(x))) == ReadDelay(x)
  {
    assert DecodeMisc(Fields(0xF, x, 0x0, 0x7)) == ReadDelay(x);
  }

  lemma DecodesWaitKey(x: Nibble)
    ensures DecodeFields(EncodeFields(WaitKey(x))) == WaitKey(x)
  {
    assert DecodeMisc(Fields(0xF, x, 0x0, 0xA)) == WaitKey(x);
  }

  lemma DecodesSetDelay(x: Nibble)
    ensures DecodeFields(EncodeFields(SetDelay(x))) == SetDelay(x)
  {
    assert DecodeMisc(Fields(0xF, x, 0x1, 0x5)) == SetDelay(x);
  }

  lemma DecodesSetSound(x: Nibble)
    ensures DecodeFields(EncodeFields(SetSound(x))) == SetSound(x)
  {
    assert DecodeMisc(Fields(0xF, x, 0x1, 0x8)) == SetSound(x);
  }

  lemma DecodesAddIndex(x: Nibble)
    ensures DecodeFields(EncodeFields(AddIndex(x))) == AddIndex(x)
  {
    assert DecodeMisc(Fields(0xF, x, 0x1, 0xE)) == AddIndex(x);
  }

  lemma DecodesFontChar(x: Nibble)
    ensures DecodeFields(EncodeFields(FontChar(x))) == FontChar(x)
  {
    assert DecodeMisc(Fields(0xF, x, 0x2, 0x9)) == FontChar(x);
  }

  lemma DecodesStoreBcd(x: Nibble)
    ensures DecodeFields(EncodeFields(StoreBcd(x))) == StoreBcd(x)
  {
    assert DecodeMisc(Fields(0xF, x, 0x3, 0x3)) == StoreBcd(x);
  }

  lemma DecodesStoreRegs(x: Nibble)
    ensures DecodeFields(EncodeFields(StoreRegs(x))) == StoreRegs(x)
  {
    assert DecodeMisc(Fields(0xF, x, 0x5, 0x5)) == StoreRegs(x);
  }

  lemma DecodesLoadRegs(x: Nibble)
    ensures DecodeFields(EncodeFields(LoadRegs(x))) == LoadRegs(x)
  {
    assert DecodeMisc(Fields(0xF, x, 0x6, 0x5)) == LoadRegs(x);
  }

  /** Every opcode the switch accepts is the canonical encoding of what it
      decodes to: decoding loses no bit of a recognised opcode. */
  lemma EncodeDecode(op: bv16)
    requires Decode(op) != Unsupported
    ensures Encode(Decode(op)) == op
  {
    FieldsCanonical(Split(op));
    JoinSplit(op);
  }

  lemma FieldsCanonical(f: Fields)
    requires DecodeFields(f) != Unsupported
    ensures EncodeFields(DecodeFields(f)) == f
  {
    if f.d1 == 0x1 || f.d1 == 0x2 || f.d1 == 0xA || f.d1 == 0xB {
      PartsAddr(f.x, f.y, f.n);
      CanonicalAddr(f);
    } else if f.d1 == 0x3 || f.d1 == 0x4 || f.d1 == 0x6 || f.d1 == 0x7 || f.d1 == 0xC {
      PartsByte(f.y, f.n);
      CanonicalByte(f);
    } else if f.d1 == 0x5 || f.d1 == 0x8 || f.d1 == 0x9 || f.d1 == 0xD {
      CanonicalRegs(f);
    } else if f.d1 == 0x0 {
      CanonicalSystem(f);
    } else if f.d1 == 0xE {
      CanonicalKey(f);
    } else {
      assert DecodeFields(f) == DecodeMisc(f);
      CanonicalMisc(f);
    }
  }

  lemma CanonicalAddr(f: Fields)
    requires f.d1 == 0x1 || f.d1 == 0x2 || f.d1 == 0xA || f.d1 == 0xB
    requires AddrHigh(Addr12(f.x, f.y, f.n)) == f.x && AddrMid(Addr12(f.x, f.y, f.n)) == f.y
    requires AddrLow(Addr12(f.x, f.y, f.n)) == f.n
    ensures EncodeFields(DecodeFields(f)) == f
  {
  }

  lemma CanonicalByte(f: Fields)
    requires f.d1 == 0x3 || f.d1 == 0x4 || f.d1 == 0x6 || f.d1 == 0x7 || f.d1 == 0xC
    requires High(Byte(f.y, f.n)) == f.y && Low(Byte(f.y, f.n)) == f.n
    ensures EncodeFields(DecodeFields(f)) == f
  {
  }

  lemma CanonicalSystem(f: Fields)
    requires f.d1 == 0x0 && DecodeFields(f) != Unsupported
    ensures EncodeFields(DecodeFields(f)) == f
  {
    assert DecodeFields(f) == DecodeSystem(f);
  }

  lemma CanonicalKey(f: Fields)
    requires f.d1 == 0xE && DecodeFields(f) != Unsupported
    ensures EncodeFields(DecodeFields(f)) == f
  {
    assert DecodeFields(f) == DecodeKey(f);
  }

  lemma CanonicalRegs(f: Fields)
    requires f.d1 == 0x5 || f.d1 == 0x8 || f.d1 == 0x9 || f.d1 == 0xD
    requires DecodeFields(f) != Unsupported
    ensures EncodeFields(DecodeFields(f)) == f
  {
  }

  /** Group F, split on the third digit to keep each case analysis small. */
  lemma CanonicalMisc(f: Fields)
    requires f.d1 == 0xF && DecodeMisc(f) != Unsupported
    ensures EncodeFields(DecodeMisc(f)) == f
  {
    if f.y == 0x0 {
      CanonicalMiscLow(f);
    } else if f.y == 0x1 {
      CanonicalMiscTimers(f);
    } else {
      CanonicalMiscMemory(f);
    }
  }

  lemma CanonicalMiscLow(f: Fields)
    requires f.d1 == 0xF && f.y == 0x0 && DecodeMisc(f) != Unsupported
    ensures EncodeFields(DecodeMisc(f)) == f
  {
  }

  lemma CanonicalMiscTimers(f: Fields)
    requires f.d1 == 0xF && f.y == 0x1 && DecodeMisc(f) != Unsupported
    ensures EncodeFields(DecodeMisc(f)) == f
  {
  }

  lemma CanonicalMiscMemory(f: Fields)
    requires f.d1 == 0xF && 0x2 <= f.y && DecodeMisc(f) != Unsupported
    ensures EncodeFields(DecodeMisc(f)) == f
  {
  }

  /** The opcodes the switch accepts, stated on the selectors the source
      switches on: the leading digit, then the address (group 0), the low
      digit (groups 5, 8 and 9) or the low byte (groups E and F). */
  predicate Implemented(op: bv16)
  {
    Accepts(Digit1(op), Address(op), Digit4(op), Digits3and4(op))
  }

  predicate Accepts(d1: Nibble, address: Addr, low: Nibble, lowByte: bv8)
  {
    match d1
    case 0x0 => address == 0x0E0 || address == 0x0EE
    case 0x5 => low == 0x0
    case 0x8 => low <= 0x7 || low == 0xE
    case 0x9 => low == 0x0
    case 0xE => lowByte == 0x9E || lowByte == 0xA1
    case 0xF => lowByte in {0x07, 0x0A, 0x15, 0x18, 0x1E, 0x29, 0x33, 0x55, 0x65}
    case _ => true
  }

  /** Decoding rejects exactly the opcodes the switch falls through on. */
  lemma DecodeImplemented(op: bv16)
    ensures Decode(op) != Unsupported <==> Implemented(op)
  {
    FieldHelpers(op);
    FieldsAccepted(Split(op), Address(op), Digits3and4(op));
  }

  lemma FieldsAccepted(f: Fields, address: Addr, lowByte: bv8)
    requires address == Addr12(f.x, f.y, f.n) && lowByte == Byte(f.y, f.n)
    ensures DecodeFields(f) != Unsupported <==> Accepts(f.d1, address, f.n, lowByte)
  {
    if f.d1 == 0x0 {
      PartsAddr(f.x, f.y, f.n);
      SystemImplemented(f);
    } else if f.d1 == 0xE {
      PartsByte(f.y, f.n);
      KeyImplemented(f);
    } else if f.d1 == 0xF {
      PartsByte(f.y, f.n);
      MiscImplemented(f);
    } else {
      OthersImplemented(f, address, lowByte);
    }
  }

  lemma OthersImplemented(f: Fields, address: Addr, lowByte: bv8)
    requires f.d1 != 0x0 && f.d1 != 0xE && f.d1 != 0xF
    ensures DecodeFields(f) != Unsupported <==> Accepts(f.d1, address, f.n, lowByte)
  {
  }

  lemma SystemImplemented(f: Fields)
    requires f.d1 == 0x0
    requires AddrHigh(Addr12(f.x, f.y, f.n)) == f.x && AddrMid(Addr12(f.x, f.y, f.n)) == f.y
    requires AddrLow(Addr12(f.x, f.y, f.n)) == f.n
    ensures DecodeFields(f) != Unsupported <==>
      Addr12(f.x, f.y, f.n) == 0x0E0 || Addr12(f.x, f.y, f.n) == 0x0EE
  {
    assert DecodeFields(f) == DecodeSystem(f);
  }

  lemma KeyImplemented(f: Fields)
    requires f.d1 == 0xE
    requires High(Byte(f.y, f.n)) == f.y && Low(Byte(f.y, f.n)) == f.n
    ensures DecodeFields(f) != Unsupported <==> Byte(f.y, f.n) == 0x9E || Byte(f.y, f.n) == 0xA1
  {
    assert DecodeFields(f) == DecodeKey(f);
  }

  lemma MiscImplemented(f: Fields)
    requires f.d1 == 0xF
    requires High(Byte(f.y, f.n)) == f.y && Low(Byte(f.y, f.n)) == f.n
    ensures DecodeFields(f) != Unsupported <==>
      Byte(f.y, f.n) in {0x07, 0x0A, 0x15, 0x18, 0x1E, 0x29, 0x33, 0x55, 0x65}
  {
    assert DecodeFields(f) == DecodeMisc(f);
    if f.y <= 0x1 {
      MiscTimersImplemented(f);
    } else {
      MiscMemoryImplemented(f);
    }
  }

  lemma MiscTimersImplemented(f: Fields)
    requires f.d1 == 0xF && f.y <= 0x1
    requires High(Byte(f.y, f.n)) == f.y && Low(Byte(f.y, f.n)) == f.n
    ensures DecodeMisc(f) != Unsupported <==>
      Byte(f.y, f.n) in {0x07, 0x0A, 0x15, 0x18, 0x1E, 0x29, 0x33, 0x55, 0x65}
  {
  }

  lemma MiscMemoryImplemented(f: Fields)
    requires f.d1 == 0xF && 0x2 <= f.y
    requires High(Byte(f.y, f.n)) == f.y && Low(Byte(f.y, f.n)) == f.n
    ensures DecodeMisc(f) != Unsupported <==>
      Byte(f.y, f.n) in {0x07, 0x0A, 0x15, 0x18, 0x1E, 0x29, 0x33, 0x55, 0x65}
  {
  }
}
