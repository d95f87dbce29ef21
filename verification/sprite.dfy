/**
  DXYN of the newer engine (src/Chip8.cpp): a sprite of up to fifteen rows
  is XOR-ed into the 256-byte packed framebuffer. A row starting on a byte
  boundary touches one byte; any other row is split over two neighbouring
  bytes. Rows wrap from the bottom to the top of the screen, and the right
  half of a row that starts in the last byte column wraps to the first
  column of the same row.

  The drawing is described as the list of byte writes it performs, applied
  in order by Blit. Because the sprite comes from memory and the framebuffer
  is a separate array, the list depends only on the sprite bytes and the
  coordinates.
 */
module Sprite {
  import opened Layout

  /** The newer engine's collision test `temp & ~new`, where `new` is
      `temp ^ bits`: it holds exactly when the sprite covers a lit pixel,
      i.e. when the XOR switched a pixel off. */
  function Erases(before: bv8, bits: bv8): (e: bool)
    ensures e <==> Covers(before, bits)
  {
    before & !(before ^ bits) != 0
  }

  /** The byte `(xByte + y * 8 + i * 8) % 256`: column xByte of screen row
      y + i, counted modulo the 32 rows. */
  function RowByte(xByte: int, y: int, i: int): (loc: int)
    requires 0 <= xByte < ScreenWidthBytes && 0 <= y && 0 <= i
    ensures 0 <= loc < ScreenSize
    ensures loc == ((y + i) % ScreenHeight) * ScreenWidthBytes + xByte
  {
    (xByte + y * ScreenWidthBytes + i * ScreenWidthBytes) % ScreenSize
  }

  /** The byte holding the right half of an unaligned row: `loc + 1`, or
      `loc + 1 - 8` when xByte is the last column. It is the next column of
      the same row, counted modulo the 8 columns. */
  function NextByte(xByte: int, y: int, i: int): (loc: int)
    requires 0 <= xByte < ScreenWidthBytes && 0 <= y && 0 <= i
    ensures 0 <= loc < ScreenSize
    ensures loc == ((y + i) % ScreenHeight) * ScreenWidthBytes + (xByte + 1) % ScreenWidthBytes
  {
    var first := RowByte(xByte, y, i);
    if xByte < 7 then first + 1 else first + 1 - 8
  }

  /** `s >> xBit` and `s << (8 - xBit)`: the two halves of a sprite row that
      starts xBit pixels into a byte. */
  function LeftHalf(s: bv8, xBit: int): bv8
    requires 0 < xBit < 8
  {
    s >> xBit
  }

  function RightHalf(s: bv8, xBit: int): bv8
    requires 0 < xBit < 8
  {
    s << (8 - xBit)
  }

  /** Together the two halves are the sprite row moved xBit pixels to the
      right inside a 16-pixel window: no pixel is lost or duplicated. */
  lemma HalvesSpreadRow(s: bv8, xBit: int)
    requires 0 < xBit < 8
    ensures ((LeftHalf(s, xBit) as bv16) << 8) | RightHalf(s, xBit) as bv16 == (s as bv16) << (8 - xBit)
  {
    if xBit < 4 {
      assert xBit == 1 || xBit == 2 || xBit == 3;
    } else {
      assert xBit == 4 || xBit == 5 || xBit == 6 || xBit == 7;
    }
  }

  /** One byte of the framebuffer XOR-ed with `bits`. */
  datatype Write = Write(loc: int, bits: bv8)

  predicate OnScreen(ws: seq<Write>)
  {
    forall k :: 0 <= k < |ws| ==> 0 <= ws[k].loc < ScreenSize
  }

  /** No byte is written twice. */
  predicate Distinct(ws: seq<Write>)
  {
    forall k, l :: 0 <= k < l < |ws| ==> ws[k].loc != ws[l].loc
  }

  /** The writes of a sprite whose top-left pixel is (x, y), in the order the
      source's loops perform them: row by row, and for a split row the left
      byte before the right one. */
  function SpriteWrites(sprite: seq<bv8>, x: int, y: int): (ws: seq<Write>)
    requires 0 <= x < ScreenWidth && 0 <= y < ScreenHeight
    ensures OnScreen(ws)
  {
    var xByte, xBit := x / 8, x % 8;
    if xBit == 0 then
      seq(|sprite|, i requires 0 <= i < |sprite| => Write(RowByte(xByte, y, i), sprite[i]))
    else
      seq(2 * |sprite|, k requires 0 <= k < 2 * |sprite| =>
        if k % 2 == 0 then Write(RowByte(xByte, y, k / 2), LeftHalf(sprite[k / 2], xBit))
        else Write(NextByte(xByte, y, k / 2), RightHalf(sprite[k / 2], xBit)))
  }

  /** Two different rows of a sprite of at most sixteen rows land on
      different screen rows, even when the sprite wraps vertically. */
  lemma RowsDiffer(y: int, i: int, j: int)
    requires 0 <= y && 0 <= i < 16 && 0 <= j < 16 && i != j
    ensures (y + i) % ScreenHeight != (y + j) % ScreenHeight
  {
  }

  /** Distinct (row, column) cells are distinct bytes. */
  lemma CellsDiffer(r1: int, c1: int, r2: int, c2: int)
    requires 0 <= c1 < ScreenWidthBytes && 0 <= c2 < ScreenWidthBytes && (r1 != r2 || c1 != c2)
    ensures r1 * ScreenWidthBytes + c1 != r2 * ScreenWidthBytes + c2
  {
  }

  /** A sprite from a 4-bit height never writes a byte twice. */
  lemma SpriteWritesDistinct(sprite: seq<bv8>, x: int, y: int)
    requires 0 <= x < ScreenWidth && 0 <= y < ScreenHeight && |sprite| < 16
    ensures Distinct(SpriteWrites(sprite, x, y))
  {
    var ws := SpriteWrites(sprite, x, y);
    forall k, l | 0 <= k < l < |ws|
      ensures ws[k].loc != ws[l].loc
    {
      if x % 8 == 0 {
        AlignedPair(sprite, x, y, k, l);
      } else {
        UnalignedPair(sprite, x, y, k, l);
      }
    }
  }

  lemma AlignedPair(sprite: seq<bv8>, x: int, y: int, k: int, l: int)
    requires 0 <= x < ScreenWidth && 0 <= y < ScreenHeight && |sprite| < 16 && x % 8 == 0
    requires 0 <= k < l < |SpriteWrites(sprite, x, y)|
    ensures SpriteWrites(sprite, x, y)[k].loc != SpriteWrites(sprite, x, y)[l].loc
  {
    var ws := SpriteWrites(sprite, x, y);
    assert ws[k].loc == ((y + k) % ScreenHeight) * ScreenWidthBytes + x / 8;
    assert ws[l].loc == ((y + l) % ScreenHeight) * ScreenWidthBytes + x / 8;
    RowsDiffer(y, k, l);
    CellsDiffer((y + k) % ScreenHeight, x / 8, (y + l) % ScreenHeight, x / 8);
  }

  lemma UnalignedPair(sprite: seq<bv8>, x: int, y: int, k: int, l: int)
    requires 0 <= x < ScreenWidth && 0 <= y < ScreenHeight && |sprite| < 16 && x % 8 != 0
    requires 0 <= k < l < |SpriteWrites(sprite, x, y)|
    ensures SpriteWrites(sprite, x, y)[k].loc != SpriteWrites(sprite, x, y)[l].loc
  {
    var ws := SpriteWrites(sprite, x, y);
    var xByte := x / 8;
    var ck := if k % 2 == 0 then xByte else (xByte + 1) % ScreenWidthBytes;
    var cl := if l % 2 == 0 then xByte else (xByte + 1) % ScreenWidthBytes;
    assert ws[k].loc == ((y + k / 2) % ScreenHeight) * ScreenWidthBytes + ck;
    assert ws[l].loc == ((y + l / 2) % ScreenHeight) * ScreenWidthBytes + cl;
    if k / 2 != l / 2 {
      RowsDiffer(y, k / 2, l / 2);
    }
    CellsDiffer((y + k / 2) % ScreenHeight, ck, (y + l / 2) % ScreenHeight, cl);
  }

  /** The collision test a drawing loop makes on each byte it writes.
      `Erased`: the sprite bits switched a lit pixel off, as the newer
      engine and the older engine's split rows test it. `LeftLit`: the byte
      still has a lit pixel after the XOR, as the older engine's aligned
      rows test it (`temp & memory[loc]`). */
  datatype Test = Erased | LeftLit

  /** Whether writing `bits` over `before` raises the flag under test `t`. */
  function Hits(t: Test, before: bv8, bits: bv8): bool
  {
    match t
    case Erased => Covers(before, bits)
    case LeftLit => Covers(before, !bits)
  }

  /** Each test agrees with the expression its loop evaluates. */
  lemma HitsAsWritten(t: Test, before: bv8, bits: bv8)
    ensures t == Erased ==> (Hits(t, before, bits) <==> Erases(before, bits))
    ensures t == LeftLit ==> (Hits(t, before, bits) <==> before & (before ^ bits) != 0)
  {
  }

  /** Applying the writes in order. `hit` is what the source leaves in VF:
      whether the test `t` held for any single write on the byte it changed. */
  datatype Blitted = Blitted(gfx: seq<bv8>, hit: bool)

  function Blit(g: seq<bv8>, ws: seq<Write>, t: Test): (r: Blitted)
    requires |g| >= ScreenSize && OnScreen(ws)
    ensures |r.gfx| == |g|
    decreases |ws|
  {
    if ws == [] then Blitted(g, false)
    else
      var w := ws[0];
      var before := g[w.loc];
      var rest := Blit(g[w.loc := before ^ w.bits], ws[1..], t);
      Blitted(rest.gfx, Hits(t, before, w.bits) || rest.hit)
  }

  /** Byte `a` after the writes, starting from `b`, one write at a time. */
  function Replay(b: bv8, ws: seq<Write>, a: int): bv8
    decreases |ws|
  {
    if ws == [] then b else Replay(b ^ Mine(ws[0], a), ws[1..], a)
  }

  /** What one write XORs into byte `a`. */
  function Mine(w: Write, a: int): bv8
  {
    if w.loc == a then w.bits else 0
  }

  /** Everything XOR-ed into byte `a`. */
  function XorAt(ws: seq<Write>, a: int): bv8
    decreases |ws|
  {
    if ws == [] then 0 else Mine(ws[0], a) ^ XorAt(ws[1..], a)
  }

  /** Each byte of the result is the byte replayed on its own. */
  lemma {:induction false} BlitReplays(g: seq<bv8>, ws: seq<Write>, t: Test, a: int)
    requires |g| >= ScreenSize && OnScreen(ws) && 0 <= a < |g|
    ensures Blit(g, ws, t).gfx[a] == Replay(g[a], ws, a)
    decreases |ws|
  {
    if ws != [] {
      var w := ws[0];
      BlitReplays(g[w.loc := g[w.loc] ^ w.bits], ws[1..], t, a);
      BlitReplaysStep(g, ws, t, a);
    }
  }

  lemma BlitReplaysStep(g: seq<bv8>, ws: seq<Write>, t: Test, a: int)
    requires |g| >= ScreenSize && OnScreen(ws) && 0 <= a < |g| && ws != []
    requires var g' := g[ws[0].loc := g[ws[0].loc] ^ ws[0].bits];
      Blit(g', ws[1..], t).gfx[a] == Replay(g'[a], ws[1..], a)
    ensures Blit(g, ws, t).gfx[a] == Replay(g[a], ws, a)
  {
    XorZero(g[a]);
  }

  /** Replaying is XOR-ing in everything written there. */
  lemma {:induction false} ReplayXors(b: bv8, ws: seq<Write>, a: int)
    ensures Replay(b, ws, a) == b ^ XorAt(ws, a)
    decreases |ws|
  {
    if ws == [] {
      XorZero(b);
    } else {
      ReplayXors(b ^ Mine(ws[0], a), ws[1..], a);
      ReplayXorsStep(b, ws, a);
    }
  }

  lemma ReplayXorsStep(b: bv8, ws: seq<Write>, a: int)
    requires ws != []
    requires Replay(b ^ Mine(ws[0], a), ws[1..], a) == (b ^ Mine(ws[0], a)) ^ XorAt(ws[1..], a)
    ensures Replay(b, ws, a) == b ^ XorAt(ws, a)
  {
    XorAssociates(b, Mine(ws[0], a), XorAt(ws[1..], a));
  }

  lemma XorZero(p: bv8)
    ensures p ^ 0 == p
  {
  }

  lemma XorAssociates(p: bv8, q: bv8, r: bv8)
    ensures (p ^ q) ^ r == p ^ (q ^ r)
  {
  }

  lemma XorTwice(p: bv8, q: bv8)
    ensures (p ^ q) ^ q == p
  {
  }

  /** The final contents of every byte: its old value XOR all bits written there. */
  lemma BlitPointwise(g: seq<bv8>, ws: seq<Write>, t: Test, a: int)
    requires |g| >= ScreenSize && OnScreen(ws) && 0 <= a < |g|
    ensures Blit(g, ws, t).gfx[a] == g[a] ^ XorAt(ws, a)
  {
    BlitReplays(g, ws, t, a);
    ReplayXors(g[a], ws, a);
  }

  /** XOR drawing is its own inverse: the same writes applied twice restore
      the framebuffer, whatever either pass tests. */
  lemma BlitTwice(g: seq<bv8>, ws: seq<Write>, t: Test, u: Test)
    requires |g| >= ScreenSize && OnScreen(ws)
    ensures Blit(Blit(g, ws, t).gfx, ws, u).gfx == g
  {
    var once := Blit(g, ws, t).gfx;
    var twice := Blit(once, ws, u).gfx;
    forall a | 0 <= a < |g|
      ensures twice[a] == g[a]
    {
      BlitPointwise(g, ws, t, a);
      BlitPointwise(once, ws, u, a);
      XorTwice(g[a], XorAt(ws, a));
    }
  }

  /** A byte no write names keeps its value. */
  lemma {:induction false} XorAtUntouched(ws: seq<Write>, a: int)
    requires forall k :: 0 <= k < |ws| ==> ws[k].loc != a
    ensures XorAt(ws, a) == 0
    decreases |ws|
  {
    if ws != [] {
      XorAtUntouched(ws[1..], a);
      XorZero(0);
    }
  }

  /** Test `t` holds for some write on the byte as it is in `g`; for
      `Erased`, some write's bits overlap the pixels lit in `g`. */
  predicate Overlaps(g: seq<bv8>, ws: seq<Write>, t: Test)
    requires |g| >= ScreenSize && OnScreen(ws)
  {
    exists k :: 0 <= k < |ws| && Hits(t, g[ws[k].loc], ws[k].bits)
  }

  /** Some pixel lit in `b` is also set in `bits`. */
  predicate Covers(b: bv8, bits: bv8)
  {
    b & bits != 0
  }

  /** When no byte is written twice, the collision flag is set exactly when
      the test holds for some write on the byte as it was before the draw. */
  lemma {:induction false} BlitHit(g: seq<bv8>, ws: seq<Write>, t: Test)
    requires |g| >= ScreenSize && OnScreen(ws) && Distinct(ws)
    ensures Blit(g, ws, t).hit <==> Overlaps(g, ws, t)
    decreases |ws|
  {
    if ws != [] {
      var w := ws[0];
      var g' := g[w.loc := g[w.loc] ^ w.bits];
      BlitHit(g', ws[1..], t);
      OverlapsStep(g, ws, t);
    }
  }

  /** The first write changes only its own byte, which no later write names,
      so the later writes see the bytes they would have seen before it. */
  lemma OverlapsStep(g: seq<bv8>, ws: seq<Write>, t: Test)
    requires |g| >= ScreenSize && OnScreen(ws) && Distinct(ws) && ws != []
    ensures Overlaps(g, ws, t) <==>
      (Hits(t, g[ws[0].loc], ws[0].bits) || Overlaps(g[ws[0].loc := g[ws[0].loc] ^ ws[0].bits], ws[1..], t))
  {
    var g' := g[ws[0].loc := g[ws[0].loc] ^ ws[0].bits];
    LaterBytesKept(g, ws);
    if Overlaps(g', ws[1..], t) {
      OverlapLater(g, ws, t);
    }
    if Overlaps(g, ws, t) && !Hits(t, g[ws[0].loc], ws[0].bits) {
      OverlapEarlier(g, ws, t);
    }
  }

  lemma LaterBytesKept(g: seq<bv8>, ws: seq<Write>)
    requires |g| >= ScreenSize && OnScreen(ws) && Distinct(ws) && ws != []
    ensures var g' := g[ws[0].loc := g[ws[0].loc] ^ ws[0].bits];
      forall k :: 1 <= k < |ws| ==> g'[ws[k].loc] == g[ws[k].loc]
  {
  }

  lemma OverlapLater(g: seq<bv8>, ws: seq<Write>, t: Test)
    requires |g| >= ScreenSize && OnScreen(ws) && ws != []
    requires var g' := g[ws[0].loc := g[ws[0].loc] ^ ws[0].bits];
      forall k :: 1 <= k < |ws| ==> g'[ws[k].loc] == g[ws[k].loc]
    requires Overlaps(g[ws[0].loc := g[ws[0].loc] ^ ws[0].bits], ws[1..], t)
    ensures Overlaps(g, ws, t)
  {
    var g' := g[ws[0].loc := g[ws[0].loc] ^ ws[0].bits];
    var k :| 0 <= k < |ws[1..]| && Hits(t, g'[ws[1..][k].loc], ws[1..][k].bits);
    assert ws[1..][k] == ws[k + 1];
  }

  lemma OverlapEarlier(g: seq<bv8>, ws: seq<Write>, t: Test)
    requires |g| >= ScreenSize && OnScreen(ws) && ws != []
    requires var g' := g[ws[0].loc := g[ws[0].loc] ^ ws[0].bits];
      forall k :: 1 <= k < |ws| ==> g'[ws[k].loc] == g[ws[k].loc]
    requires Overlaps(g, ws, t) && !Hits(t, g[ws[0].loc], ws[0].bits)
    ensures Overlaps(g[ws[0].loc := g[ws[0].loc] ^ ws[0].bits], ws[1..], t)
  {
    var k :| 0 <= k < |ws| && Hits(t, g[ws[k].loc], ws[k].bits);
    assert ws[1..][k - 1] == ws[k];
  }
}
