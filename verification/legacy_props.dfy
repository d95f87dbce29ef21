/**
  The older engine's DXYN: its clipping row loop, written as a list of
  byte writes onto the 256-byte screen in memory, what each screen byte
  ends as, when the collision flag is raised, and that drawing the same
  sprite twice restores the screen.
 */
module Chip8LegacyProperties {
  import opened Layout
  import opened Opcode
  import opened Outcomes
  import Alu
  import Sprite
  import Rom
  import Chip8
  import Chip8Properties
  import opened Chip8Legacy

  // ---------------------------------------------------------------- DXYN

  /** The writes of one sprite row `s` at screen row `row`, as offsets into
      the screen: one byte when aligned, else two, the second dropped in the
      last column. */
  function RowWrites(s: bv8, xByte: int, xBit: int, row: int): (ws: seq<Sprite.Write>)
    requires 0 <= xByte < ScreenWidthBytes && 0 <= xBit < 8 && 0 <= row < ScreenHeight
    ensures Sprite.OnScreen(ws)
    ensures Sprite.Distinct(ws)
  {
    var loc := row * ScreenWidthBytes + xByte;
    if xBit == 0 then [Sprite.Write(loc, s)]
    else if xByte < 7 then [Sprite.Write(loc, Sprite.LeftHalf(s, xBit)), Sprite.Write(loc + 1, Sprite.RightHalf(s, xBit))]
    else [Sprite.Write(loc, Sprite.LeftHalf(s, xBit))]
  }

  /** The writes of sprite rows i.. drawn from screen row y + i down,
      stopping at the bottom of the screen. */
  function ClippedWrites(sprite: seq<bv8>, xByte: int, xBit: int, y: int, i: nat): (ws: seq<Sprite.Write>)
    requires 0 <= xByte < ScreenWidthBytes && 0 <= xBit < 8 && 0 <= y < ScreenHeight
    ensures Sprite.OnScreen(ws)
    decreases |sprite| - i
  {
    if i >= |sprite| || y + i >= ScreenHeight then []
    else RowWrites(sprite[i], xByte, xBit, y + i) + ClippedWrites(sprite, xByte, xBit, y, i + 1)
  }

  /** Writes applied one list after another: the second list starts from the
      first one's result, and the flag is set if either sets it. */
  lemma {:induction false} BlitAppend(g: seq<bv8>, a: seq<Sprite.Write>, b: seq<Sprite.Write>, test: Sprite.Test)
    requires |g| >= ScreenSize && Sprite.OnScreen(a) && Sprite.OnScreen(b)
    ensures Sprite.OnScreen(a + b)
    ensures var first := Sprite.Blit(g, a, test);
      var second := Sprite.Blit(first.gfx, b, test);
      Sprite.Blit(g, a + b, test) == Sprite.Blitted(second.gfx, first.hit || second.hit)
    decreases |a|
  {
    if a != [] {
      var w, t := a[0], a[1..];
      BlitAppend(g[w.loc := g[w.loc] ^ w.bits], t, b, test);
      assert a == [w] + t;
      assert a + b == [w] + (t + b);
      BlitCons(g, w, t, test);
      BlitCons(g, w, t + b, test);
    } else {
      assert a + b == b;
    }
  }

  /** Blit of a list with a first write, unrolled once. */
  lemma BlitCons(g: seq<bv8>, w: Sprite.Write, rest: seq<Sprite.Write>, t: Sprite.Test)
    requires |g| >= ScreenSize && 0 <= w.loc < ScreenSize && Sprite.OnScreen(rest)
    ensures Sprite.OnScreen([w] + rest)
    ensures var r := Sprite.Blit(g[w.loc := g[w.loc] ^ w.bits], rest, t);
      Sprite.Blit(g, [w] + rest, t) == Sprite.Blitted(r.gfx, Sprite.Hits(t, g[w.loc], w.bits) || r.hit)
  {
    var ws := [w] + rest;
    OnScreenAppend([w], rest);
    assert ws[0] == w && ws[1..] == rest;
  }

  /** Two lists of screen writes make one. */
  lemma OnScreenAppend(a: seq<Sprite.Write>, b: seq<Sprite.Write>)
    requires Sprite.OnScreen(a) && Sprite.OnScreen(b)
    ensures Sprite.OnScreen(a + b)
  {
    forall k | 0 <= k < |a + b|
      ensures 0 <= (a + b)[k].loc < ScreenSize
    {
      if k < |a| {
        assert (a + b)[k] == a[k];
      } else {
        assert (a + b)[k] == b[k - |a|];
      }
    }
  }

  /** `after` is `before` with the code part untouched and the screen part
      replaced by the Blit result `b`, whose flag is added to the canvas's. */
  predicate ScreenBlitted(after: Canvas, before: Canvas, b: Sprite.Blitted)
  {
    after.memory[..ScreenStart] == before.memory[..ScreenStart] &&
    after.memory[ScreenStart..] == b.gfx &&
    after.hit == (before.hit || b.hit)
  }

  /** Blit of one write, unrolled. */
  lemma BlitOne(g: seq<bv8>, w: Sprite.Write, t: Sprite.Test)
    requires |g| >= ScreenSize && 0 <= w.loc < ScreenSize
    ensures Sprite.OnScreen([w])
    ensures Sprite.Blit(g, [w], t).gfx == g[w.loc := g[w.loc] ^ w.bits]
    ensures Sprite.Blit(g, [w], t).hit == Sprite.Hits(t, g[w.loc], w.bits)
  {
    assert [w][1..] == [];
  }

  /** XOR-ing one screen byte of memory is a one-write Blit of the screen. */
  lemma XorSplit(c: Canvas, loc: int, s: bv8, t: Sprite.Test)
    requires ScreenStart <= loc < MemorySize
    ensures ScreenBlitted(XorByte(c, loc, s, t), c, Sprite.Blit(c.memory[ScreenStart..], [Sprite.Write(loc - ScreenStart, s)], t))
  {
    BlitOne(c.memory[ScreenStart..], Sprite.Write(loc - ScreenStart, s), t);
  }

  /** Two XORs of neighbouring screen bytes are the two-write Blit. */
  lemma TwoXors(c: Canvas, loc: int, l: bv8, r: bv8, whole: Canvas, ws: seq<Sprite.Write>)
    requires ScreenStart <= loc && loc + 1 < MemorySize
    requires whole == XorByte(XorByte(c, loc, l, Sprite.Erased), loc + 1, r, Sprite.Erased)
    requires ws == [Sprite.Write(loc - ScreenStart, l), Sprite.Write(loc + 1 - ScreenStart, r)]
    ensures Sprite.OnScreen(ws)
    ensures ScreenBlitted(whole, c, Sprite.Blit(c.memory[ScreenStart..], ws, Sprite.Erased))
  {
    var left := XorByte(c, loc, l, Sprite.Erased);
    var w1, w2 := Sprite.Write(loc - ScreenStart, l), Sprite.Write(loc + 1 - ScreenStart, r);
    XorSplit(c, loc, l, Sprite.Erased);
    XorSplit(left, loc + 1, r, Sprite.Erased);
    ChainBlits(c, left, XorByte(left, loc + 1, r, Sprite.Erased), [w1], [w2], whole, ws, Sprite.Erased);
  }

  /** One row of the loop is a Blit of its writes on the screen part of
      memory, provided the sprite byte is read from below the screen. */
  lemma DrawRowBlit(c: Canvas, src: int, xByte: int, xBit: int, row: int, aligned: Sprite.Test)
    requires 0 <= src < ScreenStart && 0 <= xByte < ScreenWidthBytes && 0 <= xBit < 8
    requires 0 <= row < ScreenHeight
    ensures ScreenBlitted(DrawRow(c, src, xByte, xBit, row, aligned), c,
      Sprite.Blit(c.memory[ScreenStart..], RowWrites(c.memory[src], xByte, xBit, row), RowTest(xBit, aligned)))
  {
    if xBit == 0 {
      AlignedRowBlit(c, src, xByte, row, aligned);
    } else if xByte < 7 {
      SplitRowBlit(c, src, xByte, xBit, row, aligned);
    } else {
      LastColumnRowBlit(c, src, xBit, row, aligned);
    }
  }

  lemma AlignedRowBlit(c: Canvas, src: int, xByte: int, row: int, aligned: Sprite.Test)
    requires 0 <= src < ScreenStart && 0 <= xByte < ScreenWidthBytes && 0 <= row < ScreenHeight
    ensures ScreenBlitted(DrawRow(c, src, xByte, 0, row, aligned), c,
      Sprite.Blit(c.memory[ScreenStart..], RowWrites(c.memory[src], xByte, 0, row), aligned))
  {
    var s := c.memory[src];
    var loc := ScreenByte(xByte, row);
    assert RowWrites(s, xByte, 0, row) == [Sprite.Write(loc - ScreenStart, s)];
    XorSplit(c, loc, s, aligned);
  }

  lemma LastColumnRowBlit(c: Canvas, src: int, xBit: int, row: int, aligned: Sprite.Test)
    requires 0 <= src < ScreenStart && 0 < xBit < 8 && 0 <= row < ScreenHeight
    ensures ScreenBlitted(DrawRow(c, src, 7, xBit, row, aligned), c,
      Sprite.Blit(c.memory[ScreenStart..], RowWrites(c.memory[src], 7, xBit, row), Sprite.Erased))
  {
    var l := Sprite.LeftHalf(c.memory[src], xBit);
    var loc := ScreenByte(7, row);
    assert RowWrites(c.memory[src], 7, xBit, row) == [Sprite.Write(loc - ScreenStart, l)];
    XorSplit(c, loc, l, Sprite.Erased);
  }

  lemma SplitRowBlit(c: Canvas, src: int, xByte: int, xBit: int, row: int, aligned: Sprite.Test)
    requires 0 <= src < ScreenStart && 0 <= xByte < 7 && 0 < xBit < 8 && 0 <= row < ScreenHeight
    ensures ScreenBlitted(DrawRow(c, src, xByte, xBit, row, aligned), c,
      Sprite.Blit(c.memory[ScreenStart..], RowWrites(c.memory[src], xByte, xBit, row), Sprite.Erased))
  {
    var s := c.memory[src];
    var l, r := Sprite.LeftHalf(s, xBit), Sprite.RightHalf(s, xBit);
    var loc := ScreenByte(xByte, row);
    var ws := RowWrites(s, xByte, xBit, row);
    assert ws == [Sprite.Write(loc - ScreenStart, l), Sprite.Write(loc + 1 - ScreenStart, r)];
    var left := XorByte(c, loc, l, Sprite.Erased);
    SplitRowUnfold(c, src, xByte, xBit, row, loc, left, aligned);
    assert left.memory[src] == s;
    TwoXors(c, loc, l, r, DrawRow(c, src, xByte, xBit, row, aligned), ws);
  }

  /** A split row is two XORs, the second reading the sprite byte again. */
  lemma SplitRowUnfold(c: Canvas, src: int, xByte: int, xBit: int, row: int, loc: int, left: Canvas, aligned: Sprite.Test)
    requires 0 <= src < ScreenStart && 0 <= xByte < 7 && 0 < xBit < 8 && 0 <= row < ScreenHeight
    requires loc == ScreenByte(xByte, row) && left == XorByte(c, loc, Sprite.LeftHalf(c.memory[src], xBit), Sprite.Erased)
    ensures DrawRow(c, src, xByte, xBit, row, aligned) ==
      XorByte(left, loc + 1, Sprite.RightHalf(left.memory[src], xBit), Sprite.Erased)
  {
  }

  /** Two Blits in a row on the screen part are one Blit of both lists:
      `whole`, equal to `last`, is `c` blitted with `all`, equal to a + b. */
  lemma ChainBlits(c: Canvas, next: Canvas, last: Canvas, a: seq<Sprite.Write>, b: seq<Sprite.Write>,
                   whole: Canvas, all: seq<Sprite.Write>, t: Sprite.Test)
    requires Sprite.OnScreen(a) && Sprite.OnScreen(b) && all == a + b && whole == last
    requires ScreenBlitted(next, c, Sprite.Blit(c.memory[ScreenStart..], a, t))
    requires ScreenBlitted(last, next, Sprite.Blit(next.memory[ScreenStart..], b, t))
    ensures Sprite.OnScreen(all)
    ensures ScreenBlitted(whole, c, Sprite.Blit(c.memory[ScreenStart..], all, t))
  {
    BlitAppend(c.memory[ScreenStart..], a, b, t);
  }

  /** One step of the clipped writes, for a row on screen. */
  lemma ClippedUnfold(sprite: seq<bv8>, xByte: int, xBit: int, y: int, i: nat, s: bv8, row: int)
    requires 0 <= xByte < ScreenWidthBytes && 0 <= xBit < 8 && 0 <= y < ScreenHeight
    requires i < |sprite| && s == sprite[i] && row == y + i < ScreenHeight
    ensures ClippedWrites(sprite, xByte, xBit, y, i) == RowWrites(s, xByte, xBit, row) + ClippedWrites(sprite, xByte, xBit, y, i + 1)
  {
  }

  /** Byte i of a sprite held below the screen, read from memory. */
  lemma SpriteByte(memory: Memory, code: seq<bv8>, index: int, sprite: seq<bv8>, i: nat, src: int)
    requires 0 <= index && index + |sprite| <= ScreenStart && i < |sprite| && src == index + i
    requires memory[..ScreenStart] == code && code[index..index + |sprite|] == sprite
    ensures memory[src] == sprite[i]
  {
    assert memory[src] == code[src] == code[index..index + |sprite|][i];
  }

  /** The row loop from row i on, for a sprite lying below the screen (in
      `code`, the part of memory below the screen), is the Blit of the
      clipped writes on the screen part of memory. */
  lemma {:induction false} DrawRowsBlit(c: Canvas, index: int, xByte: int, xBit: int, y: int,
                                        code: seq<bv8>, sprite: seq<bv8>, i: nat, aligned: Sprite.Test)
    requires 0 <= index && index + |sprite| <= ScreenStart
    requires 0 <= xByte < ScreenWidthBytes && 0 <= xBit < 8 && 0 <= y < ScreenHeight
    requires c.memory[..ScreenStart] == code && code[index..index + |sprite|] == sprite
    ensures DrawRows(c, index, xByte, xBit, y, |sprite|, i, aligned).Next?
    ensures ScreenBlitted(DrawRows(c, index, xByte, xBit, y, |sprite|, i, aligned).m, c,
      Sprite.Blit(c.memory[ScreenStart..], ClippedWrites(sprite, xByte, xBit, y, i), RowTest(xBit, aligned)))
    decreases |sprite| - i
  {
    if i < |sprite| && y + i < ScreenHeight {
      var src, row := index + i, y + i;
      var s := c.memory[src];
      var next := DrawRow(c, src, xByte, xBit, row, aligned);
      SpriteByte(c.memory, code, index, sprite, i, src);
      DrawRowBlit(c, src, xByte, xBit, row, aligned);
      DrawRowsBlit(next, index, xByte, xBit, y, code, sprite, i + 1, aligned);
      ClippedUnfold(sprite, xByte, xBit, y, i, s, row);
      DrawRowsUnfold(c, next, index, xByte, xBit, y, |sprite|, i, src, row, aligned);
      ChainBlits(c, next, DrawRows(next, index, xByte, xBit, y, |sprite|, i + 1, aligned).m,
        RowWrites(s, xByte, xBit, row), ClippedWrites(sprite, xByte, xBit, y, i + 1),
        DrawRows(c, index, xByte, xBit, y, |sprite|, i, aligned).m, ClippedWrites(sprite, xByte, xBit, y, i),
        RowTest(xBit, aligned));
    }
  }

  /** Every clipped write lands at or below row y + i, in the sprite's
      column byte or the one to its right, never wrapping to the left edge;
      no byte is written twice. */
  lemma {:induction false} ClippedShape(sprite: seq<bv8>, xByte: int, xBit: int, y: int, i: nat)
    requires 0 <= xByte < ScreenWidthBytes && 0 <= xBit < 8 && 0 <= y < ScreenHeight
    ensures var ws := ClippedWrites(sprite, xByte, xBit, y, i);
      Sprite.Distinct(ws) &&
      forall k :: 0 <= k < |ws| ==> (y + i) * ScreenWidthBytes <= ws[k].loc && InColumns(ws[k].loc, xByte, xBit)
    decreases |sprite| - i
  {
    if i < |sprite| && y + i < ScreenHeight {
      var row, s := y + i, sprite[i];
      var rw, rest := RowWrites(s, xByte, xBit, row), ClippedWrites(sprite, xByte, xBit, y, i + 1);
      ClippedShape(sprite, xByte, xBit, y, i + 1);
      ClippedUnfold(sprite, xByte, xBit, y, i, s, row);
      RowShape(s, xByte, xBit, row);
      AppendBands(rw, rest, ClippedWrites(sprite, xByte, xBit, y, i),
        row * ScreenWidthBytes, (row + 1) * ScreenWidthBytes, xByte, xBit);
    }
  }

  /** The writes of one row stay in that row and in the sprite's columns. */
  lemma RowShape(s: bv8, xByte: int, xBit: int, row: int)
    requires 0 <= xByte < ScreenWidthBytes && 0 <= xBit < 8 && 0 <= row < ScreenHeight
    ensures var ws := RowWrites(s, xByte, xBit, row);
      forall k :: 0 <= k < |ws| ==>
        row * ScreenWidthBytes <= ws[k].loc < (row + 1) * ScreenWidthBytes && InColumns(ws[k].loc, xByte, xBit)
  {
    ColumnOf(row, xByte);
    if xByte < 7 {
      ColumnOf(row, xByte + 1);
    }
  }

  /** Writes in a band of rows followed by writes below it: still no byte
      written twice, and still in the sprite's columns. */
  lemma AppendBands(a: seq<Sprite.Write>, b: seq<Sprite.Write>, ws: seq<Sprite.Write>, lo: int, mid: int, xByte: int, xBit: int)
    requires Sprite.Distinct(a) && Sprite.Distinct(b) && lo <= mid && ws == a + b
    requires forall k :: 0 <= k < |a| ==> lo <= a[k].loc < mid && InColumns(a[k].loc, xByte, xBit)
    requires forall k :: 0 <= k < |b| ==> mid <= b[k].loc && InColumns(b[k].loc, xByte, xBit)
    ensures Sprite.Distinct(ws)
    ensures forall k :: 0 <= k < |ws| ==> lo <= ws[k].loc && InColumns(ws[k].loc, xByte, xBit)
  {
    forall k, l | 0 <= k < l < |ws|
      ensures ws[k].loc != ws[l].loc
    {
      if l < |a| {
        assert ws[k] == a[k] && ws[l] == a[l];
      } else if k < |a| {
        assert ws[k] == a[k] && ws[l] == b[l - |a|];
      } else {
        assert ws[k] == b[k - |a|] && ws[l] == b[l - |a|];
      }
    }
    forall k | 0 <= k < |ws|
      ensures lo <= ws[k].loc && InColumns(ws[k].loc, xByte, xBit)
    {
      if k >= |a| {
        assert ws[k] == b[k - |a|];
      }
    }
  }

  /** Screen offset `a` lies in column byte xByte, or in the next one when
      the sprite is split across two bytes. */
  predicate InColumns(a: int, xByte: int, xBit: int)
  {
    a % ScreenWidthBytes == xByte || (xBit != 0 && xByte < 7 && a % ScreenWidthBytes == xByte + 1)
  }

  lemma ColumnOf(row: int, col: int)
    requires 0 <= col < ScreenWidthBytes
    ensures (row * ScreenWidthBytes + col) % ScreenWidthBytes == col
  {
  }

  /** A sprite below the screen read from the code part of memory. */
  lemma CodeSlice(memory: Memory, index: nat, n: int)
    requires 0 <= n && index + n <= ScreenStart
    ensures memory[..ScreenStart][index..index + n] == memory[index..index + n]
  {
    var a, b := memory[..ScreenStart][index..index + n], memory[index..index + n];
    forall j | 0 <= j < n
      ensures a[j] == b[j]
    {
      var p := index + j;
      assert a[j] == memory[..ScreenStart][p] == memory[p] == b[j];
    }
  }

  /** The row loop started by DXYN, for a sprite below the screen. */
  lemma SpriteRowsBlit(memory: Memory, index: nat, px: int, py: int, n: int, aligned: Sprite.Test)
    requires 0 <= px < ScreenWidth && 0 <= py < ScreenHeight && 0 <= n && index + n <= ScreenStart
    ensures SpriteRows(memory, index, px, py, n, aligned).Next?
    ensures ScreenBlitted(SpriteRows(memory, index, px, py, n, aligned).m, Canvas(memory, false),
      Sprite.Blit(memory[ScreenStart..], ClippedWrites(memory[index..index + n], px / 8, px % 8, py, 0),
        RowTest(px % 8, aligned)))
  {
    var code, sprite := memory[..ScreenStart], memory[index..index + n];
    CodeSlice(memory, index, n);
    DrawRowsBlit(Canvas(memory, false), index, px / 8, px % 8, py, code, sprite, 0, RowTest(px % 8, aligned));
  }

  // ------------------------------------------------------- DXYN, machine

  /** The writes of a sprite of n bytes from `index`, drawn at pixel
      (px, py) and clipped at the screen's right and bottom edges. */
  function SpriteAt(memory: Memory, index: nat, px: int, py: int, n: int): (ws: seq<Sprite.Write>)
    requires 0 <= px < ScreenWidth && 0 <= py < ScreenHeight && 0 <= n && index + n <= ScreenStart
    ensures Sprite.OnScreen(ws) && Sprite.Distinct(ws)
  {
    ClippedShape(memory[index..index + n], px / 8, px % 8, py, 0);
    ClippedWrites(memory[index..index + n], px / 8, px % 8, py, 0)
  }

  /** The writes of a DXYN whose origin is on the screen. */
  function DrawWrites(v: Registers, memory: Memory, index: nat, x: Nibble, y: Nibble, n: Nibble): (ws: seq<Sprite.Write>)
    requires Chip8Properties.OriginOnScreen(v, x, y) && index + n as int <= ScreenStart
    ensures Sprite.OnScreen(ws) && Sprite.Distinct(ws)
  {
    SpriteAt(memory, index, Chip8Properties.Origin(v, x) as int, Chip8Properties.Origin(v, y) as int, n as int)
  }

  /** Registers with VF written twice: the second value wins. */
  lemma PutTwice(v: Registers, b: bv8, c: bv8)
    ensures Alu.Put(Alu.Put(v, VF, b), VF, c) == Alu.Put(v, VF, c)
  {
  }

  /** DXYN's x coordinate, read from register x, is a multiple of 8: every
      row is drawn into a single byte. */
  predicate AlignedOrigin(v: Registers, x: Nibble)
  {
    Chip8Properties.Origin(v, x) as int % 8 == 0
  }

  /** The test DXYN's rows make for an origin whose x coordinate comes
      from register x. */
  function DrawTest(v: Registers, x: Nibble, aligned: Sprite.Test): Sprite.Test
  {
    if AlignedOrigin(v, x) then aligned else Sprite.Erased
  }

  /** DXYN's effect for an origin (px, py) on the screen and a sprite below
      the screen: memory below the screen kept, the screen blitted, and VF
      the collision flag. */
  lemma DrawingBlit(v: Registers, memory: Memory, index: nat, x: Nibble, y: Nibble, n: Nibble, px: int, py: int,
                    aligned: Sprite.Test)
    requires px == Alu.Put(v, VF, 0)[x] as int < ScreenWidth && py == Alu.Put(v, VF, 0)[y] as int < ScreenHeight
    requires index + n as int <= ScreenStart
    ensures Drawing(v, memory, index, x, y, n, aligned).Next?
    ensures var d := Drawing(v, memory, index, x, y, n, aligned).m;
      var b := Sprite.Blit(memory[ScreenStart..], SpriteAt(memory, index, px, py, n as int), RowTest(px % 8, aligned));
      d.memory[..ScreenStart] == memory[..ScreenStart] && d.memory[ScreenStart..] == b.gfx &&
      d.v == Alu.Put(v, VF, if b.hit then 1 else 0)
  {
    SpriteRowsBlit(memory, index, px, py, n as int, aligned);
    PutTwice(v, 0, 0);
    PutTwice(v, 0, 1);
  }

  /** An on-screen DXYN whose sprite lies below the screen, its aligned
      rows testing `aligned`: the clipped writes are XORed into the screen,
      memory below the screen and every register but VF are kept, and VF
      ends as the flag the writes raise. */
  lemma DrawBlitsWith(m: Machine, x: Nibble, y: Nibble, n: Nibble, aligned: Sprite.Test)
    requires Chip8Properties.OriginOnScreen(m.v, x, y) && m.index as int + n as int <= ScreenStart
    ensures ExecDrawWith(m, x, y, n, aligned).Next?
    ensures var r := ExecDrawWith(m, x, y, n, aligned).m;
      var b := Sprite.Blit(Screen(m), DrawWrites(m.v, m.memory, m.index as int, x, y, n), DrawTest(m.v, x, aligned));
      r.memory[..ScreenStart] == m.memory[..ScreenStart] && Screen(r) == b.gfx &&
      r.v == Alu.Put(m.v, VF, if b.hit then 1 else 0)
  {
    var px, py := Chip8Properties.Origin(m.v, x) as int, Chip8Properties.Origin(m.v, y) as int;
    var i := m.index as int;
    var d := Drawing(m.v, m.memory, i, x, y, n, aligned);
    DrawingBlit(m.v, m.memory, i, x, y, n, px, py, aligned);
    assert ExecDrawWith(m, x, y, n, aligned).m.memory == d.m.memory && ExecDrawWith(m, x, y, n, aligned).m.v == d.m.v;
    assert DrawWrites(m.v, m.memory, i, x, y, n) == SpriteAt(m.memory, i, px, py, n as int);
  }

  /** The program's DXYN on the screen, for a sprite below the screen: the
      screen is blitted with the clipped writes, and VF is the flag they
      raise under the program's tests. */
  lemma DrawBlits(m: Machine, x: Nibble, y: Nibble, n: Nibble)
    requires Chip8Properties.OriginOnScreen(m.v, x, y) && m.index as int + n as int <= ScreenStart
    ensures ExecDraw(m, x, y, n).Next?
    ensures var r := ExecDraw(m, x, y, n).m;
      var b := Sprite.Blit(Screen(m), DrawWrites(m.v, m.memory, m.index as int, x, y, n), DrawTest(m.v, x, Sprite.LeftLit));
      r.memory[..ScreenStart] == m.memory[..ScreenStart] && Screen(r) == b.gfx &&
      r.v == Alu.Put(m.v, VF, if b.hit then 1 else 0)
  {
    DrawBlitsWith(m, x, y, n, Sprite.LeftLit);
  }

  /** Some write's old screen byte has a lit pixel its bits lack. */
  lemma OverlapsLeftLit(g: seq<bv8>, ws: seq<Sprite.Write>)
    requires |g| >= ScreenSize && Sprite.OnScreen(ws)
    ensures Sprite.Overlaps(g, ws, Sprite.LeftLit) <==>
      exists k :: 0 <= k < |ws| && Sprite.Covers(g[ws[k].loc], !ws[k].bits)
  {
  }

  /** Some write's bits cover a lit pixel of its old screen byte. */
  lemma OverlapsErased(g: seq<bv8>, ws: seq<Sprite.Write>)
    requires |g| >= ScreenSize && Sprite.OnScreen(ws)
    ensures Sprite.Overlaps(g, ws, Sprite.Erased) <==>
      exists k :: 0 <= k < |ws| && Sprite.Covers(g[ws[k].loc], ws[k].bits)
  {
  }

  /** The program's collision flag, for a sprite below the screen. With
      V[X] a multiple of 8, VF ends as 1 exactly when some written screen
      byte had a lit pixel the sprite byte lacks; otherwise exactly when
      some sprite bits cover a pixel lit before the draw. */
  lemma DrawCollision(m: Machine, x: Nibble, y: Nibble, n: Nibble)
    requires Chip8Properties.OriginOnScreen(m.v, x, y) && m.index as int + n as int <= ScreenStart
    ensures ExecDraw(m, x, y, n).Next?
    ensures var vf, g := ExecDraw(m, x, y, n).m.v[VF], Screen(m);
      var ws := DrawWrites(m.v, m.memory, m.index as int, x, y, n);
      (vf == 0 || vf == 1) &&
      (AlignedOrigin(m.v, x) ==>
        (vf == 1 <==> exists k :: 0 <= k < |ws| && Sprite.Covers(g[ws[k].loc], !ws[k].bits))) &&
      (!AlignedOrigin(m.v, x) ==>
        (vf == 1 <==> exists k :: 0 <= k < |ws| && Sprite.Covers(g[ws[k].loc], ws[k].bits)))
  {
    var ws, g := DrawWrites(m.v, m.memory, m.index as int, x, y, n), Screen(m);
    var t := DrawTest(m.v, x, Sprite.LeftLit);
    DrawFlag(m, x, y, n, ws, t);
    Sprite.BlitHit(g, ws, t);
    FlagCases(ExecDraw(m, x, y, n).m.v[VF], Sprite.Blit(g, ws, t).hit, g, ws, t, AlignedOrigin(m.v, x));
  }

  /** A flag register set from a Blit's flag, spelled out for each test. */
  lemma FlagCases(vf: bv8, hit: bool, g: seq<bv8>, ws: seq<Sprite.Write>, t: Sprite.Test, aligned: bool)
    requires |g| >= ScreenSize && Sprite.OnScreen(ws)
    requires vf == (if hit then 1 else 0) && (hit <==> Sprite.Overlaps(g, ws, t))
    requires t == if aligned then Sprite.LeftLit else Sprite.Erased
    ensures vf == 0 || vf == 1
    ensures aligned ==> (vf == 1 <==> exists k :: 0 <= k < |ws| && Sprite.Covers(g[ws[k].loc], !ws[k].bits))
    ensures !aligned ==> (vf == 1 <==> exists k :: 0 <= k < |ws| && Sprite.Covers(g[ws[k].loc], ws[k].bits))
  {
    if aligned {
      OverlapsLeftLit(g, ws);
    } else {
      OverlapsErased(g, ws);
    }
  }

  /** VF after the program's DXYN is the flag of the Blit. */
  lemma DrawFlag(m: Machine, x: Nibble, y: Nibble, n: Nibble, ws: seq<Sprite.Write>, t: Sprite.Test)
    requires Chip8Properties.OriginOnScreen(m.v, x, y) && m.index as int + n as int <= ScreenStart
    requires ws == DrawWrites(m.v, m.memory, m.index as int, x, y, n) && t == DrawTest(m.v, x, Sprite.LeftLit)
    ensures ExecDraw(m, x, y, n).Next?
    ensures ExecDraw(m, x, y, n).m.v[VF] == if Sprite.Blit(Screen(m), ws, t).hit then 1 else 0
  {
    DrawBlits(m, x, y, n);
  }

  /** The corrected DXYN's collision flag, in both kinds of row: VF ends as
      1 exactly when some sprite bits cover a pixel lit before the draw,
      i.e. when the draw switched a pixel off, and as 0 otherwise. */
  lemma DrawCollisionIntended(m: Machine, x: Nibble, y: Nibble, n: Nibble)
    requires Chip8Properties.OriginOnScreen(m.v, x, y) && m.index as int + n as int <= ScreenStart
    ensures ExecDrawIntended(m, x, y, n).Next?
    ensures var ws := DrawWrites(m.v, m.memory, m.index as int, x, y, n);
      ExecDrawIntended(m, x, y, n).m.v[VF] ==
        if exists k :: 0 <= k < |ws| && Sprite.Covers(Screen(m)[ws[k].loc], ws[k].bits) then 1 else 0
  {
    var ws := DrawWrites(m.v, m.memory, m.index as int, x, y, n);
    DrawBlitsWith(m, x, y, n, Sprite.Erased);
    assert DrawTest(m.v, x, Sprite.Erased) == Sprite.Erased;
    Sprite.BlitHit(Screen(m), ws, Sprite.Erased);
    OverlapsErased(Screen(m), ws);
  }

  /** Each screen byte ends as its old value XOR every sprite byte written
      there. */
  lemma DrawXors(m: Machine, x: Nibble, y: Nibble, n: Nibble, a: int)
    requires Chip8Properties.OriginOnScreen(m.v, x, y) && m.index as int + n as int <= ScreenStart
    requires 0 <= a < ScreenSize
    ensures ExecDraw(m, x, y, n).Next?
    ensures Screen(ExecDraw(m, x, y, n).m)[a] ==
      Screen(m)[a] ^ Sprite.XorAt(DrawWrites(m.v, m.memory, m.index as int, x, y, n), a)
  {
    DrawBlits(m, x, y, n);
    Sprite.BlitPointwise(Screen(m), DrawWrites(m.v, m.memory, m.index as int, x, y, n), DrawTest(m.v, x, Sprite.LeftLit), a);
  }

  /** A screen byte above the sprite's first row, or outside its one or two
      column bytes, is written by none of its writes. */
  lemma SpriteAtMisses(memory: Memory, index: nat, px: int, py: int, n: int, a: int)
    requires 0 <= px < ScreenWidth && 0 <= py < ScreenHeight && 0 <= n && index + n <= ScreenStart
    requires a < py * ScreenWidthBytes || !InColumns(a, px / 8, px % 8)
    ensures Sprite.XorAt(SpriteAt(memory, index, px, py, n), a) == 0
  {
    ClippedShape(memory[index..index + n], px / 8, px % 8, py, 0);
    Sprite.XorAtUntouched(SpriteAt(memory, index, px, py, n), a);
  }

  /** Clipping instead of wrapping: a screen byte above the sprite's first
      row, or outside its one or two column bytes, is left alone; in
      particular a sprite in the last column byte never reaches column
      byte 0, and one near the bottom never reaches the top rows. */
  lemma DrawClips(m: Machine, x: Nibble, y: Nibble, n: Nibble, a: int)
    requires Chip8Properties.OriginOnScreen(m.v, x, y) && m.index as int + n as int <= ScreenStart
    requires 0 <= a < ScreenSize
    requires var px, py := Chip8Properties.Origin(m.v, x) as int, Chip8Properties.Origin(m.v, y) as int;
      a < py * ScreenWidthBytes || !InColumns(a, px / 8, px % 8)
    ensures ExecDraw(m, x, y, n).Next?
    ensures Screen(ExecDraw(m, x, y, n).m)[a] == Screen(m)[a]
  {
    var px, py := Chip8Properties.Origin(m.v, x) as int, Chip8Properties.Origin(m.v, y) as int;
    SpriteAtMisses(m.memory, m.index as int, px, py, n as int, a);
    assert DrawWrites(m.v, m.memory, m.index as int, x, y, n) == SpriteAt(m.memory, m.index as int, px, py, n as int);
    DrawXors(m, x, y, n, a);
  }

  /** Memories that agree below the screen hold the same sprite there. */
  lemma SameSprite(a: Memory, b: Memory, index: nat, n: int)
    requires a[..ScreenStart] == b[..ScreenStart] && 0 <= n && index + n <= ScreenStart
    ensures a[index..index + n] == b[index..index + n]
  {
    forall j | index <= j < index + n
      ensures a[j] == b[j]
    {
      assert a[j] == a[..ScreenStart][j] && b[j] == b[..ScreenStart][j];
    }
  }

  /** So they give the same writes. */
  lemma SpriteAtBelow(a: Memory, b: Memory, index: nat, px: int, py: int, n: int)
    requires 0 <= px < ScreenWidth && 0 <= py < ScreenHeight && 0 <= n && index + n <= ScreenStart
    requires a[..ScreenStart] == b[..ScreenStart]
    ensures SpriteAt(a, index, px, py, n) == SpriteAt(b, index, px, py, n)
  {
    SameSprite(a, b, index, n);
  }

  /** Memories that agree below the screen and on it are equal. */
  lemma SameMemory(a: Memory, b: Memory)
    requires a[..ScreenStart] == b[..ScreenStart] && a[ScreenStart..] == b[ScreenStart..]
    ensures a == b
  {
    assert a == a[..ScreenStart] + a[ScreenStart..];
    assert b == b[..ScreenStart] + b[ScreenStart..];
  }

  /** Registers that differ at most in VF and memories that agree below the
      screen give DXYN the same origin and the same writes. */
  lemma SameDraw(v: Registers, w: Registers, a: Memory, b: Memory, index: nat, x: Nibble, y: Nibble, n: Nibble)
    requires Chip8Properties.OriginOnScreen(v, x, y) && index + n as int <= ScreenStart
    requires Alu.Put(v, VF, 0) == Alu.Put(w, VF, 0) && a[..ScreenStart] == b[..ScreenStart]
    ensures Chip8Properties.OriginOnScreen(w, x, y)
    ensures Chip8Properties.Origin(w, x) == Chip8Properties.Origin(v, x)
    ensures DrawWrites(w, b, index, x, y, n) == DrawWrites(v, a, index, x, y, n)
  {
    var px, py := Chip8Properties.Origin(v, x) as int, Chip8Properties.Origin(v, y) as int;
    assert Chip8Properties.Origin(w, x) == Chip8Properties.Origin(v, x);
    assert Chip8Properties.Origin(w, y) == Chip8Properties.Origin(v, y);
    SpriteAtBelow(b, a, index, px, py, n as int);
  }

  /** The same DXYN twice in a row restores memory, screen included, as
      long as the sprite is not read from the screen it draws on. */
  lemma DrawTwiceRestores(m: Machine, x: Nibble, y: Nibble, n: Nibble)
    requires Chip8Properties.OriginOnScreen(m.v, x, y) && m.index as int + n as int <= ScreenStart
    ensures ExecDraw(m, x, y, n).Next?
    ensures ExecDraw(ExecDraw(m, x, y, n).m, x, y, n).Next?
    ensures ExecDraw(ExecDraw(m, x, y, n).m, x, y, n).m.memory == m.memory
  {
    var ws := DrawWrites(m.v, m.memory, m.index as int, x, y, n);
    DrawBlits(m, x, y, n);
    var once := ExecDraw(m, x, y, n).m;
    assert once.index == m.index;
    var t := DrawTest(m.v, x, Sprite.LeftLit);
    var h: bv8 := if Sprite.Blit(Screen(m), ws, t).hit then 1 else 0;
    PutTwice(m.v, h, 0);
    SameDraw(m.v, once.v, m.memory, once.memory, m.index as int, x, y, n);
    DrawBlits(once, x, y, n);
    Sprite.BlitTwice(Screen(m), ws, t, t);
    SameMemory(ExecDraw(once, x, y, n).m.memory, m.memory);
  }

  /** The aligned rows' test decides only the flag. From canvases with the
      same memory, the byte-aligned row loop under two tests is defined
      alike and leaves the same memory. */
  lemma {:induction false} AlignedRowsAgree(c: Canvas, d: Canvas, index: int, xByte: int, y: int, h: int, i: nat,
                                            t: Sprite.Test, u: Sprite.Test)
    requires 0 <= index && 0 <= xByte < ScreenWidthBytes && 0 <= y < ScreenHeight
    requires c.memory == d.memory
    ensures DrawRows(c, index, xByte, 0, y, h, i, t).Next? == DrawRows(d, index, xByte, 0, y, h, i, u).Next?
    ensures DrawRows(c, index, xByte, 0, y, h, i, t).Next? ==>
      DrawRows(c, index, xByte, 0, y, h, i, t).m.memory == DrawRows(d, index, xByte, 0, y, h, i, u).m.memory
    decreases h - i
  {
    if i < h && y + i < ScreenHeight && index + i < MemorySize {
      AlignedRowAgree(c, d, index + i, xByte, y + i, t, u);
      AlignedRowsAgree(DrawRow(c, index + i, xByte, 0, y + i, t), DrawRow(d, index + i, xByte, 0, y + i, u),
                       index, xByte, y, h, i + 1, t, u);
    }
  }

  /** One aligned row under two tests writes the same memory. */
  lemma AlignedRowAgree(c: Canvas, d: Canvas, src: int, xByte: int, row: int, t: Sprite.Test, u: Sprite.Test)
    requires 0 <= src < MemorySize && 0 <= xByte < ScreenWidthBytes && 0 <= row < ScreenHeight
    requires c.memory == d.memory
    ensures DrawRow(c, src, xByte, 0, row, t).memory == DrawRow(d, src, xByte, 0, row, u).memory
  {
  }

  /** The same, for DXYN's effect on registers and memory. */
  lemma DrawingAgree(v: Registers, memory: Memory, index: nat, x: Nibble, y: Nibble, n: Nibble)
    ensures var p, q := Drawing(v, memory, index, x, y, n, Sprite.LeftLit), Drawing(v, memory, index, x, y, n, Sprite.Erased);
      p.Next? == q.Next? && (p.Next? ==> p.m.memory == q.m.memory)
    ensures var p, q := Drawing(v, memory, index, x, y, n, Sprite.LeftLit), Drawing(v, memory, index, x, y, n, Sprite.Erased);
      (!Chip8Properties.OriginOnScreen(v, x, y) || !AlignedOrigin(v, x)) && p.Next? ==> p.m.v == q.m.v
  {
    if !Chip8Properties.OriginOnScreen(v, x, y) {
      OffScreenSame(v, memory, index, x, y, n);
    } else if AlignedOrigin(v, x) {
      AlignedDrawingAgree(v, memory, index, x, y, n);
    } else {
      SplitDrawingSame(v, memory, index, x, y, n);
    }
  }

  /** Off the screen, neither test is ever made. */
  lemma OffScreenSame(v: Registers, memory: Memory, index: nat, x: Nibble, y: Nibble, n: Nibble)
    requires !Chip8Properties.OriginOnScreen(v, x, y)
    ensures Drawing(v, memory, index, x, y, n, Sprite.LeftLit) == Drawing(v, memory, index, x, y, n, Sprite.Erased)
  {
  }

  /** At a byte-aligned origin the two draws are defined alike and write the
      same memory. */
  lemma AlignedDrawingAgree(v: Registers, memory: Memory, index: nat, x: Nibble, y: Nibble, n: Nibble)
    requires Chip8Properties.OriginOnScreen(v, x, y) && AlignedOrigin(v, x)
    ensures var p, q := Drawing(v, memory, index, x, y, n, Sprite.LeftLit), Drawing(v, memory, index, x, y, n, Sprite.Erased);
      p.Next? == q.Next? && (p.Next? ==> p.m.memory == q.m.memory)
  {
    var px, py := Alu.Put(v, VF, 0)[x] as int, Alu.Put(v, VF, 0)[y] as int;
    AlignedRowsAgree(Canvas(memory, false), Canvas(memory, false), index, px / 8, py, n as int, 0, Sprite.LeftLit, Sprite.Erased);
    DrawingRows(v, memory, index, x, y, n, px, py, Sprite.LeftLit);
    DrawingRows(v, memory, index, x, y, n, px, py, Sprite.Erased);
  }

  /** At an origin that is not byte-aligned the two draws are the same. */
  lemma SplitDrawingSame(v: Registers, memory: Memory, index: nat, x: Nibble, y: Nibble, n: Nibble)
    requires Chip8Properties.OriginOnScreen(v, x, y) && !AlignedOrigin(v, x)
    ensures var p, q := Drawing(v, memory, index, x, y, n, Sprite.LeftLit), Drawing(v, memory, index, x, y, n, Sprite.Erased);
      p.Next? == q.Next? && (p.Next? ==> p.m.v == q.m.v && p.m.memory == q.m.memory)
  {
    var px, py := Alu.Put(v, VF, 0)[x] as int, Alu.Put(v, VF, 0)[y] as int;
    assert RowTest(px % 8, Sprite.LeftLit) == RowTest(px % 8, Sprite.Erased);
    DrawingRows(v, memory, index, x, y, n, px, py, Sprite.LeftLit);
    DrawingRows(v, memory, index, x, y, n, px, py, Sprite.Erased);
  }

  /** An on-screen DXYN in terms of its row loop. */
  lemma DrawingRows(v: Registers, memory: Memory, index: nat, x: Nibble, y: Nibble, n: Nibble, px: int, py: int,
                    t: Sprite.Test)
    requires px == Alu.Put(v, VF, 0)[x] as int < ScreenWidth && py == Alu.Put(v, VF, 0)[y] as int < ScreenHeight
    ensures var d, rows := Drawing(v, memory, index, x, y, n, t), DrawRows(Canvas(memory, false), index, px / 8, px % 8, py, n as int, 0, RowTest(px % 8, t));
      d.Next? == rows.Next? &&
      (d.Next? ==> d.m.memory == rows.m.memory && d.m.v == Alu.Put(Alu.Put(v, VF, 0), VF, if rows.m.hit then 1 else 0))
  {
  }

  /** The machine-level DXYN is its effect on registers and memory, with pc
      advanced. */
  lemma ExecDrawParts(m: Machine, x: Nibble, y: Nibble, n: Nibble, t: Sprite.Test)
    ensures var d := Drawing(m.v, m.memory, m.index as int, x, y, n, t);
      ExecDrawWith(m, x, y, n, t).Next? == d.Next? &&
      (d.Next? ==> ExecDrawWith(m, x, y, n, t).m.memory == d.m.memory && ExecDrawWith(m, x, y, n, t).m.v == d.m.v)
  {
  }

  /** Equal effects make equal machine steps. */
  lemma ExecDrawSame(m: Machine, x: Nibble, y: Nibble, n: Nibble, t: Sprite.Test, u: Sprite.Test)
    requires var p, q := Drawing(m.v, m.memory, m.index as int, x, y, n, t), Drawing(m.v, m.memory, m.index as int, x, y, n, u);
      p.Next? == q.Next? && (p.Next? ==> p.m.v == q.m.v && p.m.memory == q.m.memory)
    ensures ExecDrawWith(m, x, y, n, t) == ExecDrawWith(m, x, y, n, u)
  {
  }

  /** The program's DXYN and the corrected one differ at most in VF, and
      only for an on-screen origin whose x coordinate is a multiple of 8:
      both are defined alike, write the same memory and keep the other
      registers alike. */
  lemma DrawsAgree(m: Machine, x: Nibble, y: Nibble, n: Nibble)
    ensures ExecDraw(m, x, y, n).Next? <==> ExecDrawIntended(m, x, y, n).Next?
    ensures ExecDraw(m, x, y, n).Next? ==>
      ExecDraw(m, x, y, n).m.memory == ExecDrawIntended(m, x, y, n).m.memory &&
      forall k: Nibble :: k != VF ==> ExecDraw(m, x, y, n).m.v[k] == ExecDrawIntended(m, x, y, n).m.v[k]
    ensures !Chip8Properties.OriginOnScreen(m.v, x, y) || !AlignedOrigin(m.v, x) ==>
      ExecDraw(m, x, y, n) == ExecDrawIntended(m, x, y, n)
  {
    DrawingAgree(m.v, m.memory, m.index as int, x, y, n);
    ExecDrawParts(m, x, y, n, Sprite.LeftLit);
    ExecDrawParts(m, x, y, n, Sprite.Erased);
    if !Chip8Properties.OriginOnScreen(m.v, x, y) || !AlignedOrigin(m.v, x) {
      ExecDrawSame(m, x, y, n, Sprite.LeftLit, Sprite.Erased);
    }
  }

  /** An origin off the screen draws nothing: VF becomes 0 and pc moves on. */
  lemma DrawOffScreen(m: Machine, x: Nibble, y: Nibble, n: Nibble)
    requires !Chip8Properties.OriginOnScreen(m.v, x, y)
    ensures ExecDraw(m, x, y, n) == Next(m.(v := Alu.Put(m.v, VF, 0), pc := m.pc + 2))
  {
  }
}
