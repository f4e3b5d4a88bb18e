/**
 * DXYN stated pixel by pixel: which pixels a sprite toggles, when VF
 * reports a collision, when the instruction completes, and that drawing
 * the same sprite twice leaves the screen as it was. The rows of one
 * sprite lie on distinct lines and the columns of one row on distinct
 * columns, so every pixel is toggled at most once per instruction.
 */
module SpriteProperties {
  import opened Wrappers
  import opened Unsigned
  import opened OpCodes
  import opened Constants
  import opened Exceptions
  import opened ScreenMemory
  import opened Semantics

  /** Whether a set bit among the first c columns of a row drawn at (cx, y) lands on pixel (a, b). */
  predicate LineHits(cx: nat, y: nat, data: Byte, c: nat, a: nat, b: nat)
    requires c <= 8
  {
    c > 0 && (LineHits(cx, y, data, c - 1, a, b) || (SpriteBit(data, c - 1) && (cx + c - 1) % 64 == a && y % 32 == b))
  }

  /** Whether a set bit among the first c columns of a row drawn at (cx, y) lands on a pixel lit in g. */
  predicate LineCollides(g: seq<seq<bool>>, cx: nat, y: nat, data: Byte, c: nat)
    requires IsScreen(g) && c <= 8
  {
    c > 0 && (LineCollides(g, cx, y, data, c - 1) || (SpriteBit(data, c - 1) && g[(cx + c - 1) % 64][y % 32]))
  }

  /** Whether one of the first rows of the sprite stored at address lands on pixel (a, b). */
  predicate RowsHit(memory: seq<Byte>, address: nat, cx: nat, cy: nat, rows: nat, a: nat, b: nat)
    requires address + rows <= |memory|
  {
    rows > 0 &&
    (RowsHit(memory, address, cx, cy, rows - 1, a, b) || LineHits(cx, cy + rows - 1, memory[address + rows - 1], 8, a, b))
  }

  /** Whether one of the first rows of the sprite stored at address lands on a pixel lit in g. */
  predicate RowsCollide(g: seq<seq<bool>>, memory: seq<Byte>, address: nat, cx: nat, cy: nat, rows: nat)
    requires IsScreen(g) && address + rows <= |memory|
  {
    rows > 0 &&
    (RowsCollide(g, memory, address, cx, cy, rows - 1) || LineCollides(g, cx, cy + rows - 1, memory[address + rows - 1], 8))
  }

  // ------------------------------------------------------------ distinct columns and lines

  lemma ColumnsDiffer(u: nat, d: nat)
    requires 0 < d < 64
    ensures u % 64 != (u + d) % 64
  {
  }

  lemma LinesDiffer(u: nat, d: nat)
    requires 0 < d < 32
    ensures u % 32 != (u + d) % 32
  {
  }

  /** A row only hits pixels on its own line. */
  lemma {:induction false} LineHitsOwnLine(cx: nat, y: nat, data: Byte, c: nat, a: nat, b: nat)
    requires c <= 8 && LineHits(cx, y, data, c, a, b)
    ensures b == y % 32
  {
    if !(SpriteBit(data, c - 1) && (cx + c - 1) % 64 == a && y % 32 == b) {
      LineHitsOwnLine(cx, y, data, c - 1, a, b);
    }
  }

  /** The columns before column j never hit the pixel column j lands on. */
  lemma {:induction false} NoEarlierColumn(cx: nat, y: nat, data: Byte, k: nat, j: nat)
    requires k <= j < 8
    ensures !LineHits(cx, y, data, k, (cx + j) % 64, y % 32)
  {
    if k > 0 {
      NoEarlierColumn(cx, y, data, k - 1, j);
      ColumnsDiffer(cx + k - 1, j - k + 1);
    }
  }

  /** The rows before row j never hit a pixel on the line row j is drawn on. */
  lemma {:induction false} NoEarlierRow(memory: seq<Byte>, address: nat, cx: nat, cy: nat, k: nat, j: nat, a: nat)
    requires k <= j < 16 && address + k <= |memory|
    ensures !RowsHit(memory, address, cx, cy, k, a, (cy + j) % 32)
  {
    if k > 0 {
      NoEarlierRow(memory, address, cx, cy, k - 1, j, a);
      LinesDiffer(cy + k - 1, j - k + 1);
      if LineHits(cx, cy + k - 1, memory[address + k - 1], 8, a, (cy + j) % 32) {
        LineHitsOwnLine(cx, cy + k - 1, memory[address + k - 1], 8, a, (cy + j) % 32);
      }
    }
  }

  /** Collisions of a row depend only on the pixels of its own line. */
  lemma {:induction false} LineCollidesOnOwnLine(g: seq<seq<bool>>, h: seq<seq<bool>>, cx: nat, y: nat, data: Byte, c: nat)
    requires IsScreen(g) && IsScreen(h) && c <= 8
    requires forall a :: 0 <= a < 64 ==> g[a][y % 32] == h[a][y % 32]
    ensures LineCollides(g, cx, y, data, c) == LineCollides(h, cx, y, data, c)
  {
    if c > 0 {
      LineCollidesOnOwnLine(g, h, cx, y, data, c - 1);
    }
  }

  // ------------------------------------------------------------ one row, then the sprite

  /**
   * drawLineOfSprite: the pixels the row's set bits land on are toggled,
   * VF becomes 1 exactly when one of them was lit, and nothing else changes.
   */
  lemma {:induction false} DrawLineToggles(m: Machine, cx: nat, y: nat, data: Byte, c: nat)
    requires Valid(m) && c <= 8
    ensures var n := DrawLine(m, cx, y, data, c);
      && n == m.(screen := n.screen, registers := n.registers)
      && (forall a, b :: 0 <= a < 64 && 0 <= b < 32 ==> n.screen[a][b] == (m.screen[a][b] != LineHits(cx, y, data, c, a, b)))
      && V(n, VF) == (if LineCollides(m.screen, cx, y, data, c) then 1 else V(m, VF))
      && forall i: RegisterIndex :: i != VF ==> V(n, i) == V(m, i)
  {
    if c > 0 {
      DrawLineToggles(m, cx, y, data, c - 1);
      var p := DrawLine(m, cx, y, data, c - 1);
      if SpriteBit(data, c - 1) {
        NoEarlierColumn(cx, y, data, c - 1, c - 1);
        var n := FlipPixel(p, cx + c - 1, y);
        assert DrawLine(m, cx, y, data, c) == n;
        forall i: RegisterIndex | i != VF ensures V(n, i) == V(m, i) {
          assert V(p, i) == V(m, i);
        }
      }
    }
  }

  /**
   * The first rows of a sprite inside memory: the pixels its set bits land
   * on are toggled, VF becomes 1 exactly when one of them was lit, and
   * nothing else changes.
   */
  lemma {:induction false} DrawRowsToggle(m: Machine, cx: nat, cy: nat, rows: nat)
    requires Valid(m) && rows <= 16 && m.address + rows <= MemoryLength
    ensures var o := DrawRows(m, cx, cy, rows);
      && o.status == Completed(None)
      && o.machine == m.(screen := o.machine.screen, registers := o.machine.registers)
      && (forall a, b :: 0 <= a < 64 && 0 <= b < 32 ==>
            o.machine.screen[a][b] == (m.screen[a][b] != RowsHit(m.memory, m.address, cx, cy, rows, a, b)))
      && V(o.machine, VF) == (if RowsCollide(m.screen, m.memory, m.address, cx, cy, rows) then 1 else V(m, VF))
      && forall i: RegisterIndex :: i != VF ==> V(o.machine, i) == V(m, i)
  {
    if rows > 0 {
      DrawRowsToggle(m, cx, cy, rows - 1);
      var p := DrawRows(m, cx, cy, rows - 1).machine;
      var y, data := cy + rows - 1, m.memory[m.address + rows - 1];
      assert Offset(p, rows - 1) == m.address + rows - 1;
      assert DrawRows(m, cx, cy, rows) == Done(DrawLine(p, cx, y, data, 8));
      DrawLineToggles(p, cx, y, data, 8);
      var n := DrawLine(p, cx, y, data, 8);
      forall a | 0 <= a < 64 ensures p.screen[a][y % 32] == m.screen[a][y % 32] {
        NoEarlierRow(m.memory, m.address, cx, cy, rows - 1, rows - 1, a);
      }
      LineCollidesOnOwnLine(p.screen, m.screen, cx, y, data, 8);
      forall a, b | 0 <= a < 64 && 0 <= b < 32
        ensures n.screen[a][b] == (m.screen[a][b] != RowsHit(m.memory, m.address, cx, cy, rows, a, b))
      {
        if LineHits(cx, y, data, 8, a, b) {
          LineHitsOwnLine(cx, y, data, 8, a, b);
          NoEarlierRow(m.memory, m.address, cx, cy, rows - 1, rows - 1, a);
        }
      }
      forall i: RegisterIndex | i != VF ensures V(n, i) == V(m, i) {
        assert V(p, i) == V(m, i);
      }
    }
  }

  /** A sprite of up to sixteen rows completes exactly when its rows lie inside memory; otherwise it throws. */
  lemma DrawRowsCompletes(m: Machine, cx: nat, cy: nat, rows: nat)
    requires Valid(m) && rows <= 16
    ensures DrawRows(m, cx, cy, rows).status.Completed? <==> rows == 0 || m.address + rows <= MemoryLength
    ensures !DrawRows(m, cx, cy, rows).status.Completed? ==> DrawRows(m, cx, cy, rows).status == Failed(IndexOutOfBounds)
  {
    if rows > 0 && m.address + rows <= MemoryLength {
      DrawRowsToggle(m, cx, cy, rows);
    } else if rows > 0 {
      if m.address < MemoryLength {
        // Row k, the first outside memory, throws, and so does every longer sprite.
        var k := MemoryLength - m.address;
        DrawRowsToggle(m, cx, cy, k);
        assert Offset(DrawRows(m, cx, cy, k).machine, k) == MemoryLength;
        DrawRowsStaysFailed(m, cx, cy, k + 1, rows);
      } else {
        DrawRowsStaysFailed(m, cx, cy, 1, rows);
      }
    }
  }

  /** The column DXYN draws at: VF is cleared before VX is read, so X = F draws at 0. */
  function Coordinate(m: Machine, x: RegisterIndex): (v: Byte)
    requires Valid(m)
    ensures x != VF ==> v == V(m, x)
  {
    if x == VF then 0 else V(m, x)
  }

  /**
   * DXYN with its rows inside memory: each set bit, most significant first,
   * of row r toggles pixel ((VX + column) mod 64, (VY + r) mod 32); VF is 1
   * exactly when one of those pixels was lit, and 0 otherwise.
   */
  lemma DrawSpriteToggles(m: Machine, x: RegisterIndex, y: RegisterIndex, height: Nibble)
    requires Valid(m) && m.address + height <= MemoryLength
    ensures var o, cx, cy := DrawSprite(m, x, y, height), Coordinate(m, x), Coordinate(m, y);
      && o.status == Completed(None)
      && o.machine == m.(screen := o.machine.screen, registers := o.machine.registers)
      && (forall a, b :: 0 <= a < 64 && 0 <= b < 32 ==>
            o.machine.screen[a][b] == (m.screen[a][b] != RowsHit(m.memory, m.address, cx, cy, height, a, b)))
      && V(o.machine, VF) == (if RowsCollide(m.screen, m.memory, m.address, cx, cy, height) then 1 else 0)
      && forall i: RegisterIndex :: i != VF ==> V(o.machine, i) == V(m, i)
  {
    var m1 := SetV(m, VF, 0);
    DrawRowsToggle(m1, V(m1, x), V(m1, y), height);
  }

  /** Drawing the same sprite twice at the same place leaves the screen as it was. */
  lemma DrawSpriteTwice(m: Machine, x: RegisterIndex, y: RegisterIndex, height: Nibble)
    requires Valid(m) && m.address + height <= MemoryLength
    ensures DrawSprite(DrawSprite(m, x, y, height).machine, x, y, height).machine.screen == m.screen
  {
    var n := DrawSprite(m, x, y, height).machine;
    DrawSpriteToggles(m, x, y, height);
    DrawSpriteToggles(n, x, y, height);
    assert Coordinate(n, x) == Coordinate(m, x) && Coordinate(n, y) == Coordinate(m, y);
    SameScreen(DrawSprite(n, x, y, height).machine.screen, m.screen);
  }
}
