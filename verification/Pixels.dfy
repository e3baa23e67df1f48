/** Premultiplied ARGB8888 pixels and the two blending rules of the software renderer.
    A pixel is one 32-bit word. Joining channels below 256 with shifts and `|` is the sum
    used here. */
module Pixels {

  type Byte = n: int | 0 <= n < 256

  type Word = n: int | 0 <= n < 0x1_0000_0000

  datatype Color = Color(r: Byte, g: Byte, b: Byte, a: Byte)

  function AlphaOf(w: Word): Byte { w / 0x100 / 0x100 / 0x100 }

  function RedOf(w: Word): Byte { w / 0x100 / 0x100 % 0x100 }

  function GreenOf(w: Word): Byte { w / 0x100 % 0x100 }

  function BlueOf(w: Word): Byte { w % 0x100 }

  function Pack(a: Byte, r: Byte, g: Byte, b: Byte): (w: Word)
    ensures AlphaOf(w) == a && RedOf(w) == r && GreenOf(w) == g && BlueOf(w) == b
  {
    ((a * 0x100 + r) * 0x100 + g) * 0x100 + b
  }

  /** `(s * a + d * (255 - a)) / 255`: one channel of a source-over blend. */
  function Lerp(s: Byte, d: Byte, a: Byte): (r: Byte)
  {
    LerpInRange(s, d, a);
    (s * a + d * (255 - a)) / 255
  }

  /** The destination alpha kept under a source of alpha `sa`: `sa + da * (255 - sa) / 255`. */
  function OverAlpha(sa: Byte, da: Byte): (r: Byte)
  {
    OverAlphaInRange(sa, da);
    sa + da * (255 - sa) / 255
  }

  /** What filling one pixel of value `d` with `col` stores. */
  function FillOver(d: Word, col: Color): Word
  {
    if col.a == 255 then Pack(255, col.r, col.g, col.b)
    else Pack(OverAlpha(col.a, AlphaOf(d)), Lerp(col.r, RedOf(d), col.a),
              Lerp(col.g, GreenOf(d), col.a), Lerp(col.b, BlueOf(d), col.a))
  }

  /** What drawing one glyph sample of coverage `cov` over a pixel of value `d` stores. */
  function CoverOver(d: Word, col: Color, cov: Byte): Word
  {
    if cov == 0 then d
    else
      var a := Coverage(cov, col.a);
      Pack(255, Lerp(col.r, RedOf(d), a), Lerp(col.g, GreenOf(d), a), Lerp(col.b, BlueOf(d), a))
  }

  function Coverage(cov: Byte, a: Byte): Byte
  {
    LerpInRange(cov, 0, a);
    cov * a / 255
  }

  /** No colour channel exceeds alpha: the word is valid premultiplied ARGB. */
  predicate Premultiplied(w: Word)
  {
    RedOf(w) <= AlphaOf(w) && GreenOf(w) <= AlphaOf(w) && BlueOf(w) <= AlphaOf(w)
  }

  lemma ScaleMonotone(x: nat, y: nat, k: nat)
    requires x <= y
    ensures 0 <= x * k <= y * k
  {
  }

  lemma LerpInRange(s: Byte, d: Byte, a: Byte)
    ensures 0 <= (s * a + d * (255 - a)) / 255 < 256
  {
    ScaleMonotone(s, 255, a);
    ScaleMonotone(d, 255, 255 - a);
    var u, v := s * a, d * (255 - a);
    assert 0 <= u + v <= 65025;
  }

  lemma OverAlphaInRange(sa: Byte, da: Byte)
    ensures 0 <= sa + da * (255 - sa) / 255 < 256
  {
    ScaleMonotone(da, 255, 255 - sa);
    var v := da * (255 - sa);
    assert 0 <= v <= 255 * (255 - sa);
  }

  /** A blended channel never passes the blended alpha when it started at or below it. */
  lemma LerpBelowOverAlpha(s: Byte, d: Byte, sa: Byte, da: Byte)
    requires d <= da
    ensures Lerp(s, d, sa) <= OverAlpha(sa, da)
  {
    var inv := 255 - sa;
    ScaleMonotone(s, 255, sa);
    ScaleMonotone(d, da, inv);
    var u, v, w := s * sa, d * inv, da * inv;
    assert u + v <= 255 * sa + w;
    assert (255 * sa + w) / 255 == sa + w / 255;
  }

  lemma OverOpaque(sa: Byte)
    ensures OverAlpha(sa, 255) == 255
  {
    var inv := 255 - sa;
    assert 255 * inv / 255 == inv;
  }

  /** Filling keeps a pixel premultiplied, and never makes an opaque pixel translucent. */
  lemma FillOverPremultiplied(d: Word, col: Color)
    requires Premultiplied(d)
    ensures Premultiplied(FillOver(d, col))
    ensures AlphaOf(d) == 255 ==> AlphaOf(FillOver(d, col)) == 255
  {
    hide Lerp;
    hide OverAlpha;
    if col.a != 255 {
      LerpBelowOverAlpha(col.r, RedOf(d), col.a, AlphaOf(d));
      LerpBelowOverAlpha(col.g, GreenOf(d), col.a, AlphaOf(d));
      LerpBelowOverAlpha(col.b, BlueOf(d), col.a, AlphaOf(d));
      OverOpaque(col.a);
    }
  }

  /** A glyph sample leaves a premultiplied pixel, opaque wherever it has any coverage. */
  lemma CoverOverPremultiplied(d: Word, col: Color, cov: Byte)
    requires Premultiplied(d)
    ensures Premultiplied(CoverOver(d, col, cov))
    ensures cov != 0 || AlphaOf(d) == 255 ==> AlphaOf(CoverOver(d, col, cov)) == 255
  {
  }

  /** The channels of a word, alpha first. */
  lemma Channels(w: Word)
    ensures w == AlphaOf(w) * 0x100_0000 + RedOf(w) * 0x1_0000 + GreenOf(w) * 0x100 + BlueOf(w)
  {
    var g := w / 0x100;
    assert w == g * 0x100 + w % 0x100;
    assert g == g / 0x100 * 0x100 + g % 0x100;
  }

  /** `out` is the blend of `s` over `d` at alpha `a`, rounded down. */
  predicate Blends(out: Byte, s: Byte, d: Byte, a: Byte)
  {
    255 * out <= s * a + d * (255 - a) < 255 * out + 255
  }

  /** What a fill leaves in each channel: the fill's own colour there, blended over what was there. */
  lemma FillOverBlends(d: Word, col: Color)
    ensures var p := FillOver(d, col);
            && Blends(RedOf(p), col.r, RedOf(d), col.a) && Blends(GreenOf(p), col.g, GreenOf(d), col.a)
            && Blends(BlueOf(p), col.b, BlueOf(d), col.a) && Blends(AlphaOf(p), 255, AlphaOf(d), col.a)
  {
    hide RedOf;
    hide GreenOf;
    hide BlueOf;
    hide AlphaOf;
    LerpBlends(col.r, RedOf(d), col.a);
    LerpBlends(col.g, GreenOf(d), col.a);
    LerpBlends(col.b, BlueOf(d), col.a);
    OverAlphaBlends(col.a, AlphaOf(d));
    hide Blends;
    hide Lerp;
    hide OverAlpha;
    if col.a == 255 {
      OpaqueBlends(col.r, RedOf(d));
      OpaqueBlends(col.g, GreenOf(d));
      OpaqueBlends(col.b, BlueOf(d));
      OpaqueBlends(255, AlphaOf(d));
    }
  }

  lemma LerpBlends(s: Byte, d: Byte, a: Byte)
    ensures Blends(Lerp(s, d, a), s, d, a)
  {
    var u := s * a + d * (255 - a);
    assert Lerp(s, d, a) == u / 255;
  }

  lemma OverAlphaBlends(sa: Byte, da: Byte)
    ensures Blends(OverAlpha(sa, da), 255, da, sa)
  {
    var u := da * (255 - sa);
    assert OverAlpha(sa, da) == sa + u / 255;
  }

  lemma OpaqueBlends(s: Byte, d: Byte)
    ensures Blends(s, s, d, 255)
  {
  }

  /** What a glyph sample leaves: nothing without coverage, else the text colour blended over what was
      there at the share of its alpha that is covered, and an opaque pixel. */
  lemma CoverOverBlends(d: Word, col: Color, cov: Byte)
    ensures var p, a := CoverOver(d, col, cov), col.a * cov / 255;
            if cov == 0 then p == d
            else
              && 0 <= a < 256 && AlphaOf(p) == 255
              && Blends(RedOf(p), col.r, RedOf(d), a) && Blends(GreenOf(p), col.g, GreenOf(d), a)
              && Blends(BlueOf(p), col.b, BlueOf(d), a)
  {
    hide RedOf;
    hide GreenOf;
    hide BlueOf;
    hide AlphaOf;
    LerpInRange(cov, 0, col.a);
    var a := Coverage(cov, col.a);
    LerpBlends(col.r, RedOf(d), a);
    LerpBlends(col.g, GreenOf(d), a);
    LerpBlends(col.b, BlueOf(d), a);
    assert a == col.a * cov / 255 by { assert cov * col.a == col.a * cov; }
    hide Coverage;
    hide Blends;
    hide Lerp;
  }
}
