/** The five-glyph star rating shown on each review card. */
module Stars {

  const Filled: char := '★'
  const Hollow: char := '☆'
  const SpanOpen: string := "<span class=\"stars\">"
  const SpanClose: string := "</span>"
  const GlyphCount: nat := 5

  /** Glyph number `i` (counted from 1) for a rating. */
  function Glyph(i: int, rating: int): char {
    if i <= rating then Filled else Hollow
  }

  /** The glyphs the loop of `createStarRating` accumulates. */
  function Glyphs(rating: int): string {
    seq(GlyphCount, k => Glyph(k + 1, rating))
  }

  /** The markup `createStarRating` returns. */
  function StarsHtml(rating: int): string {
    SpanOpen + Glyphs(rating) + SpanClose
  }

  /** The number of filled glyphs, the rating clamped to 0..5. */
  function Clamp(rating: int): nat {
    if rating < 0 then 0 else if rating > GlyphCount then GlyphCount else rating
  }

  function Repeat(c: char, n: nat): string {
    seq(n, _ => c)
  }

  function Count(s: string, c: char): nat {
    if s == [] then 0 else (if s[0] == c then 1 else 0) + Count(s[1..], c)
  }

  /**
   * The `for (let i = 1; i <= 5; i++) stars += i <= rating ? "★" : "☆"` loop,
   * wrapped in its span.
   */
  method CreateStarRating(rating: int) returns (html: string)
    ensures html == StarsHtml(rating)
  {
    var stars := "";
    for i := 1 to GlyphCount + 1
      invariant |stars| == i - 1
      invariant forall k :: 0 <= k < i - 1 ==> stars[k] == Glyph(k + 1, rating)
    {
      stars := stars + [if i <= rating then Filled else Hollow];
    }
    assert stars == Glyphs(rating);
    html := SpanOpen + stars + SpanClose;
  }

  /** Filled glyphs come first, then hollow ones; there are `Clamp(rating)` filled. */
  lemma GlyphsSplit(rating: int)
    ensures Glyphs(rating) == Repeat(Filled, Clamp(rating)) + Repeat(Hollow, GlyphCount - Clamp(rating))
  {
  }

  lemma {:induction false} CountRepeat(c: char, d: char, n: nat)
    ensures Count(Repeat(c, n), d) == if c == d then n else 0
  {
    if n > 0 {
      assert Repeat(c, n)[1..] == Repeat(c, n - 1);
      CountRepeat(c, d, n - 1);
    }
  }

  lemma {:induction false} CountAppend(a: string, b: string, d: char)
    ensures Count(a + b, d) == Count(a, d) + Count(b, d)
  {
    if a != [] {
      assert (a + b)[1..] == a[1..] + b;
      CountAppend(a[1..], b, d);
    } else {
      assert a + b == b;
    }
  }

  /** A rating yields max(0, min(5, rating)) filled glyphs and the rest hollow. */
  lemma FilledCount(rating: int)
    ensures Count(Glyphs(rating), Filled) == Clamp(rating)
    ensures Count(Glyphs(rating), Hollow) == GlyphCount - Clamp(rating)
  {
    GlyphsSplit(rating);
    var c := Clamp(rating);
    CountAppend(Repeat(Filled, c), Repeat(Hollow, GlyphCount - c), Filled);
    CountAppend(Repeat(Filled, c), Repeat(Hollow, GlyphCount - c), Hollow);
    CountRepeat(Filled, Filled, c);
    CountRepeat(Hollow, Filled, GlyphCount - c);
    CountRepeat(Filled, Hollow, c);
    CountRepeat(Hollow, Hollow, GlyphCount - c);
  }

  /** Rating 3 shows three filled and two hollow glyphs, filled first. */
  lemma RatingThree()
    ensures StarsHtml(3) == SpanOpen + [Filled, Filled, Filled, Hollow, Hollow] + SpanClose
  {
  }
}
