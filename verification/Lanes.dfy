/** Marks spread evenly over a width, and the one that an offset rounds to: the lane arithmetic that the
    planners share. */
module Lanes {
  import opened Numbers

  /** The nearest of `last` + 1 marks spread evenly over `width`. */
  function NearestMark(offset: real, width: real, last: int): int {
    ClampInt(Round(offset / Max(1.0, width) * last as real), 0, last)
  }

  /** Rounding in lane coordinates, where the road's width is the unit of `u`. */
  lemma LaneCoordinate(width: real, n: real, offset: real)
    requires width > 0.0 && n > 0.0
    ensures width / n > 0.0
    ensures offset / width * n == offset / (width / n)
  {
    var u, d := offset / width, width / n;
    assert d * n == width;
    assert u * width == offset;
    assert (u * n) * d == offset;
  }

  lemma RoundingSide(u: real, d: real, offset: real, j: int)
    requires d > 0.0 && u * d == offset
    ensures offset < j as real * d + 0.5 * d ==> Round(u) <= j
    ensures offset >= j as real * d - 0.5 * d ==> Round(u) >= j
  {
    var jr := j as real;
    OrderScales(u, jr + 0.5, d);
    OrderScales(jr - 0.5, u, d);
    assert (jr + 0.5) * d == jr * d + 0.5 * d && (jr - 0.5) * d == jr * d - 0.5 * d;
  }

  lemma NearestMarkRounds(offset: real, width: real, last: int, spacing: real)
    requires width >= 1.0 && last >= 1 && spacing == width / last as real
    ensures spacing > 0.0
    ensures NearestMark(offset, width, last) == ClampInt(Round(offset / spacing), 0, last)
  {
    LaneCoordinate(width, last as real, offset);
    assert Max(1.0, width) == width;
  }

  lemma NearestMarkBounds(offset: real, width: real, last: int, spacing: real, j: int)
    requires width >= 1.0 && last >= 1 && spacing == width / last as real && 0 <= j <= last
    ensures offset < j as real * spacing + 0.5 * spacing ==> NearestMark(offset, width, last) <= j
    ensures offset >= j as real * spacing - 0.5 * spacing ==> NearestMark(offset, width, last) >= j
  {
    NearestMarkRounds(offset, width, last, spacing);
    hide Round, NearestMark;
    RoundingSide(offset / spacing, spacing, offset, j);
  }

  function MarkAt(i: int, spacing: real): real {
    i as real * spacing
  }

  lemma MarksApart(i: int, j: int, spacing: real)
    requires i < j && spacing > 0.0
    ensures MarkAt(j, spacing) >= MarkAt(i, spacing) + spacing
  {
    MulNonNegative((j - i - 1) as real, spacing);
    assert j as real == i as real + 1.0 + (j - i - 1) as real;
    assert j as real * spacing == i as real * spacing + spacing + (j - i - 1) as real * spacing;
  }

  /** Marks up to the last lie between none and it. */
  lemma MarksBetween(i: int, last: int, spacing: real)
    requires 0 <= i <= last
    ensures spacing >= 0.0 ==> 0.0 <= MarkAt(i, spacing) <= MarkAt(last, spacing)
  {
    if spacing >= 0.0 {
      MulNonNegative(i as real, spacing);
      MulNonNegative((last - i) as real, spacing);
      assert last as real * spacing == i as real * spacing + (last - i) as real * spacing;
    }
  }

  lemma NextMark(i: int, spacing: real)
    ensures MarkAt(i + 1, spacing) == MarkAt(i, spacing) + spacing
  {
    assert (i + 1) as real == i as real + 1.0;
  }

  lemma MarkBounds(offset: real, width: real, last: int, spacing: real, j: int)
    requires width >= 1.0 && last >= 1 && spacing == width / last as real && 0 <= j <= last
    ensures spacing > 0.0
    ensures offset < MarkAt(j, spacing) + 0.5 * spacing ==> NearestMark(offset, width, last) <= j
    ensures offset >= MarkAt(j, spacing) - 0.5 * spacing ==> NearestMark(offset, width, last) >= j
  {
    hide NearestMark;
    NearestMarkRounds(offset, width, last, spacing);
    NearestMarkBounds(offset, width, last, spacing, j);
  }

  lemma MarkInRange(offset: real, width: real, last: int)
    requires last >= 0
    ensures 0 <= NearestMark(offset, width, last) <= last
  {}

  /** No mark is nearer to an offset than the one it rounds to. */
  lemma NearestMarkIsNearest(offset: real, width: real, last: int, spacing: real, j: int)
    requires width >= 1.0 && last >= 1 && spacing == width / last as real && 0 <= j <= last
    ensures 0 <= NearestMark(offset, width, last) <= last
    ensures Abs(offset - MarkAt(NearestMark(offset, width, last), spacing)) <= Abs(offset - MarkAt(j, spacing))
  {
    hide MarkAt, NearestMark;
    MarkInRange(offset, width, last);
    var c := NearestMark(offset, width, last);
    MarkBounds(offset, width, last, spacing, j);
    if j < c {
      MarkBounds(offset, width, last, spacing, c - 1);
      NextMark(c - 1, spacing);
      MarksApart(j, c, spacing);
    } else if c < j {
      MarkBounds(offset, width, last, spacing, c + 1);
      NextMark(c, spacing);
      MarksApart(c, j, spacing);
    }
  }
}
