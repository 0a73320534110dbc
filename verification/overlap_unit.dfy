/** The overlap suffix of an output file name: the overlap length in metres turned into an
    integer count of some unit, picked by the size of the overlap (get_overlap_with_unit). */
module OverlapUnit {
  import opened RealMath
  import opened Decimal

  datatype Unit = Dm | Cm | Mm | Um

  /** Units per metre as the formatter multiplies them. The `um` branch multiplies by 10000,
      so its unit is in fact a tenth of a millimetre, not a micrometre. */
  function Scale(u: Unit): real {
    match u
    case Dm => 10.0
    case Cm => 100.0
    case Mm => 1000.0
    case Um => 10000.0
  }

  function UnitText(u: Unit): string {
    match u
    case Dm => "dm"
    case Cm => "cm"
    case Mm => "mm"
    case Um => "um"
  }

  datatype Suffix = Suffix(value: int, unit: Unit) {
    /** The text written after "_OV" in a file name. */
    function Text(): string {
      IntToString(value) + UnitText(unit)
    }

    /** The length in metres the suffix stands for under the formatter's own scales. */
    function Metres(): real {
      value as real / Scale(unit)
    }
  }

  /** From v <= r * s < v + 1 it follows that v / s <= r < v / s + 1 / s. */
  lemma ReadBack(r: real, s: real, v: real)
    requires s > 0.0
    requires v <= r * s < v + 1.0
    ensures v / s <= r < v / s + 1.0 / s
  {
    ScaleOrder(v / s, r, s);
    ScaleOrder(r, v / s + 1.0 / s, s);
    assert (v / s + 1.0 / s) * s == v + 1.0;
  }

  /** The same reading for a negative product, which int() truncates upward. */
  lemma ReadBackNegative(r: real, s: real, v: real)
    requires s > 0.0
    requires v - 1.0 < r * s <= v
    ensures v / s - 1.0 / s < r <= v / s
  {
    ScaleOrder(v / s - 1.0 / s, r, s);
    ScaleOrder(r, v / s, s);
    assert (v / s - 1.0 / s) * s == v - 1.0;
  }

  /** get_overlap_with_unit: the first unit whose threshold the overlap reaches, and the
      overlap counted in that unit, truncated toward zero to an integer. */
  function OverlapWithUnit(overlap: real): (s: Suffix)
    ensures s.unit == Dm <==> 1.0 <= overlap
    ensures s.unit == Cm <==> 0.1 <= overlap < 1.0
    ensures s.unit == Mm <==> 0.01 <= overlap < 0.1
    ensures 0.0 <= overlap ==> 0 <= s.value && s.value as real <= overlap * Scale(s.unit) < s.value as real + 1.0
    ensures overlap < 0.0 ==> s.value <= 0 && s.value as real - 1.0 < overlap * Scale(s.unit) <= s.value as real
  {
    var unit :=
      if overlap >= 1.0 then Dm
      else if overlap >= 0.1 then Cm
      else if overlap >= 0.01 then Mm
      else Um;
    Suffix(Trunc(overlap * Scale(unit)), unit)
  }

  /** The suffix reads back as the overlap rounded toward zero to a whole number of its unit. */
  lemma SuffixReadsBack(overlap: real)
    ensures var s := OverlapWithUnit(overlap);
      0.0 <= overlap ==> s.Metres() <= overlap < s.Metres() + 1.0 / Scale(s.unit)
    ensures var s := OverlapWithUnit(overlap);
      overlap < 0.0 ==> s.Metres() - 1.0 / Scale(s.unit) < overlap <= s.Metres()
  {
    var s := OverlapWithUnit(overlap);
    if overlap >= 0.0 {
      ReadBack(overlap, Scale(s.unit), s.value as real);
    } else {
      ReadBackNegative(overlap, Scale(s.unit), s.value as real);
    }
  }

  /** For a non-negative overlap the decimetre, centimetre and millimetre values are at
      least 10, and the centimetre, millimetre and `um` values at most 99. */
  lemma SuffixValueRanges(overlap: real)
    requires 0.0 <= overlap
    ensures var s := OverlapWithUnit(overlap);
      && (s.unit != Um ==> 10 <= s.value)
      && (s.unit != Dm ==> 0 <= s.value <= 99)
  {
    var s := OverlapWithUnit(overlap);
    match s.unit
    case Dm => assert 10.0 <= overlap * 10.0;
    case Cm => assert 10.0 <= overlap * 100.0 < 100.0;
    case Mm => assert 10.0 <= overlap * 1000.0 < 100.0;
    case Um => assert overlap * 10000.0 < 100.0;
  }

  /** No overlap, negative ones included, is written as a one-digit millimetre count such as
      the "7mm" of the formatter's own description. */
  lemma SevenMillimetresUnreachable(overlap: real)
    ensures OverlapWithUnit(overlap) != Suffix(7, Mm)
  {
    if OverlapWithUnit(overlap).unit == Mm {
      SuffixValueRanges(overlap);
    }
  }

  /** The default overlap of 0 is written "0um". */
  lemma DefaultOverlapText()
    ensures OverlapWithUnit(0.0) == Suffix(0, Um)
    ensures OverlapWithUnit(0.0).Text() == "0um"
  {
    assert NatToString(0) == "0";
  }

  /** Half a centimetre falls in the last branch and is written "50um". */
  lemma HalfCentimetreText()
    ensures OverlapWithUnit(0.005) == Suffix(50, Um)
    ensures OverlapWithUnit(0.005).Text() == "50um"
  {
    assert Trunc(0.005 * 10000.0) == 50;
    assert NatToString(5) == "5";
    assert NatToString(50) == NatToString(5) + [DigitChar(0)];
  }

  /** Within one unit the written value grows with the overlap. */
  lemma SameUnitMonotone(a: real, b: real, u: Unit)
    requires 0.0 <= a <= b
    requires OverlapWithUnit(a).unit == u == OverlapWithUnit(b).unit
    ensures OverlapWithUnit(a).Metres() <= OverlapWithUnit(b).Metres()
  {
    var sa, sb := OverlapWithUnit(a), OverlapWithUnit(b);
    var k := Scale(u);
    assert sa.value as real <= a * k;
    assert b * k < sb.value as real + 1.0;
    MonotoneAtScale(a, b, sa.value, sb.value, k);
  }

  lemma MonotoneAtScale(a: real, b: real, v: int, w: int, k: real)
    requires 0.0 <= a <= b && k > 0.0
    requires v as real <= a * k && b * k < w as real + 1.0
    ensures v as real / k <= w as real / k
  {
    ScaleOrder(a, b, k);
    OrderedValues(v, w, a * k, b * k, k);
  }

  lemma OrderedValues(v: int, w: int, x: real, y: real, k: real)
    requires k > 0.0 && v as real <= x <= y < w as real + 1.0
    ensures v as real / k <= w as real / k
  {
    assert v <= w;
    ScaleOrder(v as real / k, w as real / k, k);
  }

  /** A larger overlap never reads back as a shorter length, even across a unit change. */
  lemma MetresMonotone(a: real, b: real)
    requires 0.0 <= a <= b
    ensures OverlapWithUnit(a).Metres() <= OverlapWithUnit(b).Metres()
  {
    var sa, sb := OverlapWithUnit(a), OverlapWithUnit(b);
    if sa.unit == sb.unit {
      SameUnitMonotone(a, b, sa.unit);
    } else {
      // b reached a threshold that a did not: sb reads at least that threshold, sa at most a.
      SuffixValueRanges(b);
      SuffixReadsBack(a);
      assert sa.Metres() <= a;
      match sb.unit
      case Dm => assert a < 1.0 && 1.0 <= sb.Metres();
      case Cm => assert a < 0.1 && 0.1 <= sb.Metres();
      case Mm => assert a < 0.01 && 0.01 <= sb.Metres();
    }
  }
}
