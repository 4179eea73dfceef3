/**
 * The pastel colour helpers of the report lists
 * (src/Components/ReportViewer/StudentList.jsx and DateList.jsx): the hue of
 * item `index` is `(index * 47) % 360`, with JavaScript's remainder, which
 * keeps the sign of the dividend.
 */
module PastelColour {
  import opened Decimal

  /** Integer division rounded toward zero, as `Math.trunc(a / b)` in JavaScript. */
  function JsQuotient(a: int, b: int): int
    requires b > 0
  {
    if a >= 0 then a / b else -((-a) / b)
  }

  /** JavaScript's `%` on integers: truncating division, so the remainder has the dividend's sign. */
  function JsRemainder(a: int, b: int): (r: int)
    requires b > 0
    ensures a == JsQuotient(a, b) * b + r
    ensures a >= 0 ==> 0 <= r < b
    ensures a < 0 ==> -b < r <= 0
  {
    if a >= 0 then a % b else -((-a) % b)
  }

  /** The hue step between neighbouring items. */
  const HueStep: int := 47

  /** `(index * 47) % 360` */
  function Hue(index: int): int {
    JsRemainder(index * HueStep, 360)
  }

  /** An HSL colour: hue in degrees, saturation and lightness in percent. */
  datatype Hsl = Hsl(hue: int, saturation: int, lightness: int)

  /** `hsl(${hue}, ${saturation}%, ${lightness}%)` */
  function CssText(c: Hsl): string {
    "hsl(" + IntToString(c.hue) + ", " + IntToString(c.saturation) + "%, " + IntToString(c.lightness) + "%)"
  }

  /** The hue of a non-negative index is an angle in [0, 360). */
  lemma HueInRange(index: int)
    requires index >= 0
    ensures 0 <= Hue(index) < 360
  {
  }

  /** Adding a multiple of 360 does not change the remainder. */
  lemma ModShift(x: int, k: int)
    ensures (x + 360 * k) % 360 == x % 360
  {
  }

  /** 23 undoes the step 47 modulo 360 (47 * 23 = 3 * 360 + 1), so the index is recovered from the hue. */
  lemma HueDeterminesIndex(index: int)
    requires index >= 0
    ensures (Hue(index) * 23) % 360 == index % 360
  {
    var p := index * 47;
    var h := p % 360;
    var q := p / 360;
    assert Hue(index) == h;
    assert p == q * 360 + h;
    var k := 3 * index - 23 * q;
    calc {
      h * 23;
      (p - q * 360) * 23;
      p * 23 - q * 360 * 23;
      { assert p * 23 == index * 1081; }
      index * 1081 - q * 360 * 23;
      index + 360 * k;
    }
    ModShift(index, k);
  }

  /** The first 360 indices get pairwise different hues, because 47 and 360 are coprime. */
  lemma HuesDistinct(i: int, j: int)
    requires 0 <= i < 360 && 0 <= j < 360 && i != j
    ensures Hue(i) != Hue(j)
  {
    HueDeterminesIndex(i);
    HueDeterminesIndex(j);
    var hi, hj := Hue(i), Hue(j);
    assert (hi * 23) % 360 == i;
    assert (hj * 23) % 360 == j;
  }

  /** The hues repeat every 360 indices. */
  lemma HuePeriodic(index: int)
    requires index >= 0
    ensures Hue(index + 360) == Hue(index)
  {
    assert (index + 360) * 47 == index * 47 + 360 * 47;
    ModShift(index * 47, 47);
  }

  /** For a negative index the hue is not an angle: -1 gives -47, where 359 gives 313. */
  lemma NegativeIndexHue()
    ensures Hue(-1) == -47 && Hue(359) == 313
  {
  }

  /** What follows the hue in the colour text; it starts with a comma. */
  function AfterHue(c: Hsl): (t: string)
    ensures |t| > 0 && t[0] == ','
  {
    ", " + IntToString(c.saturation) + "%, " + IntToString(c.lightness) + "%)"
  }

  lemma CssTextParts(c: Hsl)
    requires c.hue >= 0
    ensures CssText(c) == "hsl(" + (NatToString(c.hue) + AfterHue(c))
  {
  }

  /** Colours with different hues are written differently. */
  lemma CssTextDistinguishesHues(c: Hsl, d: Hsl)
    requires c.hue >= 0 && d.hue >= 0 && c.hue != d.hue
    ensures CssText(c) != CssText(d)
  {
    var hc, hd := NatToString(c.hue), NatToString(d.hue);
    NatToStringInjective(c.hue, d.hue);
    CssTextParts(c);
    CssTextParts(d);
    if CssText(c) == CssText(d) {
      assert CssText(c)[4..] == hc + AfterHue(c);
      assert CssText(d)[4..] == hd + AfterHue(d);
      DigitsThenComma(hc, hd, hc + AfterHue(c), hd + AfterHue(d));
    }
  }

  /** Two digit strings followed by text starting with a comma: equal texts mean equal digit strings. */
  lemma DigitsThenComma(a: string, b: string, s: string, t: string)
    requires forall i | 0 <= i < |a| :: IsDigitChar(a[i])
    requires forall i | 0 <= i < |b| :: IsDigitChar(b[i])
    requires |s| > |a| && s[..|a|] == a && s[|a|] == ','
    requires |t| > |b| && t[..|b|] == b && t[|b|] == ','
    requires s == t
    ensures a == b
  {
  }
}

/** getLightColorByIndex of the student list: saturation 60%, lightness 97%. */
module StudentList {
  import opened PastelColour

  function LightColor(index: int): (c: Hsl)
    ensures c.saturation == 60 && c.lightness == 97
    ensures index >= 0 ==> 0 <= c.hue < 360
  {
    Hsl(Hue(index), 60, 97)
  }

  /** `getLightColorByIndex(index)` */
  function LightColorByIndex(index: int): string {
    CssText(LightColor(index))
  }

  /** Each of the first 360 students gets its own colour. */
  lemma ColoursUnique(i: int, j: int)
    requires 0 <= i < 360 && 0 <= j < 360 && i != j
    ensures LightColorByIndex(i) != LightColorByIndex(j)
  {
    HuesDistinct(i, j);
    CssTextDistinguishesHues(LightColor(i), LightColor(j));
  }

  /** Students 360 apart get the same colour. */
  lemma ColoursRepeat(index: int)
    requires index >= 0
    ensures LightColorByIndex(index + 360) == LightColorByIndex(index)
  {
    HuePeriodic(index);
  }
}

/** getLightColorByIndex of the date list: saturation 60%, lightness 95%. */
module DateList {
  import opened PastelColour

  function LightColor(index: int): (c: Hsl)
    ensures c.saturation == 60 && c.lightness == 95
    ensures index >= 0 ==> 0 <= c.hue < 360
  {
    Hsl(Hue(index), 60, 95)
  }

  /** `getLightColorByIndex(index)` */
  function LightColorByIndex(index: int): string {
    CssText(LightColor(index))
  }

  /** Each of the first 360 dates gets its own colour. */
  lemma ColoursUnique(i: int, j: int)
    requires 0 <= i < 360 && 0 <= j < 360 && i != j
    ensures LightColorByIndex(i) != LightColorByIndex(j)
  {
    HuesDistinct(i, j);
    CssTextDistinguishesHues(LightColor(i), LightColor(j));
  }

  /** Dates 360 apart get the same colour. */
  lemma ColoursRepeat(index: int)
    requires index >= 0
    ensures LightColorByIndex(index + 360) == LightColorByIndex(index)
  {
    HuePeriodic(index);
  }
}
