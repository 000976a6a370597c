/** The ripple colour of a button: the background through hue and saturation to a lighter or darker value and back. */
module ShellColors {
  import opened Util

  // ---------- numbers as the page computes with them, but exact ----------

  function Abs(x: real): real {
    if x < 0.0 then -x else x
  }

  /** The remainder with the sign of its first operand. */
  function Rem(x: real, y: real): real
    requires y > 0.0
  {
    if x >= 0.0 then x - y * (x / y).Floor as real else x + y * (-x / y).Floor as real
  }

  /** Rounding to the nearest integer, halves upwards. */
  function Round(x: real): int {
    (x + 0.5).Floor
  }

  function Max(a: int, b: int): int {
    if a >= b then a else b
  }

  function Min(a: int, b: int): int {
    if a <= b then a else b
  }

  function Largest(r: int, g: int, b: int): int {
    Max(r, Max(g, b))
  }

  function Smallest(r: int, g: int, b: int): int {
    Min(r, Min(g, b))
  }

  // ---------- the colour model ----------

  datatype Color = Color(red: real, green: real, blue: real)

  function Hue(r: int, g: int, b: int): real {
    var maximum := Largest(r, g, b);
    var delta := (maximum - Smallest(r, g, b)) as real;
    var hue := if delta == 0.0 then 0.0
               else if maximum == r then 60.0 * Rem((g - b) as real / delta, 6.0)
               else if maximum == g then 60.0 * ((b - r) as real / delta + 2.0)
               else 60.0 * ((r - g) as real / delta + 4.0);
    if hue < 0.0 then hue + 360.0 else hue
  }

  function Saturation(maximum: int, delta: int): real {
    if maximum == 0 then 0.0 else delta as real / maximum as real
  }

  function NextValue(maximum: int): int {
    Max(0, Min(255, maximum + if maximum > 128 then -32 else 32))
  }

  /** The sextant of the hue says which channel gets the chroma and which the part x of it. */
  function FromHue(hue: real, chroma: real, x: real): Color {
    if hue < 60.0 then Color(chroma, x, 0.0)
    else if hue < 120.0 then Color(x, chroma, 0.0)
    else if hue < 180.0 then Color(0.0, chroma, x)
    else if hue < 240.0 then Color(0.0, x, chroma)
    else if hue < 300.0 then Color(x, 0.0, chroma)
    else Color(chroma, 0.0, x)
  }

  function Partial(hue: real, chroma: real): real {
    chroma * (1.0 - Abs(Rem(hue / 60.0, 2.0) - 1.0))
  }

  function Lift(c: Color, m: real): Color {
    Color(c.red + m, c.green + m, c.blue + m)
  }

  /** The colour part of the code, by the values it computes first. */
  function Detour(hue: real, chroma: real, next: real): Color {
    Lift(FromHue(hue, chroma, Partial(hue, chroma)), next - chroma)
  }

  function Chroma(r: int, g: int, b: int): real {
    var maximum := Largest(r, g, b);
    NextValue(maximum) as real * Saturation(maximum, maximum - Smallest(r, g, b))
  }

  function Ripple(r: int, g: int, b: int): Color {
    Detour(Hue(r, g, b), Chroma(r, g, b), NextValue(Largest(r, g, b)) as real)
  }

  // ---------- the six sextants ----------

  lemma RemTwo(x: real, n: nat)
    requires (2 * n) as real <= x < (2 * n + 2) as real
    ensures Rem(x, 2.0) == x - (2 * n) as real
  {
    assert (x / 2.0).Floor == n;
  }

  lemma RemSix(x: real)
    requires -1.0 <= x <= 1.0
    ensures Rem(x, 6.0) == x
  {
    assert x >= 0.0 ==> (x / 6.0).Floor == 0;
    assert x < 0.0 ==> (-x / 6.0).Floor == 0;
  }

  /** Along the first half of a pair of sextants the partial channel grows with the hue. */
  lemma Rising(hue: real, chroma: real, n: nat, f: real)
    requires hue == 60.0 * ((2 * n) as real + f) && 0.0 <= f <= 1.0
    ensures Partial(hue, chroma) == chroma * f
  {
    RemTwo(hue / 60.0, n);
  }

  /** Along the second half it shrinks. */
  lemma Falling(hue: real, chroma: real, n: nat, f: real)
    requires hue == 60.0 * ((2 * n + 2) as real - f) && 0.0 < f <= 1.0
    ensures Partial(hue, chroma) == chroma * f
  {
    RemTwo(hue / 60.0, n);
  }

  /** A channel's share of the range between the smallest and the largest channel. */
  function Share(c: int, r: int, g: int, b: int): real {
    var delta := Largest(r, g, b) - Smallest(r, g, b);
    if delta == 0 then 0.0 else (c - Smallest(r, g, b)) as real / delta as real
  }

  lemma ShareRange(c: int, r: int, g: int, b: int)
    requires c == r || c == g || c == b
    ensures 0.0 <= Share(c, r, g, b) <= 1.0
    ensures c == Smallest(r, g, b) ==> Share(c, r, g, b) == 0.0
    ensures c == Largest(r, g, b) > Smallest(r, g, b) ==> Share(c, r, g, b) == 1.0
    ensures c > Smallest(r, g, b) ==> Share(c, r, g, b) > 0.0
    ensures c < Largest(r, g, b) ==> Share(c, r, g, b) < 1.0
  {
    var low := Smallest(r, g, b);
    var delta := Largest(r, g, b) - low;
    if delta > 0 {
      DivideRange((c - low) as real, delta as real);
    }
  }

  lemma DivideRange(x: real, y: real)
    requires y > 0.0 && 0.0 <= x <= y
    ensures 0.0 <= x / y <= 1.0
    ensures (x == 0.0 <==> x / y == 0.0) && (x == y <==> x / y == 1.0)
  {
    assert x / y * y == x;
  }

  lemma NegateQuotient(a: int, b: int, d: real)
    requires d > 0.0
    ensures (a - b) as real / d == -((b - a) as real / d)
  {
  }

  /** The hue in each half of a pair of sextants, by the share of the channel in the middle. */
  lemma HueOfRed(r: int, g: int, b: int)
    requires r == Largest(r, g, b) > Smallest(r, g, b)
    ensures Hue(r, g, b) == if g >= b then 60.0 * Share(g, r, g, b) else 60.0 * (6.0 - Share(b, r, g, b))
  {
    var delta := (r - Smallest(r, g, b)) as real;
    var f := (g - b) as real / delta;
    ShareRange(g, r, g, b);
    ShareRange(b, r, g, b);
    NegateQuotient(g, b, delta);
    RemSix(f);
  }

  lemma HueOfGreen(r: int, g: int, b: int)
    requires g == Largest(r, g, b) > Smallest(r, g, b) && g != r
    ensures Hue(r, g, b) == if b >= r then 60.0 * (2.0 + Share(b, r, g, b)) else 60.0 * (2.0 - Share(r, r, g, b))
  {
    ShareRange(b, r, g, b);
    ShareRange(r, r, g, b);
    NegateQuotient(b, r, (g - Smallest(r, g, b)) as real);
  }

  lemma HueOfBlue(r: int, g: int, b: int)
    requires b == Largest(r, g, b) > Smallest(r, g, b) && b != r && b != g
    ensures Hue(r, g, b) == if r >= g then 60.0 * (4.0 + Share(r, r, g, b)) else 60.0 * (4.0 - Share(g, r, g, b))
  {
    ShareRange(r, r, g, b);
    ShareRange(g, r, g, b);
    NegateQuotient(r, g, (b - Smallest(r, g, b)) as real);
  }

  /** The sextants after a multiple of 120 degrees, where the middle channel gains. */
  lemma RisingColor(hue: real, chroma: real, n: nat, f: real)
    requires n < 3 && hue == 60.0 * ((2 * n) as real + f) && 0.0 <= f <= 1.0
    ensures FromHue(hue, chroma, Partial(hue, chroma))
         == if n == 0 then Color(chroma, chroma * f, 0.0)
            else if n == 1 then Color(0.0, chroma, chroma * f)
            else Color(chroma * f, 0.0, chroma)
  {
    Rising(hue, chroma, n, f);
    if f == 1.0 {
      assert chroma * f == chroma;
    }
  }

  /** The sextants before one, where it loses. */
  lemma FallingColor(hue: real, chroma: real, n: nat, f: real)
    requires n < 3 && hue == 60.0 * ((2 * n + 2) as real - f) && 0.0 < f <= 1.0
    ensures FromHue(hue, chroma, Partial(hue, chroma))
         == if n == 0 then Color(chroma * f, chroma, 0.0)
            else if n == 1 then Color(0.0, chroma * f, chroma)
            else Color(chroma, 0.0, chroma * f)
  {
    Falling(hue, chroma, n, f);
  }

  /** What each channel has of the chroma. */
  function Shares(r: int, g: int, b: int, chroma: real): Color {
    Color(chroma * Share(r, r, g, b), chroma * Share(g, r, g, b), chroma * Share(b, r, g, b))
  }

  lemma Whole(chroma: real, share: real)
    ensures share == 1.0 ==> chroma * share == chroma
    ensures share == 0.0 ==> chroma * share == 0.0
  {
  }

  lemma RedShares(r: int, g: int, b: int, chroma: real)
    requires r == Largest(r, g, b) > Smallest(r, g, b)
    ensures FromHue(Hue(r, g, b), chroma, Partial(Hue(r, g, b), chroma)) == Shares(r, g, b, chroma)
  {
    var hue, f, h := Hue(r, g, b), Share(g, r, g, b), Share(b, r, g, b);
    ShareRange(r, r, g, b);
    ShareRange(g, r, g, b);
    ShareRange(b, r, g, b);
    HueOfRed(r, g, b);
    Whole(chroma, Share(r, r, g, b));
    Whole(chroma, f);
    Whole(chroma, h);
    if g >= b {
      RisingColor(hue, chroma, 0, f);
    } else {
      FallingColor(hue, chroma, 2, h);
    }
  }

  lemma GreenShares(r: int, g: int, b: int, chroma: real)
    requires g == Largest(r, g, b) > Smallest(r, g, b) && g != r
    ensures FromHue(Hue(r, g, b), chroma, Partial(Hue(r, g, b), chroma)) == Shares(r, g, b, chroma)
  {
    var hue, f, h := Hue(r, g, b), Share(b, r, g, b), Share(r, r, g, b);
    ShareRange(r, r, g, b);
    ShareRange(g, r, g, b);
    ShareRange(b, r, g, b);
    HueOfGreen(r, g, b);
    Whole(chroma, Share(g, r, g, b));
    Whole(chroma, f);
    Whole(chroma, h);
    if b >= r {
      RisingColor(hue, chroma, 1, f);
    } else {
      FallingColor(hue, chroma, 0, h);
    }
  }

  lemma BlueShares(r: int, g: int, b: int, chroma: real)
    requires b == Largest(r, g, b) > Smallest(r, g, b) && b != r && b != g
    ensures FromHue(Hue(r, g, b), chroma, Partial(Hue(r, g, b), chroma)) == Shares(r, g, b, chroma)
  {
    var hue, f, h := Hue(r, g, b), Share(r, r, g, b), Share(g, r, g, b);
    ShareRange(r, r, g, b);
    ShareRange(g, r, g, b);
    ShareRange(b, r, g, b);
    HueOfBlue(r, g, b);
    Whole(chroma, Share(b, r, g, b));
    Whole(chroma, f);
    Whole(chroma, h);
    if r >= g {
      RisingColor(hue, chroma, 2, f);
    } else {
      FallingColor(hue, chroma, 1, h);
    }
  }

  /** All six sextants, their borders included, give each channel its share of the chroma. */
  lemma HueShares(r: int, g: int, b: int, chroma: real)
    requires Largest(r, g, b) > Smallest(r, g, b)
    ensures FromHue(Hue(r, g, b), chroma, Partial(Hue(r, g, b), chroma)) == Shares(r, g, b, chroma)
  {
    if r == Largest(r, g, b) {
      RedShares(r, g, b, chroma);
    } else if g == Largest(r, g, b) {
      GreenShares(r, g, b, chroma);
    } else {
      BlueShares(r, g, b, chroma);
    }
  }

  // ---------- what the detour comes to ----------

  predicate Channels(r: int, g: int, b: int) {
    0 <= r < 256 && 0 <= g < 256 && 0 <= b < 256
  }

  /** The channel as if it were scaled with the largest one. */
  function Scaled(c: int, maximum: int): real
    requires maximum > 0
  {
    c as real * (NextValue(maximum) as real / maximum as real)
  }

  /** A channel's share of the chroma, lifted: (share of the range) plus (what all have in common). */
  lemma ShareScales(c: int, low: int, maximum: int, next: real, share: real, chroma: real)
    requires 0 <= low < maximum && share == (c - low) as real / (maximum - low) as real
    requires chroma == next * ((maximum - low) as real / maximum as real)
    ensures chroma * share + (next - chroma) == c as real * (next / maximum as real)
  {
    var v, d, k := maximum as real, (maximum - low) as real, next / maximum as real;
    assert chroma == k * d;
    assert share * d == (c - low) as real;
    calc {
      chroma * share + (next - chroma);
    == { assert k * d * share == k * (share * d); }
      k * (c - low) as real + (k * v - k * d);
    ==
      c as real * k;
    }
  }

  lemma SharesLift(r: int, g: int, b: int, chroma: real, next: real)
    requires Largest(r, g, b) > Smallest(r, g, b)
    ensures Detour(Hue(r, g, b), chroma, next)
         == Color(chroma * Share(r, r, g, b) + (next - chroma), chroma * Share(g, r, g, b) + (next - chroma),
                  chroma * Share(b, r, g, b) + (next - chroma))
  {
    HueShares(r, g, b, chroma);
  }

  lemma ChannelScales(c: int, r: int, g: int, b: int, chroma: real)
    requires 0 <= Smallest(r, g, b) < Largest(r, g, b) && chroma == Chroma(r, g, b)
    ensures chroma * Share(c, r, g, b) + (NextValue(Largest(r, g, b)) as real - chroma) == Scaled(c, Largest(r, g, b))
  {
    var v, low := Largest(r, g, b), Smallest(r, g, b);
    assert Saturation(v, v - low) == (v - low) as real / v as real;
    ShareScales(c, low, v, NextValue(v) as real, Share(c, r, g, b), chroma);
  }

  lemma GreyScales(v: int)
    requires v > 0
    ensures Scaled(v, v) == NextValue(v) as real
    ensures Ripple(v, v, v) == Color(NextValue(v) as real, NextValue(v) as real, NextValue(v) as real)
  {
    assert Saturation(v, 0) == 0.0;
    assert Hue(v, v, v) == 0.0;
  }

  lemma NoChroma(hue: real, next: real)
    ensures Partial(hue, 0.0) == 0.0 && Detour(hue, 0.0, next) == Color(next, next, next)
  {
  }

  lemma ColorScales(r: int, g: int, b: int, c: Color)
    requires 0 <= Smallest(r, g, b) < Largest(r, g, b)
    requires c == Detour(Hue(r, g, b), Chroma(r, g, b), NextValue(Largest(r, g, b)) as real)
    ensures var v := Largest(r, g, b);
            c.red == Scaled(r, v) && c.green == Scaled(g, v) && c.blue == Scaled(b, v)
  {
    var chroma := Chroma(r, g, b);
    SharesLift(r, g, b, chroma, NextValue(Largest(r, g, b)) as real);
    ChannelScales(r, r, g, b, chroma);
    ChannelScales(g, r, g, b, chroma);
    ChannelScales(b, r, g, b, chroma);
  }

  lemma RippleOfBlack(r: int, g: int, b: int)
    requires r == 0 && g == 0 && b == 0
    ensures Ripple(r, g, b) == Color(32.0, 32.0, 32.0)
  {
    assert Saturation(0, 0) == 0.0;
    assert Chroma(r, g, b) == 0.0;
    NoChroma(Hue(r, g, b), 32.0);
  }

  /** The colour in closed form: black becomes a dark grey, any other colour is scaled. */
  function Closed(r: int, g: int, b: int): Color
    requires Channels(r, g, b)
  {
    var v := Largest(r, g, b);
    if v == 0 then Color(32.0, 32.0, 32.0) else Color(Scaled(r, v), Scaled(g, v), Scaled(b, v))
  }

  /** Through hue and saturation and back, each channel is just scaled with the largest one. */
  lemma RippleIsClosed(r: int, g: int, b: int)
    requires Channels(r, g, b)
    ensures Ripple(r, g, b) == Closed(r, g, b)
  {
    if Largest(r, g, b) > Smallest(r, g, b) {
      ColorScales(r, g, b, Ripple(r, g, b));
    } else if r > 0 {
      GreyScales(r);
    } else {
      RippleOfBlack(r, g, b);
    }
  }

  /** The largest channel moves by 32, away from its end of the scale, without ever being cut off. */
  lemma NextValueIs(v: int)
    requires 0 <= v < 256
    ensures NextValue(v) == if v > 128 then v - 32 else v + 32
    ensures 0 < NextValue(v) < 256
  {
  }

  // ---------- the bytes ----------

  /** The rounded channel, in whole numbers. */
  function ByteOf(c: int, maximum: int): int
    requires 0 <= c && 0 <= maximum
  {
    if maximum == 0 then 32 else (2 * c * NextValue(maximum) + maximum) / (2 * maximum)
  }

  lemma ScaledRounds(c: int, maximum: int)
    requires 0 <= c <= maximum < 256 && maximum > 0
    ensures Round(Scaled(c, maximum)) == ByteOf(c, maximum)
    ensures 0 <= ByteOf(c, maximum) <= NextValue(maximum)
  {
    NextValueIs(maximum);
    RoundsTo(c, NextValue(maximum), maximum, ByteOf(c, maximum));
  }

  lemma RoundsTo(c: int, n: int, v: int, q: int)
    requires 0 <= c <= v && 0 < v && 0 <= n && q == (2 * c * n + v) / (2 * v)
    ensures Round(c as real * (n as real / v as real)) == q && 0 <= q <= n
  {
    DividedBounds(2 * c * n + v, 2 * v);
    QuotientFloor(2 * c * n + v, 2 * v, q);
    HalfMore(c, n, v);
    ByteBound(c, n, v, q);
  }

  lemma DividedBounds(a: int, d: int)
    requires d > 0
    ensures a / d * d <= a < (a / d + 1) * d
  {
  }

  lemma HalfMore(c: int, n: int, v: int)
    requires v > 0
    ensures c as real * (n as real / v as real) + 0.5 == (2 * c * n + v) as real / (2 * v) as real
  {
    var x, y, z := c as real, n as real, v as real;
    assert (2 * c * n + v) as real == 2.0 * (x * y) + z;
    assert x * (y / z) == x * y / z;
    var w := x * y / z;
    assert w * z == x * y;
    assert 2.0 * (x * y) + z == (w + 0.5) * (2.0 * z);
    QuotientIs(2.0 * (x * y) + z, w + 0.5, 2.0 * z);
  }

  lemma QuotientIs(a: real, q: real, d: real)
    requires d > 0.0 && a == q * d
    ensures a / d == q
  {
  }

  lemma MultiplyBounds(a: int, b: int, d: int)
    requires a <= b && 0 <= d
    ensures a * d <= b * d
  {
  }

  lemma ByteBound(c: int, n: int, v: int, q: int)
    requires 0 <= c <= v && 0 < v && 0 <= n && q * (2 * v) <= 2 * c * n + v < (q + 1) * (2 * v)
    ensures 0 <= q <= n
  {
    MultiplyBounds(c, v, n);
    MultiplyBounds(0, c, n);
    if q > n {
      MultiplyBounds(n + 1, q, 2 * v);
    } else if q < 0 {
      MultiplyBounds(q + 1, 0, 2 * v);
    }
  }

  lemma QuotientFloor(a: int, d: int, q: int)
    requires d > 0 && q * d <= a < (q + 1) * d
    ensures (a as real / d as real).Floor == q
  {
    var x := a as real / d as real;
    assert x * d as real == a as real;
    assert (q * d) as real == q as real * d as real;
    assert ((q + 1) * d) as real == (q + 1) as real * d as real;
    assert q as real <= x < (q + 1) as real;
  }

  // ---------- the text ----------

  predicate IsHex(c: char) {
    '0' <= c <= '9' || 'a' <= c <= 'f' || 'A' <= c <= 'F'
  }

  function HexValue(c: char): (n: int)
    requires IsHex(c)
    ensures 0 <= n < 16
  {
    if '0' <= c <= '9' then c as int - '0' as int
    else if 'a' <= c <= 'f' then c as int - 'a' as int + 10
    else c as int - 'A' as int + 10
  }

  function HexDigit(n: int): (c: char)
    requires 0 <= n < 16
    ensures IsHex(c) && HexValue(c) == n
  {
    if n < 10 then ('0' as int + n) as char else ('a' as int + n - 10) as char
  }

  const LOWER := "0123456789abcdef"
  const UPPER := "0123456789ABCDEF"

  /** The letters count in either case. */
  lemma HexIs(c: char)
    ensures IsHex(c) <==> c in LOWER || c in UPPER
    ensures IsHex(c) ==> LOWER[HexValue(c)] == c || UPPER[HexValue(c)] == c
  {
    if '0' <= c <= '9' {
      assert LOWER[c as int - '0' as int] == c;
    } else if 'a' <= c <= 'f' {
      assert LOWER[c as int - 'a' as int + 10] == c;
    } else if 'A' <= c <= 'F' {
      assert UPPER[c as int - 'A' as int + 10] == c;
    }
  }

  /** A colour in the notation with a number sign and six hexadecimal digits. */
  predicate IsColor(value: string) {
    |value| == 7 && value[0] == '#' && forall i | 1 <= i < 7 :: IsHex(value[i])
  }

  function ByteAt(value: string, i: nat): int
    requires i + 1 < |value| && IsHex(value[i]) && IsHex(value[i + 1])
  {
    16 * HexValue(value[i]) + HexValue(value[i + 1])
  }

  function HexText(n: int): (text: string)
    requires 0 <= n < 256
    ensures 1 <= |text| <= 2
  {
    if n < 16 then [HexDigit(n)] else [HexDigit(n / 16), HexDigit(n % 16)]
  }

  function HexByte(value: real): (text: string)
    ensures |text| == 2 && IsHex(text[0]) && IsHex(text[1])
    ensures ByteAt(text, 0) == Max(0, Min(255, Round(value)))
  {
    var text := HexText(Max(0, Min(255, Round(value))));
    (if |text| < 2 then "0" else "") + text
  }

  function TextOf(c: Color): string {
    "#" + HexByte(c.red) + HexByte(c.green) + HexByte(c.blue)
  }

  function ButtonRippleForBackground(value: string): Option<string> {
    if IsColor(value) then Some(TextOf(Ripple(ByteAt(value, 1), ByteAt(value, 3), ByteAt(value, 5)))) else None
  }

  lemma ChannelByte(c: int, r: int, g: int, b: int, x: real)
    requires Channels(r, g, b) && (c == r || c == g || c == b)
    requires x == if Largest(r, g, b) > 0 then Scaled(c, Largest(r, g, b)) else 32.0
    ensures ByteAt(HexByte(x), 0) == ByteOf(c, Largest(r, g, b))
  {
    if Largest(r, g, b) > 0 {
      ScaledRounds(c, Largest(r, g, b));
      NextValueIs(Largest(r, g, b));
    }
  }

  lemma ClosedBytes(r: int, g: int, b: int, c: Color)
    requires Channels(r, g, b) && c == Closed(r, g, b)
    ensures var v := Largest(r, g, b);
            && ByteAt(HexByte(c.red), 0) == ByteOf(r, v) && ByteAt(HexByte(c.green), 0) == ByteOf(g, v)
            && ByteAt(HexByte(c.blue), 0) == ByteOf(b, v)
  {
    ChannelByte(r, r, g, b, c.red);
    ChannelByte(g, r, g, b, c.green);
    ChannelByte(b, r, g, b, c.blue);
  }

  lemma TextParts(x: string, y: string, z: string, text: string)
    requires |x| == 2 && |y| == 2 && |z| == 2 && text == "#" + x + y + z
    requires forall i | 0 <= i < 2 :: IsHex(x[i]) && IsHex(y[i]) && IsHex(z[i])
    ensures IsColor(text) && ByteAt(text, 1) == ByteAt(x, 0)
    ensures ByteAt(text, 3) == ByteAt(y, 0) && ByteAt(text, 5) == ByteAt(z, 0)
  {
  }

  /** The text has the bytes of the three channels, each the largest channel's scaling, rounded; no clamp is needed. */
  ghost predicate HasBytes(text: string, r: int, g: int, b: int)
    requires Channels(r, g, b)
  {
    var v := Largest(r, g, b);
    && IsColor(text)
    && ByteAt(text, 1) == ByteOf(r, v) && ByteAt(text, 3) == ByteOf(g, v) && ByteAt(text, 5) == ByteOf(b, v)
  }

  lemma TextBytes(r: int, g: int, b: int, c: Color)
    requires Channels(r, g, b) && c == Closed(r, g, b)
    ensures HasBytes(TextOf(c), r, g, b)
  {
    ClosedBytes(r, g, b, c);
    TextParts(HexByte(c.red), HexByte(c.green), HexByte(c.blue), TextOf(c));
  }

  /**
   * The ripple of a colour is a colour again, with every channel scaled like the largest one and rounded; anything
   * that is not a colour has none.
   */
  lemma RippleText(value: string)
    ensures ButtonRippleForBackground(value).Some? <==> IsColor(value)
    ensures IsColor(value) ==> HasBytes(ButtonRippleForBackground(value).value,
                                        ByteAt(value, 1), ByteAt(value, 3), ByteAt(value, 5))
  {
    if IsColor(value) {
      var r, g, b := ByteAt(value, 1), ByteAt(value, 3), ByteAt(value, 5);
      RippleIsClosed(r, g, b);
      TextBytes(r, g, b, Closed(r, g, b));
    }
  }
}
