// Conversion between RGB and HSL colours, over exact reals.
//
// `rounded` says whether the roundings of the original are performed: `To(c, true)` and `From(c, true)` are
// the two conversions, and with `false` in its place the numbers are passed on as computed.
module Hsl {
  import opened Wrappers

  datatype Rgba = Rgba(red: Option<real>, green: Option<real>, blue: Option<real>, alpha: Option<real>) {
    predicate Full() {
      red.Some? && green.Some? && blue.Some?
    }
  }

  datatype Hsla = Hsla(hue: Option<real>, saturation: Option<real>, lightness: Option<real>, alpha: Option<real>) {
    predicate Full() {
      hue.Some? && saturation.Some? && lightness.Some?
    }
  }

  function Max(r: real, g: real, b: real): real {
    var m := if r < g then g else r;
    if m < b then b else m
  }

  function Min(r: real, g: real, b: real): real {
    var m := if g < r then g else r;
    if b < m then b else m
  }

  function Abs(x: real): real {
    if x < 0.0 then -x else x
  }

  // Rounds halves upwards.
  function Round(x: real): real {
    (x + 0.5).Floor as real
  }

  // The remainder of truncating division, which has the sign of the dividend.
  function Remainder(x: real, m: real): real
    requires m > 0.0
  {
    if x >= 0.0 then x - m * ((x / m).Floor as real) else x + m * ((-x / m).Floor as real)
  }

  function HueToRgb(p: real, q: real, hue: real): real {
    var h := Remainder(hue + 1.0, 1.0);
    if h * 6.0 < 1.0 then p + (q - p) * h * 6.0
    else if h * 2.0 < 1.0 then q
    else if h * 3.0 < 2.0 then p + (q - p) * (2.0 / 3.0 - h) * 6.0
    else p
  }

  // The hue in degrees of a colour with channels scaled to [0, 1], not yet reduced modulo 360.
  function Hue(r: real, g: real, b: real): real {
    var max, min := Max(r, g, b), Min(r, g, b);
    var diff := max - min;
    if min == max then 0.0
    else if r == max then 60.0 * (g - b) / diff + 360.0
    else if g == max then 60.0 * (b - r) / diff + 120.0
    else 60.0 * (r - g) / diff + 240.0
  }

  // Outside of [0, 255] the divisor 2 - (max + min) can be zero, where the original divides to an infinity.
  function Saturation(r: real, g: real, b: real): real
    requires 0.0 <= r <= 1.0 && 0.0 <= g <= 1.0 && 0.0 <= b <= 1.0
  {
    var diff, add := Max(r, g, b) - Min(r, g, b), Max(r, g, b) + Min(r, g, b);
    if diff == 0.0 then 0.0
    else if add * 0.5 <= 0.5 then diff / add
    else diff / (2.0 - add)
  }

  predicate InRange(c: Rgba) {
    c.Full() ==> 0.0 <= c.red.value <= 255.0 && 0.0 <= c.green.value <= 255.0 && 0.0 <= c.blue.value <= 255.0
  }

  function To(c: Rgba, rounded: bool): Hsla
    requires InRange(c)
  {
    if !c.Full() then Hsla(None, None, None, c.alpha)
    else
      var r, g, b := c.red.value / 255.0, c.green.value / 255.0, c.blue.value / 255.0;
      var h := Hue(r, g, b);
      Hsla(Some(Remainder(if rounded then Round(h) else h, 360.0)),
           Some(Saturation(r, g, b)),
           Some((Max(r, g, b) + Min(r, g, b)) * 0.5),
           if c.alpha.None? then Some(1.0) else c.alpha)
  }

  function Upper(s: real, l: real): real {
    if l <= 0.5 then l * (1.0 + s) else l + s - l * s
  }

  // The three channels at a place x on the wheel of one turn.
  function Paint(p: real, q: real, x: real, alpha: Option<real>, rounded: bool): Rgba {
    var r, g, b := HueToRgb(p, q, x + 1.0 / 3.0) * 255.0, HueToRgb(p, q, x) * 255.0,
                   HueToRgb(p, q, x - 1.0 / 3.0) * 255.0;
    if rounded then Rgba(Some(Round(r)), Some(Round(g)), Some(Round(b)), alpha)
    else Rgba(Some(r), Some(g), Some(b), alpha)
  }

  function From(c: Hsla, rounded: bool): Rgba {
    if !c.Full() then Rgba(None, None, None, c.alpha)
    else
      var q := Upper(c.saturation.value, c.lightness.value);
      Paint(2.0 * c.lightness.value - q, q, c.hue.value / 360.0, c.alpha, rounded)
  }

  // How far apart two colours are in their most different channel.
  ghost predicate Within(c: Rgba, d: Rgba, distance: real)
    requires c.Full() && d.Full()
  {
    && Abs(c.red.value - d.red.value) <= distance
    && Abs(c.green.value - d.green.value) <= distance
    && Abs(c.blue.value - d.blue.value) <= distance
  }

  ////////// The profile of one channel around the colour wheel

  function Fraction(x: real): real {
    x - (x.Floor as real)
  }

  // The share of the range between p and q that a channel has at a fraction of a turn: it rises, stays, falls
  // and stays again.
  function Tent(h: real): real {
    if h * 6.0 < 1.0 then h * 6.0
    else if h * 2.0 < 1.0 then 1.0
    else if h * 3.0 < 2.0 then 4.0 - 6.0 * h
    else 0.0
  }

  function Wave(x: real): real {
    Tent(Fraction(x))
  }

  // The value a share of the way from p to q.
  function Mix(p: real, q: real, share: real): real {
    p + (q - p) * share
  }

  lemma FractionPeriod(x: real, k: int)
    ensures Fraction(x + k as real) == Fraction(x)
  {
    assert (x + k as real).Floor == x.Floor + k;
  }

  lemma RemainderIsFraction(x: real)
    requires x >= 0.0
    ensures Remainder(x, 1.0) == Fraction(x)
  {
    assert x / 1.0 == x;
  }

  lemma ScaledWave(p: real, q: real, h: real)
    requires h >= -1.0
    ensures HueToRgb(p, q, h) == Mix(p, q, Wave(h))
  {
    RemainderIsFraction(h + 1.0);
    FractionPeriod(h, 1);
    var f := Fraction(h);
    assert (q - p) * (2.0 / 3.0 - f) * 6.0 == (q - p) * (4.0 - 6.0 * f);
    assert (q - p) * f * 6.0 == (q - p) * (f * 6.0);
  }

  // A channel changes by at most six times the change of the hue.
  lemma WaveIsLipschitz(x: real, y: real)
    requires x <= y
    ensures Abs(Wave(x) - Wave(y)) <= 6.0 * (y - x)
  {
    var a, b := Fraction(x), Fraction(y);
    if y.Floor == x.Floor {
      assert b - a == y - x;
    } else if y.Floor == x.Floor + 1 {
      assert y - x == b + 1.0 - a;
    } else {
      assert y - x >= 1.0;
    }
  }

  ////////// The round trip

  // The three profiles near the middle of a sector: one channel is full, and the sign of t tells which of the
  // others is not empty.
  lemma Sector(t: real)
    requires -1.0 <= t <= 1.0
    ensures Wave(t / 6.0 + 1.0 / 3.0) == 1.0
    ensures Wave(t / 6.0) == Wave(t / 6.0 + 1.0) == if t > 0.0 then t else 0.0
    ensures Wave(t / 6.0 + 2.0 / 3.0) == if t < 0.0 then -t else 0.0
  {
    FractionPeriod(t / 6.0, 1);
    assert (t / 6.0).Floor == if t < 0.0 then -1 else 0;
  }

  lemma Share(n: real, diff: real)
    requires diff > 0.0 && -diff <= n <= diff
    ensures -1.0 <= n / diff <= 1.0
    ensures diff * (n / diff) == n
    ensures 60.0 * n / diff == 60.0 * (n / diff)
    ensures (n / diff > 0.0 <==> n > 0.0) && (n / diff < 0.0 <==> n < 0.0)
  {
  }

  // The same, where the place in the sector comes from a difference n of two channels.
  lemma Heights(n: real, diff: real) returns (x: real)
    requires diff > 0.0 && -diff <= n <= diff
    ensures x == 60.0 * n / diff / 360.0 && -1.0 / 6.0 <= x <= 1.0 / 6.0
    ensures diff * Wave(x + 1.0 / 3.0) == diff * Wave(x + 4.0 / 3.0) == diff
    ensures diff * Wave(x) == diff * Wave(x + 1.0) == if n > 0.0 then n else 0.0
    ensures diff * Wave(x + 2.0 / 3.0) == if n < 0.0 then -n else 0.0
  {
    var t := n / diff;
    Share(n, diff);
    x := t / 6.0;
    Sector(t);
    assert x + 4.0 / 3.0 == x + 1.0 / 3.0 + 1 as real;
    FractionPeriod(x + 1.0 / 3.0, 1);
    assert diff * -t == -n;
    assert Wave(x) == if n > 0.0 then t else 0.0;
    assert Wave(x + 2.0 / 3.0) == if n < 0.0 then -t else 0.0;
  }

  // What the three profiles have to be at a place x on the wheel to give the channels r, g and b.
  ghost predicate Splits(x: real, r: real, g: real, b: real, min: real, max: real) {
    && r == Mix(min, max, Wave(x + 1.0 / 3.0))
    && g == Mix(min, max, Wave(x))
    && b == Mix(min, max, Wave(x - 1.0 / 3.0))
  }

  lemma RedSector(r: real, g: real, b: real, min: real)
    requires min < r && min <= g <= r && min <= b <= r && (g == min || b == min)
    ensures Splits((60.0 * (g - b) / (r - min) + 360.0) / 360.0, r, g, b, min, r)
  {
    var x := Heights(g - b, r - min);
    assert x + 1.0 + 1.0 / 3.0 == x + 4.0 / 3.0 && x + 1.0 - 1.0 / 3.0 == x + 2.0 / 3.0;
  }

  lemma GreenSector(r: real, g: real, b: real, min: real)
    requires min < g && min <= r <= g && min <= b <= g && (r == min || b == min)
    ensures Splits((60.0 * (b - r) / (g - min) + 120.0) / 360.0, r, g, b, min, g)
  {
    var x := Heights(b - r, g - min);
    assert x + 1.0 / 3.0 + 1.0 / 3.0 == x + 2.0 / 3.0 && x + 1.0 / 3.0 - 1.0 / 3.0 == x;
  }

  lemma BlueSector(r: real, g: real, b: real, min: real)
    requires min < b && min <= r <= b && min <= g <= b && (r == min || g == min)
    ensures Splits((60.0 * (r - g) / (b - min) + 240.0) / 360.0, r, g, b, min, b)
  {
    var x := Heights(r - g, b - min);
    assert x + 2.0 / 3.0 + 1.0 / 3.0 == x + 1.0 && x + 2.0 / 3.0 - 1.0 / 3.0 == x + 1.0 / 3.0;
  }

  // At the hue of a colour the three profiles, a third of a turn apart, have the heights of its channels.
  lemma HueSplits(r: real, g: real, b: real)
    ensures 0.0 <= Hue(r, g, b) <= 420.0
    ensures Splits(Hue(r, g, b) / 360.0, r, g, b, Min(r, g, b), Max(r, g, b))
  {
    var min, diff := Min(r, g, b), Max(r, g, b) - Min(r, g, b);
    if diff == 0.0 {
      Grey(min, Hue(r, g, b) / 360.0);
    } else if r == Max(r, g, b) {
      Share(g - b, diff);
      RedSector(r, g, b, min);
    } else if g == Max(r, g, b) {
      Share(b - r, diff);
      GreenSector(r, g, b, min);
    } else {
      Share(r - g, diff);
      BlueSector(r, g, b, min);
    }
  }

  lemma Grey(y: real, x: real)
    ensures Splits(x, y, y, y, y, y)
  {
    assert forall share :: Mix(y, y, share) == y;
  }

  // Lightness and saturation give back the largest and the smallest channel.
  lemma UpperIsMax(r: real, g: real, b: real)
    requires 0.0 <= r <= 1.0 && 0.0 <= g <= 1.0 && 0.0 <= b <= 1.0
    ensures var l := (Max(r, g, b) + Min(r, g, b)) * 0.5;
      && Upper(Saturation(r, g, b), l) == Max(r, g, b)
      && 2.0 * l - Upper(Saturation(r, g, b), l) == Min(r, g, b)
  {
  }

  // The channel at a place x on the wheel, in a colour whose channels range from p to q.
  function Level(p: real, q: real, x: real): real {
    Mix(p, q, Wave(x)) * 255.0
  }

  function Levels(p: real, q: real, x: real, alpha: Option<real>): Rgba {
    Rgba(Some(Level(p, q, x + 1.0 / 3.0)), Some(Level(p, q, x)), Some(Level(p, q, x - 1.0 / 3.0)), alpha)
  }

  lemma OneChannel(p: real, q: real, x: real, k: int)
    requires -1.0 <= x
    ensures HueToRgb(p, q, x) * 255.0 == Level(p, q, x + k as real)
  {
    ScaledWave(p, q, x);
    FractionPeriod(x, k);
  }

  // Any number of turns away the channels are the same.
  lemma Channels(p: real, q: real, x: real, k: int, alpha: Option<real>)
    requires x >= 0.0
    ensures Paint(p, q, x, alpha, false) == Levels(p, q, x + k as real, alpha)
  {
    var y := x + k as real;
    OneChannel(p, q, x + 1.0 / 3.0, k);
    OneChannel(p, q, x, k);
    OneChannel(p, q, x - 1.0 / 3.0, k);
    assert x + 1.0 / 3.0 + k as real == y + 1.0 / 3.0 && x - 1.0 / 3.0 + k as real == y - 1.0 / 3.0;
  }

  lemma Painted(p: real, q: real, h: real, s: real, l: real, alpha: Option<real>)
    requires h >= 0.0 && Upper(s, l) == q && 2.0 * l - q == p
    ensures From(Hsla(Some(Remainder(h, 360.0)), Some(s), Some(l), alpha), false) == Levels(p, q, h / 360.0, alpha)
  {
    var x, k := Remainder(h, 360.0) / 360.0, (h / 360.0).Floor;
    assert x >= 0.0 && h / 360.0 == x + k as real;
    Channels(p, q, x, k, alpha);
  }

  // There and back, whatever becomes of the hue h on the way.
  lemma Back(r: real, g: real, b: real, h: real, alpha: Option<real>)
    requires 0.0 <= r <= 1.0 && 0.0 <= g <= 1.0 && 0.0 <= b <= 1.0 && h >= 0.0
    ensures From(Hsla(Some(Remainder(h, 360.0)), Some(Saturation(r, g, b)),
                      Some((Max(r, g, b) + Min(r, g, b)) * 0.5), alpha), false)
         == Levels(Min(r, g, b), Max(r, g, b), h / 360.0, alpha)
  {
    UpperIsMax(r, g, b);
    Painted(Min(r, g, b), Max(r, g, b), h, Saturation(r, g, b), (Max(r, g, b) + Min(r, g, b)) * 0.5, alpha);
  }

  lemma LevelsOfHue(r: real, g: real, b: real, alpha: Option<real>)
    ensures Levels(Min(r, g, b), Max(r, g, b), Hue(r, g, b) / 360.0, alpha)
         == Rgba(Some(r * 255.0), Some(g * 255.0), Some(b * 255.0), alpha)
  {
    HueSplits(r, g, b);
  }

  // Without the roundings the second conversion undoes the first; a colour with an absent channel loses the other
  // channels, and a missing alpha becomes 1 only beside three channels.
  lemma RoundTrip(c: Rgba)
    requires InRange(c)
    ensures From(To(c, false), false) == if !c.Full() then Rgba(None, None, None, c.alpha)
                                         else if c.alpha.None? then c.(alpha := Some(1.0)) else c
  {
    if c.Full() {
      var r, g, b := c.red.value / 255.0, c.green.value / 255.0, c.blue.value / 255.0;
      var alpha := To(c, false).alpha;
      HueSplits(r, g, b);
      Back(r, g, b, Hue(r, g, b), alpha);
      LevelsOfHue(r, g, b, alpha);
    }
  }

  lemma Shrinks(k: real, d: real)
    requires 0.0 <= k <= 1.0 && 0.0 <= d
    ensures 0.0 <= k * d <= d
  {
    assert (1.0 - k) * d >= 0.0;
  }

  lemma MixIsLipschitz(p: real, q: real, a: real, b: real)
    requires 0.0 <= q - p <= 1.0
    ensures Abs(Mix(p, q, a) - Mix(p, q, b)) <= Abs(a - b)
  {
    assert Mix(p, q, a) - Mix(p, q, b) == (q - p) * (a - b);
    assert (q - p) * (a - b) == -((q - p) * (b - a));
    if a >= b {
      Shrinks(q - p, a - b);
    } else {
      Shrinks(q - p, b - a);
    }
  }

  // A hue that is off by at most half a degree moves each channel by at most 17/8.
  lemma NearHue(p: real, q: real, h: real, k: real, alpha: Option<real>)
    requires 0.0 <= q - p <= 1.0 && Abs(h - k) <= 0.5
    ensures Within(Levels(p, q, h / 360.0, alpha), Levels(p, q, k / 360.0, alpha), 17.0 / 8.0)
  {
    Nearby(p, q, h / 360.0 + 1.0 / 3.0, k / 360.0 + 1.0 / 3.0);
    Nearby(p, q, h / 360.0, k / 360.0);
    Nearby(p, q, h / 360.0 - 1.0 / 3.0, k / 360.0 - 1.0 / 3.0);
  }

  lemma Nearby(p: real, q: real, x: real, y: real)
    requires 0.0 <= q - p <= 1.0 && Abs(x - y) <= 1.0 / 720.0
    ensures Abs(Level(p, q, x) - Level(p, q, y)) <= 17.0 / 8.0
  {
    if x <= y {
      WaveIsLipschitz(x, y);
    } else {
      WaveIsLipschitz(y, x);
    }
    MixIsLipschitz(p, q, Wave(x), Wave(y));
  }

  lemma ToRounded(c: Rgba, r: real, g: real, b: real)
    requires c.Full() && c.red.value / 255.0 == r && c.green.value / 255.0 == g && c.blue.value / 255.0 == b
    requires 0.0 <= r <= 1.0 && 0.0 <= g <= 1.0 && 0.0 <= b <= 1.0
    ensures To(c, true) == Hsla(Some(Remainder(Round(Hue(r, g, b)), 360.0)), Some(Saturation(r, g, b)),
                                Some((Max(r, g, b) + Min(r, g, b)) * 0.5), To(c, true).alpha)
  {
  }

  lemma BackFromRounded(c: Rgba, r: real, g: real, b: real)
    requires c.Full() && c.red.value / 255.0 == r && c.green.value / 255.0 == g && c.blue.value / 255.0 == b
    requires 0.0 <= r <= 1.0 && 0.0 <= g <= 1.0 && 0.0 <= b <= 1.0
    ensures From(To(c, true), false)
         == Levels(Min(r, g, b), Max(r, g, b), Round(Hue(r, g, b)) / 360.0, To(c, true).alpha)
  {
    HueSplits(r, g, b);
    ToRounded(c, r, g, b);
    Back(r, g, b, Round(Hue(r, g, b)), To(c, true).alpha);
  }

  // Rounding the hue to a whole degree moves no channel by more than 17/8.
  lemma RoundedHue(c: Rgba)
    requires c.Full() && InRange(c)
    ensures Within(From(To(c, true), false), c, 17.0 / 8.0)
  {
    var r, g, b := c.red.value / 255.0, c.green.value / 255.0, c.blue.value / 255.0;
    var h, alpha := Hue(r, g, b), To(c, true).alpha;
    BackFromRounded(c, r, g, b);
    NearHue(Min(r, g, b), Max(r, g, b), Round(h), h, alpha);
    LevelsOfHue(r, g, b, alpha);
  }

  // No smaller bound holds: it is reached by every colour of the full range with a hue of 120 and a half degrees.
  lemma BoundIsReached(c: Rgba, r: real, g: real, b: real)
    requires c.Full() && c.red.value / 255.0 == r && c.green.value / 255.0 == g && c.blue.value / 255.0 == b
    requires Min(r, g, b) == 0.0 && Max(r, g, b) == 1.0 && Hue(r, g, b) == 120.5
    ensures From(To(c, true), false).blue.value - c.blue.value == 17.0 / 8.0
    // There is such a colour.
    ensures Min(0.0, 1.0, 1.0 / 120.0) == 0.0 && Max(0.0, 1.0, 1.0 / 120.0) == 1.0 && Hue(0.0, 1.0, 1.0 / 120.0) == 120.5
  {
  }

  ghost predicate Whole(x: real) {
    x == x.Floor as real
  }

  // With every rounding in place, a colour of whole channels comes back with each channel off by at most 2.
  lemma WholeChannels(c: Rgba)
    requires c.Full() && InRange(c) && Whole(c.red.value) && Whole(c.green.value) && Whole(c.blue.value)
    ensures Within(From(To(c, true), true), c, 2.0)
  {
    RoundedHue(c);
    var d := From(To(c, true), false);
    RoundNear(d.red.value, c.red.value);
    RoundNear(d.green.value, c.green.value);
    RoundNear(d.blue.value, c.blue.value);
  }

  lemma RoundNear(x: real, y: real)
    requires Whole(y) && Abs(x - y) <= 17.0 / 8.0
    ensures Abs(Round(x) - y) <= 2.0
  {
    var k, n := (x + 0.5).Floor, y.Floor;
    assert -3.0 < (k - n) as real < 3.0;
  }

  ////////// The opposite round trip

  lemma Grows(a: real, b: real)
    requires a > 0.0 && b > 0.0
    ensures a * b > 0.0
  {
  }

  lemma Cancels(t: real, d: real)
    requires d != 0.0
    ensures t * d / d == t
  {
  }

  lemma Portion(s: real, end: real) returns (part: real)
    requires 0.0 < s <= 1.0 && 0.0 < end
    ensures part == s * end && 0.0 < part <= end
  {
    part := s * end;
    Grows(s, end);
    Shrinks(s, end);
  }

  // Half the range that a saturation and a lightness stand for is a part of the distance to the nearer end.
  lemma HalfRange(s: real, l: real) returns (part: real)
    requires 0.0 < s <= 1.0 && 0.0 < l < 1.0
    ensures Upper(s, l) == l + part
    ensures 0.0 < part <= (if l <= 0.5 then l else 1.0 - l)
    ensures 2.0 * part / (if l <= 0.5 then 2.0 * l else 2.0 - 2.0 * l) == s
  {
    var end := if l <= 0.5 then l else 1.0 - l;
    part := Portion(s, end);
    assert Upper(s, l) == l + part;
    assert 2.0 * part == s * (2.0 * end);
    Cancels(s, 2.0 * end);
  }

  // The place x on the wheel as a sector, 0 for red, 2 for green and 4 for blue, and a position t within it.
  lemma Heading(x: real) returns (t: real, center: real)
    requires 0.0 <= x < 1.0
    ensures -1.0 <= t <= 1.0
    ensures center == 0.0 || center == 2.0 || center == 4.0
    ensures x == (center + t) / 6.0 || (center == 0.0 && x == (t + 6.0) / 6.0)
    ensures center == 0.0 ==>
      Wave(x + 1.0 / 3.0) == 1.0 && Wave(x) == Positive(t) && Wave(x - 1.0 / 3.0) == Positive(-t)
    ensures center == 2.0 ==>
      t > -1.0 && Wave(x) == 1.0 && Wave(x - 1.0 / 3.0) == Positive(t) && Wave(x + 1.0 / 3.0) == Positive(-t)
    ensures center == 4.0 ==>
      -1.0 < t < 1.0 && Wave(x - 1.0 / 3.0) == 1.0 && Wave(x + 1.0 / 3.0) == Positive(t) && Wave(x) == Positive(-t)
  {
    center := if x <= 1.0 / 6.0 || x >= 5.0 / 6.0 then 0.0 else if x <= 0.5 then 2.0 else 4.0;
    t := if x >= 5.0 / 6.0 then 6.0 * x - 6.0 else 6.0 * x - center;
    FractionPeriod(x + 1.0 / 3.0, -1);
    FractionPeriod(x - 1.0 / 3.0, 1);
    assert Fraction(x) == x;
    assert Fraction(x + 1.0 / 3.0) == if x < 2.0 / 3.0 then x + 1.0 / 3.0 else x - 2.0 / 3.0;
    assert Fraction(x - 1.0 / 3.0) == if x < 1.0 / 3.0 then x + 2.0 / 3.0 else x - 1.0 / 3.0;
  }

  function Positive(t: real): real {
    if t > 0.0 then t else 0.0
  }

  lemma Between(p: real, q: real, u: real)
    requires p < q && 0.0 <= u <= 1.0
    ensures p <= Mix(p, q, u) <= q
    ensures u < 1.0 ==> Mix(p, q, u) < q
    ensures u == 0.0 ==> Mix(p, q, u) == p
    ensures u == 1.0 ==> Mix(p, q, u) == q
  {
    var part := u * (q - p);
    assert Mix(p, q, u) == p + part;
    Shrinks(u, q - p);
    if u < 1.0 {
      Grows(1.0 - u, q - p);
      assert (1.0 - u) * (q - p) == (q - p) - part;
    }
  }

  // Two channels that are t apart on the profile are t apart in the range, and only a full one reaches the top.
  lemma Spread(p: real, q: real, t: real)
    requires p < q && -1.0 <= t <= 1.0
    ensures p <= Mix(p, q, Positive(t)) <= q && p <= Mix(p, q, Positive(-t)) <= q
    ensures t <= 0.0 ==> Mix(p, q, Positive(t)) == p
    ensures t >= 0.0 ==> Mix(p, q, Positive(-t)) == p
    ensures t < 1.0 ==> Mix(p, q, Positive(t)) < q
    ensures t > -1.0 ==> Mix(p, q, Positive(-t)) < q
    ensures Mix(p, q, 1.0) == q
    ensures 60.0 * (Mix(p, q, Positive(t)) - Mix(p, q, Positive(-t))) / (q - p) == 60.0 * t
  {
    var a, b := Positive(t), Positive(-t);
    Between(p, q, a);
    Between(p, q, b);
    Between(p, q, 1.0);
    assert Mix(p, q, a) - Mix(p, q, b) == (q - p) * (a - b);
    assert a - b == t;
    assert 60.0 * ((q - p) * t) == (60.0 * t) * (q - p);
    Cancels(60.0 * t, q - p);
  }

  lemma OneTurn(x: real)
    requires 0.0 <= x < 1.0
    ensures Remainder(360.0 * x, 360.0) == Remainder(360.0 * x + 360.0, 360.0) == 360.0 * x
  {
    assert (360.0 * x / 360.0).Floor == 0;
    assert ((360.0 * x + 360.0) / 360.0).Floor == 1;
  }

  // The hue of the channels at a place on the wheel is that place.
  lemma HueOfLevels(p: real, q: real, x: real, r: real, g: real, b: real)
    requires p < q && 0.0 <= x < 1.0
    requires Splits(x, r, g, b, p, q)
    ensures Max(r, g, b) == q && Min(r, g, b) == p
    ensures Remainder(Hue(r, g, b), 360.0) == 360.0 * x
  {
    var t, center := Heading(x);
    Spread(p, q, t);
    OneTurn(x);
    if center == 0.0 {
      assert Hue(r, g, b) == 60.0 * t + 360.0;
    } else if center == 2.0 {
      assert Hue(r, g, b) == 60.0 * t + 120.0;
    } else {
      assert Hue(r, g, b) == 60.0 * t + 240.0;
    }
  }

  lemma ToScaled(r: real, g: real, b: real, alpha: Option<real>)
    requires 0.0 <= r <= 1.0 && 0.0 <= g <= 1.0 && 0.0 <= b <= 1.0
    ensures var c := Rgba(Some(r * 255.0), Some(g * 255.0), Some(b * 255.0), alpha);
      InRange(c) && To(c, false) ==
        Hsla(Some(Remainder(Hue(r, g, b), 360.0)), Some(Saturation(r, g, b)), Some((Max(r, g, b) + Min(r, g, b)) * 0.5),
             if alpha.None? then Some(1.0) else alpha)
  {
    assert r * 255.0 / 255.0 == r && g * 255.0 / 255.0 == g && b * 255.0 / 255.0 == b;
  }

  lemma SaturationOf(r: real, g: real, b: real, s: real, l: real, part: real)
    requires 0.0 <= r <= 1.0 && 0.0 <= g <= 1.0 && 0.0 <= b <= 1.0
    requires 0.0 < l < 1.0 && 0.0 < part && Max(r, g, b) == l + part && Min(r, g, b) == l - part
    requires 2.0 * part / (if l <= 0.5 then 2.0 * l else 2.0 - 2.0 * l) == s
    ensures Saturation(r, g, b) == s && (Max(r, g, b) + Min(r, g, b)) * 0.5 == l
  {
  }

  // Without the roundings the first conversion undoes the second, for every colour that has a hue.
  lemma RoundTripBack(c: Hsla)
    requires c.Full() && 0.0 <= c.hue.value < 360.0
    requires 0.0 < c.saturation.value <= 1.0 && 0.0 < c.lightness.value < 1.0
    ensures var d := From(c, false);
      InRange(d) && To(d, false) == c.(alpha := if c.alpha.None? then Some(1.0) else c.alpha)
  {
    var s, l, x := c.saturation.value, c.lightness.value, c.hue.value / 360.0;
    var part := HalfRange(s, l);
    var p, q := l - part, l + part;
    var r, g, b := Mix(p, q, Wave(x + 1.0 / 3.0)), Mix(p, q, Wave(x)), Mix(p, q, Wave(x - 1.0 / 3.0));
    HueOfLevels(p, q, x, r, g, b);
    SaturationOf(r, g, b, s, l, part);
    ToScaled(r, g, b, c.alpha);
    FromPlace(c, p, q, x);
  }

  lemma FromPlace(c: Hsla, p: real, q: real, x: real)
    requires c.Full() && c.hue.value / 360.0 == x >= 0.0
    requires Upper(c.saturation.value, c.lightness.value) == q && 2.0 * c.lightness.value - q == p
    ensures From(c, false) == Levels(p, q, x, c.alpha)
  {
    Channels(p, q, x, 0, c.alpha);
    assert x + 0 as real == x;
  }

  ////////// Where the colours stand

  function Solid(r: real, g: real, b: real): Rgba {
    Rgba(Some(r * 255.0), Some(g * 255.0), Some(b * 255.0), Some(1.0))
  }

  function Pure(h: real): Hsla {
    Hsla(Some(h), Some(1.0), Some(0.5), Some(1.0))
  }

  lemma HuesAre()
    ensures Hue(1.0, 0.0, 0.0) == 360.0 && Hue(1.0, 1.0, 0.0) == 420.0 && Hue(0.0, 1.0, 0.0) == 120.0
    ensures Hue(0.0, 1.0, 1.0) == 180.0 && Hue(0.0, 0.0, 1.0) == 240.0 && Hue(1.0, 0.0, 1.0) == 300.0
  {
  }

  lemma ToSolid(r: real, g: real, b: real, rounded: bool)
    requires 0.0 <= r <= 1.0 && 0.0 <= g <= 1.0 && 0.0 <= b <= 1.0
    ensures InRange(Solid(r, g, b))
    ensures To(Solid(r, g, b), rounded)
         == Hsla(Some(Remainder(if rounded then Round(Hue(r, g, b)) else Hue(r, g, b), 360.0)), Some(Saturation(r, g, b)),
                 Some((Max(r, g, b) + Min(r, g, b)) * 0.5), Some(1.0))
  {
    assert r * 255.0 / 255.0 == r && g * 255.0 / 255.0 == g && b * 255.0 / 255.0 == b;
  }

  lemma WholeHue(hue: real, h: int)
    requires 0 <= h < 360 && (hue == h as real || hue == h as real + 360.0)
    ensures Round(hue) == hue && Remainder(hue, 360.0) == h as real
  {
    assert hue == (if hue == h as real then h else h + 360) as real;
    var turns := if hue == h as real then 0 else 1;
    assert turns as real <= hue / 360.0 < turns as real + 1.0;
  }

  lemma FullRange(r: real, g: real, b: real)
    requires 0.0 <= r <= 1.0 && 0.0 <= g <= 1.0 && 0.0 <= b <= 1.0 && Max(r, g, b) == 1.0 && Min(r, g, b) == 0.0
    ensures Saturation(r, g, b) == 1.0
  {
  }

  lemma SolidIs(r: real, g: real, b: real, h: int, rounded: bool)
    requires 0.0 <= r <= 1.0 && 0.0 <= g <= 1.0 && 0.0 <= b <= 1.0 && Max(r, g, b) == 1.0 && Min(r, g, b) == 0.0
    requires 0 <= h < 360 && (Hue(r, g, b) == h as real || Hue(r, g, b) == h as real + 360.0)
    ensures InRange(Solid(r, g, b)) && To(Solid(r, g, b), rounded) == Pure(h as real)
  {
    ToSolid(r, g, b, rounded);
    WholeHue(Hue(r, g, b), h);
    FullRange(r, g, b);
  }

  // Red, yellow, green, cyan, blue and magenta stand a sixth of a turn apart, saturated and half light.
  lemma PureColours(rounded: bool)
    ensures To(Solid(1.0, 0.0, 0.0), rounded) == Pure(0.0) && To(Solid(1.0, 1.0, 0.0), rounded) == Pure(60.0)
    ensures To(Solid(0.0, 1.0, 0.0), rounded) == Pure(120.0) && To(Solid(0.0, 1.0, 1.0), rounded) == Pure(180.0)
    ensures To(Solid(0.0, 0.0, 1.0), rounded) == Pure(240.0) && To(Solid(1.0, 0.0, 1.0), rounded) == Pure(300.0)
  {
    HuesAre();
    SolidIs(1.0, 0.0, 0.0, 0, rounded);
    SolidIs(1.0, 1.0, 0.0, 60, rounded);
    SolidIs(0.0, 1.0, 0.0, 120, rounded);
    SolidIs(0.0, 1.0, 1.0, 180, rounded);
    SolidIs(0.0, 0.0, 1.0, 240, rounded);
    SolidIs(1.0, 0.0, 1.0, 300, rounded);
  }

  // A grey has no saturation, and is as light as its channels; it has hue 0.
  lemma Greys(y: real, rounded: bool)
    requires 0.0 <= y <= 1.0
    ensures To(Solid(y, y, y), rounded) == Hsla(Some(0.0), Some(0.0), Some(y), Some(1.0))
  {
  }
}
