/**
 * The colour arithmetic of ws2812.c: colours packed as 0xGGRRBB in a u32 (the WS2812
 * wire order), brightness scaling, the blend of two colours and the integer HSV
 * conversion.
 */
module Ws2812Color {
  import opened Ints

  /** The three channels of one LED. */
  datatype Rgb = Rgb(red: u8, green: u8, blue: u8)

  const BLACK := Rgb(0, 0, 0)

  /** The named colours of ws2812.h, in GRB packing. */
  const COLOR_RED: u32 := 0x00FF00
  const COLOR_GREEN: u32 := 0xFF0000
  const COLOR_BLUE: u32 := 0x0000FF
  const COLOR_WHITE: u32 := 0xFFFFFF
  const COLOR_YELLOW: u32 := 0xFFFF00
  const COLOR_PURPLE: u32 := 0x00FFFF
  const COLOR_CYAN: u32 := 0xFF00FF
  const COLOR_OFF: u32 := 0x000000

  /** (color >> 8) & 0xFF, (color >> 16) & 0xFF and color & 0xFF. */
  function Unpack(c: u32): Rgb
  {
    Rgb((c / 0x100) % 0x100, (c / 0x1_0000) % 0x100, c % 0x100)
  }

  /** ((u32)g << 16) | ((u32)r << 8) | b: the three fields do not overlap, so | is +. */
  function Pack(x: Rgb): u32
  {
    x.green * 0x1_0000 + x.red * 0x100 + x.blue
  }

  /** Packing three channels and unpacking them gives the channels back. */
  lemma UnpackPack(x: Rgb)
    ensures Unpack(Pack(x)) == x
  {
    var c := Pack(x);
    LowByteSplit(x.blue, x.green * 0x100 + x.red);
    assert c / 0x100 == x.green * 0x100 + x.red;
    LowByteSplit(x.red, x.green);
    DivExact(c, 0x1_0000, x.green, x.red * 0x100 + x.blue);
  }

  /** Unpacking and repacking keeps the low 24 bits, which is all a colour uses. */
  lemma PackUnpack(c: u32)
    ensures Pack(Unpack(c)) == c % 0x100_0000
  {
    var hi := c / 0x100;
    assert c == hi * 0x100 + c % 0x100;
    assert hi == (hi / 0x100) * 0x100 + hi % 0x100;
    assert c / 0x1_0000 == hi / 0x100 by {
      DivExact(c, 0x1_0000, hi / 0x100, (hi % 0x100) * 0x100 + c % 0x100);
    }
    var g := (hi / 0x100) % 0x100;
    assert hi / 0x100 == (hi / 0x100 / 0x100) * 0x100 + g;
    assert c == (hi / 0x100 / 0x100) * 0x100_0000 + Pack(Unpack(c));
    DivExact(c, 0x100_0000, hi / 0x100 / 0x100, Pack(Unpack(c)));
  }

  /** One channel shown at a brightness percentage: (u8)(channel·brightness/100). */
  function Scale(ch: u8, brightness: u8): u8
  {
    Wrap8(ch * brightness / 100)
  }

  /** At a brightness of at most 100 a channel is never brightened; 100 shows it as stored, 0 turns it off. */
  lemma ScaleDims(ch: u8, brightness: u8)
    requires brightness <= 100
    ensures Scale(ch, brightness) <= ch
    ensures brightness == 100 ==> Scale(ch, brightness) == ch
    ensures brightness == 0 ==> Scale(ch, brightness) == 0
  {
    MulMonotone(ch, brightness, 100);
    DivMonotone(ch * brightness, ch * 100, 100);
    MulDivCancel(100, ch);
    MulMonotone(ch, 0, brightness);
    DivMonotone(0, ch * brightness, 100);
  }

  /** One channel of RGB_Blend_Colors: (a·(255 − f) + b·f)/255 stored in a u8. */
  function Mix(a: u8, b: u8, f: u8): u8
  {
    Wrap8((a * (255 - f) + b * f) / 255)
  }

  /** The weighted sum lies between 255 times each input. */
  lemma MixSum(lo: int, hi: int, f: int)
    requires 0 <= lo <= hi && 0 <= f <= 255
    ensures 255 * lo <= lo * (255 - f) + hi * f <= 255 * hi
    ensures 255 * lo <= hi * (255 - f) + lo * f <= 255 * hi
  {
    assert lo * (255 - f) + hi * f == 255 * lo + (hi - lo) * f;
    assert hi * (255 - f) + lo * f == 255 * lo + (hi - lo) * (255 - f);
    MulMonotone(hi - lo, f, 255);
    MulMonotone(hi - lo, 255 - f, 255);
    MulMonotone(hi - lo, 0, f);
    MulMonotone(hi - lo, 0, 255 - f);
  }

  /** A blended channel lies between the two inputs; f = 0 gives the first, f = 255 the second. */
  lemma MixBetween(a: u8, b: u8, f: u8)
    ensures (a <= b ==> a <= Mix(a, b, f) <= b) && (b <= a ==> b <= Mix(a, b, f) <= a)
    ensures f == 0 ==> Mix(a, b, f) == a
    ensures f == 255 ==> Mix(a, b, f) == b
  {
    var s := a * (255 - f) + b * f;
    var lo, hi := if a <= b then a else b, if a <= b then b else a;
    MixSum(lo, hi, f);
    DivMonotone(255 * lo, s, 255);
    DivMonotone(s, 255 * hi, 255);
    MulDivCancel(255, lo);
    MulDivCancel(255, hi);
    if f == 0 {
      MulDivCancel(255, a);
    } else if f == 255 {
      MulDivCancel(255, b);
    }
  }

  /** RGB_Blend_Colors. */
  function Blend(c1: u32, c2: u32, f: u8): u32
  {
    var x, y := Unpack(c1), Unpack(c2);
    Pack(Rgb(Mix(x.red, y.red, f), Mix(x.green, y.green, f), Mix(x.blue, y.blue, f)))
  }

  predicate Between(a: u8, m: u8, b: u8)
  {
    (a <= m <= b) || (b <= m <= a)
  }

  /**
   * Each channel of a blend lies between the channels of the two colours; a factor of 0
   * gives the first colour and 255 the second.
   */
  lemma BlendBetween(c1: u32, c2: u32, f: u8)
    ensures var x, y, m := Unpack(c1), Unpack(c2), Unpack(Blend(c1, c2, f));
      Between(x.red, m.red, y.red) && Between(x.green, m.green, y.green)
      && Between(x.blue, m.blue, y.blue)
    ensures f == 0 ==> Unpack(Blend(c1, c2, f)) == Unpack(c1)
    ensures f == 255 ==> Unpack(Blend(c1, c2, f)) == Unpack(c2)
  {
    var x, y := Unpack(c1), Unpack(c2);
    var m := Rgb(Mix(x.red, y.red, f), Mix(x.green, y.green, f), Mix(x.blue, y.blue, f));
    UnpackPack(m);
    MixBetween(x.red, y.red, f);
    MixBetween(x.green, y.green, f);
    MixBetween(x.blue, y.blue, f);
  }

  /** (value·k) >> 8 for 0 <= k <= 255 stays within value. */
  lemma ShiftScale(value: u8, k: int)
    requires 0 <= k <= 255
    ensures 0 <= value * k / 256 <= value
  {
    MulMonotone(value, k, 256);
    DivMonotone(value * k, value * 256, 256);
    MulDivCancel(256, value);
    MulMonotone(value, 0, k);
    DivMonotone(0, value * k, 256);
  }

  /** The sector of the colour wheel: (u8)(hue/43). */
  function Region(hue: u16): u8
  {
    Wrap8(hue / 43)
  }

  /** The position inside the sector, scaled to 0..255: (u8)((hue − region·43)·6). */
  function Remainder(hue: u16): u8
  {
    Wrap8((hue - Region(hue) * 43) * 6)
  }

  /** The low, falling and rising channel levels p, q, t of RGB_HSV_to_RGB. */
  function Levels(hue: u16, sat: u8, value: u8): (r: (u8, u8, u8))
    ensures r.0 <= value && r.1 <= value && r.2 <= value
  {
    var rem := Remainder(hue);
    ShiftScale(sat, rem);
    ShiftScale(sat, 255 - rem);
    var kq, kt := 255 - sat * rem / 256, 255 - sat * (255 - rem) / 256;
    ShiftScale(value, 255 - sat);
    ShiftScale(value, kq);
    ShiftScale(value, kt);
    (value * (255 - sat) / 256, value * kq / 256, value * kt / 256)
  }

  /** RGB_HSV_to_RGB. */
  function Hsv(hue: u16, sat: u8, value: u8): u32
  {
    if sat == 0 then Pack(Rgb(value, value, value))
    else
      var (p, q, t) := Levels(hue, sat, value);
      match Region(hue)
      case 0 => Pack(Rgb(value, t, p))
      case 1 => Pack(Rgb(q, value, p))
      case 2 => Pack(Rgb(p, value, t))
      case 3 => Pack(Rgb(p, q, value))
      case 4 => Pack(Rgb(t, p, value))
      case _ => Pack(Rgb(value, p, q))
  }

  /**
   * The value is the brightest channel: a colour from RGB_HSV_to_RGB has one channel
   * equal to value and none above it, and is grey at saturation 0.
   */
  lemma HsvPeak(hue: u16, sat: u8, value: u8)
    ensures var c := Unpack(Hsv(hue, sat, value));
      c.red <= value && c.green <= value && c.blue <= value
      && (c.red == value || c.green == value || c.blue == value)
    ensures sat == 0 ==> Unpack(Hsv(hue, sat, value)) == Rgb(value, value, value)
  {
    if sat == 0 {
      UnpackPack(Rgb(value, value, value));
    } else {
      var (p, q, t) := Levels(hue, sat, value);
      UnpackPack(Rgb(value, t, p));
      UnpackPack(Rgb(q, value, p));
      UnpackPack(Rgb(p, value, t));
      UnpackPack(Rgb(p, q, value));
      UnpackPack(Rgb(t, p, value));
      UnpackPack(Rgb(value, p, q));
    }
  }

  /**
   * A hue held in a u8 (as the rainbow animation's step is) falls in sectors 0..5, and
   * sector 5 is handled by the default case.
   */
  lemma ByteHueSectors(hue: u16)
    requires hue < 256
    ensures Region(hue) == hue / 43 <= 5
    ensures Remainder(hue) == (hue % 43) * 6
  {
  }
}
