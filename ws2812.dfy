/**
 * The 5×5 WS2812 matrix of ws2812.c: the frame buffer g_rgb_databuf[3][5][5] (red,
 * green and blue planes indexed by column x and row y), the display state
 * rgb_greenhouse_status, the sensor bar charts and status pictures drawn into the
 * buffer, the animation step, and the brightness-scaled frame sent to the strip.
 */
module Ws2812 {
  import opened Ints
  import opened Ws2812Color

  const WIDTH := 5
  const HEIGHT := 5
  const LED_COUNT := WIDTH * HEIGHT

  /** RGB_DisplayMode_t. */
  const MODE_OFF := 0
  const MODE_TEMP_DISPLAY := 1
  const MODE_HUMIDITY_DISPLAY := 2
  const MODE_LIGHT_DISPLAY := 3
  const MODE_STATUS_DISPLAY := 4
  const MODE_ANIMATION := 5
  const MODE_PATTERN := 6
  const MODE_SOLID_COLOR := 7

  /** RGB_AnimationType_t. */
  const ANIM_NONE := 0
  const ANIM_RAINBOW := 1
  const ANIM_BREATHING := 2
  const ANIM_WATER_FLOW := 3

  /** A picture: the packed colour of every pixel (x, y), COLOR_OFF where nothing is drawn. */
  type Picture = (int, int) -> u32

  predicate OnMatrix(x: int, y: int)
  {
    0 <= x < WIDTH && 0 <= y < HEIGHT
  }

  /** RGB_Show_Temperature's bar height: 0..5. */
  function TempLevel(t: u8): (level: int)
    ensures 0 <= level <= 5
  {
    if t > 50 then 5 else t * 5 / 50
  }

  /** The colour of the temperature bar: blue, cyan, green, yellow, red by band. */
  function TempColor(t: u8): u32
  {
    if t < 15 then COLOR_BLUE
    else if t < 25 then COLOR_CYAN
    else if t < 30 then COLOR_GREEN
    else if t < 35 then COLOR_YELLOW
    else COLOR_RED
  }

  /** The temperature bar: rows y with 5 − y <= level, across every column. */
  function TempPicture(t: u8): Picture
  {
    var level, color := TempLevel(t), TempColor(t);
    (x, y) => if 5 - y <= level then color else COLOR_OFF
  }

  /** RGB_Show_Humidity's bar width: 0..5. */
  function HumiLevel(h: u8): (level: int)
    ensures 0 <= level <= 5
  {
    if h > 100 then 5 else h * 5 / 100
  }

  function HumiColor(h: u8): u32
  {
    if h < 30 then COLOR_RED
    else if h < 50 then COLOR_YELLOW
    else if h < 70 then COLOR_GREEN
    else COLOR_BLUE
  }

  /** The humidity bar: columns x < level, across every row. */
  function HumiPicture(h: u8): Picture
  {
    var level, color := HumiLevel(h), HumiColor(h);
    (x, y) => if x < level then color else COLOR_OFF
  }

  /** RGB_Show_Light_Level's diagonal level: 0..10. */
  function LightLevel(l: u8): (level: int)
    ensures 0 <= level <= 10
  {
    if l > 100 then 10 else l * 10 / 100
  }

  function LightColor(l: u8): u32
  {
    if l < 30 then COLOR_PURPLE
    else if l < 60 then COLOR_CYAN
    else COLOR_WHITE
  }

  /** The light picture: the pixels with x + y < level, a triangle from the corner (0, 0). */
  function LightPicture(l: u8): Picture
  {
    var level, color := LightLevel(l), LightColor(l);
    (x, y) => if x + y < level then color else COLOR_OFF
  }

  /** A scaled reading's level never falls when the reading rises. */
  lemma LevelMonotone(a: int, b: int, k: int, d: int)
    requires 0 <= a <= b && 0 <= k && 0 < d
    ensures a * k / d <= b * k / d
  {
    MulMonotone(k, a, b);
    assert a * k <= b * k;
    DivMonotone(a * k, b * k, d);
  }

  /** The bar levels never fall when their readings rise. */
  lemma LevelsGrow(a: u8, b: u8)
    requires a <= b
    ensures TempLevel(a) <= TempLevel(b) && HumiLevel(a) <= HumiLevel(b)
    ensures LightLevel(a) <= LightLevel(b)
  {
    if b <= 50 {
      LevelMonotone(a, b, 5, 50);
    }
    if b <= 100 {
      LevelMonotone(a, b, 5, 100);
      LevelMonotone(a, b, 10, 100);
    }
  }

  /**
   * The bars grow with their readings: a pixel lit for a reading stays lit, in the
   * same place, for every higher reading.
   */
  lemma BarsGrow(a: u8, b: u8, x: int, y: int)
    requires a <= b
    ensures TempPicture(a)(x, y) != COLOR_OFF ==> TempPicture(b)(x, y) != COLOR_OFF
    ensures HumiPicture(a)(x, y) != COLOR_OFF ==> HumiPicture(b)(x, y) != COLOR_OFF
    ensures LightPicture(a)(x, y) != COLOR_OFF ==> LightPicture(b)(x, y) != COLOR_OFF
  {
    LevelsGrow(a, b);
  }

  /** The levels at the ends of the scales. */
  lemma LevelEnds(r: u8)
    ensures r < 10 ==> TempLevel(r) == 0 && LightLevel(r) == 0
    ensures r < 20 ==> HumiLevel(r) == 0
    ensures r >= 50 ==> TempLevel(r) == 5
    ensures r >= 100 ==> HumiLevel(r) == 5
    ensures r >= 90 ==> LightLevel(r) >= 9
  {
    if r < 10 {
      DivExact(r * 5, 50, 0, r * 5);
      DivExact(r * 10, 100, 0, r * 10);
    }
    if r < 20 {
      DivExact(r * 5, 100, 0, r * 5);
    }
    if 90 <= r <= 100 {
      LevelMonotone(90, r, 10, 100);
    }
  }

  /**
   * The ends of the scales: below 10 °C, 20 %RH and 10 % light nothing is lit; from
   * 50 °C and 100 %RH the whole matrix is lit, and from 90 % light too.
   */
  lemma BarEnds(r: u8, x: int, y: int)
    requires OnMatrix(x, y)
    ensures r < 10 ==> TempPicture(r)(x, y) == COLOR_OFF && LightPicture(r)(x, y) == COLOR_OFF
    ensures r < 20 ==> HumiPicture(r)(x, y) == COLOR_OFF
    ensures r >= 50 ==> TempPicture(r)(x, y) == TempColor(r) != COLOR_OFF
    ensures r >= 100 ==> HumiPicture(r)(x, y) == HumiColor(r) != COLOR_OFF
    ensures r >= 90 ==> LightPicture(r)(x, y) == LightColor(r) != COLOR_OFF
  {
    LevelEnds(r);
  }

  /** RGB_Show_System_Status: cyan 2×2 top left for the fan, blue 2×2 top right for the pump, a yellow cross in the middle for the light. */
  function StatusPicture(fan: bool, pump: bool, light: bool): Picture
  {
    (x, y) =>
      if light && ((y == 2 && 1 <= x <= 3) || (x == 2 && 1 <= y <= 3)) then COLOR_YELLOW
      else if pump && 3 <= x <= 4 && 0 <= y <= 1 then COLOR_BLUE
      else if fan && 0 <= x <= 1 && 0 <= y <= 1 then COLOR_CYAN
      else COLOR_OFF
  }

  /** Each device owns its own pixels: a pixel is lit exactly when the device drawn there is on. */
  lemma StatusRegions(fan: bool, pump: bool, light: bool, x: int, y: int)
    requires OnMatrix(x, y)
    ensures x <= 1 && y <= 1 ==> (StatusPicture(fan, pump, light)(x, y) != COLOR_OFF <==> fan)
    ensures x >= 3 && y <= 1 ==> (StatusPicture(fan, pump, light)(x, y) != COLOR_OFF <==> pump)
    ensures x == 2 && 1 <= y <= 3 ==> (StatusPicture(fan, pump, light)(x, y) != COLOR_OFF <==> light)
    ensures !fan && !pump && !light ==> StatusPicture(fan, pump, light)(x, y) == COLOR_OFF
  {
  }

  /** The left eye's blend factor in the manual face: 20 + fan_speed·80/100 in a u8. */
  function EyeFactor(speed: u8): u8
  {
    Wrap8(20 + speed * 80 / 100)
  }

  /** RGB_Show_Manual_Status_Face: two eyes at (1,1) and (3,1) and a mouth along row 3. */
  function FacePicture(fan: bool, pump: bool, light: bool, speed: u8): Picture
  {
    var leftEye := if fan then Blend(COLOR_OFF, COLOR_BLUE, EyeFactor(speed)) else COLOR_WHITE;
    var rightEye := if pump then COLOR_BLUE else COLOR_WHITE;
    var mouth := if light then COLOR_BLUE else COLOR_WHITE;
    (x, y) =>
      if x == 1 && y == 1 then leftEye
      else if x == 3 && y == 1 then rightEye
      else if y == 3 && 1 <= x <= 3 then mouth
      else COLOR_OFF
  }

  /** The left eye's factor lies in 20..100 for a speed of at most 100. */
  lemma EyeFactorRange(speed: u8)
    requires speed <= 100
    ensures 20 <= EyeFactor(speed) <= 100
  {
    MulMonotone(80, speed, 100);
    DivMonotone(speed * 80, 8000, 100);
  }

  /** Blending from off towards blue by f gives blue at level f (of 255). */
  lemma BlueBlend(f: u8)
    ensures Unpack(Blend(COLOR_OFF, COLOR_BLUE, f)) == Rgb(0, 0, f)
  {
    assert Unpack(COLOR_OFF) == BLACK && Unpack(COLOR_BLUE) == Rgb(0, 0, 255);
    assert 0 * (255 - f) + 255 * f == 255 * f;
    MulDivCancel(255, f);
    assert Mix(0, 255, f) == f;
    assert Mix(0, 0, f) == 0;
    UnpackPack(Rgb(0, 0, f));
  }

  /**
   * The face: the right eye and the mouth are blue exactly when the pump and the light
   * are on, white otherwise; with the fan on, the left eye is blue with a blue level of
   * 20..100 for speeds up to 100 (of 255, so never full blue), white with the fan off.
   */
  lemma FaceMeaning(fan: bool, pump: bool, light: bool, speed: u8)
    ensures FacePicture(fan, pump, light, speed)(3, 1) == (if pump then COLOR_BLUE else COLOR_WHITE)
    ensures forall x :: 1 <= x <= 3 ==>
      FacePicture(fan, pump, light, speed)(x, 3) == (if light then COLOR_BLUE else COLOR_WHITE)
    ensures !fan ==> FacePicture(fan, pump, light, speed)(1, 1) == COLOR_WHITE
    ensures fan && speed <= 100 ==>
      var eye := Unpack(FacePicture(fan, pump, light, speed)(1, 1));
      eye.red == 0 && eye.green == 0 && eye.blue == EyeFactor(speed) && 20 <= eye.blue <= 100
  {
    if fan && speed <= 100 {
      EyeFactorRange(speed);
      BlueBlend(EyeFactor(speed));
    }
  }

  /** The water-flow picture: column step lit in the animation colour. */
  function FlowPicture(step: int, color: u32): Picture
  {
    (x, y) => if x == step then color else COLOR_OFF
  }

  /** One colour everywhere. */
  function SolidPicture(color: u32): Picture
  {
    (x, y) => color
  }

  /**
   * The reachable values of the breathing statics: the step stays in 0..100, it is at
   * least 1 while falling and at most 99 while rising.
   */
  predicate BreathOk(step: u8, falling: bool)
  {
    step <= 100 && (falling ==> 1 <= step) && (!falling ==> step <= 99)
  }

  /** One breathing step: up by one until 100, then down by one until 0. */
  function BreathStep(step: u8, falling: bool): (r: (u8, bool))
    requires BreathOk(step, falling)
  {
    if !falling then
      var s := step + 1;
      if s >= 100 then (s as u8, true) else (s as u8, false)
    else
      var s := Wrap8(step - 1);
      if s <= 0 then (s, false) else (s, true)
  }

  /** The breathing step keeps its statics reachable, so it never wraps, and turns at both ends. */
  lemma BreathTurns(step: u8, falling: bool)
    requires BreathOk(step, falling)
    ensures BreathOk(BreathStep(step, falling).0, BreathStep(step, falling).1)
    ensures step == 99 && !falling ==> BreathStep(step, falling) == (100, true)
    ensures step == 1 && falling ==> BreathStep(step, falling) == (0, false)
    ensures step < 99 && !falling ==> BreathStep(step, falling) == (step + 1, false)
    ensures 1 < step && falling ==> BreathStep(step, falling) == (step - 1, true)
  {
  }

  /** The rainbow step is a u8: (step + 1) % 360 stored back wraps at 256, so hues 256..359 never appear. */
  lemma RainbowWrapsAt256(step: u8)
    ensures Wrap8((step + 1) % 360) == (step + 1) % 256
  {
  }

  /** The frame buffer, the display state and the frame last sent to the strip. */
  class Matrix {
    /** g_rgb_databuf: plane 0 red, 1 green, 2 blue; indexed [plane, x, y]. */
    const buf: array3<u8>
    var mode: int
    var animType: int
    var brightness: u8
    var animStep: u8
    var animColor: u32
    /** The statics step and direction of RGB_Process_Animation. */
    var breath: u8
    var falling: bool
    /** The 25 LEDs as last written by RGB_LED_Update, in wire order (row by row). */
    var strip: seq<Rgb>

    ghost predicate Valid()
      reads this
    {
      buf.Length0 == 3 && buf.Length1 == WIDTH && buf.Length2 == HEIGHT
      && brightness <= 100 && BreathOk(breath, falling)
    }

    /** The stored colour of pixel (x, y). */
    function Pixel(x: int, y: int): Rgb
      requires Valid() && OnMatrix(x, y)
      reads this, buf
    {
      Rgb(buf[0, x, y], buf[1, x, y], buf[2, x, y])
    }

    /** The buffer holds a picture. */
    ghost predicate Shows(p: Picture)
      requires Valid()
      reads this, buf
    {
      forall x, y :: OnMatrix(x, y) ==> Pixel(x, y) == Unpack(p(x, y))
    }

    /** What RGB_LED_Update sends for the buffer: LED k is pixel (k mod 5, k / 5), scaled. */
    ghost function Frame(): (f: seq<Rgb>)
      requires Valid()
      reads this, buf
      ensures |f| == LED_COUNT
    {
      seq(LED_COUNT, k requires 0 <= k < LED_COUNT && Valid() reads this, buf =>
        var c := Pixel(k % WIDTH, k / WIDTH);
        Rgb(Scale(c.red, brightness), Scale(c.green, brightness), Scale(c.blue, brightness)))
    }

    /**
     * RGB_Greenhouse_Init's state: the zero-initialised frame buffer, the default display
     * state, and the 25 dark LEDs RGB_LED_Clear sends.
     */
    constructor ()
      ensures Valid() && fresh(buf)
      ensures mode == MODE_OFF && animType == ANIM_NONE && brightness == 50
      ensures animStep == 0 && animColor == COLOR_BLUE && breath == 0 && !falling
      ensures forall x, y :: OnMatrix(x, y) ==> Pixel(x, y) == BLACK
      ensures strip == seq(LED_COUNT, k => BLACK)
    {
      buf := new u8[3, WIDTH, HEIGHT]((c, x, y) => 0);
      mode, animType, brightness := MODE_OFF, ANIM_NONE, 50;
      animStep, animColor := 0, COLOR_BLUE;
      breath, falling := 0, false;
      strip := seq(LED_COUNT, k => BLACK);
    }

    /** RGB_Set_Pixel: writes the one pixel, ignoring a position off the matrix. */
    method SetPixel(x: u8, y: u8, color: u32)
      requires Valid()
      modifies buf
      ensures Valid()
      ensures OnMatrix(x, y) ==> Pixel(x, y) == Unpack(color)
      ensures forall c, i, j :: 0 <= c < 3 && OnMatrix(i, j) && (i != x || j != y) ==>
        buf[c, i, j] == old(buf[c, i, j])
    {
      if x >= WIDTH || y >= HEIGHT {
        return;
      }
      buf[0, x, y] := (color / 0x100) % 0x100;
      buf[1, x, y] := (color / 0x1_0000) % 0x100;
      buf[2, x, y] := color % 0x100;
    }

    /** RGB_Clear_Buffer. */
    method ClearBuffer()
      requires Valid()
      modifies buf
      ensures Valid() && forall x, y :: OnMatrix(x, y) ==> Pixel(x, y) == BLACK
    {
      var i := 0;
      while i < WIDTH
        invariant 0 <= i <= WIDTH
        invariant forall x, y :: OnMatrix(x, y) && x < i ==> Pixel(x, y) == BLACK
      {
        var j := 0;
        while j < HEIGHT
          invariant 0 <= j <= HEIGHT
          invariant forall x, y :: OnMatrix(x, y) && (x < i || (x == i && y < j)) ==> Pixel(x, y) == BLACK
        {
          buf[0, i, j] := 0;
          buf[1, i, j] := 0;
          buf[2, i, j] := 0;
          j := j + 1;
        }
        i := i + 1;
      }
    }

    /**
     * The drawing loop shared by the RGB_Show_* routines: clear the buffer, then set
     * every pixel the picture lights.
     */
    method Paint(p: Picture)
      requires Valid()
      modifies buf
      ensures Valid() && Shows(p)
    {
      ClearBuffer();
      var i := 0;
      while i < WIDTH
        invariant 0 <= i <= WIDTH
        invariant forall x, y :: OnMatrix(x, y) ==>
          Pixel(x, y) == if x < i then Unpack(p(x, y)) else BLACK
      {
        var j := 0;
        while j < HEIGHT
          invariant 0 <= j <= HEIGHT
          invariant forall x, y :: OnMatrix(x, y) ==>
            Pixel(x, y) == if x < i || (x == i && y < j) then Unpack(p(x, y)) else BLACK
        {
          var c := p(i, j);
          if c != COLOR_OFF {
            SetPixel(i, j, c);
          }
          j := j + 1;
        }
        i := i + 1;
      }
    }

    /** RGB_LED_Update: sends every pixel, row by row, scaled by the brightness. */
    method Update()
      requires Valid()
      modifies this`strip
      ensures Valid() && strip == Frame()
    {
      var out: seq<Rgb> := [];
      var i := 0;
      while i < HEIGHT
        invariant 0 <= i <= HEIGHT && |out| == WIDTH * i
        invariant forall k :: 0 <= k < |out| ==> out[k] == Frame()[k]
      {
        var j := 0;
        while j < WIDTH
          invariant 0 <= j <= WIDTH && |out| == WIDTH * i + j
          invariant forall k :: 0 <= k < |out| ==> out[k] == Frame()[k]
        {
          var red := Wrap8(buf[0, j, i] * brightness / 100);
          var green := Wrap8(buf[1, j, i] * brightness / 100);
          var blue := Wrap8(buf[2, j, i] * brightness / 100);
          assert (WIDTH * i + j) % WIDTH == j && (WIDTH * i + j) / WIDTH == i;
          out := out + [Rgb(red, green, blue)];
          j := j + 1;
        }
        i := i + 1;
      }
      strip := out;
    }

    /** RGB_Set_Brightness: clamps to 100. */
    method SetBrightness(b: u8)
      requires Valid()
      modifies this`brightness
      ensures Valid() && brightness == if b > 100 then 100 else b
    {
      brightness := if b > 100 then 100 else b;
    }

    /** RGB_LED_Clear: sends 25 dark LEDs to the strip; the frame buffer is left as it is. */
    method LedClear()
      requires Valid()
      modifies this`strip
      ensures Valid() && strip == seq(LED_COUNT, k => BLACK)
    {
      strip := seq(LED_COUNT, k => BLACK);
    }

    /** RGB_Set_Display_Mode: stores the mode; MODE_OFF also darkens the strip. */
    method SetDisplayMode(m: int)
      requires Valid()
      modifies this`mode, this`strip
      ensures Valid() && mode == m
      ensures strip == if m == MODE_OFF then seq(LED_COUNT, k => BLACK) else old(strip)
    {
      mode := m;
      if m == MODE_OFF {
        LedClear();
      }
    }

    /** Draws a picture and sends the frame: the common tail of every RGB_Show_* routine. */
    method Show(p: Picture)
      requires Valid()
      modifies buf, this`strip
      ensures Valid() && Shows(p) && strip == Frame()
    {
      Paint(p);
      Update();
    }

    /** RGB_Set_All_Color: writes the colour into every pixel, then sends the frame. */
    method SetAllColor(color: u32)
      requires Valid()
      modifies buf, this`strip
      ensures Valid() && Shows(SolidPicture(color)) && strip == Frame()
    {
      var i := 0;
      while i < WIDTH
        invariant 0 <= i <= WIDTH
        invariant forall x, y :: OnMatrix(x, y) && x < i ==> Pixel(x, y) == Unpack(color)
      {
        var j := 0;
        while j < HEIGHT
          invariant 0 <= j <= HEIGHT
          invariant forall x, y :: OnMatrix(x, y) && (x < i || (x == i && y < j)) ==> Pixel(x, y) == Unpack(color)
        {
          SetPixel(i, j, color);
          j := j + 1;
        }
        i := i + 1;
      }
      Update();
    }

    /** RGB_Show_Temperature. */
    method ShowTemperature(t: u8)
      requires Valid()
      modifies buf, this`strip
      ensures Valid() && Shows(TempPicture(t)) && strip == Frame()
    {
      Show(TempPicture(t));
    }

    /** RGB_Show_Humidity. */
    method ShowHumidity(h: u8)
      requires Valid()
      modifies buf, this`strip
      ensures Valid() && Shows(HumiPicture(h)) && strip == Frame()
    {
      Show(HumiPicture(h));
    }

    /** RGB_Show_Light_Level. */
    method ShowLightLevel(l: u8)
      requires Valid()
      modifies buf, this`strip
      ensures Valid() && Shows(LightPicture(l)) && strip == Frame()
    {
      Show(LightPicture(l));
    }

    /** RGB_Show_System_Status. */
    method ShowSystemStatus(fan: u8, pump: u8, light: u8)
      requires Valid()
      modifies buf, this`strip
      ensures Valid() && Shows(StatusPicture(fan != 0, pump != 0, light != 0)) && strip == Frame()
    {
      Show(StatusPicture(fan != 0, pump != 0, light != 0));
    }

    /** RGB_Show_Manual_Status_Face. */
    method ShowManualFace(fan: u8, pump: u8, light: u8, speed: u8)
      requires Valid()
      modifies buf, this`strip
      ensures Valid() && Shows(FacePicture(fan != 0, pump != 0, light != 0, speed)) && strip == Frame()
    {
      Show(FacePicture(fan != 0, pump != 0, light != 0, speed));
    }

    /** RGB_Start_Rainbow_Animation, RGB_Start_Breathing_Animation and RGB_Start_Water_Flow_Animation. */
    method StartAnimation(kind: int, color: u32)
      requires Valid() && kind in {ANIM_RAINBOW, ANIM_BREATHING, ANIM_WATER_FLOW}
      modifies this`animType, this`animStep, this`animColor
      ensures Valid() && animType == kind && animStep == 0
      ensures animColor == if kind == ANIM_BREATHING then color else old(animColor)
    {
      animType := kind;
      if kind == ANIM_BREATHING {
        animColor := color;
      }
      animStep := 0;
    }

    /** The rainbow case: the next hue (a u8 step, so (step + 1) % 360 wraps at 256) on every pixel. */
    method Rainbow()
      requires Valid()
      modifies buf, this`animStep, this`strip
      ensures Valid() && animStep == (old(animStep) + 1) % 256
      ensures Shows(SolidPicture(Hsv(animStep, 255, brightness))) && strip == Frame()
    {
      RainbowWrapsAt256(animStep);
      animStep := Wrap8((animStep + 1) % 360);
      var c := Hsv(animStep, 255, brightness);
      SetAllColor(c);
    }

    /** The breathing case: the next step of the statics, and the blended colour on every pixel. */
    method Breathe(breathFactor: u8)
      requires Valid()
      modifies buf, this`breath, this`falling, this`strip
      ensures Valid() && (breath, falling) == BreathStep(old(breath), old(falling))
      ensures Shows(SolidPicture(Blend(COLOR_OFF, animColor, breathFactor))) && strip == Frame()
    {
      BreathTurns(breath, falling);
      if !falling {
        breath := breath + 1;
        if breath >= 100 {
          falling := true;
        }
      } else {
        breath := Wrap8(breath - 1);
        if breath <= 0 {
          falling := false;
        }
      }
      SetAllColor(Blend(COLOR_OFF, animColor, breathFactor));
    }

    /** The water-flow case: the next column, lit alone in the animation colour. */
    method Flow()
      requires Valid()
      modifies buf, this`animStep, this`strip
      ensures Valid() && animStep == (old(animStep) + 1) % 5 && animStep < WIDTH
      ensures Shows(FlowPicture(animStep, animColor)) && strip == Frame()
    {
      animStep := (animStep + 1) % 5;
      Show(FlowPicture(animStep, animColor));
    }

    /**
     * RGB_Process_Animation: one step of the running animation, nothing outside the
     * animation mode or without one. The breathing blend factor is a float product of
     * the step and the brightness; it is the parameter breathFactor here.
     */
    method ProcessAnimation(breathFactor: u8)
      requires Valid()
      modifies buf, this`animStep, this`breath, this`falling, this`strip
      ensures Valid()
      ensures mode != MODE_ANIMATION || animType !in {ANIM_RAINBOW, ANIM_BREATHING, ANIM_WATER_FLOW} ==>
        animStep == old(animStep) && breath == old(breath) && falling == old(falling)
        && strip == old(strip) && unchanged(buf)
      ensures mode == MODE_ANIMATION && animType == ANIM_RAINBOW ==>
        animStep == (old(animStep) + 1) % 256
        && Shows(SolidPicture(Hsv(animStep, 255, brightness))) && strip == Frame()
      ensures mode == MODE_ANIMATION && animType == ANIM_BREATHING ==>
        (breath, falling) == BreathStep(old(breath), old(falling)) && animStep == old(animStep)
        && Shows(SolidPicture(Blend(COLOR_OFF, animColor, breathFactor))) && strip == Frame()
      ensures mode == MODE_ANIMATION && animType == ANIM_WATER_FLOW ==>
        animStep == (old(animStep) + 1) % 5 && animStep < WIDTH
        && Shows(FlowPicture(animStep, animColor)) && strip == Frame()
    {
      if mode != MODE_ANIMATION {
        return;
      }
      if animType == ANIM_RAINBOW {
        Rainbow();
      } else if animType == ANIM_BREATHING {
        Breathe(breathFactor);
      } else if animType == ANIM_WATER_FLOW {
        Flow();
      }
    }
  }

  /** The water flow lights exactly one whole column, the one at the step. */
  lemma FlowColumn(step: int, color: u32, x: int, y: int)
    requires 0 <= step < WIDTH && OnMatrix(x, y) && color != COLOR_OFF
    ensures FlowPicture(step, color)(x, y) != COLOR_OFF <==> x == step
  {
  }
}
