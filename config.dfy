/**
 * The configuration store: a packed 46-byte SystemConfig_t kept in RAM and
 * saved to one flash page at 0x0806F000, protected by a magic word, a
 * version byte and an additive checksum over its first 42 bytes; range
 * checked setters driven by a table of u8 bounds; and the CONFIG_* text
 * command handler.
 */
module Config {
  import opened Ints
  import opened Wrappers
  import Flash
  import DataLogger

  const CONFIG_VERSION: u8 := 0x01
  const CONFIG_FLASH_ADDR: u32 := 0x0806_F000
  const CONFIG_MAGIC: u32 := 0x5A5A_5A5A

  /** sizeof(SystemConfig_t) in the packed layout. */
  const CONFIG_BYTES := 46
  /** The bytes the checksum covers: all but the trailing u32 checksum. */
  const CHECKSUM_BYTES := 42
  /** sizeof(SystemConfig_t) / 4: the words Config_Save programs. */
  const SAVE_WORDS := 11

  const DEFAULT_TEMP_FAN_ON: u8 := 30
  const DEFAULT_TEMP_HIGH_ALARM: u8 := 35
  const DEFAULT_TEMP_LOW_ALARM: u8 := 15
  const DEFAULT_HUMI_PUMP_ON: u8 := 30
  const DEFAULT_HUMI_HIGH_ALARM: u8 := 80
  const DEFAULT_HUMI_LOW_ALARM: u8 := 20
  const DEFAULT_LIGHT_AUTO_ON: u8 := 30
  const DEFAULT_LIGHT_LOW_ALARM: u8 := 20
  const DEFAULT_SENSOR_INTERVAL: u8 := 2
  const DEFAULT_LOG_INTERVAL: u8 := 10
  const DEFAULT_AUTO_HYSTERESIS: u8 := 2
  const DEFAULT_MORNING_START: u8 := 6
  const DEFAULT_NIGHT_START: u8 := 22
  const DEFAULT_AUTO_LIGHT_TIME: u16 := 480

  type Reserved = s: seq<u8> | |s| == 16 witness [0, 0, 0, 0, 0, 0, 0, 0, 0, 0, 0, 0, 0, 0, 0, 0]

  /** SystemConfig_t, field for field. */
  datatype SystemConfig = SystemConfig(
    magic: u32, version: u8,
    tempFanOn: u8, tempHighAlarm: u8, tempLowAlarm: u8, tempHysteresis: u8,
    humiPumpOn: u8, humiHighAlarm: u8, humiLowAlarm: u8, humiHysteresis: u8,
    lightAutoOn: u8, lightLowAlarm: u8, lightHysteresis: u8,
    morningStart: u8, nightStart: u8, autoLightTime: u16,
    sensorInterval: u8, logInterval: u8, autoModeDefault: u8,
    alarmSoundEnable: u8, ledBrightness: u8, autoShutdownEnable: u8,
    reserved: Reserved, checksum: u32)

  /** The zero-initialised global before anything is loaded. */
  const ZERO_CONFIG := SystemConfig(0, 0, 0, 0, 0, 0, 0, 0, 0, 0, 0, 0, 0, 0, 0, 0, 0, 0, 0, 0, 0, 0,
                                    [0, 0, 0, 0, 0, 0, 0, 0, 0, 0, 0, 0, 0, 0, 0, 0], 0)

  /*
   * The packed byte image.
   */

  /** Bytes 0..41 of the packed struct: everything the checksum covers. */
  function Body(c: SystemConfig): (bs: seq<u8>)
    ensures |bs| == CHECKSUM_BYTES
  {
    Bytes4(c.magic)
    + [c.version,
       c.tempFanOn, c.tempHighAlarm, c.tempLowAlarm, c.tempHysteresis,
       c.humiPumpOn, c.humiHighAlarm, c.humiLowAlarm, c.humiHysteresis,
       c.lightAutoOn, c.lightLowAlarm, c.lightHysteresis,
       c.morningStart, c.nightStart, c.autoLightTime % 0x100, c.autoLightTime / 0x100,
       c.sensorInterval, c.logInterval, c.autoModeDefault,
       c.alarmSoundEnable, c.ledBrightness, c.autoShutdownEnable]
    + c.reserved
  }

  /** The whole 46-byte packed struct, checksum little-endian at offsets 42..45. */
  function Image(c: SystemConfig): (bs: seq<u8>)
    ensures |bs| == CONFIG_BYTES
  {
    Body(c) + Bytes4(c.checksum)
  }

  /** Reading 46 bytes as a SystemConfig_t (the memcpy of Config_Load). */
  function Decode(bs: seq<u8>): SystemConfig
    requires |bs| == CONFIG_BYTES
  {
    SystemConfig(
      Word([bs[0], bs[1], bs[2], bs[3]]), bs[4],
      bs[5], bs[6], bs[7], bs[8],
      bs[9], bs[10], bs[11], bs[12],
      bs[13], bs[14], bs[15],
      bs[16], bs[17], bs[18] as int + 0x100 * bs[19] as int,
      bs[20], bs[21], bs[22],
      bs[23], bs[24], bs[25],
      bs[26..42], Word([bs[42], bs[43], bs[44], bs[45]]))
  }

  lemma QuadIsBytes4(bs: seq<u8>, k: nat, w: u32)
    requires k + 4 <= |bs| && bs[k..k + 4] == Bytes4(w)
    ensures Word([bs[k], bs[k + 1], bs[k + 2], bs[k + 3]]) == w
  {
    assert [bs[k], bs[k + 1], bs[k + 2], bs[k + 3]] == Bytes4(w);
    WordOfBytes(w);
  }

  /** Decoding the packed image of a configuration gives it back. */
  lemma DecodeImage(c: SystemConfig)
    ensures Decode(Image(c)) == c
  {
    var bs := Image(c);
    assert bs[0..4] == Bytes4(c.magic);
    QuadIsBytes4(bs, 0, c.magic);
    assert bs[42..46] == Bytes4(c.checksum);
    QuadIsBytes4(bs, 42, c.checksum);
    assert bs[26..42] == c.reserved;
  }

  /** Every 46-byte image is the packed image of the configuration it decodes to. */
  lemma ImageDecode(bs: seq<u8>)
    requires |bs| == CONFIG_BYTES
    ensures Image(Decode(bs)) == bs
  {
    var c := Decode(bs);
    BytesOfWord([bs[0], bs[1], bs[2], bs[3]]);
    BytesOfWord([bs[42], bs[43], bs[44], bs[45]]);
    LowByteSplit(bs[18], bs[19]);
    var im := Image(c);
    forall k | 0 <= k < CONFIG_BYTES
      ensures im[k] == bs[k]
    {
      if k < 4 {
        assert im[k] == Bytes4(c.magic)[k];
      } else if 42 <= k {
        assert im[k] == Bytes4(c.checksum)[k - 42];
      }
    }
  }

  /** The packed layout: 46 bytes, magic at 0..3, version at 4, checksum at 42..45. */
  lemma PackedLayout(c: SystemConfig)
    ensures |Image(c)| == 46 && CONFIG_BYTES / 4 == SAVE_WORDS
    ensures Image(c)[..4] == Bytes4(c.magic) && Image(c)[4] == c.version
    ensures Image(c)[42..] == Bytes4(c.checksum)
    ensures Image(c)[18] as int + 0x100 * Image(c)[19] as int == c.autoLightTime
  {
  }

  /** The config page and the 4 KB reserved for it lie wholly below the log region. */
  lemma ConfigBelowLog()
    ensures CONFIG_FLASH_ADDR + 2 * Flash.PAGE_BYTES <= DataLogger.FLASH_START_ADDR
    ensures (CONFIG_FLASH_ADDR - 0x0800_0000) % Flash.PAGE_BYTES == 0
  {
  }

  /*
   * Checksum.
   */

  function Sum(s: seq<u8>): nat
  {
    if s == [] then 0 else Sum(s[..|s| - 1]) + s[|s| - 1]
  }

  lemma {:induction false} SumBound(s: seq<u8>)
    ensures Sum(s) <= 0xFF * |s|
  {
    if s != [] {
      SumBound(s[..|s| - 1]);
    }
  }

  /** Config_Calculate_Checksum as a value: the byte sum of the first 42 bytes. */
  function Checksum(c: SystemConfig): (sum: u32)
    ensures sum <= 0xFF * CHECKSUM_BYTES
  {
    SumBound(Body(c));
    Sum(Body(c))
  }

  /** The checksum field does not take part in the checksum. */
  lemma ChecksumIgnoresChecksumField(c: SystemConfig, x: u32)
    ensures Checksum(c.(checksum := x)) == Checksum(c)
  {
    assert Body(c.(checksum := x)) == Body(c);
  }

  /** The configuration with its checksum field recomputed. */
  function Stamp(c: SystemConfig): (r: SystemConfig)
    ensures r.checksum == Checksum(r)
    ensures r == c.(checksum := r.checksum)
  {
    ChecksumIgnoresChecksumField(c, Checksum(c));
    c.(checksum := Checksum(c))
  }

  /** Recomputing the checksum twice changes nothing more. */
  lemma StampIdempotent(c: SystemConfig)
    ensures Stamp(Stamp(c)) == Stamp(c)
  {
    ChecksumIgnoresChecksumField(c, Checksum(c));
  }

  /** Config_Calculate_Checksum: a u32 running sum over the first 42 bytes of the struct. */
  method CalculateChecksum(c: SystemConfig) returns (checksum: u32)
    ensures checksum == Checksum(c)
  {
    var data := Body(c);
    checksum := 0;
    var i := 0;
    while i < CHECKSUM_BYTES
      invariant 0 <= i <= CHECKSUM_BYTES
      invariant checksum == Sum(data[..i]) && checksum <= 0xFF * i
    {
      assert data[..i + 1][..i] == data[..i];
      checksum := checksum + data[i];
      i := i + 1;
    }
    assert data[..CHECKSUM_BYTES] == data;
  }

  /*
   * Defaults and validation.
   */

  /** What Config_Set_Defaults leaves in system_config, checksum included. */
  function Defaults(): (c: SystemConfig)
    ensures c.magic == CONFIG_MAGIC && c.version == CONFIG_VERSION
    ensures c.checksum == Checksum(c)
  {
    Stamp(SystemConfig(
      CONFIG_MAGIC, CONFIG_VERSION,
      DEFAULT_TEMP_FAN_ON, DEFAULT_TEMP_HIGH_ALARM, DEFAULT_TEMP_LOW_ALARM, DEFAULT_AUTO_HYSTERESIS,
      DEFAULT_HUMI_PUMP_ON, DEFAULT_HUMI_HIGH_ALARM, DEFAULT_HUMI_LOW_ALARM, 5,
      DEFAULT_LIGHT_AUTO_ON, DEFAULT_LIGHT_LOW_ALARM, 10,
      DEFAULT_MORNING_START, DEFAULT_NIGHT_START, DEFAULT_AUTO_LIGHT_TIME,
      DEFAULT_SENSOR_INTERVAL, DEFAULT_LOG_INTERVAL, 0,
      1, 255, 0,
      [0, 0, 0, 0, 0, 0, 0, 0, 0, 0, 0, 0, 0, 0, 0, 0], 0))
  }

  /** Config_Validate: the number of violated orderings among the three threshold pairs. */
  function Validate(c: SystemConfig): (errors: u8)
    ensures errors <= 3
    ensures errors == 0 <==>
      (c.tempLowAlarm < c.tempHighAlarm && c.humiLowAlarm < c.humiHighAlarm && c.morningStart < c.nightStart)
    ensures errors == 3 <==>
      (c.tempLowAlarm >= c.tempHighAlarm && c.humiLowAlarm >= c.humiHighAlarm && c.morningStart >= c.nightStart)
  {
    (if c.tempLowAlarm >= c.tempHighAlarm then 1 else 0)
    + (if c.humiLowAlarm >= c.humiHighAlarm then 1 else 0)
    + (if c.morningStart >= c.nightStart then 1 else 0)
  }

  /*
   * The parameter table and the item accessors.
   */

  /** ConfigItem_t. */
  type Item = i: nat | i < 16

  const TEMP_FAN_ON: Item := 0
  const TEMP_HIGH_ALARM: Item := 1
  const TEMP_LOW_ALARM: Item := 2
  const HUMI_PUMP_ON: Item := 3
  const HUMI_HIGH_ALARM: Item := 4
  const HUMI_LOW_ALARM: Item := 5
  const LIGHT_AUTO_ON: Item := 6
  const LIGHT_LOW_ALARM: Item := 7
  const SENSOR_INTERVAL: Item := 8
  const LOG_INTERVAL: Item := 9
  const AUTO_MODE_DEFAULT: Item := 10
  const ALARM_SOUND_ENABLE: Item := 11
  const LED_BRIGHTNESS: Item := 12
  const MORNING_START: Item := 13
  const NIGHT_START: Item := 14
  const AUTO_LIGHT_TIME: Item := 15
  const ITEM_COUNT := 16

  /** ConfigItemInfo_t without the unit and description strings (used only for printing). */
  datatype ItemInfo = ItemInfo(name: string, min: u8, max: u8, default: u8)

  /**
   * config_items. The bounds and defaults are u8 fields, so 300, 1440 and 480
   * are stored truncated.
   */
  const ITEMS: seq<ItemInfo> := [
    ItemInfo("temp_fan_on", 10, 50, DEFAULT_TEMP_FAN_ON),
    ItemInfo("temp_high_alarm", 25, 60, DEFAULT_TEMP_HIGH_ALARM),
    ItemInfo("temp_low_alarm", 0, 25, DEFAULT_TEMP_LOW_ALARM),
    ItemInfo("humi_pump_on", 10, 80, DEFAULT_HUMI_PUMP_ON),
    ItemInfo("humi_high_alarm", 60, 100, DEFAULT_HUMI_HIGH_ALARM),
    ItemInfo("humi_low_alarm", 0, 40, DEFAULT_HUMI_LOW_ALARM),
    ItemInfo("light_auto_on", 10, 90, DEFAULT_LIGHT_AUTO_ON),
    ItemInfo("light_low_alarm", 0, 50, DEFAULT_LIGHT_LOW_ALARM),
    ItemInfo("sensor_interval", 1, 60, DEFAULT_SENSOR_INTERVAL),
    ItemInfo("log_interval", 5, Wrap8(300), DEFAULT_LOG_INTERVAL),
    ItemInfo("auto_mode", 0, 1, 0),
    ItemInfo("alarm_sound", 0, 1, 1),
    ItemInfo("led_brightness", 0, 255, 255),
    ItemInfo("morning_start", 0, 23, DEFAULT_MORNING_START),
    ItemInfo("night_start", 0, 23, DEFAULT_NIGHT_START),
    ItemInfo("auto_light_time", 0, Wrap8(1440), Wrap8(DEFAULT_AUTO_LIGHT_TIME))
  ]

  /** The table has one entry per item, and three of its u16-sized values are truncated. */
  lemma TableTruncation()
    ensures |ITEMS| == ITEM_COUNT
    ensures ITEMS[LOG_INTERVAL].max == 44
    ensures ITEMS[AUTO_LIGHT_TIME].max == 160 && ITEMS[AUTO_LIGHT_TIME].default == 224
  {
  }

  /** Config_Get_U8: the u8 field of an item; 0 for auto_light_time, which is not u8. */
  function GetU8(c: SystemConfig, item: Item): u8
  {
    match item
    case 0 => c.tempFanOn
    case 1 => c.tempHighAlarm
    case 2 => c.tempLowAlarm
    case 3 => c.humiPumpOn
    case 4 => c.humiHighAlarm
    case 5 => c.humiLowAlarm
    case 6 => c.lightAutoOn
    case 7 => c.lightLowAlarm
    case 8 => c.sensorInterval
    case 9 => c.logInterval
    case 10 => c.autoModeDefault
    case 11 => c.alarmSoundEnable
    case 12 => c.ledBrightness
    case 13 => c.morningStart
    case 14 => c.nightStart
    case _ => 0
  }

  /** Config_Get_U16: auto_light_time, or the u8 value of any other item. */
  function GetU16(c: SystemConfig, item: Item): (v: u16)
    ensures item != AUTO_LIGHT_TIME ==> v == GetU8(c, item)
    ensures item == AUTO_LIGHT_TIME ==> v == c.autoLightTime && GetU8(c, item) == 0
  {
    if item == AUTO_LIGHT_TIME then c.autoLightTime else GetU8(c, item)
  }

  /** The struct with the u8 field of an item replaced (the switch of Config_Set_U8). */
  function WithItem(c: SystemConfig, item: Item, v: u8): SystemConfig
    requires item != AUTO_LIGHT_TIME
  {
    match item
    case 0 => c.(tempFanOn := v)
    case 1 => c.(tempHighAlarm := v)
    case 2 => c.(tempLowAlarm := v)
    case 3 => c.(humiPumpOn := v)
    case 4 => c.(humiHighAlarm := v)
    case 5 => c.(humiLowAlarm := v)
    case 6 => c.(lightAutoOn := v)
    case 7 => c.(lightLowAlarm := v)
    case 8 => c.(sensorInterval := v)
    case 9 => c.(logInterval := v)
    case 10 => c.(autoModeDefault := v)
    case 11 => c.(alarmSoundEnable := v)
    case 12 => c.(ledBrightness := v)
    case 13 => c.(morningStart := v)
    case 14 => c.(nightStart := v)
  }

  /** The fields no item names: they only change through Load, Set_All or the defaults. */
  predicate SameUnnamed(a: SystemConfig, b: SystemConfig)
  {
    a.magic == b.magic && a.version == b.version
    && a.tempHysteresis == b.tempHysteresis && a.humiHysteresis == b.humiHysteresis
    && a.lightHysteresis == b.lightHysteresis && a.autoShutdownEnable == b.autoShutdownEnable
    && a.reserved == b.reserved && a.checksum == b.checksum
  }

  /** Setting one item and reading any item back: the set one has the new value, all others keep theirs. */
  lemma GetWithItem(c: SystemConfig, item: Item, v: u8, other: Item)
    requires item != AUTO_LIGHT_TIME
    ensures GetU16(WithItem(c, item, v), other) == if other == item then v else GetU16(c, other)
    ensures SameUnnamed(WithItem(c, item, v), c)
  {
  }

  /** The range test of Config_Set_U8 against the table's u8 bounds. */
  predicate InRange(item: Item, v: u8)
  {
    ITEMS[item].min <= v <= ITEMS[item].max
  }

  /** Config_Set_U8 succeeds exactly for an in-range value of an item its switch handles. */
  predicate AcceptsU8(item: Item, v: u8)
  {
    InRange(item, v) && item != AUTO_LIGHT_TIME
  }

  function AfterSetU8(c: SystemConfig, item: Item, v: u8): SystemConfig
  {
    if AcceptsU8(item, v) then WithItem(c, item, v) else c
  }

  /** Config_Set_U16 accepts auto_light_time up to 1440 and hands every other item to Set_U8 as a u8. */
  predicate AcceptsU16(item: Item, v: u16)
  {
    if item == AUTO_LIGHT_TIME then v <= 1440 else AcceptsU8(item, Wrap8(v))
  }

  function AfterSetU16(c: SystemConfig, item: Item, v: u16): SystemConfig
  {
    if item != AUTO_LIGHT_TIME then AfterSetU8(c, item, Wrap8(v))
    else if v <= 1440 then c.(autoLightTime := v)
    else c
  }

  /**
   * What the setters leave: the value read back when accepted, and otherwise
   * the configuration unchanged.
   */
  lemma SetThenGet(c: SystemConfig, item: Item, v: u16, other: Item)
    ensures var r := AfterSetU16(c, item, v);
      SameUnnamed(r, c)
      && (AcceptsU16(item, v) && other == item ==> GetU16(r, other) == if item == AUTO_LIGHT_TIME then v else Wrap8(v))
      && (!AcceptsU16(item, v) || other != item ==> GetU16(r, other) == GetU16(c, other))
  {
    if item != AUTO_LIGHT_TIME && AcceptsU8(item, Wrap8(v)) {
      GetWithItem(c, item, Wrap8(v), other);
    }
  }

  /**
   * The u8 bounds are what the setters enforce: log_interval above 44 is
   * refused, and auto_light_time passes the u8 range test but is then refused
   * by Set_U8 whatever the value.
   */
  lemma TruncatedBoundsEnforced(c: SystemConfig)
    ensures !AcceptsU8(LOG_INTERVAL, 45) && AcceptsU8(LOG_INTERVAL, 44)
    ensures forall v: u8 :: v <= 160 ==> InRange(AUTO_LIGHT_TIME, v) && !AcceptsU8(AUTO_LIGHT_TIME, v)
    ensures AfterSetU16(c, TEMP_FAN_ON, 286) == c.(tempFanOn := 30)
  {
  }

  /**
   * The compiled defaults satisfy the three orderings, every default item value
   * is one its setter accepts, and the table's defaults agree with them except
   * for the truncated auto_light_time.
   */
  lemma DefaultsConsistent(item: Item)
    ensures Validate(Defaults()) == 0
    ensures item != AUTO_LIGHT_TIME ==> AcceptsU8(item, GetU8(Defaults(), item)) && ITEMS[item].default == GetU8(Defaults(), item)
    ensures AcceptsU16(AUTO_LIGHT_TIME, Defaults().autoLightTime) && ITEMS[AUTO_LIGHT_TIME].default != Defaults().autoLightTime
  {
  }

  /*
   * The flash page.
   */

  /** The 46 bytes at the start of the config page, read little-endian from its words. */
  function ImageOf(m: seq<u32>): (bs: seq<u8>)
    requires |m| >= 12
    ensures |bs| == CONFIG_BYTES
  {
    seq(CONFIG_BYTES, k requires 0 <= k < CONFIG_BYTES => Bytes4(m[k / 4])[k % 4])
  }

  /** The SystemConfig_t the flash page holds, read through a struct pointer. */
  function FlashConfig(m: seq<u32>): SystemConfig
    requires |m| >= 12
  {
    Decode(ImageOf(m))
  }

  /** The magic and version tests of Config_Load, which come before the copy. */
  predicate HeaderOk(m: seq<u32>)
    requires |m| >= 12
  {
    FlashConfig(m).magic == CONFIG_MAGIC && FlashConfig(m).version == CONFIG_VERSION
  }

  /** All three tests of Config_Load pass. */
  predicate Loadable(m: seq<u32>)
    requires |m| >= 12
  {
    HeaderOk(m) && Checksum(FlashConfig(m)) == FlashConfig(m).checksum
  }

  /** Word i of the packed image (the u32 at data_ptr[i]). */
  function ImageWord(img: seq<u8>, i: nat): u32
    requires |img| == CONFIG_BYTES && i < SAVE_WORDS
  {
    Word([img[4 * i], img[4 * i + 1], img[4 * i + 2], img[4 * i + 3]])
  }

  /** The bytes of word i of the image are the image's bytes 4i..4i+3. */
  lemma WordBytesBack(img: seq<u8>, i: nat)
    requires |img| == CONFIG_BYTES && i < SAVE_WORDS
    ensures Bytes4(ImageWord(img, i)) == [img[4 * i], img[4 * i + 1], img[4 * i + 2], img[4 * i + 3]]
  {
    BytesOfWord([img[4 * i], img[4 * i + 1], img[4 * i + 2], img[4 * i + 3]]);
  }

  /** The config page after its erase and the first n word programs of Config_Save. */
  function SavedWords(img: seq<u8>, n: nat): (m: seq<u32>)
    requires |img| == CONFIG_BYTES && n <= SAVE_WORDS
    ensures |m| == Flash.WORDS_PER_PAGE
  {
    seq(Flash.WORDS_PER_PAGE, j requires 0 <= j < Flash.WORDS_PER_PAGE => if j < n then ImageWord(img, j) else Flash.ERASED)
  }

  /** The erased page is the save that has not programmed anything yet. */
  lemma ErasedIsUnwritten(m: seq<u32>, img: seq<u8>)
    requires |m| == Flash.WORDS_PER_PAGE && |img| == CONFIG_BYTES
    ensures Flash.ErasePageOf(m, 0) == SavedWords(img, 0)
  {
  }

  /** The config page after a successful Config_Save of an image. */
  function SavedPage(img: seq<u8>): (m: seq<u32>)
    requires |img| == CONFIG_BYTES
    ensures |m| == Flash.WORDS_PER_PAGE
  {
    SavedWords(img, SAVE_WORDS)
  }

  /**
   * What Config_Save leaves in flash: bytes 0..43 of the image, then the two
   * high checksum bytes still erased.
   */
  lemma SavedPageBytes(img: seq<u8>)
    requires |img| == CONFIG_BYTES
    ensures ImageOf(SavedPage(img))[..44] == img[..44]
    ensures ImageOf(SavedPage(img))[44] == 0xFF && ImageOf(SavedPage(img))[45] == 0xFF
  {
    var m := SavedPage(img);
    forall k | 0 <= k < 44
      ensures ImageOf(m)[k] == img[k]
    {
      var i, j := k / 4, k % 4;
      assert k == 4 * i + j && i < SAVE_WORDS;
      assert m[i] == ImageWord(img, i);
      WordBytesBack(img, i);
      assert ImageOf(m)[k] == Bytes4(m[i])[j];
    }
    assert m[11] == Flash.ERASED;
    ErasedWordLowByte(m[11]);
    assert ImageOf(m)[44] == Bytes4(m[11])[0] && ImageOf(m)[45] == Bytes4(m[11])[1];
  }

  /**
   * A page whose word 11 is still erased never loads: the checksum reads back
   * with its high half 0xFFFF, far above any byte sum of 42 bytes.
   */
  lemma ErasedTailNotLoadable(m: seq<u32>)
    requires |m| >= 12 && m[11] == Flash.ERASED
    ensures !Loadable(m)
  {
    var bs := ImageOf(m);
    ErasedTailBytes(m);
    var d := Decode(bs);
    assert d.checksum == Word([bs[42], bs[43], 0xFF, 0xFF]);
    ErasedHighHalf(bs[42], bs[43]);
    ChecksumBelowField(d);
  }

  lemma ErasedTailBytes(m: seq<u32>)
    requires |m| >= 12 && m[11] == Flash.ERASED
    ensures ImageOf(m)[44] == 0xFF && ImageOf(m)[45] == 0xFF
  {
    assert ImageOf(m)[44] == Bytes4(m[11])[0] && ImageOf(m)[45] == Bytes4(m[11])[1];
  }

  /** A word whose two high bytes are erased is at least 0xFFFF0000. */
  lemma ErasedHighHalf(a: u8, b: u8)
    ensures Word([a, b, 0xFF, 0xFF]) >= 0xFFFF_0000
  {
  }

  lemma ChecksumBelowField(d: SystemConfig)
    requires d.checksum >= 0xFFFF_0000
    ensures Checksum(d) != d.checksum
  {
  }

  /**
   * Loading after any successful save fails its checksum test, because Save
   * programs 44 of the 46 bytes and leaves word 11 erased.
   */
  lemma SaveThenLoadFails(img: seq<u8>)
    requires |img| == CONFIG_BYTES
    ensures !Loadable(SavedPage(img))
  {
    ErasedTailNotLoadable(SavedPage(img));
  }

  /** The page a write of all 46 bytes would leave (the last word padded with erased bytes). */
  function WholePage(img: seq<u8>): (m: seq<u32>)
    requires |img| == CONFIG_BYTES
    ensures |m| == Flash.WORDS_PER_PAGE
  {
    SavedPage(img)[SAVE_WORDS := Word([img[44], img[45], 0xFF, 0xFF])]
  }

  lemma WholePageBytes(img: seq<u8>)
    requires |img| == CONFIG_BYTES
    ensures ImageOf(WholePage(img)) == img
  {
    var m := WholePage(img);
    forall k | 0 <= k < CONFIG_BYTES
      ensures ImageOf(m)[k] == img[k]
    {
      var i := k / 4;
      assert ImageOf(m)[k] == Bytes4(m[i])[k % 4];
      if i < SAVE_WORDS {
        assert m[i] == ImageWord(img, i);
        WordBytesBack(img, i);
      } else {
        BytesOfWord([img[44], img[45], 0xFF, 0xFF]);
      }
    }
  }

  /**
   * Load is the inverse of writing the whole image: from a page holding all 46
   * bytes of a stamped configuration with the right magic and version, Load
   * succeeds and yields that configuration.
   */
  lemma WholeImageLoads(c: SystemConfig)
    requires c.magic == CONFIG_MAGIC && c.version == CONFIG_VERSION
    ensures Loadable(WholePage(Image(Stamp(c))))
    ensures FlashConfig(WholePage(Image(Stamp(c)))) == Stamp(c)
  {
    WholePageBytes(Image(Stamp(c)));
    DecodeImage(Stamp(c));
  }

  /*
   * The command handler.
   */

  /** Length of the leading run of non-space characters. */
  function WordLen(s: string): (n: nat)
    ensures n <= |s|
    ensures forall k :: 0 <= k < n ==> s[k] != ' '
    ensures n < |s| ==> s[n] == ' '
  {
    if s == [] || s[0] == ' ' then 0 else 1 + WordLen(s[1..])
  }

  /** The tokens successive strtok(…, " ") calls return: maximal runs of non-space characters. */
  function Tokens(s: string): seq<string>
    decreases |s|
  {
    if s == [] then []
    else if s[0] == ' ' then Tokens(s[1..])
    else [s[..WordLen(s)]] + Tokens(s[WordLen(s)..])
  }

  /** Every token is non-empty and free of spaces. */
  lemma {:induction false} TokensWellFormed(s: string)
    ensures forall t :: t in Tokens(s) ==> t != [] && ' ' !in t
    decreases |s|
  {
    if s == [] {
    } else if s[0] == ' ' {
      TokensWellFormed(s[1..]);
    } else {
      var n := WordLen(s);
      TokensWellFormed(s[n..]);
      assert ' ' !in s[..n] by {
        forall k | 0 <= k < n ensures s[..n][k] != ' ' { }
      }
    }
  }

  lemma {:induction false} WordLenOfWord(a: string, rest: string)
    requires ' ' !in a
    requires rest == [] || rest[0] == ' '
    ensures WordLen(a + rest) == |a|
    decreases |a|
  {
    if a == [] {
      assert a + rest == rest;
    } else {
      assert (a + rest)[1..] == a[1..] + rest;
      WordLenOfWord(a[1..], rest);
    }
  }

  /** strtok returns a space-free word in front of a space as the next token. */
  lemma FirstToken(a: string, rest: string)
    requires a != [] && ' ' !in a
    ensures Tokens(a + " " + rest) == [a] + Tokens(rest)
    ensures Tokens(a) == [a]
  {
    var s := a + " " + rest;
    WordLenOfWord(a, " " + rest);
    assert s == a + (" " + rest);
    assert s[..|a|] == a && s[|a|..] == " " + rest;
    assert (" " + rest)[1..] == rest;
    WordLenOfWord(a, []);
    assert a + [] == a;
    assert a[|a|..] == [];
  }

  /** strstr(s, p) != NULL. */
  predicate Contains(s: string, p: string)
    decreases |s|
  {
    p <= s || (s != [] && Contains(s[1..], p))
  }

  /** A pattern that is a prefix of some suffix of s occurs in s. */
  lemma {:induction false} ContainsFrom(s: string, p: string, i: nat)
    requires i <= |s| && p <= s[i..]
    ensures Contains(s, p)
    decreases i
  {
    if i > 0 {
      assert s[1..][i - 1..] == s[i..];
      ContainsFrom(s[1..], p, i - 1);
    }
  }

  /** A pattern with a character s lacks does not occur in s. */
  lemma {:induction false} MissingChar(s: string, p: string, k: nat)
    requires k < |p| && p[k] !in s
    ensures !Contains(s, p)
    decreases |s|
  {
    if s != [] {
      assert forall ch :: ch in s[1..] ==> ch in s;
      MissingChar(s[1..], p, k);
    }
  }

  /** p occurs in s starting at index i. */
  predicate OccursAt(s: string, p: string, i: int)
  {
    0 <= i <= |s| - |p| && s[i..i + |p|] == p
  }

  /** Contains agrees with "p occurs in s at some position". */
  lemma {:induction false} ContainsAt(s: string, p: string)
    ensures Contains(s, p) <==> exists i :: OccursAt(s, p, i)
    decreases |s|
  {
    if p <= s {
      assert OccursAt(s, p, 0);
    } else if s == [] {
    } else {
      ContainsAt(s[1..], p);
      if Contains(s[1..], p) {
        var i :| OccursAt(s[1..], p, i);
        assert s[i + 1..i + 1 + |p|] == s[1..][i..i + |p|];
        assert OccursAt(s, p, i + 1);
      }
      if exists i :: OccursAt(s, p, i) {
        var i :| OccursAt(s, p, i);
        assert i != 0;
        assert s[1..][i - 1..i - 1 + |p|] == s[i..i + |p|];
        assert OccursAt(s[1..], p, i - 1);
      }
    }
  }

  /** The first table entry at or after `from` whose name contains `name`. */
  function FirstItem(name: string, from: nat): (r: Option<Item>)
    requires from <= ITEM_COUNT
    ensures r.Some? ==> from <= r.value && Contains(ITEMS[r.value].name, name)
    ensures r.Some? ==> forall j :: from <= j < r.value ==> !Contains(ITEMS[j].name, name)
    ensures r.None? ==> forall j :: from <= j < ITEM_COUNT ==> !Contains(ITEMS[j].name, name)
    decreases ITEM_COUNT - from
  {
    if from == ITEM_COUNT then None
    else if Contains(ITEMS[from].name, name) then Some(from)
    else FirstItem(name, from + 1)
  }

  function IsSpace(ch: char): bool
  {
    ch == ' ' || ch == '\t' || ch == '\n' || ch == '\r' || ch == 11 as char || ch == 12 as char
  }

  function IsDigit(ch: char): bool { '0' <= ch <= '9' }

  /** The value of the leading digits of s, accumulated onto acc. */
  function Digits(s: string, acc: nat): nat
  {
    if s != [] && IsDigit(s[0]) then Digits(s[1..], 10 * acc + (s[0] - '0') as int) else acc
  }

  /** atoi: leading white space, an optional sign, then decimal digits up to the first other character. */
  function Atoi(s: string): int
    decreases |s|
  {
    if s != [] && IsSpace(s[0]) then Atoi(s[1..])
    else if s != [] && s[0] == '-' then -(Digits(s[1..], 0) as int)
    else if s != [] && s[0] == '+' then Digits(s[1..], 0)
    else Digits(s, 0)
  }

  function DigitChar(d: nat): char
    requires d < 10
  {
    ('0' as int + d) as char
  }

  /** The decimal numeral of n, most significant digit first. */
  function Decimal(n: nat): (s: string)
    ensures s != [] && forall k :: 0 <= k < |s| ==> IsDigit(s[k])
  {
    if n < 10 then [DigitChar(n)] else Decimal(n / 10) + [DigitChar(n % 10)]
  }

  lemma {:induction false} DigitsAppend(a: string, b: string, acc: nat)
    requires forall k :: 0 <= k < |a| ==> IsDigit(a[k])
    ensures Digits(a + b, acc) == Digits(b, Digits(a, acc))
    decreases |a|
  {
    if a != [] {
      assert (a + b)[1..] == a[1..] + b;
      DigitsAppend(a[1..], b, 10 * acc + (a[0] - '0') as int);
    } else {
      assert a + b == b;
    }
  }

  lemma DigitsOne(d: nat, acc: nat)
    requires d < 10
    ensures Digits([DigitChar(d)], acc) == 10 * acc + d
  {
    assert [DigitChar(d)][1..] == [];
  }

  lemma ShiftDigit(acc: nat, p: nat, n: nat)
    ensures 10 * (acc * p + n / 10) + n % 10 == acc * (10 * p) + n
  {
    assert 10 * (acc * p) == acc * (10 * p);
  }

  lemma {:induction false} DigitsDecimal(n: nat, acc: nat)
    ensures Digits(Decimal(n), acc) == acc * Pow10(|Decimal(n)|) + n
    decreases n
  {
    if n < 10 {
      DigitsOne(n, acc);
    } else {
      DigitsAppend(Decimal(n / 10), [DigitChar(n % 10)], acc);
      DigitsDecimal(n / 10, acc);
      var p := Pow10(|Decimal(n / 10)|);
      DigitsOne(n % 10, acc * p + n / 10);
      ShiftDigit(acc, p, n);
    }
  }

  function Pow10(k: nat): nat
  {
    if k == 0 then 1 else 10 * Pow10(k - 1)
  }

  /** atoi reads back any decimal numeral, with or without a minus sign. */
  lemma AtoiDecimal(n: nat)
    ensures Atoi(Decimal(n)) == n
    ensures Atoi("-" + Decimal(n)) == -(n as int)
  {
    DigitsDecimal(n, 0);
    assert ("-" + Decimal(n))[1..] == Decimal(n);
  }

  /** The branches of Config_Handle_Command that matter to the stored state. */
  datatype Command =
    | NoCommand                      // empty line, unknown verb, missing argument or unknown name
    | Show                           // CONFIG_GET: prints only
    | SetValue(item: Item, value: int) // CONFIG_SET <name> <value>
    | SaveConfig                     // CONFIG_SAVE
    | ResetConfig                    // CONFIG_RESET
    | Help                           // CONFIG_HELP: prints only

  /**
   * The dispatch of Config_Handle_Command: the verb is the first token and is
   * tested by substring in source order; a CONFIG_SET names the first table
   * entry whose name contains the second token and takes atoi of the third.
   */
  function Parse(cmd: string): Command
  {
    var toks := Tokens(cmd);
    if toks == [] then NoCommand
    else if Contains(toks[0], "CONFIG_GET") then Show
    else if Contains(toks[0], "CONFIG_SET") then
      if |toks| < 3 then NoCommand
      else match FirstItem(toks[1], 0)
        case None => NoCommand
        case Some(i) => SetValue(i, Atoi(toks[2]))
    else if Contains(toks[0], "CONFIG_SAVE") then SaveConfig
    else if Contains(toks[0], "CONFIG_RESET") then ResetConfig
    else if Contains(toks[0], "CONFIG_HELP") then Help
    else NoCommand
  }

  /** The effect of CONFIG_SET: auto_light_time goes through Set_U16, the rest through Set_U8, each after the C conversion. */
  function Applied(c: SystemConfig, item: Item, value: int): SystemConfig
  {
    if item == AUTO_LIGHT_TIME then AfterSetU16(c, item, Wrap16(value))
    else AfterSetU8(c, item, Wrap8(value))
  }

  lemma AlarmNotInFanOn()
    ensures !Contains(ITEMS[0].name, "alarm")
  {
    MissingChar(ITEMS[0].name, "alarm", 1);
  }

  lemma AlarmInHighAlarm()
    ensures Contains(ITEMS[1].name, "alarm")
  {
    ContainsFrom(ITEMS[1].name, "alarm", 10);
  }

  /** A parameter name selects the first table entry containing it: "alarm" means temp_high_alarm. */
  lemma SubstringName()
    ensures FirstItem("alarm", 0) == Some(TEMP_HIGH_ALARM)
  {
    AlarmNotInFanOn();
    AlarmInHighAlarm();
  }

  /** A pattern at least as long as s occurs in it only if it is s. */
  lemma {:induction false} LongPattern(s: string, p: string)
    requires |s| < |p| || (|s| == |p| && s != p)
    ensures !Contains(s, p)
    decreases |s|
  {
    if s != [] {
      LongPattern(s[1..], p);
    }
  }

  lemma SetVerb()
    ensures !Contains("CONFIG_SET", "CONFIG_GET") && Contains("CONFIG_SET", "CONFIG_SET")
  {
    assert "CONFIG_SET"[7] != "CONFIG_GET"[7];
    LongPattern("CONFIG_SET", "CONFIG_GET");
    ContainsFrom("CONFIG_SET", "CONFIG_SET", 0);
  }

  /**
   * A CONFIG_SET line with a name and a value selects the first item whose
   * name contains the given one and carries atoi of the value; with an
   * unknown name it does nothing.
   */
  lemma ParseSet(name: string, value: string)
    requires name != [] && ' ' !in name && value != [] && ' ' !in value
    ensures Parse("CONFIG_SET " + name + " " + value) ==
      match FirstItem(name, 0)
      case None => NoCommand
      case Some(i) => SetValue(i, Atoi(value))
  {
    assert "CONFIG_SET " + name + " " + value == "CONFIG_SET" + " " + (name + " " + value);
    FirstToken("CONFIG_SET", name + " " + value);
    FirstToken(name, value);
    FirstToken(value, "");
    SetVerb();
  }

  /** A CONFIG_SET line without a value does nothing. */
  lemma ParseSetWithoutValue(name: string)
    requires name != [] && ' ' !in name
    ensures Parse("CONFIG_SET " + name) == NoCommand
  {
    assert "CONFIG_SET " + name == "CONFIG_SET" + " " + name;
    FirstToken("CONFIG_SET", name);
    FirstToken(name, "");
    SetVerb();
  }

  lemma FanOnName()
    ensures FirstItem("temp_fan_on", 0) == Some(TEMP_FAN_ON)
  {
    ContainsFrom(ITEMS[0].name, "temp_fan_on", 0);
  }

  lemma Atoi286()
    ensures Atoi("286") == 286
  {
    AtoiDecimal(286);
    assert Decimal(286) == "286";
  }

  /** "CONFIG_SET temp_fan_on 286" passes the range check and stores 286 truncated to u8, 30. */
  lemma TruncatedSetCommand(c: SystemConfig)
    ensures Parse("CONFIG_SET " + "temp_fan_on" + " " + "286") == SetValue(TEMP_FAN_ON, 286)
    ensures Applied(c, TEMP_FAN_ON, 286) == c.(tempFanOn := 30)
  {
    ParseSet("temp_fan_on", "286");
    FanOnName();
    Atoi286();
  }

  /*
   * The store: system_config and the config flash page.
   */

  class Store {
    var cfg: SystemConfig
    const flash: Flash.Bank

    /** The bank is the single config page. */
    ghost predicate Valid()
      reads this, flash
    {
      flash.Valid() && flash.pages == 1 && flash.base == CONFIG_FLASH_ADDR
    }

    /** system_config starts zeroed, as a global of the C program does. */
    constructor (flash: Flash.Bank)
      requires flash.Valid() && flash.pages == 1 && flash.base == CONFIG_FLASH_ADDR
      ensures Valid() && this.flash == flash && cfg == ZERO_CONFIG
    {
      this.flash := flash;
      cfg := ZERO_CONFIG;
    }

    /** Config_Set_Defaults. */
    method SetDefaults()
      modifies this`cfg
      ensures cfg == Defaults()
    {
      cfg := SystemConfig(
        CONFIG_MAGIC, CONFIG_VERSION,
        DEFAULT_TEMP_FAN_ON, DEFAULT_TEMP_HIGH_ALARM, DEFAULT_TEMP_LOW_ALARM, DEFAULT_AUTO_HYSTERESIS,
        DEFAULT_HUMI_PUMP_ON, DEFAULT_HUMI_HIGH_ALARM, DEFAULT_HUMI_LOW_ALARM, 5,
        DEFAULT_LIGHT_AUTO_ON, DEFAULT_LIGHT_LOW_ALARM, 10,
        DEFAULT_MORNING_START, DEFAULT_NIGHT_START, DEFAULT_AUTO_LIGHT_TIME,
        DEFAULT_SENSOR_INTERVAL, DEFAULT_LOG_INTERVAL, 0,
        1, 255, 0,
        cfg.reserved, cfg.checksum);
      cfg := cfg.(reserved := [0, 0, 0, 0, 0, 0, 0, 0, 0, 0, 0, 0, 0, 0, 0, 0]);
      var sum := CalculateChecksum(cfg);
      cfg := cfg.(checksum := sum);
    }

    /**
     * Config_Load: 1 on a magic or version mismatch with system_config
     * untouched; otherwise the page is copied into system_config and the
     * result is 1 exactly when the checksum test fails.
     */
    method Load() returns (status: u8)
      requires Valid()
      modifies this`cfg
      ensures status == 0 <==> Loadable(flash.mem[..])
      ensures status != 0 ==> status == 1
      ensures cfg == if HeaderOk(flash.mem[..]) then FlashConfig(flash.mem[..]) else old(cfg)
    {
      var flashConfig := Decode(ImageOf(flash.mem[..]));
      if flashConfig.magic != CONFIG_MAGIC {
        return 1;
      }
      if flashConfig.version != CONFIG_VERSION {
        return 1;
      }
      cfg := flashConfig;
      var calculated := CalculateChecksum(cfg);
      if calculated != cfg.checksum {
        return 1;
      }
      status := 0;
    }

    /**
     * Config_Save: recompute the checksum, erase the page, then program
     * sizeof(SystemConfig_t) / 4 = 11 words of the struct.
     */
    method Save() returns (status: u8)
      requires Valid()
      modifies this`cfg, flash.mem
      ensures cfg == Stamp(old(cfg))
      ensures status == 0 <==> 0 !in flash.locked
      ensures status != 0 ==> status == 1
      ensures flash.mem[..] == if status == 0 then SavedPage(Image(cfg)) else old(flash.mem[..])
    {
      var sum := CalculateChecksum(cfg);
      cfg := cfg.(checksum := sum);
      assert cfg == Stamp(old(cfg));
      var ok := flash.ErasePage(0);
      if !ok {
        return 1;
      }
      ErasedIsUnwritten(old(flash.mem[..]), Image(cfg));
      ProgramImage(Image(cfg));
      status := 0;
    }

    /** The word-program loop of Config_Save, on a freshly erased page. */
    method ProgramImage(img: seq<u8>)
      requires Valid() && |img| == CONFIG_BYTES
      requires 0 !in flash.locked && flash.mem[..] == SavedWords(img, 0)
      modifies flash.mem
      ensures flash.mem[..] == SavedPage(img)
    {
      var i := 0;
      while i < SAVE_WORDS
        invariant 0 <= i <= SAVE_WORDS
        invariant flash.mem[..] == SavedWords(img, i)
      {
        var ok := flash.ProgramWord(i, ImageWord(img, i));
        if !ok {
          assert false;
        }
        assert flash.mem[..] == SavedWords(img, i + 1);
        i := i + 1;
      }
    }

    /** Config_Reset: the defaults, saved. */
    method Reset() returns (status: u8)
      requires Valid()
      modifies this`cfg, flash.mem
      ensures cfg == Defaults()
      ensures status == 0 <==> 0 !in flash.locked
      ensures flash.mem[..] == if status == 0 then SavedPage(Image(Defaults())) else old(flash.mem[..])
    {
      SetDefaults();
      StampIdempotent(cfg);
      status := Save();
    }

    /** Config_Init: keep a loadable page, otherwise fall back to the defaults and save them. */
    method Init() returns (status: u8)
      requires Valid()
      modifies this`cfg, flash.mem
      ensures status == 0
      ensures Loadable(old(flash.mem[..])) ==> cfg == FlashConfig(old(flash.mem[..])) && flash.mem[..] == old(flash.mem[..])
      ensures !Loadable(old(flash.mem[..])) ==>
        cfg == Defaults()
        && flash.mem[..] == if 0 !in flash.locked then SavedPage(Image(Defaults())) else old(flash.mem[..])
    {
      var loaded := Load();
      if loaded != 0 {
        SetDefaults();
        StampIdempotent(cfg);
        var saved := Save();
      }
      status := 0;
    }

    /** Config_Set_U8. */
    method SetU8(item: Item, value: u8) returns (status: u8)
      modifies this`cfg
      ensures status == 0 <==> AcceptsU8(item, value)
      ensures status != 0 ==> status == 1
      ensures cfg == AfterSetU8(old(cfg), item, value)
    {
      if value < ITEMS[item].min || value > ITEMS[item].max {
        return 1;
      }
      match item {
        case 0 => cfg := cfg.(tempFanOn := value);
        case 1 => cfg := cfg.(tempHighAlarm := value);
        case 2 => cfg := cfg.(tempLowAlarm := value);
        case 3 => cfg := cfg.(humiPumpOn := value);
        case 4 => cfg := cfg.(humiHighAlarm := value);
        case 5 => cfg := cfg.(humiLowAlarm := value);
        case 6 => cfg := cfg.(lightAutoOn := value);
        case 7 => cfg := cfg.(lightLowAlarm := value);
        case 8 => cfg := cfg.(sensorInterval := value);
        case 9 => cfg := cfg.(logInterval := value);
        case 10 => cfg := cfg.(autoModeDefault := value);
        case 11 => cfg := cfg.(alarmSoundEnable := value);
        case 12 => cfg := cfg.(ledBrightness := value);
        case 13 => cfg := cfg.(morningStart := value);
        case 14 => cfg := cfg.(nightStart := value);
        case _ => return 1;
      }
      status := 0;
    }

    /** Config_Set_U16. */
    method SetU16(item: Item, value: u16) returns (status: u8)
      modifies this`cfg
      ensures status == 0 <==> AcceptsU16(item, value)
      ensures status != 0 ==> status == 1
      ensures cfg == AfterSetU16(old(cfg), item, value)
    {
      if item == AUTO_LIGHT_TIME {
        if value > 1440 {
          return 1;
        }
        cfg := cfg.(autoLightTime := value);
        return 0;
      }
      status := SetU8(item, Wrap8(value));
    }

    /** Config_Set_All: store the whole struct, then report its validation count. */
    method SetAll(config: SystemConfig) returns (errors: u8)
      modifies this`cfg
      ensures cfg == config
      ensures errors == Validate(config)
    {
      cfg := config;
      errors := Validate(cfg);
    }

    /** The name-lookup loop of Config_Handle_Command. */
    method FindItem(name: string) returns (found: Option<Item>)
      ensures found == FirstItem(name, 0)
    {
      var i := 0;
      while i < ITEM_COUNT
        invariant 0 <= i <= ITEM_COUNT
        invariant FirstItem(name, 0) == FirstItem(name, i)
      {
        if Contains(ITEMS[i].name, name) {
          return Some(i);
        }
        i := i + 1;
      }
      found := None;
    }

    /** The CONFIG_SET branch once both arguments are present. */
    method SetNamed(name: string, text: string)
      modifies this`cfg
      ensures cfg == match FirstItem(name, 0)
        case None => old(cfg)
        case Some(i) => Applied(old(cfg), i, Atoi(text))
    {
      var value := Atoi(text);
      var found := FindItem(name);
      if found.Some? {
        var i := found.value;
        if i == AUTO_LIGHT_TIME {
          var status := SetU16(i, Wrap16(value));
        } else {
          var status := SetU8(i, Wrap8(value));
        }
      }
    }

    /** Config_Handle_Command, with its printing left out. */
    method HandleCommand(cmd: string)
      requires Valid()
      modifies this`cfg, flash.mem
      ensures match Parse(cmd)
        case SetValue(item, value) =>
          cfg == Applied(old(cfg), item, value) && flash.mem[..] == old(flash.mem[..])
        case SaveConfig =>
          cfg == Stamp(old(cfg))
          && flash.mem[..] == if 0 !in flash.locked then SavedPage(Image(cfg)) else old(flash.mem[..])
        case ResetConfig =>
          cfg == Defaults()
          && flash.mem[..] == if 0 !in flash.locked then SavedPage(Image(Defaults())) else old(flash.mem[..])
        case _ => cfg == old(cfg) && flash.mem[..] == old(flash.mem[..])
    {
      var toks := Tokens(cmd);
      if |toks| == 0 {
        return;
      }
      var token := toks[0];
      if Contains(token, "CONFIG_GET") {
        return;
      } else if Contains(token, "CONFIG_SET") {
        if |toks| < 3 {
          return;
        }
        SetNamed(toks[1], toks[2]);
      } else if Contains(token, "CONFIG_SAVE") {
        var status := Save();
      } else if Contains(token, "CONFIG_RESET") {
        var status := Reset();
      }
    }
  }
}
