/**
 * The smaller configuration module of missing_functions_stub.c: a statically
 * initialised settings record, a ten-item getter and a two-command handler that
 * matches commands by prefix.
 */
module StubConfig {
  import opened Ints
  import opened Wrappers

  type Reserved = s: seq<u8> | |s| == 16 witness [0, 0, 0, 0, 0, 0, 0, 0, 0, 0, 0, 0, 0, 0, 0, 0]

  /** The stub's SystemConfig_t (no light-schedule or system-option fields). */
  datatype Settings = Settings(
    magic: u32, version: u8,
    tempFanOn: u8, tempHighAlarm: u8, tempLowAlarm: u8, tempHysteresis: u8,
    humiPumpOn: u8, humiHighAlarm: u8, humiLowAlarm: u8, humiHysteresis: u8,
    lightAutoOn: u8, lightLowAlarm: u8, lightHysteresis: u8,
    sensorInterval: u8, logInterval: u8,
    reserved: Reserved, checksum: u32)

  /** The static initialiser of system_config. */
  const INITIAL := Settings(0x5A5A_5A5A, 1, 27, 35, 15, 1, 30, 80, 20, 5, 30, 20, 10, 2, 10,
                            [0, 0, 0, 0, 0, 0, 0, 0, 0, 0, 0, 0, 0, 0, 0, 0], 0)

  /** The stub's ConfigItem_t numbering: the same 0..9 as config.h's first ten items; only CONFIG_ITEM_COUNT differs (10 here, 16 there). */
  const TEMP_FAN_ON := 0
  const TEMP_HIGH_ALARM := 1
  const TEMP_LOW_ALARM := 2
  const HUMI_PUMP_ON := 3
  const HUMI_HIGH_ALARM := 4
  const HUMI_LOW_ALARM := 5
  const LIGHT_AUTO_ON := 6
  const LIGHT_LOW_ALARM := 7
  const SENSOR_INTERVAL := 8
  const LOG_INTERVAL := 9
  const ITEM_COUNT := 10

  /** Config_Get_U8: the field an item names, 0 for any other value. */
  function GetU8(c: Settings, item: int): (v: u8)
    ensures !(0 <= item < ITEM_COUNT) ==> v == 0
  {
    match item
    case 0 => c.tempFanOn
    case 1 => c.tempHighAlarm
    case 2 => c.tempLowAlarm
    case 3 => c.humiPumpOn
    case 4 => c.humiHighAlarm
    case 5 => c.humiLowAlarm
    case 6 => c.lightAutoOn
    case 7 => c.lightLowAlarm
    case 8 => c.sensorInterval
    case 9 => c.logInterval
    case _ => 0
  }

  /** The values CONFIG_RESET writes, in item order. */
  const RESET_VALUES: seq<u8> := [30, 35, 15, 30, 80, 20, 30, 20, 2, 10]

  /** The settings after CONFIG_RESET: the ten items overwritten, nothing else touched. */
  function ResetOf(c: Settings): (r: Settings)
    ensures forall item :: 0 <= item < ITEM_COUNT ==> GetU8(r, item) == RESET_VALUES[item]
    ensures r.magic == c.magic && r.version == c.version && r.checksum == c.checksum
    ensures r.reserved == c.reserved
    ensures r.tempHysteresis == c.tempHysteresis && r.humiHysteresis == c.humiHysteresis
    ensures r.lightHysteresis == c.lightHysteresis
  {
    c.(tempFanOn := 30, tempHighAlarm := 35, tempLowAlarm := 15,
       humiPumpOn := 30, humiHighAlarm := 80, humiLowAlarm := 20,
       lightAutoOn := 30, lightLowAlarm := 20,
       sensorInterval := 2, logInterval := 10)
  }

  /** strncmp(cmd, p, |p|) == 0 on a NUL-free string: cmd begins with p. */
  predicate StartsWith(cmd: string, p: string)
  {
    |p| <= |cmd| && cmd[..|p|] == p
  }

  const GET_COMMAND := "CONFIG_GET"
  const RESET_COMMAND := "CONFIG_RESET"

  /** The settings after Config_Handle_Command (none: a null pointer). */
  function AfterCommand(c: Settings, cmd: Option<string>): Settings
  {
    if cmd.None? then c
    else if StartsWith(cmd.value, GET_COMMAND) then c
    else if StartsWith(cmd.value, RESET_COMMAND) then ResetOf(c)
    else c
  }

  /** Resetting twice is resetting once. */
  lemma ResetIdempotent(c: Settings)
    ensures ResetOf(ResetOf(c)) == ResetOf(c)
  {
  }

  /**
   * Resetting the initial settings changes exactly one field: temp_fan_on becomes 30,
   * where the initialiser has 27.
   */
  lemma ResetDiffersFromInitial()
    ensures ResetOf(INITIAL) == INITIAL.(tempFanOn := 30)
    ensures INITIAL.tempFanOn == 27
  {
  }

  /** "CONFIG_RESET" does not begin with "CONFIG_GET". */
  lemma ResetIsNotGet(rest: string)
    ensures !StartsWith(RESET_COMMAND + rest, GET_COMMAND)
  {
    assert (RESET_COMMAND + rest)[7] != GET_COMMAND[7];
  }

  /** Every command beginning with CONFIG_RESET resets, whatever follows it. */
  lemma ResetByPrefix(c: Settings, rest: string)
    ensures AfterCommand(c, Some(RESET_COMMAND + rest)) == ResetOf(c)
  {
    ResetIsNotGet(rest);
    assert (RESET_COMMAND + rest)[..|RESET_COMMAND|] == RESET_COMMAND;
  }

  /** Only a reset command changes the settings; CONFIG_GET never does. */
  lemma OnlyResetChanges(c: Settings, cmd: Option<string>)
    ensures AfterCommand(c, cmd) == c || AfterCommand(c, cmd) == ResetOf(c)
    ensures cmd.Some? && StartsWith(cmd.value, GET_COMMAND) ==> AfterCommand(c, cmd) == c
    ensures AfterCommand(c, cmd) != c ==> cmd.Some? && StartsWith(cmd.value, RESET_COMMAND)
  {
  }

  /** A command shorter than the keyword does not match it. */
  lemma TruncatedKeywordIgnored(c: Settings)
    ensures AfterCommand(c, Some("CONFIG_RES")) == c
  {
    assert !StartsWith("CONFIG_RES", RESET_COMMAND);
    assert "CONFIG_RES"[7] != GET_COMMAND[7];
  }

  /** system_config and the command handler that rewrites it. */
  class Store {
    var cfg: Settings

    constructor ()
      ensures cfg == INITIAL
    {
      cfg := INITIAL;
    }

    /** Config_Handle_Command: CONFIG_GET only reports; CONFIG_RESET overwrites the ten items. */
    method HandleCommand(cmd: Option<string>)
      modifies this
      ensures cfg == AfterCommand(old(cfg), cmd)
    {
      if cmd.None? {
        return;
      }
      var s := cmd.value;
      if |s| >= 10 && s[..10] == GET_COMMAND {
      } else if |s| >= 12 && s[..12] == RESET_COMMAND {
        cfg := cfg.(tempFanOn := 30);
        cfg := cfg.(tempHighAlarm := 35);
        cfg := cfg.(tempLowAlarm := 15);
        cfg := cfg.(humiPumpOn := 30);
        cfg := cfg.(humiHighAlarm := 80);
        cfg := cfg.(humiLowAlarm := 20);
        cfg := cfg.(lightAutoOn := 30);
        cfg := cfg.(lightLowAlarm := 20);
        cfg := cfg.(sensorInterval := 2);
        cfg := cfg.(logInterval := 10);
      }
    }
  }
}
