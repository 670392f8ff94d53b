/**
 * The command dispatch of Greenhouse_Handle_Bluetooth as a classifier: a completed
 * USART3 line, read as a C string, goes to the first branch of the if / else-if chain
 * whose keyword occurs in it (strstr), and the RGB_BRIGHT argument is read with atoi.
 */
module Bluetooth {
  import opened Ints
  import Config
  import Usart3
  import opened Wrappers

  /** The branches of the dispatcher, in source order, and Unknown for the final else. */
  datatype Command =
    | Status | Auto | Manual | FanOn | FanOff | PumpOn | PumpOff | LightOn | LightOff
    | Stats | Trend | SensorStatus
    | BtName | BtVer | BtAddr | BtPin | BtBaud | BtRole | BtClass | BtTest | BtReset | BtDiag
    | RgbTemp | RgbHumidity | RgbLight | RgbStatus | RgbOff
    | RgbRainbow | RgbBreathing | RgbFlow
    | RgbHeart | RgbSmiley | RgbCheck | RgbCross | RgbRobot | RgbManualFace
    | RgbRed | RgbGreen | RgbBlue | RgbWhite | RgbYellow | RgbPurple | RgbCyan
    | RgbBright | Help
    | Unknown

  /** The three commands whose keywords contain an earlier keyword. */
  predicate Moved(cmd: Command)
  {
    cmd.SensorStatus? || cmd.RgbStatus? || cmd.RgbManualFace?
  }

  /** strstr(line, keyword) != NULL: the keyword occurs somewhere in the line. */
  predicate Found(line: string, keyword: string)
  {
    exists i | 0 <= i <= |line| - |keyword| :: Config.OccursAt(line, keyword, i)
  }

  /** The keyword test every branch applies to the received line. */
  function Strstr(line: string): string -> bool
  {
    k => Found(line, k)
  }

  /** The chain up to TREND: status, mode, device switches and statistics. */
  function MatchDevice(found: string -> bool): (r: Option<Command>)
    ensures r.Some? ==> !Moved(r.value) && r.value != Unknown && r.value != RgbBright
    ensures found("STATUS") ==> r == Some(Status)
    ensures found("MANUAL") ==> r.Some?
  {
    if found("STATUS") then Some(Status)
    else if found("AUTO") then Some(Auto)
    else if found("MANUAL") then Some(Manual)
    else if found("FAN_ON") then Some(FanOn)
    else if found("FAN_OFF") then Some(FanOff)
    else if found("PUMP_ON") then Some(PumpOn)
    else if found("PUMP_OFF") then Some(PumpOff)
    else if found("LIGHT_ON") then Some(LightOn)
    else if found("LIGHT_OFF") then Some(LightOff)
    else if found("STATS") then Some(Stats)
    else if found("TREND") then Some(Trend)
    else None
  }

  /** The HC-05 commands and the first three RGB display commands. */
  function MatchModule(found: string -> bool): (r: Option<Command>)
    ensures r.Some? ==> !Moved(r.value) && r.value != Unknown && r.value != RgbBright
  {
    if found("BT_NAME") then Some(BtName)
    else if found("BT_VER") then Some(BtVer)
    else if found("BT_ADDR") then Some(BtAddr)
    else if found("BT_PIN") then Some(BtPin)
    else if found("BT_BAUD") then Some(BtBaud)
    else if found("BT_ROLE") then Some(BtRole)
    else if found("BT_CLASS") then Some(BtClass)
    else if found("BT_TEST") then Some(BtTest)
    else if found("BT_RESET") then Some(BtReset)
    else if found("BT_DIAG") then Some(BtDiag)
    else if found("RGB_TEMP") then Some(RgbTemp)
    else if found("RGB_HUMIDITY") then Some(RgbHumidity)
    else if found("RGB_LIGHT") then Some(RgbLight)
    else None
  }

  /** RGB_OFF, the animations and the patterns. */
  function MatchEffect(found: string -> bool): (r: Option<Command>)
    ensures r.Some? ==> !Moved(r.value) && r.value != Unknown && r.value != RgbBright
  {
    if found("RGB_OFF") then Some(RgbOff)
    else if found("RGB_RAINBOW") then Some(RgbRainbow)
    else if found("RGB_BREATHING") then Some(RgbBreathing)
    else if found("RGB_FLOW") then Some(RgbFlow)
    else if found("RGB_HEART") then Some(RgbHeart)
    else if found("RGB_SMILEY") then Some(RgbSmiley)
    else if found("RGB_CHECK") then Some(RgbCheck)
    else if found("RGB_CROSS") then Some(RgbCross)
    else if found("RGB_ROBOT") then Some(RgbRobot)
    else None
  }

  /** The colours, the brightness and HELP. */
  function MatchColor(found: string -> bool): (r: Option<Command>)
    ensures r.Some? ==> !Moved(r.value) && r.value != Unknown
    ensures r == Some(RgbBright) ==> found("RGB_BRIGHT")
  {
    if found("RGB_RED") then Some(RgbRed)
    else if found("RGB_GREEN") then Some(RgbGreen)
    else if found("RGB_BLUE") then Some(RgbBlue)
    else if found("RGB_WHITE") then Some(RgbWhite)
    else if found("RGB_YELLOW") then Some(RgbYellow)
    else if found("RGB_PURPLE") then Some(RgbPurple)
    else if found("RGB_CYAN") then Some(RgbCyan)
    else if found("RGB_BRIGHT") then Some(RgbBright)
    else if found("HELP") then Some(Help)
    else None
  }

  /**
   * The if / else-if chain of Greenhouse_Handle_Bluetooth as written, for a keyword test:
   * the first keyword found decides.
   */
  function ClassifyBy(found: string -> bool): Command
  {
    var device := MatchDevice(found);
    if device.Some? then device.value
    else if found("SENSOR_STATUS") then SensorStatus
    else
      var hc05 := MatchModule(found);
      if hc05.Some? then hc05.value
      else if found("RGB_STATUS") then RgbStatus
      else
        var effect := MatchEffect(found);
        if effect.Some? then effect.value
        else if found("RGB_MANUAL_FACE") then RgbManualFace
        else
          var color := MatchColor(found);
          if color.Some? then color.value else Unknown
  }

  /** The chain with the three longer keywords tested before the keywords they contain. */
  function ClassifyFixedBy(found: string -> bool): Command
  {
    if found("SENSOR_STATUS") then SensorStatus
    else if found("RGB_STATUS") then RgbStatus
    else if found("RGB_MANUAL_FACE") then RgbManualFace
    else
      var device, hc05, effect, color := MatchDevice(found), MatchModule(found), MatchEffect(found), MatchColor(found);
      if device.Some? then device.value
      else if hc05.Some? then hc05.value
      else if effect.Some? then effect.value
      else if color.Some? then color.value
      else Unknown
  }

  /** Greenhouse_Handle_Bluetooth's branch for a received line, as written. */
  function Classify(line: string): Command
  {
    ClassifyBy(Strstr(line))
  }

  /** The branch the corrected chain takes for a received line. */
  function ClassifyFixed(line: string): Command
  {
    ClassifyFixedBy(Strstr(line))
  }

  /** strstr finds whatever a found pattern contains. */
  lemma FoundTrans(s: string, p: string, q: string)
    requires Found(s, p) && Found(p, q)
    ensures Found(s, q)
  {
    var i :| 0 <= i <= |s| - |p| && Config.OccursAt(s, p, i);
    var j :| 0 <= j <= |p| - |q| && Config.OccursAt(p, q, j);
    forall k | 0 <= k < |q|
      ensures s[i + j + k] == q[k]
    {
      assert s[i..i + |p|][j + k] == s[i + j + k];
      assert p[j..j + |q|][k] == p[j + k];
    }
    assert s[i + j..i + j + |q|] == q;
    assert Config.OccursAt(s, q, i + j);
  }

  /** A keyword test under which the three longer keywords imply the shorter ones inside them. */
  predicate Nested(found: string -> bool)
  {
    (found("SENSOR_STATUS") ==> found("STATUS")) && (found("RGB_STATUS") ==> found("STATUS"))
    && (found("RGB_MANUAL_FACE") ==> found("MANUAL"))
  }

  /** strstr on any line is such a test. */
  lemma StrstrNested(line: string)
    ensures Nested(Strstr(line))
  {
    assert Config.OccursAt("SENSOR_STATUS", "STATUS", 7);
    assert Config.OccursAt("RGB_STATUS", "STATUS", 4);
    assert Config.OccursAt("RGB_MANUAL_FACE", "MANUAL", 4);
    if Found(line, "SENSOR_STATUS") {
      FoundTrans(line, "SENSOR_STATUS", "STATUS");
    }
    if Found(line, "RGB_STATUS") {
      FoundTrans(line, "RGB_STATUS", "STATUS");
    }
    if Found(line, "RGB_MANUAL_FACE") {
      FoundTrans(line, "RGB_MANUAL_FACE", "MANUAL");
    }
  }

  /**
   * Three documented commands can never be reached: every line containing
   * "SENSOR_STATUS" or "RGB_STATUS" also contains "STATUS", and every line containing
   * "RGB_MANUAL_FACE" also contains "MANUAL", and those keywords are tested first. So
   * RGB_STATUS takes the STATUS branch, and RGB_MANUAL_FACE (with no earlier keyword in
   * the line) takes the MANUAL branch.
   */
  lemma ShadowedCommands(line: string)
    ensures Classify(line) != SensorStatus
    ensures Classify(line) != RgbStatus
    ensures Classify(line) != RgbManualFace
    ensures Found(line, "RGB_STATUS") ==> Classify(line) == Status
    ensures Found(line, "RGB_MANUAL_FACE") && !Found(line, "STATUS") && !Found(line, "AUTO") ==>
      Classify(line) == Manual
  {
    StrstrNested(line);
  }

  /** The corrected dispatcher agrees with the written one on every line that contains none of the three moved keywords. */
  lemma ClassifyFixedAgrees(line: string)
    requires !Found(line, "SENSOR_STATUS") && !Found(line, "RGB_STATUS")
    requires !Found(line, "RGB_MANUAL_FACE")
    ensures ClassifyFixed(line) == Classify(line)
  {
  }

  /**
   * In the corrected dispatcher each moved keyword selects its own command, ahead of the
   * shorter keyword it contains, so all three are reachable.
   */
  lemma FixedReachesShadowed(line: string)
    ensures ClassifyFixed(line) == SensorStatus <==> Found(line, "SENSOR_STATUS")
    ensures ClassifyFixed(line) == RgbStatus
      <==> !Found(line, "SENSOR_STATUS") && Found(line, "RGB_STATUS")
    ensures ClassifyFixed(line) == RgbManualFace
      <==> (!Found(line, "SENSOR_STATUS") && !Found(line, "RGB_STATUS")
        && Found(line, "RGB_MANUAL_FACE"))
  {
  }

  /** The brightness branch is taken only when the keyword is there to read the number after. */
  lemma BrightnessHasKeyword(line: string)
    ensures ClassifyFixed(line) == RgbBright ==> Config.Contains(line, "RGB_BRIGHT")
    ensures Classify(line) == RgbBright ==> Config.Contains(line, "RGB_BRIGHT")
  {
    BrightnessFound(line);
    FoundContains(line, "RGB_BRIGHT");
  }

  lemma BrightnessFound(line: string)
    ensures ClassifyFixed(line) == RgbBright ==> Found(line, "RGB_BRIGHT")
    ensures Classify(line) == RgbBright ==> Found(line, "RGB_BRIGHT")
  {
  }

  /** Found is strstr's answer as Contains states it. */
  lemma FoundContains(s: string, p: string)
    ensures Found(s, p) <==> Config.Contains(s, p)
  {
    Config.ContainsAt(s, p);
  }

  /** The string strstr and atoi see: the bytes before the first NUL, as characters. */
  function CString(bytes: seq<u8>): (s: string)
    ensures |s| <= |bytes|
    ensures forall k :: 0 <= k < |s| ==> bytes[k] != 0 && s[k] == bytes[k] as char
    ensures |s| < |bytes| ==> bytes[|s|] == 0
  {
    if bytes == [] || bytes[0] == 0 then [] else [bytes[0] as char] + CString(bytes[1..])
  }

  /** Writing the terminating NUL at index n makes the string exactly the first n bytes up to any earlier NUL. */
  lemma {:induction false} CStringStopsAtNul(bytes: seq<u8>, n: nat)
    requires n < |bytes|
    ensures CString(bytes[n := 0]) == CString(bytes[..n])
    decreases n
  {
    if n > 0 && bytes[0] != 0 {
      assert bytes[n := 0][1..] == bytes[1..][n - 1 := 0];
      assert bytes[..n][1..] == bytes[1..][..n - 1];
      CStringStopsAtNul(bytes[1..], n - 1);
    }
  }

  /** The received line once bit 15 is set: the NUL written at the count ends the string. */
  function Line(sta: u16, buf: seq<u8>): string
    requires Usart3.Bounded(sta) && |buf| == Usart3.REC_LEN
  {
    CString(buf[..Usart3.Count(sta)])
  }

  /** The text after the first occurrence of p: strstr(s, p) + |p|. */
  function After(s: string, p: string): (r: string)
    requires Config.Contains(s, p)
    ensures |r| <= |s|
    decreases |s|
  {
    if p <= s then s[|p|..] else After(s[1..], p)
  }

  /** The RGB_BRIGHT argument: (u8)atoi of the text after the keyword. */
  function BrightnessArg(line: string): u8
    requires Config.Contains(line, "RGB_BRIGHT")
  {
    Wrap8(Config.Atoi(After(line, "RGB_BRIGHT")))
  }

  /** "RGB_BRIGHT" followed by a decimal number n < 256 carries n. */
  lemma BrightnessArgDecimal(n: nat)
    requires n < 256
    ensures Config.Contains("RGB_BRIGHT" + Config.Decimal(n), "RGB_BRIGHT")
    ensures BrightnessArg("RGB_BRIGHT" + Config.Decimal(n)) == n
  {
    var s := "RGB_BRIGHT" + Config.Decimal(n);
    assert "RGB_BRIGHT" <= s;
    assert s[10..] == Config.Decimal(n);
    Config.AtoiDecimal(n);
  }
}
