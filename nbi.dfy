/**
 * The `nbi` command of cmd/nbi.c (Namtso Bootloader Instructions): sub-commands
 * that read the board MCU's registers over I2C, decode them into enable flags,
 * boot-mode and LED-mode names, and change them by running `i2c mw` shell
 * commands; the wake-on-LAN arming sequence writes the MAC address into the
 * Ethernet PHY through `mdio write` commands.
 *
 * The MCU is an input (`Mcu`): which bus and chip lookups succeed, which
 * register reads fail, and the register contents.  Shell commands are not
 * executed: they appear in the trace as the text handed to `run_command`.
 */
module Nbi {
  import opened Fmt
  import opened Wrappers

  const ENODEV := 19
  /** `CMD_RET_USAGE` of U-Boot's `enum command_ret_t`. */
  const CMD_RET_USAGE := -1

  /** I2C address of the MCU (`CHIP_ADDR`; `CHIP_ADDR_CHAR` is the same value as text). */
  const CHIP_ADDR := 0x18

  const REG_MAC := 0x00
  const REG_USID := 0x12
  const REG_VERSION := 0x19
  const REG_BOOT_MODE := 0x20
  const REG_BOOT_EN_WOL := 0x21
  const REG_BOOT_EN_RTC := 0x22
  const REG_BOOT_EN_DCIN := 0x23
  const REG_BOOT_EN_LPWR := 0x24
  const REG_BOOT_EN_UPWR := 0x25
  const REG_LED_ON_SYS := 0x28
  const REG_LED_OFF_SYS := 0x29
  const REG_LED_USER := 0x2a
  const REG_MCU_SLEEP_EN := 0x2b
  const REG_MAC_SWITCH := 0x2c
  const REG_REST_CONF := 0x80
  const REG_SYS_RST := 0x81
  const REG_FAN_LEVEL := 0x82
  const REG_FAN_TEST := 0x83
  const REG_EN_WDT := 0x84
  const REG_INIT_WOL := 0x85

  const LED_OFF_MODE := 0
  const LED_ON_MODE := 1
  const LED_BREATHE_MODE := 2
  const LED_HEARTBEAT_MODE := 3

  const BOOT_MODE_SPI := 0
  const BOOT_MODE_EMMC := 1
  const BOOT_MODE_SD := 2

  const VERSION_LENGTH := 2
  const USID_LENGTH := 6
  const MAC_LENGTH := 6

  const LED_MODE_STR: seq<string> := ["off", "on", "breathe", "heartbeat"]

  // ---------------------------------------------------------------------------
  // The MCU and the I2C reads
  // ---------------------------------------------------------------------------

  /**
   * The MCU as the I2C layer presents it: whether bus 1 exists, the return
   * value of `i2c_get_chip`, the return value of `dm_i2c_read` per register
   * (0 when absent), and the register contents (0 when absent).
   */
  datatype Mcu = Mcu(busFound: bool, chipRet: int, readRet: map<nat, int>, regs: map<nat, byte>)
  {
    function Value(reg: nat): byte { if reg in regs then regs[reg] else 0 }
    function ReadErr(reg: nat): int { if reg in readRet then readRet[reg] else 0 }
  }

  /**
   * The return value of `i2c_get_cur_bus_chip` followed by `dm_i2c_read`: 0 on
   * success.  `busOk` says whether a bus is selected, cached or found.
   */
  function ReadStatus(m: Mcu, busOk: bool, reg: nat): int
  {
    if !busOk then -ENODEV else if m.chipRet != 0 then m.chipRet else m.ReadErr(reg)
  }

  /**
   * `nbi_i2c_read(reg)`: the error code, or the register byte passed through
   * `sprintf("%d")` and `simple_strtoul(…, 10)`, which gives it back unchanged.
   */
  function ReadReg(m: Mcu, busOk: bool, reg: nat): (r: int)
    ensures ReadStatus(m, busOk, reg) == 0 ==> r == m.Value(reg) as int
    ensures ReadStatus(m, busOk, reg) != 0 ==> r == ReadStatus(m, busOk, reg)
  {
    var status := ReadStatus(m, busOk, reg);
    if status != 0 then status
    else
      DecimalRoundTrip(m.Value(reg) as nat);
      StrToUl10(Decimal(m.Value(reg) as nat))
  }

  /** With negative error codes, a register read is in 0..255 exactly when it succeeds. */
  lemma ReadRegRange(m: Mcu, busOk: bool, reg: nat)
    requires m.chipRet <= 0 && m.ReadErr(reg) <= 0
    ensures 0 <= ReadReg(m, busOk, reg) < 256 <==> ReadStatus(m, busOk, reg) == 0
  {
  }

  /** Slots written by `nbi_i2c_read_block(start, count, val)`: a do-while loop runs at least once. */
  function Slots(count: int): nat
  {
    if count >= 1 then count else 1
  }

  /** The buffer `init` after reads into its first `k` slots, a failed read leaving its slot alone. */
  function Filled(m: Mcu, busOk: bool, start: nat, k: nat, init: seq<byte>): (r: seq<byte>)
    ensures |r| == |init|
  {
    seq(|init|, j requires 0 <= j < |init| =>
      if j < k && ReadStatus(m, busOk, start + j) == 0 then m.Value(start + j) else init[j])
  }

  /** The buffer after `nbi_i2c_read_block(start, count, val)`. */
  function BlockRead(m: Mcu, busOk: bool, start: nat, count: int, init: seq<byte>): (r: seq<byte>)
    requires |init| >= Slots(count)
    ensures |r| == |init|
  {
    Filled(m, busOk, start, Slots(count), init)
  }

  /**
   * For `count >= 1` slot `k < count` holds register `start + k` when that
   * read succeeds and keeps its old byte otherwise; every later slot is untouched.
   */
  lemma BlockReadSlots(m: Mcu, busOk: bool, start: nat, count: int, init: seq<byte>)
    requires count >= 1 && |init| >= count
    ensures var r := BlockRead(m, busOk, start, count, init);
      (forall k :: 0 <= k < count && ReadStatus(m, busOk, start + k) == 0 ==> r[k] == m.Value(start + k)) &&
      (forall k :: 0 <= k < count && ReadStatus(m, busOk, start + k) != 0 ==> r[k] == init[k]) &&
      r[count..] == init[count..]
  {
  }

  /** With `count <= 0` the do-while loop still reads register `start` into `val[0]`. */
  lemma BlockReadNonPositive(m: Mcu, busOk: bool, start: nat, count: int, init: seq<byte>)
    requires count <= 0 && |init| >= 1
    ensures var r := BlockRead(m, busOk, start, count, init);
      r[0] == (if ReadStatus(m, busOk, start) == 0 then m.Value(start) else init[0]) && r[1..] == init[1..]
  {
  }

  // ---------------------------------------------------------------------------
  // Text of the shell commands
  // ---------------------------------------------------------------------------

  /** `sprintf(cmd, "i2c mw %x %x %d 1", CHIP_ADDR, reg, val)`. */
  function MwCmd(reg: nat, val: nat): string
  {
    "i2c mw " + Hex(CHIP_ADDR) + " " + Hex(reg) + " " + Decimal(val) + " 1"
  }

  lemma MwCmdSplit(reg: nat, val: nat)
    ensures MwCmd(reg, val) == "i2c mw 18 " + (Hex(reg) + " " + (Decimal(val) + " 1"))
  {
    assert Hex(CHIP_ADDR) == "18";
  }

  /**
   * The register-write command is `i2c mw 18 `, the register in hexadecimal,
   * a space, then the value in decimal followed by ` 1`; the register word
   * reads back as the register and the value word as the value.
   */
  lemma MwCmdFields(reg: nat, val: nat)
    ensures var s := MwCmd(reg, val);
      |s| > 10 && s[..10] == "i2c mw 18 " &&
      var rest := s[10..];
      var k := FirstSpace(rest);
      k < |rest| && rest[..k] == Hex(reg) && HexDigitsValue(rest[..k]) == reg &&
      rest[k + 1..] == Decimal(val) + " 1" && StrToUl10(rest[k + 1..]) == val
  {
    var h := Hex(reg);
    var d := Decimal(val) + " 1";
    var rest := h + " " + d;
    MwCmdSplit(reg, val);
    assert MwCmd(reg, val)[..10] == "i2c mw 18 " && MwCmd(reg, val)[10..] == rest;
    HexNoSpace(reg);
    FirstSpaceAfterWord(h, d);
    assert rest[..|h|] == h && rest[|h| + 1..] == d;
    HexRoundTrip(reg);
    LeadingDigitsStop(Decimal(val), " 1");
    DigitsValueOfDecimal(val);
  }

  /** An `i2c mw` command string names exactly one register and one value. */
  lemma MwCmdInjective(r1: nat, v1: nat, r2: nat, v2: nat)
    requires MwCmd(r1, v1) == MwCmd(r2, v2)
    ensures r1 == r2 && v1 == v2
  {
    var p := "i2c mw " + Hex(CHIP_ADDR) + " ";
    var d1 := Decimal(v1) + " 1";
    var d2 := Decimal(v2) + " 1";
    assert MwCmd(r1, v1) == p + (Hex(r1) + " " + d1);
    assert MwCmd(r2, v2) == p + (Hex(r2) + " " + d2);
    PrefixCancel(p, Hex(r1) + " " + d1, Hex(r2) + " " + d2);
    HexNoSpace(r1);
    HexNoSpace(r2);
    SplitAtSpace(Hex(r1), d1, Hex(r2), d2);
    HexInjective(r1, r2);
    SuffixCancel(Decimal(v1), Decimal(v2), " 1");
    DecimalInjective(v1, v2);
  }

  const MDIO := "mdio write ethernet@fe1c0000 "

  /** `sprintf(cmd, "mdio write ethernet@fe1c0000 <reg> 0x%x%x", hi, lo)`: both bytes unpadded. */
  function MdioWord(reg: string, hi: byte, lo: byte): string
  {
    MDIO + reg + " 0x" + Hex(hi as nat) + Hex(lo as nat)
  }

  /** The digits after `0x` denote `hi * 256 + lo` when the low byte needs two digits... */
  lemma MdioWordValueWide(hi: byte, lo: byte)
    requires lo >= 16
    ensures HexDigitsValue(Hex(hi as nat) + Hex(lo as nat)) == hi as int * 256 + lo as int
  {
    var h := Hex(hi as nat);
    var n: nat := lo as nat;
    var l := Hex(n);
    assert n / 16 < 16;
    assert Hex(n / 16) == [HexDigit(n / 16, false)];
    assert l == [HexDigit(lo as int / 16, false), HexDigit(lo as int % 16, false)];
    HexDigitRoundTrip(lo as int / 16, false);
    HexDigitRoundTrip(lo as int % 16, false);
    HexRoundTrip(hi as nat);
    var s := h + l;
    assert s[..|s| - 1] == h + [l[0]];
    assert (h + [l[0]])[..|h|] == h;
  }

  /** ... and only `hi * 16 + lo` when it is below 0x10: the MDIO words are then ambiguous. */
  lemma MdioWordValueNarrow(hi: byte, lo: byte)
    requires lo < 16
    ensures HexDigitsValue(Hex(hi as nat) + Hex(lo as nat)) == hi as int * 16 + lo as int
  {
    var h := Hex(hi as nat);
    HexDigitRoundTrip(lo as int, false);
    HexRoundTrip(hi as nat);
    assert (h + Hex(lo as nat))[..|h|] == h;
  }

  /** Two different MAC byte pairs that `0x%x%x` prints as the same command, so one of them is programmed wrongly. */
  lemma MdioWordAmbiguous()
    ensures MdioWord("0x10", 0x01, 0x23) == MdioWord("0x10", 0x12, 0x03)
  {
  }

  /** The MDIO word with the low byte padded to two digits (`0x%x%02x`), which the MAC words use. */
  function MdioWordPadded(reg: string, hi: byte, lo: byte): string
  {
    MDIO + reg + " 0x" + Hex(hi as nat) + Hex2Lower(lo)
  }

  /** With the padded low byte the digits after `0x` always denote `hi * 256 + lo`. */
  lemma MdioWordPaddedValue(hi: byte, lo: byte)
    ensures HexDigitsValue(Hex(hi as nat) + Hex2Lower(lo)) == hi as int * 256 + lo as int
  {
    var h := Hex(hi as nat);
    var l := Hex2Lower(lo);
    var s := h + l;
    HexRoundTrip(hi as nat);
    assert s[..|s| - 1] == h + [l[0]];
    assert (h + [l[0]])[..|h|] == h;
  }

  /** `0x%x%x` prints the padded word exactly when the low byte needs two digits anyway. */
  lemma MdioWordAsPadded(reg: string, hi: byte, lo: byte)
    ensures MdioWord(reg, hi, lo) == MdioWordPadded(reg, hi, lo) <==> lo >= 0x10
  {
    var p := MDIO + reg + " 0x" + Hex(hi as nat);
    var n: nat := lo as nat;
    assert MdioWord(reg, hi, lo) == p + Hex(n);
    assert MdioWordPadded(reg, hi, lo) == p + Hex2Lower(lo);
    if n >= 16 {
      assert n / 16 < 16;
      assert Hex(n / 16) == [HexDigit(n / 16, false)];
      assert Hex(n) == Hex2Lower(lo);
    } else if p + Hex(n) == p + Hex2Lower(lo) {
      PrefixCancel(p, Hex(n), Hex2Lower(lo));
    }
  }

  /** So a padded MDIO word determines its register word and both bytes. */
  lemma MdioWordPaddedInjective(reg: string, hi1: byte, lo1: byte, hi2: byte, lo2: byte)
    requires MdioWordPadded(reg, hi1, lo1) == MdioWordPadded(reg, hi2, lo2)
    ensures hi1 == hi2 && lo1 == lo2
  {
    var p := MDIO + reg + " 0x";
    var t1 := Hex(hi1 as nat) + Hex2Lower(lo1);
    var t2 := Hex(hi2 as nat) + Hex2Lower(lo2);
    assert MdioWordPadded(reg, hi1, lo1) == p + t1;
    assert MdioWordPadded(reg, hi2, lo2) == p + t2;
    PrefixCancel(p, t1, t2);
    MdioWordPaddedValue(hi1, lo1);
    MdioWordPaddedValue(hi2, lo2);
  }

  /** `sprintf(serial, "%02X%02X%02X%02X%02X%02X", usid[0], …, usid[5])`. */
  function UsidSerial(usid: seq<byte>): string
    requires |usid| == USID_LENGTH
  {
    Hex2Upper(usid[0]) + Hex2Upper(usid[1]) + Hex2Upper(usid[2]) +
    Hex2Upper(usid[3]) + Hex2Upper(usid[4]) + Hex2Upper(usid[5])
  }

  /** The serial is 12 upper-case hex digits, two per byte in register order, and determines the bytes. */
  lemma UsidSerialShape(usid: seq<byte>)
    requires |usid| == USID_LENGTH
    ensures var s := UsidSerial(usid);
      |s| == 12 && forall k :: 0 <= k < 6 ==> s[2 * k..2 * k + 2] == Hex2Upper(usid[k])
  {
    var s := UsidSerial(usid);
    forall k | 0 <= k < 6
      ensures s[2 * k..2 * k + 2] == Hex2Upper(usid[k])
    {
      assert s[2 * k] == Hex2Upper(usid[k])[0] && s[2 * k + 1] == Hex2Upper(usid[k])[1];
    }
  }

  lemma UsidSerialInjective(a: seq<byte>, b: seq<byte>)
    requires |a| == USID_LENGTH && |b| == USID_LENGTH && UsidSerial(a) == UsidSerial(b)
    ensures a == b
  {
    UsidSerialShape(a);
    UsidSerialShape(b);
    forall k | 0 <= k < 6
      ensures a[k] == b[k]
    {
      assert Hex2Upper(a[k]) == UsidSerial(a)[2 * k..2 * k + 2];
      Hex2UpperInjective(a[k], b[k]);
    }
  }

  // ---------------------------------------------------------------------------
  // Decoders and the names on the command line
  // ---------------------------------------------------------------------------

  /** The seven boot triggers of `get_boot_enable`/`set_boot_enable`. */
  datatype Trigger = Wol | Rtc | Dcin | Lpwr | Upwr | McuSleep | Wdt

  datatype LedTarget = SystemOff | SystemOn | User

  function TriggerReg(t: Trigger): nat
  {
    match t
    case Wol => REG_BOOT_EN_WOL
    case Rtc => REG_BOOT_EN_RTC
    case Dcin => REG_BOOT_EN_DCIN
    case Lpwr => REG_BOOT_EN_LPWR
    case Upwr => REG_BOOT_EN_UPWR
    case McuSleep => REG_MCU_SLEEP_EN
    case Wdt => REG_EN_WDT
  }

  function LedReg(t: LedTarget): nat
  {
    match t
    case SystemOff => REG_LED_OFF_SYS
    case SystemOn => REG_LED_ON_SYS
    case User => REG_LED_USER
  }

  /** The trigger names of `do_nbi_trigger`. */
  function TriggerNamed(name: string): Option<Trigger>
  {
    if name == "wol" then Some(Wol)
    else if name == "rtc" then Some(Rtc)
    else if name == "dcin" then Some(Dcin)
    else if name == "lpwr" then Some(Lpwr)
    else if name == "upwr" then Some(Upwr)
    else if name == "mcu_en_sleep" then Some(McuSleep)
    else if name == "wdt" then Some(Wdt)
    else None
  }

  function LedTargetNamed(name: string): Option<LedTarget>
  {
    if name == "systemoff" then Some(SystemOff)
    else if name == "systemon" then Some(SystemOn)
    else if name == "user" then Some(User)
    else None
  }

  /** The LED mode words of `do_nbi_led`. */
  function LedModeNamed(name: string): (r: Option<nat>)
    ensures r.Some? ==> r.value <= LED_HEARTBEAT_MODE
  {
    if name == "breathe" then Some(LED_BREATHE_MODE)
    else if name == "heartbeat" then Some(LED_HEARTBEAT_MODE)
    else if name == "on" then Some(LED_ON_MODE)
    else if name == "off" then Some(LED_OFF_MODE)
    else None
  }

  /** The boot-mode words of `do_nbi_bootmode`. */
  function BootModeNamed(name: string): (r: Option<nat>)
    ensures r == Some(BOOT_MODE_EMMC) <==> name == "emmc"
    ensures r == Some(BOOT_MODE_SPI) <==> name == "spi"
    ensures r == Some(BOOT_MODE_SD) <==> name == "sd"
    ensures r.None? <==> name !in {"emmc", "spi", "sd"}
  {
    if name == "emmc" then Some(BOOT_MODE_EMMC)
    else if name == "spi" then Some(BOOT_MODE_SPI)
    else if name == "sd" then Some(BOOT_MODE_SD)
    else None
  }

  /** The read side of `get_sys_led_mode`/`get_user_led_mode`: a name for 0..3, an error otherwise. */
  function LedModeName(mode: int): (r: Option<string>)
    ensures r.Some? <==> 0 <= mode <= 3
  {
    if 0 <= mode <= 3 then Some(LED_MODE_STR[mode]) else None
  }

  /** The read side of `get_bootmode`. */
  function BootModeName(mode: int): (r: Option<string>)
    ensures r.Some? <==> mode in {BOOT_MODE_SPI, BOOT_MODE_EMMC, BOOT_MODE_SD}
  {
    if mode == BOOT_MODE_EMMC then Some("emmc")
    else if mode == BOOT_MODE_SPI then Some("spi")
    else if mode == BOOT_MODE_SD then Some("sd")
    else None
  }

  /** An LED mode written by name reads back as the same name, and the names are distinct. */
  lemma LedModeRoundTrip(name: string)
    requires LedModeNamed(name).Some?
    ensures LedModeName(LedModeNamed(name).value as int) == Some(name)
  {
  }

  /** A boot mode written by name reads back as the same name. */
  lemma BootModeRoundTrip(name: string)
    requires BootModeNamed(name).Some?
    ensures BootModeName(BootModeNamed(name).value as int) == Some(name)
  {
  }

  /** `do_nbi_sys_status`: 0 is a normal power-off, 1 an abnormal one; anything else is a read error. */
  function SysStatus(status: int): Option<bool>
  {
    if status == 0 then Some(false) else if status == 1 then Some(true) else None
  }

  /** `enable & 0x01` on a C `int` (two's complement: Euclidean `% 2` gives the same bit for negatives). */
  predicate Bit0(n: int) { n % 2 == 1 }

  /** `(n & 0x02) != 0` on a C `int`. */
  predicate Bit1(n: int) { (n / 2) % 2 == 1 }

  function Flag(b: bool): string { if b then "1" else "0" }

  /**
   * `enable | (state & 0x02)` in `set_boot_enable`: the new enable bit with
   * bit 1 of the current WOL register kept (the two bits do not overlap, so
   * the `|` is a sum).
   */
  function WolValue(enable: nat, state: int): (v: nat)
    requires enable <= 1
  {
    enable + (if Bit1(state) then 2 else 0)
  }

  /** The WOL write keeps bit 1 of the register, sets bit 0 to the requested value, and clears the rest. */
  lemma WolValueBits(enable: nat, state: int)
    requires enable <= 1
    ensures var v := WolValue(enable, state);
      v < 4 && (Bit0(v) <==> enable == 1) && (Bit1(v) <==> Bit1(state))
  {
  }

  // ---------------------------------------------------------------------------
  // The trace
  // ---------------------------------------------------------------------------

  /** What a sub-command prints, decoded (the wording of the messages is not modelled). */
  datatype Report =
    | TriggerState(trigger: Trigger, enabled: bool)
    | SwitchMacFrom(mode: int)
    | BootModeIs(bootMode: Option<string>)
    | LedModeIs(target: LedTarget, ledMode: Option<string>)
    | VersionIs(version: seq<byte>)
    | UsidIs(serial: string)
    | SysStatusIs(abnormal: Option<bool>)

  datatype NbiEvent =
    | Run(command: string)                  // run_command(command, 0)
    | SetEnv(name: string, value: string)   // env_set(name, value)
    | Show(report: Report)

  /** The environment after one event. */
  function Step(env: map<string, string>, e: NbiEvent): map<string, string>
  {
    if e.SetEnv? then env[e.name := e.value] else env
  }

  /** The environment after the `env_set` calls of a trace, in order. */
  function ApplyEnv(env: map<string, string>, events: seq<NbiEvent>): map<string, string>
  {
    if events == [] then env else Step(ApplyEnv(env, events[..|events| - 1]), events[|events| - 1])
  }

  lemma ApplyEnvOne(env: map<string, string>, e: NbiEvent)
    ensures ApplyEnv(env, [e]) == Step(env, e)
  {
    assert [e][..0] == [];
  }

  lemma ApplyEnvShort(env: map<string, string>, e1: NbiEvent, e2: NbiEvent)
    ensures ApplyEnv(env, [e1, e2]) == Step(Step(env, e1), e2)
  {
    assert [e1, e2][..1] == [e1];
    ApplyEnvOne(env, e1);
  }

  predicate NoEnv(events: seq<NbiEvent>)
  {
    forall i :: 0 <= i < |events| ==> !events[i].SetEnv?
  }

  lemma {:induction false} ApplyEnvAppend(env: map<string, string>, a: seq<NbiEvent>, b: seq<NbiEvent>)
    ensures ApplyEnv(env, a + b) == ApplyEnv(ApplyEnv(env, a), b)
    decreases |b|
  {
    if b != [] {
      assert (a + b)[..|a + b| - 1] == a + b[..|b| - 1];
      ApplyEnvAppend(env, a, b[..|b| - 1]);
    } else {
      assert a + b == a;
    }
  }

  lemma {:induction false} ApplyEnvNoEnv(env: map<string, string>, events: seq<NbiEvent>)
    requires NoEnv(events)
    ensures ApplyEnv(env, events) == env
    decreases |events|
  {
    if events != [] {
      ApplyEnvNoEnv(env, events[..|events| - 1]);
    }
  }

  function Runs(cmds: seq<string>): (r: seq<NbiEvent>)
    ensures |r| == |cmds| && NoEnv(r)
    ensures forall i :: 0 <= i < |cmds| ==> r[i] == Run(cmds[i])
  {
    seq(|cmds|, i requires 0 <= i < |cmds| => Run(cmds[i]))
  }

  /** The first four PHY writes of the arming branch of `set_wol`. */
  function WolArmHead(isShutdown: bool): seq<string>
  {
    [MDIO + (if isShutdown then "0 0" else "0 0x1040"), MDIO + "0x1f 0xd40", MDIO + "0x16 0x20", MDIO + "0x1f 0"]
  }

  /** The fixed PHY writes after the MAC words in the arming branch of `set_wol`. */
  const WOL_ARM_TAIL: seq<string> := [
    MDIO + "0x1f 0",
    MDIO + "0x1f 0xd8a", MDIO + "0x11 0x9fff", MDIO + "0x1f 0",
    MDIO + "0x1f 0xd8a", MDIO + "0x10 0x1000", MDIO + "0x1f 0",
    MDIO + "0x1f 0xd80", MDIO + "0x10 0x3000", MDIO + "0x11 0x0020", MDIO + "0x12 0x03c0",
    MDIO + "0x13 0x0000", MDIO + "0x14 0x0000", MDIO + "0x15 0x0000", MDIO + "0x16  0x0000",
    MDIO + "0x17 0x0000", MDIO + "0x1f 0",
    MDIO + "0x1f 0xd8a", MDIO + "0x13 0x1002", MDIO + "0x1f 0"]

  /** The PHY writes of the disarming branch of `set_wol`. */
  const WOL_DISARM: seq<string> := [MDIO + "0x1f 0xd8a", MDIO + "0x10 0", MDIO + "0x11 0x7fff", MDIO + "0x1f 0"]

  /**
   * What `vendor_storage_init` and `vendor_storage_read(VENDOR_LAN_MAC_ID, mac, 6)`
   * return, and the six bytes the MAC buffer holds after the read.
   */
  datatype Vendor = Vendor(initRet: int, readRet: int, data: seq<byte>)

  predicate IsZeroEthAddr(mac: seq<byte>)
  {
    forall i :: 0 <= i < |mac| ==> mac[i] == 0
  }

  /**
   * The MAC address `set_wol` programs: from the MCU when `REG_MAC_SWITCH`
   * reads 1; otherwise from vendor storage when it returns six bytes that are
   * not all zero, else from the MCU over what vendor storage left in the
   * buffer; `None` when vendor storage cannot be initialised.
   */
  function WolMac(m: Mcu, v: Vendor, busOk: bool): (r: Option<seq<byte>>)
    requires |v.data| == MAC_LENGTH
    ensures r.Some? ==> |r.value| == MAC_LENGTH
  {
    if ReadReg(m, busOk, REG_MAC_SWITCH) == 1 then Some(BlockRead(m, busOk, REG_MAC, MAC_LENGTH, Zeros(MAC_LENGTH)))
    else if v.initRet != 0 then None
    else if v.readRet == MAC_LENGTH && !IsZeroEthAddr(v.data) then Some(v.data)
    else Some(BlockRead(m, busOk, REG_MAC, MAC_LENGTH, v.data))
  }

  /** PHY registers 0x10, 0x11, 0x12 of page 0xd8c get the MAC byte pairs (1,0), (3,2), (5,4), as `0x%x%x`. */
  function MacWords(mac: seq<byte>): seq<string>
    requires |mac| == MAC_LENGTH
  {
    [MdioWord("0x10", mac[1], mac[0]), MdioWord("0x11", mac[3], mac[2]), MdioWord("0x12", mac[5], mac[4])]
  }

  /** The MAC words with the padded low byte: what the three writes evidently mean to program. */
  function IntendedMacWords(mac: seq<byte>): seq<string>
    requires |mac| == MAC_LENGTH
  {
    [MdioWordPadded("0x10", mac[1], mac[0]), MdioWordPadded("0x11", mac[3], mac[2]), MdioWordPadded("0x12", mac[5], mac[4])]
  }

  /** The printed MAC words are the intended ones exactly when the low bytes 0, 2 and 4 are all 0x10 or more. */
  lemma MacWordsAsIntended(mac: seq<byte>)
    requires |mac| == MAC_LENGTH
    ensures MacWords(mac) == IntendedMacWords(mac) <==> mac[0] >= 0x10 && mac[2] >= 0x10 && mac[4] >= 0x10
  {
    MdioWordAsPadded("0x10", mac[1], mac[0]);
    MdioWordAsPadded("0x11", mac[3], mac[2]);
    MdioWordAsPadded("0x12", mac[5], mac[4]);
    if MacWords(mac) == IntendedMacWords(mac) {
      assert MacWords(mac)[0] == IntendedMacWords(mac)[0];
      assert MacWords(mac)[1] == IntendedMacWords(mac)[1];
      assert MacWords(mac)[2] == IntendedMacWords(mac)[2];
    }
  }

  /** The final write of `set_wol`: select I2C bus 1, then write the WOL register. */
  function WolCommit(enable: nat): seq<string>
  {
    ["i2c dev 1", MwCmd(REG_BOOT_EN_WOL, enable)]
  }

  /** The shell commands of `set_wol(is_shutdown, enable)`. */
  function SetWolCmds(m: Mcu, v: Vendor, busOk: bool, isShutdown: bool, enable: nat): seq<string>
    requires |v.data| == MAC_LENGTH
  {
    if Bit0(enable) then
      match WolMac(m, v, busOk)
      case None => WolArmHead(isShutdown)
      case Some(mac) =>
        WolArmHead(isShutdown) + [MDIO + "0x1f 0xd8c"] + MacWords(mac) + WOL_ARM_TAIL + WolCommit(enable)
    else WOL_DISARM + WolCommit(enable)
  }

  /**
   * Arming with a MAC programs the three MAC words at positions 5..7 and ends
   * with the WOL register write; when vendor storage cannot be initialised
   * (and the MAC switch is not 1) only the first four PHY writes are made and
   * the WOL register is never written.
   */
  lemma SetWolShape(m: Mcu, v: Vendor, busOk: bool, isShutdown: bool, enable: nat)
    requires |v.data| == MAC_LENGTH && Bit0(enable)
    ensures var c := SetWolCmds(m, v, busOk, isShutdown, enable);
      match WolMac(m, v, busOk)
      case None =>
        c == WolArmHead(isShutdown) && MwCmd(REG_BOOT_EN_WOL, enable) !in c
      case Some(mac) =>
        |c| == 30 && c[4] == MDIO + "0x1f 0xd8c" && c[5..8] == MacWords(mac) &&
        c[28] == "i2c dev 1" && c[29] == MwCmd(REG_BOOT_EN_WOL, enable)
  {
    var c := SetWolCmds(m, v, busOk, isShutdown, enable);
    match WolMac(m, v, busOk)
    case None =>
      var w := MwCmd(REG_BOOT_EN_WOL, enable);
      assert w[0] == 'i';
      assert c[0][0] == 'm' && c[1][0] == 'm' && c[2][0] == 'm' && c[3][0] == 'm';
      assert c == [c[0], c[1], c[2], c[3]];
    case Some(mac) =>
  }

  /** The MAC source when the MCU's MAC switch register does not read 1. */
  lemma WolMacFromVendor(m: Mcu, v: Vendor, busOk: bool)
    requires |v.data| == MAC_LENGTH && ReadReg(m, busOk, REG_MAC_SWITCH) != 1
    ensures v.initRet != 0 ==> WolMac(m, v, busOk).None?
    ensures v.initRet == 0 && v.readRet == MAC_LENGTH && !IsZeroEthAddr(v.data) ==> WolMac(m, v, busOk) == Some(v.data)
    ensures v.initRet == 0 && (v.readRet != MAC_LENGTH || IsZeroEthAddr(v.data)) ==>
              WolMac(m, v, busOk) == Some(BlockRead(m, busOk, REG_MAC, MAC_LENGTH, v.data))
  {
  }

  // ---------------------------------------------------------------------------
  // Argument validation: argv to action
  // ---------------------------------------------------------------------------

  /** What a sub-command does once its arguments have been checked. */
  datatype Action =
    | Usage                                  // return CMD_RET_USAGE, nothing done
    | Nothing                                // return 0, nothing done
    | Init
    | ShowVersion
    | ShowUsid
    | ShowBootMode
    | ShowSysStatus
    | GetSwitchMac
    | SetSwitchMac(mode: nat)
    | ReadLed(target: LedTarget)
    | ReadTrigger(trigger: Trigger)
    | WriteReg(reg: nat, val: nat)           // one `i2c mw` command
    | WriteTrigger(trigger: Trigger, enable: nat)

  function RetCode(a: Action): int
  {
    if a == Usage then CMD_RET_USAGE else 0
  }

  /** The sub-command names of `cmd_nbi_sub`, looked up by exact name. */
  const SUB_COMMANDS: seq<string> := ["init", "usid", "version", "bootmode", "switchmac", "led", "reset_conf",
                                      "reset_sys", "fan_level_set", "fan_auto_test", "wol_init", "sys_status", "trigger"]

  /**
   * `do_nbi_reset_conf`, `do_nbi_reset_sys` and `do_nbi_fan_level_set` read
   * `argv[2]` of the stripped argument vector without checking it exists.
   */
  predicate SubArgvReadable(argv: seq<string>)
  {
    |argv| >= 1 && (argv[0] in {"reset_conf", "reset_sys", "fan_level_set"} ==> |argv| >= 3)
  }

  predicate ArgvReadable(argv: seq<string>)
  {
    |argv| >= 2 ==> SubArgvReadable(argv[1..])
  }

  function DoBootmode(argv: seq<string>): Action
  {
    if |argv| < 2 then Usage
    else if argv[1] == "w" then
      if |argv| < 3 then Usage
      else match BootModeNamed(argv[2])
        case Some(mode) => WriteReg(REG_BOOT_MODE, mode)
        case None => Usage
    else if argv[1] == "r" then ShowBootMode
    else Usage
  }

  function DoSwitchmac(argv: seq<string>): Action
  {
    if |argv| < 2 then Usage
    else if argv[1] == "w" then
      if |argv| < 3 then Usage
      else if argv[2] == "0" then SetSwitchMac(0)
      else if argv[2] == "1" then SetSwitchMac(1)
      else Usage
    else if argv[1] == "r" then GetSwitchMac
    else Usage
  }

  function DoLed(argv: seq<string>): Action
  {
    if |argv| < 3 then Usage
    else match LedTargetNamed(argv[1])
      case None => Usage
      case Some(target) =>
        if argv[2] == "r" then ReadLed(target)
        else if argv[2] == "w" then
          if |argv| < 4 then Usage
          else match LedModeNamed(argv[3])
            case Some(mode) => WriteReg(LedReg(target), mode)
            case None => Usage
        else Nothing
  }

  function DoResetConf(argv: seq<string>): Action
    requires |argv| >= 3
  {
    if argv[2] == "0" then WriteReg(REG_REST_CONF, 0)
    else if argv[2] == "f0" then WriteReg(REG_REST_CONF, 0xf0)
    else Usage
  }

  function DoResetSys(argv: seq<string>): Action
    requires |argv| >= 3
  {
    if argv[2] == "0" then WriteReg(REG_SYS_RST, 0)
    else if argv[2] == "1" then WriteReg(REG_SYS_RST, 1)
    else if argv[2] == "2" then WriteReg(REG_SYS_RST, 2)
    else if argv[2] == "3" then WriteReg(REG_SYS_RST, 3)
    else Usage
  }

  function DoFanLevelSet(argv: seq<string>): Action
    requires |argv| >= 3
  {
    var level := Atoi(argv[2]);
    if 0 <= level <= 9 then WriteReg(REG_FAN_LEVEL, level) else Usage
  }

  function DoTrigger(argv: seq<string>): Action
  {
    if |argv| < 3 then Usage
    else if argv[2] == "r" then
      match TriggerNamed(argv[1])
      case Some(t) => ReadTrigger(t)
      case None => Usage
    else if argv[2] == "w" then
      if |argv| < 4 then Usage
      else if argv[3] != "1" && argv[3] != "0" then Usage
      else match TriggerNamed(argv[1])
        case Some(t) => WriteTrigger(t, if argv[3] == "1" then 1 else 0)
        case None => Usage
    else Usage
  }

  /** The handler `cmd_nbi_sub` finds for the stripped `argv[0]`, applied to the stripped arguments. */
  function SubCommand(argv: seq<string>): Action
    requires SubArgvReadable(argv)
  {
    var name := argv[0];
    if name == "init" then Init
    else if name == "usid" then ShowUsid
    else if name == "version" then ShowVersion
    else if name == "bootmode" then DoBootmode(argv)
    else if name == "switchmac" then DoSwitchmac(argv)
    else if name == "led" then DoLed(argv)
    else if name == "reset_conf" then DoResetConf(argv)
    else if name == "reset_sys" then DoResetSys(argv)
    else if name == "fan_level_set" then DoFanLevelSet(argv)
    else if name == "fan_auto_test" then WriteReg(REG_FAN_TEST, 1)
    else if name == "wol_init" then WriteReg(REG_INIT_WOL, 0)
    else if name == "sys_status" then ShowSysStatus
    else if name == "trigger" then DoTrigger(argv)
    else Usage
  }

  /** `do_nbi`: no sub-command is a usage error; otherwise strip `nbi` and dispatch. */
  function NbiAction(argv: seq<string>): Action
    requires ArgvReadable(argv)
  {
    if |argv| < 2 then Usage else SubCommand(argv[1..])
  }

  /** A missing or unknown sub-command is a usage error. */
  lemma UnknownSubCommand(argv: seq<string>)
    requires ArgvReadable(argv)
    requires |argv| < 2 || argv[1] !in SUB_COMMANDS
    ensures NbiAction(argv) == Usage && RetCode(NbiAction(argv)) == CMD_RET_USAGE
  {
  }

  /** `bootmode w <word>` writes register 0x20 exactly for emmc/spi/sd (1/0/2); every other `bootmode` form writes nothing. */
  lemma BootmodeWrites(argv: seq<string>)
    requires |argv| >= 2 && argv[1] == "bootmode"
    ensures NbiAction(argv).WriteReg? <==> |argv| >= 4 && argv[2] == "w" && argv[3] in {"emmc", "spi", "sd"}
    ensures NbiAction(argv).WriteReg? ==>
              NbiAction(argv) == WriteReg(REG_BOOT_MODE, BootModeNamed(argv[3]).value)
    ensures NbiAction(argv) in {Usage, ShowBootMode} || NbiAction(argv).WriteReg?
  {
    assert argv[1..][0] == "bootmode";
    if |argv| >= 4 {
      assert argv[1..][2] == argv[3];
    }
  }

  /**
   * `trigger <name> w <v>` writes exactly when the name is known and `v` is
   * "0" or "1"; any other value is refused before anything is read or written.
   */
  lemma TriggerWrites(argv: seq<string>)
    requires |argv| >= 2 && argv[1] == "trigger"
    ensures NbiAction(argv).WriteTrigger? <==>
              |argv| >= 5 && argv[3] == "w" && argv[4] in {"0", "1"} && TriggerNamed(argv[2]).Some?
    ensures NbiAction(argv).WriteTrigger? ==>
              NbiAction(argv) == WriteTrigger(TriggerNamed(argv[2]).value, if argv[4] == "1" then 1 else 0)
    ensures |argv| >= 5 && argv[3] == "w" && argv[4] !in {"0", "1"} ==> NbiAction(argv) == Usage
    ensures NbiAction(argv).ReadTrigger? <==> |argv| >= 4 && argv[3] == "r" && TriggerNamed(argv[2]).Some?
  {
    assert argv[1..][0] == "trigger";
  }

  /**
   * `led <target> w <mode>` writes the target's register (0x29, 0x28, 0x2A)
   * with the mode's number; a second word that is neither `r` nor `w`
   * returns 0 and does nothing.
   */
  lemma LedWrites(argv: seq<string>)
    requires |argv| >= 2 && argv[1] == "led"
    ensures NbiAction(argv).WriteReg? <==>
              |argv| >= 5 && LedTargetNamed(argv[2]).Some? && argv[3] == "w" && LedModeNamed(argv[4]).Some?
    ensures NbiAction(argv).WriteReg? ==>
              NbiAction(argv) == WriteReg(LedReg(LedTargetNamed(argv[2]).value), LedModeNamed(argv[4]).value)
    ensures NbiAction(argv) == Nothing <==>
              |argv| >= 4 && LedTargetNamed(argv[2]).Some? && argv[3] != "r" && argv[3] != "w"
  {
    assert argv[1..][0] == "led";
  }

  /** `fan_level_set` writes register 0x82 with `atoi(argv[2])` exactly when that is 0..9. */
  lemma FanLevelWrites(argv: seq<string>)
    requires |argv| >= 4 && argv[1] == "fan_level_set"
    ensures NbiAction(argv) == if 0 <= Atoi(argv[3]) <= 9 then WriteReg(REG_FAN_LEVEL, Atoi(argv[3])) else Usage
  {
    assert argv[1..][0] == "fan_level_set" && argv[1..][2] == argv[3];
  }

  /** A single decimal digit is accepted as that fan level. */
  lemma FanLevelDigit(x: string, d: nat)
    requires d < 10
    ensures NbiAction(["nbi", "fan_level_set", x, [DigitChar(d)]]) == WriteReg(REG_FAN_LEVEL, d)
  {
    AtoiOfDigit(d);
    FanLevelWrites(["nbi", "fan_level_set", x, [DigitChar(d)]]);
  }

  /** `reset_sys` accepts exactly "0".."3", written as that number to 0x81. */
  lemma ResetSysWrites(argv: seq<string>)
    requires |argv| >= 4 && argv[1] == "reset_sys"
    ensures NbiAction(argv).WriteReg? <==> argv[3] in {"0", "1", "2", "3"}
    ensures NbiAction(argv).WriteReg? ==>
              NbiAction(argv).reg == REG_SYS_RST && NbiAction(argv).val <= 3 &&
              Decimal(NbiAction(argv).val) == argv[3]
    ensures !NbiAction(argv).WriteReg? ==> NbiAction(argv) == Usage
  {
    assert argv[1..][0] == "reset_sys" && argv[1..][2] == argv[3];
  }

  /** `reset_conf` accepts exactly "0" (value 0) and "f0" (value 0xF0). */
  lemma ResetConfWrites(argv: seq<string>)
    requires |argv| >= 4 && argv[1] == "reset_conf"
    ensures argv[3] == "0" ==> NbiAction(argv) == WriteReg(REG_REST_CONF, 0)
    ensures argv[3] == "f0" ==> NbiAction(argv) == WriteReg(REG_REST_CONF, 0xf0)
    ensures argv[3] != "0" && argv[3] != "f0" ==> NbiAction(argv) == Usage
  {
    assert argv[1..][0] == "reset_conf" && argv[1..][2] == argv[3];
  }

  /** `switchmac w` accepts exactly "0" and "1". */
  lemma SwitchmacWrites(argv: seq<string>)
    requires |argv| >= 2 && argv[1] == "switchmac"
    ensures NbiAction(argv).SetSwitchMac? <==> |argv| >= 4 && argv[2] == "w" && argv[3] in {"0", "1"}
    ensures NbiAction(argv).SetSwitchMac? ==> NbiAction(argv).mode == if argv[3] == "1" then 1 else 0
  {
    assert argv[1..][0] == "switchmac";
  }

  // ---------------------------------------------------------------------------
  // Effects of an action
  // ---------------------------------------------------------------------------

  /** The trace of `get_wol(is_print)` once the register has been read. */
  function GetWolEvents(isPrint: bool, enable: int): seq<NbiEvent>
  {
    (if isPrint then [Show(TriggerState(Wol, Bit0(enable)))] else []) + [SetEnv("wol_enable", Flag(Bit0(enable)))]
  }

  /**
   * Everything an action does, in order, given the MCU, vendor storage and
   * whether an I2C bus is selected or can be found.
   */
  function Effects(a: Action, m: Mcu, v: Vendor, busOk: bool): seq<NbiEvent>
    requires |v.data| == MAC_LENGTH
  {
    match a
    case Usage => []
    case Nothing => []
    case Init => [Run("i2c dev 1")]
    case ShowVersion => [Show(VersionIs(BlockRead(m, busOk, REG_VERSION, VERSION_LENGTH, Zeros(VERSION_LENGTH))))]
    case ShowUsid =>
      var serial := UsidSerial(BlockRead(m, busOk, REG_USID, USID_LENGTH, Zeros(USID_LENGTH)));
      [Show(UsidIs(serial)), SetEnv("usid", serial)]
    case ShowBootMode => [Show(BootModeIs(BootModeName(ReadReg(m, busOk, REG_BOOT_MODE))))]
    case ShowSysStatus => [Show(SysStatusIs(SysStatus(ReadReg(m, busOk, REG_LED_USER))))]
    case GetSwitchMac =>
      var mode := ReadReg(m, busOk, REG_MAC_SWITCH);
      [Show(SwitchMacFrom(mode)), SetEnv("switch_mac", Flag(mode == 1))]
    case SetSwitchMac(mode) => [Run(MwCmd(REG_MAC_SWITCH, mode)), SetEnv("switch_mac", Flag(mode == 1))]
    case ReadLed(t) => [Show(LedModeIs(t, LedModeName(ReadReg(m, busOk, LedReg(t)))))]
    case ReadTrigger(t) =>
      var enable := ReadReg(m, busOk, TriggerReg(t));
      if t == Wol then GetWolEvents(true, enable) else [Show(TriggerState(t, enable == 1))]
    case WriteReg(reg, val) => [Run(MwCmd(reg, val))]
    case WriteTrigger(t, enable) =>
      if t == Wol && enable <= 1 then
        var state := ReadReg(m, busOk, REG_BOOT_EN_WOL);
        GetWolEvents(false, state) + Runs(SetWolCmds(m, v, busOk, false, WolValue(enable, state)))
      else [Run(MwCmd(TriggerReg(t), enable))]
  }

  /** A usage error has no effect at all. */
  lemma UsageDoesNothing(m: Mcu, v: Vendor, busOk: bool)
    requires |v.data| == MAC_LENGTH
    ensures Effects(Usage, m, v, busOk) == [] && Effects(Nothing, m, v, busOk) == []
  {
  }

  /** `trigger wol w <e>`: `get_wol(false)`, then `set_wol` with bit 1 of the register kept. */
  lemma WolWriteEffects(enable: nat, m: Mcu, v: Vendor, busOk: bool)
    requires |v.data| == MAC_LENGTH && enable <= 1
    ensures var state := ReadReg(m, busOk, REG_BOOT_EN_WOL);
      Effects(WriteTrigger(Wol, enable), m, v, busOk) ==
      GetWolEvents(false, state) + Runs(SetWolCmds(m, v, busOk, false, WolValue(enable, state)))
  {
  }

  /** After `trigger wol w <e>`, `wol_enable` is "1" exactly when the register read before the write has bit 0 set. */
  lemma WolWriteEnv(env: map<string, string>, enable: nat, m: Mcu, v: Vendor, busOk: bool)
    requires |v.data| == MAC_LENGTH && enable <= 1
    ensures ApplyEnv(env, Effects(WriteTrigger(Wol, enable), m, v, busOk)) ==
            env["wol_enable" := Flag(Bit0(ReadReg(m, busOk, REG_BOOT_EN_WOL)))]
  {
    var state := ReadReg(m, busOk, REG_BOOT_EN_WOL);
    var head := GetWolEvents(false, state);
    var tail := Runs(SetWolCmds(m, v, busOk, false, WolValue(enable, state)));
    WolWriteEffects(enable, m, v, busOk);
    ApplyEnvAppend(env, head, tail);
    ApplyEnvNoEnv(ApplyEnv(env, head), tail);
    assert head[..0] == [];
  }

  /** Whether an action reads the MCU (and so may select the I2C bus). */
  predicate ReadsMcu(a: Action)
  {
    a.ShowVersion? || a.ShowUsid? || a.ShowBootMode? || a.ShowSysStatus? || a.GetSwitchMac? ||
    a.ReadLed? || a.ReadTrigger? || (a.WriteTrigger? && a.trigger == Wol && a.enable <= 1)
  }

  // ---------------------------------------------------------------------------
  // Execution
  // ---------------------------------------------------------------------------

  /** The command's state: the `i2c_cur_bus` cache (selected or not) and the U-Boot environment. */
  class NbiState {
    var curBus: bool
    var env: map<string, string>

    constructor(env0: map<string, string>)
      ensures !curBus && env == env0
    {
      curBus := false;
      env := env0;
    }

    /** `i2c_get_cur_bus_chip` then `dm_i2c_read`: the bus is looked up only while none is cached. */
    method ChipRead(m: Mcu, reg: nat) returns (ret: int, b: byte)
      modifies this
      ensures ret == ReadStatus(m, old(curBus) || m.busFound, reg)
      ensures ret == 0 ==> b == m.Value(reg)
      ensures curBus == (old(curBus) || m.busFound) && env == old(env)
    {
      b := 0;
      if !curBus {
        if !m.busFound {
          return -ENODEV, b;
        }
        curBus := true;
      }
      if m.chipRet != 0 {
        return m.chipRet, b;
      }
      ret := m.ReadErr(reg);
      if ret == 0 {
        b := m.Value(reg);
      }
    }

    /** `nbi_i2c_read`. */
    method I2cRead(m: Mcu, reg: nat) returns (r: int)
      modifies this
      ensures r == ReadReg(m, old(curBus) || m.busFound, reg)
      ensures curBus == (old(curBus) || m.busFound) && env == old(env)
    {
      var ret, b := ChipRead(m, reg);
      if ret != 0 {
        r := ret;
      } else {
        var text := Decimal(b as nat);
        r := StrToUl10(text);
      }
    }

    /** `nbi_i2c_read_block(start, count, val)`: a do-while loop filling `val` in place. */
    method I2cReadBlock(m: Mcu, start: nat, count: int, val: array<byte>)
      requires val.Length >= Slots(count)
      modifies this, val
      ensures val[..] == BlockRead(m, old(curBus) || m.busFound, start, count, old(val[..]))
      ensures curBus == (old(curBus) || m.busFound) && env == old(env)
    {
      ghost var busOk := curBus || m.busFound;
      ghost var init := val[..];
      var nbytes := count;
      var addr := start;
      var more := true;
      while more
        invariant 0 <= count - nbytes <= Slots(count)
        invariant more <==> count - nbytes < Slots(count)
        invariant !more ==> count - nbytes == Slots(count)
        invariant addr == start + (count - nbytes)
        invariant (curBus || m.busFound) == busOk
        invariant count - nbytes >= 1 ==> curBus == busOk
        invariant env == old(env)
        invariant val[..] == Filled(m, busOk, start, count - nbytes, init)
        decreases (if more then 1 else 0) + (if nbytes > 0 then nbytes else 0)
      {
        var ret, b := ChipRead(m, addr);
        if ret == 0 {
          val[count - nbytes] := b;
        }
        addr := addr + 1;
        nbytes := nbytes - 1;
        more := nbytes > 0;
      }
    }

    /** `get_wol(is_print)`: read the WOL register and publish bit 0 as `wol_enable`. */
    method GetWol(m: Mcu, isPrint: bool) returns (enable: int, events: seq<NbiEvent>)
      modifies this
      ensures enable == ReadReg(m, old(curBus) || m.busFound, REG_BOOT_EN_WOL)
      ensures events == GetWolEvents(isPrint, enable)
      ensures env == old(env)["wol_enable" := Flag(Bit0(enable))]
      ensures curBus == (old(curBus) || m.busFound)
    {
      enable := I2cRead(m, REG_BOOT_EN_WOL);
      events := [];
      if isPrint {
        events := events + [Show(TriggerState(Wol, enable % 2 == 1))];
      }
      var flag := if enable % 2 == 1 then "1" else "0";
      env := env["wol_enable" := flag];
      events := events + [SetEnv("wol_enable", flag)];
    }

    /** The MAC address selection of `set_wol`, reading into a six-byte buffer. */
    method WolMacRead(m: Mcu, v: Vendor) returns (mac: Option<seq<byte>>)
      requires |v.data| == MAC_LENGTH
      modifies this
      ensures mac == WolMac(m, v, old(curBus) || m.busFound)
      ensures env == old(env) && curBus == (old(curBus) || m.busFound)
    {
      ghost var busOk := curBus || m.busFound;
      var buf := new byte[MAC_LENGTH](_ => 0);
      assert buf[..] == Zeros(MAC_LENGTH);
      var mode := I2cRead(m, REG_MAC_SWITCH);
      if mode == 1 {
        I2cReadBlock(m, REG_MAC, MAC_LENGTH, buf);
        return Some(buf[..]);
      }
      if v.initRet != 0 {
        return None;
      }
      forall i | 0 <= i < MAC_LENGTH {
        buf[i] := v.data[i];
      }
      assert buf[..] == v.data;
      var zero := true;
      for i := 0 to MAC_LENGTH
        invariant buf[..] == v.data
        invariant zero <==> IsZeroEthAddr(buf[..i])
      {
        if buf[i] != 0 {
          zero := false;
        }
      }
      assert buf[..MAC_LENGTH] == buf[..];
      if !(v.readRet == MAC_LENGTH && !zero) {
        I2cReadBlock(m, REG_MAC, MAC_LENGTH, buf);
      }
      mac := Some(buf[..]);
    }

    /** `set_wol(is_shutdown, enable)`. */
    method SetWol(m: Mcu, v: Vendor, isShutdown: bool, enable: nat) returns (cmds: seq<string>)
      requires |v.data| == MAC_LENGTH
      modifies this
      ensures cmds == SetWolCmds(m, v, old(curBus) || m.busFound, isShutdown, enable)
      ensures env == old(env) && curBus == (old(curBus) || (m.busFound && Bit0(enable)))
    {
      if enable % 2 == 1 {
        cmds := WolArmHead(isShutdown);
        var mac := WolMacRead(m, v);
        if mac.None? {
          return;
        }
        var a := mac.value;
        cmds := cmds + [MDIO + "0x1f 0xd8c"];
        cmds := cmds + [MdioWord("0x10", a[1], a[0]), MdioWord("0x11", a[3], a[2]), MdioWord("0x12", a[5], a[4])];
        cmds := cmds + WOL_ARM_TAIL;
      } else {
        cmds := WOL_DISARM;
      }
      cmds := cmds + ["i2c dev 1", MwCmd(REG_BOOT_EN_WOL, enable)];
    }

    /** The actions that only run one command or update the environment without reading the MCU. */
    method ExecuteWrite(a: Action, m: Mcu, v: Vendor) returns (events: seq<NbiEvent>)
      requires |v.data| == MAC_LENGTH && !ReadsMcu(a) && !a.ShowVersion? && !a.ShowUsid?
      modifies this
      ensures events == Effects(a, m, v, old(curBus) || m.busFound)
      ensures env == ApplyEnv(old(env), events) && curBus == old(curBus)
    {
      match a
      case Usage =>
        events := [];
      case Nothing =>
        events := [];
      case Init =>
        events := [Run("i2c dev 1")];
      case WriteReg(reg, val) =>
        events := [Run(MwCmd(reg, val))];
      case SetSwitchMac(mode) =>
        var flag := if mode == 1 then "1" else "0";
        env := env["switch_mac" := flag];
        events := [Run(MwCmd(REG_MAC_SWITCH, mode)), SetEnv("switch_mac", flag)];
        ApplyEnvShort(old(env), events[0], events[1]);
      case WriteTrigger(t, enable) =>
        events := [Run(MwCmd(TriggerReg(t), enable))];
    }

    /** `do_nbi_version`: a two-byte block read into a zeroed buffer. */
    method DoVersion(m: Mcu, v: Vendor) returns (events: seq<NbiEvent>)
      requires |v.data| == MAC_LENGTH
      modifies this
      ensures events == Effects(ShowVersion, m, v, old(curBus) || m.busFound)
      ensures env == old(env) && env == ApplyEnv(old(env), events)
      ensures curBus == (old(curBus) || m.busFound)
    {
      var version := new byte[VERSION_LENGTH](_ => 0);
      assert version[..] == Zeros(VERSION_LENGTH);
      I2cReadBlock(m, REG_VERSION, VERSION_LENGTH, version);
      events := [Show(VersionIs(version[..]))];
      ApplyEnvOne(old(env), events[0]);
    }

    /** `do_nbi_usid`: a six-byte block read, printed with `%02X` and saved as `usid`. */
    method DoUsid(m: Mcu, v: Vendor) returns (events: seq<NbiEvent>)
      requires |v.data| == MAC_LENGTH
      modifies this
      ensures events == Effects(ShowUsid, m, v, old(curBus) || m.busFound)
      ensures env == ApplyEnv(old(env), events)
      ensures curBus == (old(curBus) || m.busFound)
    {
      var usid := new byte[USID_LENGTH](_ => 0);
      assert usid[..] == Zeros(USID_LENGTH);
      I2cReadBlock(m, REG_USID, USID_LENGTH, usid);
      var serial := UsidSerial(usid[..]);
      env := env["usid" := serial];
      events := [Show(UsidIs(serial)), SetEnv("usid", serial)];
      ApplyEnvShort(old(env), events[0], events[1]);
    }

    /** The sub-commands that read one MCU register and report it. */
    method ExecuteRegRead(a: Action, m: Mcu, v: Vendor) returns (events: seq<NbiEvent>)
      requires |v.data| == MAC_LENGTH
      requires a.ShowBootMode? || a.ShowSysStatus? || a.GetSwitchMac? || a.ReadLed? || a.ReadTrigger?
      modifies this
      ensures events == Effects(a, m, v, old(curBus) || m.busFound)
      ensures env == ApplyEnv(old(env), events)
      ensures curBus == (old(curBus) || m.busFound)
    {
      match a
      case ShowBootMode =>
        var mode := I2cRead(m, REG_BOOT_MODE);
        events := [Show(BootModeIs(BootModeName(mode)))];
      case ShowSysStatus =>
        var status := I2cRead(m, REG_LED_USER);
        events := [Show(SysStatusIs(SysStatus(status)))];
      case GetSwitchMac =>
        var mode := I2cRead(m, REG_MAC_SWITCH);
        var flag := if mode == 1 then "1" else "0";
        env := env["switch_mac" := flag];
        events := [Show(SwitchMacFrom(mode)), SetEnv("switch_mac", flag)];
        ApplyEnvShort(old(env), events[0], events[1]);
      case ReadLed(t) =>
        var mode := I2cRead(m, LedReg(t));
        events := [Show(LedModeIs(t, LedModeName(mode)))];
      case ReadTrigger(t) =>
        if t == Wol {
          var enable;
          enable, events := GetWol(m, true);
          ApplyEnvShort(old(env), events[0], events[1]);
        } else {
          var enable := I2cRead(m, TriggerReg(t));
          events := [Show(TriggerState(t, enable == 1))];
        }
    }

    /** `set_boot_enable(BOOT_EN_WOL, enable)`: `get_wol(false)`, then `set_wol(false, …)` keeping bit 1. */
    method ExecuteWolWrite(enable: nat, m: Mcu, v: Vendor) returns (events: seq<NbiEvent>)
      requires |v.data| == MAC_LENGTH && enable <= 1
      modifies this
      ensures events == Effects(WriteTrigger(Wol, enable), m, v, old(curBus) || m.busFound)
      ensures env == ApplyEnv(old(env), events)
      ensures curBus == (old(curBus) || m.busFound)
    {
      var state;
      state, events := GetWol(m, false);
      ghost var envAfterGet := env;
      assert events[..0] == [];
      assert envAfterGet == ApplyEnv(old(env), events);
      ghost var busOk := old(curBus) || m.busFound;
      var value := enable + (if (state / 2) % 2 == 1 then 2 else 0);
      assert value == WolValue(enable, state);
      var cmds := SetWol(m, v, false, value);
      ApplyEnvAppend(old(env), events, Runs(cmds));
      ApplyEnvNoEnv(envAfterGet, Runs(cmds));
      WolWriteEffects(enable, m, v, busOk);
      events := events + Runs(cmds);
    }

    /** Carry out a checked action. */
    method Execute(a: Action, m: Mcu, v: Vendor) returns (events: seq<NbiEvent>)
      requires |v.data| == MAC_LENGTH
      modifies this
      ensures events == Effects(a, m, v, old(curBus) || m.busFound)
      ensures env == ApplyEnv(old(env), events)
      ensures curBus == (old(curBus) || (m.busFound && ReadsMcu(a)))
    {
      if a.ShowVersion? {
        events := DoVersion(m, v);
      } else if a.ShowUsid? {
        events := DoUsid(m, v);
      } else if a.WriteTrigger? && a.trigger == Wol && a.enable <= 1 {
        events := ExecuteWolWrite(a.enable, m, v);
      } else if ReadsMcu(a) {
        events := ExecuteRegRead(a, m, v);
      } else {
        events := ExecuteWrite(a, m, v);
      }
    }

    /**
     * `do_nbi`: check the arguments, then carry out the sub-command; the
     * return value is `CMD_RET_USAGE` exactly for a refused command line.
     */
    method DoNbi(argv: seq<string>, m: Mcu, v: Vendor) returns (ret: int, events: seq<NbiEvent>)
      requires ArgvReadable(argv) && |v.data| == MAC_LENGTH
      modifies this
      ensures ret == RetCode(NbiAction(argv)) && (ret == CMD_RET_USAGE <==> NbiAction(argv) == Usage)
      ensures events == Effects(NbiAction(argv), m, v, old(curBus) || m.busFound)
      ensures env == ApplyEnv(old(env), events)
      ensures curBus == (old(curBus) || (m.busFound && ReadsMcu(NbiAction(argv))))
    {
      var a := NbiAction(argv);
      events := Execute(a, m, v);
      ret := RetCode(a);
    }
  }
}
