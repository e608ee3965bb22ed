/**
 * Board bring-up of the Namtso A10 (board/namtso/namtso-a10-3588/namtso-a10-3588.c):
 * `rk_board_init` drives seven GPIO lines, probes the touch controllers on
 * I2C bus 0 and records the detected display panel in the `lcd_panel`
 * environment variable; `board_usb_init` falls back from SuperSpeed to
 * HighSpeed when the USB3 PHY cannot be brought up.
 *
 * The probe results are inputs: a `TouchBus` says whether bus 0 exists and
 * what each touch-controller chip lookup and id-register read returns.
 */
module NamtsoBoard {
  import opened Fmt
  import opened Wrappers

  const TP_I2C_BUS_NUM := 0

  /** The 5-inch panel's touch controller and its id register. */
  const TP05_CHIP_ADDR := 0x38
  const TP05_ID_REG := 0xa8
  /** The 10-inch panel's touch controller and its id register. */
  const TP10_CHIP_ADDR := 0x14
  const TP10_ID_REG := 0x9e

  const TP05_ID_TS050: byte := 0x51
  const TP05_ID_NEWTS050: byte := 0x79
  const TP10_ID_TS101: byte := 0x00

  /** The `run_command` calls that set up GPIO2_B3, B6, B4, B7, C5, B5 and GPIO4_B1. */
  const GPIO_SETUP: seq<string> :=
    ["gpio set 75", "gpio set 78", "gpio set 76", "gpio clear 79", "gpio set 85", "gpio clear 77", "gpio set 137"]

  /** One touch controller: what `i2c_get_chip` and `dm_i2c_read` of its id register return, and the id byte. */
  datatype Probe = Probe(chipRet: int, readRet: int, id: byte)
  {
    predicate Found() { chipRet == 0 }
    /** The id register was read. */
    predicate Read() { chipRet == 0 && readRet == 0 }
  }

  /** What `uclass_get_device_by_seq(UCLASS_I2C, 0, …)` returns, and the two controllers. */
  datatype TouchBus = TouchBus(busRet: int, tp05: Probe, tp10: Probe)

  /**
   * The `lcd_panel` value `rk_board_init` sets, `None` when it leaves the
   * variable alone.  The 10-inch controller is consulted only when the
   * 5-inch one is missing or its read fails; a 5-inch id that is neither
   * known value sets nothing.
   */
  function LcdPanel(t: TouchBus): Option<string>
  {
    if t.busRet != 0 then None
    else if t.tp05.Read() then
      if t.tp05.id == TP05_ID_TS050 then Some("ts050")
      else if t.tp05.id == TP05_ID_NEWTS050 then Some("newts050")
      else None
    else if !t.tp10.Found() then None
    else if t.tp10.readRet != 0 then Some("null")
    else if t.tp10.id == TP10_ID_TS101 then Some("ts101")
    else None
  }

  /** The chips `rk_board_init` looks up, in order. */
  function ProbedChips(t: TouchBus): seq<nat>
  {
    if t.busRet != 0 then []
    else if t.tp05.Read() then [TP05_CHIP_ADDR]
    else [TP05_CHIP_ADDR, TP10_CHIP_ADDR]
  }

  /** The id registers `rk_board_init` reads, as (chip, register) pairs, in order. */
  function IdReads(t: TouchBus): seq<(nat, nat)>
  {
    if t.busRet != 0 then []
    else
      (if t.tp05.Found() then [(TP05_CHIP_ADDR, TP05_ID_REG)] else []) +
      (if !t.tp05.Read() && t.tp10.Found() then [(TP10_CHIP_ADDR, TP10_ID_REG)] else [])
  }

  /** A 5-inch id of 0x51 selects "ts050" and 0x79 selects "newts050". */
  lemma Tp05Ids(t: TouchBus)
    requires t.busRet == 0 && t.tp05.Read()
    ensures t.tp05.id == TP05_ID_TS050 ==> LcdPanel(t) == Some("ts050")
    ensures t.tp05.id == TP05_ID_NEWTS050 ==> LcdPanel(t) == Some("newts050")
  {
  }

  /** Any other 5-inch id leaves `lcd_panel` untouched and the 10-inch controller unprobed. */
  lemma Tp05OtherId(t: TouchBus)
    requires t.busRet == 0 && t.tp05.Read() && t.tp05.id !in {TP05_ID_TS050, TP05_ID_NEWTS050}
    ensures LcdPanel(t).None? && TP10_CHIP_ADDR !in ProbedChips(t)
  {
  }

  /**
   * The 10-inch controller is probed exactly when bus 0 exists and the 5-inch
   * lookup or read fails; then id 0x00 selects "ts101", a failed read selects
   * "null", a missing chip and any other id set nothing.
   */
  lemma Tp10Probe(t: TouchBus)
    ensures TP10_CHIP_ADDR in ProbedChips(t) <==> t.busRet == 0 && !t.tp05.Read()
    ensures t.busRet == 0 && !t.tp05.Read() ==>
              LcdPanel(t) == (if !t.tp10.Found() then None
                              else if t.tp10.readRet != 0 then Some("null")
                              else if t.tp10.id == TP10_ID_TS101 then Some("ts101")
                              else None)
    ensures (TP10_CHIP_ADDR, TP10_ID_REG) in IdReads(t) <==> t.busRet == 0 && !t.tp05.Read() && t.tp10.Found()
  {
    if t.busRet == 0 && !t.tp05.Read() && t.tp10.Found() {
      assert IdReads(t)[|IdReads(t)| - 1] == (TP10_CHIP_ADDR, TP10_ID_REG);
    }
  }

  /** Without bus 0 nothing is probed and nothing is set. */
  lemma NoTouchBus(t: TouchBus)
    requires t.busRet != 0
    ensures LcdPanel(t).None? && ProbedChips(t) == [] && IdReads(t) == []
  {
  }

  /** The detected panel is one of the four names the panel overlays know. */
  lemma LcdPanelNames(t: TouchBus)
    ensures LcdPanel(t).Some? ==> LcdPanel(t).value in {"ts050", "newts050", "ts101", "null"}
    ensures LcdPanel(t) == Some("null") <==> t.busRet == 0 && !t.tp05.Read() && t.tp10.Found() && t.tp10.readRet != 0
  {
  }

  /** USB speeds of `enum usb_device_speed` that the board uses. */
  datatype UsbSpeed = High | Super

  /**
   * The board state `rk_board_init` and `board_usb_init` change: the U-Boot
   * environment, the `maximum_speed` of the static DWC3 device description,
   * and whether `rkusb_force_to_usb2(true)` has been called.
   */
  class Board {
    var env: map<string, string>
    var maximumSpeed: UsbSpeed
    var forcedUsb2: bool

    /** The static `dwc3_device_data` starts at SuperSpeed. */
    constructor(env0: map<string, string>)
      ensures env == env0 && maximumSpeed == Super && !forcedUsb2
    {
      env := env0;
      maximumSpeed := Super;
      forcedUsb2 := false;
    }

    /** `rk_board_init`: GPIO set-up, then the touch-panel probe; it always returns 0. */
    method RkBoardInit(t: TouchBus) returns (ret: int, cmds: seq<string>, probed: seq<nat>, idReads: seq<(nat, nat)>)
      modifies this
      ensures ret == 0 && cmds == GPIO_SETUP && probed == ProbedChips(t) && idReads == IdReads(t)
      ensures env == (if LcdPanel(t).Some? then old(env)["lcd_panel" := LcdPanel(t).value] else old(env))
      ensures maximumSpeed == old(maximumSpeed) && forcedUsb2 == old(forcedUsb2)
    {
      cmds := ["gpio set 75", "gpio set 78", "gpio set 76"];
      cmds := cmds + ["gpio clear 79", "gpio set 85", "gpio clear 77", "gpio set 137"];
      ret := 0;
      probed := [];
      idReads := [];
      if t.busRet != 0 {
        return;
      }
      var res := 0;
      var r := t.tp05.chipRet;
      probed := probed + [TP05_CHIP_ADDR];
      if r == 0 {
        idReads := idReads + [(TP05_CHIP_ADDR, TP05_ID_REG)];
        res := t.tp05.readRet;
        if res == 0 {
          if t.tp05.id == TP05_ID_TS050 {
            env := env["lcd_panel" := "ts050"];
          } else if t.tp05.id == TP05_ID_NEWTS050 {
            env := env["lcd_panel" := "newts050"];
          }
        }
      }
      if r != 0 || res != 0 {
        r := t.tp10.chipRet;
        probed := probed + [TP10_CHIP_ADDR];
        if r == 0 {
          idReads := idReads + [(TP10_CHIP_ADDR, TP10_ID_REG)];
          res := t.tp10.readRet;
          if res == 0 {
            if t.tp10.id == TP10_ID_TS101 {
              env := env["lcd_panel" := "ts101"];
            }
          } else {
            env := env["lcd_panel" := "null"];
          }
        }
      }
    }

    /**
     * `board_usb_init`.  With `usbPlug` (CONFIG_SUPPORT_USBPLUG) the speed
     * starts at HighSpeed and SuperSpeed is tried only when the USB3 switch
     * is enabled; otherwise the USB3 PHY is always tried.  A PHY failure
     * forces USB2 and HighSpeed.  The result is that of `dwc3_uboot_init`.
     */
    method BoardUsbInit(usbPlug: bool, usb3Enabled: bool, u3phyRet: int, dwc3Ret: int) returns (ret: int)
      modifies this
      ensures ret == dwc3Ret && env == old(env)
      ensures maximumSpeed == UsbSpeedAfter(old(maximumSpeed), usbPlug, usb3Enabled, u3phyRet)
      ensures forcedUsb2 == (old(forcedUsb2) || ((!usbPlug || usb3Enabled) && u3phyRet != 0))
    {
      if usbPlug {
        maximumSpeed := High;
        if usb3Enabled {
          maximumSpeed := Super;
          if u3phyRet != 0 {
            forcedUsb2 := true;
            maximumSpeed := High;
          }
        }
      } else {
        if u3phyRet != 0 {
          forcedUsb2 := true;
          maximumSpeed := High;
        }
      }
      ret := dwc3Ret;
    }
  }

  /** `maximum_speed` after `board_usb_init`, from its value before. */
  function UsbSpeedAfter(before: UsbSpeed, usbPlug: bool, usb3Enabled: bool, u3phyRet: int): UsbSpeed
  {
    if usbPlug then
      if usb3Enabled && u3phyRet == 0 then Super else High
    else if u3phyRet != 0 then High else before
  }

  /**
   * Without USBPLUG, from the initial SuperSpeed: a PHY failure falls back to
   * HighSpeed, success keeps SuperSpeed.  In both builds SuperSpeed is
   * reached only through a successful PHY initialisation.
   */
  lemma UsbFallback(usbPlug: bool, usb3Enabled: bool, u3phyRet: int)
    ensures UsbSpeedAfter(Super, false, usb3Enabled, u3phyRet) == if u3phyRet == 0 then Super else High
    ensures forall before: UsbSpeed :: UsbSpeedAfter(before, usbPlug, usb3Enabled, u3phyRet) == Super ==>
              u3phyRet == 0 && (before == Super || usbPlug)
  {
  }

  /** Without USBPLUG the fallback is sticky: after a failure, a later successful call stays at HighSpeed. */
  lemma UsbFallbackSticky(usb3Enabled: bool, failRet: int)
    requires failRet != 0
    ensures UsbSpeedAfter(UsbSpeedAfter(Super, false, usb3Enabled, failRet), false, usb3Enabled, 0) == High
  {
  }
}
