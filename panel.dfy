/**
 * The Rockchip DRM panel driver of drivers/video/drm/rockchip_panel.c:
 * the parser of the vendor command sequences stored in the device tree, the
 * SPI, MCU and MIPI-DSI command senders, the prepare/enable flag machine, and
 * the board's touch-controller rule that picks the panel and its init sequence.
 *
 * Hardware calls are not executed: each sender returns the ordered trace of
 * the calls it makes (`PanelEvent`), and what the hardware answers is an input.
 */
module RockchipPanel {
  import opened Fmt
  import opened Wrappers

  const EINVAL := 22
  const ENOMEM := 12
  const ENODEV := 19

  // The `rockchip,cmd-type` values (rockchip_panel.h, not part of this model).
  const CMD_TYPE_DEFAULT := 0
  const CMD_TYPE_SPI := 1
  const CMD_TYPE_MCU := 2

  // Display-controller MCU proxy command that switches the bypass mode
  // (rockchip_display.h, not part of this model).
  const MCU_SETBYPASS := 2

  // Processor-to-peripheral data types of the MIPI DSI specification (drm_mipi_dsi.h).
  const MIPI_DSI_GENERIC_SHORT_WRITE_0_PARAM: byte := 0x03
  const MIPI_DSI_GENERIC_SHORT_WRITE_1_PARAM: byte := 0x13
  const MIPI_DSI_GENERIC_SHORT_WRITE_2_PARAM: byte := 0x23
  const MIPI_DSI_GENERIC_LONG_WRITE: byte := 0x29
  const MIPI_DSI_DCS_SHORT_WRITE: byte := 0x05
  const MIPI_DSI_DCS_SHORT_WRITE_PARAM: byte := 0x15
  const MIPI_DSI_DCS_LONG_WRITE: byte := 0x39
  const MIPI_DSI_COMPRESSION_MODE: byte := 0x07
  const MIPI_DSI_PICTURE_PARAMETER_SET: byte := 0x0a

  /** Size of `struct drm_dsc_picture_parameter_set` (the 128-byte VESA DSC picture parameter set). */
  const PPS_SIZE := 128

  /** `sizeof(struct rockchip_cmd_header)`: the header is packed. */
  const HEADER_SIZE := 3

  // ---------------------------------------------------------------------------
  // Command type
  // ---------------------------------------------------------------------------

  predicate StartsWith(s: string, p: string) { |p| <= |s| && s[..|p|] == p }

  /** `get_panel_cmd_type`: NULL is an error; otherwise the first three characters choose. */
  function GetPanelCmdType(s: Option<string>): (t: int)
    ensures t == -EINVAL <==> s.None?
    ensures t == CMD_TYPE_SPI <==> s.Some? && StartsWith(s.value, "spi")
    ensures t == CMD_TYPE_MCU <==> s.Some? && StartsWith(s.value, "mcu")
    ensures t == CMD_TYPE_DEFAULT <==> s.Some? && !StartsWith(s.value, "spi") && !StartsWith(s.value, "mcu")
  {
    if s.None? then -EINVAL
    else if StartsWith(s.value, "spi") then CMD_TYPE_SPI
    else if StartsWith(s.value, "mcu") then CMD_TYPE_MCU
    else CMD_TYPE_DEFAULT
  }

  /** The command type chosen in `rockchip_panel_probe` from the optional `rockchip,cmd-type` string. */
  function ProbeCmdType(prop: Option<string>): (t: int)
    ensures t in {CMD_TYPE_DEFAULT, CMD_TYPE_SPI, CMD_TYPE_MCU}
    ensures prop.None? ==> t == CMD_TYPE_DEFAULT
    ensures prop.Some? ==> t == GetPanelCmdType(prop)
  {
    match prop
    case None => CMD_TYPE_DEFAULT
    case Some(_) => GetPanelCmdType(prop)
  }

  // ---------------------------------------------------------------------------
  // Command-sequence blobs
  // ---------------------------------------------------------------------------

  datatype CmdHeader = CmdHeader(dataType: byte, delayMs: byte, payloadLength: byte)

  /**
   * `struct rockchip_cmd_desc`.  The C payload is a pointer into the blob; it is
   * modelled as the rest of the blob from the payload on, so that reading past
   * `payloadLength` reads what the C pointer would read.
   */
  datatype CmdDesc = CmdDesc(header: CmdHeader, payload: seq<byte>)

  /** Offset of the record that follows the one whose header is at `off`. */
  function NextRecord(data: seq<byte>, off: nat): nat
    requires off + HEADER_SIZE <= |data|
  {
    off + HEADER_SIZE + data[off + 2] as int
  }

  /**
   * No record that the scan loop visits runs past the end of the blob.  The
   * loop continues while more than a header's worth of bytes remain, and the
   * remaining length is never negative when this holds; otherwise the signed
   * `len`, compared with an unsigned `sizeof`, would keep the loop reading
   * beyond the blob.
   */
  ghost predicate WellFormedFrom(data: seq<byte>, off: nat)
    decreases |data| - off
  {
    off <= |data| &&
    (|data| - off > HEADER_SIZE ==>
       NextRecord(data, off) <= |data| && WellFormedFrom(data, NextRecord(data, off)))
  }

  ghost predicate WellFormed(data: seq<byte>) { WellFormedFrom(data, 0) }

  /** Header offsets of the records from `off` on, in blob order. */
  ghost function RecordOffsets(data: seq<byte>, off: nat): (r: seq<nat>)
    requires WellFormedFrom(data, off)
    ensures forall i :: 0 <= i < |r| ==> off <= r[i] && r[i] + HEADER_SIZE < |data| && NextRecord(data, r[i]) <= |data|
    decreases |data| - off
  {
    if |data| - off <= HEADER_SIZE then [] else [off] + RecordOffsets(data, NextRecord(data, off))
  }

  /** The descriptor of the record whose header starts at `off`. */
  function DescAt(data: seq<byte>, off: nat): CmdDesc
    requires off + HEADER_SIZE <= |data|
  {
    CmdDesc(CmdHeader(data[off], data[off + 1], data[off + 2]), data[off + HEADER_SIZE..])
  }

  /** What `rockchip_panel_parse_cmds` stores: one descriptor per record, in blob order. */
  ghost function Descriptors(data: seq<byte>): seq<CmdDesc>
    requires WellFormed(data)
  {
    var offs := RecordOffsets(data, 0);
    seq(|offs|, i requires 0 <= i < |offs| => DescAt(data, offs[i]))
  }

  /** A remainder of three bytes or fewer holds no record; a longer one holds at least one. */
  lemma RecordCountEmpty(data: seq<byte>, off: nat)
    requires WellFormedFrom(data, off)
    ensures RecordOffsets(data, off) == [] <==> |data| - off <= HEADER_SIZE
  {
  }

  /** Records follow each other with a stride of header plus payload, starting at `off`. */
  lemma {:induction false} RecordStride(data: seq<byte>, off: nat, i: nat)
    requires WellFormedFrom(data, off)
    requires i < |RecordOffsets(data, off)|
    ensures RecordOffsets(data, off)[0] == off
    ensures i + 1 < |RecordOffsets(data, off)| ==>
              RecordOffsets(data, off)[i + 1] == NextRecord(data, RecordOffsets(data, off)[i])
    ensures i + 1 == |RecordOffsets(data, off)| ==>
              |data| - NextRecord(data, RecordOffsets(data, off)[i]) <= HEADER_SIZE
    decreases |data| - off
  {
    var next := NextRecord(data, off);
    if i > 0 {
      RecordStride(data, next, i - 1);
    }
  }

  /** Header offsets strictly increase: the descriptors are in blob order and do not overlap. */
  lemma {:induction false} RecordsInOrder(data: seq<byte>, off: nat, i: nat, j: nat)
    requires WellFormedFrom(data, off)
    requires i < j < |RecordOffsets(data, off)|
    ensures NextRecord(data, RecordOffsets(data, off)[i]) <= RecordOffsets(data, off)[j]
    decreases |data| - off
  {
    var next := NextRecord(data, off);
    if i > 0 {
      RecordsInOrder(data, next, i - 1, j - 1);
    }
  }

  /** Descriptor `i` copies the header found at its offset; its payload starts right after the header. */
  lemma DescriptorContents(data: seq<byte>, i: nat)
    requires WellFormed(data)
    requires i < |Descriptors(data)|
    ensures var o := RecordOffsets(data, 0)[i];
      var d := Descriptors(data)[i];
      d.header.dataType == data[o] && d.header.delayMs == data[o + 1] && d.header.payloadLength == data[o + 2] &&
      d.payload == data[o + HEADER_SIZE..] && d.header.payloadLength as int <= |d.payload|
  {
  }

  /**
   * The first pass of `rockchip_panel_parse_cmds`: count the records by
   * stepping over header and payload while more than a header remains.
   */
  method ScanCmds(data: seq<byte>) returns (cnt: nat)
    requires WellFormed(data)
    ensures cnt == |RecordOffsets(data, 0)|
    ensures |data| <= HEADER_SIZE ==> cnt == 0
  {
    cnt := 0;
    var buf: nat := 0;
    var len := |data|;
    while len > HEADER_SIZE
      invariant 0 <= buf <= |data| && len == |data| - buf
      invariant WellFormedFrom(data, buf)
      invariant cnt + |RecordOffsets(data, buf)| == |RecordOffsets(data, 0)|
      decreases len
    {
      var payloadLength := data[buf + 2] as int;
      buf := buf + HEADER_SIZE + payloadLength;
      len := len - (HEADER_SIZE + payloadLength);
      cnt := cnt + 1;
    }
  }

  /**
   * The descriptor array `struct rockchip_panel_cmds` that `rockchip_panel_parse_cmds`
   * fills: `cmds` is `NULL` until the parser allocates it.
   */
  class PanelCmds {
    var cmds: array?<CmdDesc>
    var cmdCnt: int

    /** `calloc(1, sizeof(*plat->on_cmds))`: all fields zero. */
    constructor ()
      ensures cmds == null && cmdCnt == 0
    {
      cmds := null;
      cmdCnt := 0;
    }

    ghost predicate Valid()
      reads this
    {
      cmds != null && 0 <= cmdCnt <= cmds.Length
    }

    /** The descriptors the senders walk: the first `cmdCnt` array elements. */
    ghost function Descs(): seq<CmdDesc>
      reads this, cmds
      requires Valid()
    {
      cmds[..cmdCnt]
    }

    /**
     * `rockchip_panel_parse_cmds`: a first pass counts the records, a second
     * fills a freshly allocated descriptor array with one descriptor per record.
     * `allocOk` is whether `calloc` succeeds.
     */
    method ParseCmds(data: seq<byte>, allocOk: bool) returns (ret: int)
      requires WellFormed(data)
      modifies this
      ensures allocOk ==> ret == 0 && Valid() && fresh(cmds) && cmdCnt == cmds.Length &&
                          Descs() == Descriptors(data)
      ensures !allocOk ==> ret == -ENOMEM && cmds == null && cmdCnt == old(cmdCnt)
    {
      var cnt := ScanCmds(data);
      if !allocOk {
        cmds := null;
        return -ENOMEM;
      }
      var descs := new CmdDesc[cnt];
      cmds := descs;
      cmdCnt := cnt;
      FillCmds(data, descs);
      return 0;
    }
  }

  /** The second pass of `rockchip_panel_parse_cmds`: one descriptor per record, in blob order. */
  method FillCmds(data: seq<byte>, descs: array<CmdDesc>)
    requires WellFormed(data) && descs.Length == |RecordOffsets(data, 0)|
    modifies descs
    ensures descs[..] == Descriptors(data)
  {
    ghost var offs := RecordOffsets(data, 0);
    ghost var want := Descriptors(data);
    var buf: nat := 0;
    for i := 0 to descs.Length
      invariant i < descs.Length ==> buf == offs[i]
      invariant descs[..i] == want[..i]
    {
      RecordStride(data, 0, i);
      assert want[i] == DescAt(data, buf);
      var header := CmdHeader(data[buf], data[buf + 1], data[buf + 2]);
      descs[i] := CmdDesc(header, data[buf + HEADER_SIZE..]);
      assert descs[..i + 1] == descs[..i] + [want[i]];
      buf := buf + HEADER_SIZE + header.payloadLength as int;
    }
    assert descs[..] == descs[..descs.Length];
  }

  // ---------------------------------------------------------------------------
  // Hardware trace
  // ---------------------------------------------------------------------------

  /** The three GPIO lines of a bit-banged SPI panel. */
  datatype SpiPin = Cs | Sdi | Scl

  /** One hardware call of the driver, in the order it is made. */
  datatype PanelEvent =
    | Gpio(pin: SpiPin, level: nat)          // dm_gpio_set_value on a bit-banged SPI line
    | SpiClaimBus
    | SpiXfer(bitlen: nat, word: nat)        // spi_xfer(slave, bitlen, &word, NULL, SPI_XFER_ONCE), a u16 word
    | SpiReleaseBus
    | McuCmd(cmd: int, value: int)           // display_send_mcu_cmd(state, cmd, value)
    | DsiCompressionMode(compression: byte)
    | DsiGenericWrite(bytes: seq<byte>)
    | DsiDcsWrite(bytes: seq<byte>)
    | DsiPictureParameterSet(pps: seq<byte>)
    | DsiGetPowerMode
    | Regulator(supplyOn: bool)
    | EnableGpio(level: nat)
    | Backlight(lightOn: bool)
    | RunCommand(command: string)

  /** A sender's return value and the calls it made. */
  datatype SendResult = SendResult(ret: int, events: seq<PanelEvent>)

  // ---------------------------------------------------------------------------
  // Bit-banged SPI
  //
  // The C code works with `int` bit operations on values that are never
  // negative and stay below 2^25 (a 16-bit value shifted left at most nine
  // times), so they are written here as the equivalent arithmetic on `nat`:
  // bit `k` is `(v / 2^k) % 2`, `<< 1` is `* 2`.
  // ---------------------------------------------------------------------------

  function Pow2(k: nat): (p: nat)
    ensures p >= 1
  {
    if k == 0 then 1 else 2 * Pow2(k - 1)
  }

  /** Bit `k` of `v` (`v & (1 << k)` is non-zero). */
  predicate BitSet(v: nat, k: nat)
  {
    if k == 0 then v % 2 == 1 else BitSet(v / 2, k - 1)
  }

  lemma {:induction false} BitSetAtLeast(v: nat, n: nat)
    requires BitSet(v, n)
    ensures v >= Pow2(n)
  {
    if n > 0 {
      BitSetAtLeast(v / 2, n - 1);
    }
  }

  /** Adding `2^n` flips bit `n`... */
  lemma {:induction false} AddPowFlips(v: nat, n: nat)
    ensures BitSet(v + Pow2(n), n) == !BitSet(v, n)
  {
    if n > 0 {
      assert (v + Pow2(n)) / 2 == v / 2 + Pow2(n - 1);
      AddPowFlips(v / 2, n - 1);
    }
  }

  /** ... and keeps every bit below it. */
  lemma {:induction false} AddPowKeepsLow(v: nat, n: nat, k: nat)
    requires k < n
    ensures BitSet(v + Pow2(n), k) == BitSet(v, k)
  {
    if k > 0 {
      assert (v + Pow2(n)) / 2 == v / 2 + Pow2(n - 1);
      AddPowKeepsLow(v / 2, n - 1, k - 1);
    }
  }

  /**
   * `value &= ~(1 << 8)` when `type` is zero, `value |= (1 << 8)` otherwise:
   * bit 8, the data/command flag of the 9-bit word, is set exactly when
   * `dataType` is non-zero, and bits 0 to 7 are kept.
   */
  function ForceBit8(dataType: byte, value: nat): (v: nat)
    ensures BitSet(v, 8) <==> dataType != 0
    ensures forall k :: 0 <= k < 8 ==> BitSet(v, k) == BitSet(value, k)
  {
    assert Pow2(8) == 256;
    if dataType == 0 then
      if BitSet(value, 8) then
        BitSetAtLeast(value, 8);
        AddPowFlips(value - 256, 8);
        forall k | 0 <= k < 8 ensures BitSet(value - 256, k) == BitSet(value, k) {
          AddPowKeepsLow(value - 256, 8, k);
        }
        value - 256
      else value
    else
      if BitSet(value, 8) then value
      else
        AddPowFlips(value, 8);
        forall k | 0 <= k < 8 ensures BitSet(value + 256, k) == BitSet(value, k) {
          AddPowKeepsLow(value, 8, k);
        }
        value + 256
  }

  /** The nine SDI levels of one frame: bits 8 down to 0 of `v`. */
  function FrameBits(v: nat): (bits: seq<bool>)
    ensures |bits| == 9
  {
    seq(9, i requires 0 <= i < 9 => BitSet(v, 8 - i))
  }

  function Level(b: bool): nat { if b then 1 else 0 }

  /** One clock pulse carrying `bit`: SDI set up, SCL low, SCL high. */
  function Pulse(bit: bool): seq<PanelEvent>
  {
    [Gpio(Sdi, Level(bit)), Gpio(Scl, 0), Gpio(Scl, 1)]
  }

  function Clocked(bits: seq<bool>): (r: seq<PanelEvent>)
    ensures |r| == 3 * |bits|
  {
    if bits == [] then [] else Clocked(bits[..|bits| - 1]) + Pulse(bits[|bits| - 1])
  }

  lemma {:induction false} ClockedAt(bits: seq<bool>, k: nat)
    requires k < |bits|
    ensures Clocked(bits)[3 * k] == Gpio(Sdi, Level(bits[k]))
    ensures Clocked(bits)[3 * k + 1] == Gpio(Scl, 0) && Clocked(bits)[3 * k + 2] == Gpio(Scl, 1)
  {
    var pre := bits[..|bits| - 1];
    if k < |bits| - 1 {
      ClockedAt(pre, k);
      assert pre[k] == bits[k];
    }
  }

  /** The GPIO trace of `rockchip_panel_write_spi_cmds(priv, type, value)`. */
  function BitBangFrame(dataType: byte, value: nat): seq<PanelEvent>
  {
    [Gpio(Cs, 0)] + Clocked(FrameBits(ForceBit8(dataType, value))) + [Gpio(Cs, 1)]
  }

  /** `v` shifted left `i` times. */
  function Shl(v: nat, i: nat): nat
  {
    if i == 0 then v else Shl(v, i - 1) * 2
  }

  /** After `i` left shifts, bit `k` of the working value is bit `k - i` of the original. */
  lemma {:induction false} ShiftedBit(v: nat, i: nat, k: nat)
    requires i <= k
    ensures BitSet(Shl(v, i), k) == BitSet(v, k - i)
  {
    if i > 0 {
      var w := Shl(v, i - 1);
      assert (w * 2) / 2 == w;
      ShiftedBit(v, i - 1, k - 1);
    }
  }

  /**
   * The bit-banged frame: chip select low, then exactly nine SCL low-to-high
   * pulses whose SDI levels are bits 8 down to 0 of the value, with bit 8
   * replaced by the data/command flag, then chip select high.
   */
  lemma BitBangFrameShape(dataType: byte, value: nat)
    ensures var f := BitBangFrame(dataType, value);
      |f| == 29 && f[0] == Gpio(Cs, 0) && f[28] == Gpio(Cs, 1) &&
      (forall j :: 1 <= j < 28 ==> f[j].Gpio? && f[j].pin != Cs) &&
      f[1] == Gpio(Sdi, Level(dataType != 0)) &&
      (forall k :: 1 <= k < 9 ==> f[1 + 3 * k] == Gpio(Sdi, Level(BitSet(value, 8 - k)))) &&
      (forall k :: 0 <= k < 9 ==> f[2 + 3 * k] == Gpio(Scl, 0) && f[3 + 3 * k] == Gpio(Scl, 1))
  {
    var forced := ForceBit8(dataType, value);
    var bits := FrameBits(forced);
    var f := BitBangFrame(dataType, value);
    forall k | 0 <= k < 9
      ensures f[1 + 3 * k] == Gpio(Sdi, Level(bits[k]))
      ensures f[2 + 3 * k] == Gpio(Scl, 0) && f[3 + 3 * k] == Gpio(Scl, 1)
    {
      ClockedAt(bits, k);
    }
    forall j | 1 <= j < 28
      ensures f[j].Gpio? && f[j].pin != Cs
    {
      var k := (j - 1) / 3;
      ClockedAt(bits, k);
      assert j == 1 + 3 * k || j == 2 + 3 * k || j == 3 + 3 * k;
    }
    forall k | 1 <= k < 9
      ensures bits[k] == BitSet(value, 8 - k)
    {
      assert 0 <= 8 - k < 8;
    }
    assert bits[0] == (dataType != 0);
  }

  /** The first step of `rockchip_panel_write_spi_cmds`: clear or set bit 8 of the value by the data type. */
  method ForceDataFlag(dataType: byte, value: nat) returns (v: nat)
    ensures v == ForceBit8(dataType, value)
  {
    v := value;
    if dataType == 0 {
      if BitSet(v, 8) {
        BitSetAtLeast(v, 8);
        v := v - 256;
      }
    } else {
      if !BitSet(v, 8) {
        v := v + 256;
      }
    }
  }

  /** `rockchip_panel_write_spi_cmds`: clock one 9-bit word out on the GPIO lines. */
  method WriteSpiCmds(dataType: byte, value: nat) returns (events: seq<PanelEvent>)
    ensures events == BitBangFrame(dataType, value)
  {
    events := [Gpio(Cs, 0)];
    var v := ForceDataFlag(dataType, value);
    ghost var forced := v;
    ghost var bits := FrameBits(forced);
    for i := 0 to 9
      invariant v == Shl(forced, i)
      invariant events == [Gpio(Cs, 0)] + Clocked(bits[..i])
    {
      ShiftedBit(forced, i, 8);
      var sdi := if BitSet(v, 8) then 1 else 0;
      assert sdi == Level(bits[i]);
      assert bits[..i + 1][..i] == bits[..i];
      assert Clocked(bits[..i + 1]) == Clocked(bits[..i]) + Pulse(bits[i]);
      events := events + [Gpio(Sdi, sdi), Gpio(Scl, 0), Gpio(Scl, 1)];
      v := v * 2;
    }
    assert bits[..9] == bits;
    events := events + [Gpio(Cs, 1)];
  }

  // ---------------------------------------------------------------------------
  // SPI controller word
  // ---------------------------------------------------------------------------

  /**
   * `(mask | payload[0]) << 7` stored in a `u16`: the 9-bit command
   * left-aligned in 16 bits.  `mask` is 0 or 0x100 and the payload byte is
   * below 0x100, so the `|` is a sum; the result always fits in 16 bits.
   */
  function SpiWord(dataType: byte, p0: byte): (w: nat)
    ensures w < 0x10000 && w % 128 == 0
    ensures w / 128 == (if dataType != 0 then 0x100 else 0) + p0 as int
  {
    var mask := if dataType != 0 then 0x100 else 0;
    (mask + p0 as int) * 128
  }

  /** `((data & 0xff) << 8) | (data >> 8)` on a `u16`: the two bytes exchanged. */
  function SwapBytes(d: nat): (r: nat)
    requires d < 0x10000
    ensures r < 0x10000 && r / 256 == d % 256 && r % 256 == d / 256
  {
    (d % 256) * 256 + d / 256
  }

  lemma SwapBytesInvolutive(d: nat)
    requires d < 0x10000
    ensures SwapBytes(SwapBytes(d)) == d
  {
  }

  // ---------------------------------------------------------------------------
  // Senders
  // ---------------------------------------------------------------------------

  /** What the SPI sender reads of a payload: `payload[0]`, and `payload[1]` for two-byte payloads. */
  predicate SpiReadable(d: CmdDesc)
  {
    |d.payload| >= 1 && (d.header.payloadLength == 2 ==> |d.payload| >= 2)
  }

  /**
   * The value handed to the bit-banging routine: `(payload[0] << 8) | payload[1]`
   * for two-byte payloads (a sum, the bytes do not overlap), else `payload[0]`.
   */
  function BitBangValue(d: CmdDesc): (v: nat)
    requires SpiReadable(d)
    ensures v < 0x10000
  {
    if d.header.payloadLength == 2 then d.payload[0] as int * 256 + d.payload[1] as int
    else d.payload[0] as int
  }

  /** The transfer made for one command through the SPI controller. */
  function HwXfer(d: CmdDesc): PanelEvent
    requires SpiReadable(d)
  {
    SpiXfer(9, SwapBytes(SpiWord(d.header.dataType, d.payload[0])))
  }

  function BitBangTrace(descs: seq<CmdDesc>): (r: seq<PanelEvent>)
    requires forall i :: 0 <= i < |descs| ==> SpiReadable(descs[i])
    ensures |r| == 29 * |descs|
  {
    if descs == [] then []
    else
      var last := descs[|descs| - 1];
      BitBangTrace(descs[..|descs| - 1]) + BitBangFrame(last.header.dataType, BitBangValue(last))
  }

  function HwXfers(descs: seq<CmdDesc>): seq<PanelEvent>
    requires forall i :: 0 <= i < |descs| ==> SpiReadable(descs[i])
  {
    seq(|descs|, i requires 0 <= i < |descs| => HwXfer(descs[i]))
  }

  /** `rockchip_panel_send_spi_cmds` on a command list, given the SPI controller's reply to `spi_claim_bus`. */
  function SpiSend(spiSlave: bool, claimRet: int, descs: seq<CmdDesc>): SendResult
    requires forall i :: 0 <= i < |descs| ==> SpiReadable(descs[i])
  {
    if !spiSlave then SendResult(0, BitBangTrace(descs))
    else if claimRet != 0 then SendResult(-EINVAL, [SpiClaimBus])
    else SendResult(0, [SpiClaimBus] + HwXfers(descs) + [SpiReleaseBus])
  }

  /**
   * Through the SPI controller, every command is one 9-bit transfer whose
   * byte-swapped word holds the data/command flag and `payload[0]`, between
   * claiming and releasing the bus; a refused claim sends nothing.
   */
  lemma HwSpiTrace(claimRet: int, descs: seq<CmdDesc>)
    requires forall i :: 0 <= i < |descs| ==> SpiReadable(descs[i])
    ensures var r := SpiSend(true, claimRet, descs);
      (claimRet != 0 ==> r.ret == -EINVAL && r.events == [SpiClaimBus]) &&
      (claimRet == 0 ==>
        r.ret == 0 && |r.events| == |descs| + 2 &&
        r.events[0] == SpiClaimBus && r.events[|descs| + 1] == SpiReleaseBus &&
        forall i :: 0 <= i < |descs| ==>
          r.events[i + 1].SpiXfer? && r.events[i + 1].bitlen == 9 && r.events[i + 1].word < 0x10000 &&
          SwapBytes(r.events[i + 1].word) % 128 == 0 &&
          SwapBytes(r.events[i + 1].word) / 128 ==
            (if descs[i].header.dataType != 0 then 0x100 else 0) + descs[i].payload[0] as int)
  {
    if claimRet == 0 {
      var r := SpiSend(true, claimRet, descs);
      forall i | 0 <= i < |descs|
        ensures r.events[i + 1] == HwXfer(descs[i])
      {
      }
      forall i | 0 <= i < |descs|
        ensures SwapBytes(HwXfer(descs[i]).word) == SpiWord(descs[i].header.dataType, descs[i].payload[0])
      {
        SwapBytesInvolutive(SpiWord(descs[i].header.dataType, descs[i].payload[0]));
      }
    }
  }

  /** Bit-banged, command `i` is the `i`-th 29-event frame of the trace. */
  lemma {:induction false} BitBangTraceAt(descs: seq<CmdDesc>, i: nat)
    requires forall k :: 0 <= k < |descs| ==> SpiReadable(descs[k])
    requires i < |descs|
    ensures BitBangTrace(descs)[29 * i..29 * i + 29] ==
            BitBangFrame(descs[i].header.dataType, BitBangValue(descs[i]))
  {
    var pre := descs[..|descs| - 1];
    if i < |descs| - 1 {
      BitBangTraceAt(pre, i);
      assert pre[i] == descs[i];
      assert BitBangTrace(descs)[29 * i..29 * i + 29] == BitBangTrace(pre)[29 * i..29 * i + 29];
    }
  }

  /** The body of the sender's loop for one command: one controller transfer, or one bit-banged frame. */
  method SendSpiCmd(spiSlave: bool, desc: CmdDesc) returns (events: seq<PanelEvent>)
    requires SpiReadable(desc)
    ensures spiSlave ==> events == [HwXfer(desc)]
    ensures !spiSlave ==> events == BitBangFrame(desc.header.dataType, BitBangValue(desc))
  {
    if spiSlave {
      var mask := if desc.header.dataType != 0 then 0x100 else 0;
      var data := (mask + desc.payload[0] as int) * 128;
      data := (data % 256) * 256 + data / 256;
      events := [SpiXfer(9, data)];
    } else {
      var value: nat;
      if desc.header.payloadLength == 2 {
        value := desc.payload[0] as int * 256 + desc.payload[1] as int;
      } else {
        value := desc.payload[0] as int;
      }
      events := WriteSpiCmds(desc.header.dataType, value);
    }
  }

  method SendSpiCmds(spiSlave: bool, pcmds: PanelCmds?, claimRet: int) returns (ret: int, events: seq<PanelEvent>)
    requires pcmds != null ==> pcmds.Valid() && forall i :: 0 <= i < pcmds.cmdCnt ==> SpiReadable(pcmds.cmds[i])
    ensures pcmds == null ==> ret == -EINVAL && events == []
    ensures pcmds != null ==> SendResult(ret, events) == SpiSend(spiSlave, claimRet, pcmds.Descs())
  {
    if pcmds == null {
      return -EINVAL, [];
    }
    ghost var descs := pcmds.Descs();
    events := [];
    if spiSlave {
      events := events + [SpiClaimBus];
      if claimRet != 0 {
        return -EINVAL, events;
      }
    }
    assert forall k :: 0 <= k < |descs| ==> SpiReadable(descs[k]);
    for i := 0 to pcmds.cmdCnt
      invariant spiSlave ==> events == [SpiClaimBus] + HwXfers(descs[..i])
      invariant !spiSlave ==> events == BitBangTrace(descs[..i])
    {
      var desc := pcmds.cmds[i];
      assert desc == descs[i];
      var sent := SendSpiCmd(spiSlave, desc);
      events := events + sent;
      assert descs[..i + 1][..i] == descs[..i];
      assert spiSlave ==> HwXfers(descs[..i + 1]) == HwXfers(descs[..i]) + [HwXfer(desc)];
    }
    assert descs[..pcmds.cmdCnt] == descs;
    if spiSlave {
      events := events + [SpiReleaseBus];
    }
    return 0, events;
  }

  function McuWrites(descs: seq<CmdDesc>): seq<PanelEvent>
    requires forall i :: 0 <= i < |descs| ==> |descs[i].payload| >= 1
  {
    seq(|descs|, i requires 0 <= i < |descs| => McuCmd(descs[i].header.dataType as int, descs[i].payload[0] as int))
  }

  /**
   * `rockchip_panel_send_mcu_cmds`: bypass on, one `(data_type, payload[0])`
   * command per descriptor in order, bypass off; a NULL list sends nothing.
   */
  method SendMcuCmds(pcmds: PanelCmds?) returns (ret: int, events: seq<PanelEvent>)
    requires pcmds != null ==> pcmds.Valid() && forall i :: 0 <= i < pcmds.cmdCnt ==> |pcmds.cmds[i].payload| >= 1
    ensures pcmds == null ==> ret == -EINVAL && events == []
    ensures pcmds != null ==>
              ret == 0 && |events| == pcmds.cmdCnt + 2 &&
              events[0] == McuCmd(MCU_SETBYPASS, 1) && events[|events| - 1] == McuCmd(MCU_SETBYPASS, 0) &&
              forall i :: 0 <= i < pcmds.cmdCnt ==>
                events[i + 1] == McuCmd(pcmds.cmds[i].header.dataType as int, pcmds.cmds[i].payload[0] as int)
  {
    if pcmds == null {
      return -EINVAL, [];
    }
    ghost var descs := pcmds.Descs();
    events := [McuCmd(MCU_SETBYPASS, 1)];
    for i := 0 to pcmds.cmdCnt
      invariant events == [McuCmd(MCU_SETBYPASS, 1)] + McuWrites(descs[..i])
    {
      var desc := pcmds.cmds[i];
      var value := desc.payload[0] as int;
      events := events + [McuCmd(desc.header.dataType as int, value)];
      assert McuWrites(descs[..i + 1]) == McuWrites(descs[..i]) + [McuCmd(desc.header.dataType as int, value)];
    }
    events := events + [McuCmd(MCU_SETBYPASS, 0)];
    assert descs[..pcmds.cmdCnt] == descs;
    return 0, events;
  }

  // ---------------------------------------------------------------------------
  // MIPI DSI sender
  // ---------------------------------------------------------------------------

  /** The MIPI DSI call a data type selects in `rockchip_panel_send_dsi_cmds`. */
  datatype DsiOp = CompressionMode | GenericWrite | DcsWrite | PictureParameterSet | Unsupported

  function DsiKind(t: byte): (op: DsiOp)
    ensures op == CompressionMode <==> t == MIPI_DSI_COMPRESSION_MODE
    ensures op == GenericWrite <==>
              t in {MIPI_DSI_GENERIC_SHORT_WRITE_0_PARAM, MIPI_DSI_GENERIC_SHORT_WRITE_1_PARAM,
                    MIPI_DSI_GENERIC_SHORT_WRITE_2_PARAM, MIPI_DSI_GENERIC_LONG_WRITE}
    ensures op == DcsWrite <==>
              t in {MIPI_DSI_DCS_SHORT_WRITE, MIPI_DSI_DCS_SHORT_WRITE_PARAM, MIPI_DSI_DCS_LONG_WRITE}
    ensures op == PictureParameterSet <==> t == MIPI_DSI_PICTURE_PARAMETER_SET
  {
    if t == MIPI_DSI_COMPRESSION_MODE then CompressionMode
    else if t == MIPI_DSI_GENERIC_SHORT_WRITE_0_PARAM || t == MIPI_DSI_GENERIC_SHORT_WRITE_1_PARAM
         || t == MIPI_DSI_GENERIC_SHORT_WRITE_2_PARAM || t == MIPI_DSI_GENERIC_LONG_WRITE then GenericWrite
    else if t == MIPI_DSI_DCS_SHORT_WRITE || t == MIPI_DSI_DCS_SHORT_WRITE_PARAM
         || t == MIPI_DSI_DCS_LONG_WRITE then DcsWrite
    else if t == MIPI_DSI_PICTURE_PARAMETER_SET then PictureParameterSet
    else Unsupported
  }

  /**
   * What the DSI sender reads of a payload: `payload[0]` for the compression
   * mode, `payload_length` bytes for writes, and for a picture parameter set
   * `payload_length` bytes copied into the 128-byte structure (the code does
   * not check that they fit).
   */
  predicate DsiReadable(d: CmdDesc)
  {
    match DsiKind(d.header.dataType)
    case CompressionMode => |d.payload| >= 1
    case GenericWrite => d.header.payloadLength as int <= |d.payload|
    case DcsWrite => d.header.payloadLength as int <= |d.payload|
    case PictureParameterSet => d.header.payloadLength as int <= |d.payload| && d.header.payloadLength as int <= PPS_SIZE
    case Unsupported => true
  }

  /** The call made for a supported command; a parameter set is `kzalloc`ed, then the payload copied over it. */
  function DsiCall(d: CmdDesc): (e: PanelEvent)
    requires DsiReadable(d) && DsiKind(d.header.dataType) != Unsupported
  {
    var plen := d.header.payloadLength as int;
    match DsiKind(d.header.dataType)
    case CompressionMode => DsiCompressionMode(d.payload[0])
    case GenericWrite => DsiGenericWrite(d.payload[..plen])
    case DcsWrite => DsiDcsWrite(d.payload[..plen])
    case PictureParameterSet => DsiPictureParameterSet(d.payload[..plen] + Zeros(PPS_SIZE - plen))
  }

  /**
   * The DSI host's answers: the return value of the `i`-th command's call
   * (0 beyond the list) and whether `kzalloc` succeeds for the `i`-th command
   * (it does beyond the list).
   */
  datatype DsiHost = DsiHost(results: seq<int>, ppsAlloc: seq<bool>)
  {
    function Result(i: nat): int { if i < |results| then results[i] else 0 }
    predicate Alloc(i: nat) { i < |ppsAlloc| ==> ppsAlloc[i] }
  }

  predicate AllDsiReadable(descs: seq<CmdDesc>)
  {
    forall i :: 0 <= i < |descs| ==> DsiReadable(descs[i])
  }

  /** Command `i` is sent and its call does not fail. */
  predicate DsiCmdOk(descs: seq<CmdDesc>, host: DsiHost, i: nat)
    requires i < |descs|
  {
    var op := DsiKind(descs[i].header.dataType);
    op != Unsupported && (op == PictureParameterSet ==> host.Alloc(i)) && host.Result(i) >= 0
  }

  /** The error returned when command `i` fails. */
  function DsiFailRet(descs: seq<CmdDesc>, host: DsiHost, i: nat): (r: int)
    requires i < |descs| && !DsiCmdOk(descs, host, i)
    ensures r < 0
  {
    var op := DsiKind(descs[i].header.dataType);
    if op == Unsupported then -EINVAL
    else if op == PictureParameterSet && !host.Alloc(i) then -ENOMEM
    else host.Result(i)
  }

  /** The calls made for commands `lo` up to `hi`, all of which go through, in order. */
  function DsiCalls(descs: seq<CmdDesc>, host: DsiHost, lo: nat, hi: nat): (r: seq<PanelEvent>)
    requires lo <= hi <= |descs| && AllDsiReadable(descs)
    requires forall k :: lo <= k < hi ==> DsiCmdOk(descs, host, k)
    ensures |r| == hi - lo
    decreases hi - lo
  {
    if lo == hi then []
    else
      assert DsiCmdOk(descs, host, lo);
      [DsiCall(descs[lo])] + DsiCalls(descs, host, lo + 1, hi)
  }

  /** `rockchip_panel_send_dsi_cmds` from command `i` on. */
  function DsiFrom(descs: seq<CmdDesc>, host: DsiHost, i: nat): SendResult
    requires i <= |descs| && AllDsiReadable(descs)
    decreases |descs| - i
  {
    if i == |descs| then SendResult(0, [])
    else
      var d := descs[i];
      var op := DsiKind(d.header.dataType);
      if op == Unsupported then SendResult(-EINVAL, [])
      else if op == PictureParameterSet && !host.Alloc(i) then SendResult(-ENOMEM, [])
      else if host.Result(i) < 0 then SendResult(host.Result(i), [DsiCall(d)])
      else
        var rest := DsiFrom(descs, host, i + 1);
        SendResult(rest.ret, [DsiCall(d)] + rest.events)
  }

  lemma {:induction false} DsiAllOkFrom(descs: seq<CmdDesc>, host: DsiHost, i: nat)
    requires i <= |descs| && AllDsiReadable(descs)
    requires forall k :: i <= k < |descs| ==> DsiCmdOk(descs, host, k)
    ensures DsiFrom(descs, host, i) == SendResult(0, DsiCalls(descs, host, i, |descs|))
    decreases |descs| - i
  {
    if i < |descs| {
      DsiAllOkFrom(descs, host, i + 1);
      assert DsiCmdOk(descs, host, i);
    }
  }

  lemma {:induction false} DsiFirstFailureFrom(descs: seq<CmdDesc>, host: DsiHost, i: nat, j: nat)
    requires i <= j < |descs| && AllDsiReadable(descs)
    requires forall k :: i <= k < j ==> DsiCmdOk(descs, host, k)
    requires !DsiCmdOk(descs, host, j)
    ensures DsiFrom(descs, host, i) ==
            SendResult(DsiFailRet(descs, host, j),
                       DsiCalls(descs, host, i, j) +
                       (if DsiKind(descs[j].header.dataType) == Unsupported ||
                           (DsiKind(descs[j].header.dataType) == PictureParameterSet && !host.Alloc(j))
                        then [] else [DsiCall(descs[j])]))
    decreases j - i
  {
    if i < j {
      DsiFirstFailureFrom(descs, host, i + 1, j);
      assert DsiCmdOk(descs, host, i);
    }
  }

  /** When every command goes through, every command is sent, in order, and the result is 0. */
  lemma DsiAllSucceed(descs: seq<CmdDesc>, host: DsiHost)
    requires AllDsiReadable(descs)
    requires forall k :: 0 <= k < |descs| ==> DsiCmdOk(descs, host, k)
    ensures DsiFrom(descs, host, 0) == SendResult(0, DsiCalls(descs, host, 0, |descs|))
  {
    DsiAllOkFrom(descs, host, 0);
  }

  /**
   * At the first failing command `j` the sender stops: commands before `j`
   * have been sent in order, `j` itself is sent unless it was refused before
   * the call (unsupported type, failed allocation), nothing after it is sent,
   * and the error is returned.
   */
  lemma DsiFirstFailure(descs: seq<CmdDesc>, host: DsiHost, j: nat)
    requires j < |descs| && AllDsiReadable(descs)
    requires forall k :: 0 <= k < j ==> DsiCmdOk(descs, host, k)
    requires !DsiCmdOk(descs, host, j)
    ensures var r := DsiFrom(descs, host, 0);
      r.ret == DsiFailRet(descs, host, j) && r.ret < 0 && j <= |r.events| <= j + 1 &&
      (DsiKind(descs[j].header.dataType) == Unsupported ==> r.ret == -EINVAL && r.events == DsiCalls(descs, host, 0, j)) &&
      (DsiKind(descs[j].header.dataType) != Unsupported ==> r.events[..j] == DsiCalls(descs, host, 0, j))
  {
    DsiFirstFailureFrom(descs, host, 0, j);
    var r := DsiFrom(descs, host, 0);
    assert r.events[..j] == DsiCalls(descs, host, 0, j);
  }

  /** The sender returns 0 exactly when every command goes through. */
  lemma {:induction false} DsiZeroIff(descs: seq<CmdDesc>, host: DsiHost, i: nat)
    requires i <= |descs| && AllDsiReadable(descs)
    ensures DsiFrom(descs, host, i).ret == 0 <==> forall k :: i <= k < |descs| ==> DsiCmdOk(descs, host, k)
    decreases |descs| - i
  {
    if i < |descs| {
      DsiZeroIff(descs, host, i + 1);
      assert (forall k :: i <= k < |descs| ==> DsiCmdOk(descs, host, k)) <==>
             DsiCmdOk(descs, host, i) && forall k :: i + 1 <= k < |descs| ==> DsiCmdOk(descs, host, k);
    }
  }

  /** The `switch` of `rockchip_panel_send_dsi_cmds` for a supported command: the call it makes. */
  method DsiCallOf(desc: CmdDesc) returns (call: PanelEvent)
    requires DsiReadable(desc) && DsiKind(desc.header.dataType) != Unsupported
    ensures call == DsiCall(desc)
  {
    var plen := desc.header.payloadLength as int;
    var op := DsiKind(desc.header.dataType);
    if op == CompressionMode {
      call := DsiCompressionMode(desc.payload[0]);
    } else if op == GenericWrite {
      call := DsiGenericWrite(desc.payload[..plen]);
    } else if op == DcsWrite {
      call := DsiDcsWrite(desc.payload[..plen]);
    } else {
      var pps := Zeros(PPS_SIZE);
      pps := desc.payload[..plen] + pps[plen..];
      assert Zeros(PPS_SIZE)[plen..] == Zeros(PPS_SIZE - plen);
      call := DsiPictureParameterSet(pps);
    }
  }

  method SendDsiCmds(pcmds: PanelCmds?, host: DsiHost) returns (ret: int, events: seq<PanelEvent>)
    requires pcmds != null ==> pcmds.Valid() && AllDsiReadable(pcmds.cmds[..pcmds.cmdCnt])
    ensures pcmds == null ==> ret == -EINVAL && events == []
    ensures pcmds != null ==> SendResult(ret, events) == DsiFrom(pcmds.Descs(), host, 0)
  {
    if pcmds == null {
      return -EINVAL, [];
    }
    ghost var descs := pcmds.Descs();
    events := [];
    for i := 0 to pcmds.cmdCnt
      invariant DsiFrom(descs, host, 0) ==
                SendResult(DsiFrom(descs, host, i).ret, events + DsiFrom(descs, host, i).events)
    {
      var desc := pcmds.cmds[i];
      assert desc == descs[i];
      var op := DsiKind(desc.header.dataType);
      if op == Unsupported {
        return -EINVAL, events;
      }
      if op == PictureParameterSet && !host.Alloc(i) {
        return -ENOMEM, events;
      }
      var call := DsiCallOf(desc);
      events := events + [call];
      var r := host.Result(i);
      if r < 0 {
        return r, events;
      }
    }
    assert DsiFrom(descs, host, |descs|).events == [];
    return 0, events;
  }

  // ---------------------------------------------------------------------------
  // Transport dispatch
  // ---------------------------------------------------------------------------

  /** What the sender for `cmdType` reads of each descriptor. */
  predicate Sendable(cmdType: int, descs: seq<CmdDesc>)
  {
    if cmdType == CMD_TYPE_SPI then forall i :: 0 <= i < |descs| ==> SpiReadable(descs[i])
    else if cmdType == CMD_TYPE_MCU then forall i :: 0 <= i < |descs| ==> |descs[i].payload| >= 1
    else AllDsiReadable(descs)
  }

  /** Every parameter-set payload fits the 128-byte structure it is copied into. */
  predicate PpsFit(descs: seq<CmdDesc>)
  {
    forall i :: 0 <= i < |descs| && DsiKind(descs[i].header.dataType) == PictureParameterSet ==>
      descs[i].header.payloadLength as int <= PPS_SIZE
  }

  /**
   * What the parser stores can be handed to the sender of any command type:
   * every payload has its first byte, and its declared length fits.  For DSI
   * the parameter sets must also fit their 128-byte structure.
   */
  lemma ParsedSendable(data: seq<byte>, cmdType: int)
    requires WellFormed(data)
    requires cmdType != CMD_TYPE_SPI && cmdType != CMD_TYPE_MCU ==> PpsFit(Descriptors(data))
    ensures Sendable(cmdType, Descriptors(data))
  {
    var descs := Descriptors(data);
    forall i | 0 <= i < |descs|
      ensures |descs[i].payload| >= 1 && descs[i].header.payloadLength as int <= |descs[i].payload|
    {
      DescriptorContents(data, i);
    }
  }

  /** The sender `panel_simple_prepare` and `panel_simple_unprepare` pick by command type. */
  function Send(cmdType: int, spiSlave: bool, spiClaim: int, dsi: DsiHost, descs: seq<CmdDesc>): SendResult
    requires Sendable(cmdType, descs)
  {
    if cmdType == CMD_TYPE_SPI then SpiSend(spiSlave, spiClaim, descs)
    else if cmdType == CMD_TYPE_MCU then
      SendResult(0, [McuCmd(MCU_SETBYPASS, 1)] + McuWrites(descs) + [McuCmd(MCU_SETBYPASS, 0)])
    else DsiFrom(descs, dsi, 0)
  }

  /** The calls made for an optional command list (none when it is absent). */
  ghost function SendEvents(cmdType: int, spiSlave: bool, spiClaim: int, dsi: DsiHost, p: PanelCmds?): seq<PanelEvent>
    reads p, if p != null then {p.cmds} else {}
    requires p != null ==> p.Valid() && Sendable(cmdType, p.Descs())
  {
    if p == null then [] else Send(cmdType, spiSlave, spiClaim, dsi, p.Descs()).events
  }

  method SendCmds(cmdType: int, spiSlave: bool, spiClaim: int, dsi: DsiHost, pcmds: PanelCmds)
    returns (ret: int, events: seq<PanelEvent>)
    requires pcmds.Valid() && Sendable(cmdType, pcmds.Descs())
    ensures SendResult(ret, events) == Send(cmdType, spiSlave, spiClaim, dsi, pcmds.Descs())
  {
    if cmdType == CMD_TYPE_SPI {
      ret, events := SendSpiCmds(spiSlave, pcmds, spiClaim);
    } else if cmdType == CMD_TYPE_MCU {
      ret, events := SendMcuCmds(pcmds);
      ghost var descs := pcmds.Descs();
      assert events == [McuCmd(MCU_SETBYPASS, 1)] + McuWrites(descs) + [McuCmd(MCU_SETBYPASS, 0)];
    } else {
      ret, events := SendDsiCmds(pcmds, dsi);
    }
  }

  // ---------------------------------------------------------------------------
  // MIPI LCD presence mask
  // ---------------------------------------------------------------------------

  const DSI0_DISABLE: seq<string> := [
    "fdt set /dsi@fde20000 status disable",
    "fdt set /dsi@fde20000/panel@0 status disable",
    "fdt set /dsi@fde20000/ports/port@0/endpoint@0 status disable",
    "fdt set /display-subsystem/route/route-dsi0 status disable"]

  const DSI1_DISABLE: seq<string> := [
    "fdt set /dsi@fde30000 status disable",
    "fdt set /dsi@fde30000/panel@0 status disable",
    "fdt set /dsi@fde30000/ports/port@0/endpoint@1 status disable",
    "fdt set /display-subsystem/route/route-dsi1 status disable"]

  /** DCS power mode reported by a live panel: display on. */
  const POWER_MODE_DISPLAY_ON: byte := 0x08

  datatype LcdExit = LcdExit(mask: bv32, commands: seq<string>)

  /**
   * The `is_mipi_lcd_exit` update of `panel_simple_prepare` after reading the
   * panel's power mode: a panel that answers "display on" sets the bit of its
   * video port; a silent panel on port 2 (when the first panel is not a
   * TS101) or on port 3 (when the second is not) clears the port's bit, and
   * with it every bit above, and disables that DSI host in the device tree.
   */
  function LcdExitUpdate(mask: bv32, mode: byte, vpxId: bv32, mipiId: int, mipiId2: int): LcdExit
    requires vpxId < 32
  {
    if mode == POWER_MODE_DISPLAY_ON then LcdExit(mask | (1 << vpxId), [])
    else if vpxId == 2 && mipiId != 2 then LcdExit(mask & 0xb, DSI0_DISABLE)
    else if vpxId == 3 && mipiId2 != 2 then LcdExit(mask & 0x7, DSI1_DISABLE)
    else LcdExit(mask, [])
  }

  /** A panel that answers "display on" sets the bit of its video port, keeps the others, and disables nothing. */
  lemma LcdExitPanelPresent(mask: bv32, vpxId: bv32, mipiId: int, mipiId2: int)
    requires vpxId < 32
    ensures var r := LcdExitUpdate(mask, POWER_MODE_DISPLAY_ON, vpxId, mipiId, mipiId2);
      r.commands == [] && r.mask & (1 << vpxId) != 0 && r.mask & !(1 << vpxId) == mask & !(1 << vpxId)
  {
  }

  /** A silent panel on port 2, when the first panel is not a TS101, loses bit 2 (and the bits above 3) and DSI0 is disabled. */
  lemma LcdExitDsi0Disabled(mask: bv32, mode: byte, mipiId: int, mipiId2: int)
    requires mode != POWER_MODE_DISPLAY_ON && mipiId != 2
    ensures var r := LcdExitUpdate(mask, mode, 2, mipiId, mipiId2);
      r.commands == DSI0_DISABLE && r.mask & 4 == 0 && r.mask & 0xb == mask & 0xb && r.mask < 16
  {
  }

  /** A silent panel on port 3, when the second panel is not a TS101, loses bit 3 and above and DSI1 is disabled. */
  lemma LcdExitDsi1Disabled(mask: bv32, mode: byte, mipiId: int, mipiId2: int)
    requires mode != POWER_MODE_DISPLAY_ON && mipiId2 != 2
    ensures var r := LcdExitUpdate(mask, mode, 3, mipiId, mipiId2);
      r.commands == DSI1_DISABLE && r.mask & 8 == 0 && r.mask & 7 == mask & 7 && r.mask < 8
  {
  }

  /** In every other case the mask is left alone and nothing is disabled. */
  lemma LcdExitUnchanged(mask: bv32, mode: byte, vpxId: bv32, mipiId: int, mipiId2: int)
    requires vpxId < 32 && mode != POWER_MODE_DISPLAY_ON
    requires !(vpxId == 2 && mipiId != 2) && !(vpxId == 3 && mipiId2 != 2)
    ensures LcdExitUpdate(mask, mode, vpxId, mipiId, mipiId2) == LcdExit(mask, [])
  {
  }

  /** Running the update again with the same panel answer changes nothing more. */
  lemma LcdExitIdempotent(mask: bv32, mode: byte, vpxId: bv32, mipiId: int, mipiId2: int)
    requires vpxId < 32
    ensures var once := LcdExitUpdate(mask, mode, vpxId, mipiId, mipiId2);
            LcdExitUpdate(once.mask, mode, vpxId, mipiId, mipiId2).mask == once.mask
  {
  }

  function RunCommands(cmds: seq<string>): (r: seq<PanelEvent>)
    ensures |r| == |cmds| && forall i :: 0 <= i < |cmds| ==> r[i] == RunCommand(cmds[i])
  {
    seq(|cmds|, i requires 0 <= i < |cmds| => RunCommand(cmds[i]))
  }

  // ---------------------------------------------------------------------------
  // Touch-controller probe and panel id
  // ---------------------------------------------------------------------------

  const TP_I2C_BUS_NUM := 0
  const TP2_I2C_BUS_NUM := 6
  /** `simple_strtoul("0x38", NULL, 16)` and `simple_strtoul("0x14", NULL, 16)`. */
  const TP05_CHIP_ADDR := 0x38
  const TP10_CHIP_ADDR := 0x14
  const TP05_ID_REG := 0xa8
  const TP10_ID_REG := 0x9e

  /**
   * What the I2C layer answers one `kbi_i2c_read`: whether the bus exists,
   * the return values of `i2c_get_chip` and `dm_i2c_read`, and the byte read.
   */
  datatype I2cAnswer = I2cAnswer(busFound: bool, chipRet: int, readRet: int, data: byte)

  /** One `kbi_i2c_read(bus, reg, chip)` issued. */
  datatype TouchRead = TouchRead(bus: nat, chip: nat, reg: nat)

  /**
   * `kbi_i2c_read`: `-ENODEV` without the bus, the first non-zero error of
   * the chip lookup and the read, and otherwise the byte read, passed
   * through `sprintf("%d")` and `simple_strtoul(…, 10)`.
   */
  function KbiI2cRead(a: I2cAnswer): (r: int)
    ensures !a.busFound ==> r == -ENODEV
    ensures a.busFound && a.chipRet != 0 ==> r == a.chipRet
    ensures a.busFound && a.chipRet == 0 && a.readRet != 0 ==> r == a.readRet
    ensures a.busFound && a.chipRet == 0 && a.readRet == 0 ==> r == a.data as int
  {
    if !a.busFound then -ENODEV
    else if a.chipRet != 0 then a.chipRet
    else if a.readRet != 0 then a.readRet
    else
      DecimalRoundTrip(a.data as nat);
      StrToUl10(Decimal(a.data as nat))
  }

  /** With error codes negative, the result is non-negative exactly when the read succeeds, and is then the byte. */
  lemma KbiI2cReadSucceeds(a: I2cAnswer)
    requires a.chipRet <= 0 && a.readRet <= 0
    ensures KbiI2cRead(a) >= 0 <==> a.busFound && a.chipRet == 0 && a.readRet == 0
    ensures KbiI2cRead(a) >= 0 ==> KbiI2cRead(a) == a.data as int && KbiI2cRead(a) < 256
  {
  }

  datatype PanelChoice = PanelChoice(id: int, prop: string, readsTp10: bool)

  /**
   * The panel-id rule of `rockchip_panel_ofdata_to_platdata`: TP05 id 0x51 is
   * the old TS050 (id 1), 0x79 the new TS050 (id 3, second init sequence);
   * otherwise the TP10 is read and id 0x00 is the TS101 (id 2), anything else
   * id 0.
   */
  function PanelIdRule(tp05Id: int, tp10Id: int): (c: PanelChoice)
    ensures c.id == 1 <==> tp05Id == 0x51
    ensures c.id == 3 <==> tp05Id == 0x79
    ensures c.id == 2 <==> tp05Id != 0x51 && tp05Id != 0x79 && tp10Id == 0
    ensures c.id == 0 <==> tp05Id != 0x51 && tp05Id != 0x79 && tp10Id != 0
    ensures c.prop == if tp05Id == 0x79 then "panel-init-sequence2" else "panel-init-sequence"
    ensures c.readsTp10 <==> tp05Id != 0x51 && tp05Id != 0x79
  {
    if tp05Id == 0x51 then PanelChoice(1, "panel-init-sequence", false)
    else if tp05Id == 0x79 then PanelChoice(3, "panel-init-sequence2", false)
    else if tp10Id == 0 then PanelChoice(2, "panel-init-sequence", true)
    else PanelChoice(0, "panel-init-sequence", true)
  }

  /** A TP05 that cannot be read (negative error) never selects a TS050; a failed TP10 read then gives id 0. */
  lemma PanelIdOnReadErrors(tp05: I2cAnswer, tp10: I2cAnswer)
    requires tp05.chipRet <= 0 && tp05.readRet <= 0 && tp10.chipRet <= 0 && tp10.readRet <= 0
    requires !(tp05.busFound && tp05.chipRet == 0 && tp05.readRet == 0)
    ensures var c := PanelIdRule(KbiI2cRead(tp05), KbiI2cRead(tp10));
      c.readsTp10 && c.prop == "panel-init-sequence" &&
      (c.id == 2 <==> tp10.busFound && tp10.chipRet == 0 && tp10.readRet == 0 && tp10.data == 0)
  {
    KbiI2cReadSucceeds(tp05);
    KbiI2cReadSucceeds(tp10);
  }

  /**
   * The global display state shared by the panel instances: `is_mipi_lcd_exit`,
   * `vpx_id`, the board's `namtso_mipi_id` and `namtso_mipi_id2`, and the
   * `first_flag` static of `rockchip_panel_ofdata_to_platdata`.
   */
  class DisplayGlobals {
    var isMipiLcdExit: bv32
    var vpxId: int
    var namtsoMipiId: int
    var namtsoMipiId2: int
    var firstFlag: bool

    /** `is_mipi_lcd_exit` and `vpx_id` start at 0 and `first_flag` at false; the panel ids come from elsewhere. */
    constructor(mipiId: int, mipiId2: int)
      ensures isMipiLcdExit == 0 && vpxId == 0 && !firstFlag
      ensures namtsoMipiId == mipiId && namtsoMipiId2 == mipiId2
    {
      isMipiLcdExit := 0;
      vpxId := 0;
      namtsoMipiId := mipiId;
      namtsoMipiId2 := mipiId2;
      firstFlag := false;
    }

    /**
     * The vendor block of `panel_simple_prepare`: unless the panel id is 4,
     * read the panel's power mode and update `is_mipi_lcd_exit`, disabling
     * the DSI host of a silent panel.
     */
    method ProbeLcd(mode: byte) returns (events: seq<PanelEvent>)
      requires 0 <= vpxId < 32
      modifies this
      ensures var lcd := LcdExitUpdate(old(isMipiLcdExit), mode, old(vpxId) as bv32, old(namtsoMipiId), old(namtsoMipiId2));
              events == LcdProbe(old(namtsoMipiId), lcd) &&
              isMipiLcdExit == (if old(namtsoMipiId) != 4 then lcd.mask else old(isMipiLcdExit))
      ensures vpxId == old(vpxId) && namtsoMipiId == old(namtsoMipiId)
      ensures namtsoMipiId2 == old(namtsoMipiId2) && firstFlag == old(firstFlag)
    {
      events := [];
      if namtsoMipiId != 4 {
        events := events + [DsiGetPowerMode];
        var lcd := LcdExitUpdate(isMipiLcdExit, mode, vpxId as bv32, namtsoMipiId, namtsoMipiId2);
        isMipiLcdExit := lcd.mask;
        events := events + RunCommands(lcd.commands);
      }
    }

    /**
     * The panel-id block of `rockchip_panel_ofdata_to_platdata`: unless the
     * panel id is already 4, read the touch controllers on bus 0 (first
     * call) or bus 6 (second call), record the id in `namtso_mipi_id` or
     * `namtso_mipi_id2`, and pick the init-sequence property; `first_flag`
     * flips on every call.
     */
    method SelectPanelId(tp05: I2cAnswer, tp10: I2cAnswer) returns (prop: string, probes: seq<TouchRead>)
      modifies this
      ensures firstFlag == !old(firstFlag)
      ensures isMipiLcdExit == old(isMipiLcdExit) && vpxId == old(vpxId)
      ensures old(namtsoMipiId) == 4 ==>
                prop == "panel-init-sequence" && probes == [] &&
                namtsoMipiId == old(namtsoMipiId) && namtsoMipiId2 == old(namtsoMipiId2)
      ensures old(namtsoMipiId) != 4 ==>
                var c := PanelIdRule(KbiI2cRead(tp05), KbiI2cRead(tp10));
                var bus := if old(firstFlag) then TP2_I2C_BUS_NUM else TP_I2C_BUS_NUM;
                prop == c.prop &&
                probes == [TouchRead(bus, TP05_CHIP_ADDR, TP05_ID_REG)] +
                         (if c.readsTp10 then [TouchRead(bus, TP10_CHIP_ADDR, TP10_ID_REG)] else []) &&
                (old(firstFlag) ==> namtsoMipiId2 == c.id && namtsoMipiId == old(namtsoMipiId)) &&
                (!old(firstFlag) ==> namtsoMipiId == c.id && namtsoMipiId2 == old(namtsoMipiId2))
    {
      probes := [];
      if namtsoMipiId != 4 {
        var bus := if firstFlag then TP2_I2C_BUS_NUM else TP_I2C_BUS_NUM;
        probes := probes + [TouchRead(bus, TP05_CHIP_ADDR, TP05_ID_REG)];
        var tpId := KbiI2cRead(tp05);
        var id: int;
        if tpId == 0x51 {
          id := 1;
          prop := "panel-init-sequence";
        } else if tpId == 0x79 {
          id := 3;
          prop := "panel-init-sequence2";
        } else {
          probes := probes + [TouchRead(bus, TP10_CHIP_ADDR, TP10_ID_REG)];
          var tp10Id := KbiI2cRead(tp10);
          id := if tp10Id == 0 then 2 else 0;
          prop := "panel-init-sequence";
        }
        if !firstFlag {
          namtsoMipiId := id;
        } else {
          namtsoMipiId2 := id;
        }
      } else {
        prop := "panel-init-sequence";
      }
      firstFlag := !firstFlag;
    }
  }

  // ---------------------------------------------------------------------------
  // Prepare / enable flag machine
  // ---------------------------------------------------------------------------

  /** Power-on steps before the command list: supply (honouring `power-invert`), then enable GPIO high. */
  function PowerOn(hasSupply: bool, powerInvert: bool, enableGpio: bool): seq<PanelEvent>
  {
    (if hasSupply then [Regulator(!powerInvert)] else []) + (if enableGpio then [EnableGpio(1)] else [])
  }

  /** Power-off steps after the command list: enable GPIO low, then supply. */
  function PowerOff(hasSupply: bool, powerInvert: bool, enableGpio: bool): seq<PanelEvent>
  {
    (if enableGpio then [EnableGpio(0)] else []) + (if hasSupply then [Regulator(powerInvert)] else [])
  }

  /** The opposite of a power step. */
  function Undo(e: PanelEvent): PanelEvent
  {
    match e
    case Regulator(on) => Regulator(!on)
    case EnableGpio(level) => EnableGpio(if level == 0 then 1 else 0)
    case _ => e
  }

  function UndoReversed(s: seq<PanelEvent>): (r: seq<PanelEvent>)
    ensures |r| == |s|
  {
    if s == [] then [] else [Undo(s[|s| - 1])] + UndoReversed(s[..|s| - 1])
  }

  /** Powering off undoes the power-on steps in the opposite order. */
  lemma PowerOffMirrorsPowerOn(hasSupply: bool, powerInvert: bool, enableGpio: bool)
    ensures PowerOff(hasSupply, powerInvert, enableGpio) == UndoReversed(PowerOn(hasSupply, powerInvert, enableGpio))
  {
    var on := PowerOn(hasSupply, powerInvert, enableGpio);
    if hasSupply && enableGpio {
      assert on[..1] == [Regulator(!powerInvert)];
      assert on[..1][..0] == [];
    } else if hasSupply || enableGpio {
      assert on[..0] == [];
    }
  }

  /** The vendor power-mode probe of `panel_simple_prepare`, skipped when the panel id is 4. */
  function LcdProbe(mipiId: int, lcd: LcdExit): seq<PanelEvent>
  {
    if mipiId != 4 then [DsiGetPowerMode] + RunCommands(lcd.commands) else []
  }

  /**
   * The driver state of one `rockchip_panel` device: the `prepared` and
   * `enabled` flags of its private data, and what probe and
   * `ofdata_to_platdata` fixed (command type, supply, backlight, enable GPIO,
   * SPI slave, command lists).
   */
  class Panel {
    var prepared: bool
    var enabled: bool
    const cmdType: int
    const hasSupply: bool
    const powerInvert: bool
    const enableGpio: bool
    const hasBacklight: bool
    const spiSlave: bool
    const onCmds: PanelCmds?
    const offCmds: PanelCmds?

    /** The private data is zero-allocated: neither prepared nor enabled. */
    constructor(cmdType: int, hasSupply: bool, powerInvert: bool, enableGpio: bool, hasBacklight: bool,
                spiSlave: bool, onCmds: PanelCmds?, offCmds: PanelCmds?)
      ensures !prepared && !enabled
      ensures this.cmdType == cmdType && this.hasSupply == hasSupply && this.powerInvert == powerInvert
      ensures this.enableGpio == enableGpio && this.hasBacklight == hasBacklight && this.spiSlave == spiSlave
      ensures this.onCmds == onCmds && this.offCmds == offCmds
    {
      prepared := false;
      enabled := false;
      this.cmdType := cmdType;
      this.hasSupply := hasSupply;
      this.powerInvert := powerInvert;
      this.enableGpio := enableGpio;
      this.hasBacklight := hasBacklight;
      this.spiSlave := spiSlave;
      this.onCmds := onCmds;
      this.offCmds := offCmds;
    }

    /** The command lists are parsed and readable by this panel's sender. */
    ghost predicate Valid()
      reads this, onCmds, offCmds, if onCmds != null then {onCmds.cmds} else {},
            if offCmds != null then {offCmds.cmds} else {}
    {
      (onCmds != null ==> onCmds.Valid() && Sendable(cmdType, onCmds.Descs())) &&
      (offCmds != null ==> offCmds.Valid() && Sendable(cmdType, offCmds.Descs()))
    }

    /**
     * `panel_simple_prepare`: nothing when already prepared; otherwise power
     * on, probe the panel's power mode (updating `is_mipi_lcd_exit`), send the
     * on-commands, and mark the panel prepared.  Send errors are only printed.
     */
    method Prepare(g: DisplayGlobals, mode: byte, spiClaim: int, dsi: DsiHost) returns (events: seq<PanelEvent>)
      requires Valid() && 0 <= g.vpxId < 32
      modifies this, g
      ensures prepared && enabled == old(enabled)
      ensures old(prepared) ==> events == [] && unchanged(g)
      ensures !old(prepared) ==>
                var lcd := LcdExitUpdate(old(g.isMipiLcdExit), mode, old(g.vpxId) as bv32, old(g.namtsoMipiId), old(g.namtsoMipiId2));
                events == PowerOn(hasSupply, powerInvert, enableGpio) + LcdProbe(old(g.namtsoMipiId), lcd) +
                          SendEvents(cmdType, spiSlave, spiClaim, dsi, onCmds) &&
                g.isMipiLcdExit == (if old(g.namtsoMipiId) != 4 then lcd.mask else old(g.isMipiLcdExit)) &&
                g.vpxId == old(g.vpxId) && g.namtsoMipiId == old(g.namtsoMipiId) &&
                g.namtsoMipiId2 == old(g.namtsoMipiId2) && g.firstFlag == old(g.firstFlag)
    {
      if prepared {
        return [];
      }
      ghost var onEvents := SendEvents(cmdType, spiSlave, spiClaim, dsi, onCmds);
      events := [];
      if hasSupply {
        events := events + [Regulator(!powerInvert)];
      }
      if enableGpio {
        events := events + [EnableGpio(1)];
      }
      assert events == PowerOn(hasSupply, powerInvert, enableGpio);
      var probe := g.ProbeLcd(mode);
      events := events + probe;
      var sent := [];
      if onCmds != null {
        var ret;
        ret, sent := SendCmds(cmdType, spiSlave, spiClaim, dsi, onCmds);
      }
      assert sent == onEvents;
      events := events + sent;
      prepared := true;
    }

    /**
     * `panel_simple_unprepare`: nothing when not prepared; otherwise send the
     * off-commands, then power off, and clear `prepared`.
     */
    method Unprepare(spiClaim: int, dsi: DsiHost) returns (events: seq<PanelEvent>)
      requires Valid()
      modifies this
      ensures !prepared && enabled == old(enabled)
      ensures old(prepared) ==>
                events == SendEvents(cmdType, spiSlave, spiClaim, dsi, offCmds) + PowerOff(hasSupply, powerInvert, enableGpio)
      ensures !old(prepared) ==> events == []
    {
      if !prepared {
        return [];
      }
      events := [];
      if offCmds != null {
        var ret, sent := SendCmds(cmdType, spiSlave, spiClaim, dsi, offCmds);
        events := events + sent;
      }
      if enableGpio {
        events := events + [EnableGpio(0)];
      }
      if hasSupply {
        events := events + [Regulator(powerInvert)];
      }
      prepared := false;
    }

    /** `panel_simple_enable`: nothing when enabled; otherwise switch the backlight on. */
    method Enable() returns (events: seq<PanelEvent>)
      modifies this
      ensures enabled && prepared == old(prepared)
      ensures events == if old(enabled) || !hasBacklight then [] else [Backlight(true)]
    {
      if enabled {
        return [];
      }
      events := if hasBacklight then [Backlight(true)] else [];
      enabled := true;
    }

    /** `panel_simple_disable`: nothing when disabled; otherwise switch the backlight off. */
    method Disable() returns (events: seq<PanelEvent>)
      modifies this
      ensures !enabled && prepared == old(prepared)
      ensures events == if !old(enabled) || !hasBacklight then [] else [Backlight(false)]
    {
      if !enabled {
        return [];
      }
      events := if hasBacklight then [Backlight(false)] else [];
      enabled := false;
    }
  }
}
