# Namtso A10 (RK3588) U-Boot board code in Dafny

This project models three parts of the Namtso A10 U-Boot tree and proves properties of them.

- **Rockchip panel driver** (`drivers/video/drm/rockchip_panel.c`). It parses the device tree's packed panel command sequences. Each record is a 3-byte header (data type, delay, payload length) followed by the payload. It encodes the commands as 9-bit SPI words, either bit-banged over GPIO or packed for the SPI controller. It sends them over SPI, the display MCU interface or MIPI DSI. It sequences panel power with the `prepared`/`enabled` flags. It also keeps the driver's globals: the `is_mipi_lcd_exit` mask and the touch-controller panel ids.
- **`nbi` shell command** (`cmd/nbi.c`). It checks the arguments of each sub-command. It reads the board MCU's registers over I2C and decodes them into enable flags, LED-mode and boot-mode names. It changes registers by running `i2c mw 18 <reg> <val> 1`. It programs wake-on-LAN through `mdio write` commands carrying the MAC address.
- **Board bring-up** (`board/namtso/namtso-a10-3588/namtso-a10-3588.c`). It picks the `lcd_panel` environment value from the touch-controller probes. It falls back from USB SuperSpeed to HighSpeed when the USB3 PHY fails.

Hardware is abstract throughout. I2C answers, register contents, vendor storage, SPI bus claims and DSI host results are inputs (datatypes). GPIO levels, SPI transfers, MCU writes, DSI calls, `run_command` strings, `env_set` calls and decoded printouts are emitted as ordered traces.

Files:

- `wrappers.dfy`: `Option`.
- `fmt.dfy` (module `Fmt`): the text conversions the code relies on. These are `%d`, `%x` and `%02X`, `simple_strtoul(…, 10)` and `atoi`, with their round trips.
- `panel.dfy`: module `RockchipPanel`.
- `nbi.dfy`: module `Nbi`.
- `board.dfy`: module `NamtsoBoard`.

State that the C code updates in place is modelled as Dafny classes:

- `RockchipPanel.PanelCmds`: the descriptor array filled by the parser.
- `RockchipPanel.Panel`: the `prepared`/`enabled` flags.
- `RockchipPanel.DisplayGlobals`: `is_mipi_lcd_exit`, `namtso_mipi_id`, `namtso_mipi_id2` and `first_flag`.
- `Nbi.NbiState`: the `i2c_cur_bus` cache and the environment.
- `NamtsoBoard.Board`: the environment, the DWC3 `maximum_speed`, and whether `rkusb_force_to_usb2(true)` has been called.

Loops that update variables are methods with loop invariants. Examples are the two parser passes, the 9-step bit-bang loop, the senders and the do-while block read. Each method is proved equal to a specification function, and the properties are proved about those functions. Argument checking in `nbi` is a pure function from `argv` to an `Action`, as are the decision trees.

Where the U-Boot code's own headers are not part of this model, some constants are assumed:

- `CMD_TYPE_DEFAULT`, `CMD_TYPE_SPI` and `CMD_TYPE_MCU` are taken as 0, 1 and 2.
- `MCU_SETBYPASS` is taken as 2.
- The DSI data types are the MIPI DSI processor-to-peripheral codes.
- `CMD_RET_USAGE` is -1.

## Model

| member | source | states |
|---|---|---|
| Fmt.DecimalRoundTrip | cmd/nbi.c:157-160 | printing a byte with `%d` and reading it back with `simple_strtoul(…, 10)` gives the byte back |
| Fmt.AtoiOfDigit | cmd/nbi.c:802 | `atoi` of one decimal digit is that digit |
| Fmt.AtoiWithoutDigits | cmd/nbi.c:802 | `atoi` of a word with no digits is 0 |
| Fmt.Hex2UpperInjective | cmd/nbi.c:568 | the `%02X` rendering of a byte determines the byte |
| Fmt.HexRoundTrip | cmd/nbi.c:298 | the digits printed by `%x` read back as the value |
| Fmt.SplitAtSpace | cmd/nbi.c:298 | text that starts with a space-free word and a space splits uniquely at that space |
| RockchipPanel.GetPanelCmdType | drivers/video/drm/rockchip_panel.c:81-92 | no string gives -EINVAL; a "spi" prefix gives SPI; a "mcu" prefix gives MCU; anything else gives DEFAULT (each an iff) |
| RockchipPanel.ProbeCmdType | drivers/video/drm/rockchip_panel.c:685-689 | a missing `rockchip,cmd-type` gives DEFAULT; the result is always one of the three types |
| RockchipPanel.RecordCountEmpty | drivers/video/drm/rockchip_panel.c:102-111 | there are no records exactly when 3 bytes or fewer remain |
| RockchipPanel.RecordStride | drivers/video/drm/rockchip_panel.c:102-111 | the first record is at the start; each next record is at offset + 3 + payload length; after the last one at most 3 bytes remain |
| RockchipPanel.RecordsInOrder | drivers/video/drm/rockchip_panel.c:102-133 | records do not overlap and appear in blob order |
| RockchipPanel.DescriptorContents | drivers/video/drm/rockchip_panel.c:124-131 | descriptor i holds the three header bytes at its offset and a payload starting 3 bytes after it |
| RockchipPanel.ParsedSendable | drivers/video/drm/rockchip_panel.c:119-133 | every descriptor the parser stores meets what the sender of any command type reads (a first payload byte, and a declared length within the payload), provided DSI parameter sets fit their 128 bytes |
| RockchipPanel.ScanCmds | drivers/video/drm/rockchip_panel.c:102-111 | the first pass counts exactly the records; a blob of 3 bytes or fewer counts 0 |
| RockchipPanel.PanelCmds.ParseCmds | drivers/video/drm/rockchip_panel.c:94-136 | if the allocation succeeds, returns 0 with `cmd_cnt` descriptors equal to the blob's records in order; otherwise -ENOMEM and nothing stored |
| RockchipPanel.FillCmds | drivers/video/drm/rockchip_panel.c:119-133 | the second pass leaves the array holding exactly one descriptor per record, in blob order |
| RockchipPanel.ForceBit8 | drivers/video/drm/rockchip_panel.c:145-148 | bit 8 is set iff the data type is non-zero; bits 0..7 are those of the value |
| RockchipPanel.BitBangFrameShape | drivers/video/drm/rockchip_panel.c:138-164 | 29 GPIO events: CS low, then 9 SDI/SCL-low/SCL-high pulses carrying bits 8 down to 0 (bit 8 = data type non-zero), then CS high; no CS change in between |
| RockchipPanel.ForceDataFlag | drivers/video/drm/rockchip_panel.c:145-148 | the value after the flag step has bit 8 set iff the data type is non-zero, with bits 0..7 unchanged |
| RockchipPanel.WriteSpiCmds | drivers/video/drm/rockchip_panel.c:138-164 | the 9-step shifting loop emits exactly that frame |
| RockchipPanel.SpiWord | drivers/video/drm/rockchip_panel.c:214-216 | `((type?0x100:0) \| payload[0]) << 7` fits in 16 bits, has its low 7 bits zero, and carries mask + payload[0] above them |
| RockchipPanel.SendSpiCmd | drivers/video/drm/rockchip_panel.c:211-228 | one command is a single 9-bit controller transfer of the swapped word with a controller, and otherwise the bit-banged frame of its value |
| RockchipPanel.SwapBytes | drivers/video/drm/rockchip_panel.c:217 | the high and low bytes are exchanged |
| RockchipPanel.SwapBytesInvolutive | drivers/video/drm/rockchip_panel.c:217 | swapping twice is the identity |
| RockchipPanel.BitBangValue | drivers/video/drm/rockchip_panel.c:224-227 | the bit-banged value fits in 16 bits (two payload bytes when `payload_length == 2`, else one) |
| RockchipPanel.HwSpiTrace | drivers/video/drm/rockchip_panel.c:197-238 | with a controller: a failed claim returns -EINVAL and sends nothing; otherwise claim, one 9-bit transfer of the swapped word per command in order, release, return 0 |
| RockchipPanel.BitBangTraceAt | drivers/video/drm/rockchip_panel.c:223-229 | without a controller, command i's 29-event slice is its bit-bang frame |
| RockchipPanel.SendSpiCmds | drivers/video/drm/rockchip_panel.c:190-239 | no list gives -EINVAL and no events; otherwise the loop's return value and trace equal the SPI specification |
| RockchipPanel.SendMcuCmds | drivers/video/drm/rockchip_panel.c:166-188 | no list gives -EINVAL and no events; otherwise SETBYPASS 1, then (data type, payload[0]) per command in order, then SETBYPASS 0, returning 0 |
| RockchipPanel.DsiKind | drivers/video/drm/rockchip_panel.c:254-284 | each data type maps to compression mode, generic write, DCS write, parameter set or unsupported (each an iff over the codes) |
| RockchipPanel.DsiFailRet | drivers/video/drm/rockchip_panel.c:272-289 | the code returned for a failing command (unsupported type, failed allocation or host error) is negative |
| RockchipPanel.DsiAllSucceed | drivers/video/drm/rockchip_panel.c:250-295 | when every command succeeds, all are sent in order and 0 is returned |
| RockchipPanel.DsiFirstFailure | drivers/video/drm/rockchip_panel.c:280-289 | the first failing command's code is returned; the commands before it were sent in order, then at most the failing one |
| RockchipPanel.DsiZeroIff | drivers/video/drm/rockchip_panel.c:241-296 | the result is 0 iff every command succeeds |
| RockchipPanel.DsiCallOf | drivers/video/drm/rockchip_panel.c:254-279 | the call made for one supported command; a parameter set is the payload copied over a zeroed 128-byte buffer |
| RockchipPanel.SendDsiCmds | drivers/video/drm/rockchip_panel.c:241-296 | no list gives -EINVAL; otherwise the loop's result and trace equal the DSI specification |
| RockchipPanel.SendCmds | drivers/video/drm/rockchip_panel.c:356-367 | dispatches on the command type to the SPI, MCU or DSI sender |
| RockchipPanel.LcdExitPanelPresent | drivers/video/drm/rockchip_panel.c:325-328 | a display-on power mode sets bit `vpx_id` of the mask and runs no command |
| RockchipPanel.LcdExitDsi0Disabled | drivers/video/drm/rockchip_panel.c:330-337 | on VP2 without a TS101 panel, the mask is ANDed with 0xb and the four dsi0 `fdt set … disable` commands run |
| RockchipPanel.LcdExitDsi1Disabled | drivers/video/drm/rockchip_panel.c:338-345 | on VP3 without a TS101 second panel, the mask is ANDed with 0x7 and the four dsi1 commands run |
| RockchipPanel.LcdExitUnchanged | drivers/video/drm/rockchip_panel.c:329-346 | in every other case the mask is unchanged and nothing runs |
| RockchipPanel.LcdExitIdempotent | drivers/video/drm/rockchip_panel.c:324-347 | applying the update twice gives the same mask as once |
| RockchipPanel.KbiI2cRead | drivers/video/drm/rockchip_panel.c:506-535 | -ENODEV without the bus, else the chip-lookup error, else the read error, else the byte |
| RockchipPanel.KbiI2cReadSucceeds | drivers/video/drm/rockchip_panel.c:527-534 | with negative error codes, the result is non-negative iff the read succeeds, and is then the byte (< 256) |
| RockchipPanel.PanelIdRule | drivers/video/drm/rockchip_panel.c:562-605 | TP05 id 0x51 gives id 1, 0x79 gives id 3; otherwise TP10 is read and 0x00 gives 2, else 0; only 0x79 selects `panel-init-sequence2` (each an iff) |
| RockchipPanel.PanelIdOnReadErrors | drivers/video/drm/rockchip_panel.c:564-602 | when the TP05 cannot be read, the TP10 is read, the first init sequence is chosen, and id 2 results exactly when the TP10 read succeeds with 0x00 |
| RockchipPanel.DisplayGlobals.SelectPanelId | drivers/video/drm/rockchip_panel.c:559-611 | id 4 skips detection; otherwise it reads the touch controllers on bus 0 (first call) or bus 6, stores the id in `namtso_mipi_id` or `namtso_mipi_id2`, and picks the init-sequence property by the panel-id rule; `first_flag` flips on every call |
| RockchipPanel.DisplayGlobals.ProbeLcd | drivers/video/drm/rockchip_panel.c:324-354 | unless id 4, reads the power mode and updates `is_mipi_lcd_exit` per the mask rule; nothing else changes |
| RockchipPanel.PowerOffMirrorsPowerOn | drivers/video/drm/rockchip_panel.c:311-315 | power-off (GPIO low, then regulator to `power_invert`) undoes power-on (regulator to `!power_invert`, then GPIO high) in reverse order |
| RockchipPanel.Panel.Prepare | drivers/video/drm/rockchip_panel.c:300-371 | a no-op when prepared; otherwise regulator, then enable GPIO, then the LCD probe, then the on-commands; afterwards `prepared` is set |
| RockchipPanel.Panel.Unprepare | drivers/video/drm/rockchip_panel.c:373-409 | a no-op when not prepared; otherwise off-commands, then GPIO low, then regulator; afterwards `prepared` is clear |
| RockchipPanel.Panel.Enable | drivers/video/drm/rockchip_panel.c:411-426 | a no-op when enabled; otherwise backlight on if present; afterwards `enabled` is set |
| RockchipPanel.Panel.Disable | drivers/video/drm/rockchip_panel.c:428-443 | a no-op when not enabled; otherwise backlight off if present; afterwards `enabled` is clear |
| Nbi.ReadReg | cmd/nbi.c:135-164 | on success the register byte unchanged; on failure the I2C error code |
| Nbi.ReadRegRange | cmd/nbi.c:135-164 | with negative error codes, the result is in 0..255 iff the read succeeds |
| Nbi.NbiState.ChipRead | cmd/nbi.c:103-133 | bus 1 is looked up only while no bus is cached, and is cached once found; then the chip lookup and read |
| Nbi.NbiState.I2cRead | cmd/nbi.c:135-164 | returns the register-read specification and updates the bus cache |
| Nbi.BlockReadSlots | cmd/nbi.c:166-198 | for `count >= 1`, slot k holds register start+k when that read succeeds and keeps its old byte otherwise; later slots are untouched |
| Nbi.BlockReadNonPositive | cmd/nbi.c:178-197 | since the loop is a do-while, `count <= 0` still reads register `start` into `val[0]` and nothing else |
| Nbi.NbiState.I2cReadBlock | cmd/nbi.c:166-198 | the do-while loop leaves the array equal to the block-read specification |
| Nbi.MwCmdFields | cmd/nbi.c:593-598 | for every register and value, the command is `i2c mw 18 `, then the register in hex up to the first space, then the value in decimal followed by ` 1`; the register word reads back as the register, and `simple_strtoul` of the value word gives the value |
| Nbi.MwCmdInjective | cmd/nbi.c:593-598 | an `i2c mw` command names exactly one register and one value |
| Nbi.MdioWordValueWide | cmd/nbi.c:259-264 | when the low byte is 0x10 or more, the `0x%x%x` digits denote hi·256 + lo |
| Nbi.MdioWordValueNarrow | cmd/nbi.c:259-264 | when the low byte is below 0x10, they denote only hi·16 + lo |
| Nbi.MdioWordAmbiguous | cmd/nbi.c:259-260 | the MAC pairs (0x01, 0x23) and (0x12, 0x03) produce the same MDIO command |
| Nbi.MdioWordPaddedValue | cmd/nbi.c:259-264 | with the low byte padded to two digits, the digits after `0x` denote hi·256 + lo for every pair of bytes (corrected definition, see Findings) |
| Nbi.MdioWordPaddedInjective | cmd/nbi.c:259-264 | a padded MDIO word determines both MAC bytes it carries |
| Nbi.MdioWordAsPadded | cmd/nbi.c:259-264 | the `0x%x%x` word equals the padded one iff the low byte is 0x10 or more |
| Nbi.MacWordsAsIntended | cmd/nbi.c:259-264 | the three MAC words `set_wol` prints are the intended padded ones iff MAC bytes 0, 2 and 4 are all 0x10 or more |
| Nbi.UsidSerialShape | cmd/nbi.c:562-571 | the serial is 12 characters, with the two `%02X` digits of byte k at positions 2k and 2k+1 |
| Nbi.UsidSerialInjective | cmd/nbi.c:568 | the serial determines the six USID bytes |
| Nbi.LedModeNamed | cmd/nbi.c:705-712 | a recognised LED mode word gives a mode number 0..3 |
| Nbi.LedModeName | cmd/nbi.c:641-668 | the readback shows a mode name iff the value is 0..3 |
| Nbi.LedModeRoundTrip | cmd/nbi.c:641-668 | a mode written by name reads back as the same name |
| Nbi.BootModeNamed | cmd/nbi.c:623-630 | emmc gives 1, spi gives 0, sd gives 2, anything else nothing (each an iff) |
| Nbi.BootModeName | cmd/nbi.c:600-614 | the readback names a mode iff the value is 0, 1 or 2 |
| Nbi.BootModeRoundTrip | cmd/nbi.c:600-639 | a boot mode written by name reads back as the same name |
| Nbi.WolValueBits | cmd/nbi.c:447-452 | the WOL write value is below 4, has bit 0 equal to the requested enable, and keeps bit 1 of the current register |
| Nbi.WolMacFromVendor | cmd/nbi.c:227-257 | when the MAC switch is not 1: a failed `vendor_storage_init` gives no MAC; six non-zero bytes from vendor storage are used; otherwise the MCU block read over the vendor buffer |
| Nbi.SetWolShape | cmd/nbi.c:211-301 | arming with a MAC gives 30 commands: the 0xd8c page select, the three MAC words (pairs (1,0), (3,2), (5,4) printed `0x%x%x`), and finally `i2c dev 1` and the WOL register write; if vendor storage fails, only the 4 prologue writes run and the register is never written |
| Nbi.WolWriteEnv | cmd/nbi.c:200-209 | after `trigger wol w <e>`, `wol_enable` is "1" iff the register read before the write has bit 0 set |
| Nbi.UnknownSubCommand | cmd/nbi.c:857-874 | a missing or unknown sub-command is a usage error |
| Nbi.BootmodeWrites | cmd/nbi.c:616-639 | `bootmode` writes register 0x20 iff given `w` and emmc/spi/sd, with 1/0/2; every other form reads or is a usage error |
| Nbi.TriggerWrites | cmd/nbi.c:468-547 | `trigger <name> w <v>` writes iff the name is known and v is exactly "0" or "1"; any other v is a usage error before anything happens; `r` reads iff the name is known |
| Nbi.LedWrites | cmd/nbi.c:693-758 | `led` writes the target's register (0x29/0x28/0x2A) with the mode number iff target, `w` and mode word are valid; a second word that is neither r nor w returns 0 and does nothing |
| Nbi.FanLevelWrites | cmd/nbi.c:796-810 | `fan_level_set` writes 0x82 with `atoi(argv[2])` iff it is 0..9; otherwise a usage error |
| Nbi.FanLevelDigit | cmd/nbi.c:796-810 | a single digit is accepted as that fan level |
| Nbi.ResetSysWrites | cmd/nbi.c:776-794 | `reset_sys` writes 0x81 iff the argument is "0".."3", with that number; otherwise a usage error |
| Nbi.ResetConfWrites | cmd/nbi.c:760-774 | `reset_conf` writes 0 for "0" and 0xF0 for "f0"; otherwise a usage error |
| Nbi.SwitchmacWrites | cmd/nbi.c:404-427 | `switchmac w` accepts exactly "0" and "1", as that mode |
| Nbi.NbiState.GetWol | cmd/nbi.c:200-209 | reads the WOL register, reports it when asked, and sets `wol_enable` to bit 0 |
| Nbi.NbiState.WolMacRead | cmd/nbi.c:214-257 | the MAC selection over a zeroed six-byte buffer equals the MAC-source specification |
| Nbi.NbiState.SetWol | cmd/nbi.c:211-301 | the commands run equal the WOL specification (MAC words printed `0x%x%x`, as written); the environment is unchanged |
| Nbi.NbiState.DoVersion | cmd/nbi.c:549-560 | reports the two bytes block-read from 0x19 into a zeroed buffer |
| Nbi.NbiState.DoUsid | cmd/nbi.c:562-571 | reports the `%02X` serial of the six bytes from 0x12 and sets `usid` to it |
| Nbi.NbiState.ExecuteRegRead | cmd/nbi.c:303-445 | the one-register reads (boot mode, sys status, switch mac, LED, triggers) report, and set the environment, as specified |
| Nbi.NbiState.ExecuteWolWrite | cmd/nbi.c:447-452 | `get_wol(false)` then `set_wol(false, enable \| (state & 2))` |
| Nbi.NbiState.ExecuteWrite | cmd/nbi.c:367-374 | the single-command actions run their `i2c mw` command; `switchmac w` sets `switch_mac` to "1" iff the mode is 1 |
| Nbi.NbiState.Execute | cmd/nbi.c:404-839 | carries out a checked action: trace as specified, environment from its `env_set` calls, bus cached iff the action reads the MCU and the bus is found |
| Nbi.NbiState.DoNbi | cmd/nbi.c:857-874 | returns `CMD_RET_USAGE` iff the command line is refused, and otherwise carries out the sub-command |
| NamtsoBoard.Tp05Ids | board/namtso/namtso-a10-3588/namtso-a10-3588.c:113-122 | a TP05 id of 0x51 gives "ts050" and 0x79 gives "newts050" |
| NamtsoBoard.Tp05OtherId | board/namtso/namtso-a10-3588/namtso-a10-3588.c:113-125 | any other TP05 id leaves `lcd_panel` alone, and TP10 is not probed |
| NamtsoBoard.Tp10Probe | board/namtso/namtso-a10-3588/namtso-a10-3588.c:125-138 | TP10 is probed iff the TP05 lookup or read fails; then id 0x00 gives "ts101", a failed read gives "null", and a missing chip or other id gives nothing |
| NamtsoBoard.NoTouchBus | board/namtso/namtso-a10-3588/namtso-a10-3588.c:108-112 | without bus 0 nothing is probed or set |
| NamtsoBoard.LcdPanelNames | board/namtso/namtso-a10-3588/namtso-a10-3588.c:113-138 | the value is one of ts050/newts050/ts101/null, and "null" exactly when TP10 is found, TP05 failed and the TP10 read fails |
| NamtsoBoard.Board.RkBoardInit | board/namtso/namtso-a10-3588/namtso-a10-3588.c:91-142 | returns 0 after the seven GPIO commands; the chips probed, ids read and `lcd_panel` update follow the detection rule |
| NamtsoBoard.Board.BoardUsbInit | board/namtso/namtso-a10-3588/namtso-a10-3588.c:53-79 | returns `dwc3_uboot_init`'s result; a PHY failure forces USB2 and HighSpeed, in both builds |
| NamtsoBoard.UsbFallback | board/namtso/namtso-a10-3588/namtso-a10-3588.c:70-75 | without USBPLUG, from SuperSpeed a PHY failure gives HighSpeed and success keeps SuperSpeed; SuperSpeed requires a successful PHY init |
| NamtsoBoard.UsbFallbackSticky | board/namtso/namtso-a10-3588/namtso-a10-3588.c:71-75 | without USBPLUG, a later successful call after a failure stays at HighSpeed, because nothing resets the speed |

## Left out

- Timing: `mdelay`/`udelay` and the panel delays are not modelled.
- Printed text: `printf`/`puts` wording is reduced to decoded reports (`Nbi.Report`), or dropped.
- Driver-model lookups (`uclass_*`, `i2c_get_chip`, `spi_setup_slave`), the GPIO requests and the rest of `rockchip_panel_probe` are inputs or not modelled. The same goes for vendor-storage internals, the DWC3 calls, `usb_reset_otg_controller`'s MMIO writes and `usb_gadget_handle_interrupts`. Shell commands appear only as the strings passed to `run_command`, never executed.
- U-Boot's `find_cmd_tbl` is not part of this model. Sub-commands are found by exact name, so abbreviated names are not modelled.
- The top-level `maxargs` of 6 in `U_BOOT_CMD` is enforced by U-Boot's command dispatcher, which is not part of this model.
- `rockchip_panel_ofdata_to_platdata`'s other property reads (delays, bus format, bpc, power-invert) and its `calloc`/`free` error unwinding are not modelled. The panel-id choice, the property it selects and `parse_cmds` are.
- DSC picture-parameter-set contents are not interpreted: the parameter set is modelled as 128 opaque bytes.
- RockchipPanel.PanelCmds.ParseCmds: requires that no record's payload runs past the end of the blob. On such a blob the C loop reads out of bounds, because `len` is an `int` compared against a `size_t`.
- RockchipPanel.SendDsiCmds: requires a picture parameter set's payload length to be at most 128. The C `memcpy` does not check this and would overflow the `kzalloc`ed structure.
- RockchipPanel.SendSpiCmds: the controller path ignores `spi_xfer` failures, as the C code does (it only prints them). MCU writes have no modelled return value.
- Nbi.SubArgvReadable: `reset_conf`, `reset_sys` and `fan_level_set` read `argv[2]` of the stripped argument vector without checking that it exists (their `argc < 1` guard never fires). The model requires that argument to be present.
- MCU defaults: registers absent from the map read as 0, and `dm_i2c_read` results absent from the map are 0 (success).
- Nbi.MwCmdFields: U-Boot's `i2c mw` command parses its own arguments and is not part of this model. The lemma reads the value word back as decimal, as `%d` printed it. If `i2c mw` reads its value in hexadecimal, as mainline U-Boot does, then decimal values above 9 (the 240 of `reset_conf f0`) are reinterpreted; that cannot be decided here.
- Fmt.Atoi: overflow of C `atoi` on very long digit strings is not modelled; the value is the mathematical one.
- NamtsoBoard.Board.BoardUsbInit: both builds (with and without `CONFIG_SUPPORT_USBPLUG`) are modelled through a parameter, because the board configuration header does not choose one. `board_usb_cleanup` only calls `dwc3_uboot_exit` and is not modelled.

## Findings

| source | as written | input that shows it | evidently intended | confidence | as-written member | corrected member |
|---|---|---|---|---|---|---|
| cmd/nbi.c:259-264 | `set_wol` prints each MAC byte pair as `0x%x%x`, so a low byte below 0x10 loses its leading zero | the pairs (0x12, 0x03) and (0x01, 0x23) both print `0x123`, which programs 0x0123 into the PHY word | `0x%x%02x`, so the word is hi·256 + lo | high, not executed | Nbi.MdioWord, Nbi.MdioWordAmbiguous, Nbi.MdioWordValueNarrow | Nbi.MdioWordPadded, Nbi.IntendedMacWords, Nbi.MdioWordPaddedValue, Nbi.MdioWordPaddedInjective |

The WOL model (`Nbi.MacWords`, `Nbi.SetWolCmds`, `Nbi.NbiState.SetWol` and everything built on them) runs the words as written. The corrected half is kept beside it: `Nbi.IntendedMacWords`, with `Nbi.MdioWordAsPadded` and `Nbi.MacWordsAsIntended` stating exactly when the two agree.
