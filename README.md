# IMX377 sensor driver controller, modelled in Dafny

This project models the sequential controller inside the Sony IMX377 V4L2
camera-sensor driver (`imx377.c`). It proves, for every possible behaviour
of the environment, what the controller does to the sensor, the supplies,
the control lines and the bus.

The environment (`Hardware.Env`) has three regulators (dvdd, avdd, dovdd)
and an input clock. It may or may not have a reset line and a power-down
line. Its I2C transport reports a count or a negative status for each
transaction. What the environment answers comes from an oracle: a function
of the trace of every earlier request. That makes "the clock fails to
enable after the three supplies came up" and "the second write of the
start sequence is short" expressible, and lets every property quantify
over all failure patterns.

The model has two layers:

- `Sensor` states each driver operation as a function from the state
  before (the driver's `streaming` flag and current mode, plus the
  environment's enabled set, line levels and trace) to the state after and
  the returned status. The properties the driver promises are proved as
  lemmas about these functions.
- `Driver.Imx377` is the driver object: a class with those fields. Its
  methods step through the same calls as the C functions, in the same
  order, including the goto ladder of power-up. Each method is proved to
  produce exactly the state and status of its `Sensor` function.

The pure parts are in their own modules:

- `Registers`: register framing and the count-to-status mapping.
- `Controls`: control byte splitting.
- `SignedOr`: the C `|` on two `int` statuses.
- `Modes`: the fixed mode and the format report.

Unsigned shifts and masks on non-negative values are written as division
and remainder. `ret |= ...` is modelled bit by bit on the 32-bit two's
complement pattern.

Behaviour of the code worth noting:

- Start and stop have no "already streaming" / "not streaming" guard.
  `Sensor.StartWhileStreamingCanPowerDown` shows a second start whose
  first write fails: it runs power-down, so reset goes to 0, while the
  flag still says streaming. In the model the supplies then read as off.
  Under the kernel's regulator and clock reference counting the second
  start's enables raise each count to two, so the rails and the clock
  would stay on and only the reset and power-down lines change.
  `Sensor.StopAlwaysTearsDown` shows stop writing and powering down from
  any state.
- `set_ctrl` has no range check of its own. The control framework
  refuses or clamps out-of-range values before the driver is called, so
  the range is a precondition (`Controls.InRange`).
- `set_ctrl` issues the low-byte write even when the high-byte write
  failed.
- Its result is the bitwise OR of the two statuses, not the first error.
  Two different errnos can combine to a third one
  (`SignedOr.OrStatusMixesErrnos`).

## Model

| member | source | states |
|---|---|---|
| Sensor.WriteReg | imx377.c:85-90 | a register write appends one send of the write frame and changes nothing else; its status is never positive and is 0 exactly when the send reported 3 bytes |
| Sensor.ReadReg | imx377.c:92-101 | a register read appends one transfer of the address frame and changes nothing else; its value is the byte read; its status is never positive and is 0 exactly when 2 messages were reported |
| Sensor.PowerOn | imx377.c:107-137 | power-up never changes the flag or the mode and only extends the trace; on success everything is on and the lines are set (fully powered); on failure nothing new is on and the lines are untouched |
| Sensor.PowerOnAfterDvdd | imx377.c:113-137 | the rung after dvdd: on success avdd, dovdd and the clock are on and the lines are set; on failure dvdd is off again, nothing new is on, and the lines are untouched |
| Sensor.PowerOnAfterAvdd | imx377.c:115-133 | the rung after avdd: on success dovdd and the clock are on; on failure avdd is off again and nothing new is on |
| Sensor.PowerOnAfterDovdd | imx377.c:118-131 | the rung after dovdd: on success the clock is on, reset is 1 and power-down 0 where present; on failure dovdd is off again and nothing new is on |
| Sensor.PowerOnReference | imx377.c:107-137 | the step-free description of power-up: it returns 0 exactly when all four leading enables succeed, and never changes the flag or the mode |
| Sensor.PowerOff | imx377.c:139-150 | power-down leaves all four resources off and reset 0, power-down 1 where present, never changes the flag or the mode, and only extends the trace |
| Sensor.StartStreaming | imx377.c:156-181 | start keeps the mode; on 0 the sensor is streaming and fully powered; on failure the flag keeps its value |
| Sensor.StopStreaming | imx377.c:183-189 | stop always clears the flag, keeps the mode, and leaves all four resources off |
| Sensor.SetCtrl | imx377.c:195-218 | a control request only extends the trace; while not streaming it changes nothing and returns 0 |
| Sensor.SetFmt | imx377.c:243-251 | set_fmt installs the default mode, keeps the flag and the trace, and reports 4056x3040 SRGGB12, NONE, RAW |
| Modes.Report | imx377.c:235-239 | the report carries the mode's width, height and code with field NONE and colorspace RAW, and keeps the request's other fields |
| Modes.DefaultModeValues | imx377.c:51-58 | the default mode is 4056x3040 SRGGB12 with line length 0x0172, frame length 0x0CB2 and a 576 MHz link |
| Controls.InRange | imx377.c:305-308 | the registered ranges; an in-range exposure or gain value fits the 16 bits of its register pair |
| Controls.ExposureHigh | imx377.c:207 | `(v >> 8) & 0xFF` is the high byte of the low 16 bits of `v` |
| Controls.GainHigh | imx377.c:213 | `(v >> 8) & 0x07` is below 8 and is the high part of the low 11 bits of `v` |
| Controls.LowByte | imx377.c:208 | `v & 0xFF` differs from `v` by a multiple of 0x100 |
| Hardware.ReverseKeepsMembers | imx377.c:130-135 | reversing is an involution and keeps the members, so the rollback disables exactly the resources enabled |
| Registers.AddressOf | imx377.c:87 | the big-endian address carried by a frame's first two bytes: high byte first, then low byte |
| Registers.AddressFrame | imx377.c:96 | the read address frame has two bytes and decodes back to the register |
| Registers.WriteFrame | imx377.c:87 | a write frame has three bytes: it decodes to the register, its last byte is the value, and its first two bytes are the address frame |
| Registers.WriteFrameBytes | imx377.c:87 | the bytes of a write are exactly `[reg >> 8, reg & 0xff, val]` |
| Registers.AddressFrameRoundTrip | imx377.c:87 | encoding the decoded address of any frame gives back its first two bytes |
| Registers.WriteFrameInjective | imx377.c:87 | two writes with the same bytes on the bus have the same register and value |
| Registers.TransferStatus | imx377.c:89-100 | 0 exactly when the transport reports the full count (3 bytes or 2 messages); a negative transport status passes through unchanged; any other count gives `-EIO`; never positive |
| SignedOr.BitOrFacts | imx377.c:207-214 | OR on n-bit values stays in n bits, is at least each operand, is zero only for two zeros, has zero as identity and is idempotent |
| SignedOr.BitOrAllOnes | imx377.c:208 | OR with an all-ones word is all ones |
| SignedOr.OrStatus | imx377.c:207-214 | the C OR of two int statuses is 0 exactly when both are 0; it is the other status when one is 0; a negative operand makes it negative and no smaller than that operand; equal statuses combine to themselves |
| SignedOr.OrStatusMixesErrnos | imx377.c:207-208 | `-5` OR `-2` is `-1`: two failed writes can report an errno neither returned |
| Controls.ExposureSplit | imx377.c:207-208 | the exposure high byte `(v >> 8) & 0xFF` and low byte `v & 0xFF` recombine, high first, to `v` mod 2^16 |
| Controls.GainSplit | imx377.c:213-214 | the gain high bits `(v >> 8) & 0x07` and low byte recombine to `v` mod 2^11 |
| Controls.SplitLosesNothingInRange | imx377.c:305-308 | within the registered ranges (gain 0..0x7A5, exposure 1..0xFFFF) the two bytes written recombine to exactly the control value, and the gain high part fits in 3 bits |
| Modes.ReportDefault | imx377.c:51-58 | reporting the default mode gives 4056x3040, SRGGB12, field NONE, colorspace RAW whatever was requested, and keeps every other field of the request |
| Modes.ReportIgnoresRequest | imx377.c:233-240 | what get_fmt reports depends only on the mode, and reporting into an already-reported format changes nothing |
| Hardware.EnabledCount | imx377.c:111-119 | the number of leading resources whose enable succeeds: every earlier enable answered 0, and unless all succeeded the next answered an error |
| Hardware.RollbackEvents | imx377.c:130-136 | after `k` successful enables and a failed one, the resource enabled i-th is disabled i-th from the end, and no line change or bus transaction occurs |
| Hardware.PowerOffEventsSpelled | imx377.c:141-149 | power-down events: the line changes, then clock, dovdd, avdd and dvdd disabled in that order |
| Sensor.WriteRegIsOneFrame | imx377.c:85-90 | a register write is one transaction of `[reg >> 8, reg & 0xff, val]`, succeeds iff 3 bytes are reported, passes a negative status through, maps a short count to `-EIO`, and changes only the trace |
| Sensor.ReadRegIsOneTransfer | imx377.c:92-101 | a register read is one transfer naming the register high byte first; its value is the byte read; it succeeds iff 2 messages are reported, with the same error mapping |
| Sensor.PowerOnMeetsReference | imx377.c:107-137 | the goto ladder equals the reference description: with n the count of leading enables that succeed, either all four succeed, or exactly the first n are disabled again in reverse order and the failing status is returned |
| Sensor.PowerOnSucceedsIff | imx377.c:111-128 | power-up returns 0 exactly when each of the four enables, issued in order, answers 0 |
| Sensor.PowerOnSuccess | imx377.c:111-128 | on success: dvdd, avdd, dovdd and the clock are enabled in that order, then reset goes to 1 and power-down to 0 (each if present), then the wait; everything is enabled; no bus traffic |
| Sensor.PowerOnRollback | imx377.c:111-136 | on failure at step k: that step's status is returned, the earlier steps all succeeded, and the trace is their enables, the failed enable, and their disables in reverse order; no line change, no bus traffic |
| Sensor.PowerOnRollbackKeeps | imx377.c:130-136 | after a failed power-up the resources of the steps before k are off, the others as before, and the line levels and driver state are unchanged |
| Sensor.PowerOffUnconditional | imx377.c:139-150 | power-down always sets reset to 0 and power-down to 1 (if present), then disables the clock, dovdd, avdd, dvdd, the reverse of power-up; nothing is left enabled; no bus traffic; the driver state is unchanged |
| Sensor.StartOnlyInFull | imx377.c:156-181 | start returns 0 iff power-up succeeded and both `0x3000 <- 0x00` and `0x0100 <- 0x01` were fully sent; the flag is set then and otherwise keeps its value |
| Sensor.StartSuccess | imx377.c:165-176 | a successful start leaves the sensor streaming and fully powered; its only bus traffic is the two writes, in order |
| Sensor.StartPowerFailure | imx377.c:160-162 | when power-up fails, start returns power-up's outcome: no bus write and no power-down |
| Sensor.StartWriteFailure | imx377.c:165-180 | when a start write fails: the later write is skipped, power-down runs exactly once after it, nothing stays enabled, the flag keeps its value and the write's status is returned |
| Sensor.StartWhileStreamingCanPowerDown | imx377.c:156-181 | with no guard against streaming, a second start whose first write fails powers down (reset 0, nothing enabled) while the flag still says streaming |
| Sensor.StopAlwaysTearsDown | imx377.c:183-189 | stop writes `0x0100 <- 0x00` from any state, clears the flag, powers down unconditionally and returns the write's status |
| Sensor.SetCtrlDropped | imx377.c:201-216 | while not streaming, or for a control other than exposure and gain, a control request returns 0 and changes nothing |
| Sensor.SetCtrlExposure | imx377.c:205-209 | while streaming, exposure is two writes, 0x300B then 0x300C, whose bytes recombine to the value; the second is issued whatever the first returned; 0 iff both succeed; only the trace changes |
| Sensor.SetCtrlGain | imx377.c:211-215 | while streaming, gain is two writes, 0x3009 (3 bits) then 0x300A, recombining to the value; 0 iff both succeed |
| Sensor.SetCtrlExposureThousand | imx377.c:207-208 | exposure 1000 writes 0x03 to 0x300B, then 0xE8 to 0x300C |
| Sensor.SetCtrlChangesOnlyTrace | imx377.c:195-218 | a control request never changes the flag, the mode, the power state or the lines |
| Sensor.SetFmtFixedMode | imx377.c:243-251 | whatever was requested, set_fmt installs the default mode and reports 4056x3040 SRGGB12, NONE, RAW, and a later get_fmt reports the same values |
| Sensor.StreamingImpliesPowered | imx377.c:156-189 | a start from a stopped sensor turns the flag on only with success and full power, and stop always clears it |
| Driver.Imx377.constructor | imx377.c:278-301 | after probe: not streaming, the default mode, nothing enabled, reset low and power-down high (the lines are requested as output low and output high), no events; the invariant `Valid` (the mode is the default) holds, and every operation keeps it |
| Driver.Imx377.EnableResource | imx377.c:111-118 | an enable returns the oracle's answer, records it, and marks the resource enabled only on 0 |
| Driver.Imx377.DisableResource | imx377.c:131-135 | a disable is recorded and the resource is off |
| Driver.Imx377.SetLineLevel | imx377.c:121-124 | a line set is recorded and changes only that line's level |
| Driver.Imx377.SleepRange | imx377.c:127 | the wait is recorded and changes nothing else |
| Driver.Imx377.I2cMasterSend | imx377.c:88 | a send returns the oracle's count and is recorded |
| Driver.Imx377.I2cTransfer | imx377.c:99 | a transfer returns the oracle's count and byte and is recorded |
| Driver.Imx377.WriteReg | imx377.c:85-90 | the write method has exactly the outcome given by `Sensor.WriteReg`, whose properties are in `Sensor.WriteRegIsOneFrame` |
| Driver.Imx377.ReadReg | imx377.c:92-101 | the read method has exactly the outcome and value given by `Sensor.ReadReg` |
| Driver.Imx377.PowerOn | imx377.c:107-137 | the ladder method has exactly the outcome of `Sensor.PowerOn`, so the order, rollback and success properties above hold of it |
| Driver.Imx377.PowerOff | imx377.c:139-150 | the power-down method has exactly the state of `Sensor.PowerOff` (see `Sensor.PowerOffUnconditional`) |
| Driver.Imx377.StartStreaming | imx377.c:156-181 | the start method has exactly the outcome of `Sensor.StartStreaming` |
| Driver.Imx377.StopStreaming | imx377.c:183-189 | the stop method has exactly the outcome of `Sensor.StopStreaming` |
| Driver.Imx377.SetCtrl | imx377.c:195-218 | the control method has exactly the outcome of `Sensor.SetCtrl` |
| Driver.Imx377.GetFmt | imx377.c:228-241 | get_fmt returns 0, changes nothing, reports the current mode into the request, and, under the invariant that the mode is the default one, always reports 4056x3040 SRGGB12, NONE, RAW |
| Driver.Imx377.SetFmt | imx377.c:243-251 | set_fmt returns 0, installs the default mode and reports it |

## Left out

- Probe and remove are not modelled: V4L2 subdevice, media-entity and
  control-handler registration, device-managed allocation, and the
  `-EPROBE_DEFER` return when a regulator or the clock cannot be looked
  up. The constructor models only the fields probe initialises.
- The mutex is initialised but never taken, so there is no locking to
  model.
- `usleep_range` is a trace marker with its bounds; `clk_set_rate` is not
  modelled; no timing is modelled.
- Regulator reference counting is not modelled: a resource is on or off,
  and a disable turns it off. A line's level is a number, with no
  electrical meaning.
- The I2C adapter, regulators and clock are an oracle over the trace. What
  a failed read leaves in the output byte is whatever the oracle returns.
- Driver.Imx377.SetCtrl: requires `Controls.InRange`. Out-of-range values
  are refused or clamped by the control framework before the driver runs, so the
  model does not say what the masks do to them.
- The per-mode register table (a TODO in the source) and `.s_stream` (NULL)
  do not exist in the code; start and stop are modelled as methods.
- The VMAX/HMAX register addresses are declared but never written by the
  code; they appear only as constants.
- The numeric values of `MEDIA_BUS_FMT_SRGGB12_1X12`, `V4L2_FIELD_NONE`,
  `V4L2_COLORSPACE_RAW` and `EIO` come from the kernel headers, which are
  not part of this model.
