/** The driver object: its fields, the environment calls it makes, and its
    operations, each proved to do to the state what `Sensor` says. */
module Driver {
  import opened Registers
  import opened Controls
  import opened SignedOr
  import opened Modes
  import opened Hardware
  import Sensor

  class Imx377 {
    /** The environment the sensor is wired to, and its answers. */
    const env: Env

    var streaming: bool
    var curMode: Mode
    /** The resources currently enabled (one boolean per resource). */
    var enabled: set<Resource>
    var resetLevel: int
    var pwdnLevel: int
    /** Every request made of the environment so far, with its answer. */
    var trace: seq<Event>

    function State(): Sensor.State
      reads this
    {
      Sensor.State(streaming, curMode, enabled, resetLevel, pwdnLevel, trace)
    }

    /** The driver's invariant: the current mode is the one mode there is,
        as probe installs it and every operation keeps or reinstalls it. */
    predicate Valid()
      reads this
    {
      curMode == DefaultMode
    }

    /** The fields as probe leaves them: zeroed, the default mode installed,
        reset requested low and power-down high. */
    constructor (env: Env)
      ensures this.env == env && State() == Sensor.Initial && Valid()
    {
      this.env := env;
      streaming := false;
      curMode := DefaultMode;
      enabled := {};
      resetLevel := 0;
      pwdnLevel := 1;
      trace := [];
    }

    // ------------------------------------------------ environment calls

    /** `regulator_enable` or, for the clock, `clk_prepare_enable`. */
    method EnableResource(r: Resource) returns (ret: I32)
      modifies this
      ensures ret == env.enable(old(trace), r)
      ensures State() == Sensor.WithEnable(old(State()), r, ret)
    {
      ret := env.enable(trace, r);
      trace := trace + [Enable(r, ret)];
      if ret == 0 {
        enabled := enabled + {r};
      }
    }

    /** `regulator_disable` or, for the clock, `clk_disable_unprepare`. */
    method DisableResource(r: Resource)
      modifies this
      ensures State() == Sensor.WithDisable(old(State()), r)
    {
      trace := trace + [Disable(r)];
      enabled := enabled - {r};
    }

    /** `gpiod_set_value_cansleep` on a line that is present. */
    method SetLineLevel(line: Line, level: int)
      requires line == Reset ==> env.hasReset
      requires line == Pwdn ==> env.hasPwdn
      modifies this
      ensures State() == Sensor.WithLine(old(State()), line, level)
    {
      trace := trace + [SetLine(line, level)];
      if line == Reset {
        resetLevel := level;
      } else {
        pwdnLevel := level;
      }
    }

    /** `usleep_range`: only its place in the trace is modelled. */
    method SleepRange(minUs: nat, maxUs: nat)
      modifies this
      ensures State() == Sensor.WithEvent(old(State()), Sleep(minUs, maxUs))
    {
      trace := trace + [Sleep(minUs, maxUs)];
    }

    /** `i2c_master_send`: one write transaction; the answer is the count
        sent or a negative status. */
    method I2cMasterSend(bytes: seq<Byte>) returns (count: I32)
      modifies this
      ensures count == env.send(old(trace), bytes)
      ensures State() == Sensor.WithEvent(old(State()), Send(bytes, count))
    {
      count := env.send(trace, bytes);
      trace := trace + [Send(bytes, count)];
    }

    /** `i2c_transfer` of an address write and a one-byte read; the answer
        is the number of messages done or a negative status, and the byte. */
    method I2cTransfer(addr: seq<Byte>) returns (count: I32, data: Byte)
      modifies this
      ensures (count, data) == env.transfer(old(trace), addr)
      ensures State() == Sensor.WithEvent(old(State()), Transfer(addr, count, data))
    {
      var answer := env.transfer(trace, addr);
      count, data := answer.0, answer.1;
      trace := trace + [Transfer(addr, count, data)];
    }

    // -------------------------------------------------------------- bus

    method WriteReg(reg: U16, val: Byte) returns (ret: I32)
      modifies this
      ensures Sensor.Outcome(State(), ret) == Sensor.WriteReg(env, old(State()), reg, val)
    {
      var buf := [reg / 0x100, reg % 0x100, val];
      WriteFrameBytes(reg, val);
      var count := I2cMasterSend(buf);
      ret := if count == 3 then 0 else if count < 0 then count else -EIO;
    }

    method ReadReg(reg: U16) returns (ret: I32, val: Byte)
      modifies this
      ensures (Sensor.Outcome(State(), ret), val) == Sensor.ReadReg(env, old(State()), reg)
    {
      var addr := [reg / 0x100, reg % 0x100];
      WriteFrameBytes(reg, 0);
      var count;
      count, val := I2cTransfer(addr);
      ret := if count == 2 then 0 else if count < 0 then count else -EIO;
    }

    // ------------------------------------------------------------ power

    /** Enable dvdd, avdd, dovdd and the clock; the nested branches are the
        cleanup ladder, each failure falling through the disables of every
        resource enabled before it. */
    method PowerOn() returns (ret: I32)
      requires Valid()
      modifies this
      ensures Valid()
      ensures Sensor.Outcome(State(), ret) == Sensor.PowerOn(env, old(State()))
    {
      ret := EnableResource(Dvdd);
      if ret != 0 {
        return;
      }
      ret := EnableResource(Avdd);
      if ret == 0 {
        ret := EnableResource(Dovdd);
        if ret == 0 {
          ret := EnableResource(Xclk);
          if ret == 0 {
            if env.hasReset {
              SetLineLevel(Reset, 1);
            }
            if env.hasPwdn {
              SetLineLevel(Pwdn, 0);
            }
            SleepRange(5000, 10000);
            return 0;
          }
          DisableResource(Dovdd);   // disable_dovdd:
        }
        DisableResource(Avdd);      // disable_avdd:
      }
      DisableResource(Dvdd);        // disable_dvdd:
    }

    /** Lines to their idle levels, then the clock and the supplies off in
        reverse order. */
    method PowerOff()
      requires Valid()
      modifies this
      ensures Valid()
      ensures State() == Sensor.PowerOff(env, old(State()))
    {
      if env.hasReset {
        SetLineLevel(Reset, 0);
      }
      if env.hasPwdn {
        SetLineLevel(Pwdn, 1);
      }
      DisableResource(Xclk);
      DisableResource(Dovdd);
      DisableResource(Avdd);
      DisableResource(Dvdd);
    }

    // -------------------------------------------------------- streaming

    method StartStreaming() returns (ret: I32)
      requires Valid()
      modifies this
      ensures Valid()
      ensures Sensor.Outcome(State(), ret) == Sensor.StartStreaming(env, old(State()))
    {
      ret := PowerOn();
      if ret != 0 {
        return;
      }
      ret := WriteReg(STANDBY, 0x00);
      if ret == 0 {
        ret := WriteReg(MODE_SELECT, 0x01);
        if ret == 0 {
          streaming := true;
          return 0;
        }
      }
      PowerOff();
    }

    method StopStreaming() returns (ret: I32)
      requires Valid()
      modifies this
      ensures Valid()
      ensures Sensor.Outcome(State(), ret) == Sensor.StopStreaming(env, old(State()))
    {
      ret := WriteReg(MODE_SELECT, 0x00);
      streaming := false;
      PowerOff();
    }

    // --------------------------------------------------------- controls

    method SetCtrl(c: Control, v: I32) returns (ret: I32)
      requires Valid() && InRange(c, v)
      modifies this
      ensures Valid()
      ensures Sensor.Outcome(State(), ret) == Sensor.SetCtrl(env, old(State()), c, v)
    {
      ret := 0;
      if !streaming {
        return 0;
      }
      match c {
        case Exposure =>
          ret := WriteReg(EXPOSURE_H, ExposureHigh(v));
          var second := WriteReg(EXPOSURE_L, LowByte(v));
          ret := OrStatus(ret, second);
        case AnalogueGain =>
          ret := WriteReg(GAIN_H, GainHigh(v));
          var second := WriteReg(GAIN_L, LowByte(v));
          ret := OrStatus(ret, second);
        case OtherControl(_) =>
      }
    }

    // ----------------------------------------------------------- format

    /** Fill the request's frame format from the current mode; it changes
        nothing in the driver and always succeeds, and since the mode is
        always the default one it always reports the same values. */
    method GetFmt(fmt: SubdevFormat) returns (ret: I32, out: SubdevFormat)
      requires Valid()
      ensures ret == 0 && out == Report(curMode, fmt)
      ensures Reported(out) == (4056, 3040, MEDIA_BUS_FMT_SRGGB12_1X12, V4L2_FIELD_NONE, V4L2_COLORSPACE_RAW)
    {
      out := Report(curMode, fmt);
      ret := 0;
    }

    /** Install the default mode, whatever was requested, and report it. */
    method SetFmt(fmt: SubdevFormat) returns (ret: I32, out: SubdevFormat)
      modifies this
      ensures Valid()
      ensures (State(), out) == Sensor.SetFmt(old(State()), fmt) && ret == 0
    {
      curMode := DefaultMode;
      ret, out := GetFmt(fmt);
    }
  }
}
