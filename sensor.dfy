/** What each driver operation does to the sensor's state and its
    environment, as functions of the state before, and the properties the
    driver promises, proved about those functions. */
module Sensor {
  import opened Registers
  import opened Controls
  import opened SignedOr
  import opened Modes
  import opened Hardware

  /** The driver's state (`streaming`, the current mode) together with the
      environment's (what is enabled, the line levels, the trace). */
  datatype State = State(
    streaming: bool,
    mode: Mode,
    enabled: set<Resource>,
    reset: int,
    pwdn: int,
    trace: seq<Event>)

  /** The state after an operation and the status it returns. */
  datatype Outcome = Outcome(after: State, ret: I32)

  /** The state right after probe: not streaming, the default mode, nothing
      enabled, reset requested low and power-down high, no events. */
  const Initial: State := State(false, DefaultMode, {}, 0, 1, [])

  /** Fully powered: every resource enabled, reset at 1 and power-down at 0
      where present. */
  predicate Powered(env: Env, s: State)
  {
    AllResources <= s.enabled
    && (env.hasReset ==> s.reset == 1)
    && (env.hasPwdn ==> s.pwdn == 0)
  }

  /** `a` comes from `s` by requests to the environment only: the driver's
      flag and mode are unchanged and the trace has only grown. */
  predicate Appends(s: State, a: State)
  {
    a.streaming == s.streaming && a.mode == s.mode
    && |s.trace| <= |a.trace| && a.trace[..|s.trace|] == s.trace
  }

  // ------------------------------------------------ environment calls

  /** The state after an enable that answered `status`. */
  function WithEnable(s: State, r: Resource, status: I32): State
  {
    s.(enabled := if status == 0 then s.enabled + {r} else s.enabled,
       trace := s.trace + [Enable(r, status)])
  }

  function WithDisable(s: State, r: Resource): State
  {
    s.(enabled := s.enabled - {r}, trace := s.trace + [Disable(r)])
  }

  function WithLine(s: State, line: Line, level: int): State
  {
    s.(reset := if line == Reset then level else s.reset,
       pwdn := if line == Pwdn then level else s.pwdn,
       trace := s.trace + [SetLine(line, level)])
  }

  /** The state after an event that changes nothing but the trace. */
  function WithEvent(s: State, e: Event): State
  {
    s.(trace := s.trace + [e])
  }

  // ---------------------------------------------------------------- bus

  /** `imx377_write_reg`: one send of the write frame; the status says
      whether all 3 bytes went; nothing but the trace changes. */
  function WriteReg(env: Env, s: State, reg: U16, val: Byte): (o: Outcome)
    ensures o.after == s.(trace := o.after.trace)
    ensures |o.after.trace| == |s.trace| + 1 && o.after.trace[..|s.trace|] == s.trace
    ensures var e := o.after.trace[|s.trace|];
      e.Send? && e.bytes == WriteFrame(reg, val) && o.ret <= 0 && (o.ret == 0 <==> e.count == 3)
  {
    var frame := WriteFrame(reg, val);
    var count := env.send(s.trace, frame);
    Outcome(WithEvent(s, Send(frame, count)), TransferStatus(count, 3))
  }

  /** `imx377_read_reg`: one transfer naming the register; the status says
      whether both messages went; the value is the byte the transfer read;
      nothing but the trace changes. */
  function ReadReg(env: Env, s: State, reg: U16): (r: (Outcome, Byte))
    ensures r.0.after == s.(trace := r.0.after.trace)
    ensures |r.0.after.trace| == |s.trace| + 1 && r.0.after.trace[..|s.trace|] == s.trace
    ensures var e := r.0.after.trace[|s.trace|];
      e.Transfer? && e.addr == AddressFrame(reg) && e.data == r.1
      && r.0.ret <= 0 && (r.0.ret == 0 <==> e.count == 2)
  {
    var addr := AddressFrame(reg);
    var (count, data) := env.transfer(s.trace, addr);
    (Outcome(WithEvent(s, Transfer(addr, count, data)), TransferStatus(count, 2)), data)
  }

  /** A register write is one transaction carrying the address bytes, high
      first, then the value; it succeeds exactly when the transport reports
      all 3 bytes sent, and changes nothing but the trace. */
  lemma WriteRegIsOneFrame(env: Env, s: State, reg: U16, val: Byte)
    ensures var o := WriteReg(env, s, reg, val);
      var count := env.send(s.trace, [reg / 0x100, reg % 0x100, val]);
      o.after == s.(trace := s.trace + [Send([reg / 0x100, reg % 0x100, val], count)])
      && (o.ret == 0 <==> count == 3)
      && (count < 0 ==> o.ret == count)
      && (0 <= count != 3 ==> o.ret == -EIO)
  {
    WriteFrameBytes(reg, val);
  }

  /** A register read is one transfer naming the register, high byte first;
      it succeeds exactly when the transport reports both messages done,
      and its value is the byte the transfer read. */
  lemma ReadRegIsOneTransfer(env: Env, s: State, reg: U16)
    ensures var (o, val) := ReadReg(env, s, reg);
      var (count, data) := env.transfer(s.trace, [reg / 0x100, reg % 0x100]);
      o.after == s.(trace := s.trace + [Transfer([reg / 0x100, reg % 0x100], count, data)])
      && val == data
      && (o.ret == 0 <==> count == 2)
      && (count < 0 ==> o.ret == count)
      && (0 <= count != 2 ==> o.ret == -EIO)
  {
    WriteFrameBytes(reg, 0);
  }

  // -------------------------------------------------------------- power

  /** Power-up, step by step: enable dvdd, avdd, dovdd, then the clock; a
      failure returns its status after disabling, newest first, whatever the
      earlier steps enabled; after the last step set the lines and wait.
      Each rung of the ladder is its own function. */
  function PowerOn(env: Env, s: State): (o: Outcome)
    ensures Appends(s, o.after)
    ensures o.ret == 0 ==> Powered(env, o.after)
    ensures o.ret != 0 ==> o.after.enabled <= s.enabled && o.after.reset == s.reset && o.after.pwdn == s.pwdn
  {
    var e := env.enable(s.trace, Dvdd);
    if e != 0 then Outcome(WithEnable(s, Dvdd, e), e)
    else PowerOnAfterDvdd(env, WithEnable(s, Dvdd, 0))
  }

  /** The rungs after dvdd, avdd and dovdd came up: on success every later
      resource is on and the lines are set; on failure the resource enabled
      just before the rung is off again, nothing new is on, and the lines are
      untouched. */
  function PowerOnAfterDvdd(env: Env, s: State): (o: Outcome)
    ensures Appends(s, o.after)
    ensures o.ret == 0 ==> {Avdd, Dovdd, Xclk} <= o.after.enabled && s.enabled <= o.after.enabled
    ensures o.ret == 0 ==> (env.hasReset ==> o.after.reset == 1) && (env.hasPwdn ==> o.after.pwdn == 0)
    ensures o.ret != 0 ==> o.after.enabled <= s.enabled - {Dvdd} && o.after.reset == s.reset && o.after.pwdn == s.pwdn
  {
    var e := env.enable(s.trace, Avdd);
    if e != 0 then Outcome(WithDisable(WithEnable(s, Avdd, e), Dvdd), e)
    else
      var o := PowerOnAfterAvdd(env, WithEnable(s, Avdd, 0));
      if o.ret != 0 then Outcome(WithDisable(o.after, Dvdd), o.ret) else o
  }

  function PowerOnAfterAvdd(env: Env, s: State): (o: Outcome)
    ensures Appends(s, o.after)
    ensures o.ret == 0 ==> {Dovdd, Xclk} <= o.after.enabled && s.enabled <= o.after.enabled
    ensures o.ret == 0 ==> (env.hasReset ==> o.after.reset == 1) && (env.hasPwdn ==> o.after.pwdn == 0)
    ensures o.ret != 0 ==> o.after.enabled <= s.enabled - {Avdd} && o.after.reset == s.reset && o.after.pwdn == s.pwdn
  {
    var e := env.enable(s.trace, Dovdd);
    if e != 0 then Outcome(WithDisable(WithEnable(s, Dovdd, e), Avdd), e)
    else
      var o := PowerOnAfterDovdd(env, WithEnable(s, Dovdd, 0));
      if o.ret != 0 then Outcome(WithDisable(o.after, Avdd), o.ret) else o
  }

  function PowerOnAfterDovdd(env: Env, s: State): (o: Outcome)
    ensures Appends(s, o.after)
    ensures o.ret == 0 ==> Xclk in o.after.enabled && s.enabled <= o.after.enabled
    ensures o.ret == 0 ==> (env.hasReset ==> o.after.reset == 1) && (env.hasPwdn ==> o.after.pwdn == 0)
    ensures o.ret != 0 ==> o.after.enabled <= s.enabled - {Dovdd} && o.after.reset == s.reset && o.after.pwdn == s.pwdn
  {
    var e := env.enable(s.trace, Xclk);
    if e != 0 then Outcome(WithDisable(WithEnable(s, Xclk, e), Dovdd), e)
    else
      var s1 := WithEnable(s, Xclk, 0);
      var s2 := if env.hasReset then WithLine(s1, Reset, 1) else s1;
      var s3 := if env.hasPwdn then WithLine(s2, Pwdn, 0) else s2;
      Outcome(WithEvent(s3, Sleep(5000, 10000)), 0)
  }

  /** Power-down: lines first, then the clock and the supplies; it cannot
      fail. */
  function PowerOff(env: Env, s: State): (a: State)
    ensures Appends(s, a)
    ensures Dvdd !in a.enabled && Avdd !in a.enabled && Dovdd !in a.enabled && Xclk !in a.enabled
    ensures (env.hasReset ==> a.reset == 0) && (env.hasPwdn ==> a.pwdn == 1)
  {
    var s1 := if env.hasReset then WithLine(s, Reset, 0) else s;
    var s2 := if env.hasPwdn then WithLine(s1, Pwdn, 1) else s1;
    WithDisable(WithDisable(WithDisable(WithDisable(s2, Xclk), Dovdd), Avdd), Dvdd)
  }

  /** The reference description of power-up, independent of its step
      structure: with `n` the number of leading enables of `PowerOrder` that
      succeed, either all four succeed, or the enable of `PowerOrder[n]`
      fails, after which exactly `PowerOrder[..n]` is disabled in reverse. */
  function PowerOnReference(env: Env, s: State): (o: Outcome)
    ensures o.ret == 0 <==> EnabledCount(env, s.trace, PowerOrder) == |PowerOrder|
    ensures o.after.streaming == s.streaming && o.after.mode == s.mode
  {
    var n := EnabledCount(env, s.trace, PowerOrder);
    var done := PowerOrder[..n];
    if n < |PowerOrder| then
      var t := s.trace + Enables(done);
      var err := env.enable(t, PowerOrder[n]);
      Outcome(s.(enabled := s.enabled - Members(done),
                 trace := t + [Enable(PowerOrder[n], err)] + Disables(Reverse(done))),
              err)
    else
      Outcome(s.(enabled := s.enabled + AllResources,
                 reset := if env.hasReset then 1 else s.reset,
                 pwdn := if env.hasPwdn then 0 else s.pwdn,
                 trace := s.trace + Enables(PowerOrder) + LinesOn(env) + [Sleep(5000, 10000)]),
              0)
  }

  /** The goto ladder of power-up does what the reference description
      says, for every oracle and every starting state. */
  lemma PowerOnMeetsReference(env: Env, s: State)
    ensures PowerOn(env, s) == PowerOnReference(env, s)
  {
    var n := EnabledCount(env, s.trace, PowerOrder);
    PrefixStatuses(env, s.trace);
    if n == 0 {
      PowerOnFailsFirst(env, s);
    } else if n == 1 {
      PowerOnFailsAtAvdd(env, s);
    } else if n == 2 {
      PowerOnFailsAtDovdd(env, s);
    } else if n == 3 {
      PowerOnFailsAtXclk(env, s);
    } else {
      PowerOnAllSucceed(env, s);
    }
  }

  /** The traces and answers after each prefix of successful enables,
      spelled out. */
  lemma PrefixStatuses(env: Env, t: seq<Event>)
    ensures t + Enables(PowerOrder[..0]) == t
    ensures t + Enables(PowerOrder[..1]) == t + [Enable(Dvdd, 0)]
    ensures t + Enables(PowerOrder[..2]) == t + [Enable(Dvdd, 0)] + [Enable(Avdd, 0)]
    ensures t + Enables(PowerOrder[..3]) == t + [Enable(Dvdd, 0)] + [Enable(Avdd, 0)] + [Enable(Dovdd, 0)]
    ensures StepStatus(env, t, PowerOrder, 0) == env.enable(t, Dvdd)
    ensures StepStatus(env, t, PowerOrder, 1) == env.enable(t + [Enable(Dvdd, 0)], Avdd)
    ensures StepStatus(env, t, PowerOrder, 2) == env.enable(t + [Enable(Dvdd, 0)] + [Enable(Avdd, 0)], Dovdd)
    ensures StepStatus(env, t, PowerOrder, 3)
         == env.enable(t + [Enable(Dvdd, 0)] + [Enable(Avdd, 0)] + [Enable(Dovdd, 0)], Xclk)
  {
    assert Enables(PowerOrder[..0]) == [];
    assert Enables(PowerOrder[..1]) == [Enable(Dvdd, 0)];
    assert Enables(PowerOrder[..2]) == [Enable(Dvdd, 0), Enable(Avdd, 0)];
    assert Enables(PowerOrder[..3]) == [Enable(Dvdd, 0), Enable(Avdd, 0), Enable(Dovdd, 0)];
  }

  lemma PowerOnFailsFirst(env: Env, s: State)
    requires EnabledCount(env, s.trace, PowerOrder) == 0
    ensures PowerOn(env, s) == PowerOnReference(env, s)
  {
    PrefixStatuses(env, s.trace);
    assert PowerOrder[..0] == [];
  }

  lemma PowerOnFailsAtAvdd(env: Env, s: State)
    requires EnabledCount(env, s.trace, PowerOrder) == 1
    ensures PowerOn(env, s) == PowerOnReference(env, s)
  {
    PrefixStatuses(env, s.trace);
    var done := PowerOrder[..1];
    assert done == [Dvdd] && Reverse(done) == [Dvdd] && Members(done) == {Dvdd};
    var s1 := WithEnable(s, Dvdd, 0);
    var err := env.enable(s1.trace, Avdd);
    var f := WithEnable(s1, Avdd, err);
    var r := WithDisable(f, Dvdd);
    assert r.enabled == s.enabled - {Dvdd};
    assert r.trace == s.trace + [Enable(Dvdd, 0)] + [Enable(Avdd, err)] + [Disable(Dvdd)];
    assert PowerOnReference(env, s) == Outcome(r, err);
    assert PowerOn(env, s) == PowerOnAfterDvdd(env, s1);
  }

  lemma PowerOnFailsAtDovdd(env: Env, s: State)
    requires EnabledCount(env, s.trace, PowerOrder) == 2
    ensures PowerOn(env, s) == PowerOnReference(env, s)
  {
    PrefixStatuses(env, s.trace);
    var done := PowerOrder[..2];
    assert done == [Dvdd, Avdd] && Reverse(done) == [Avdd, Dvdd] && Members(done) == {Dvdd, Avdd};
    var s1 := WithEnable(s, Dvdd, 0);
    var s2 := WithEnable(s1, Avdd, 0);
    var err := env.enable(s2.trace, Dovdd);
    var f := WithEnable(s2, Dovdd, err);
    assert PowerOnReference(env, s) == Outcome(WithDisable(WithDisable(f, Avdd), Dvdd), err);
    assert PowerOnAfterAvdd(env, s2) == Outcome(WithDisable(f, Avdd), err);
    assert PowerOn(env, s) == PowerOnAfterDvdd(env, s1);
  }

  lemma PowerOnFailsAtXclk(env: Env, s: State)
    requires EnabledCount(env, s.trace, PowerOrder) == 3
    ensures PowerOn(env, s) == PowerOnReference(env, s)
  {
    PrefixStatuses(env, s.trace);
    var done := PowerOrder[..3];
    assert done == [Dvdd, Avdd, Dovdd] && Reverse(done) == [Dovdd, Avdd, Dvdd] && Members(done) == {Dvdd, Avdd, Dovdd};
    var s1 := WithEnable(s, Dvdd, 0);
    var s2 := WithEnable(s1, Avdd, 0);
    var s3 := WithEnable(s2, Dovdd, 0);
    var err := env.enable(s3.trace, Xclk);
    var f := WithEnable(s3, Xclk, err);
    assert PowerOnReference(env, s) == Outcome(WithDisable(WithDisable(WithDisable(f, Dovdd), Avdd), Dvdd), err);
    assert PowerOnAfterDovdd(env, s3) == Outcome(WithDisable(f, Dovdd), err);
    assert PowerOnAfterAvdd(env, s2) == Outcome(WithDisable(WithDisable(f, Dovdd), Avdd), err);
    assert PowerOn(env, s) == PowerOnAfterDvdd(env, s1);
  }

  lemma PowerOnAllSucceed(env: Env, s: State)
    requires EnabledCount(env, s.trace, PowerOrder) == 4
    ensures PowerOn(env, s) == PowerOnReference(env, s)
  {
    PrefixStatuses(env, s.trace);
    assert Enables(PowerOrder) == [Enable(Dvdd, 0), Enable(Avdd, 0), Enable(Dovdd, 0), Enable(Xclk, 0)];
    var s1 := WithEnable(s, Dvdd, 0);
    var s2 := WithEnable(s1, Avdd, 0);
    var s3 := WithEnable(s2, Dovdd, 0);
    var s4 := WithEnable(s3, Xclk, 0);
    assert s4.enabled == s.enabled + AllResources;
    assert s4.trace == s.trace + Enables(PowerOrder);
    var s5 := if env.hasReset then WithLine(s4, Reset, 1) else s4;
    var s6 := if env.hasPwdn then WithLine(s5, Pwdn, 0) else s5;
    assert s6.trace == s4.trace + LinesOn(env);
    var done := WithEvent(s6, Sleep(5000, 10000));
    assert done == PowerOnReference(env, s).after;
    assert PowerOnAfterDovdd(env, s3) == Outcome(done, 0);
    assert PowerOn(env, s) == PowerOnAfterDvdd(env, s1);
  }

  /** Power-up succeeds exactly when each of the four enables, asked in
      order, succeeds. */
  lemma PowerOnSucceedsIff(env: Env, s: State)
    ensures PowerOn(env, s).ret == 0
        <==> forall i :: 0 <= i < 4 ==> StepStatus(env, s.trace, PowerOrder, i) == 0
  {
    PowerOnMeetsReference(env, s);
    var n := EnabledCount(env, s.trace, PowerOrder);
    if n < 4 {
      assert StepStatus(env, s.trace, PowerOrder, n) != 0;
    }
  }

  /** After a successful power-up dvdd, avdd, dovdd and the clock were
      enabled in that order, then reset set to 1 and power-down to 0 where
      present, then the stabilisation wait; everything is enabled, no bus
      transaction happened and the driver state is unchanged. */
  lemma PowerOnSuccess(env: Env, s: State)
    requires PowerOn(env, s).ret == 0
    ensures var a := PowerOn(env, s).after;
      a.trace == s.trace + [Enable(Dvdd, 0), Enable(Avdd, 0), Enable(Dovdd, 0), Enable(Xclk, 0)]
                 + LinesOn(env) + [Sleep(5000, 10000)]
      && Powered(env, a)
      && a.streaming == s.streaming && a.mode == s.mode
      && NoBusTraffic(a.trace[|s.trace|..])
  {
    PowerOnMeetsReference(env, s);
    var n := EnabledCount(env, s.trace, PowerOrder);
    assert n == 4;
    var a := PowerOn(env, s).after;
    var added := [Enable(Dvdd, 0), Enable(Avdd, 0), Enable(Dovdd, 0), Enable(Xclk, 0)] + LinesOn(env) + [Sleep(5000, 10000)];
    assert Enables(PowerOrder) == [Enable(Dvdd, 0), Enable(Avdd, 0), Enable(Dovdd, 0), Enable(Xclk, 0)];
    assert a.trace == s.trace + added;
    assert a.trace[|s.trace|..] == added;
    LinesQuiet(env);
    var enables := [Enable(Dvdd, 0), Enable(Avdd, 0), Enable(Dovdd, 0), Enable(Xclk, 0)];
    assert NoBusTraffic(enables);
    NoBusTrafficAppend(enables, LinesOn(env));
    NoBusTrafficAppend(enables + LinesOn(env), [Sleep(5000, 10000)]);
  }

  /** When step `k` of power-up fails: its status is returned, the enables
      before it succeeded, each resource they enabled is disabled again in
      reverse order (see `RollbackEvents`), nothing else is attempted, no
      line is touched and no bus transaction happens. */
  lemma PowerOnRollback(env: Env, s: State)
    requires PowerOn(env, s).ret != 0
    ensures var k := EnabledCount(env, s.trace, PowerOrder);
      var a := PowerOn(env, s).after;
      var ret := PowerOn(env, s).ret;
      k < 4
      && ret == StepStatus(env, s.trace, PowerOrder, k)
      && (forall i :: 0 <= i < k ==> StepStatus(env, s.trace, PowerOrder, i) == 0)
      && a.trace == s.trace + Enables(PowerOrder[..k]) + [Enable(PowerOrder[k], ret)] + Disables(Reverse(PowerOrder[..k]))
      && NoLineChange(a.trace[|s.trace|..]) && NoBusTraffic(a.trace[|s.trace|..])
  {
    PowerOnMeetsReference(env, s);
    var k := EnabledCount(env, s.trace, PowerOrder);
    var done := PowerOrder[..k];
    var o := PowerOn(env, s);
    RollbackEvents(done, PowerOrder[k], o.ret);
    assert o.after.trace[|s.trace|..] == Enables(done) + [Enable(PowerOrder[k], o.ret)] + Disables(Reverse(done));
  }

  /** After a failed power-up the resources enabled before the failing step
      are off, the others are as they were, and the lines and the driver
      state are unchanged. */
  lemma PowerOnRollbackKeeps(env: Env, s: State)
    requires PowerOn(env, s).ret != 0
    ensures var k := EnabledCount(env, s.trace, PowerOrder);
      var a := PowerOn(env, s).after;
      (forall i :: 0 <= i < k ==> PowerOrder[i] !in a.enabled)
      && (forall i :: k <= i < 4 ==> (PowerOrder[i] in a.enabled <==> PowerOrder[i] in s.enabled))
      && a.reset == s.reset && a.pwdn == s.pwdn
      && a.streaming == s.streaming && a.mode == s.mode
  {
    PowerOnMeetsReference(env, s);
    var k := EnabledCount(env, s.trace, PowerOrder);
    var done := PowerOrder[..k];
    forall i | k <= i < 4
      ensures PowerOrder[i] !in Members(done)
    {
    }
  }

  /** Power-down always sets reset to 0 and power-down to 1 where present,
      then disables the clock, dovdd, avdd and dvdd in that order, the exact
      reverse of power-up; afterwards nothing is enabled, no bus transaction
      happened and the driver state is unchanged. */
  lemma PowerOffUnconditional(env: Env, s: State)
    ensures var a := PowerOff(env, s);
      a.trace == s.trace + LinesOff(env) + [Disable(Xclk), Disable(Dovdd), Disable(Avdd), Disable(Dvdd)]
      && a.trace == s.trace + PowerOffEvents(env)
      && a.enabled == {}
      && (env.hasReset ==> a.reset == 0) && (env.hasPwdn ==> a.pwdn == 1)
      && (!env.hasReset ==> a.reset == s.reset) && (!env.hasPwdn ==> a.pwdn == s.pwdn)
      && a.streaming == s.streaming && a.mode == s.mode
      && NoBusTraffic(a.trace[|s.trace|..])
  {
    PowerOffEventsSpelled(env);
    PowerOffDisablesAll(env, s);
    PowerOffTrace(env, s);
    PowerOffQuiet(env);
    assert PowerOff(env, s).trace[|s.trace|..] == PowerOffEvents(env);
  }

  lemma PowerOffTrace(env: Env, s: State)
    ensures PowerOff(env, s).trace == s.trace + LinesOff(env) + [Disable(Xclk), Disable(Dovdd), Disable(Avdd), Disable(Dvdd)]
  {
    var s1 := if env.hasReset then WithLine(s, Reset, 0) else s;
    var s2 := if env.hasPwdn then WithLine(s1, Pwdn, 1) else s1;
    assert s2.trace == s.trace + LinesOff(env);
  }

  /** Power-down moves no byte over the bus. */
  lemma PowerOffQuiet(env: Env)
    ensures NoBusTraffic(PowerOffEvents(env))
  {
    PowerOffEventsSpelled(env);
  }

  lemma PowerOffDisablesAll(env: Env, s: State)
    ensures PowerOff(env, s).enabled == {}
  {
    var e := PowerOff(env, s).enabled;
    assert e == s.enabled - {Xclk} - {Dovdd} - {Avdd} - {Dvdd};
    forall r | r in s.enabled
      ensures r in {Xclk, Dovdd, Avdd, Dvdd}
    {
      EveryResource(r);
    }
  }

  // ---------------------------------------------------------- streaming

  /** Stream start: power up, leave standby, select streaming; on a write
      failure power down again; the flag is set only when all succeeded. */
  function StartStreaming(env: Env, s: State): (o: Outcome)
    ensures o.after.mode == s.mode
    ensures o.ret == 0 ==> o.after.streaming && Powered(env, o.after)
    ensures o.ret != 0 ==> o.after.streaming == s.streaming
  {
    var on := PowerOn(env, s);
    if on.ret != 0 then on
    else
      var w1 := WriteReg(env, on.after, STANDBY, 0x00);
      if w1.ret != 0 then Outcome(PowerOff(env, w1.after), w1.ret)
      else
        var w2 := WriteReg(env, w1.after, MODE_SELECT, 0x01);
        if w2.ret != 0 then Outcome(PowerOff(env, w2.after), w2.ret)
        else Outcome(w2.after.(streaming := true), 0)
  }

  /** Stream stop: select standby, clear the flag, power down, and return
      the write's status. */
  function StopStreaming(env: Env, s: State): (o: Outcome)
    ensures !o.after.streaming && o.after.mode == s.mode
    ensures Dvdd !in o.after.enabled && Avdd !in o.after.enabled && Dovdd !in o.after.enabled && Xclk !in o.after.enabled
  {
    var w := WriteReg(env, s, MODE_SELECT, 0x00);
    Outcome(PowerOff(env, w.after.(streaming := false)), w.ret)
  }

  /** Start returns 0 exactly when power-up succeeded and the transport took
      all 3 bytes of `0x3000 <- 0x00` and then of `0x0100 <- 0x01`; the flag
      is then set, and on any failure it keeps its old value. */
  lemma StartOnlyInFull(env: Env, s: State)
    ensures var o := StartStreaming(env, s);
      var on := PowerOn(env, s);
      var c1 := env.send(on.after.trace, [0x30, 0x00, 0x00]);
      var c2 := env.send(on.after.trace + [Send([0x30, 0x00, 0x00], c1)], [0x01, 0x00, 0x01]);
      (o.ret == 0 <==> on.ret == 0 && c1 == 3 && c2 == 3)
      && o.after.streaming == (o.ret == 0 || s.streaming)
      && o.after.mode == s.mode
  {
    WriteFrameBytes(STANDBY, 0x00);
    WriteFrameBytes(MODE_SELECT, 0x01);
  }

  /** A successful start leaves the sensor streaming and fully powered, and
      the only bus traffic it caused is the two writes, in order. */
  lemma StartSuccess(env: Env, s: State)
    requires StartStreaming(env, s).ret == 0
    ensures var o := StartStreaming(env, s);
      var on := PowerOn(env, s);
      o.after.streaming && Powered(env, o.after)
      && o.after.trace == on.after.trace + [Send([0x30, 0x00, 0x00], 3), Send([0x01, 0x00, 0x01], 3)]
  {
    WriteFrameBytes(STANDBY, 0x00);
    WriteFrameBytes(MODE_SELECT, 0x01);
    PowerOnSuccess(env, s);
  }

  /** When power-up fails nothing is written to the bus and nothing is
      powered down: the outcome is that of the failed power-up. */
  lemma StartPowerFailure(env: Env, s: State)
    requires PowerOn(env, s).ret != 0
    ensures StartStreaming(env, s) == PowerOn(env, s)
    ensures NoBusTraffic(StartStreaming(env, s).after.trace[|s.trace|..])
  {
    PowerOnRollback(env, s);
  }

  /** When a write of the start sequence fails the later write is skipped,
      power-down runs exactly once after it, nothing is left enabled, the
      flag keeps its value and the write's status is returned. */
  lemma StartWriteFailure(env: Env, s: State)
    requires PowerOn(env, s).ret == 0 && StartStreaming(env, s).ret != 0
    ensures var o := StartStreaming(env, s);
      var t := PowerOn(env, s).after.trace;
      var c1 := env.send(t, [0x30, 0x00, 0x00]);
      var c2 := env.send(t + [Send([0x30, 0x00, 0x00], c1)], [0x01, 0x00, 0x01]);
      o.after.streaming == s.streaming
      && o.after.enabled == {}
      && (c1 != 3 ==> o.ret == TransferStatus(c1, 3)
                      && o.after.trace == t + [Send([0x30, 0x00, 0x00], c1)] + PowerOffEvents(env))
      && (c1 == 3 ==> o.ret == TransferStatus(c2, 3)
                      && o.after.trace == t + [Send([0x30, 0x00, 0x00], c1), Send([0x01, 0x00, 0x01], c2)]
                                          + PowerOffEvents(env))
  {
    WriteFrameBytes(STANDBY, 0x00);
    WriteFrameBytes(MODE_SELECT, 0x01);
    var on := PowerOn(env, s);
    var w1 := WriteReg(env, on.after, STANDBY, 0x00);
    PowerOffUnconditional(env, w1.after);
    PowerOffUnconditional(env, WriteReg(env, w1.after, MODE_SELECT, 0x01).after);
  }

  /** Start has no guard against the sensor already streaming: a second
      start whose standby write fails runs power-down, so reset is driven to
      0, while the flag still says streaming. In this model a resource is on
      or off, so the supplies also read as off; with the kernel's reference
      counting the second start's enables would have raised each count to
      two, and the rails and the clock would stay on. */
  lemma StartWhileStreamingCanPowerDown(env: Env, s: State)
    requires s.streaming && env.hasReset
    requires PowerOn(env, s).ret == 0
    requires env.send(PowerOn(env, s).after.trace, [0x30, 0x00, 0x00]) != 3
    ensures var o := StartStreaming(env, s);
      o.ret != 0 && o.after.streaming && o.after.reset == 0 && o.after.enabled == {}
  {
    WriteFrameBytes(STANDBY, 0x00);
    WriteFrameBytes(MODE_SELECT, 0x01);
    var on := PowerOn(env, s);
    PowerOffUnconditional(env, WriteReg(env, on.after, STANDBY, 0x00).after);
  }

  /** Stop writes `0x0100 <- 0x00` whatever the state, then clears the flag
      and powers down unconditionally, and returns the write's status. */
  lemma StopAlwaysTearsDown(env: Env, s: State)
    ensures var o := StopStreaming(env, s);
      var c := env.send(s.trace, [0x01, 0x00, 0x00]);
      o.after.trace == s.trace + [Send([0x01, 0x00, 0x00], c)] + PowerOffEvents(env)
      && o.ret == TransferStatus(c, 3)
      && !o.after.streaming && o.after.enabled == {} && o.after.mode == s.mode
      && (env.hasReset ==> o.after.reset == 0) && (env.hasPwdn ==> o.after.pwdn == 1)
  {
    WriteFrameBytes(MODE_SELECT, 0x00);
    PowerOffUnconditional(env, WriteReg(env, s, MODE_SELECT, 0x00).after.(streaming := false));
  }

  // ----------------------------------------------------------- controls

  /** Apply a control: nothing while not streaming; while streaming write
      the high byte, then the low byte whatever the first write returned,
      and OR the two statuses. */
  function SetCtrl(env: Env, s: State, c: Control, v: I32): (o: Outcome)
    requires InRange(c, v)
    ensures o.after == s.(trace := o.after.trace) && |s.trace| <= |o.after.trace| && o.after.trace[..|s.trace|] == s.trace
    ensures !s.streaming ==> o == Outcome(s, 0)
  {
    if !s.streaming then Outcome(s, 0)
    else
      match c
      case Exposure =>
        var w1 := WriteReg(env, s, EXPOSURE_H, ExposureHigh(v));
        var w2 := WriteReg(env, w1.after, EXPOSURE_L, LowByte(v));
        Outcome(w2.after, OrStatus(w1.ret, w2.ret))
      case AnalogueGain =>
        var w1 := WriteReg(env, s, GAIN_H, GainHigh(v));
        var w2 := WriteReg(env, w1.after, GAIN_L, LowByte(v));
        Outcome(w2.after, OrStatus(w1.ret, w2.ret))
      case OtherControl(_) => Outcome(s, 0)
  }

  /** While not streaming, and for a control other than exposure and gain,
      a control request returns 0 and changes nothing: no bus write, no
      cached value. */
  lemma SetCtrlDropped(env: Env, s: State, c: Control, v: I32)
    requires InRange(c, v)
    requires !s.streaming || c.OtherControl?
    ensures SetCtrl(env, s, c, v) == Outcome(s, 0)
  {
  }

  /** While streaming, exposure `v` is two writes, `0x300B` then `0x300C`,
      whose bytes recombine high-first to `v`; the second is issued whatever
      the first returned; the result is 0 exactly when both writes succeed,
      and only the trace changes. */
  lemma SetCtrlExposure(env: Env, s: State, v: I32)
    requires s.streaming && InRange(Exposure, v)
    ensures var o := SetCtrl(env, s, Exposure, v);
      var hi := ExposureHigh(v);
      var lo := LowByte(v);
      var c1 := env.send(s.trace, [0x30, 0x0B, hi]);
      var c2 := env.send(s.trace + [Send([0x30, 0x0B, hi], c1)], [0x30, 0x0C, lo]);
      o.after == s.(trace := s.trace + [Send([0x30, 0x0B, hi], c1), Send([0x30, 0x0C, lo], c2)])
      && hi * 0x100 + lo == v
      && (o.ret == 0 <==> c1 == 3 && c2 == 3)
  {
    WriteFrameBytes(EXPOSURE_H, ExposureHigh(v));
    WriteFrameBytes(EXPOSURE_L, LowByte(v));
    SplitLosesNothingInRange(Exposure, v);
  }

  /** While streaming, gain `v` is two writes, `0x3009` then `0x300A`; the
      high byte keeps only three bits, and the two bytes recombine
      high-first to `v`; the result is 0 exactly when both writes succeed. */
  lemma SetCtrlGain(env: Env, s: State, v: I32)
    requires s.streaming && InRange(AnalogueGain, v)
    ensures var o := SetCtrl(env, s, AnalogueGain, v);
      var hi := GainHigh(v);
      var lo := LowByte(v);
      var c1 := env.send(s.trace, [0x30, 0x09, hi]);
      var c2 := env.send(s.trace + [Send([0x30, 0x09, hi], c1)], [0x30, 0x0A, lo]);
      o.after == s.(trace := s.trace + [Send([0x30, 0x09, hi], c1), Send([0x30, 0x0A, lo], c2)])
      && hi <= 0x07 && hi * 0x100 + lo == v
      && (o.ret == 0 <==> c1 == 3 && c2 == 3)
  {
    WriteFrameBytes(GAIN_H, GainHigh(v));
    WriteFrameBytes(GAIN_L, LowByte(v));
    SplitLosesNothingInRange(AnalogueGain, v);
  }

  /** Exposure 1000 while streaming writes 0x03 to 0x300B, then 0xE8 to
      0x300C. */
  lemma SetCtrlExposureThousand(env: Env, s: State)
    requires s.streaming
    ensures var t := SetCtrl(env, s, Exposure, 1000).after.trace;
      |t| == |s.trace| + 2 && t[|s.trace|].bytes == [0x30, 0x0B, 0x03] && t[|s.trace| + 1].bytes == [0x30, 0x0C, 0xE8]
  {
  }

  /** A control request never changes the streaming flag, the mode, the
      power state or the lines. */
  lemma SetCtrlChangesOnlyTrace(env: Env, s: State, c: Control, v: I32)
    requires InRange(c, v)
    ensures SetCtrl(env, s, c, v).after == s.(trace := SetCtrl(env, s, c, v).after.trace)
  {
  }

  // ------------------------------------------------------------- format

  /** Setting the format installs the default mode whatever was requested,
      and reports it. */
  function SetFmt(s: State, fmt: SubdevFormat): (r: (State, SubdevFormat))
    ensures r.0.mode == DefaultMode && r.0.streaming == s.streaming && r.0.trace == s.trace
    ensures Reported(r.1) == (4056, 3040, MEDIA_BUS_FMT_SRGGB12_1X12, V4L2_FIELD_NONE, V4L2_COLORSPACE_RAW)
  {
    (s.(mode := DefaultMode), Report(DefaultMode, fmt))
  }

  /** After any set-format request, set-format and a following get-format
      report the same fixed values, and set-format changes only the mode. */
  lemma SetFmtFixedMode(s: State, req: SubdevFormat, query: SubdevFormat)
    ensures var (s', r) := SetFmt(s, req);
      s' == s.(mode := DefaultMode)
      && Reported(r) == (4056, 3040, MEDIA_BUS_FMT_SRGGB12_1X12, V4L2_FIELD_NONE, V4L2_COLORSPACE_RAW)
      && Reported(Report(s'.mode, query)) == Reported(r)
  {
    ReportDefault(req);
    ReportDefault(query);
  }

  // -------------------------------------------------------- state machine

  /** A start from a stopped sensor turns the flag on only when it returned
      0, and then the sensor is fully powered; a stop always clears the flag.
      A start while already streaming can leave the flag on with the power
      down (see `StartWhileStreamingCanPowerDown`). */
  lemma StreamingImpliesPowered(env: Env, s: State)
    ensures var o := StartStreaming(env, s);
      o.after.streaming ==> (o.ret == 0 && Powered(env, o.after)) || s.streaming
    ensures !StopStreaming(env, s).after.streaming
  {
    if StartStreaming(env, s).ret == 0 {
      StartSuccess(env, s);
    }
  }
}
