/** The sensor's environment: power resources, control lines, the bus, and
    the trace of everything the driver asks of them. The environment's
    answers come from an oracle that may depend on the whole history, which
    makes "resource k fails to enable" or "write n fails" expressible. */
module Hardware {
  import opened Registers

  /** The three supplies and the input clock. */
  datatype Resource = Dvdd | Avdd | Dovdd | Xclk

  /** The two optional control lines. */
  datatype Line = Reset | Pwdn

  /** One request to the environment, with the answer it got. */
  datatype Event =
    | Enable(res: Resource, status: I32)      // regulator_enable / clk_prepare_enable
    | Disable(res: Resource)                  // regulator_disable / clk_disable_unprepare
    | SetLine(line: Line, level: int)         // gpiod_set_value_cansleep
    | Sleep(minUs: nat, maxUs: nat)           // usleep_range
    | Send(bytes: seq<Byte>, count: I32)      // i2c_master_send
    | Transfer(addr: seq<Byte>, count: I32, data: Byte)  // i2c_transfer: address write, 1-byte read

  /** Which optional lines are present, and the oracle: what the
      environment answers to each request, given the trace so far. */
  datatype Env = Env(
    hasReset: bool,
    hasPwdn: bool,
    enable: (seq<Event>, Resource) -> I32,
    send: (seq<Event>, seq<Byte>) -> I32,
    transfer: (seq<Event>, seq<Byte>) -> (I32, Byte))

  /** The order in which power-up enables the resources. */
  const PowerOrder: seq<Resource> := [Dvdd, Avdd, Dovdd, Xclk]

  const AllResources: set<Resource> := {Dvdd, Avdd, Dovdd, Xclk}

  function Reverse<T>(s: seq<T>): (r: seq<T>)
    ensures |r| == |s| && forall i :: 0 <= i < |s| ==> r[i] == s[|s| - 1 - i]
  {
    seq(|s|, i requires 0 <= i < |s| => s[|s| - 1 - i])
  }

  /** Reversing twice gives back the sequence, and reversing keeps the
      members: the rollback disables exactly the resources power-up
      enabled. */
  lemma ReverseKeepsMembers(rs: seq<Resource>)
    ensures Reverse(Reverse(rs)) == rs
    ensures Members(Reverse(rs)) == Members(rs)
  {
    var r := Reverse(rs);
    forall x | x in rs
      ensures x in r
    {
      var i :| 0 <= i < |rs| && rs[i] == x;
      assert r[|rs| - 1 - i] == x;
    }
  }

  /** The events of enabling each of `rs`, in order, successfully. */
  function Enables(rs: seq<Resource>): (es: seq<Event>)
    ensures |es| == |rs| && forall i :: 0 <= i < |rs| ==> es[i] == Enable(rs[i], 0)
  {
    seq(|rs|, i requires 0 <= i < |rs| => Enable(rs[i], 0))
  }

  /** The events of disabling each of `rs`, in order. */
  function Disables(rs: seq<Resource>): (es: seq<Event>)
    ensures |es| == |rs| && forall i :: 0 <= i < |rs| ==> es[i] == Disable(rs[i])
  {
    seq(|rs|, i requires 0 <= i < |rs| => Disable(rs[i]))
  }

  function Members(rs: seq<Resource>): (m: set<Resource>)
    ensures forall r :: r in m <==> r in rs
  {
    set r | r in rs
  }

  /** What the environment answers to the enable of `rs[i]` once `rs[..i]`
      have been enabled successfully, one after the other, from trace `t`. */
  function StepStatus(env: Env, t: seq<Event>, rs: seq<Resource>, i: nat): I32
    requires i < |rs|
  {
    env.enable(t + Enables(rs[..i]), rs[i])
  }

  /** How many of `rs`, enabled one after the other from trace `t` and
      stopping at the first failure, are enabled successfully: every
      earlier enable returned 0, and unless all succeeded the next one
      returned an error. */
  function EnabledCount(env: Env, t: seq<Event>, rs: seq<Resource>): (n: nat)
    ensures n <= |rs|
    ensures forall i :: 0 <= i < n ==> StepStatus(env, t, rs, i) == 0
    ensures n < |rs| ==> StepStatus(env, t, rs, n) != 0
    decreases |rs|
  {
    if rs == [] then 0
    else if env.enable(t, rs[0]) != 0 then
      assert t + Enables(rs[..0]) == t;
      0
    else
      var t' := t + [Enable(rs[0], 0)];
      var m := EnabledCount(env, t', rs[1..]);
      EnablesShift(t, rs, 0);
      assert t + Enables(rs[..0]) == t;
      assert forall i :: 0 < i <= m ==> StepStatus(env, t, rs, i) == 0 by {
        forall i | 0 < i <= m
          ensures StepStatus(env, t, rs, i) == 0
        {
          EnablesShift(t, rs, i - 1);
          assert rs[i] == rs[1..][i - 1];
          assert StepStatus(env, t, rs, i) == StepStatus(env, t', rs[1..], i - 1);
        }
      }
      EnablesShift(t, rs, if m < |rs| - 1 then m else 0);
      1 + m
  }

  /** Enabling `rs[0]` and then a prefix of the rest is enabling a longer
      prefix of `rs`. */
  lemma EnablesShift(t: seq<Event>, rs: seq<Resource>, i: nat)
    requires i < |rs|
    ensures t + Enables(rs[..i + 1]) == (t + [Enable(rs[0], 0)]) + Enables(rs[1..][..i])
    ensures Enables(rs[..0]) == []
  {
    assert Enables(rs[..i + 1]) == [Enable(rs[0], 0)] + Enables(rs[1..][..i]);
  }

  lemma EveryResource(r: Resource)
    ensures r in AllResources
  {
    match r
    case Dvdd =>
    case Avdd =>
    case Dovdd =>
    case Xclk =>
  }

  /** The events of a power-up that fails after enabling `done`, at the
      enable of `r`: the successful enables in order, the failed one, then a
      disable of each resource of `done` in reverse order, so that the one
      enabled `i`-th is disabled `i`-th from the end; none of these is a
      line change or a bus transaction. */
  lemma {:induction false} RollbackEvents(done: seq<Resource>, r: Resource, code: I32)
    ensures var es := Enables(done) + [Enable(r, code)] + Disables(Reverse(done));
      |es| == 2 * |done| + 1
      && es[|done|] == Enable(r, code)
      && (forall i :: 0 <= i < |done| ==> es[i] == Enable(done[i], 0) && es[2 * |done| - i] == Disable(done[i]))
      && NoLineChange(es) && NoBusTraffic(es)
  {
    var n := |done|;
    var es := Enables(done) + [Enable(r, code)] + Disables(Reverse(done));
    forall i | 0 <= i < n
      ensures es[i] == Enable(done[i], 0) && es[2 * n - i] == Disable(done[i])
    {
      assert es[2 * n - i] == Disables(Reverse(done))[n - 1 - i];
    }
    forall i | 0 <= i < |es|
      ensures !IsLineEvent(es[i]) && !IsBusEvent(es[i])
    {
      if i < n {
        assert es[i] == Enable(done[i], 0);
      } else if i > n {
        assert es[i] == Disables(Reverse(done))[i - n - 1];
      }
    }
  }

  /** The line changes of power-up: reset to 1, power-down to 0, each only
      if the line is present. */
  function LinesOn(env: Env): seq<Event>
  {
    (if env.hasReset then [SetLine(Reset, 1)] else []) + (if env.hasPwdn then [SetLine(Pwdn, 0)] else [])
  }

  /** The line changes of power-down: reset to 0, power-down to 1, each only
      if the line is present. */
  function LinesOff(env: Env): seq<Event>
  {
    (if env.hasReset then [SetLine(Reset, 0)] else []) + (if env.hasPwdn then [SetLine(Pwdn, 1)] else [])
  }

  /** The complete event sequence of one power-down. */
  function PowerOffEvents(env: Env): seq<Event>
  {
    LinesOff(env) + Disables(Reverse(PowerOrder))
  }

  lemma PowerOffEventsSpelled(env: Env)
    ensures PowerOffEvents(env) == LinesOff(env) + [Disable(Xclk), Disable(Dovdd), Disable(Avdd), Disable(Dvdd)]
  {
    assert Disables(Reverse(PowerOrder)) == [Disable(Xclk), Disable(Dovdd), Disable(Avdd), Disable(Dvdd)];
  }

  predicate IsBusEvent(e: Event)
  {
    e.Send? || e.Transfer?
  }

  predicate IsLineEvent(e: Event)
  {
    e.SetLine?
  }

  /** No event of `es` is a bus transaction. */
  predicate NoBusTraffic(es: seq<Event>)
  {
    forall i :: 0 <= i < |es| ==> !IsBusEvent(es[i])
  }

  lemma NoBusTrafficAppend(a: seq<Event>, b: seq<Event>)
    requires NoBusTraffic(a) && NoBusTraffic(b)
    ensures NoBusTraffic(a + b)
  {
    forall i | 0 <= i < |a + b|
      ensures !IsBusEvent((a + b)[i])
    {
      if i < |a| {
        assert (a + b)[i] == a[i];
      } else {
        assert (a + b)[i] == b[i - |a|];
      }
    }
  }

  /** Setting the lines moves nothing over the bus. */
  lemma LinesQuiet(env: Env)
    ensures NoBusTraffic(LinesOn(env)) && NoBusTraffic(LinesOff(env))
  {
  }

  /** No event of `es` changes a control line. */
  predicate NoLineChange(es: seq<Event>)
  {
    forall i :: 0 <= i < |es| ==> !IsLineEvent(es[i])
  }
}
