/**
 * The analog-axis-to-relative-motion handler: one absolute axis drives a
 * stream of relative pointer or wheel events, emitted by a loop that runs
 * while the axis is deflected.
 */
module AbsToRel {
  import opened Ecodes
  import opened Events
  import opened Integrate

  /** The parts of the mapping configuration the handler reads. */
  datatype Mapping = Mapping(
    outputCode: int,
    targetUinput: string,
    deadzone: real,
    gain: real,
    expo: real,
    relXySpeed: real,
    relWheelSpeed: real,
    isWheelOutput: bool)

  /**
   * An axis transformation as built: the axis range and the response
   * parameters. What it computes is supplied as an opaque function.
   */
  datatype Transformation = Transformation(maxValue: int, minValue: int, deadzone: real, gain: real, expo: real)

  /** The loop `_run` is bound to at construction. */
  datatype RunMode = Normal | Wheel(codes: (int, int), weights: (real, real))

  /** The wrapper kind a handler asks to be wrapped with. */
  datatype HandlerEnum = AxisSwitch

  datatype NotifyError = KeyError(key: int)

  datatype Result<T> = Ok(value: T) | Err(error: NotifyError)

  /** What reaches the handler while its loop sleeps between two ticks. */
  datatype Interrupt = Incoming(event: InputEvent) | ExternalReset

  /**
   * The loop chosen for an output code. Wheel outputs drive the low- and
   * high-resolution channel of the same wheel (vertical or horizontal); the
   * channel the mapping names moves at weight 1, and the high-resolution
   * channel always gets 120 times the weight of the low-resolution one.
   */
  function SelectRun(outputCode: int): (m: RunMode)
    ensures m.Wheel? <==> outputCode in {REL_WHEEL, REL_HWHEEL, REL_WHEEL_HI_RES, REL_HWHEEL_HI_RES}
    ensures m.Wheel? ==> m.codes == (REL_WHEEL, REL_WHEEL_HI_RES) || m.codes == (REL_HWHEEL, REL_HWHEEL_HI_RES)
    ensures m.Wheel? ==> (m.codes.0 == REL_WHEEL <==> outputCode in {REL_WHEEL, REL_WHEEL_HI_RES})
    ensures m.Wheel? ==> outputCode == m.codes.0 || outputCode == m.codes.1
    ensures m.Wheel? ==> (outputCode == m.codes.0 ==> m.weights.0 == 1.0) && (outputCode == m.codes.1 ==> m.weights.1 == 1.0)
    ensures m.Wheel? ==> m.weights.0 > 0.0 && m.weights.1 == 120.0 * m.weights.0
  {
    if outputCode in {REL_WHEEL, REL_HWHEEL, REL_WHEEL_HI_RES, REL_HWHEEL_HI_RES} then
      var codes := if outputCode in {REL_WHEEL, REL_WHEEL_HI_RES} then (REL_WHEEL, REL_WHEEL_HI_RES)
                   else (REL_HWHEEL, REL_HWHEEL_HI_RES);
      var weights := if outputCode in {REL_WHEEL, REL_HWHEEL} then (1.0, 120.0) else (1.0 / 120.0, 1.0);
      Wheel(codes, weights)
    else
      Normal
  }

  /**
   * The position of the first event of a combination whose value is 0 (the
   * analog axis), or the combination's length when there is none.
   */
  function FirstZero(combination: seq<InputEvent>): (k: nat)
    ensures k <= |combination|
    ensures forall j :: 0 <= j < k ==> combination[j].value != 0
    ensures k < |combination| ==> combination[k].value == 0
  {
    if |combination| == 0 then 0
    else if combination[0].value == 0 then 0
    else 1 + FirstZero(combination[1..])
  }

  class AbsToRelHandler {
    /** The combination the handler was built for. */
    const inputEvents: seq<InputEvent>
    const mapping: Mapping
    /** The (type, code) of the axis this handler maps. */
    const mapAxis: (int, int)
    const mode: RunMode

    /** The target rate the loop emits per tick. */
    var value: real
    /** Whether a loop is between its start and its exit. */
    var running: bool
    /** Whether the loop should return at its next check. */
    var stop: bool
    var transform: Option<Transformation>
    /** Loops scheduled by `notify` that have not started yet. */
    var pendingRuns: nat
    /** The events sent to the virtual output device. */
    var written: seq<UinputWrite>

    /** A loop that runs or is scheduled always finds the transformation cached. */
    ghost predicate Valid()
      reads this
    {
      (running || pendingRuns > 0) ==> transform.Some?
    }

    /** A fresh handler maps the combination's analog axis and is idle. */
    constructor (combination: seq<InputEvent>, mapping: Mapping)
      requires FirstZero(combination) < |combination|
      requires combination[FirstZero(combination)].evType == EV_ABS
      ensures Valid()
      ensures inputEvents == combination && this.mapping == mapping
      ensures mapAxis == combination[FirstZero(combination)].TypeAndCode() && mapAxis.0 == EV_ABS
      ensures mode == SelectRun(mapping.outputCode)
      ensures value == 0.0 && !running && stop && transform == None
      ensures pendingRuns == 0 && written == []
    {
      inputEvents := combination;
      this.mapping := mapping;
      var i := 0;
      while combination[i].value != 0
        invariant 0 <= i <= FirstZero(combination)
        invariant forall j :: 0 <= j < i ==> combination[j].value != 0
        decreases |combination| - i
      {
        i := i + 1;
      }
      mapAxis := combination[i].TypeAndCode();
      value := 0.0;
      running := false;
      stop := true;
      transform := None;
      mode := SelectRun(mapping.outputCode);
      pendingRuns := 0;
      written := [];
    }

    /** The speed the transformed sample is scaled by. */
    function Speed(): real
    {
      if mapping.isWheelOutput then mapping.relWheelSpeed else mapping.relXySpeed
    }

    /**
     * The transformation `notify` uses: the cached one when there is one,
     * else one built from the device's reported range for the axis code;
     * a device without that axis (or without absolute axes) is a KeyError.
     */
    function TransformFor(cached: Option<Transformation>, source: map<int, seq<(int, AbsInfo)>>, code: int): (r: Result<Transformation>)
      ensures cached.Some? ==> r == Ok(cached.value)
      ensures cached.None? && EV_ABS !in source ==> r == Err(KeyError(EV_ABS))
      ensures cached.None? && EV_ABS in source ==>
                (code in AbsInfoMap(source[EV_ABS]) <==> r.Ok?) &&
                (r.Err? ==> r.error == KeyError(code))
      ensures cached.None? && r.Ok? ==>
                r.value.deadzone == mapping.deadzone && r.value.gain == mapping.gain && r.value.expo == mapping.expo &&
                exists k :: 0 <= k < |source[EV_ABS]| && source[EV_ABS][k].0 == code &&
                  source[EV_ABS][k].1 == AbsInfo(r.value.minValue, r.value.maxValue) &&
                  forall j :: k < j < |source[EV_ABS]| ==> source[EV_ABS][j].0 != code
    {
      if cached.Some? then Ok(cached.value)
      else if EV_ABS !in source then Err(KeyError(EV_ABS))
      else
        var absinfo := AbsInfoMap(source[EV_ABS]);
        if code !in absinfo then Err(KeyError(code))
        else
          AbsInfoMapLastEntry(source[EV_ABS], code);
          Ok(Transformation(absinfo[code].max, absinfo[code].min, mapping.deadzone, mapping.gain, mapping.expo))
    }

    /**
     * Handles one input event. Events of other axes are not handled and
     * change nothing. A recenter event only requests a stop. Otherwise the
     * transformation is built once and cached, the transformed sample times
     * the speed becomes the target rate; a zero rate requests a stop, and a
     * non-zero one schedules a loop unless one is running.
     */
    method Notify(event: InputEvent, source: map<int, seq<(int, AbsInfo)>>, apply: (Transformation, int) -> real)
      returns (r: Result<bool>)
      requires Valid()
      modifies this
      ensures Valid()
      ensures event.TypeAndCode() != mapAxis ==> r == Ok(false) && unchanged(this)
      ensures event.TypeAndCode() == mapAxis && Recenter in event.actions ==>
                r == Ok(true) && stop &&
                value == old(value) && running == old(running) && transform == old(transform) &&
                pendingRuns == old(pendingRuns) && written == old(written)
      ensures event.TypeAndCode() == mapAxis && Recenter !in event.actions ==>
                var t := TransformFor(old(transform), source, event.code);
                (t.Err? ==> r == Err(t.error) && unchanged(this)) &&
                (t.Ok? ==>
                   r == Ok(true) && transform == Some(t.value) &&
                   value == apply(t.value, event.value) * Speed() &&
                   running == old(running) && written == old(written) &&
                   (value == 0.0 ==> stop && pendingRuns == old(pendingRuns)) &&
                   (value != 0.0 ==> stop == old(stop) &&
                                     pendingRuns == old(pendingRuns) + (if old(running) then 0 else 1)))
    {
      if event.TypeAndCode() != mapAxis {
        return Ok(false);
      }
      if Recenter in event.actions {
        stop := true;
        return Ok(true);
      }
      if transform.None? {
        if EV_ABS !in source {
          return Err(KeyError(EV_ABS));
        }
        var absinfo := AbsInfoMap(source[EV_ABS]);
        if event.code !in absinfo {
          return Err(KeyError(event.code));
        }
        transform := Some(Transformation(absinfo[event.code].max, absinfo[event.code].min,
                                         mapping.deadzone, mapping.gain, mapping.expo));
      }
      var transformed := apply(transform.value, event.value);
      value := transformed * Speed();
      if value == 0.0 {
        stop := true;
        return Ok(true);
      }
      if !running {
        pendingRuns := pendingRuns + 1;
      }
      return Ok(true);
    }

    /** Requests the loop to stop; nothing else changes. */
    method Reset()
      modifies this`stop
      ensures stop
    {
      stop := true;
    }

    /**
     * Sends one relative event: a zero value is never sent, and a value
     * that overflows is dropped (logged) without failing the caller.
     */
    method Write(evType: int, code: int, v: int)
      modifies this`written
      ensures written == old(written) + WriteOf(mapping.targetUinput, evType, code, v)
    {
      if v == 0 {
        return;
      }
      var overflow := Overflows(v);
      if !overflow {
        written := written + [UinputWrite(mapping.targetUinput, evType, code, v)];
      }
    }

    /** Whether an interrupt makes a running loop stop, given the cached transformation. */
    function Stops(i: Interrupt, t: Transformation, apply: (Transformation, int) -> real): bool
    {
      match i
      case ExternalReset => true
      case Incoming(e) =>
        e.TypeAndCode() == mapAxis && (Recenter in e.actions || apply(t, e.value) * Speed() == 0.0)
    }

    /** Whether some interrupt of a batch makes a running loop stop. */
    function BatchStops(batch: seq<Interrupt>, t: Transformation, apply: (Transformation, int) -> real): bool
    {
      |batch| > 0 && (BatchStops(batch[..|batch| - 1], t, apply) || Stops(batch[|batch| - 1], t, apply))
    }

    /** The target rate after a batch of interrupts, starting from `v`. */
    function RateAfter(batch: seq<Interrupt>, t: Transformation, apply: (Transformation, int) -> real, v: real): real
    {
      if |batch| == 0 then v
      else
        var before := RateAfter(batch[..|batch| - 1], t, apply, v);
        match batch[|batch| - 1]
        case ExternalReset => before
        case Incoming(e) =>
          if e.TypeAndCode() == mapAxis && Recenter !in e.actions then apply(t, e.value) * Speed() else before
    }

    /**
     * What a loop that started at rate `v0` has seen after the ticks at the
     * rates in `trace`: each rate is the one left by the interrupts delivered
     * after the previous tick, no batch before the last asked for a stop, and
     * `stopped` says whether the last one did; `v` is the current rate.
     */
    ghost predicate Observed(schedule: seq<seq<Interrupt>>, t: Transformation, apply: (Transformation, int) -> real,
                             v0: real, trace: seq<real>, v: real, stopped: bool)
    {
      |trace| <= |schedule| &&
      (|trace| == 0 ==> v == v0 && !stopped) &&
      (|trace| > 0 ==> trace[0] == v0 && v == RateAfter(schedule[|trace| - 1], t, apply, trace[|trace| - 1])) &&
      (forall k :: 0 <= k < |trace| - 1 ==> trace[k + 1] == RateAfter(schedule[k], t, apply, trace[k])) &&
      (forall k :: 0 <= k < |trace| - 1 ==> !BatchStops(schedule[k], t, apply)) &&
      (stopped <==> |trace| > 0 && BatchStops(schedule[|trace| - 1], t, apply))
    }

    /** A tick at the current rate followed by the next batch extends what was seen. */
    lemma ObserveTick(schedule: seq<seq<Interrupt>>, t: Transformation, apply: (Transformation, int) -> real,
                      v0: real, trace: seq<real>, v: real, next: real, stopped: bool)
      requires Observed(schedule, t, apply, v0, trace, v, false)
      requires |trace| < |schedule|
      requires next == RateAfter(schedule[|trace|], t, apply, v)
      requires stopped == BatchStops(schedule[|trace|], t, apply)
      ensures Observed(schedule, t, apply, v0, trace + [v], next, stopped)
    {
      var after := trace + [v];
      forall k | 0 <= k < |after| - 1
        ensures after[k + 1] == RateAfter(schedule[k], t, apply, after[k])
        ensures !BatchStops(schedule[k], t, apply)
      {
        if k == |trace| - 1 {
        } else {
          assert after[k] == trace[k] && after[k + 1] == trace[k + 1];
        }
      }
    }

    /**
     * The events and resets that reach a running handler while its loop
     * sleeps. The cached transformation is reused, no loop is scheduled and
     * nothing is written; the rate follows the last sample of the axis, and
     * a stop is requested once any of them asks for it.
     */
    method DeliverBatch(batch: seq<Interrupt>, source: map<int, seq<(int, AbsInfo)>>, apply: (Transformation, int) -> real)
      requires Valid() && running
      modifies this
      ensures Valid() && running
      ensures transform == old(transform) && pendingRuns == old(pendingRuns) && written == old(written)
      ensures value == RateAfter(batch, transform.value, apply, old(value))
      ensures stop == (old(stop) || BatchStops(batch, transform.value, apply))
    {
      for k := 0 to |batch|
        invariant Valid() && running
        invariant transform == old(transform) && pendingRuns == old(pendingRuns) && written == old(written)
        invariant value == RateAfter(batch[..k], transform.value, apply, old(value))
        invariant stop == (old(stop) || BatchStops(batch[..k], transform.value, apply))
      {
        assert batch[..k + 1][..k] == batch[..k];
        match batch[k]
        case ExternalReset =>
          Reset();
        case Incoming(e) =>
          var handled := Notify(e, source, apply);
      }
      assert batch[..|batch|] == batch;
    }

    /**
     * One tick of the pointer loop: the rate plus the carried remainder is
     * split into the whole value written and the remainder carried on.
     */
    method TickNormal(remainder: real) returns (newRemainder: real)
      modifies this`written
      ensures newRemainder == Step(value, remainder).1
      ensures written == old(written) + WriteOf(mapping.targetUinput, EV_REL, mapping.outputCode, Step(value, remainder).0)
    {
      var floatValue := value + remainder;
      newRemainder := FMod1(floatValue);
      var v := Trunc(floatValue);
      Write(EV_REL, mapping.outputCode, v);
    }

    /**
     * One tick of the wheel loop: the same split as the pointer loop, done
     * on both wheel channels, each with its own weight and remainder.
     */
    method TickWheel(rem: array<real>)
      requires mode.Wheel? && rem.Length == 2
      modifies this`written, rem
      ensures var tick := WheelTick(mapping.targetUinput, mode.codes, mode.weights, old(value), old(rem[0]), old(rem[1]));
              written == old(written) + tick.0 && rem[0] == tick.1 && rem[1] == tick.2
    {
      ghost var rate0, rate1 := Weighted(value, mode.weights.0), Weighted(value, mode.weights.1);
      ghost var w0 := WriteOf(mapping.targetUinput, EV_REL, mode.codes.0, Step(rate0, rem[0]).0);
      ghost var w1 := WriteOf(mapping.targetUinput, EV_REL, mode.codes.1, Step(rate1, rem[1]).0);
      for i := 0 to 2
        invariant i >= 1 ==> rem[0] == Step(rate0, old(rem[0])).1
        invariant i < 1 ==> rem[0] == old(rem[0])
        invariant i >= 2 ==> rem[1] == Step(rate1, old(rem[1])).1
        invariant i < 2 ==> rem[1] == old(rem[1])
        invariant written == old(written) + (if i >= 1 then w0 else []) + (if i >= 2 then w1 else [])
      {
        var weight, code := mode.weights.0, mode.codes.0;
        if i == 1 {
          weight, code := mode.weights.1, mode.codes.1;
        }
        ghost var r := rem[i];
        assert value == old(value);
        assert Weighted(value, weight) == if i == 0 then rate0 else rate1;
        var next := TickChannel(code, weight, rem[i]);
        assert next == Step(if i == 0 then rate0 else rate1, r).1;
        rem[i] := next;
      }
    }

    /** One wheel channel within a tick: the rate scaled by the channel's weight, split like a pointer tick. */
    method TickChannel(code: int, weight: real, remainder: real) returns (newRemainder: real)
      modifies this`written
      ensures newRemainder == Step(Weighted(old(value), weight), remainder).1
      ensures written == old(written) + WriteOf(mapping.targetUinput, EV_REL, code, Step(Weighted(old(value), weight), remainder).0)
    {
      var floatValue := Weighted(value, weight) + remainder;
      newRemainder := FMod1(floatValue);
      var v := Trunc(floatValue);
      Write(EV_REL, code, v);
    }

    /**
     * The pointer loop, observed over one batch of interrupts per tick. It
     * starts one scheduled loop with a zero remainder, ticks at the current
     * rate, and returns once a stop was requested. `trace` is the rate at
     * each tick: the first is the rate when the loop started, each next one
     * the rate after the interrupts in between. What is written is exactly
     * what integrating those rates emits on the mapped output code.
     */
    method RunNormal(schedule: seq<seq<Interrupt>>, source: map<int, seq<(int, AbsInfo)>>, apply: (Transformation, int) -> real)
      returns (ghost trace: seq<real>)
      requires Valid() && mode.Normal? && pendingRuns > 0
      modifies this
      ensures Valid() && transform == old(transform) && transform.Some?
      ensures pendingRuns == old(pendingRuns) - 1
      ensures Observed(schedule, transform.value, apply, old(value), trace, value, stop)
      ensures !stop ==> |trace| == |schedule|
      ensures running == !stop
      ensures written == old(written) + PointerRun(mapping.targetUinput, mapping.outputCode, trace).0
    {
      pendingRuns := pendingRuns - 1;
      running := true;
      stop := false;
      var remainder := 0.0;
      // what the loop has written so far, and the remainder it carries
      ghost var run: (seq<UinputWrite>, real) := ([], 0.0);
      trace := [];
      ghost var t := transform.value;
      var i := 0;
      while !stop && i < |schedule|
        invariant Valid() && running && transform == Some(t)
        invariant pendingRuns == old(pendingRuns) - 1
        invariant i == |trace|
        invariant Observed(schedule, t, apply, old(value), trace, value, stop)
        invariant run == PointerRun(mapping.targetUinput, mapping.outputCode, trace)
        invariant written == old(written) + run.0 && remainder == run.1
        decreases |schedule| - i
      {
        ghost var before, rate := trace, value;
        ghost var tick := Step(rate, remainder);
        ghost var writes := WriteOf(mapping.targetUinput, EV_REL, mapping.outputCode, tick.0);
        remainder := TickNormal(remainder);
        AppendAssoc(old(written), run.0, writes);
        run := (run.0 + writes, tick.1);
        PointerRunTick(mapping.targetUinput, mapping.outputCode, before, rate);
        trace := trace + [rate];
        DeliverBatch(schedule[i], source, apply);
        ObserveTick(schedule, t, apply, old(value), before, rate, value, stop);
        i := i + 1;
      }
      if stop {
        running := false;
      }
    }

    /**
     * The wheel loop, observed like `RunNormal`: each tick drives both wheel
     * channels from the same rate, each with its own weight and remainder,
     * and what is written is, tick by tick, each channel's integrated output.
     */
    method RunWheel(schedule: seq<seq<Interrupt>>, source: map<int, seq<(int, AbsInfo)>>, apply: (Transformation, int) -> real)
      returns (ghost trace: seq<real>)
      requires Valid() && mode.Wheel? && pendingRuns > 0
      modifies this
      ensures Valid() && transform == old(transform) && transform.Some?
      ensures pendingRuns == old(pendingRuns) - 1
      ensures Observed(schedule, transform.value, apply, old(value), trace, value, stop)
      ensures !stop ==> |trace| == |schedule|
      ensures running == !stop
      ensures written == old(written) + WheelRun(mapping.targetUinput, mode.codes, mode.weights, trace).0
    {
      pendingRuns := pendingRuns - 1;
      running := true;
      stop := false;
      // what the loop has written so far, and the remainders it carries
      ghost var run: (seq<UinputWrite>, real, real) := ([], 0.0, 0.0);
      var rem := new real[2];
      rem[0], rem[1] := 0.0, 0.0;
      trace := [];
      ghost var t := transform.value;
      var i := 0;
      while !stop && i < |schedule|
        invariant Valid() && running && transform == Some(t)
        invariant pendingRuns == old(pendingRuns) - 1
        invariant i == |trace|
        invariant Observed(schedule, t, apply, old(value), trace, value, stop)
        invariant run == WheelRun(mapping.targetUinput, mode.codes, mode.weights, trace)
        invariant written == old(written) + run.0 && rem[0] == run.1 && rem[1] == run.2
        decreases |schedule| - i
      {
        ghost var before, rate := trace, value;
        ghost var tick := WheelTick(mapping.targetUinput, mode.codes, mode.weights, rate, rem[0], rem[1]);
        TickWheel(rem);
        AppendAssoc(old(written), run.0, tick.0);
        run := (run.0 + tick.0, tick.1, tick.2);
        WheelRunTick(mapping.targetUinput, mode.codes, mode.weights, before, rate);
        trace := trace + [rate];
        DeliverBatch(schedule[i], source, apply);
        ObserveTick(schedule, t, apply, old(value), before, rate, value, stop);
        i := i + 1;
      }
      if stop {
        running := false;
      }
    }

    /** A handler whose combination has more than one event must be wrapped. */
    function NeedsWrapping(): bool
    {
      |inputEvents| > 1
    }

    /**
     * The wrapper this handler asks for: an axis switch keyed by its whole
     * combination exactly when it needs wrapping, otherwise none.
     */
    function WrapWith(): (m: map<seq<InputEvent>, HandlerEnum>)
      ensures |inputEvents| > 1 <==> inputEvents in m
      ensures forall c :: c in m ==> c == inputEvents && m[c] == AxisSwitch
    {
      if NeedsWrapping() then map[inputEvents := AxisSwitch] else map[]
    }

    /** The handler cannot have a sub-handler: the call always fails. */
    method SetSubHandler<H>(handler: H) returns (ok: bool)
      ensures !ok
    {
      ok := false;
    }
  }
}
