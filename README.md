# AbsToRelHandler: analog axis to relative motion

This model covers input-remapper's `AbsToRelHandler`. The handler maps one absolute (`EV_ABS`)
axis of an input device to relative motion on a virtual output device.

- **Notification.** Each notification for the mapped axis sets a target rate: the axis sample
  passed through the axis transformation, times the mapping's speed. A non-zero rate starts an
  asynchronous emission loop, unless one is already running. A zero rate, or a recenter event,
  asks the loop to stop.
- **Pointer output.** On each tick the loop adds the target rate to a carried remainder. It
  writes the integer part, truncated toward zero, and carries on the `fmod(_, 1)` leftover, so
  fractional rates do not drift over many ticks.
- **Wheel output.** Wheel outputs drive the low- and high-resolution channel of the same wheel
  on every tick. Each channel has its own weight and its own remainder, and the high-resolution
  weight is always 120 times the low-resolution one.

The project has three modules:

- `Ecodes` and `Events` (`events.dfy`) hold:
  - the evdev constants;
  - the event records;
  - what one `_write` sends (zero and overflowing values are never sent);
  - the specification functions `PointerRun` and `WheelRun`, which give what a loop writes,
    tick by tick, for a given sequence of target rates;
  - the lemmas that tie those functions to the integration.
- `Integrate` (`integrate.dfy`) holds the arithmetic:
  - truncation and `fmod`;
  - one tick (`Step`), with the balance `emitted + new remainder == rate + old remainder`;
  - a whole run of ticks (`Accumulate`);
  - the bounds over N ticks;
  - the 1:120 ratio of the two wheel channels.
- `AbsToRel` (`abs_to_rel.dfy`) holds the handler as a class:
  - `value`, `running`, `stop` and `transform` are updated in place, as in the source;
  - `pendingRuns` counts loops that `notify` scheduled but that have not started yet;
  - `written` is the sequence of writes sent to the virtual device.
  - The two loops are methods. The wheel loop keeps its two remainders in a two-element array.
  - Each loop is proved against `PointerRun` or `WheelRun` and against the `Observed` record of
    the rates it saw.

The asynchronous sleep between two ticks is modelled as a point where a batch of interrupts
arrives: further events of the device, or an external `reset`. A loop is observed over a finite
schedule of such batches. It ends when a batch leaves `stop` set, or when the schedule runs out
(the loop is still running then).

In this model, two notifications that arrive before the first scheduled loop has started
schedule two loops, because the source sets `_running` only when a loop starts.
`AbsToRelHandler.Notify` states this (`pendingRuns` grows while `running` is false).

## Model

| member | source | states |
|---|---|---|
| Integrate.Trunc | inputremapper/injection/mapping_handlers/abs_to_rel_handler.py:60 | `int()` of a float truncates toward zero: for a non-negative x the result lies in (x-1, x], and for a negative x it lies in [x, x+1) and is at most 0 |
| Integrate.FMod1 | inputremapper/injection/mapping_handlers/abs_to_rel_handler.py:59 | `fmod(x, 1)` is smaller than 1 in magnitude and keeps the sign of x. Subtracting it from x leaves a whole number |
| Integrate.Step | inputremapper/injection/mapping_handlers/abs_to_rel_handler.py:57-61 | One tick: the emitted value plus the new remainder equals the rate plus the old remainder. The new remainder lies strictly between -1 and 1. The remainder and the emitted value have the sign of rate + old remainder |
| Integrate.Accumulate | inputremapper/injection/mapping_handlers/abs_to_rel_handler.py:54-65 | A run of ticks emits one value per rate. The sum emitted plus the final remainder equals the sum of the rates plus the initial remainder. After at least one tick the remainder is below 1 in magnitude. From a zero remainder the sum emitted is within 1 of the sum of the rates |
| Integrate.SumRepeat | inputremapper/injection/mapping_handlers/abs_to_rel_handler.py:56-57 | A rate held for n ticks sums to n times the rate |
| Integrate.SumScaled | inputremapper/injection/mapping_handlers/abs_to_rel_handler.py:82 | The sum of a channel's weighted rates is the weight times the sum of the rates |
| Integrate.RemainderNonNegative | inputremapper/injection/mapping_handlers/abs_to_rel_handler.py:57-59 | With non-negative rates from a non-negative remainder, the carried remainder stays non-negative |
| Integrate.RemainderNonPositive | inputremapper/injection/mapping_handlers/abs_to_rel_handler.py:57-59 | With non-positive rates from a non-positive remainder, the carried remainder stays non-positive |
| Integrate.ConstantRateTotal | inputremapper/injection/mapping_handlers/abs_to_rel_handler.py:54-61 | A constant rate held for N ticks of a fresh loop emits in total exactly `int(N * rate)`, for either sign of the rate, so the total is within 1 of N * rate |
| Integrate.TruncOfBalance | inputremapper/injection/mapping_handlers/abs_to_rel_handler.py:59-60 | A whole number plus a leftover on the same side of zero, smaller than 1 in magnitude, is the truncation of their sum |
| Integrate.TruncUnique | inputremapper/injection/mapping_handlers/abs_to_rel_handler.py:60 | The only integer within one step of x on the zero side of x is `int(x)` |
| Integrate.WheelRatio | inputremapper/injection/mapping_handlers/abs_to_rel_handler.py:78-86 | For any rates, the high-resolution channel (weight 120 times the low one) has emitted-plus-carried motion exactly 120 times the low channel's. Their emitted totals keep the 1:120 ratio to within 121 high-resolution units |
| Integrate.SumScaledRatio | inputremapper/injection/mapping_handlers/abs_to_rel_handler.py:137-140 | With weights in the ratio 1:120, the weighted rate sums are in the ratio 1:120 |
| Events.AbsInfoMap | inputremapper/injection/mapping_handlers/abs_to_rel_handler.py:173-176 | The absinfo dictionary has every listed code as a key, and each key maps to a range listed for that code. The final entry of the list always wins for its code |
| Events.AbsInfoMapLast | inputremapper/injection/mapping_handlers/abs_to_rel_handler.py:173-176 | A code listed more than once maps to the range of its last entry in the list |
| Events.AbsInfoMapLastEntry | inputremapper/injection/mapping_handlers/abs_to_rel_handler.py:173-176 | The range a code maps to is the range of the last entry listed for that code |
| Events.WriteOf | inputremapper/injection/mapping_handlers/abs_to_rel_handler.py:205-216 | `_write` sends at most one event, and sends one exactly when the value is non-zero and does not overflow. That event is the given (type, code, value) on the mapping's target device |
| Events.OutputsWellFormed | inputremapper/injection/mapping_handlers/abs_to_rel_handler.py:209-216 | A pointer run sends at most one event per tick. Each event is on the run's device, type and code, with a non-zero value in the C int range |
| Events.WheelOutputsWellFormed | inputremapper/injection/mapping_handlers/abs_to_rel_handler.py:81-86 | A wheel run sends at most two events per tick. Each is `EV_REL` on one of the two wheel codes, non-zero and in range |
| Events.OutputsKeepTotal | inputremapper/injection/mapping_handlers/abs_to_rel_handler.py:209-210 | Dropping zero values loses no motion: when no value overflows, the written motion equals the sum emitted |
| Events.WheelLowChannel | inputremapper/injection/mapping_handlers/abs_to_rel_handler.py:81-86 | The writes of a wheel run on the low-resolution code are exactly that channel's own run of writes |
| Events.WheelHighChannel | inputremapper/injection/mapping_handlers/abs_to_rel_handler.py:81-86 | The writes of a wheel run on the high-resolution code are exactly that channel's own run of writes |
| Events.WheelChannels | inputremapper/injection/mapping_handlers/abs_to_rel_handler.py:81-86 | The two channels of a wheel run do not mix: filtering the interleaved writes by code gives each channel's own run |
| Events.PointerRunIntegrates | inputremapper/injection/mapping_handlers/abs_to_rel_handler.py:54-65 | What the pointer loop writes is exactly the non-zero, in-range values emitted by integrating its rates from a zero remainder. It carries that integration's remainder |
| Events.WheelRunRemainders | inputremapper/injection/mapping_handlers/abs_to_rel_handler.py:78-86 | Each wheel channel carries the remainder of integrating the rates times its weight |
| Events.WheelRunIntegrates | inputremapper/injection/mapping_handlers/abs_to_rel_handler.py:78-90 | The wheel loop writes, tick by tick, each channel's integration of its weighted rates, low channel first. It carries each channel's remainder |
| AbsToRel.SelectRun | inputremapper/injection/mapping_handlers/abs_to_rel_handler.py:125-145 | The wheel loop is chosen exactly for the four wheel codes. The codes are the vertical or horizontal (low, high) pair that contains the output code. The mapped code moves at weight 1, and the high weight is 120 times the low one. Every other code gets the pointer loop |
| AbsToRel.FirstZero | inputremapper/injection/mapping_handlers/abs_to_rel_handler.py:113-118 | The position of the first event of the combination with value 0, and every event before it is non-zero |
| AbsToRel.AbsToRelHandler.constructor | inputremapper/injection/mapping_handlers/abs_to_rel_handler.py:105-145 | The mapped axis is the (type, code) of the first zero-valued event, which is `EV_ABS`. A fresh handler is idle: value 0, not running, stop set, no transformation. The loop is chosen by `SelectRun` |
| AbsToRel.AbsToRelHandler.TransformFor | inputremapper/injection/mapping_handlers/abs_to_rel_handler.py:172-183 | A cached transformation is reused. Otherwise one is built from the device's range for the event code (its last listed entry) and the mapping's deadzone, gain and expo. A device without absolute axes, or without that code, is a KeyError |
| AbsToRel.AbsToRelHandler.Notify | inputremapper/injection/mapping_handlers/abs_to_rel_handler.py:157-200 | Events of other axes return False and change nothing. Recenter sets stop and changes nothing else. Otherwise the transformation is built once and cached, and value becomes the transformed sample times the wheel or pointer speed. A zero value sets stop and schedules nothing. A non-zero value schedules a loop exactly when none is running. A missing axis range is a KeyError that changes nothing |
| AbsToRel.AbsToRelHandler.Reset | inputremapper/injection/mapping_handlers/abs_to_rel_handler.py:202-203 | Sets stop and changes nothing else |
| AbsToRel.AbsToRelHandler.Write | inputremapper/injection/mapping_handlers/abs_to_rel_handler.py:205-216 | Appends exactly what `WriteOf` sends: nothing for zero or an overflowing value, else the event |
| AbsToRel.AbsToRelHandler.ObserveTick | inputremapper/injection/mapping_handlers/abs_to_rel_handler.py:56-65 | A tick at the current rate, followed by the next batch of interrupts, extends the record of rates a loop has seen |
| AbsToRel.AbsToRelHandler.DeliverBatch | inputremapper/injection/mapping_handlers/abs_to_rel_handler.py:157-203 | The events and resets that reach a running loop reuse the cached transformation, schedule nothing and write nothing. The rate follows the last matching sample, and stop becomes set once any of them asks for it |
| AbsToRel.AbsToRelHandler.TickNormal | inputremapper/injection/mapping_handlers/abs_to_rel_handler.py:57-61 | One pointer tick writes `Step`'s emitted value (through `_write`) and returns `Step`'s remainder |
| AbsToRel.AbsToRelHandler.TickWheel | inputremapper/injection/mapping_handlers/abs_to_rel_handler.py:81-86 | One wheel tick runs `Step` on both channels, each with its weighted rate and its own remainder. It writes the low channel first and updates both array slots |
| AbsToRel.AbsToRelHandler.TickChannel | inputremapper/injection/mapping_handlers/abs_to_rel_handler.py:82-86 | One channel of a wheel tick: `Step` of the rate times the weight, plus the remainder |
| AbsToRel.AbsToRelHandler.RunNormal | inputremapper/injection/mapping_handlers/abs_to_rel_handler.py:49-68 | The loop starts a scheduled run and clears stop. It ticks until a batch of interrupts sets stop, and then is no longer running. The rates it ticked at are exactly those the interrupts left. What it wrote is `PointerRun` of those rates, which `PointerRunIntegrates` equates with the integration |
| AbsToRel.AbsToRelHandler.RunWheel | inputremapper/injection/mapping_handlers/abs_to_rel_handler.py:71-93 | The same loop discipline as `RunNormal`. What it wrote is `WheelRun` of the rates, which `WheelRunIntegrates` equates with both channels' weighted integrations |
| AbsToRel.AbsToRelHandler.WrapWith | inputremapper/injection/mapping_handlers/abs_to_rel_handler.py:218-227 | The combination is mapped to the axis switch exactly when it has more than one event, and the map has no other key. Otherwise the map is empty |
| AbsToRel.AbsToRelHandler.SetSubHandler | inputremapper/injection/mapping_handlers/abs_to_rel_handler.py:221-222 | Setting a sub-handler always fails |

Proof helpers, which restate a recursive definition one tick further or state a general fact
about sequences, are not listed above: `Integrate.AccumulateSnoc`, `Integrate.ScaledSnoc`,
`Integrate.TotalSign`, `Integrate.ConstantWheelChannel`, `Events.AppendAssoc`,
`Events.LastIndexOf`, `Events.OnCodeAppend`, `Events.TotalMotionAppend`, `Events.OnCodeWriteOf`,
`Events.OutputsTick`, `Events.WheelOutputsTick`, `Events.PointerRunTick` and
`Events.WheelRunTick`. `AbsToRel.AbsToRelHandler.NeedsWrapping`
(abs_to_rel_handler.py:218-219) is a plain function used by `WrapWith`, whose contract states
when wrapping applies.

## Left out

- Timing: the sleep between ticks, the `rel_xy_rate`/`rel_wheel_rate` pacing and the
  `time.time()` jitter compensation (abs_to_rel_handler.py:55, 63-65, 79, 88-90) are not
  modelled. A sleep is the point where one batch of interrupts is delivered.
- Concurrency: `asyncio.ensure_future` is modelled as a count of scheduled loops (`pendingRuns`).
  A loop is modelled as starting from that count. Two loops interleaving their ticks is not
  modelled.
- AbsToRel.AbsToRelHandler.RunNormal: the loop is observed over a finite schedule. A loop that
  never stops is covered only up to the end of the schedule.
- AbsToRel.AbsToRelHandler.RunWheel: the same finite-schedule bound as `RunNormal`.
- The transformation's arithmetic (deadzone, gain, expo): `axis_transform.py` is not part of this
  model. Applying a transformation is an opaque function parameter.
- `source.capabilities(absinfo=True)` is modelled as a parameter: a map from event type to the
  (code, range) list.
- `global_uinputs.write` is modelled as appending to `written`. `OverflowError` is modelled as a
  value outside the signed 32-bit range, which the event write cannot hold. `mapping.py`,
  `global_uinputs` and `mapping_handler.py` are not part of this model.
- `Mapping.is_wheel_output()` is a boolean field of the mapping record, because its definition
  is not part of this model.
- Floating point: rates, remainders, weights and speeds are exact reals. IEEE rounding (for
  example of `1 / 120`) is not modelled.
- AbsToRel.AbsToRelHandler.constructor: requires a zero-valued `EV_ABS` event in the combination.
  The source asserts the type. Without such an event it leaves the mapped axis unset, and
  `notify` would then fail on the missing attribute.
- AbsToRel.AbsToRelHandler.SetSubHandler: the failing `assert` is modelled as a `false` result.
- Logging, `__str__`, `__repr__` and `child`, and the unused `forward`/`supress` arguments of
  `notify`, carry no behaviour.
- The test files `tests/cleanup.py` and `tests/integration/test_gui.py` are test plumbing and
  GUI tests, and are not modelled.
