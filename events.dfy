/** The Linux input-event codes the handler uses (linux/input-event-codes.h). */
module Ecodes {
  const EV_REL: int := 0x02
  const EV_ABS: int := 0x03

  const REL_HWHEEL: int := 0x06
  const REL_WHEEL: int := 0x08
  const REL_WHEEL_HI_RES: int := 0x0b
  const REL_HWHEEL_HI_RES: int := 0x0c

  /** A uinput write carries the value as a signed 32-bit C int. */
  const INT32_MIN: int := -0x8000_0000
  const INT32_MAX: int := 0x7fff_ffff
}

/** Input events, device capabilities and the writes sent to a virtual device. */
module Events {
  import opened Ecodes
  import opened Integrate

  datatype Option<T> = None | Some(value: T)

  /** Out-of-band flags an input event may carry. */
  datatype EventAction = Recenter | AsKey | NegativeTrigger

  datatype InputEvent = InputEvent(evType: int, code: int, value: int, actions: set<EventAction>)
  {
    function TypeAndCode(): (int, int) { (evType, code) }
  }

  /** The range a device reports for one absolute axis. */
  datatype AbsInfo = AbsInfo(min: int, max: int)

  /** One `(type, code, value)` write on the named virtual output device. */
  datatype UinputWrite = UinputWrite(target: string, evType: int, code: int, value: int)

  /** Writing a value that does not fit a C int raises OverflowError. */
  predicate Overflows(v: int)
  {
    v < INT32_MIN || INT32_MAX < v
  }

  /**
   * The dictionary built from a device's `(code, absinfo)` capability list:
   * every listed code is a key, and a code listed twice keeps its last entry.
   */
  function AbsInfoMap(entries: seq<(int, AbsInfo)>): (m: map<int, AbsInfo>)
    ensures forall k :: 0 <= k < |entries| ==> entries[k].0 in m
    ensures forall c :: c in m ==> exists k :: 0 <= k < |entries| && entries[k] == (c, m[c])
    ensures |entries| > 0 ==> m[entries[|entries| - 1].0] == entries[|entries| - 1].1
  {
    if |entries| == 0 then map[]
    else
      var last := entries[|entries| - 1];
      var prefix := entries[..|entries| - 1];
      var m := AbsInfoMap(prefix);
      assert forall k :: 0 <= k < |prefix| ==> prefix[k] == entries[k];
      m[last.0 := last.1]
  }

  /** A code maps to its last entry in the list, however often it is listed before. */
  lemma {:induction false} AbsInfoMapLast(entries: seq<(int, AbsInfo)>, k: int)
    requires 0 <= k < |entries|
    requires forall j :: k < j < |entries| ==> entries[j].0 != entries[k].0
    ensures AbsInfoMap(entries)[entries[k].0] == entries[k].1
  {
    var n := |entries| - 1;
    if k < n {
      var prefix := entries[..n];
      assert forall j :: 0 <= j < n ==> prefix[j] == entries[j];
      AbsInfoMapLast(prefix, k);
    }
  }

  /** The position of the last entry listed for code `c`, or -1 when there is none. */
  function LastIndexOf(entries: seq<(int, AbsInfo)>, c: int): (k: int)
    ensures -1 <= k < |entries|
    ensures k >= 0 ==> entries[k].0 == c
    ensures forall j :: k < j < |entries| ==> entries[j].0 != c
  {
    if |entries| == 0 then -1
    else if entries[|entries| - 1].0 == c then |entries| - 1
    else
      var prefix := entries[..|entries| - 1];
      assert forall j :: 0 <= j < |prefix| ==> prefix[j] == entries[j];
      LastIndexOf(prefix, c)
  }

  /** The range a code maps to comes from the code's last entry in the list. */
  lemma AbsInfoMapLastEntry(entries: seq<(int, AbsInfo)>, c: int)
    requires c in AbsInfoMap(entries)
    ensures exists k :: 0 <= k < |entries| && entries[k] == (c, AbsInfoMap(entries)[c]) &&
                        forall j :: k < j < |entries| ==> entries[j].0 != c
  {
    var m := AbsInfoMap(entries);
    var i :| 0 <= i < |entries| && entries[i] == (c, m[c]);
    var k := LastIndexOf(entries, c);
    assert entries[i].0 == c;
    assert k >= 0;
    AbsInfoMapLast(entries, k);
    assert entries[k] == (c, m[c]);
  }

  /**
   * What one `_write(evType, code, v)` sends: nothing for a zero value
   * (relative motion of 0 means nothing) or for a value that overflows
   * (the error is logged and swallowed), otherwise exactly that event.
   */
  function WriteOf(target: string, evType: int, code: int, v: int): (w: seq<UinputWrite>)
    ensures |w| <= 1
    ensures w != [] <==> v != 0 && !Overflows(v)
    ensures forall k :: 0 <= k < |w| ==> w[k] == UinputWrite(target, evType, code, v)
  {
    if v == 0 || Overflows(v) then [] else [UinputWrite(target, evType, code, v)]
  }

  /** The writes of a run of ticks on one channel, one `_write` per emitted value. */
  function Outputs(target: string, evType: int, code: int, emitted: seq<int>): seq<UinputWrite>
  {
    if |emitted| == 0 then []
    else Outputs(target, evType, code, emitted[..|emitted| - 1]) + WriteOf(target, evType, code, emitted[|emitted| - 1])
  }

  /**
   * The writes of a run of wheel ticks: per tick, the first channel's write
   * and then the second's.
   */
  function WheelOutputs(target: string, codes: (int, int), lo: seq<int>, hi: seq<int>): seq<UinputWrite>
    requires |lo| == |hi|
  {
    if |lo| == 0 then []
    else
      var n := |lo| - 1;
      WheelOutputs(target, codes, lo[..n], hi[..n])
        + WriteOf(target, EV_REL, codes.0, lo[n]) + WriteOf(target, EV_REL, codes.1, hi[n])
  }

  /** The writes that went to one output code. */
  function OnCode(w: seq<UinputWrite>, code: int): seq<UinputWrite>
  {
    if |w| == 0 then []
    else OnCode(w[..|w| - 1], code) + (if w[|w| - 1].code == code then [w[|w| - 1]] else [])
  }

  function TotalMotion(w: seq<UinputWrite>): int
  {
    if |w| == 0 then 0 else TotalMotion(w[..|w| - 1]) + w[|w| - 1].value
  }

  /**
   * Every write of a run is on the run's device, type and code, and carries
   * a value that is neither zero nor out of the C int range.
   */
  lemma {:induction false} OutputsWellFormed(target: string, evType: int, code: int, emitted: seq<int>)
    ensures var w := Outputs(target, evType, code, emitted);
            |w| <= |emitted| &&
            forall k :: 0 <= k < |w| ==>
              w[k].target == target && w[k].evType == evType && w[k].code == code &&
              w[k].value != 0 && !Overflows(w[k].value)
  {
    if |emitted| > 0 {
      OutputsWellFormed(target, evType, code, emitted[..|emitted| - 1]);
    }
  }

  /**
   * Every write of a run of wheel ticks is a relative event on one of the
   * two wheel codes, with a value that is neither zero nor out of range.
   */
  lemma {:induction false} WheelOutputsWellFormed(target: string, codes: (int, int), lo: seq<int>, hi: seq<int>)
    requires |lo| == |hi|
    ensures var w := WheelOutputs(target, codes, lo, hi);
            |w| <= 2 * |lo| &&
            forall k :: 0 <= k < |w| ==>
              w[k].target == target && w[k].evType == EV_REL &&
              (w[k].code == codes.0 || w[k].code == codes.1) &&
              w[k].value != 0 && !Overflows(w[k].value)
  {
    if |lo| > 0 {
      var n := |lo| - 1;
      WheelOutputsWellFormed(target, codes, lo[..n], hi[..n]);
    }
  }

  lemma AppendAssoc<T>(a: seq<T>, b: seq<T>, c: seq<T>)
    ensures a + b + c == a + (b + c)
  {
  }

  lemma OnCodeAppend(a: seq<UinputWrite>, b: seq<UinputWrite>, code: int)
    ensures OnCode(a + b, code) == OnCode(a, code) + OnCode(b, code)
    decreases |b|
  {
    if |b| == 0 {
      assert a + b == a;
    } else {
      var n := |b| - 1;
      assert (a + b)[..|a + b| - 1] == a + b[..n];
      assert (a + b)[|a + b| - 1] == b[n];
      OnCodeAppend(a, b[..n], code);
    }
  }

  lemma TotalMotionAppend(a: seq<UinputWrite>, b: seq<UinputWrite>)
    ensures TotalMotion(a + b) == TotalMotion(a) + TotalMotion(b)
    decreases |b|
  {
    if |b| == 0 {
      assert a + b == a;
    } else {
      var n := |b| - 1;
      assert (a + b)[..|a + b| - 1] == a + b[..n];
      assert (a + b)[|a + b| - 1] == b[n];
      TotalMotionAppend(a, b[..n]);
    }
  }

  /**
   * Suppressing zero writes loses no motion: when no emitted value
   * overflows, the values written add up to the values emitted.
   */
  lemma {:induction false} OutputsKeepTotal(target: string, evType: int, code: int, emitted: seq<int>)
    requires forall k :: 0 <= k < |emitted| ==> !Overflows(emitted[k])
    ensures TotalMotion(Outputs(target, evType, code, emitted)) == Sum(emitted)
  {
    if |emitted| > 0 {
      var n := |emitted| - 1;
      var prev := Outputs(target, evType, code, emitted[..n]);
      var last := WriteOf(target, evType, code, emitted[n]);
      assert Outputs(target, evType, code, emitted) == prev + last;
      OutputsKeepTotal(target, evType, code, emitted[..n]);
      TotalMotionAppend(prev, last);
      assert TotalMotion(last) == emitted[n] by {
        if last != [] {
          assert last[..0] == [];
        }
      }
      assert Sum(emitted) == Sum(emitted[..n]) + emitted[n];
    }
  }

  /** A single write seen through one output code: kept when the codes agree. */
  lemma OnCodeWriteOf(target: string, evType: int, code: int, v: int, on: int)
    ensures OnCode(WriteOf(target, evType, code, v), on) == if code == on then WriteOf(target, evType, code, v) else []
  {
    var w := WriteOf(target, evType, code, v);
    if w != [] {
      assert w[..0] == [];
    }
  }

  lemma {:induction false} WheelLowChannel(target: string, codes: (int, int), lo: seq<int>, hi: seq<int>)
    requires |lo| == |hi|
    requires codes.0 != codes.1
    ensures OnCode(WheelOutputs(target, codes, lo, hi), codes.0) == Outputs(target, EV_REL, codes.0, lo)
  {
    if |lo| > 0 {
      var n := |lo| - 1;
      var prev := WheelOutputs(target, codes, lo[..n], hi[..n]);
      var w0 := WriteOf(target, EV_REL, codes.0, lo[n]);
      var w1 := WriteOf(target, EV_REL, codes.1, hi[n]);
      assert WheelOutputs(target, codes, lo, hi) == prev + w0 + w1;
      assert Outputs(target, EV_REL, codes.0, lo) == Outputs(target, EV_REL, codes.0, lo[..n]) + w0;
      WheelLowChannel(target, codes, lo[..n], hi[..n]);
      OnCodeAppend(prev + w0, w1, codes.0);
      OnCodeAppend(prev, w0, codes.0);
      OnCodeWriteOf(target, EV_REL, codes.0, lo[n], codes.0);
      OnCodeWriteOf(target, EV_REL, codes.1, hi[n], codes.0);
    }
  }

  lemma {:induction false} WheelHighChannel(target: string, codes: (int, int), lo: seq<int>, hi: seq<int>)
    requires |lo| == |hi|
    requires codes.0 != codes.1
    ensures OnCode(WheelOutputs(target, codes, lo, hi), codes.1) == Outputs(target, EV_REL, codes.1, hi)
  {
    if |lo| > 0 {
      var n := |lo| - 1;
      var prev := WheelOutputs(target, codes, lo[..n], hi[..n]);
      var w0 := WriteOf(target, EV_REL, codes.0, lo[n]);
      var w1 := WriteOf(target, EV_REL, codes.1, hi[n]);
      assert WheelOutputs(target, codes, lo, hi) == prev + w0 + w1;
      assert Outputs(target, EV_REL, codes.1, hi) == Outputs(target, EV_REL, codes.1, hi[..n]) + w1;
      WheelHighChannel(target, codes, lo[..n], hi[..n]);
      OnCodeAppend(prev, w0, codes.1);
      OnCodeWriteOf(target, EV_REL, codes.0, lo[n], codes.1);
      assert OnCode(prev + w0, codes.1) == OnCode(prev, codes.1) + [];
      assert OnCode(prev + w0, codes.1) == Outputs(target, EV_REL, codes.1, hi[..n]);
      OnCodeAppend(prev + w0, w1, codes.1);
      OnCodeWriteOf(target, EV_REL, codes.1, hi[n], codes.1);
    }
  }

  /**
   * The interleaved wheel writes, split by output code, are each channel's
   * own writes: the two channels do not interfere.
   */
  lemma WheelChannels(target: string, codes: (int, int), lo: seq<int>, hi: seq<int>)
    requires |lo| == |hi|
    requires codes.0 != codes.1
    ensures OnCode(WheelOutputs(target, codes, lo, hi), codes.0) == Outputs(target, EV_REL, codes.0, lo)
    ensures OnCode(WheelOutputs(target, codes, lo, hi), codes.1) == Outputs(target, EV_REL, codes.1, hi)
  {
    WheelLowChannel(target, codes, lo, hi);
    WheelHighChannel(target, codes, lo, hi);
  }

  /** One more tick of a run appends that tick's write. */
  lemma OutputsTick(target: string, evType: int, code: int, rates: seq<real>, x: real)
    ensures var prev := Accumulate(rates, 0.0);
            Outputs(target, evType, code, Accumulate(rates + [x], 0.0).0)
              == Outputs(target, evType, code, prev.0) + WriteOf(target, evType, code, Step(x, prev.1).0)
  {
    AccumulateSnoc(rates, x, 0.0);
    var emitted := Accumulate(rates + [x], 0.0).0;
    assert emitted[..|rates|] == Accumulate(rates, 0.0).0;
  }

  /** One more wheel tick appends the first channel's write and then the second's. */
  lemma WheelOutputsTick(target: string, codes: (int, int), lo: seq<real>, hi: seq<real>, x: real, y: real)
    requires |lo| == |hi|
    ensures var p0, p1 := Accumulate(lo, 0.0), Accumulate(hi, 0.0);
            WheelOutputs(target, codes, Accumulate(lo + [x], 0.0).0, Accumulate(hi + [y], 0.0).0)
              == WheelOutputs(target, codes, p0.0, p1.0)
                 + WriteOf(target, EV_REL, codes.0, Step(x, p0.1).0)
                 + WriteOf(target, EV_REL, codes.1, Step(y, p1.1).0)
  {
    AccumulateSnoc(lo, x, 0.0);
    AccumulateSnoc(hi, y, 0.0);
    var e0, e1 := Accumulate(lo + [x], 0.0).0, Accumulate(hi + [y], 0.0).0;
    assert e0[..|lo|] == Accumulate(lo, 0.0).0;
    assert e1[..|hi|] == Accumulate(hi, 0.0).0;
  }

  /**
   * What the pointer loop writes on one output code while ticking at
   * `rates`, tick by tick, and the remainder it carries on afterwards.
   */
  function PointerRun(target: string, code: int, rates: seq<real>): (seq<UinputWrite>, real)
    decreases |rates|
  {
    if |rates| == 0 then ([], 0.0)
    else
      var prev := PointerRun(target, code, rates[..|rates| - 1]);
      var tick := Step(rates[|rates| - 1], prev.1);
      (prev.0 + WriteOf(target, EV_REL, code, tick.0), tick.1)
  }

  lemma PointerRunTick(target: string, code: int, rates: seq<real>, x: real)
    ensures var prev := PointerRun(target, code, rates);
            var tick := Step(x, prev.1);
            PointerRun(target, code, rates + [x]) == (prev.0 + WriteOf(target, EV_REL, code, tick.0), tick.1)
  {
    assert (rates + [x])[..|rates|] == rates;
  }

  /**
   * The pointer loop writes exactly the non-zero values that integrating
   * its rates emits, and carries the integration's remainder.
   */
  lemma {:induction false} PointerRunIntegrates(target: string, code: int, rates: seq<real>)
    ensures PointerRun(target, code, rates).0 == Outputs(target, EV_REL, code, Accumulate(rates, 0.0).0)
    ensures PointerRun(target, code, rates).1 == Accumulate(rates, 0.0).1
  {
    if |rates| > 0 {
      var init, x := rates[..|rates| - 1], rates[|rates| - 1];
      assert rates == init + [x];
      PointerRunIntegrates(target, code, init);
      PointerRunTick(target, code, init, x);
      OutputsTick(target, EV_REL, code, init, x);
      AccumulateSnoc(init, x, 0.0);
    }
  }

  /**
   * One wheel tick at rate `x` with carried remainders `r0` and `r1`: the
   * first channel's write, then the second's, and both new remainders.
   */
  function WheelTick(target: string, codes: (int, int), weights: (real, real), x: real, r0: real, r1: real)
    : (seq<UinputWrite>, real, real)
  {
    var s0, s1 := Step(Weighted(x, weights.0), r0), Step(Weighted(x, weights.1), r1);
    (WriteOf(target, EV_REL, codes.0, s0.0) + WriteOf(target, EV_REL, codes.1, s1.0), s0.1, s1.1)
  }

  /**
   * What the wheel loop writes while ticking at `rates`, tick by tick, each
   * channel fed the rate times its weight, and the remainder each channel
   * carries on afterwards.
   */
  function WheelRun(target: string, codes: (int, int), weights: (real, real), rates: seq<real>): (seq<UinputWrite>, real, real)
    decreases |rates|
  {
    if |rates| == 0 then ([], 0.0, 0.0)
    else
      var prev := WheelRun(target, codes, weights, rates[..|rates| - 1]);
      var tick := WheelTick(target, codes, weights, rates[|rates| - 1], prev.1, prev.2);
      (prev.0 + tick.0, tick.1, tick.2)
  }

  lemma WheelRunTick(target: string, codes: (int, int), weights: (real, real), rates: seq<real>, x: real)
    ensures var prev := WheelRun(target, codes, weights, rates);
            var tick := WheelTick(target, codes, weights, x, prev.1, prev.2);
            WheelRun(target, codes, weights, rates + [x]) == (prev.0 + tick.0, tick.1, tick.2)
  {
    assert (rates + [x])[..|rates|] == rates;
  }

  /** Each wheel channel carries the remainder of integrating its weighted rates. */
  lemma {:induction false} WheelRunRemainders(target: string, codes: (int, int), weights: (real, real), rates: seq<real>)
    ensures WheelRun(target, codes, weights, rates).1 == Accumulate(Scaled(rates, weights.0), 0.0).1
    ensures WheelRun(target, codes, weights, rates).2 == Accumulate(Scaled(rates, weights.1), 0.0).1
  {
    if |rates| > 0 {
      var init, x := rates[..|rates| - 1], rates[|rates| - 1];
      assert rates == init + [x];
      WheelRunRemainders(target, codes, weights, init);
      WheelRunTick(target, codes, weights, init, x);
      ScaledSnoc(init, x, weights.0);
      ScaledSnoc(init, x, weights.1);
      AccumulateSnoc(Scaled(init, weights.0), Weighted(x, weights.0), 0.0);
      AccumulateSnoc(Scaled(init, weights.1), Weighted(x, weights.1), 0.0);
    }
  }

  /**
   * The wheel loop writes exactly what integrating each channel's weighted
   * rates emits, interleaved tick by tick, and carries each channel's
   * remainder.
   */
  lemma {:induction false} WheelRunIntegrates(target: string, codes: (int, int), weights: (real, real), rates: seq<real>)
    ensures var lo, hi := Accumulate(Scaled(rates, weights.0), 0.0), Accumulate(Scaled(rates, weights.1), 0.0);
            WheelRun(target, codes, weights, rates) == (WheelOutputs(target, codes, lo.0, hi.0), lo.1, hi.1)
  {
    if |rates| > 0 {
      var init, x := rates[..|rates| - 1], rates[|rates| - 1];
      assert rates == init + [x];
      WheelRunIntegrates(target, codes, weights, init);
      WheelRunTick(target, codes, weights, init, x);
      var prev := WheelRun(target, codes, weights, init);
      var lo, hi := Scaled(init, weights.0), Scaled(init, weights.1);
      var x0, x1 := Weighted(x, weights.0), Weighted(x, weights.1);
      var a := WriteOf(target, EV_REL, codes.0, Step(x0, prev.1).0);
      var b := WriteOf(target, EV_REL, codes.1, Step(x1, prev.2).0);
      assert WheelRun(target, codes, weights, rates).0 == prev.0 + (a + b);
      ScaledSnoc(init, x, weights.0);
      ScaledSnoc(init, x, weights.1);
      WheelOutputsTick(target, codes, lo, hi, x0, x1);
      assert prev.0 + (a + b) == prev.0 + a + b;
    }
    WheelRunRemainders(target, codes, weights, rates);
  }
}
