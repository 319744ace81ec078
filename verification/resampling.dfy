/**
 * The streaming linear-interpolation downsampler of audioin.js (`Resampler`).
 *
 * Time is measured in seconds relative to the first sample of the current
 * chunk. Sample `i` of a chunk sits at time `i * in_period`; the loop keeps
 * the window `[tnm1, tn)` that ends at the current sample and the output time
 * `t` of the next value to compute. Everything is exact `real` arithmetic, so
 * the control flow is that of the source without floating-point drift.
 */
module Resampling {
  import opened RealFacts

  /** A sample rate in Hz. */
  type Rate = r: int | r > 0 witness 1

  /** The whole state carried from one call to the next: the phase `dt` of the
      next output instant relative to the end of the previous chunk, and the
      last input sample `input_nm1`. */
  datatype Resampler = Resampler(dt: real, inputNm1: real)

  /** A resampler as the constructor leaves it. */
  const Fresh := Resampler(0.0, 0.0)

  /** The duration of one sample at `rate`. */
  function Period(rate: Rate): (p: real)
    ensures p > 0.0
  {
    1.0 / rate as real
  }

  /** A lower rate has a longer period. */
  lemma PeriodAntitone(inRate: Rate, outRate: Rate)
    requires outRate <= inRate
    ensures Period(inRate) <= Period(outRate)
  {
    var pi, po := Period(inRate), Period(outRate);
    assert pi * (inRate as real) == 1.0 && po * (outRate as real) == 1.0;
    assert pi * (outRate as real) <= pi * (inRate as real);
    assert (po - pi) * (outRate as real) >= 0.0;
  }

  /** The loop variables of one call: output time `t`, window `[tnm1, tn)`
      and the sample `prev` that sits at `tnm1`. */
  datatype Cursor = Cursor(t: real, tn: real, tnm1: real, prev: real)

  function Min(a: real, b: real): real { if a <= b then a else b }
  function Max(a: real, b: real): real { if a <= b then b else a }

  /** Whether `v` lies between `a` and `b`, in either order. */
  predicate Between(v: real, a: real, b: real)
  {
    Min(a, b) <= v <= Max(a, b)
  }

  /** The value written for output time `t` from the samples `prev` at `tnm1`
      and `x` one input period later; inside that period it lies between the
      two samples. */
  function Interpolate(prev: real, x: real, t: real, tnm1: real, inPeriod: real): (v: real)
    requires inPeriod > 0.0
    ensures tnm1 <= t < tnm1 + inPeriod ==> Between(v, prev, x)
  {
    var v := prev + (t - tnm1) * ((x - prev) / inPeriod);
    assert tnm1 <= t < tnm1 + inPeriod ==> Between(v, prev, x) by {
      if tnm1 <= t < tnm1 + inPeriod {
        ConvexBetween(prev, x, t - tnm1, inPeriod);
      }
    }
    v
  }

  /** `prev + d * ((x - prev) / p)` with `0 <= d < p` is the convex
      combination of `prev` and `x` with weight `d / p`. */
  lemma ConvexBetween(prev: real, x: real, d: real, p: real)
    requires 0.0 <= d < p
    ensures var w := d / p;
            && 0.0 <= w < 1.0
            && prev + d * ((x - prev) / p) == prev + w * (x - prev)
            && Between(prev + d * ((x - prev) / p), prev, x)
  {
    var w := d / p;
    var q := (x - prev) / p;
    assert w * p == d;
    assert q * p == x - prev;
    assert d * q == w * (x - prev) by {
      calc {
        d * q;
        (w * p) * q;
        w * (q * p);
        w * (x - prev);
      }
    }
    assert 0.0 <= w < 1.0 by {
      if w < 0.0 {
        MulNonneg(-w, p);
      }
      if w >= 1.0 {
        MulNonneg(w - 1.0, p);
      }
    }
    if prev <= x {
      MulNonneg(1.0 - w, x - prev);
      MulNonneg(w, x - prev);
    } else {
      MulNonneg(1.0 - w, prev - x);
      MulNonneg(w, prev - x);
    }
  }

  /** Whether the output time falls in the current input window. */
  predicate InWindow(c: Cursor)
  {
    c.tnm1 <= c.t < c.tn
  }

  /** What the loop over a chunk produced: every value it computed, in order,
      and the loop variables after the last iteration. */
  datatype Scanned = Scanned(values: seq<real>, last: Cursor)

  /** One iteration of the loop on sample `x`: computes a value when the
      output time is in the window, then slides the window one input period. */
  function Step(c: Cursor, x: real, inPeriod: real, outPeriod: real): (s: Scanned)
    requires inPeriod > 0.0
    ensures |s.values| == (if InWindow(c) then 1 else 0)
    ensures s.last.prev == x && s.last.tn - s.last.tnm1 == c.tn - c.tnm1
    ensures c.tn - c.tnm1 == inPeriod && |s.values| == 1 ==>
              Between(s.values[0], c.prev, x)
  {
    if InWindow(c) then
      Scanned([Interpolate(c.prev, x, c.t, c.tnm1, inPeriod)],
              Cursor(c.t + outPeriod, c.tn + inPeriod, c.tnm1 + inPeriod, x))
    else
      Scanned([], Cursor(c.t, c.tn + inPeriod, c.tnm1 + inPeriod, x))
  }

  /** The loop of `downsample` over `input`, started from cursor `c`; at most
      one value is computed per input sample. */
  function Scan(input: seq<real>, c: Cursor, inPeriod: real, outPeriod: real): (s: Scanned)
    requires inPeriod > 0.0
    ensures |s.values| <= |input|
    ensures |input| > 0 ==> s.last.prev == input[|input| - 1]
    ensures |input| == 0 ==> s.last == c
    ensures s.last.tn - s.last.tnm1 == c.tn - c.tnm1
    decreases |input|
  {
    if |input| == 0 then Scanned([], c)
    else
      var first := Step(c, input[0], inPeriod, outPeriod);
      var rest := Scan(input[1..], first.last, inPeriod, outPeriod);
      Scanned(first.values + rest.values, rest.last)
  }

  /** The cursor a call starts from: the window `[-in_period, 0)` ends at the
      first sample of the chunk and the carried sample sits at its start. */
  function StartCursor(r: Resampler, inPeriod: real): Cursor
  {
    Cursor(r.dt, 0.0, -inPeriod, r.inputNm1)
  }

  /** Every value one call computes, before the output buffer truncates them. */
  function Computed(r: Resampler, input: seq<real>, inRate: Rate, outRate: Rate): seq<real>
  {
    Scan(input, StartCursor(r, Period(inRate)), Period(inRate), Period(outRate)).values
  }

  /** The size of the output buffer `downsample` allocates. */
  function BufferLength(n: nat, inRate: Rate, outRate: Rate): nat
  {
    n * outRate / inRate
  }

  /** At equal rates the buffer is as long as the chunk. */
  lemma BufferLengthEqualRates(n: nat, rate: Rate)
    ensures BufferLength(n, rate, rate) == n
  {
    var q := n * rate / rate;
    assert q * rate + n * rate % rate == n * rate;
    if q > n {
      IntMulNonneg(q - n - 1, rate);
      assert false;
    } else if q < n {
      IntMulNonneg(n - q - 1, rate);
      assert false;
    }
  }

  lemma IntMulNonneg(a: int, b: int)
    requires a >= 0 && b >= 0
    ensures a * b >= 0
  {
  }

  /** A zero-initialised buffer of length `n`, as `new Float32Array(n)`. */
  function Zeros(n: nat): (z: seq<real>)
    ensures |z| == n
    ensures forall k :: 0 <= k < n ==> z[k] == 0.0
  {
    seq(n, _ => 0.0)
  }

  /** A zero-initialised buffer of length `n` into which `xs` was written from
      index 0, where writes past the end are dropped. */
  function Fit(xs: seq<real>, n: nat): (buf: seq<real>)
    ensures |buf| == n
    ensures forall k :: 0 <= k < n ==> buf[k] == if k < |xs| then xs[k] else 0.0
  {
    if n <= |xs| then xs[..n] else xs + Zeros(n - |xs|)
  }

  /** Writing one more value into the buffer fills the next slot, or is
      dropped when the buffer is already full. */
  lemma FitSnoc(xs: seq<real>, v: real, n: nat)
    ensures Fit(xs + [v], n) == if |xs| < n then Fit(xs, n)[|xs| := v] else Fit(xs, n)
  {
    var lhs := Fit(xs + [v], n);
    var rhs := if |xs| < n then Fit(xs, n)[|xs| := v] else Fit(xs, n);
    assert forall k :: 0 <= k < n ==> lhs[k] == rhs[k];
  }

  /** The result of one call: the state to keep and the buffer handed back. */
  datatype Downsampled = Downsampled(next: Resampler, buf: seq<real>)

  /** `downsample(input, in_sample_rate, out_sample_rate)` on resampler `r`. */
  function Downsample(r: Resampler, input: seq<real>, inRate: Rate, outRate: Rate): (d: Downsampled)
    requires |input| > 0
    ensures |d.buf| == |input| * outRate / inRate
    ensures var xs := Computed(r, input, inRate, outRate);
            |xs| <= |input| &&
            forall k :: 0 <= k < |d.buf| ==> d.buf[k] == if k < |xs| then xs[k] else 0.0
    ensures d.next.inputNm1 == input[|input| - 1]
  {
    var inPeriod := Period(inRate);
    var s := Scan(input, StartCursor(r, inPeriod), inPeriod, Period(outRate));
    Downsampled(Resampler(s.last.t - s.last.tn, input[|input| - 1]),
                Fit(s.values, BufferLength(|input|, inRate, outRate)))
  }

  /** The buffer after writing `xs` into `output` from slot `j` on, one slot
      per value, where writes past the end are dropped. */
  function Write(output: seq<real>, j: nat, xs: seq<real>): (buf: seq<real>)
    ensures |buf| == |output|
    decreases |xs|
  {
    if |xs| == 0 then output
    else Write(if j < |output| then output[j := xs[0]] else output, j + 1, xs[1..])
  }

  /** Writing `ys` after the values `xs` already fitted into a buffer of
      length `n` fits `xs + ys`. */
  lemma {:induction false} WriteFit(xs: seq<real>, ys: seq<real>, n: nat)
    ensures Write(Fit(xs, n), |xs|, ys) == Fit(xs + ys, n)
    decreases |ys|
  {
    if |ys| == 0 {
      assert xs + ys == xs;
    } else {
      FitSnoc(xs, ys[0], n);
      WriteFit(xs + [ys[0]], ys[1..], n);
      assert (xs + [ys[0]]) + ys[1..] == xs + ys;
    }
  }

  /** The iterations of the loop of `downsample` from sample `i` on, applied
      to the loop variables, followed by the saving of the state. */
  ghost function Rest(input: seq<real>, i: nat, inPeriod: real, outPeriod: real,
                      t: real, tn: real, tnm1: real, prev: real, j: nat, output: seq<real>): Downsampled
    requires 0 < |input|
    requires i <= |input|
    requires inPeriod > 0.0
    decreases |input| - i
  {
    if i == |input| then Downsampled(Resampler(t - tn, input[i - 1]), output)
    else if tnm1 <= t && t < tn then
      var v := Interpolate(prev, input[i], t, tnm1, inPeriod);
      Rest(input, i + 1, inPeriod, outPeriod, t + outPeriod, tn + inPeriod, tnm1 + inPeriod, input[i],
           j + 1, if j < |output| then output[j := v] else output)
    else
      Rest(input, i + 1, inPeriod, outPeriod, t, tn + inPeriod, tnm1 + inPeriod, input[i], j, output)
  }

  /** The remaining iterations compute what `Scan` computes on the rest of the
      chunk from the current loop variables, and write it from slot `j` on. */
  lemma {:induction false} RestScans(input: seq<real>, i: nat, inPeriod: real, outPeriod: real,
                                     t: real, tn: real, tnm1: real, prev: real, j: nat, output: seq<real>)
    requires 0 < |input|
    requires i <= |input|
    requires inPeriod > 0.0
    ensures var s := Scan(input[i..], Cursor(t, tn, tnm1, prev), inPeriod, outPeriod);
            Rest(input, i, inPeriod, outPeriod, t, tn, tnm1, prev, j, output)
              == Downsampled(Resampler(s.last.t - s.last.tn, input[|input| - 1]), Write(output, j, s.values))
    decreases |input| - i
  {
    if i < |input| {
      var c := Cursor(t, tn, tnm1, prev);
      var first := Step(c, input[i], inPeriod, outPeriod);
      var c' := first.last;
      var rest := Scan(input[i + 1..], c', inPeriod, outPeriod);
      var final := Resampler(rest.last.t - rest.last.tn, input[|input| - 1]);
      assert input[i..][0] == input[i] && input[i..][1..] == input[i + 1..];
      assert Scan(input[i..], c, inPeriod, outPeriod) == Scanned(first.values + rest.values, rest.last);
      if InWindow(c) {
        var v := Interpolate(prev, input[i], t, tnm1, inPeriod);
        var output' := if j < |output| then output[j := v] else output;
        assert first.values == [v];
        assert Rest(input, i, inPeriod, outPeriod, t, tn, tnm1, prev, j, output)
            == Rest(input, i + 1, inPeriod, outPeriod, c'.t, c'.tn, c'.tnm1, c'.prev, j + 1, output');
        RestScans(input, i + 1, inPeriod, outPeriod, c'.t, c'.tn, c'.tnm1, c'.prev, j + 1, output');
        assert ([v] + rest.values)[0] == v && ([v] + rest.values)[1..] == rest.values;
        assert Write(output, j, [v] + rest.values) == Write(output', j + 1, rest.values);
      } else {
        assert first.values == [];
        assert Rest(input, i, inPeriod, outPeriod, t, tn, tnm1, prev, j, output)
            == Rest(input, i + 1, inPeriod, outPeriod, c'.t, c'.tn, c'.tnm1, c'.prev, j, output);
        RestScans(input, i + 1, inPeriod, outPeriod, c'.t, c'.tn, c'.tnm1, c'.prev, j, output);
        assert [] + rest.values == rest.values;
      }
    } else {
      assert input[i..] == [];
    }
  }

  /** Writing `xs` into a zero-initialised buffer of length `n` from slot 0
      fits `xs` to the buffer. */
  lemma WriteZeros(xs: seq<real>, n: nat)
    ensures Write(Zeros(n), 0, xs) == Fit(xs, n)
  {
    assert Zeros(n) == Fit([], n);
    WriteFit([], xs, n);
    assert [] + xs == xs;
  }

  /** The whole loop, started from the variables `downsample` initialises
      and a zero buffer of length `n`, computes `Scan` over the chunk from the
      start cursor, fitted to the buffer. */
  lemma RestFits(r: Resampler, input: seq<real>, inPeriod: real, outPeriod: real, n: nat)
    requires 0 < |input|
    requires inPeriod > 0.0
    ensures var s := Scan(input, StartCursor(r, inPeriod), inPeriod, outPeriod);
            Rest(input, 0, inPeriod, outPeriod, r.dt, 0.0, -inPeriod, r.inputNm1, 0, Zeros(n))
              == Downsampled(Resampler(s.last.t - s.last.tn, input[|input| - 1]), Fit(s.values, n))
  {
    RestScans(input, 0, inPeriod, outPeriod, r.dt, 0.0, -inPeriod, r.inputNm1, 0, Zeros(n));
    assert input[0..] == input;
    WriteZeros(Scan(input, StartCursor(r, inPeriod), inPeriod, outPeriod).values, n);
  }

  /** The whole loop, started from the variables `downsample` initialises,
      gives the result of `Downsample`. */
  lemma LoopAgrees(r: Resampler, input: seq<real>, inRate: Rate, outRate: Rate)
    requires 0 < |input|
    ensures var inPeriod := Period(inRate);
            Rest(input, 0, inPeriod, Period(outRate), r.dt, 0.0, -inPeriod, r.inputNm1, 0,
                 Zeros(BufferLength(|input|, inRate, outRate)))
              == Downsample(r, input, inRate, outRate)
  {
    RestFits(r, input, Period(inRate), Period(outRate), BufferLength(|input|, inRate, outRate));
  }

  /** The loop of audioin.js, written as a loop over the chunk. */
  method DownsampleLoop(r: Resampler, input: seq<real>, inRate: Rate, outRate: Rate)
    returns (next: Resampler, output: seq<real>)
    requires |input| > 0
    ensures Downsampled(next, output) == Downsample(r, input, inRate, outRate)
    ensures outRate <= inRate && PhaseOk(r, inRate, outRate) ==> PhaseOk(next, inRate, outRate)
  {
    var inPeriod := Period(inRate);
    var outPeriod := Period(outRate);
    var tn, tnm1, t, j := 0.0, -inPeriod, r.dt, 0;
    var inputNm1 := r.inputNm1;
    var n := BufferLength(|input|, inRate, outRate);
    output := Zeros(n);
    ghost var result := Downsample(r, input, inRate, outRate);
    LoopAgrees(r, input, inRate, outRate);
    var i := 0;
    while i < |input|
      invariant 0 <= i <= |input|
      invariant |output| == n
      invariant Rest(input, i, inPeriod, outPeriod, t, tn, tnm1, inputNm1, j, output) == result
    {
      if tnm1 <= t && t < tn {
        // Linear interpolation
        var v := Interpolate(inputNm1, input[i], t, tnm1, inPeriod);
        if j < n {
          output := output[j := v];
        }
        t := t + outPeriod;
        j := j + 1;
      }
      tn := tn + inPeriod;
      tnm1 := tnm1 + inPeriod;
      inputNm1 := input[i];
      i := i + 1;
    }
    next := Resampler(t - tn, input[i - 1]);
    if outRate <= inRate && PhaseOk(r, inRate, outRate) {
      DownsampleKeepsPhase(r, input, inRate, outRate);
    }
  }

  /** Running the loop over `a + b` is running it over `a`, then over `b`
      from where `a` left off. */
  lemma {:induction false} ScanSplit(a: seq<real>, b: seq<real>, c: Cursor, inPeriod: real, outPeriod: real)
    requires inPeriod > 0.0
    ensures var sa := Scan(a, c, inPeriod, outPeriod);
            var sb := Scan(b, sa.last, inPeriod, outPeriod);
            Scan(a + b, c, inPeriod, outPeriod) == Scanned(sa.values + sb.values, sb.last)
    decreases |a|
  {
    if |a| == 0 {
      assert a + b == b;
    } else {
      var first := Step(c, a[0], inPeriod, outPeriod);
      var tail := Scan(a[1..], first.last, inPeriod, outPeriod);
      var sb := Scan(b, tail.last, inPeriod, outPeriod);
      calc {
        Scan(a + b, c, inPeriod, outPeriod);
        { assert (a + b)[0] == a[0]; }
        Scanned(first.values + Scan((a + b)[1..], first.last, inPeriod, outPeriod).values,
                Scan((a + b)[1..], first.last, inPeriod, outPeriod).last);
        { assert (a + b)[1..] == a[1..] + b;
          ScanSplit(a[1..], b, first.last, inPeriod, outPeriod); }
        Scanned(first.values + (tail.values + sb.values), sb.last);
        { assert first.values + (tail.values + sb.values) == (first.values + tail.values) + sb.values; }
        Scanned((first.values + tail.values) + sb.values, sb.last);
      }
    }
  }

  /** Moves every time of a cursor `d` seconds earlier. */
  function Shift(c: Cursor, d: real): Cursor
  {
    Cursor(c.t - d, c.tn - d, c.tnm1 - d, c.prev)
  }

  /** The loop only compares and subtracts times, so moving the time origin
      changes no computed value and moves the final cursor by the same amount. */
  lemma {:induction false} ScanShift(input: seq<real>, c: Cursor, d: real, inPeriod: real, outPeriod: real)
    requires inPeriod > 0.0
    ensures Scan(input, Shift(c, d), inPeriod, outPeriod).values == Scan(input, c, inPeriod, outPeriod).values
    ensures Scan(input, Shift(c, d), inPeriod, outPeriod).last == Shift(Scan(input, c, inPeriod, outPeriod).last, d)
    decreases |input|
  {
    if |input| > 0 {
      var c' := Shift(c, d);
      var next := Step(c, input[0], inPeriod, outPeriod).last;
      var next' := Step(c', input[0], inPeriod, outPeriod).last;
      assert InWindow(c') == InWindow(c);
      assert next' == Shift(next, d);
      assert c'.t - c'.tnm1 == c.t - c.tnm1;
      assert Interpolate(c'.prev, input[0], c'.t, c'.tnm1, inPeriod)
          == Interpolate(c.prev, input[0], c.t, c.tnm1, inPeriod);
      ScanShift(input[1..], next, d, inPeriod, outPeriod);
    }
  }

  /** Continuity across chunk boundaries: for a fixed rate pair, one call on
      `a + b` computes exactly the values of a call on `a` followed by a call
      on `b` with the state the first call left, and both routes end in the
      same state. */
  lemma Continuity(r: Resampler, a: seq<real>, b: seq<real>, inRate: Rate, outRate: Rate)
    requires |a| > 0
    ensures var ra := Downsample(r, a, inRate, outRate).next;
            Computed(r, a + b, inRate, outRate)
              == Computed(r, a, inRate, outRate) + Computed(ra, b, inRate, outRate)
    ensures |b| > 0 ==>
              Downsample(Downsample(r, a, inRate, outRate).next, b, inRate, outRate).next
                == Downsample(r, a + b, inRate, outRate).next
  {
    var inPeriod, outPeriod := Period(inRate), Period(outRate);
    var c0 := StartCursor(r, inPeriod);
    var sa := Scan(a, c0, inPeriod, outPeriod);
    var ra := Downsample(r, a, inRate, outRate).next;
    ScanSplit(a, b, c0, inPeriod, outPeriod);
    assert StartCursor(ra, inPeriod) == Shift(sa.last, sa.last.tn);
    ScanShift(b, sa.last, sa.last.tn, inPeriod, outPeriod);
    assert (a + b)[|a + b| - 1] == (if |b| > 0 then b[|b| - 1] else a[|a| - 1]);
  }

  /** The loop invariant on output time for a fixed rate pair with
      `out_rate <= in_rate`: the window keeps its width, `tnm1 <= t`, and `t`
      stays less than one output period past `tn`. */
  predicate PhaseBounded(c: Cursor, inPeriod: real, outPeriod: real)
  {
    c.tn - c.tnm1 == inPeriod && c.tnm1 <= c.t < c.tn + outPeriod
  }

  lemma {:induction false} ScanKeepsPhase(input: seq<real>, c: Cursor, inPeriod: real, outPeriod: real)
    requires 0.0 < inPeriod <= outPeriod
    requires PhaseBounded(c, inPeriod, outPeriod)
    ensures PhaseBounded(Scan(input, c, inPeriod, outPeriod).last, inPeriod, outPeriod)
    decreases |input|
  {
    if |input| > 0 {
      StepKeepsPhase(c, input[0], inPeriod, outPeriod);
      ScanKeepsPhase(input[1..], Step(c, input[0], inPeriod, outPeriod).last, inPeriod, outPeriod);
    }
  }

  lemma StepKeepsPhase(c: Cursor, x: real, inPeriod: real, outPeriod: real)
    requires 0.0 < inPeriod <= outPeriod
    requires PhaseBounded(c, inPeriod, outPeriod)
    ensures PhaseBounded(Step(c, x, inPeriod, outPeriod).last, inPeriod, outPeriod)
  {
  }

  /** The carried phase lies in `[-in_period, out_period)`. */
  predicate PhaseOk(r: Resampler, inRate: Rate, outRate: Rate)
  {
    -Period(inRate) <= r.dt < Period(outRate)
  }

  /** A fresh resampler starts with an admissible phase, and for a fixed pair
      `out_rate <= in_rate` every call keeps it admissible. */
  lemma DownsampleKeepsPhase(r: Resampler, input: seq<real>, inRate: Rate, outRate: Rate)
    requires outRate <= inRate
    requires |input| > 0
    requires PhaseOk(r, inRate, outRate)
    ensures PhaseOk(Fresh, inRate, outRate)
    ensures PhaseOk(Downsample(r, input, inRate, outRate).next, inRate, outRate)
  {
    PeriodAntitone(inRate, outRate);
    ScanKeepsPhase(input, StartCursor(r, Period(inRate)), Period(inRate), Period(outRate));
  }

  /** An interpolated value is the convex combination `prev + w * (x - prev)`
      with weight `w = (t - tnm1) / in_period` in `[0, 1)`, so it lies between
      the two samples it was computed from. */
  lemma InterpolateConvex(prev: real, x: real, t: real, tnm1: real, inPeriod: real)
    requires inPeriod > 0.0
    requires tnm1 <= t < tnm1 + inPeriod
    ensures var w := (t - tnm1) / inPeriod;
            && 0.0 <= w < 1.0
            && Interpolate(prev, x, t, tnm1, inPeriod) == prev + w * (x - prev)
            && Between(Interpolate(prev, x, t, tnm1, inPeriod), prev, x)
  {
    ConvexBetween(prev, x, t - tnm1, inPeriod);
  }

  /** Every sample of `xs` lies in `[lo, hi]`. */
  predicate InRange(xs: seq<real>, lo: real, hi: real)
  {
    forall k :: 0 <= k < |xs| ==> lo <= xs[k] <= hi
  }

  lemma {:induction false} ScanInRange(input: seq<real>, c: Cursor, inPeriod: real, outPeriod: real, lo: real, hi: real)
    requires inPeriod > 0.0
    requires c.tn - c.tnm1 == inPeriod
    requires lo <= c.prev <= hi
    requires InRange(input, lo, hi)
    ensures InRange(Scan(input, c, inPeriod, outPeriod).values, lo, hi)
    decreases |input|
  {
    if |input| > 0 {
      var next := Step(c, input[0], inPeriod, outPeriod).last;
      assert InRange(input[1..], lo, hi) by {
        assert forall k :: 0 <= k < |input[1..]| ==> input[1..][k] == input[k + 1];
      }
      ScanInRange(input[1..], next, inPeriod, outPeriod, lo, hi);
      if InWindow(c) {
        InterpolateConvex(c.prev, input[0], c.t, c.tnm1, inPeriod);
      }
    }
  }

  /** The sample that precedes sample `i` of a chunk: the carried sample for
      `i == 0`, otherwise sample `i - 1` of the chunk itself. */
  function Prior(carried: real, input: seq<real>, i: nat): real
    requires i < |input|
  {
    if i == 0 then carried else input[i - 1]
  }

  /** Every value of `xs` lies between some sample of `input` and the sample
      before it, the first sample being preceded by `carried`. */
  predicate Bracketed(xs: seq<real>, carried: real, input: seq<real>)
  {
    forall j :: 0 <= j < |xs| ==>
      exists i :: 0 <= i < |input| && Between(xs[j], Prior(carried, input, i), input[i])
  }

  /** Every value the loop computes lies between two consecutive samples:
      some sample of the chunk and the one before it (the carried sample
      before the first). */
  lemma {:induction false} ScanBrackets(input: seq<real>, c: Cursor, inPeriod: real, outPeriod: real)
    requires inPeriod > 0.0
    requires c.tn - c.tnm1 == inPeriod
    ensures Bracketed(Scan(input, c, inPeriod, outPeriod).values, c.prev, input)
    decreases |input|
  {
    if |input| > 0 {
      var first := Step(c, input[0], inPeriod, outPeriod);
      var tail := input[1..];
      var rest := Scan(tail, first.last, inPeriod, outPeriod).values;
      ScanBrackets(tail, first.last, inPeriod, outPeriod);
      assert Bracketed(rest, input[0], tail);
      var xs := first.values + rest;
      assert Scan(input, c, inPeriod, outPeriod).values == xs;
      forall j | 0 <= j < |xs|
        ensures exists i :: 0 <= i < |input| && Between(xs[j], Prior(c.prev, input, i), input[i])
      {
        if j < |first.values| {
          assert Between(xs[j], Prior(c.prev, input, 0), input[0]);
        } else {
          var k := j - |first.values|;
          assert 0 <= k < |rest| && xs[j] == rest[k];
          var i :| 0 <= i < |tail| && Between(rest[k], Prior(input[0], tail, i), tail[i]);
          assert Prior(input[0], tail, i) == Prior(c.prev, input, i + 1);
          assert Between(xs[j], Prior(c.prev, input, i + 1), input[i + 1]);
        }
      }
    }
  }

  /** One call computes every value between sample `i` of the chunk and the
      sample before it, for some `i`, whatever the samples are. */
  lemma ComputedBrackets(r: Resampler, input: seq<real>, inRate: Rate, outRate: Rate)
    ensures Bracketed(Computed(r, input, inRate, outRate), r.inputNm1, input)
  {
    var c := StartCursor(r, Period(inRate));
    assert c.prev == r.inputNm1 && c.tn - c.tnm1 == Period(inRate);
    ScanBrackets(input, c, Period(inRate), Period(outRate));
  }

  /** When the chunk and the carried sample lie in `[lo, hi]` (for audio,
      `[-1, 1]`), so does every computed value; so does every buffer slot
      when the range also holds the `0.0` of an unwritten slot. */
  lemma DownsampleInRange(r: Resampler, input: seq<real>, inRate: Rate, outRate: Rate, lo: real, hi: real)
    requires |input| > 0
    requires lo <= r.inputNm1 <= hi
    requires InRange(input, lo, hi)
    ensures InRange(Computed(r, input, inRate, outRate), lo, hi)
    ensures lo <= 0.0 <= hi ==> InRange(Downsample(r, input, inRate, outRate).buf, lo, hi)
  {
    ScanInRange(input, StartCursor(r, Period(inRate)), Period(inRate), Period(outRate), lo, hi);
  }

  /** The buffer rule can drop a computed value: at 3 Hz to 1 Hz a fresh
      resampler computes one value from a two-sample chunk, but the buffer
      has `floor(2 * 1 / 3) = 0` slots. */
  lemma DropsComputedValue(a: real, b: real)
    ensures Computed(Fresh, [a, b], 3, 1) == [a]
    ensures Downsample(Fresh, [a, b], 3, 1).buf == []
  {
    var p := Period(3);
    var c0 := StartCursor(Fresh, p);
    assert !InWindow(c0);
    var c1 := Cursor(0.0, p, 0.0, a);
    assert InWindow(c1);
    assert [a, b][1..] == [b];
    assert Scan([b], c1, p, Period(1)).values == [Interpolate(a, b, 0.0, 0.0, p)];
  }

  /** The buffer rule can leave an unwritten slot: at equal rates a fresh
      resampler computes nothing from a one-sample chunk (output time 0 is
      not in the window `[-in_period, 0)`), so the buffer is `[0.0]`. */
  lemma PadsUnwrittenSlot(a: real, rate: Rate)
    ensures Computed(Fresh, [a], rate, rate) == []
    ensures Downsample(Fresh, [a], rate, rate).buf == [0.0]
  {
    assert !InWindow(StartCursor(Fresh, Period(rate)));
  }

  /** At equal rates a cursor whose output time sits at the start of its
      window copies: it emits the carried sample, then every sample but the
      last, and ends one period behind the end of the chunk. */
  lemma {:induction false} ScanEqualRates(input: seq<real>, c: Cursor, p: real)
    requires p > 0.0
    requires |input| > 0
    requires c.t == c.tnm1 && c.tn == c.tnm1 + p
    ensures var s := Scan(input, c, p, p);
            && s.values == [c.prev] + input[..|input| - 1]
            && s.last.t == s.last.tnm1 && s.last.tn == s.last.tnm1 + p
    decreases |input|
  {
    var first := Step(c, input[0], p, p);
    assert InWindow(c);
    assert Interpolate(c.prev, input[0], c.t, c.tnm1, p) == c.prev;
    assert first == Scanned([c.prev], Cursor(c.t + p, c.tn + p, c.tnm1 + p, input[0]));
    var rest := Scan(input[1..], first.last, p, p);
    if |input| == 1 {
      assert input[..0] == [];
    } else {
      ScanEqualRates(input[1..], first.last, p);
      ConsPrefix(input);
    }
  }

  /** At equal rates with the phase one period back, a call hands back the
      carried sample followed by every sample of the chunk but the last, and
      keeps that phase: each later buffer lags its chunk by one sample. */
  lemma EqualRatesLag(x: real, input: seq<real>, rate: Rate)
    requires |input| > 0
    ensures Downsample(Resampler(-Period(rate), x), input, rate, rate)
              == Downsampled(Resampler(-Period(rate), input[|input| - 1]), [x] + input[..|input| - 1])
  {
    var p := Period(rate);
    ScanEqualRates(input, StartCursor(Resampler(-p, x), p), p);
    BufferLengthEqualRates(|input|, rate);
  }

  /** From a fresh state's cursor the first sample only opens the window;
      from then on the loop copies as `ScanEqualRates` says. */
  lemma ScanEqualRatesFromFresh(input: seq<real>, p: real)
    requires p > 0.0
    requires |input| > 0
    ensures var s := Scan(input, StartCursor(Fresh, p), p, p);
            s.values == input[..|input| - 1] && s.last.t - s.last.tn == -p
  {
    var c0 := StartCursor(Fresh, p);
    var c1 := Cursor(0.0, p, 0.0, input[0]);
    assert Step(c0, input[0], p, p) == Scanned([], c1);
    if |input| > 1 {
      ScanEqualRates(input[1..], c1, p);
      ConsPrefix(input);
    }
  }

  /** Dropping the head and the last element, then putting the head back,
      drops only the last element. */
  lemma ConsPrefix(xs: seq<real>)
    requires |xs| > 1
    ensures [xs[0]] + xs[1..][..|xs| - 2] == xs[..|xs| - 1]
  {
    assert xs[1..][..|xs| - 2] == xs[1..|xs| - 1];
  }

  /** At equal rates a fresh resampler hands back every sample of its first
      chunk but the last, in place, and leaves the last slot at `0.0`; it
      ends with the phase one period back. */
  lemma EqualRatesFromFresh(input: seq<real>, rate: Rate)
    requires |input| > 0
    ensures Downsample(Fresh, input, rate, rate)
              == Downsampled(Resampler(-Period(rate), input[|input| - 1]), input[..|input| - 1] + [0.0])
  {
    BufferLengthEqualRates(|input|, rate);
    ScanEqualRatesFromFresh(input, Period(rate));
    FitPadsOne(input[..|input| - 1]);
  }

  /** A buffer one slot longer than the values written ends with `0.0`. */
  lemma FitPadsOne(xs: seq<real>)
    ensures Fit(xs, |xs| + 1) == xs + [0.0]
  {
    assert Zeros(1) == [0.0];
  }

  /** At equal rates the first buffer from a fresh state is aligned with its
      chunk except for its last slot, which stays `0.0`. The call leaves the
      phase one period back, so a later buffer starts with the previous
      chunk's last sample and ends with the second-to-last sample of its own. */
  lemma EqualRatesLagAfterFirstCall(a: real, b: real, c: real, d: real, rate: Rate)
    ensures Downsample(Fresh, [a, b], rate, rate)
              == Downsampled(Resampler(-Period(rate), b), [a, 0.0])
    ensures Downsample(Resampler(-Period(rate), b), [c, d], rate, rate)
              == Downsampled(Resampler(-Period(rate), d), [b, c])
  {
    EqualRatesFromFresh([a, b], rate);
    assert [a, b][..1] == [a];
    EqualRatesLag(b, [c, d], rate);
    assert [c, d][..1] == [c];
  }
}
