/** The gain-smoothing engine: the audio half of `run`.

    The applied gain follows the target through a one-pole low-pass filter,
    `gain += lpf * (target - gain)`, updated once at the start of each chunk of
    at most 16 samples. When the gain is already within 0.01 of the target it
    snaps to the target and the buffer is scaled by it. Floats are modelled as
    reals, so these definitions carry no rounding. */
module Smoothing {
  import opened Decoder

  /** Samples per filter update. */
  const ChunkSize: nat := 16

  /** Below this distance the gain counts as settled on its target. */
  const Threshold: real := 0.01

  function Abs(x: real): real { if x < 0.0 then -x else x }

  /** The signed gain the registers ask for. */
  function Target(regs: Registers): (t: real)
    ensures Abs(t) == Abs(regs.targetGain)
    ensures regs.targetGain > 0.0 ==> (t < 0.0 <==> regs.polarity)
  {
    if regs.polarity then -regs.targetGain else regs.targetGain
  }

  /** The test for the fast path. */
  predicate Settled(gain: real, target: real)
  {
    Abs(gain - target) < Threshold
  }

  /** The gain after `k` filter updates starting from `g`. */
  function GainAfter(g: real, target: real, lpf: real, k: nat): real
  {
    if k == 0 then g
    else
      var h := GainAfter(g, target, lpf, k - 1);
      h + lpf * (target - h)
  }

  /** How many chunks, and so filter updates, a buffer of `n` samples takes. */
  function Chunks(n: nat): nat
  {
    (n + ChunkSize - 1) / ChunkSize
  }

  /** The gain a cycle of `n` samples leaves behind. */
  function NextGain(g: real, target: real, lpf: real, n: nat): real
  {
    if Settled(g, target) then target else GainAfter(g, target, lpf, Chunks(n))
  }

  /** The multiplier of sample `i` in a cycle that starts with gain `g`: on the
      transition path, the gain after the update at the start of its chunk. */
  function SampleGain(g: real, target: real, lpf: real, i: nat): real
  {
    if Settled(g, target) then target else GainAfter(g, target, lpf, i / ChunkSize + 1)
  }

  /** The output of a cycle of `n` samples. */
  function Rendered(input: seq<real>, n: nat, g: real, target: real, lpf: real): (out: seq<real>)
    requires n <= |input|
    ensures |out| == n
  {
    seq(n, i requires 0 <= i < n => input[i] * SampleGain(g, target, lpf, i))
  }

  function Pow(x: real, k: nat): real
  {
    if k == 0 then 1.0 else x * Pow(x, k - 1)
  }

  /** Chunks is a ceiling division: the chunks cover the buffer, and the last
      one is not empty. */
  lemma ChunksCover(n: nat)
    ensures ChunkSize * (Chunks(n) - 1) < n <= ChunkSize * Chunks(n) || (n == 0 && Chunks(n) == 0)
  {
  }

  /** Walking the buffer chunk by chunk: after `k` full chunks a chunk of
      `m` samples, full or the last, brings the count to `Chunks(i + m)`, and
      its samples all belong to chunk `k`. */
  lemma NextChunk(i: nat, k: nat, m: nat)
    requires i == ChunkSize * k && 0 < m <= ChunkSize
    ensures Chunks(i + m) == k + 1
    ensures forall j :: i <= j < i + m ==> j / ChunkSize == k
  {
  }

  /** The filter is geometric: after `k` updates the distance to the target has
      shrunk by the factor `(1 - lpf)^k`. */
  lemma {:induction false} DistanceAfter(g: real, target: real, lpf: real, k: nat)
    ensures target - GainAfter(g, target, lpf, k) == Pow(1.0 - lpf, k) * (target - g)
  {
    if k > 0 {
      var h := GainAfter(g, target, lpf, k - 1);
      var p := Pow(1.0 - lpf, k - 1);
      assert target - h == p * (target - g) by {
        DistanceAfter(g, target, lpf, k - 1);
      }
      FilterStep(target, h, GainAfter(g, target, lpf, k), lpf, p, Pow(1.0 - lpf, k), target - g);
    }
  }

  /** One filter update, on plain numbers: a distance `p * d` becomes `((1 - lpf) * p) * d`. */
  lemma FilterStep(target: real, h: real, h': real, lpf: real, p: real, p': real, d: real)
    requires h' == h + lpf * (target - h) && p' == (1.0 - lpf) * p
    requires target - h == p * d
    ensures target - h' == p' * d
  {
    calc {
      target - h';
      (1.0 - lpf) * (target - h);
      (1.0 - lpf) * (p * d);
      ((1.0 - lpf) * p) * d;
    }
  }

  lemma MulNonNeg(a: real, b: real)
    requires 0.0 <= a && 0.0 <= b
    ensures 0.0 <= a * b
  {
  }

  lemma MulMono(a: real, b: real, c: real)
    requires a <= b && 0.0 <= c
    ensures a * c <= b * c
  {
    MulNonNeg(b - a, c);
  }

  lemma AbsScale(p: real, x: real)
    requires 0.0 <= p
    ensures Abs(p * x) == p * Abs(x)
  {
    if x < 0.0 {
      MulNonNeg(p, -x);
    } else {
      MulNonNeg(p, x);
    }
  }

  /** Powers of a non-negative number are non-negative. */
  lemma {:induction false} PowNonNeg(q: real, k: nat)
    requires 0.0 <= q
    ensures 0.0 <= Pow(q, k)
  {
    if k > 0 {
      PowNonNeg(q, k - 1);
      MulNonNeg(q, Pow(q, k - 1));
    }
  }

  /** Powers of a number in [0, 1] stay in [0, 1], and below the number itself. */
  lemma {:induction false} PowUnit(x: real, k: nat)
    requires 0.0 <= x <= 1.0
    ensures 0.0 <= Pow(x, k) <= 1.0
    ensures k > 0 ==> Pow(x, k) <= x
  {
    PowNonNeg(x, k);
    if k > 0 {
      PowUnit(x, k - 1);
      MulMono(Pow(x, k - 1), 1.0, x);
      assert Pow(x, k) == x * Pow(x, k - 1);
    }
  }

  /** The distance to the target after `k` updates, for a filter coefficient in (0, 1]. */
  lemma DistanceShrinks(g: real, target: real, lpf: real, k: nat)
    requires 0.0 < lpf <= 1.0
    ensures Abs(target - GainAfter(g, target, lpf, k)) == Pow(1.0 - lpf, k) * Abs(target - g)
  {
    var x := GainAfter(g, target, lpf, k);
    var p := Pow(1.0 - lpf, k);
    assert target - x == p * (target - g) by {
      DistanceAfter(g, target, lpf, k);
    }
    assert 0.0 <= p by {
      PowNonNeg(1.0 - lpf, k);
    }
    AbsOfScaled(target - x, p, target - g);
  }

  lemma AbsOfScaled(a: real, p: real, d: real)
    requires a == p * d && 0.0 <= p
    ensures Abs(a) == p * Abs(d)
  {
    AbsScale(p, d);
  }

  /** With `0 < lpf <= 1` one update shrinks the distance to the target by the
      factor `1 - lpf` and keeps the gain on the same side of the target: the
      gain approaches monotonically and never overshoots. */
  lemma NoOvershoot(g: real, target: real, lpf: real)
    requires 0.0 < lpf <= 1.0
    ensures var g' := GainAfter(g, target, lpf, 1);
      && Abs(target - g') == (1.0 - lpf) * Abs(target - g)
      && (g <= target ==> g <= g' <= target)
      && (target <= g ==> target <= g' <= g)
  {
    assert GainAfter(g, target, lpf, 0) == g;
    assert target - GainAfter(g, target, lpf, 1) == (1.0 - lpf) * (target - g);
    AbsScale(1.0 - lpf, target - g);
    if g <= target {
      MulNonNeg(1.0 - lpf, target - g);
      MulNonNeg(lpf, target - g);
    } else {
      MulNonNeg(1.0 - lpf, g - target);
      MulNonNeg(lpf, g - target);
    }
  }

  /** Over any number of updates the gain stays between its start and the
      target. */
  lemma StaysBetween(g: real, target: real, lpf: real, k: nat)
    requires 0.0 < lpf <= 1.0
    ensures g <= target ==> g <= GainAfter(g, target, lpf, k) <= target
    ensures target <= g ==> target <= GainAfter(g, target, lpf, k) <= g
    ensures Abs(target - GainAfter(g, target, lpf, k)) <= Abs(target - g)
  {
    DistanceAfter(g, target, lpf, k);
    PowUnit(1.0 - lpf, k);
    ScaledTowards(g, target, GainAfter(g, target, lpf, k), Pow(1.0 - lpf, k));
  }

  /** A point whose distance to `target` is a fraction `p` of that of `g` lies
      between the two. */
  lemma ScaledTowards(g: real, target: real, x: real, p: real)
    requires target - x == p * (target - g) && 0.0 <= p <= 1.0
    ensures g <= target ==> g <= x <= target
    ensures target <= g ==> target <= x <= g
    ensures Abs(target - x) <= Abs(target - g)
  {
    Fraction(target - g, target - x, p);
  }

  /** `e = p * d` with `0 <= p <= 1` lies between 0 and `d`. */
  lemma Fraction(d: real, e: real, p: real)
    requires e == p * d && 0.0 <= p <= 1.0
    ensures 0.0 <= d ==> 0.0 <= e <= d
    ensures d <= 0.0 ==> d <= e <= 0.0
  {
    if 0.0 <= d {
      MulNonNeg(p, d);
      MulNonNeg(1.0 - p, d);
      assert d - e == (1.0 - p) * d;
    } else {
      MulNonNeg(p, -d);
      MulNonNeg(1.0 - p, -d);
      assert e - d == (1.0 - p) * -d;
      assert -e == p * -d;
    }
  }

  /** Bernoulli's inequality in the form `(1 - x)^k * (1 + k x) <= 1`. */
  lemma {:induction false} Bernoulli(x: real, k: nat)
    requires 0.0 <= x <= 1.0
    ensures Pow(1.0 - x, k) * (1.0 + k as real * x) <= 1.0
  {
    if k > 0 {
      Bernoulli(x, k - 1);
      PowUnit(1.0 - x, k - 1);
      BernoulliStep(x, (k - 1) as real, Pow(1.0 - x, k - 1));
    }
  }

  /** The inductive step of Bernoulli's inequality, on plain numbers. */
  lemma BernoulliStep(x: real, m: real, p: real)
    requires 0.0 <= x <= 1.0 && 0.0 <= m && 0.0 <= p
    requires p * (1.0 + m * x) <= 1.0
    ensures ((1.0 - x) * p) * (1.0 + (m + 1.0) * x) <= 1.0
  {
    var q := (1.0 - x) * (1.0 + (m + 1.0) * x);
    MulNonNeg((m + 1.0) * x, x);
    assert q == 1.0 + m * x - (m + 1.0) * x * x;
    MulMono(q, 1.0 + m * x, p);
    assert ((1.0 - x) * p) * (1.0 + (m + 1.0) * x) == q * p;
  }

  /** Convergence: once `k * lpf >= 100 * |target - g|`, `k` updates bring the
      gain within the settling threshold. */
  lemma SettlesWithin(g: real, target: real, lpf: real, k: nat)
    requires 0.0 < lpf <= 1.0
    requires k as real * lpf >= 100.0 * Abs(target - g)
    ensures Settled(GainAfter(g, target, lpf, k), target)
  {
    var x := GainAfter(g, target, lpf, k);
    var p := Pow(1.0 - lpf, k);
    assert target - x == p * (target - g) by {
      DistanceAfter(g, target, lpf, k);
    }
    assert 0.0 <= p by {
      PowUnit(1.0 - lpf, k);
    }
    assert p * (1.0 + k as real * lpf) <= 1.0 by {
      Bernoulli(lpf, k);
    }
    SettleCore(x, g, target, p, k as real * lpf);
  }

  /** The convergence argument on plain numbers: a gain `x` whose distance to
      the target is `p` times that of `g`, where `p * (1 + kl) <= 1` and
      `kl >= 100 * |target - g|`, is settled. */
  lemma SettleCore(x: real, g: real, target: real, p: real, kl: real)
    requires target - x == p * (target - g) && 0.0 <= p
    requires p * (1.0 + kl) <= 1.0 && kl >= 100.0 * Abs(target - g)
    ensures Abs(x - target) < Threshold
  {
    AbsOfScaled(target - x, p, target - g);
    Below(Abs(target - x), p, Abs(target - g), 1.0 + kl);
  }

  /** The arithmetic step shared by the two convergence lemmas: a distance
      `dk <= p * d` with `p * (1 + k lpf) <= 1` and `100 d <= k lpf` is below
      the threshold. */
  lemma Below(dk: real, p: real, d: real, c: real)
    requires 0.0 <= dk <= p * d && 0.0 <= p && 0.0 <= d
    requires p * c <= 1.0 && 100.0 * d < c
    ensures dk < Threshold
  {
    MulMono(p * c, 1.0, d);
    MulMono(dk, p * d, c);
    assert dk * c <= d;
    if dk >= Threshold {
      MulMono(Threshold, dk, c);
      assert false;
    }
  }

  /** `m` applications of `f` to `x`. */
  function Iterate(f: real -> real, x: real, m: nat): real
    decreases m
  {
    if m == 0 then x else Iterate(f, f(x), m - 1)
  }

  /** What one cycle of `n` samples does to the gain. */
  function Cycle(target: real, lpf: real, n: nat): real -> real
  {
    g => NextGain(g, target, lpf, n)
  }

  /** The gain after `m` cycles of `n` samples each, with the registers unchanged. */
  function GainAfterCycles(g: real, target: real, lpf: real, n: nat, m: nat): real
  {
    Iterate(Cycle(target, lpf, n), g, m)
  }

  /** A map that shrinks every distance `dist` by the factor `q` does so `m`
      times over in `m` applications. */
  lemma {:induction false} IterateContracts(f: real -> real, dist: real -> real, x: real, q: real, m: nat)
    requires 0.0 <= q
    requires forall y :: 0.0 <= dist(y)
    requires forall y :: dist(f(y)) <= q * dist(y)
    ensures dist(Iterate(f, x, m)) <= Pow(q, m) * dist(x)
    decreases m
  {
    if m > 0 {
      IterateContracts(f, dist, f(x), q, m - 1);
      PowNonNeg(q, m - 1);
      var pm := Pow(q, m - 1);
      MulMono(dist(f(x)), q * dist(x), pm);
      Regroup(dist(Iterate(f, f(x), m - 1)), q, pm, dist(x));
    }
  }

  lemma Regroup(a: real, q: real, p: real, d: real)
    requires a <= (q * d) * p
    ensures a <= (q * p) * d
  {
  }

  /** One non-empty cycle either snaps the gain onto the target or shrinks its
      distance to the target by a factor of at most `1 - lpf`. */
  lemma CycleShrinks(x: real, target: real, lpf: real, n: nat)
    requires 0.0 < lpf <= 1.0 && n > 0
    ensures Abs(target - NextGain(x, target, lpf, n)) <= (1.0 - lpf) * Abs(target - x)
  {
    var c := Chunks(n);
    var p := Pow(1.0 - lpf, c);
    var dn := Abs(target - NextGain(x, target, lpf, n));
    assert 0.0 <= p <= 1.0 - lpf && (dn == 0.0 || dn == p * Abs(target - x)) by {
      DistanceShrinks(x, target, lpf, c);
      PowUnit(1.0 - lpf, c);
    }
    OneCycle(Abs(target - x), dn, p, 1.0 - lpf, Abs(target - x));
  }

  lemma OneCycle(dx: real, dnext: real, p: real, q: real, bound: real)
    requires 0.0 <= dx <= bound
    requires 0.0 <= p <= q
    requires dnext == 0.0 || dnext == p * dx
    ensures dnext <= q * bound
  {
    MulNonNeg(q, bound);
    MulMono(p, q, dx);
    MulMono(dx, bound, q);
  }

  /** The distance of a gain from the target. */
  function Distance(target: real): real -> real
  {
    x => Abs(target - x)
  }

  lemma CyclesContract(g: real, target: real, lpf: real, n: nat, m: nat)
    requires 0.0 < lpf <= 1.0 && n > 0
    ensures Distance(target)(Iterate(Cycle(target, lpf, n), g, m))
            <= Pow(1.0 - lpf, m) * Distance(target)(g)
  {
    CycleContracts(target, lpf, n);
    DistanceNonNeg(target);
    IterateContracts(Cycle(target, lpf, n), Distance(target), g, 1.0 - lpf, m);
  }

  lemma CycleContracts(target: real, lpf: real, n: nat)
    requires 0.0 < lpf <= 1.0 && n > 0
    ensures forall y :: Distance(target)(Cycle(target, lpf, n)(y)) <= (1.0 - lpf) * Distance(target)(y)
  {
    forall y ensures Distance(target)(Cycle(target, lpf, n)(y)) <= (1.0 - lpf) * Distance(target)(y) {
      CycleShrinks(y, target, lpf, n);
    }
  }

  lemma DistanceNonNeg(target: real)
    ensures forall y :: 0.0 <= Distance(target)(y)
  {
    forall y ensures 0.0 <= Distance(target)(y) {
      assert Distance(target)(y) == Abs(target - y);
    }
  }

  /** Over `m` non-empty cycles the distance to the target shrinks at least by
      the factor `(1 - lpf)^m`. */
  lemma CyclesDistance(g: real, target: real, lpf: real, n: nat, m: nat)
    requires 0.0 < lpf <= 1.0 && n > 0
    ensures Abs(target - GainAfterCycles(g, target, lpf, n, m)) <= Pow(1.0 - lpf, m) * Abs(target - g)
  {
    CyclesContract(g, target, lpf, n, m);
    var r := Iterate(Cycle(target, lpf, n), g, m);
    Transfer(Distance(target)(r), Abs(target - GainAfterCycles(g, target, lpf, n, m)),
             Distance(target)(g), Abs(target - g), Pow(1.0 - lpf, m));
  }

  lemma Transfer(a: real, a': real, b: real, b': real, p: real)
    requires a == a' && b == b' && a <= p * b
    ensures a' <= p * b'
  {
  }

  /** Convergence over cycles: with unchanged registers and non-empty buffers,
      the gain reaches the target exactly after at most `m + 1` cycles, where
      `m * lpf >= 100 * |target - g|`. */
  lemma ReachesTarget(g: real, target: real, lpf: real, n: nat, m: nat)
    requires 0.0 < lpf <= 1.0 && n > 0
    requires m as real * lpf >= 100.0 * Abs(target - g)
    ensures GainAfterCycles(g, target, lpf, n, m + 1) == target
  {
    var x := GainAfterCycles(g, target, lpf, n, m);
    assert Abs(target - x) < Threshold by {
      CyclesDistance(g, target, lpf, n, m);
      Bernoulli(lpf, m);
      PowUnit(1.0 - lpf, m);
      Below(Abs(target - x), Pow(1.0 - lpf, m), Abs(target - g), 1.0 + m as real * lpf);
    }
    IterateLast(Cycle(target, lpf, n), g, m);
  }

  lemma {:induction false} IterateLast(f: real -> real, x: real, m: nat)
    ensures Iterate(f, x, m + 1) == f(Iterate(f, x, m))
    decreases m
  {
    if m > 0 {
      IterateLast(f, f(x), m - 1);
    }
  }

  /** Idempotence of the settled state: a gain on its target stays there, and
      the cycle is a plain scalar multiply. */
  lemma SettledIsFixedPoint(input: seq<real>, n: nat, target: real, lpf: real)
    requires n <= |input|
    ensures NextGain(target, target, lpf, n) == target
    ensures forall i :: 0 <= i < n ==> Rendered(input, n, target, target, lpf)[i] == input[i] * target
  {
  }

  /** Continuity across cycles: the gain stored at the end of a transition cycle
      is the one the last chunk's samples were multiplied by. */
  lemma LastSampleUsesStoredGain(input: seq<real>, n: nat, g: real, target: real, lpf: real)
    requires 0 < n <= |input|
    ensures Rendered(input, n, g, target, lpf)[n - 1] == input[n - 1] * NextGain(g, target, lpf, n)
  {
    assert (n - 1) / ChunkSize + 1 == Chunks(n);
  }

  /** Samples in one chunk share one multiplier. */
  lemma ChunkSharesGain(g: real, target: real, lpf: real, i: nat, j: nat)
    requires i / ChunkSize == j / ChunkSize
    ensures SampleGain(g, target, lpf, i) == SampleGain(g, target, lpf, j)
  {
  }

  /** The first two filter updates at 48 kHz from silence towards 0 dB. */
  lemma FirstUpdatesAt48k(lpf: real)
    requires lpf == 990.0 / 48000.0
    ensures lpf == 0.020625
    ensures GainAfter(0.0, 1.0, lpf, 1) == 0.020625
    ensures GainAfter(0.0, 1.0, lpf, 2) == 0.040824609375
  {
    assert GainAfter(0.0, 1.0, lpf, 0) == 0.0;
  }

  /** A cycle of 32 samples at 48 kHz from silence towards 0 dB takes two
      updates and leaves the gain at 0.040824609375. */
  lemma EndToEndGain(lpf: real)
    requires lpf == 990.0 / 48000.0
    ensures NextGain(0.0, 1.0, lpf, 32) == 0.040824609375
  {
    TwoChunks(lpf);
    FirstUpdatesAt48k(lpf);
  }

  lemma TwoChunks(lpf: real)
    ensures NextGain(0.0, 1.0, lpf, 32) == GainAfter(0.0, 1.0, lpf, 2)
  {
    assert Chunks(32) == 2;
    assert !Settled(0.0, 1.0);
  }

  /** In that cycle each sample of a constant 1.0 input equals the gain of its
      chunk, not the target: the first 16 samples carry the first update and
      the last 16 the second (their values at 48 kHz are those of
      FirstUpdatesAt48k). */
  lemma EndToEndOutput(input: seq<real>, lpf: real)
    requires |input| == 32 && forall i :: 0 <= i < 32 ==> input[i] == 1.0
    ensures forall i :: 0 <= i < 16 ==> Rendered(input, 32, 0.0, 1.0, lpf)[i] == GainAfter(0.0, 1.0, lpf, 1)
    ensures forall i :: 16 <= i < 32 ==> Rendered(input, 32, 0.0, 1.0, lpf)[i] == GainAfter(0.0, 1.0, lpf, 2)
  {
    ChunkOfExample(input, lpf, 0, 1);
    ChunkOfExample(input, lpf, 16, 2);
  }

  lemma ChunkOfExample(input: seq<real>, lpf: real, from: nat, k: nat)
    requires |input| == 32 && forall i :: 0 <= i < 32 ==> input[i] == 1.0
    requires from == ChunkSize * (k - 1) && from + ChunkSize <= 32
    ensures forall i :: from <= i < from + ChunkSize ==>
      Rendered(input, 32, 0.0, 1.0, lpf)[i] == GainAfter(0.0, 1.0, lpf, k)
  {
    assert !Settled(0.0, 1.0);
    forall i | from <= i < from + ChunkSize
      ensures Rendered(input, 32, 0.0, 1.0, lpf)[i] == GainAfter(0.0, 1.0, lpf, k)
    {
      RenderedAt(input, 32, 0.0, 1.0, lpf, i, k);
      OneTimes(input[i], GainAfter(0.0, 1.0, lpf, k));
    }
  }

  lemma OneTimes(one: real, x: real)
    requires one == 1.0
    ensures one * x == x
  {
  }

  /** Sample `i` of a transition cycle is scaled by the gain after the update
      of its chunk, the `k`-th. */
  lemma RenderedAt(input: seq<real>, n: nat, g: real, target: real, lpf: real, i: nat, k: nat)
    requires i < n <= |input| && !Settled(g, target)
    requires ChunkSize * (k - 1) <= i < ChunkSize * k
    ensures Rendered(input, n, g, target, lpf)[i] == input[i] * GainAfter(g, target, lpf, k)
  {
    assert i / ChunkSize + 1 == k;
  }

  /** A buffer scaled sample by sample by the settled target is the settled rendering. */
  lemma RenderedSettled(input: seq<real>, n: nat, g: real, target: real, lpf: real, out: seq<real>)
    requires n <= |input| && |out| == n && Settled(g, target)
    requires forall j :: 0 <= j < n ==> out[j] == input[j] * target
    ensures out == Rendered(input, n, g, target, lpf)
  {
    assert forall j :: 0 <= j < n ==> out[j] == Rendered(input, n, g, target, lpf)[j];
  }

  /** A buffer whose chunk `c` is scaled by the gain after `c + 1` updates is the
      transition rendering. */
  lemma RenderedTransition(input: seq<real>, n: nat, g: real, target: real, lpf: real, out: seq<real>)
    requires n <= |input| && |out| == n && !Settled(g, target)
    requires forall j :: 0 <= j < n ==> out[j] == input[j] * GainAfter(g, target, lpf, j / ChunkSize + 1)
    ensures out == Rendered(input, n, g, target, lpf)
  {
    assert forall j :: 0 <= j < n ==> out[j] == Rendered(input, n, g, target, lpf)[j];
  }
}
