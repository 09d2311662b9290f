/** A plugin instance: its parameter registers, its smoothing state, the
    initialisation `instantiate` ends with, and the `run` entry point.

    The three ports `connect_port` stores (the atom control sequence, the audio
    input and the audio output) are parameters of `Run`; an unconnected control
    port is `None`. The audio buffers may be one and the same array, as LV2
    allows a host to process in place. */
module Plugin {
  import opened Atoms
  import opened Decoder
  import opened Smoothing

  class PropEx {
    /** Parameters. */
    var targetGain: real
    var polarity: bool
    /** Internal state: the gain applied at the end of the last cycle, and the
        filter coefficient fixed by the sample rate. */
    var gain: real
    const lpf: real

    function Params(): Registers
      reads this
    {
      Registers(targetGain, polarity)
    }

    /** The initialisation of a new instance, once the host's `urid:map` has
        been found: silent, aiming at unity gain, with the filter coefficient
        derived from the sample rate. */
    constructor(rate: real)
      requires rate > 0.0
      ensures gain == 0.0 && targetGain == 1.0 && !polarity
      ensures lpf == 990.0 / rate
    {
      gain := 0.0;
      targetGain := 1.0;
      polarity := false;
      lpf := 990.0 / rate;
    }

    /** The event loop of `run`: each `patch:Set` Object is handed to the
        decoder, whose verdict is discarded; every other event is skipped. */
    method ProcessEvents(events: seq<Event>, dbToCoeff: real -> real)
      modifies this`targetGain, this`polarity
      ensures Params() == ApplyEvents(old(Params()), events, dbToCoeff)
    {
      var i := 0;
      while i < |events|
        invariant 0 <= i <= |events|
        invariant Params() == ApplyEvents(old(Params()), events[..i], dbToCoeff)
      {
        assert events[..i + 1][..i] == events[..i];
        match events[i].body {
          case Object(otype, property, value) =>
            if otype == PatchSet {
              var p := ParseProperty(Params(), property, value, dbToCoeff);
              targetGain := p.regs.targetGain;
              polarity := p.regs.polarity;
            }
          case NotObject =>
        }
        i := i + 1;
      }
      assert events[..i] == events;
    }

    /** The audio half of `run`: scale `n` samples of `input` into `output`,
        either by the settled target or by the filtered gain updated once per
        chunk of 16 samples, and store the gain reached. */
    method Smooth(input: array<real>, output: array<real>, n: nat)
      requires n <= input.Length && n <= output.Length
      modifies this`gain, output
      ensures gain == NextGain(old(gain), Target(Params()), lpf, n)
      ensures output[..n] == Rendered(old(input[..]), n, old(gain), Target(Params()), lpf)
      ensures output[n..] == old(output[n..])
      ensures 0.0 < lpf <= 1.0 ==>
        Abs(Target(Params()) - gain) <= Abs(Target(Params()) - old(gain))
    {
      var g0 := gain;
      var target := Target(Params());
      ghost var before := input[..];
      if Abs(g0 - target) < Threshold {
        ScaleBy(input, output, 0, n, target);
        gain := target;
        RenderedSettled(before, n, g0, target, lpf, output[..n]);
      } else {
        gain := Ramp(input, output, n, g0, target, lpf);
        if 0.0 < lpf <= 1.0 {
          StaysBetween(g0, target, lpf, Chunks(n));
        }
      }
    }

    /** `run`: nothing happens while the control port is unconnected; otherwise
        the cycle's events update the parameters, and then the buffer is
        rendered with the new target. */
    method Run(control: Option<seq<Event>>, input: array<real>, output: array<real>, n: nat,
               dbToCoeff: real -> real)
      requires n <= input.Length && n <= output.Length
      modifies this`targetGain, this`polarity, this`gain, output
      ensures control.None? ==> unchanged(this) && unchanged(output)
      ensures control.Some? ==>
        && Params() == ApplyEvents(old(Params()), control.value, dbToCoeff)
        && gain == NextGain(old(gain), Target(Params()), lpf, n)
        && output[..n] == Rendered(old(input[..]), n, old(gain), Target(Params()), lpf)
        && output[n..] == old(output[n..])
    {
      if control.None? {
        return;
      }
      ProcessEvents(control.value, dbToCoeff);
      Smooth(input, output, n);
    }
  }

  /** The transition path of `run`: the buffer is walked in chunks of at most
      16 samples, the gain takes one filter update at the start of each chunk
      and every sample of the chunk is scaled by it; the gain reached is
      returned. */
  method Ramp(input: array<real>, output: array<real>, n: nat, g0: real, target: real, lpf: real)
    returns (g: real)
    requires n <= input.Length && n <= output.Length && !Settled(g0, target)
    modifies output
    ensures g == GainAfter(g0, target, lpf, Chunks(n))
    ensures output[..n] == Rendered(old(input[..]), n, g0, target, lpf)
    ensures output[n..] == old(output[n..])
  {
    ghost var before := input[..];
    g := g0;
    var remain: nat := n;
    var i: nat := 0;
    ghost var k := 0;
    while remain > 0
      invariant i + remain == n && |before| == input.Length
      invariant k == Chunks(i)
      invariant remain > 0 ==> i == ChunkSize * k
      invariant g == GainAfter(g0, target, lpf, k)
      invariant forall j :: 0 <= j < i ==> output[j] == before[j] * GainAfter(g0, target, lpf, j / ChunkSize + 1)
      invariant forall j :: i <= j < input.Length ==> input[j] == before[j]
      invariant forall j :: n <= j < output.Length ==> output[j] == old(output[j])
    {
      var nProc := if remain > ChunkSize then ChunkSize else remain;
      g := g + lpf * (target - g);
      k := k + 1;
      NextChunk(i, k - 1, nProc);
      ScaleBy(input, output, i, nProc, g);
      i := i + nProc;
      remain := remain - nProc;
    }
    RenderedTransition(before, n, g0, target, lpf, output[..n]);
  }

  /** `count` samples from `from` on, each multiplied by `factor`: the body of
      both audio loops of `run`. When the two arrays are one, each sample is
      read before it is overwritten. */
  method ScaleBy(input: array<real>, output: array<real>, from: nat, count: nat, factor: real)
    requires from + count <= input.Length && from + count <= output.Length
    modifies output
    ensures forall j :: from <= j < from + count ==> output[j] == old(input[j]) * factor
    ensures forall j :: 0 <= j < output.Length && !(from <= j < from + count) ==> output[j] == old(output[j])
    ensures forall j :: from + count <= j < input.Length ==> input[j] == old(input[j])
  {
    var t := 0;
    while t < count
      invariant 0 <= t <= count
      invariant forall j :: from <= j < from + t ==> output[j] == old(input[j]) * factor
      invariant forall j :: 0 <= j < output.Length && !(from <= j < from + t) ==> output[j] == old(output[j])
      invariant forall j :: from + t <= j < input.Length ==> input[j] == old(input[j])
    {
      output[from + t] := input[from + t] * factor;
      t := t + 1;
    }
  }
}
