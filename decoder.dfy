/** The event decoder: `parse_property` and the event loop at the head of `run`.

    The conversion of a decibel value to a linear coefficient (`powf`) is a
    call into the C library; every member that needs it takes it as the
    parameter `dbToCoeff`, about which nothing is assumed. */
module Decoder {
  import opened Atoms

  /** The two parameter registers of a plugin instance. */
  datatype Registers = Registers(targetGain: real, polarity: bool)

  /** Why `parse_property` rejected a `patch:Set` message; each is logged as an error. */
  datatype ParseError =
    | NoProperty       // the message has no `patch:property`
    | NonUridProperty  // its `patch:property` is not a URID
    | NoValue          // it has no `patch:value`
    | ExpectedFloat    // a gain value that is not a float
    | ExpectedBool     // a polarity value that is not a bool
    | UnknownProperty  // a property that is neither gain nor polarity

  /** `true` of `parse_property` is Applied, `false` is Rejected. */
  datatype Status = Applied | Rejected(error: ParseError)

  datatype Parsed = Parsed(regs: Registers, status: Status)

  /** The decibel value a well-formed gain message carries. */
  function GainOf(property: Option<Atom>, value: Option<Atom>): Option<real>
  {
    match (property, value)
    case (Some(UridAtom(p)), Some(FloatAtom(f))) => if p == ParamGain then Some(f) else None
    case _ => None
  }

  /** The flag a well-formed polarity message carries. */
  function PolarityOf(property: Option<Atom>, value: Option<Atom>): Option<bool>
  {
    match (property, value)
    case (Some(UridAtom(p)), Some(BoolAtom(b))) => if p == ParamPolarity then Some(b) else None
    case _ => None
  }

  /** Validates one `patch:Set` message, given the results of looking up its
      `patch:property` and `patch:value` keys, and updates at most one register. */
  function ParseProperty(regs: Registers, property: Option<Atom>, value: Option<Atom>,
                         dbToCoeff: real -> real): (p: Parsed)
    ensures p.status == Applied <==> GainOf(property, value).Some? || PolarityOf(property, value).Some?
    ensures p.regs.targetGain == match GainOf(property, value)
                                 case Some(f) => dbToCoeff(f)
                                 case None => regs.targetGain
    ensures p.regs.polarity == match PolarityOf(property, value)
                               case Some(b) => b
                               case None => regs.polarity
    ensures p.status.Rejected? ==> p.regs == regs
  {
    if property.None? then Parsed(regs, Rejected(NoProperty))
    else if !property.value.UridAtom? then Parsed(regs, Rejected(NonUridProperty))
    else if value.None? then Parsed(regs, Rejected(NoValue))
    else if property.value.id == ParamGain then
      match value.value
      case FloatAtom(f) => Parsed(regs.(targetGain := dbToCoeff(f)), Applied)
      case _ => Parsed(regs, Rejected(ExpectedFloat))
    else if property.value.id == ParamPolarity then
      match value.value
      case BoolAtom(b) => Parsed(regs.(polarity := b), Applied)
      case _ => Parsed(regs, Rejected(ExpectedBool))
    else Parsed(regs, Rejected(UnknownProperty))
  }

  /** Which error a rejected message is logged with: the checks run in the
      order property present, property a URID, value present, then the
      property's identity and the value's type. */
  lemma RejectionKinds(regs: Registers, property: Option<Atom>, value: Option<Atom>,
                       dbToCoeff: real -> real)
    ensures var s := ParseProperty(regs, property, value, dbToCoeff).status;
      && (s == Rejected(NoProperty) <==> property.None?)
      && (s == Rejected(NonUridProperty) <==> property.Some? && !property.value.UridAtom?)
      && (s == Rejected(NoValue) <==> property.Some? && property.value.UridAtom? && value.None?)
      && (s == Rejected(ExpectedFloat) <==>
            property == Some(UridAtom(ParamGain)) && value.Some? && !value.value.FloatAtom?)
      && (s == Rejected(ExpectedBool) <==>
            property == Some(UridAtom(ParamPolarity)) && value.Some? && !value.value.BoolAtom?)
      && (s == Rejected(UnknownProperty) <==>
            property.Some? && property.value.UridAtom? && value.Some? &&
            property.value.id != ParamGain && property.value.id != ParamPolarity)
  {
  }

  /** The decibel value an event sets the gain to, if it is a well-formed gain `patch:Set`. */
  function GainSet(ev: Event): Option<real>
  {
    match ev.body
    case Object(otype, property, value) => if otype == PatchSet then GainOf(property, value) else None
    case NotObject => None
  }

  /** The flag an event sets the polarity to, if it is a well-formed polarity `patch:Set`. */
  function PolaritySet(ev: Event): Option<bool>
  {
    match ev.body
    case Object(otype, property, value) => if otype == PatchSet then PolarityOf(property, value) else None
    case NotObject => None
  }

  /** One iteration of the event loop: anything that is not an Object of type
      `patch:Set` is skipped, and the result of `parse_property` is ignored. */
  function Step(regs: Registers, ev: Event, dbToCoeff: real -> real): (r: Registers)
    ensures r.targetGain == match GainSet(ev)
                            case Some(f) => dbToCoeff(f)
                            case None => regs.targetGain
    ensures r.polarity == match PolaritySet(ev)
                          case Some(b) => b
                          case None => regs.polarity
  {
    match ev.body
    case Object(otype, property, value) =>
      if otype == PatchSet then ParseProperty(regs, property, value, dbToCoeff).regs else regs
    case NotObject => regs
  }

  /** The registers after the event loop has run over `evs` in order. */
  function ApplyEvents(regs: Registers, evs: seq<Event>, dbToCoeff: real -> real): Registers
    decreases |evs|
  {
    if evs == [] then regs
    else Step(ApplyEvents(regs, evs[..|evs| - 1], dbToCoeff), evs[|evs| - 1], dbToCoeff)
  }

  /** An event that is not an Atom Object, or an Object that is not a
      `patch:Set`, changes neither register. */
  lemma SkippedEventsChangeNothing(regs: Registers, ev: Event, dbToCoeff: real -> real)
    requires ev.body.NotObject? || ev.body.otype != PatchSet
    ensures Step(regs, ev, dbToCoeff) == regs
  {
  }

  /** Last write wins for the gain: the final target gain is the coefficient of
      the last well-formed gain event. */
  lemma {:induction false} LastGainWins(regs: Registers, evs: seq<Event>, k: nat, f: real,
                                        dbToCoeff: real -> real)
    requires k < |evs| && GainSet(evs[k]) == Some(f)
    requires forall j :: k < j < |evs| ==> GainSet(evs[j]).None?
    ensures ApplyEvents(regs, evs, dbToCoeff).targetGain == dbToCoeff(f)
    decreases |evs|
  {
    var last := |evs| - 1;
    if k < last {
      assert evs[..last][k] == evs[k];
      LastGainWins(regs, evs[..last], k, f, dbToCoeff);
      assert GainSet(evs[last]).None?;
    }
  }

  /** Without a well-formed gain event the target gain is unchanged. */
  lemma {:induction false} NoGainEventKeepsGain(regs: Registers, evs: seq<Event>,
                                                dbToCoeff: real -> real)
    requires forall j :: 0 <= j < |evs| ==> GainSet(evs[j]).None?
    ensures ApplyEvents(regs, evs, dbToCoeff).targetGain == regs.targetGain
    decreases |evs|
  {
    if evs != [] {
      var last := |evs| - 1;
      assert forall j :: 0 <= j < last ==> evs[..last][j] == evs[j];
      NoGainEventKeepsGain(regs, evs[..last], dbToCoeff);
      assert GainSet(evs[last]).None?;
    }
  }

  /** Last write wins for the polarity. */
  lemma {:induction false} LastPolarityWins(regs: Registers, evs: seq<Event>, k: nat, b: bool,
                                            dbToCoeff: real -> real)
    requires k < |evs| && PolaritySet(evs[k]) == Some(b)
    requires forall j :: k < j < |evs| ==> PolaritySet(evs[j]).None?
    ensures ApplyEvents(regs, evs, dbToCoeff).polarity == b
    decreases |evs|
  {
    var last := |evs| - 1;
    if k < last {
      assert evs[..last][k] == evs[k];
      LastPolarityWins(regs, evs[..last], k, b, dbToCoeff);
      assert PolaritySet(evs[last]).None?;
    }
  }

  /** Without a well-formed polarity event the polarity is unchanged. */
  lemma {:induction false} NoPolarityEventKeepsPolarity(regs: Registers, evs: seq<Event>,
                                                        dbToCoeff: real -> real)
    requires forall j :: 0 <= j < |evs| ==> PolaritySet(evs[j]).None?
    ensures ApplyEvents(regs, evs, dbToCoeff).polarity == regs.polarity
    decreases |evs|
  {
    if evs != [] {
      var last := |evs| - 1;
      assert forall j :: 0 <= j < last ==> evs[..last][j] == evs[j];
      NoPolarityEventKeepsPolarity(regs, evs[..last], dbToCoeff);
      assert PolaritySet(evs[last]).None?;
    }
  }

  /** Event timestamps play no part: two sequences with the same bodies in the
      same order leave the same registers. */
  lemma {:induction false} TimestampsIgnored(regs: Registers, a: seq<Event>, b: seq<Event>,
                                             dbToCoeff: real -> real)
    requires |a| == |b|
    requires forall j :: 0 <= j < |a| ==> a[j].body == b[j].body
    ensures ApplyEvents(regs, a, dbToCoeff) == ApplyEvents(regs, b, dbToCoeff)
    decreases |a|
  {
    if a != [] {
      var last := |a| - 1;
      assert forall j :: 0 <= j < last ==> a[..last][j] == a[j] && b[..last][j] == b[j];
      TimestampsIgnored(regs, a[..last], b[..last], dbToCoeff);
    }
  }

  /** Two gain messages in one cycle, -6 dB then 0 dB: the coefficient of 0 dB survives. */
  lemma LastWriteWinsExample(regs: Registers, dbToCoeff: real -> real)
    ensures var set6 := Object(PatchSet, Some(UridAtom(ParamGain)), Some(FloatAtom(-6.0)));
            var set0 := Object(PatchSet, Some(UridAtom(ParamGain)), Some(FloatAtom(0.0)));
            ApplyEvents(regs, [Event(0, set6), Event(0, set0)], dbToCoeff)
              == regs.(targetGain := dbToCoeff(0.0))
  {
    var set6 := Object(PatchSet, Some(UridAtom(ParamGain)), Some(FloatAtom(-6.0)));
    var set0 := Object(PatchSet, Some(UridAtom(ParamGain)), Some(FloatAtom(0.0)));
    var evs := [Event(0, set6), Event(0, set0)];
    LastGainWins(regs, evs, 1, 0.0, dbToCoeff);
    NoPolarityEventKeepsPolarity(regs, evs, dbToCoeff);
  }
}
