/** The control messages the plugin receives on its atom input port.

    The host hands the plugin an LV2 Atom Sequence of timestamped events. The
    plugin maps its URIs to integer URIDs once, at instantiation; here those
    URIDs are fixed, distinct constants. An atom's type URID and raw body are
    replaced by a tagged variant, so that reading a float or a bool out of an
    atom of another type cannot happen. */
module Atoms {

  datatype Option<+T> = None | Some(value: T)

  /** An integer the host's urid:map assigned to a URI. */
  type Urid = nat

  /** URID of the Patch extension's `patch:Set` message type. */
  const PatchSet: Urid := 6
  /** URID of the plugin's `gain` parameter (a decibel float). */
  const ParamGain: Urid := 9
  /** URID of the plugin's `polarity` parameter (a bool). */
  const ParamPolarity: Urid := 10

  /** An atom whose type is one of the three the decoder inspects, or another. */
  datatype Atom =
    | UridAtom(id: Urid)
    | FloatAtom(f: real)
    | BoolAtom(b: bool)
    | OtherAtom

  /** The body of an event: an Atom Object, with the results of looking up its
      `patch:property` and `patch:value` keys, or an atom of any other type
      (a Blank object included). */
  datatype Body =
    | Object(otype: Urid, property: Option<Atom>, value: Option<Atom>)
    | NotObject

  /** One event of the sequence: its sample offset in the cycle and its body. */
  datatype Event = Event(frames: nat, body: Body)
}
