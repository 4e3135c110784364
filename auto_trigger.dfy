/** When a rendered chat message is translated automatically: the `autoMode`
    setting names which directions are on, and each event handler asks
    whether its own direction is among them. */
module AutoTrigger {

  const ModeNone: string := "none"
  const ModeResponses: string := "responses"
  const ModeInputs: string := "inputs"
  const ModeBoth: string := "both"

  /** The modes that switch on translation of character replies and of the
      user's own messages. */
  const IncomingTypes: seq<string> := [ModeResponses, ModeBoth]
  const OutgoingTypes: seq<string> := [ModeInputs, ModeBoth]

  /** `shouldAutoTranslate`: an unset (empty) mode counts as `none`, and the
      answer is whether the mode is listed in `types`. */
  function ShouldAutoTranslate(autoMode: string, types: seq<string>): (r: bool)
    ensures autoMode != "" ==> (r <==> autoMode in types)
    ensures autoMode == "" ==> (r <==> ModeNone in types)
  {
    var mode := if autoMode == "" then ModeNone else autoMode;
    mode in types
  }

  // ---------------------------------------------------------------------
  // Reference definition: the modes as a lattice of directions

  datatype Direction = Incoming | Outgoing

  datatype Mode = Off | Responses | Inputs | Both

  /** The recognised setting values; anything else is no mode at all. */
  function ParseMode(s: string): (m: Mode)
    ensures m == Off <==> s !in [ModeResponses, ModeInputs, ModeBoth]
  {
    if s == ModeResponses then Responses
    else if s == ModeInputs then Inputs
    else if s == ModeBoth then Both
    else Off
  }

  /** A mode covers the directions its name says. */
  predicate Covers(m: Mode, d: Direction) {
    match m
    case Off => false
    case Responses => d == Incoming
    case Inputs => d == Outgoing
    case Both => true
  }

  function TypesFor(d: Direction): seq<string> {
    match d
    case Incoming => IncomingTypes
    case Outgoing => OutgoingTypes
  }

  /** The handlers' test agrees with the lattice for every setting value,
      including the unset one and values no option produces. */
  lemma ShouldAutoTranslateCovers(autoMode: string, d: Direction)
    ensures ShouldAutoTranslate(autoMode, TypesFor(d)) <==> Covers(ParseMode(autoMode), d)
  {
    assert ModeNone != ModeResponses && ModeNone != ModeInputs && ModeNone != ModeBoth;
    assert ModeResponses != ModeInputs && ModeResponses != ModeBoth && ModeInputs != ModeBoth;
  }

  /** `both` switches on both directions; `none`, the unset value and any
      unknown value switch on neither; each single mode only its own. */
  lemma ModeTable(unknown: string)
    requires unknown !in [ModeResponses, ModeInputs, ModeBoth]
    ensures ShouldAutoTranslate(ModeBoth, IncomingTypes) && ShouldAutoTranslate(ModeBoth, OutgoingTypes)
    ensures ShouldAutoTranslate(ModeResponses, IncomingTypes) && !ShouldAutoTranslate(ModeResponses, OutgoingTypes)
    ensures !ShouldAutoTranslate(ModeInputs, IncomingTypes) && ShouldAutoTranslate(ModeInputs, OutgoingTypes)
    ensures !ShouldAutoTranslate(unknown, IncomingTypes) && !ShouldAutoTranslate(unknown, OutgoingTypes)
  {
    ShouldAutoTranslateCovers(ModeBoth, Incoming);
    ShouldAutoTranslateCovers(ModeBoth, Outgoing);
    ShouldAutoTranslateCovers(ModeResponses, Incoming);
    ShouldAutoTranslateCovers(ModeResponses, Outgoing);
    ShouldAutoTranslateCovers(ModeInputs, Incoming);
    ShouldAutoTranslateCovers(ModeInputs, Outgoing);
    ShouldAutoTranslateCovers(unknown, Incoming);
    ShouldAutoTranslateCovers(unknown, Outgoing);
  }
}
