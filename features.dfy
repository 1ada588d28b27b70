/** The parse feature set: three named compile-time flags, toggled by
    `pragma enable|disable <flag>` and read by the statement handlers. */
module Features {

  datatype Features = Features(v2ControlFlow: bool, subroutines: bool, debugDump: bool)

  /** A fresh feature set: every flag off. */
  const NoFeatures := Features(false, false, false)

  const FlagV2ControlFlow := "cfv2"
  const FlagSubroutines := "subroutine"
  const FlagDebugDump := "debug"

  predicate KnownFlag(name: string)
  {
    name == FlagV2ControlFlow || name == FlagSubroutines || name == FlagDebugDump
  }

  /** The flag a known name selects. */
  function Flag(f: Features, name: string): bool
    requires KnownFlag(name)
  {
    if name == FlagV2ControlFlow then f.v2ControlFlow
    else if name == FlagSubroutines then f.subroutines
    else f.debugDump
  }

  /** enable(name) (`on`) or disable(name) (`!on`): the new flags and the
      returned "unknown name" indicator, which the pragma handlers turn
      into a diagnostic. A known name sets exactly its own flag; an unknown
      one changes nothing. */
  function SetFlag(f: Features, name: string, on: bool): (r: (Features, bool))
    ensures r.1 <==> !KnownFlag(name)
    ensures !KnownFlag(name) ==> r.0 == f
    ensures KnownFlag(name) ==> Flag(r.0, name) == on
    ensures forall other :: KnownFlag(other) && other != name ==> Flag(r.0, other) == Flag(f, other)
  {
    if name == FlagV2ControlFlow then (f.(v2ControlFlow := on), false)
    else if name == FlagSubroutines then (f.(subroutines := on), false)
    else if name == FlagDebugDump then (f.(debugDump := on), false)
    else (f, true)
  }

  /** Setting a flag twice is the same as setting it once, and the last of
      an enable/disable pair wins. */
  lemma SetFlagLastWins(f: Features, name: string, a: bool, b: bool)
    ensures SetFlag(SetFlag(f, name, a).0, name, b) == SetFlag(f, name, b)
  {
  }
}
