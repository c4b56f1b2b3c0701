/** The binding strengths the parser climbs, weakest first. */
module Precedences {
  import opened Wrappers

  datatype Precedence =
    | PrecNone | PrecAssignment | PrecEquality | PrecComparison
    | PrecTerm | PrecFactor | PrecUnary | PrecCall | PrecPrimary

  /** `Precedence.values()`. */
  const Levels: seq<Precedence> := [
    PrecNone, PrecAssignment, PrecEquality, PrecComparison,
    PrecTerm, PrecFactor, PrecUnary, PrecCall, PrecPrimary]

  function Level(p: Precedence): (n: nat)
    ensures n < |Levels| && Levels[n] == p
  {
    match p
    case PrecNone => 0
    case PrecAssignment => 1
    case PrecEquality => 2
    case PrecComparison => 3
    case PrecTerm => 4
    case PrecFactor => 5
    case PrecUnary => 6
    case PrecCall => 7
    case PrecPrimary => 8
  }

  /** `precedence.ordinal() <= other.ordinal()`. */
  predicate AtMost(p: Precedence, q: Precedence)
  {
    Level(p) <= Level(q)
  }

  /** `Precedence.values()[p.ordinal() + 1]`, which throws after `PRIMARY`. */
  function Successor(p: Precedence): (r: Option<Precedence>)
    ensures r.Some? <==> p != PrecPrimary
    ensures r.Some? ==> Level(r.value) == Level(p) + 1
  {
    if Level(p) + 1 < |Levels| then Some(Levels[Level(p) + 1]) else None
  }

  /** Ordinals give a strict total order: distinct levels compare strictly. */
  lemma LevelInjective(p: Precedence, q: Precedence)
    ensures Level(p) == Level(q) ==> p == q
  {
  }

  /** `NONE` is below everything and `PRIMARY` above everything. */
  lemma Bounds(p: Precedence)
    ensures AtMost(PrecNone, p) && AtMost(p, PrecPrimary)
    ensures p != PrecNone ==> !AtMost(p, PrecNone)
  {
  }

  /** The four levels that own binary operators each have a successor. */
  lemma BinaryLevelsHaveSuccessors(p: Precedence)
    requires p in {PrecEquality, PrecComparison, PrecTerm, PrecFactor}
    ensures Successor(p).Some? && AtMost(p, Successor(p).value) && p != Successor(p).value
  {
  }
}
