/** The constants of one enumerated type, as the host language declares them. */
module EnumConstants {

  import opened SeqFacts

  /**
    One enum constant: its 0-based declaration position, its declared
    identifier (`name()`), and the string its `toString()` returns (equal to
    the name unless the type overrides `toString()`).
  */
  datatype Constant = Constant(ordinal: nat, name: string, display: string)

  /**
    The constants of an enum type in declaration order: each carries its own
    position as ordinal, and no two share a declared name.
  */
  ghost predicate Declared(cs: seq<Constant>) {
    && (forall i :: 0 <= i < |cs| ==> cs[i].ordinal == i)
    && (forall i, j :: 0 <= i < j < |cs| ==> cs[i].name != cs[j].name)
  }

  /** Constants of a declared enum are pairwise different, so there are exactly |cs| of them. */
  lemma DeclaredCardinality(cs: seq<Constant>)
    requires Declared(cs)
    ensures Distinct(cs)
    ensures |Elements(cs)| == |cs|
  {
    DistinctCardinality(cs);
  }
}
