/**
  The value cache (`EnumValues`): for every constant of an enum type, the
  token it is serialized as, computed once from the declared constants and a
  configuration, and only queried afterwards.
*/
module EnumValueCache {

  import opened Wrappers
  import opened SeqFacts
  import opened EnumConstants
  import opened EnumNaming

  /** The declared constants and, at the same positions, their tokens. */
  datatype EnumValues = EnumValues(constants: seq<Constant>, textual: seq<string>)
  {
    ghost predicate Valid() {
      Declared(constants) && |textual| == |constants|
    }
  }

  /** `EnumValues.construct`: runs the naming policy once per constant. */
  function Construct(cs: seq<Constant>, cfg: Config): (ev: EnumValues)
    requires Declared(cs)
    ensures ev.Valid() && ev.constants == cs
    ensures forall c :: c in cs ==> SerializedValueFor(ev, c) == Some(SerializedName(c, cfg))
    ensures |Values(ev)| == |cs| && |InternalMap(ev)| == |cs|
  {
    var ev := EnumValues(cs, seq(|cs|, i requires 0 <= i < |cs| => SerializedName(cs[i], cfg)));
    InternalMapSize(ev);
    ev
  }

  /**
    `serializedValueFor`: the token of `c`, or None for a constant that is
    not one of this cache's.
  */
  function SerializedValueFor(ev: EnumValues, c: Constant): (r: Option<string>)
    requires ev.Valid()
    ensures r.Some? <==> c in ev.constants
    ensures forall i :: 0 <= i < |ev.constants| && ev.constants[i] == c ==> r == Some(ev.textual[i])
  {
    if c.ordinal < |ev.constants| && ev.constants[c.ordinal] == c then Some(ev.textual[c.ordinal]) else None
  }

  /** `values()`: the tokens in declaration order, one per constant. */
  function Values(ev: EnumValues): (r: seq<string>)
    requires ev.Valid()
    ensures |r| == |ev.constants|
    ensures forall i :: 0 <= i < |r| ==> SerializedValueFor(ev, ev.constants[i]) == Some(r[i])
  {
    ev.textual
  }

  /** `internalMap()`: the cache as a map from constant to token. */
  function InternalMap(ev: EnumValues): (m: map<Constant, string>)
    requires ev.Valid()
    ensures m.Keys == Elements(ev.constants)
    ensures forall c :: c in m ==> SerializedValueFor(ev, c) == Some(m[c])
  {
    map c | c in ev.constants :: ev.textual[c.ordinal]
  }

  /** The map holds exactly one entry per constant. */
  lemma InternalMapSize(ev: EnumValues)
    requires ev.Valid()
    ensures |InternalMap(ev)| == |ev.constants|
  {
    DeclaredCardinality(ev.constants);
    assert |InternalMap(ev)| == |InternalMap(ev).Keys|;
  }

  /** With neither feature enabled the tokens are pairwise different. */
  lemma ByNameTokensDistinct(cs: seq<Constant>, cfg: Config)
    requires Declared(cs) && ByName(cfg)
    ensures Distinct(Values(Construct(cs, cfg)))
    ensures |Elements(Values(Construct(cs, cfg)))| == |cs|
  {
    var vs := Values(Construct(cs, cfg));
    forall i, j | 0 <= i < j < |vs| ensures vs[i] != vs[j] {
      assert vs[i] == cs[i].name && vs[j] == cs[j].name;
    }
    DistinctCardinality(vs);
  }
}
