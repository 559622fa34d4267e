/**
  The index resolver (`EnumResolver`): the constants of an enum type in
  declaration order, looked up by ordinal, with "not found" rather than an
  error for an index out of range.
*/
module EnumIndexResolver {

  import opened Wrappers
  import opened EnumConstants

  datatype EnumResolver = EnumResolver(enums: seq<Constant>)
  {
    ghost predicate Valid() {
      Declared(enums)
    }
  }

  /**
    `EnumResolver.constructUsingToString`: the ordinal table is the
    declaration order whatever names the constants are read by.
  */
  function ConstructUsingToString(cs: seq<Constant>): (r: EnumResolver)
    requires Declared(cs)
    ensures r.Valid()
    ensures GetEnums(r) == cs
    ensures LastValidIndex(r) == |cs| - 1
    ensures forall c :: c in cs ==> GetEnum(r, c.ordinal) == Some(c)
    ensures forall i :: 0 <= i < |cs| ==> GetEnum(r, i) == Some(cs[i])
  {
    EnumResolver(cs)
  }

  /** `lastValidIndex()`: the largest ordinal, -1 for a type without constants. */
  function LastValidIndex(r: EnumResolver): (n: int)
    ensures n >= -1
    ensures n + 1 == |r.enums|
  {
    |r.enums| - 1
  }

  /** `getEnum(int)`: the constant with ordinal `index`, None outside 0..lastValidIndex(). */
  function GetEnum(r: EnumResolver, index: int): (res: Option<Constant>)
    requires r.Valid()
    ensures res.Some? <==> 0 <= index <= LastValidIndex(r)
    ensures res.Some? ==> res.value.ordinal == index && res.value in r.enums
  {
    if index < 0 || index >= |r.enums| then None else Some(r.enums[index])
  }

  /** `getEnums()`: every constant, in declaration order. */
  function GetEnums(r: EnumResolver): (s: seq<Constant>)
    requires r.Valid()
    ensures |s| == LastValidIndex(r) + 1
    ensures forall i :: 0 <= i < |s| ==> s[i].ordinal == i && GetEnum(r, i) == Some(s[i])
  {
    r.enums
  }
}
