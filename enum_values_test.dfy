/**
  The enum `ABC` of the test suite, whose constant B overrides `toString()`
  to "b", and one lemma per test method stating what that test asserts.
*/
module EnumValuesTest {

  import opened Wrappers
  import opened Ascii
  import opened EnumConstants
  import opened EnumNaming
  import opened EnumValueCache
  import opened EnumIndexResolver

  const A := Constant(0, "A", "A")
  const B := Constant(1, "B", "b")
  const C := Constant(2, "C", "C")
  const ABC := [A, B, C]

  lemma TestConstructFromName()
    ensures Declared(ABC)
    ensures var values := Construct(ABC, Config(false, false));
      && SerializedValueFor(values, A) == Some("A")
      && SerializedValueFor(values, B) == Some("B")
      && SerializedValueFor(values, C) == Some("C")
      && |Values(values)| == 3 && |InternalMap(values)| == 3
  {
  }

  lemma TestConstructWithToString()
    ensures Declared(ABC)
    ensures var values := Construct(ABC, Config(true, false));
      && SerializedValueFor(values, A) == Some("A")
      && SerializedValueFor(values, B) == Some("b")
      && SerializedValueFor(values, C) == Some("C")
      && |Values(values)| == 3 && |InternalMap(values)| == 3
  {
  }

  lemma TestEnumResolverNew()
    ensures Declared(ABC)
    ensures var enumRes := ConstructUsingToString(ABC);
      && GetEnum(enumRes, 1) == Some(B)
      && GetEnum(enumRes, -1) == None
      && GetEnum(enumRes, 3) == None
      && LastValidIndex(enumRes) == 2
      && GetEnums(enumRes) == [A, B, C]
  {
  }

  /**
    The test enables only WRITE_ENUMS_TO_LOWERCASE on the mapper's default
    configuration; its assertions hold whichever way WRITE_ENUMS_USING_TO_STRING
    defaults.
  */
  lemma TestConstructFromNameLowerCased(toStringByDefault: bool)
    ensures Declared(ABC)
    ensures var values := Construct(ABC, Config(toStringByDefault, true));
      && SerializedValueFor(values, A) == Some("a")
      && SerializedValueFor(values, B) == Some("b")
      && SerializedValueFor(values, C) == Some("c")
      && |Values(values)| == 3 && |InternalMap(values)| == 3
  {
    assert LowerCase("A") == "a" && LowerCase("B") == "b" && LowerCase("C") == "c";
    assert LowerCase("b") == "b";
  }
}
