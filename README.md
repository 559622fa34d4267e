# Enum value cache and index resolver (jackson-databind)

A model of the part of jackson-databind that decides how the constants of a
Java `enum` are written and read back by position:

- the **naming policy** that picks a constant's serialized token from its
  declared name, its `toString()` string and the two features
  `WRITE_ENUMS_USING_TO_STRING` and `WRITE_ENUMS_TO_LOWERCASE`;
- the **value cache** `EnumValues`, built once from the declared constants,
  that holds one token per constant (`serializedValueFor`, `values()`,
  `internalMap()`);
- the **index resolver** `EnumResolver`, the constants in declaration order,
  where `getEnum(i)` gives the constant with ordinal `i` or `null` (here
  `None`) when `i` is out of range, `lastValidIndex()` is N-1 and
  `getEnums()` is the whole table.

The contracts state what `EnumValuesTest` asserts about `EnumValues` and
`EnumResolver`, generalised from its enum `ABC` (constants A, B, C, where B's
`toString()` is "b") to every declared enum, and the test module restates
each test method for `ABC`.

Files: `wrappers.dfy` (Option), `seq_facts.dfy` (sequences without
repeats), `ascii.dfy` (ASCII lower-casing), `enum_constants.dfy` (a
constant and a declared enum), `enum_naming.dfy` (naming policy),
`enum_values.dfy` (value cache), `enum_resolver.dfy` (index resolver),
`enum_values_test.dfy` (the `ABC` instance).

Configuration is reduced to a record of the two booleans; a constant is its
ordinal, declared name and `toString()` string, supplied already resolved in
declaration order. Tokens are plain strings.

## Model

| member | source | states |
|---|---|---|
| Ascii.ToLower | src/test/java/tools/jackson/databind/util/EnumValuesTest.java:85-87 | one character lower-cased: an ASCII upper-case letter becomes its lower-case letter, any other character is unchanged, and the result is never an upper-case letter |
| Ascii.LowerCase | src/test/java/tools/jackson/databind/util/EnumValuesTest.java:81-87 | lower-casing keeps the length, maps each character through the ASCII-only lower-casing and leaves no upper-case ASCII letter |
| Ascii.LowerCaseKeepsLower | src/test/java/tools/jackson/databind/util/EnumValuesTest.java:85-87 | a string without upper-case ASCII letters is left unchanged by lower-casing |
| Ascii.LowerCaseIdempotent | src/test/java/tools/jackson/databind/util/EnumValuesTest.java:85-87 | lower-casing twice equals lower-casing once |
| EnumNaming.SerializedName | src/test/java/tools/jackson/databind/util/EnumValuesTest.java:37-87 | with neither feature the token is the declared name; with only write-using-toString it is the `toString()` string; with only write-to-lowercase it is the ASCII lower-case of the name and has no upper-case letter |
| EnumNaming.NameModesIgnoreDisplay | src/test/java/tools/jackson/databind/util/EnumValuesTest.java:20-43 | without write-using-toString the token equals the declared name up to ASCII case, and two constants with the same name get the same token whatever their `toString()` |
| EnumNaming.ByNameIsInjective | src/test/java/tools/jackson/databind/util/EnumValuesTest.java:37-43 | by default two constants of a declared enum get the same token exactly when they are the same constant |
| EnumConstants.DeclaredCardinality | src/test/java/tools/jackson/databind/util/EnumValuesTest.java:20-23 | the constants of a declared enum are pairwise different, so there are exactly N of them |
| EnumValueCache.Construct | src/test/java/tools/jackson/databind/util/EnumValuesTest.java:40-45 | the built cache gives every declared constant the token the naming policy assigns it, and both `values()` and `internalMap()` have N entries |
| EnumValueCache.SerializedValueFor | src/test/java/tools/jackson/databind/util/EnumValuesTest.java:41-43 | a lookup succeeds exactly for the cache's own constants and returns the token stored at that constant's position |
| EnumValueCache.Values | src/test/java/tools/jackson/databind/util/EnumValuesTest.java:44 | `values()` lists one token per constant, in declaration order, each the one `serializedValueFor` returns |
| EnumValueCache.InternalMap | src/test/java/tools/jackson/databind/util/EnumValuesTest.java:45 | `internalMap()` has exactly the declared constants as keys, each mapped to its `serializedValueFor` token |
| EnumValueCache.InternalMapSize | src/test/java/tools/jackson/databind/util/EnumValuesTest.java:45 | `internalMap().size()` equals the number of constants N |
| EnumValueCache.ByNameTokensDistinct | src/test/java/tools/jackson/databind/util/EnumValuesTest.java:41-44 | by default the N tokens are pairwise different, so they form N distinct strings |
| EnumIndexResolver.ConstructUsingToString | src/test/java/tools/jackson/databind/util/EnumValuesTest.java:65-66 | `getEnums()` of the built resolver is the declared constants in declaration order, its last valid index is N-1, and it resolves every position i, and every constant's ordinal, to that constant |
| EnumIndexResolver.GetEnum | src/test/java/tools/jackson/databind/util/EnumValuesTest.java:67-69 | `getEnum(i)` finds a constant exactly when 0 <= i <= lastValidIndex, and the constant found has ordinal i; otherwise it returns not-found, never an error |
| EnumIndexResolver.LastValidIndex | src/test/java/tools/jackson/databind/util/EnumValuesTest.java:70 | `lastValidIndex()` is N-1, so at least -1 |
| EnumIndexResolver.GetEnums | src/test/java/tools/jackson/databind/util/EnumValuesTest.java:71-75 | `getEnums()` has lastValidIndex+1 constants in declaration order, the i-th having ordinal i and being what `getEnum(i)` returns |
| EnumValuesTest.TestConstructFromName | src/test/java/tools/jackson/databind/util/EnumValuesTest.java:36-45 | for `ABC` by default the tokens are "A", "B", "C" and both sizes are 3 |
| EnumValuesTest.TestConstructWithToString | src/test/java/tools/jackson/databind/util/EnumValuesTest.java:49-58 | for `ABC` with write-using-toString the tokens are "A", "b", "C" and both sizes are 3 |
| EnumValuesTest.TestEnumResolverNew | src/test/java/tools/jackson/databind/util/EnumValuesTest.java:62-75 | for `ABC`, `getEnum(1)` is B, `getEnum(-1)` and `getEnum(3)` are not found, `lastValidIndex()` is 2 and `getEnums()` is A, B, C |
| EnumValuesTest.TestConstructFromNameLowerCased | src/test/java/tools/jackson/databind/util/EnumValuesTest.java:80-89 | for `ABC` with write-to-lowercase the tokens are "a", "b", "c" and both sizes are 3, whether write-using-toString is off or on |

## Left out

- EnumNaming.SerializedName: when both features are enabled the model returns the lower-cased `toString()` string, but no contract states it: the assertions fix only the three single-feature and no-feature cases. For `ABC` this choice gives "a", "b", "c" with or without write-using-toString, so the lower-casing test holds whichever way that feature defaults on the mapper.
- Per-constant explicit name overrides and lookup of a constant by its serialized name are not exercised by the test and are not modelled.
- EnumIndexResolver.ConstructUsingToString takes no configuration: the deserialization configuration only feeds annotation introspection and the name table, both left out, and the ordinal table does not depend on it.
- Annotation introspection (`AnnotatedClassResolver.resolve`) is not part of this model: the constants arrive already resolved, in declaration order.
- `ObjectMapper`, `SerializationConfig`, `DeserializationConfig` and feature plumbing are reduced to the two booleans of `Config`.
- `SerializableString` wrapping is not modelled; tokens are plain strings.
- Lower-casing covers the ASCII range only; locale-sensitive and non-ASCII case conversion is not modelled.
- Process-wide caching of built tables and thread safety are outside the model; the structures are immutable values.
