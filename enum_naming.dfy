/**
  The naming policy: which string an enum constant is written as, given the
  two serialization features WRITE_ENUMS_USING_TO_STRING and
  WRITE_ENUMS_TO_LOWERCASE.
*/
module EnumNaming {

  import opened Ascii
  import opened EnumConstants

  /** The two serialization features the naming consults. */
  datatype Config = Config(writeUsingToString: bool, writeLowerCase: bool)

  /** Neither feature is enabled: the default naming. */
  predicate ByName(cfg: Config) {
    !cfg.writeUsingToString && !cfg.writeLowerCase
  }

  /**
    The serialized token of `c`. The three cases that the features fix are
    stated; with both features enabled the token is the lower-cased
    `toString()` string, a combination that no contract here promises.
  */
  function SerializedName(c: Constant, cfg: Config): (r: string)
    ensures ByName(cfg) ==> r == c.name
    ensures cfg.writeUsingToString && !cfg.writeLowerCase ==> r == c.display
    ensures !cfg.writeUsingToString && cfg.writeLowerCase ==> r == LowerCase(c.name) && HasNoUpper(r)
  {
    if cfg.writeUsingToString then (if cfg.writeLowerCase then LowerCase(c.display) else c.display)
    else if cfg.writeLowerCase then LowerCase(c.name)
    else c.name
  }

  /**
    Unless `toString()` is asked for, the token is the declared name up to
    ASCII case; in particular an overridden `toString()` never leaks in.
  */
  lemma NameModesIgnoreDisplay(c: Constant, d: Constant, cfg: Config)
    requires !cfg.writeUsingToString
    ensures LowerCase(SerializedName(c, cfg)) == LowerCase(c.name)
    ensures c.name == d.name ==> SerializedName(c, cfg) == SerializedName(d, cfg)
  {
  }

  /** By default different constants of a declared enum get different tokens. */
  lemma ByNameIsInjective(cs: seq<Constant>, i: nat, j: nat, cfg: Config)
    requires Declared(cs) && ByName(cfg)
    requires i < |cs| && j < |cs|
    ensures SerializedName(cs[i], cfg) == SerializedName(cs[j], cfg) <==> i == j
  {
  }
}
