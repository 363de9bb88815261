/**
 * The xwiki.cfg configuration source with JNDI overrides. Every read first
 * asks the JNDI source and, when that answer is non-null, logs the override
 * and returns it; only a null answer sends the original call, arguments
 * intact, to the wrapped xwiki.cfg source.
 *
 * The wrapped source (the superclass) is known only through what its four
 * reads answer; they are the `base*` functions. The ghost `baseCalls` records
 * which of them were consulted, and `log` what was written to the logger.
 */
module XWikiCfgJndi {
  import opened JavaModel
  import StringUtils
  import Jndi = JndiConfiguration

  /** What the override source writes to its logger. */
  datatype LogEntry =
    | OverrideFound(key: string, value: Obj)   // info: JNDI supplies `value` for `key`
    | OverrideInstalled                        // info: the override source is initialised

  /** A call into the wrapped xwiki.cfg source. */
  datatype BaseCall =
    | BaseGetProperty(key: string)
    | BaseGetTypedProperty(key: string, valueClass: JavaClass)
    | BaseGetPropertyOrDefault(key: string, defaultValue: Obj)
    | BaseContainsKey(key: string)
    | BaseInitialize

  class XWikiCfgJndiConfigurationSource {
    /** The injected JNDI source. */
    const jndi: Jndi.JndiConfigurationSource
    /** `super.getProperty(key)`. */
    const baseGet: string -> Nullable
    /** `super.getProperty(key, valueClass)`. */
    const baseGetTyped: (string, JavaClass) -> Nullable
    /** `super.getProperty(key, defaultValue)`. */
    const baseGetDefault: (string, Obj) -> Nullable
    /** `super.containsKey(key)`. */
    const baseContains: string -> bool
    ghost var log: seq<LogEntry>
    ghost var baseCalls: seq<BaseCall>

    constructor (jndi: Jndi.JndiConfigurationSource, baseGet: string -> Nullable,
                 baseGetTyped: (string, JavaClass) -> Nullable, baseGetDefault: (string, Obj) -> Nullable,
                 baseContains: string -> bool)
      ensures this.jndi == jndi && this.baseGet == baseGet && this.baseGetTyped == baseGetTyped
      ensures this.baseGetDefault == baseGetDefault && this.baseContains == baseContains
      ensures log == [] && baseCalls == []
    {
      this.jndi := jndi;
      this.baseGet := baseGet;
      this.baseGetTyped := baseGetTyped;
      this.baseGetDefault := baseGetDefault;
      this.baseContains := baseContains;
      log := [];
      baseCalls := [];
    }

    /** The answer of `getProperty(key)`. */
    function Resolved(key: string): Nullable
      reads jndi
    {
      var jndiValue := jndi.GetProperty(key);
      if jndiValue.Some? then jndiValue else baseGet(key)
    }

    /** The answer of `getProperty(key, valueClass)`. */
    function ResolvedTyped(key: string, valueClass: JavaClass): Nullable
      reads jndi
    {
      var jndiValue := jndi.GetTypedProperty(key, valueClass);
      if jndiValue.Some? then jndiValue else baseGetTyped(key, valueClass)
    }

    /** The answer of `getProperty(key, defaultValue)`: the JNDI raw read, not its default-valued one, decides. */
    function ResolvedOrDefault(key: string, defaultValue: Obj): Nullable
      reads jndi
    {
      var jndiValue := jndi.GetProperty(key);
      if jndiValue.Some? then jndiValue else baseGetDefault(key, defaultValue)
    }

    /** The answer of `containsKey(key)`. */
    function Contains(key: string): bool
      reads jndi
      requires jndi.context.Some?
    {
      jndi.ContainsKey(key) || baseContains(key)
    }

    /** `logOverride`: one info entry naming the key and the overriding value. */
    method LogOverride(key: string, value: Obj)
      modifies this`log
      ensures log == old(log) + [OverrideFound(key, value)]
      ensures baseCalls == old(baseCalls)
    {
      log := log + [OverrideFound(key, value)];
    }

    /**
     * `getProperty(key, defaultValue)`. A non-null JNDI raw read is returned
     * and logged without consulting the base; otherwise the base answers with
     * the caller's default, and nothing is logged.
     */
    method GetPropertyOrDefault(key: string, defaultValue: Obj) returns (r: Nullable)
      modifies this`log, this`baseCalls
      ensures r == ResolvedOrDefault(key, defaultValue)
      ensures jndi.GetProperty(key).Some? ==>
                r == jndi.GetProperty(key) &&
                log == old(log) + [OverrideFound(key, r.value)] && baseCalls == old(baseCalls)
      ensures jndi.GetProperty(key).None? ==>
                r == baseGetDefault(key, defaultValue) &&
                log == old(log) && baseCalls == old(baseCalls) + [BaseGetPropertyOrDefault(key, defaultValue)]
    {
      var jndiValue := jndi.GetProperty(key);
      if jndiValue.Some? {
        LogOverride(key, jndiValue.value);
        return jndiValue;
      }
      baseCalls := baseCalls + [BaseGetPropertyOrDefault(key, defaultValue)];
      r := baseGetDefault(key, defaultValue);
    }

    /**
     * `getProperty(key, valueClass)`. A non-null JNDI typed read is returned
     * and logged without consulting the base; a null one, conversion failure
     * included, goes to the base's typed read, and nothing is logged.
     */
    method GetTypedProperty(key: string, valueClass: JavaClass) returns (r: Nullable)
      modifies this`log, this`baseCalls
      ensures r == ResolvedTyped(key, valueClass)
      ensures jndi.GetTypedProperty(key, valueClass).Some? ==>
                r == jndi.GetTypedProperty(key, valueClass) &&
                log == old(log) + [OverrideFound(key, r.value)] && baseCalls == old(baseCalls)
      ensures jndi.GetTypedProperty(key, valueClass).None? ==>
                r == baseGetTyped(key, valueClass) &&
                log == old(log) && baseCalls == old(baseCalls) + [BaseGetTypedProperty(key, valueClass)]
    {
      var jndiValue := jndi.GetTypedProperty(key, valueClass);
      if jndiValue.Some? {
        LogOverride(key, jndiValue.value);
        return jndiValue;
      }
      baseCalls := baseCalls + [BaseGetTypedProperty(key, valueClass)];
      r := baseGetTyped(key, valueClass);
    }

    /**
     * `getProperty(key)`. A non-null JNDI raw read is returned and logged
     * without consulting the base; otherwise the base answers, and nothing is
     * logged.
     */
    method GetProperty(key: string) returns (r: Nullable)
      modifies this`log, this`baseCalls
      ensures r == Resolved(key)
      ensures jndi.GetProperty(key).Some? ==>
                r == jndi.GetProperty(key) &&
                log == old(log) + [OverrideFound(key, r.value)] && baseCalls == old(baseCalls)
      ensures jndi.GetProperty(key).None? ==>
                r == baseGet(key) &&
                log == old(log) && baseCalls == old(baseCalls) + [BaseGetProperty(key)]
    {
      var jndiValue := jndi.GetProperty(key);
      if jndiValue.Some? {
        LogOverride(key, jndiValue.value);
        return jndiValue;
      }
      baseCalls := baseCalls + [BaseGetProperty(key)];
      r := baseGet(key);
    }

    /**
     * `initialize()`: the base initialises first, and its failure propagates
     * with nothing logged; only after it succeeds is the installation logged.
     * `baseOutcome` is how the base's own initialisation ends.
     */
    method Initialize(baseOutcome: Completion) returns (outcome: Completion)
      modifies this`log, this`baseCalls
      ensures outcome == baseOutcome
      ensures baseCalls == old(baseCalls) + [BaseInitialize]
      ensures log == if baseOutcome.Normal? then old(log) + [OverrideInstalled] else old(log)
    {
      baseCalls := baseCalls + [BaseInitialize];
      if baseOutcome.Abrupt? {
        return baseOutcome;
      }
      log := log + [OverrideInstalled];
      outcome := Normal;
    }

    /**
     * `containsKey(key)`: true when JNDI binds the key, without asking the
     * base; otherwise the base's answer. Like the JNDI source's, it needs a
     * context to be set.
     */
    method ContainsKey(key: string) returns (r: bool)
      requires jndi.context.Some?
      modifies this`log, this`baseCalls
      ensures r == Contains(key)
      ensures log == old(log)
      ensures jndi.ContainsKey(key) ==> baseCalls == old(baseCalls)
      ensures !jndi.ContainsKey(key) ==> baseCalls == old(baseCalls) + [BaseContainsKey(key)]
    {
      var isKeyInJndi := jndi.ContainsKey(key);
      if isKeyInJndi {
        return true;
      }
      baseCalls := baseCalls + [BaseContainsKey(key)];
      r := baseContains(key);
    }
  }

  /**
   * Precedence: a string bound in JNDI is the answer of the raw and the
   * default-valued reads, trimmed and unconverted, whatever the base holds and
   * whatever the class of the caller's default.
   */
  lemma BoundStringOverrides(src: XWikiCfgJndiConfigurationSource, key: string, defaultValue: Obj)
    requires src.jndi.HoldsString(key)
    ensures var v := Some(Str(StringUtils.Trim(src.jndi.BoundString(key))));
            src.Resolved(key) == v && src.ResolvedOrDefault(key, defaultValue) == v
  {
  }

  /**
   * Pure delegation: when JNDI holds no string for the key (no context, an
   * unbound key or a non-string binding), every read answers exactly what the
   * base answers for the same arguments.
   */
  lemma MissingOverrideDelegates(src: XWikiCfgJndiConfigurationSource, key: string, valueClass: JavaClass,
                                 defaultValue: Obj)
    requires !src.jndi.HoldsString(key)
    ensures src.Resolved(key) == src.baseGet(key)
    ensures src.ResolvedTyped(key, valueClass) == src.baseGetTyped(key, valueClass)
    ensures src.ResolvedOrDefault(key, defaultValue) == src.baseGetDefault(key, defaultValue)
  {
  }

  /**
   * A bound string the converter cannot turn into the requested class (it
   * throws, or returns null) is no override for the typed read.
   */
  lemma TypedConversionFailureFallsBack(src: XWikiCfgJndiConfigurationSource, key: string, valueClass: JavaClass)
    requires src.jndi.HoldsString(key) && valueClass != StringArrayClass
    requires src.jndi.converter(valueClass, src.jndi.BoundString(key)) in {ConversionFailed, Converted(None)}
    ensures src.ResolvedTyped(key, valueClass) == src.baseGetTyped(key, valueClass)
  {
  }

  /**
   * Why the default-valued read asks JNDI's raw read: with a context set and
   * the key unbound, JNDI's own default-valued read would answer the caller's
   * default and hide the base, whereas the override source answers what the
   * base answers for that default.
   */
  lemma DefaultReachesBase(src: XWikiCfgJndiConfigurationSource, key: string, defaultValue: Obj)
    requires src.jndi.context.Some? && key !in src.jndi.context.value
    ensures src.jndi.GetPropertyOrDefault(key, defaultValue) == Some(defaultValue)
    ensures src.ResolvedOrDefault(key, defaultValue) == src.baseGetDefault(key, defaultValue)
  {
  }

  /** A bound string that is all padding still overrides the base, with the empty string. */
  lemma BlankOverride(src: XWikiCfgJndiConfigurationSource, key: string)
    requires src.jndi.HoldsString(key) && StringUtils.AllTrimmable(src.jndi.BoundString(key))
    ensures src.Resolved(key) == Some(Str(""))
  {
    StringUtils.TrimEmptyIffAllTrimmable(src.jndi.BoundString(key));
  }

  /** `containsKey` is the disjunction of JNDI binding the key and the base containing it. */
  lemma ContainsIsDisjunction(src: XWikiCfgJndiConfigurationSource, key: string)
    requires src.jndi.context.Some?
    ensures src.Contains(key) <==> key in src.jndi.context.value || src.baseContains(key)
  {
  }

  /** No JNDI binding for "timeout": the base's 30 is returned and nothing is logged. */
  method TimeoutFromBase(converter: Converter)
  {
    var jndi := new Jndi.JndiConfigurationSource(converter);
    var init := jndi.Initialize(map[], map[Jndi.DefaultConfigContext := Context(map[])]);
    var src := new XWikiCfgJndiConfigurationSource(jndi, _ => None, (_, _) => None,
      (k, d) => if k == "timeout" then Some(Str("30")) else Some(d), _ => false);
    var v := src.GetPropertyOrDefault("timeout", Instance("java.lang.Integer", 10));
    assert v == Some(Str("30")) && src.log == [];
  }

  /**
   * JNDI binds "timeout" to a string without padding: that string is
   * returned, the base is not asked, and exactly one override entry is logged.
   */
  method TimeoutFromJndi(converter: Converter, value: string)
    requires value != [] && !StringUtils.IsTrimmable(value[0]) && !StringUtils.IsTrimmable(value[|value| - 1])
  {
    var bindings := map["timeout" := Str(value)];
    var jndi := new Jndi.JndiConfigurationSource(converter);
    var init := jndi.Initialize(map[], map[Jndi.DefaultConfigContext := Context(bindings)]);
    assert jndi.context == Some(bindings);
    StringUtils.TrimUnpadded(value);
    var src := new XWikiCfgJndiConfigurationSource(jndi, _ => None, (_, _) => None,
      (k, d) => if k == "timeout" then Some(Str("30")) else Some(d), _ => false);
    var v := src.GetPropertyOrDefault("timeout", Instance("java.lang.Integer", 10));
    assert v == Some(Str(value)) && src.log == [OverrideFound("timeout", Str(value))] && src.baseCalls == [];
  }
}
