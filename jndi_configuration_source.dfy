/**
 * A configuration source whose values are the strings bound in one naming
 * (JNDI) context. The context is looked up once, by `Initialize`, under the
 * path named by the environment variable `xwikiJNDIConfigContext`, or under
 * `java:comp/env/xwiki/config` when that variable is unset; if the path does
 * not resolve, the source stays without a context and answers every read with
 * null.
 *
 * A naming context is modelled as the map of its bindings: a key that is not
 * in the map is one whose lookup throws `NamingException`.
 */
module JndiConfiguration {
  import opened JavaModel
  import StringUtils

  /** The environment variable that names the context path. */
  const ConfigContextVariable: string := "xwikiJNDIConfigContext"

  /** The context path used when that variable is unset. */
  const DefaultConfigContext: string := "java:comp/env/xwiki/config"

  /** What `initialize` writes to its logger. */
  datatype LogEntry =
    | ContextInitialized(path: string)   // info: the context at `path` is in use
    | ContextUnavailable                 // warn: the source will be empty

  /** The path `initialize` looks up, given the process environment. */
  function ContextPath(env: map<string, string>): string {
    if ConfigContextVariable in env then env[ConfigContextVariable] else DefaultConfigContext
  }

  class JndiConfigurationSource {
    /** `xwikiConfigContext`: the bindings of the naming context, None while it is null. */
    var context: Option<map<string, Obj>>
    /** The injected generic converter. */
    const converter: Converter
    /** What this source has written to its logger. */
    ghost var log: seq<LogEntry>

    constructor (converter: Converter)
      ensures this.converter == converter
      ensures context == None && log == []
    {
      this.converter := converter;
      context := None;
      log := [];
    }

    /** A context is set and `key` is bound in it to a string. */
    predicate HoldsString(key: string)
      reads this
    {
      context.Some? && key in context.value && context.value[key].Str?
    }

    /** The string bound to `key`. */
    function BoundString(key: string): string
      reads this
      requires HoldsString(key)
    {
      context.value[key].s
    }

    /**
     * The private `convert`: a `String[]` request is answered by the legacy
     * split on spaces and commas, which cannot fail; any other request goes
     * to the converter, and the caller's fallback replaces a conversion that
     * throws. A converter that returns null yields null, not the fallback.
     */
    function Convert(value: string, targetClass: JavaClass, fallback: Nullable): (r: Nullable)
      ensures targetClass == StringArrayClass ==> r == Some(StrArray(StringUtils.Split(value)))
      ensures targetClass != StringArrayClass && converter(targetClass, value).ConversionFailed? ==> r == fallback
      ensures targetClass != StringArrayClass && converter(targetClass, value).Converted? ==>
                r == converter(targetClass, value).result
    {
      if targetClass == StringArrayClass then
        Some(StrArray(StringUtils.Split(value)))
      else
        match converter(targetClass, value)
        case Converted(result) => result
        case ConversionFailed => fallback
    }

    /**
     * `getProperty(key, defaultValue)`. The default stands in only for an
     * unbound key and for a conversion that throws; without a context, or
     * when the bound object is not a string, the answer is null, not the
     * default. The string is converted as bound, untrimmed, to the class of
     * the default.
     */
    function GetPropertyOrDefault(key: string, defaultValue: Obj): (r: Nullable)
      reads this
      ensures context.None? ==> r == None
      ensures context.Some? && key !in context.value ==> r == Some(defaultValue)
      ensures context.Some? && key in context.value && !context.value[key].Str? ==> r == None
      ensures HoldsString(key) && ClassOf(defaultValue) == StringArrayClass ==>
                r == Some(StrArray(StringUtils.Split(BoundString(key))))
      ensures HoldsString(key) && ClassOf(defaultValue) != StringArrayClass ==>
                r == match converter(ClassOf(defaultValue), BoundString(key))
                     case Converted(v) => v
                     case ConversionFailed => Some(defaultValue)
    {
      if context.None? then None
      else if key !in context.value then Some(defaultValue)
      else match context.value[key]
        case Str(s) => Convert(s, ClassOf(defaultValue), Some(defaultValue))
        case _ => None
    }

    /**
     * `getProperty(key, valueClass)`. Null without a context, for an unbound
     * key, for a non-string binding and for a conversion that throws; never a
     * default. The string is converted as bound, untrimmed.
     */
    function GetTypedProperty(key: string, valueClass: JavaClass): (r: Nullable)
      reads this
      ensures !HoldsString(key) ==> r == None
      ensures HoldsString(key) && valueClass == StringArrayClass ==>
                r == Some(StrArray(StringUtils.Split(BoundString(key))))
      ensures HoldsString(key) && valueClass != StringArrayClass ==>
                r == match converter(valueClass, BoundString(key))
                     case Converted(v) => v
                     case ConversionFailed => None
    {
      if context.None? then None
      else if key !in context.value then None
      else match context.value[key]
        case Str(s) => Convert(s, valueClass, None)
        case _ => None
    }

    /**
     * `getProperty(key)`: the bound string with its padding trimmed. Non-null
     * exactly when a context is set and binds `key` to a string; an all-blank
     * string gives the empty string, not null.
     */
    function GetProperty(key: string): (r: Nullable)
      reads this
      ensures r.Some? <==> HoldsString(key)
      ensures r.Some? ==> r.value == Str(StringUtils.Trim(BoundString(key)))
    {
      if context.None? then None
      else if key !in context.value then None
      else match context.value[key]
        case Str(s) => Some(Str(StringUtils.Trim(s)))
        case _ => None
    }

    /** `getKeys()`: a naming context is not enumerated, so no key is ever listed. */
    function GetKeys(): (keys: seq<string>)
      ensures keys == []
    {
      []
    }

    /**
     * `containsKey(key)`: whether the lookup succeeds, whatever the bound
     * object is. The code dereferences the context without a null check, so a
     * caller must not ask before a context is set.
     */
    function ContainsKey(key: string): (r: bool)
      reads this
      requires context.Some?
      ensures r <==> key in context.value
    {
      key in context.value
    }

    /** `isEmpty()`: true exactly when no context is set, whatever the context binds. */
    function IsEmpty(): (r: bool)
      reads this
      ensures r <==> context.None?
    {
      context.None?
    }

    /**
     * `initialize()`: look up the context path in the naming service. If the
     * path is unbound the failure is logged and swallowed and the source keeps
     * no context. If it is bound to something that is not a context, the cast
     * throws `ClassCastException`, which is not caught.
     */
    method Initialize(env: map<string, string>, naming: map<string, Obj>) returns (outcome: Completion)
      modifies this`context, this`log
      ensures ContextPath(env) !in naming ==>
                outcome == Normal && context == old(context) && log == old(log) + [ContextUnavailable]
      ensures ContextPath(env) in naming && naming[ContextPath(env)].Context? ==>
                outcome == Normal && context == Some(naming[ContextPath(env)].bindings) &&
                log == old(log) + [ContextInitialized(ContextPath(env))]
      ensures ContextPath(env) in naming && !naming[ContextPath(env)].Context? ==>
                outcome == Abrupt(ClassCastException) && context == old(context) && log == old(log)
    {
      var contextString := ContextPath(env);
      if contextString !in naming {
        log := log + [ContextUnavailable];
        return Normal;
      }
      match naming[contextString]
      case Context(bindings) =>
        context := Some(bindings);
        log := log + [ContextInitialized(contextString)];
        outcome := Normal;
      case _ =>
        outcome := Abrupt(ClassCastException);
    }
  }

  /** Without a context every read answers null, the default-valued one included. */
  lemma UnsetContextReadsNull(src: JndiConfigurationSource, key: string, valueClass: JavaClass, defaultValue: Obj)
    requires src.context.None?
    ensures src.IsEmpty()
    ensures src.GetProperty(key) == None
    ensures src.GetTypedProperty(key, valueClass) == None
    ensures src.GetPropertyOrDefault(key, defaultValue) == None
  {
  }

  /**
   * With a context set, the default-valued read is the typed read for the
   * default's class, except that the default replaces an unbound key and a
   * conversion that throws.
   */
  lemma DefaultReadIsTypedReadWithFallback(src: JndiConfigurationSource, key: string, defaultValue: Obj)
    requires src.context.Some?
    ensures var cls := ClassOf(defaultValue);
            var falls := key !in src.context.value ||
                         (src.HoldsString(key) && cls != StringArrayClass &&
                          src.converter(cls, src.BoundString(key)).ConversionFailed?);
            src.GetPropertyOrDefault(key, defaultValue) ==
              if falls then Some(defaultValue) else src.GetTypedProperty(key, cls)
  {
  }

  /**
   * Every key the raw read answers is contained; a contained key the raw read
   * does not answer is one bound to something other than a string.
   */
  lemma ContainedKeys(src: JndiConfigurationSource, key: string)
    requires src.context.Some?
    ensures src.GetProperty(key).Some? ==> src.ContainsKey(key)
    ensures src.ContainsKey(key) && src.GetProperty(key).None? <==>
              key in src.context.value && !src.context.value[key].Str?
  {
  }

  /** Asking for a `String[]` never falls back: a bound string always yields its tokens. */
  lemma StringArrayReadNeverFails(src: JndiConfigurationSource, key: string, defaultValue: Obj)
    requires src.HoldsString(key) && defaultValue.StrArray?
    ensures var tokens := Some(StrArray(StringUtils.Split(src.BoundString(key))));
            src.GetTypedProperty(key, StringArrayClass) == tokens &&
            src.GetPropertyOrDefault(key, defaultValue) == tokens
  {
  }

  /** The legacy rule on a bound "a,b, c": the typed `String[]` read gives a, b and c. */
  lemma HostsExample(src: JndiConfigurationSource)
    requires src.context == Some(map["hosts" := Str("a,b, c")])
    ensures src.GetTypedProperty("hosts", StringArrayClass) == Some(StrArray(["a", "b", "c"]))
  {
    StringUtils.SplitHostsExample('a', 'b', 'c');
  }
}
