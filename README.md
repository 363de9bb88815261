# JNDI overrides for XWiki configuration, in Dafny

This project models the two configuration sources of the XWiki JNDI
configuration extension.

- `JNDIConfigurationSource` answers configuration reads from the strings bound
  in one naming (JNDI) context.
  - The context is looked up once, at initialisation. Its path comes from the
    environment variable `xwikiJNDIConfigContext`, or is
    `java:comp/env/xwiki/config` when that variable is unset.
  - If the path does not resolve, the source keeps the context it had (none
    before the first initialisation). Without a context it answers every read
    with null.
  - It has three reads. The raw read returns the trimmed string. The typed
    read converts the string to a requested class. The default-valued read
    converts to the default's class and falls back to the default.
  - A `String[]` request uses the legacy split on runs of spaces and commas.
    Every other class goes to a generic converter.
- `XWikiCfgJNDIConfigurationSource` wraps the xwiki.cfg source.
  - Every read asks the JNDI source first. A non-null answer wins and is
    logged.
  - A null answer sends the call, arguments intact, to the wrapped source.
  - `containsKey` is JNDI's answer or, failing that, the wrapped source's.

Files:

- `java_model.dfy` (module `JavaModel`): Java objects, null, classes, the
  converter's outcome and how an `initialize()` ends.
- `string_utils.dfy` (module `StringUtils`): `StringUtils.trim`, which is
  `String.trim()`, and `StringUtils.split(value, " ,")`.
- `jndi_configuration_source.dfy` (module `JndiConfiguration`): the JNDI
  source as a class.
  - The naming context is the field `context`, a map of bindings or None for
    null.
  - The reads are functions of that field. `Initialize` is the method that
    sets it.
- `xwiki_cfg_jndi_configuration_source.dfy` (module `XWikiCfgJndi`): the
  override source as a class.
  - The wrapped xwiki.cfg source is four functions, one per read.
  - The ghost `log` records what is logged. The ghost `baseCalls` records which
    reads of the wrapped source were consulted.
  - Each read method is tied to a specification function (`Resolved`,
    `ResolvedTyped`, `ResolvedOrDefault`, `Contains`), and the lemmas are
    stated over those functions.
  - Two client methods, `TimeoutFromBase` and `TimeoutFromJndi`, build both
    sources and read "timeout" with an integer default. With no JNDI binding
    the base's value comes back. With a JNDI binding the bound string comes
    back, one override entry is logged and the base is not consulted.

Behaviour as written, which the model follows:

- The JNDI default-valued read answers null, not the default, when no context
  is set. It also answers null when the key is bound to something other than a
  string. The default replaces only an unbound key and a conversion that
  throws.
- The typed and default-valued JNDI reads convert the bound string as it is.
  Only the raw read trims it.
- A converter that returns null gives null, not the default. Only a converter
  that throws gives the default.
- The override source's default-valued read asks the JNDI raw read. When JNDI
  binds a string, the answer is that trimmed string, unconverted, whatever the
  class of the caller's default. So `getProperty("timeout", 10)` with JNDI
  binding "45" returns the string "45".
- `containsKey` on the JNDI source dereferences the context without a null
  check. The override source's `containsKey` calls it first. Both therefore
  throw without a context, and both are modelled with the precondition that a
  context is set.
- `initialize` catches only `NamingException`. A path bound to an object that
  is not a naming context makes the cast throw `ClassCastException`. That
  exception escapes, and the context is left as it was.
- Trimming removes every leading and trailing character at or below U+0020,
  not only spaces. A binding that is all blanks overrides the base with the
  empty string.

The legacy split is specified completely by four facts:

- the empty string has no tokens (`Split`);
- every token is non-empty and holds no separator (`Split`);
- a lone token splits into itself (`SplitToken`);
- splitting distributes over any separator (`SplitAtSeparator`).

Two further lemmas follow. Separator runs collapse
(`SeparatorRunsCollapse`). Putting the tokens back together gives the input's
non-separator characters in order (`SplitKeepsEveryOtherCharacter`).

## Model

| member | source | states |
|---|---|---|
| `JavaModel.ClassOf` | src/main/java/org/xwiki/contrib/configuration/jndi/internal/JNDIConfigurationSource.java:76 | `defaultValue.getClass()` is the String class exactly for a string, and the `String[]` class exactly for a string array |
| `StringUtils.StripLeading` | src/main/java/org/xwiki/contrib/configuration/jndi/internal/JNDIConfigurationSource.java:118 | the result is the suffix of the input left once the leading characters at or below U+0020 are dropped; nothing trimmable is left at its start |
| `StringUtils.StripTrailing` | src/main/java/org/xwiki/contrib/configuration/jndi/internal/JNDIConfigurationSource.java:118 | the result is the prefix left once the trailing trimmable characters are dropped; nothing trimmable is left at its end |
| `StringUtils.Trim` | src/main/java/org/xwiki/contrib/configuration/jndi/internal/JNDIConfigurationSource.java:118 | `StringUtils.trim`: the result is an infix of the input, everything outside it is trimmable, and it neither starts nor ends with a trimmable character |
| `StringUtils.TrimEmptyIffAllTrimmable` | src/main/java/org/xwiki/contrib/configuration/jndi/internal/JNDIConfigurationSource.java:118 | trimming gives the empty string exactly when every character of the input is at or below U+0020 |
| `StringUtils.TrimUnpadded` | src/main/java/org/xwiki/contrib/configuration/jndi/internal/JNDIConfigurationSource.java:118 | a string with no padding on either side trims to itself |
| `StringUtils.TokenLength` | src/main/java/org/xwiki/contrib/configuration/jndi/internal/JNDIConfigurationSource.java:176 | the length of the maximal separator-free prefix: every character before it is not a space or comma, and the character at it is one, or the input ends there |
| `StringUtils.Split` | src/main/java/org/xwiki/contrib/configuration/jndi/internal/JNDIConfigurationSource.java:176 | `StringUtils.split(value, " ,")`: the empty string has no tokens, and every token is non-empty and contains neither a space nor a comma |
| `StringUtils.SplitToken` | src/main/java/org/xwiki/contrib/configuration/jndi/internal/JNDIConfigurationSource.java:176 | a non-empty separator-free string splits into exactly itself |
| `StringUtils.TokenLengthOfConcat` | src/main/java/org/xwiki/contrib/configuration/jndi/internal/JNDIConfigurationSource.java:176 | the first token of `a + b` is that of `a` unless `a` holds no separator, in which case it runs on into `b` |
| `StringUtils.SplitAtSeparator` | src/main/java/org/xwiki/contrib/configuration/jndi/internal/JNDIConfigurationSource.java:176 | splitting `a + [sep] + b` gives the tokens of `a` followed by the tokens of `b`: tokens are maximal runs, in input order |
| `StringUtils.SeparatorRunsCollapse` | src/main/java/org/xwiki/contrib/configuration/jndi/internal/JNDIConfigurationSource.java:176 | two adjacent separators split like one, so no empty token arises between them |
| `StringUtils.WithoutSeparatorsKeepsRun` | src/main/java/org/xwiki/contrib/configuration/jndi/internal/JNDIConfigurationSource.java:176 | removing separators keeps a separator-free prefix whole |
| `StringUtils.LeadingToken` | src/main/java/org/xwiki/contrib/configuration/jndi/internal/JNDIConfigurationSource.java:176 | a token followed by a separator is the first token of the split, and the rest splits on its own |
| `StringUtils.LeadingSeparator` | src/main/java/org/xwiki/contrib/configuration/jndi/internal/JNDIConfigurationSource.java:176 | a leading separator is skipped |
| `StringUtils.SplitKeepsEveryOtherCharacter` | src/main/java/org/xwiki/contrib/configuration/jndi/internal/JNDIConfigurationSource.java:176 | the tokens concatenated are the input's non-separator characters in their original order |
| `StringUtils.SplitExample` | src/main/java/org/xwiki/contrib/configuration/jndi/internal/JNDIConfigurationSource.java:176 | the shape "a, b  c" (a comma and a space, then two spaces) splits into three one-character tokens, for any non-separator characters in place of a, b and c |
| `StringUtils.SplitHostsExample` | src/main/java/org/xwiki/contrib/configuration/jndi/internal/JNDIConfigurationSource.java:176 | the shape "a,b, c" (a comma, then a comma and a space) splits into three one-character tokens, for any non-separator characters in place of a, b and c |
| `JndiConfiguration.JndiConfigurationSource.constructor` | src/main/java/org/xwiki/contrib/configuration/jndi/internal/JNDIConfigurationSource.java:55-61 | a new source has the injected converter, no context (null) and an empty log |
| `JndiConfiguration.JndiConfigurationSource.Convert` | src/main/java/org/xwiki/contrib/configuration/jndi/internal/JNDIConfigurationSource.java:171-183 | a `String[]` target gives the split tokens and cannot fail; any other target gives the converter's result, or the fallback exactly when the converter throws |
| `JndiConfiguration.JndiConfigurationSource.GetPropertyOrDefault` | src/main/java/org/xwiki/contrib/configuration/jndi/internal/JNDIConfigurationSource.java:63-82 | null without a context and for a non-string binding; the default for an unbound key and for a conversion that throws; otherwise the untrimmed string converted to the default's class |
| `JndiConfiguration.JndiConfigurationSource.GetTypedProperty` | src/main/java/org/xwiki/contrib/configuration/jndi/internal/JNDIConfigurationSource.java:84-103 | null unless a string is bound; a `String[]` request gives the split tokens; any other class gives the converter's result, or null when it throws; never a default |
| `JndiConfiguration.JndiConfigurationSource.GetProperty` | src/main/java/org/xwiki/contrib/configuration/jndi/internal/JNDIConfigurationSource.java:105-124 | non-null exactly when a context is set and binds the key to a string, and then it is that string trimmed |
| `JndiConfiguration.JndiConfigurationSource.GetKeys` | src/main/java/org/xwiki/contrib/configuration/jndi/internal/JNDIConfigurationSource.java:126-130 | the key list is always empty |
| `JndiConfiguration.JndiConfigurationSource.ContainsKey` | src/main/java/org/xwiki/contrib/configuration/jndi/internal/JNDIConfigurationSource.java:132-141 | with a context set, true exactly when the key is bound, whatever the bound object's type |
| `JndiConfiguration.JndiConfigurationSource.IsEmpty` | src/main/java/org/xwiki/contrib/configuration/jndi/internal/JNDIConfigurationSource.java:143-151 | true exactly when no context is set |
| `JndiConfiguration.JndiConfigurationSource.Initialize` | src/main/java/org/xwiki/contrib/configuration/jndi/internal/JNDIConfigurationSource.java:153-169 | looks up the environment's path or the default path; a context there is stored and logged with its path; an unbound path logs a warning, leaves the context as it was and completes normally; a non-context object throws `ClassCastException` and changes nothing |
| `JndiConfiguration.UnsetContextReadsNull` | src/main/java/org/xwiki/contrib/configuration/jndi/internal/JNDIConfigurationSource.java:63-124 | without a context the source is empty and all three reads answer null, the default-valued one included |
| `JndiConfiguration.DefaultReadIsTypedReadWithFallback` | src/main/java/org/xwiki/contrib/configuration/jndi/internal/JNDIConfigurationSource.java:63-103 | with a context set, the default-valued read is the typed read for the default's class, except that the default replaces an unbound key or a conversion that throws |
| `JndiConfiguration.ContainedKeys` | src/main/java/org/xwiki/contrib/configuration/jndi/internal/JNDIConfigurationSource.java:105-141 | every key the raw read answers is contained, and a contained key the raw read does not answer is bound to a non-string |
| `JndiConfiguration.StringArrayReadNeverFails` | src/main/java/org/xwiki/contrib/configuration/jndi/internal/JNDIConfigurationSource.java:171-183 | for a bound string, the typed `String[]` read and the default-valued read with a `String[]` default both give the split tokens, never null or the default |
| `JndiConfiguration.HostsExample` | src/main/java/org/xwiki/contrib/configuration/jndi/internal/JNDIConfigurationSource.java:174-176 | a binding "a,b, c" read as `String[]` gives "a", "b", "c" |
| `XWikiCfgJndi.XWikiCfgJndiConfigurationSource.constructor` | src/main/java/org/xwiki/contrib/configuration/jndi/internal/XWikiCfgJNDIConfigurationSource.java:47-52 | the source holds the injected JNDI source and the wrapped source's reads, with nothing logged and nothing consulted |
| `XWikiCfgJndi.XWikiCfgJndiConfigurationSource.LogOverride` | src/main/java/org/xwiki/contrib/configuration/jndi/internal/XWikiCfgJNDIConfigurationSource.java:114-116 | appends exactly one entry carrying the key and the overriding value |
| `XWikiCfgJndi.XWikiCfgJndiConfigurationSource.GetPropertyOrDefault` | src/main/java/org/xwiki/contrib/configuration/jndi/internal/XWikiCfgJNDIConfigurationSource.java:55-69 | a non-null JNDI raw read is returned with one log entry and no base call; otherwise the base's default-valued read with the caller's default is returned, with no log entry |
| `XWikiCfgJndi.XWikiCfgJndiConfigurationSource.GetTypedProperty` | src/main/java/org/xwiki/contrib/configuration/jndi/internal/XWikiCfgJNDIConfigurationSource.java:71-81 | a non-null JNDI typed read is returned with one log entry and no base call; otherwise the base's typed read is returned, with no log entry |
| `XWikiCfgJndi.XWikiCfgJndiConfigurationSource.GetProperty` | src/main/java/org/xwiki/contrib/configuration/jndi/internal/XWikiCfgJNDIConfigurationSource.java:83-93 | a non-null JNDI raw read is returned with one log entry and no base call; otherwise the base's raw read is returned, with no log entry |
| `XWikiCfgJndi.XWikiCfgJndiConfigurationSource.Initialize` | src/main/java/org/xwiki/contrib/configuration/jndi/internal/XWikiCfgJNDIConfigurationSource.java:95-100 | the base initialises first and its outcome is propagated; the installation entry is logged exactly when the base succeeded |
| `XWikiCfgJndi.XWikiCfgJndiConfigurationSource.ContainsKey` | src/main/java/org/xwiki/contrib/configuration/jndi/internal/XWikiCfgJNDIConfigurationSource.java:102-112 | JNDI's answer or the base's; the base is asked only when JNDI says no, and nothing is logged |
| `XWikiCfgJndi.BoundStringOverrides` | src/main/java/org/xwiki/contrib/configuration/jndi/internal/XWikiCfgJNDIConfigurationSource.java:55-93 | a string bound in JNDI is the trimmed, unconverted answer of the raw and default-valued reads, whatever the base holds and whatever the default's class |
| `XWikiCfgJndi.MissingOverrideDelegates` | src/main/java/org/xwiki/contrib/configuration/jndi/internal/XWikiCfgJNDIConfigurationSource.java:55-93 | when JNDI holds no string for the key, all three reads answer exactly what the base answers for the same arguments |
| `XWikiCfgJndi.TypedConversionFailureFallsBack` | src/main/java/org/xwiki/contrib/configuration/jndi/internal/XWikiCfgJNDIConfigurationSource.java:71-81 | a bound string the converter rejects or turns into null does not override the typed read; the base's typed read answers |
| `XWikiCfgJndi.DefaultReachesBase` | src/main/java/org/xwiki/contrib/configuration/jndi/internal/XWikiCfgJNDIConfigurationSource.java:55-69 | for an unbound key, JNDI's default-valued read would answer the caller's default, but the override source answers the base's read with that default |
| `XWikiCfgJndi.BlankOverride` | src/main/java/org/xwiki/contrib/configuration/jndi/internal/XWikiCfgJNDIConfigurationSource.java:83-93 | a bound string made only of blanks still overrides, with the empty string |
| `XWikiCfgJndi.ContainsIsDisjunction` | src/main/java/org/xwiki/contrib/configuration/jndi/internal/XWikiCfgJNDIConfigurationSource.java:102-112 | `containsKey` holds exactly when JNDI binds the key or the base contains it |

## Left out

- The naming service is a flat map from path to bound object. Composite names,
  federation, and a lookup of the empty name returning the context itself are
  not modelled.
- A `NamingException` thrown by `new InitialContext()` has the same effect as
  an unbound path, and is modelled as one.
- A name bound to null cannot be expressed, since every bound object is
  non-null. In the source a context path bound to null passes the cast, stores
  a null context and still logs the info entry. A key bound to null makes
  `containsKey` true while every read answers null.
- `System.getenv` is the `env` parameter of `Initialize`, a map from variable
  name to value.
- The generic converter for classes other than `String[]` is an arbitrary
  function. It returns an object, returns null, or throws. Nothing is claimed
  about what it produces.
- `JndiConfiguration.JndiConfigurationSource.GetPropertyOrDefault`: the default
  is a non-null object. A null default makes `defaultValue.getClass()` throw
  `NullPointerException` when a string is bound, and that case is not modelled.
- `JndiConfiguration.JndiConfigurationSource.ContainsKey`: the
  `NullPointerException` thrown without a context is a precondition, not a
  modelled exception. The override source's `ContainsKey` inherits it.
- The wrapped xwiki.cfg source is known only through what its four reads
  answer. Its file parsing, its `getKeys` and `isEmpty`, and the state its own
  `initialize` sets up are not part of this model. The override source does not
  override `getKeys` or `isEmpty`.
- Java generics and unchecked casts are erased. The `ClassCastException` a
  caller may hit when it uses the string returned for, say, an integer default
  happens outside these sources.
- Logging is a ghost sequence of entries. Message texts, log levels and slf4j
  are not modelled.
- Dependency injection, the singleton lifecycle and any concurrency between
  `initialize` and the first read belong to the host and are not modelled.
