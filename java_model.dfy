/**
 * The few Java notions the configuration sources are written in terms of:
 * nullable references, the objects a naming context can hold, the classes a
 * caller can ask a value to be converted to, and how a call can end.
 */
module JavaModel {

  /** Some(v) is a non-null reference to v; None is Java's null. */
  datatype Option<+T> = None | Some(value: T)

  /** A Java object as far as these sources can tell objects apart. */
  datatype Obj =
    | Str(s: string)                            // a java.lang.String
    | StrArray(items: seq<string>)              // a String[]
    | Context(bindings: map<string, Obj>)       // a javax.naming.Context and what is bound in it
    | Instance(className: string, id: nat)      // any other object, known by the name of its class

  // A string or a string array is always written `Str` or `StrArray`, never as
  // an `Instance` named "java.lang.String" or "[Ljava.lang.String;", and a
  // `Context` stands for an object of some class implementing
  // javax.naming.Context; `ClassOf` reports that interface in its place, which
  // no read depends on beyond its being neither String nor String[].

  /** A possibly-null reference, the type of every value a getProperty returns. */
  type Nullable = Option<Obj>

  /** The `Class<T>` a caller asks a configuration value to be converted to. */
  datatype JavaClass = StringClass | StringArrayClass | NamedClass(name: string)

  /** `o.getClass()`. */
  function ClassOf(o: Obj): (c: JavaClass)
    ensures o.Str? <==> c == StringClass
    ensures o.StrArray? <==> c == StringArrayClass
  {
    match o
    case Str(_) => StringClass
    case StrArray(_) => StringArrayClass
    case Context(_) => NamedClass("javax.naming.Context")
    case Instance(name, _) => NamedClass(name)
  }

  /**
   * What the generic string-to-type converter does with one request: it
   * returns a (possibly null) object, or it throws.
   */
  datatype Conversion = Converted(result: Nullable) | ConversionFailed

  /** The generic converter, `ConverterManager.convert(targetClass, value)`; nothing is known of it. */
  type Converter = (JavaClass, string) -> Conversion

  /** The exceptions that can escape an `initialize()`. */
  datatype JavaException = ClassCastException | InitializationException

  /** How a `void` method ends: normally, or by throwing. */
  datatype Completion = Normal | Abrupt(exception: JavaException)
}
