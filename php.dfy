/**
 * The PHP-level vocabulary shared by both views: the values that cross the
 * views' API, callables, the exceptions the views throw or let through, and
 * a result type that stands for "returns normally or throws".
 */
module Php {

  datatype Option<+T> = None | Some(value: T)

  /** The exception classes the views throw, plus whatever foreign code throws. */
  datatype Error =
    | InvalidArgument(message: string)   // \InvalidArgumentException
    | BadMethodCall(message: string)     // \BadMethodCallException
    | RuntimeError(message: string)      // \RuntimeException
    | TemplateNotFound(name: string)     // the template engine's loader error
    | Raised(message: string)            // anything thrown by a plugin, a template or a script

  /** A call that either returns a value or throws. */
  datatype Result<+T> = Ok(value: T) | Err(error: Error)

  /**
   * A PHP value as far as the views look at it: only the type (and the class
   * of an object) is ever inspected, so arrays and objects carry no contents.
   */
  datatype Value =
    | Str(s: string)
    | Int(i: int)
    | Float(f: real)
    | Bool(b: bool)
    | Null
    | Array(size: nat)
    | Object(className: string)

  /** A template context: variable name to value. */
  type Context = map<string, Value>

  /** `gettype($v)` */
  function TypeName(v: Value): (t: string)
    ensures t == "object" <==> v.Object?
  {
    match v
    case Str(_) => "string"
    case Int(_) => "integer"
    case Float(_) => "double"
    case Bool(_) => "boolean"
    case Null => "NULL"
    case Array(_) => "array"
    case Object(_) => "object"
  }

  /** `(is_object($v) ? get_class($v) . ' ' : '') . gettype($v)`, used in error messages */
  function Describe(v: Value): (d: string)
    ensures var t := TypeName(v); |t| <= |d| && d[|d| - |t|..] == t
    ensures v.Object? ==> v.className + " " <= d
  {
    if v.Object? then v.className + " " + TypeName(v) else TypeName(v)
  }

  /** The `$function` argument of `expose`: absent (null), a function name, or any other callable. */
  datatype Callable = NoCallable | FunctionName(name: string) | Closure(id: nat)

  /** PHP truthiness of a callable argument, as used by `$function ?: $name`. */
  predicate Truthy(f: Callable)
  {
    match f
    case NoCallable => false
    case FunctionName(n) => n != "" && n != "0"
    case Closure(_) => true
  }
}
