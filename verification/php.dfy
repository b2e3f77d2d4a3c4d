/** The few PHP values the configuration arrays of the clients hold, and PHP's
    notion of truthiness that the code's `if ($x = ...)` tests use. */
module Php {

  /** A configuration value. `Callable(id)` stands for a closure or other
      callable object; `id` tells different callables apart. */
  datatype Value = Null | Bool(b: bool) | Int(i: int) | Str(s: string) | Callable(id: nat)

  /** PHP's conversion to bool: null, false, 0, "" and "0" are falsy. */
  predicate Truthy(v: Value) {
    match v
    case Null => false
    case Bool(b) => b
    case Int(i) => i != 0
    case Str(s) => s != "" && s != "0"
    case Callable(_) => true
  }

  /** `is_callable($v)` for the values modelled here. */
  predicate IsCallable(v: Value) {
    v.Callable?
  }
}
