/** The PHP values that appear in the extension's configuration section and in
    the arguments of the service definitions it writes. */
module Values {

  /** A PHP value. Arrays are lists: the extension only iterates over them.
      `Stmt` is a Nette\DI\Statement object, `Service` a ServiceDefinition
      object passed as an argument, `Obj` any other object. */
  datatype Value =
    | Null
    | Bool(b: bool)
    | Int(i: int)
    | Float(f: real)
    | Str(s: string)
    | Arr(items: seq<Value>)
    | Stmt(st: Statement)
    | Service(name: string)
    | Obj(cls: string)

  /** Nette\DI\Statement: an entity (a class name or a service reference) and
      the arguments it is called with. */
  datatype Statement = Statement(entity: string, arguments: seq<Value>)

  /** PHP's conversion of a string to bool: only "" and "0" are false. */
  predicate StringTruthy(s: string)
  {
    s != "" && s != "0"
  }

  /** PHP's conversion of a value to bool, as `if ($x)` applies it. */
  predicate Truthy(v: Value)
  {
    match v
    case Null => false
    case Bool(b) => b
    case Int(i) => i != 0
    case Float(f) => f != 0.0
    case Str(s) => StringTruthy(s)
    case Arr(items) => items != []
    case Stmt(_) => true
    case Service(_) => true
    case Obj(_) => true
  }

  predicate IsObject(v: Value)
  {
    v.Stmt? || v.Service? || v.Obj?
  }
}
