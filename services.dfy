/**
 * The values that cross the provider's boundary and the service classes
 * it dispatches to. Service methods are opaque: each maps its argument
 * list to an outcome tag.
 */
module Services {

  /** A JavaScript value as far as the dispatcher handles it. */
  datatype Value =
    | Undefined
    | Null
    | Bool(b: bool)
    | Num(n: int)
    | Str(s: string)
    | List(items: seq<Value>)
    | Object(fields: map<string, Value>)

  /**
   * What calling a service method yields: a value returned at once, an
   * exception thrown synchronously (its `message` and `stack`), or a
   * then-able whose settlement comes later.
   */
  datatype CallOutcome =
    | Returns(value: Value)
    | Throws(message: string, stack: string)
    | Pending

  /** A service method, applied to the instance with an argument list. */
  type MethodBody = seq<Value> -> CallOutcome

  /** A service class handed to the provider: its `name` and its methods. */
  class ServiceClass {
    const name: string
    const methods: map<string, MethodBody>

    constructor (name: string, methods: map<string, MethodBody>)
      ensures this.name == name && this.methods == methods
    {
      this.name := name;
      this.methods := methods;
    }
  }

  /**
   * An instance built by `new ServiceClass({logger})`. Its methods are
   * those of its class; the instance's identity is what memoisation keeps.
   */
  class ServiceInstance {
    const cls: ServiceClass

    constructor (cls: ServiceClass)
      ensures this.cls == cls
    {
      this.cls := cls;
    }
  }
}
