/**
 * The provider's `'data'` handler with the socket taken away: one
 * received buffer in, one response out. `parseInvoker` and `formatData`
 * come from modules that are not part of this model, so they are
 * parameters; the service table is the one the constructor built.
 */
module Dispatch {
  import opened Wrappers
  import opened Bytes
  import opened Services
  import TargetName

  /** A decoded request: correlation id, target name, optional arguments. */
  datatype Invoker = Invoker(serviceId: int, serviceName: string, args: Option<seq<Value>>)

  /** `parseInvoker`; `None` stands for a buffer it throws on. */
  type Parser = seq<byte> -> Option<Invoker>

  /** `formatData`: the encoding of a result value. */
  type Formatter = Value -> seq<byte>

  const ServiceNotExists: string := "SERVICE_NOT_EXISTS"
  const MethodNotExists: string := "METHOD_NOT_EXISTS"
  const InvokeMethodError: string := "INVOKE_METHOD_ERROR"

  /** The fields a caller reads back from an error record. */
  datatype Fault = Fault(code: string, message: string, stack: Option<string>)

  /**
   * `{__typeof: 'ERROR', success: false, code, message[, stack]}`; the
   * caller reads the same code, message and stack back out of it.
   */
  function ErrorRecord(code: string, message: string, stack: Option<string>): (v: Value)
    ensures FaultOf(v) == Some(Fault(code, message, stack))
  {
    var base := map["__typeof" := Str("ERROR"), "success" := Bool(false),
                    "code" := Str(code), "message" := Str(message)];
    Object(if stack.Some? then base["stack" := Str(stack.value)] else base)
  }

  /** The fault an error record carries, or `None` for any other value. */
  function FaultOf(v: Value): Option<Fault>
  {
    if && v.Object?
       && "__typeof" in v.fields && v.fields["__typeof"] == Str("ERROR")
       && "success" in v.fields && v.fields["success"] == Bool(false)
       && "code" in v.fields && v.fields["code"].Str?
       && "message" in v.fields && v.fields["message"].Str?
    then
      var stack := if "stack" in v.fields && v.fields["stack"].Str?
                   then Some(v.fields["stack"].s) else None;
      Some(Fault(v.fields["code"].s, v.fields["message"].s, stack))
    else None
  }

  /**
   * The arguments a method is called with: a non-empty `args` through
   * `apply`, otherwise `call` with none. An empty list and a missing one
   * are the same zero-argument call.
   */
  function CallArgs(args: Option<seq<Value>>): (a: seq<Value>)
    ensures args.Some? && |args.value| > 0 ==> a == args.value
    ensures args.None? || args.value == [] ==> a == []
    ensures a == if args.Some? then args.value else []
  {
    if args.Some? && |args.value| > 0 then args.value else []
  }

  /** What the handler holds after dispatch: a value to write, or a then-able. */
  datatype Outcome = Ready(result: Value) | Thenable

  /**
   * Dispatch on the target's service (its methods, or `None` when the
   * lookup gave nothing) and method, and classify the call's outcome.
   */
  function Classify(inv: Invoker, methods: Option<map<string, MethodBody>>): Outcome
  {
    if methods.None? then Ready(ErrorRecord(ServiceNotExists, inv.serviceName, None))
    else
      var methodName := TargetName.MethodName(inv.serviceName);
      if methodName !in methods.value then Ready(ErrorRecord(MethodNotExists, inv.serviceName, None))
      else
        match methods.value[methodName](CallArgs(inv.args))
        case Returns(v) => Ready(v)
        case Throws(message, stack) => Ready(ErrorRecord(InvokeMethodError, message, Some(stack)))
        case Pending => Thenable
  }

  /** An exception that leaves the `'data'` handler uncaught. */
  datatype HandlerError =
    | MalformedRequest               // parseInvoker threw
    | ServiceIdOutOfRange            // writeUInt32LE threw a RangeError
    | NotAConstructor(className: string)  // `new undefined` in _getService

  /**
   * The handler's effect on the socket: bytes written now, bytes written
   * once the then-able resolves (the prefix they start with), or an
   * exception and no write.
   */
  datatype Response =
    | Write(bytes: seq<byte>)
    | WriteOnResolve(prefix: seq<byte>)
    | Raise(error: HandlerError)

  function Respond(prefix: seq<byte>, o: Outcome, formatData: Formatter): Response
  {
    match o
    case Ready(v) => Write(prefix + formatData(v))
    case Thenable => WriteOnResolve(prefix)
  }

  /** The `'data'` handler as written. */
  function Handle(buf: seq<byte>, parse: Parser, formatData: Formatter,
                  classes: map<string, ServiceClass>): Response
  {
    if IsZeroByte(buf) then Write([0])
    else
      match parse(buf)
      case None => Raise(MalformedRequest)
      case Some(inv) =>
        if !(0 <= inv.serviceId < UInt32Limit) then Raise(ServiceIdOutOfRange)
        else
          var className := TargetName.ClassName(inv.serviceName);
          if className !in classes then Raise(NotAConstructor(className))
          else Respond(LE4(inv.serviceId), Classify(inv, Some(classes[className].methods)), formatData)
  }

  /**
   * The handler as evidently intended: an unknown class reaches the
   * `SERVICE_NOT_EXISTS` branch instead of throwing.
   */
  function HandleChecked(buf: seq<byte>, parse: Parser, formatData: Formatter,
                         classes: map<string, ServiceClass>): Response
  {
    if IsZeroByte(buf) then Write([0])
    else
      match parse(buf)
      case None => Raise(MalformedRequest)
      case Some(inv) =>
        if !(0 <= inv.serviceId < UInt32Limit) then Raise(ServiceIdOutOfRange)
        else
          var className := TargetName.ClassName(inv.serviceName);
          var methods := if className in classes then Some(classes[className].methods) else None;
          Respond(LE4(inv.serviceId), Classify(inv, methods), formatData)
  }

  /** How a then-able settles. */
  datatype Settlement = Resolved(value: Value) | Rejected(reason: Value)

  /**
   * The write a deferred response makes when its then-able settles: the
   * resolved value after the id prefix, and nothing on rejection.
   */
  function OnSettle(r: Response, s: Settlement, formatData: Formatter): (w: Option<seq<byte>>)
    requires r.WriteOnResolve?
    ensures w.Some? <==> s.Resolved?
    ensures s.Resolved? ==> |w.value| >= |r.prefix| && w.value[..|r.prefix|] == r.prefix
  {
    match s
    case Resolved(v) => Some(r.prefix + formatData(v))
    case Rejected(_) => None
  }

  // ---------------------------------------------------------------------
  // Properties of the handler

  /** A one-byte zero buffer is answered `[0]` without consulting `parseInvoker`. */
  lemma PingAnswered(buf: seq<byte>, parse: Parser, other: Parser, formatData: Formatter,
                     classes: map<string, ServiceClass>)
    requires IsZeroByte(buf)
    ensures Handle(buf, parse, formatData, classes) == Write([0])
    ensures Handle(buf, parse, formatData, classes) == Handle(buf, other, formatData, classes)
  {
  }

  /**
   * Every write the handler makes for a request, now or on resolution,
   * starts with four bytes that decode to the request's `serviceId`.
   */
  lemma ReplyEchoesServiceId(buf: seq<byte>, parse: Parser, formatData: Formatter,
                             classes: map<string, ServiceClass>, s: Settlement)
    requires !IsZeroByte(buf) && parse(buf).Some?
    ensures var r := Handle(buf, parse, formatData, classes);
      && (r.Write? ==> |r.bytes| >= 4 && DecodeLE(r.bytes[..4]) == parse(buf).value.serviceId)
      && (r.WriteOnResolve? && s.Resolved? ==>
            var w := OnSettle(r, s, formatData).value;
            |w| >= 4 && DecodeLE(w[..4]) == parse(buf).value.serviceId)
  {
  }

  /** A method that returns `v` at once is answered `LE4(serviceId) ++ formatData(v)`. */
  lemma ImmediateReply(buf: seq<byte>, parse: Parser, formatData: Formatter,
                       classes: map<string, ServiceClass>, v: Value)
    requires !IsZeroByte(buf) && parse(buf).Some?
    requires var inv := parse(buf).value;
      var c := TargetName.ClassName(inv.serviceName);
      var m := TargetName.MethodName(inv.serviceName);
      && 0 <= inv.serviceId < UInt32Limit
      && c in classes && m in classes[c].methods
      && classes[c].methods[m](CallArgs(inv.args)) == Returns(v)
    ensures Handle(buf, parse, formatData, classes)
         == Write(LE4(parse(buf).value.serviceId) + formatData(v))
  {
  }

  /**
   * A known service without the named method is answered with a
   * `METHOD_NOT_EXISTS` record whose message is the full target name.
   */
  lemma MissingMethodReply(buf: seq<byte>, parse: Parser, formatData: Formatter,
                           classes: map<string, ServiceClass>)
    requires !IsZeroByte(buf) && parse(buf).Some?
    requires var inv := parse(buf).value;
      var c := TargetName.ClassName(inv.serviceName);
      && 0 <= inv.serviceId < UInt32Limit
      && c in classes && TargetName.MethodName(inv.serviceName) !in classes[c].methods
    ensures var inv := parse(buf).value;
      var record := ErrorRecord(MethodNotExists, inv.serviceName, None);
      && Handle(buf, parse, formatData, classes) == Write(LE4(inv.serviceId) + formatData(record))
      && FaultOf(record) == Some(Fault(MethodNotExists, inv.serviceName, None))
  {
  }

  /**
   * A method that throws is answered with an `INVOKE_METHOD_ERROR`
   * record carrying the thrown message and stack.
   */
  lemma ThrowingMethodReply(buf: seq<byte>, parse: Parser, formatData: Formatter,
                            classes: map<string, ServiceClass>, message: string, stack: string)
    requires !IsZeroByte(buf) && parse(buf).Some?
    requires var inv := parse(buf).value;
      var c := TargetName.ClassName(inv.serviceName);
      var m := TargetName.MethodName(inv.serviceName);
      && 0 <= inv.serviceId < UInt32Limit
      && c in classes && m in classes[c].methods
      && classes[c].methods[m](CallArgs(inv.args)) == Throws(message, stack)
    ensures var inv := parse(buf).value;
      var record := ErrorRecord(InvokeMethodError, message, Some(stack));
      && Handle(buf, parse, formatData, classes) == Write(LE4(inv.serviceId) + formatData(record))
      && FaultOf(record) == Some(Fault(InvokeMethodError, message, Some(stack)))
  {
  }

  /**
   * A method that returns a then-able gets no write now; once it
   * resolves to `v` the write is `LE4(serviceId) ++ formatData(v)`, and a
   * rejection never writes.
   */
  lemma PendingReply(buf: seq<byte>, parse: Parser, formatData: Formatter,
                     classes: map<string, ServiceClass>, v: Value, reason: Value)
    requires !IsZeroByte(buf) && parse(buf).Some?
    requires var inv := parse(buf).value;
      var c := TargetName.ClassName(inv.serviceName);
      var m := TargetName.MethodName(inv.serviceName);
      && 0 <= inv.serviceId < UInt32Limit
      && c in classes && m in classes[c].methods
      && classes[c].methods[m](CallArgs(inv.args)) == Pending
    ensures var r := Handle(buf, parse, formatData, classes);
      && r == WriteOnResolve(LE4(parse(buf).value.serviceId))
      && OnSettle(r, Resolved(v), formatData) == Some(LE4(parse(buf).value.serviceId) + formatData(v))
      && OnSettle(r, Rejected(reason), formatData) == None
  {
  }

  /**
   * As written, a target whose class is not in the table never gets the
   * `SERVICE_NOT_EXISTS` record: the handler throws and writes nothing.
   */
  lemma UnknownClassRaises(buf: seq<byte>, parse: Parser, formatData: Formatter,
                           classes: map<string, ServiceClass>)
    requires !IsZeroByte(buf) && parse(buf).Some?
    requires var inv := parse(buf).value;
      && 0 <= inv.serviceId < UInt32Limit
      && TargetName.ClassName(inv.serviceName) !in classes
    ensures Handle(buf, parse, formatData, classes)
         == Raise(NotAConstructor(TargetName.ClassName(parse(buf).value.serviceName)))
  {
  }

  /**
   * Corrected: an unknown class is answered with a `SERVICE_NOT_EXISTS`
   * record whose message is the full target name.
   */
  lemma UnknownClassReplyChecked(buf: seq<byte>, parse: Parser, formatData: Formatter,
                                 classes: map<string, ServiceClass>)
    requires !IsZeroByte(buf) && parse(buf).Some?
    requires var inv := parse(buf).value;
      && 0 <= inv.serviceId < UInt32Limit
      && TargetName.ClassName(inv.serviceName) !in classes
    ensures var inv := parse(buf).value;
      var record := ErrorRecord(ServiceNotExists, inv.serviceName, None);
      && HandleChecked(buf, parse, formatData, classes) == Write(LE4(inv.serviceId) + formatData(record))
      && FaultOf(record) == Some(Fault(ServiceNotExists, inv.serviceName, None))
  {
  }

  /** The correction changes nothing except where the original throws `NotAConstructor`. */
  lemma CheckedAgreesElsewhere(buf: seq<byte>, parse: Parser, formatData: Formatter,
                               classes: map<string, ServiceClass>)
    requires !Handle(buf, parse, formatData, classes).Raise?
          || !Handle(buf, parse, formatData, classes).error.NotAConstructor?
    ensures HandleChecked(buf, parse, formatData, classes) == Handle(buf, parse, formatData, classes)
  {
  }
}
