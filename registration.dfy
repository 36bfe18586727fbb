/**
 * The registry-facing `'data'`/`'error'`/`'timeout'` handlers: what the
 * callback receives and whether the client connection is ended, for the
 * provider's own registration and for `checkProvider`.
 */
module Registration {
  import opened Wrappers
  import opened Bytes
  import opened Services
  import Dispatch

  /** One event on an outbound connection. */
  datatype ConnEvent = ConnError(message: string) | ConnTimeout | ConnData(buf: seq<byte>)

  /** The error handed to `cb` (`None` for `cb(null)`) and whether `client.end()` runs. */
  datatype Callback = Callback(err: Option<string>, endsConnection: bool)

  const TimeoutError: string := "TIMEOUT"
  const UnknownError: string := "UNKNOW_ERROR"

  /**
   * `_registerProvider`'s handlers. Registration succeeds only on the
   * reply `[0]`; every other reply is `UNKNOW_ERROR`. A timeout or a reply
   * ends the connection, an error does not.
   */
  function RegisterHandler(e: ConnEvent): (c: Callback)
    ensures c.err.None? <==> e.ConnData? && e.buf == [0]
    ensures e.ConnData? && e.buf != [0] ==> c.err == Some(UnknownError)
    ensures e.ConnError? ==> c.err == Some(e.message)
    ensures e.ConnTimeout? ==> c.err == Some(TimeoutError)
    ensures c.endsConnection <==> !e.ConnError?
  {
    match e
    case ConnError(message) => Callback(Some(message), false)
    case ConnTimeout => Callback(Some(TimeoutError), true)
    case ConnData(buf) =>
      Callback(if IsZeroByte(buf) then None else Some(UnknownError), true)
  }

  /**
   * `checkProvider`'s handlers: the probe succeeds only on the reply `[0]`,
   * and only then is the connection ended.
   */
  function CheckHandler(e: ConnEvent): (c: Callback)
    ensures c.err.None? <==> e.ConnData? && e.buf == [0]
    ensures e.ConnData? && e.buf != [0] ==> c.err == Some(UnknownError)
    ensures e.ConnError? ==> c.err == Some(e.message)
    ensures e.ConnTimeout? ==> c.err == Some(TimeoutError)
    ensures c.endsConnection <==> c.err.None?
  {
    match e
    case ConnError(message) => Callback(Some(message), false)
    case ConnTimeout => Callback(Some(TimeoutError), false)
    case ConnData(buf) =>
      if IsZeroByte(buf) then Callback(None, true) else Callback(Some(UnknownError), false)
  }

  /**
   * The provider's answer to the probe `checkProvider` sends (`[0]`) is
   * one that `checkProvider` accepts, whatever services it serves.
   */
  lemma ProbeAnswerAccepted(parse: Dispatch.Parser, formatData: Dispatch.Formatter,
                            classes: map<string, ServiceClass>)
    ensures var r := Dispatch.Handle([0], parse, formatData, classes);
      && r.Write?
      && CheckHandler(ConnData(r.bytes)) == Callback(None, true)
  {
  }
}
