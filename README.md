# Provider core of sonorpc, modelled in Dafny

sonorpc's `Provider` is a TCP server that exposes service classes to remote
callers and registers itself with a registry, re-registering on a heartbeat.
This project models the sequential core of `lib/Provider.js` with the sockets
and timers abstracted away:

- **Service keys** (`service_keys.dfy`): the constructor files each service
  class under its name less one trailing `Service`, with a leading ASCII
  capital lower-cased. The fold is kept as a loop (`BuildClassTable`) and
  proved equal to a fold function whose "a later class with the same key
  wins" reading is proved against an independent last-index definition.
- **Target names** (`target_name.dfy`): `indexOf('.')` and two
  `String.slice` calls, including the JavaScript meaning of a negative slice
  bound. So a target without a `.` looks up the class named by all but its
  last character.
- **Request dispatch** (`dispatch.dfy`): the server's `'data'` handler as a
  function from one received buffer to a `Response`. The cases are: the zero
  byte ping; the little-endian 4-byte `serviceId` prefix (`bytes.dfy`);
  service and method lookup; the three error records; immediate values;
  then-ables whose resolution writes and whose rejection writes nothing; and
  the exceptions that escape the handler.
- **Provider state** (`provider.dfy`): a `Provider` class whose methods
  update `services` (the memoised instances) and `hbTimeout` (the heartbeat
  timer) in place. `armedTimers` is the set of heartbeat timers the event
  loop still holds, so `_heartbeat`'s `clearTimeout` is visible.
- **Registry-side checks** (`registration.dfy`): the `'data'`, `'error'`
  and `'timeout'` handlers of `_registerProvider` and `checkProvider`. Only
  the reply `[0]` counts as success.

`parseInvoker` and `formatData` live in `lib/data/parser.js` and
`lib/data/formater.js`, which are not part of this model. They are
parameters: `parse` returns `None` where `parseInvoker` would throw, and
`formatData` is any function from values to bytes. Service methods are
opaque functions from an argument list to `Returns(v)`, `Throws(message,
stack)` or `Pending`.

Behaviour of the code that the model keeps as it is:

- The code reads one `'data'` chunk per request and has no frames. Its
  liveness probe is the single byte `[0]`, answered with `[0]`.
- The `serviceId` is written little-endian.
- Only a resolve handler is attached to a then-able, so a rejection writes
  nothing (`Dispatch.OnSettle`).
- A target without a `.` is split anyway: the class part is the name less
  its last character.
- An unknown class throws, because `_getService` runs `new undefined` (see
  Findings).
- Every registration callback re-arms the 5-second heartbeat, whatever it
  receives, and every heartbeat opens a new registration connection.

## Model

| member | source | states |
|---|---|---|
| `Bytes.LE4` | lib/Provider.js:42-43 | the 4-byte buffer written for a `serviceId` below 2^32 decodes little-endian back to that `serviceId` |
| `Bytes.DecodeEncodeLE` | lib/Provider.js:42-43 | decoding the little-endian encoding of any value that fits the width gives the value back |
| `Bytes.EncodeDecodeLE` | lib/Provider.js:42-43 | every byte sequence is the little-endian encoding of its decoded value |
| `Bytes.LE4Injective` | lib/Provider.js:42-43 | two ids below 2^32 get the same prefix exactly when they are equal |
| `Bytes.ZeroByteIsExactlyZero` | lib/Provider.js:35 | `buf.length == 1 && buf.readUInt8() === 0` holds exactly for the buffer `[0]` |
| `ServiceKeys.StripServiceSuffix` | lib/Provider.js:18 | a name ending in `Service` is the result plus one `Service`; any other name is unchanged |
| `ServiceKeys.LowerLeadingCapital` | lib/Provider.js:19-21 | same length, every character after the first unchanged, a leading ASCII capital becomes its lower-case letter, the first is never an ASCII capital afterwards, and a string not starting with one is unchanged |
| `ServiceKeys.ServiceKeyShape` | lib/Provider.js:18-21 | the key is 7 characters shorter exactly when the name ends in `Service`; all characters but the first are the name's; the first is the lower-case of an ASCII capital and otherwise unchanged |
| `ServiceKeys.SuffixedNameKey` | lib/Provider.js:18-21 | `XService` has the key of `X` with its first letter lowered; only one suffix is removed |
| `ServiceKeys.PlainNameKey` | lib/Provider.js:18-21 | a name without the suffix and without a leading capital is its own key |
| `ServiceKeys.ExampleKeys` | lib/Provider.js:18-21 | `UserService` gives `user`, `ServiceService` gives `service`, `Service` gives the empty key, `order` stays `order` |
| `ServiceKeys.LastWithKey` | lib/Provider.js:17-24 | the last class filed under a key, if any: it has the key and no later class does |
| `ServiceKeys.ClassTableLastWins` | lib/Provider.js:17-24 | a key is in the folded table exactly when some class has it, and it maps to the last such class |
| `ServiceKeys.BuildClassTable` | lib/Provider.js:17-24 | the constructor's fold gives that table: every class's key is in it and every entry is one of the classes |
| `Services.ServiceInstance.constructor` | lib/Provider.js:113-115 | a new instance belongs to the class it was built from |
| `TargetName.IndexOf` | lib/Provider.js:45 | `indexOf('.')` is the first position of `.`, and it is -1 exactly when there is no `.` |
| `TargetName.SplitAtFirstDot` | lib/Provider.js:45-47 | with a `.`, className + "." + methodName rebuilds the target and className holds no `.` |
| `TargetName.SplitWithoutDot` | lib/Provider.js:45-47 | without a `.`, methodName is the whole target and className is the target less its last character |
| `TargetName.UndottedExample` | lib/Provider.js:45-47 | the target `echo` looks up class `ech` and method `echo` |
| `Dispatch.ErrorRecord` | lib/Provider.js:53 | the `{__typeof:'ERROR', success:false, code, message[, stack]}` record reads back as exactly that code, message and stack |
| `Dispatch.CallArgs` | lib/Provider.js:61-63 | non-empty `args` are passed through unchanged; empty or absent `args` give a zero-argument call, so both are the same call |
| `Dispatch.OnSettle` | lib/Provider.js:73-76 | a then-able writes only when it resolves, and the write starts with the id prefix; a rejection writes nothing |
| `Dispatch.PingAnswered` | lib/Provider.js:35-38 | the buffer `[0]` is answered with `[0]`, and the answer does not depend on `parseInvoker` |
| `Dispatch.ReplyEchoesServiceId` | lib/Provider.js:40-79 | every write for a request, immediate or on resolution, starts with 4 bytes that decode to the request's `serviceId` |
| `Dispatch.ImmediateReply` | lib/Provider.js:60-63 | a method that returns `v` is answered with exactly `LE4(serviceId) ++ formatData(v)` |
| `Dispatch.MissingMethodReply` | lib/Provider.js:56-58 | a known service without the method gets a `METHOD_NOT_EXISTS` record with `success = false` whose message is the full target name |
| `Dispatch.ThrowingMethodReply` | lib/Provider.js:60-66 | a method that throws gets an `INVOKE_METHOD_ERROR` record with the thrown message and stack |
| `Dispatch.PendingReply` | lib/Provider.js:73-79 | a then-able result writes nothing at once; resolving to `v` writes `LE4(serviceId) ++ formatData(v)`; a rejection writes nothing |
| `Dispatch.UnknownClassRaises` | lib/Provider.js:109-115 | as written, a target whose class has no key in the table makes the handler throw, and nothing is written |
| `Dispatch.UnknownClassReplyChecked` | lib/Provider.js:51-53 | corrected, an unknown class gets a `SERVICE_NOT_EXISTS` record whose message is the full target name |
| `Dispatch.CheckedAgreesElsewhere` | lib/Provider.js:49-68 | the correction changes the response only where the original throws for an unknown class |
| `Registration.RegisterHandler` | lib/Provider.js:136-150 | registration succeeds only on the reply `[0]`; any other reply is `UNKNOW_ERROR`; errors and timeouts pass their error; every event except an error calls `client.end()` |
| `Registration.CheckHandler` | lib/Provider.js:178-191 | the probe succeeds only on the reply `[0]`, and only then is the connection ended; any other reply is `UNKNOW_ERROR` |
| `Registration.ProbeAnswerAccepted` | lib/Provider.js:184-190 | the provider's answer to the `[0]` probe is accepted by `checkProvider` |
| `Providers.Provider.AtMostOneTimer` | lib/Provider.js:153-162 | at most one heartbeat timer is armed, and one is armed exactly when `hbTimeout` is set |
| `Providers.Provider.constructor` | lib/Provider.js:13-24 | the class table is the fold of the classes; no instance exists and no timer is armed |
| `Providers.Provider.GetService` | lib/Provider.js:109-118 | a memoised key gives the same instance and leaves `services` unchanged; a first use adds exactly one fresh instance of that class; an unknown key throws and changes nothing |
| `Providers.Provider.GetServiceTwice` | lib/Provider.js:109-118 | two lookups of one key give one instance, and at most one entry is added |
| `Providers.Provider.HandleData` | lib/Provider.js:33-80 | the response is the one `Dispatch.Handle` gives; the only state change is the instance a first lookup builds |
| `Providers.Provider.Heartbeat` | lib/Provider.js:153-162 | the previous timer is cancelled and exactly one new timer is armed |
| `Providers.Provider.Start` | lib/Provider.js:94-101 | the listening callback opens one registration connection |
| `Providers.Provider.OnRegistrationEvent` | lib/Provider.js:136-150 | the callback gets what the handler passes and re-arms the heartbeat, leaving exactly one timer armed |
| `Providers.Provider.OnRegistrationEvents` | lib/Provider.js:136-150 | however many times the callback fires, exactly one heartbeat timer is armed afterwards |
| `Providers.Provider.FireHeartbeat` | lib/Provider.js:158-161 | the timer that fires is the one `hbTimeout` names; the field is cleared and then a registration connection opens |

## Findings

| source | as written | input that shows it | evidently intended | confidence | as-written member | corrected member |
|---|---|---|---|---|---|---|
| lib/Provider.js:51-53 | `_getService` runs `new undefined` for a class name with no key in the table. The `TypeError` escapes the handler, because the `try` starts at line 60. The `SERVICE_NOT_EXISTS` branch is unreachable and the caller gets no reply. | target `Foo.bar` with no class filed under `Foo` | reply with a `SERVICE_NOT_EXISTS` record whose message is `Foo.bar` | high (not executed) | `Dispatch.UnknownClassRaises` | `Dispatch.UnknownClassReplyChecked` |

`Providers.Provider.HandleData` models the handler as written.
`Dispatch.HandleChecked` is the corrected handler. `Dispatch.CheckedAgreesElsewhere`
proves that it differs from the original only on unknown classes.

## Left out

- Sockets: `net.createServer`, `net.createConnection`, `listen`, `close`, `socket.setTimeout` and `socket.write` are network I/O. Writes are returned as `Response` values, and socket events are method calls.
- Timer durations (5000 ms heartbeat, connection timeouts): there is no clock, and firing is an explicit event.
- `parseInvoker`, `formatData` and `formatInvoker` come from modules that are not part of this model. The first two are parameters. The content of the registration request is not modelled.
- Promise machinery: a then-able is the tag `Pending`, and its settlement is a separate `Settlement` value. Interleaving of requests and unhandled-rejection reporting are not modelled.
- `console.log`, the logger calls, the server's `'error'` logging and `stop()`: logging and shutdown only.
- The `throw` in `_registerProvider` when no registry is configured: a configuration guard.
- `start`'s user callback `cb`, and the `{logger}` argument passed to service constructors.
- Service constructors are assumed not to throw.
- JavaScript property lookup through the prototype chain is not modelled. `this.services`, `this.serviceClasses` and a service instance are plain objects, so keys such as `toString` or `constructor` find inherited members. The model treats them as maps holding only what was put there.
- A method-table entry is always a function. Truthy non-function properties, which would fail at the call, are not modelled.
- `args` is always an array when present; `apply` on a non-array is not modelled.
- Thrown values that are not `Error` objects, whose `message` and `stack` are `undefined`, are not modelled.
- Strings are sequences of Unicode scalar values, not of UTF-16 code units as in JavaScript. An undotted target whose last character lies outside the Basic Multilingual Plane loses that whole character in `TargetName.Split`, where `slice(0, -1)` would keep a lone high surrogate.
- Numbers are integers; JavaScript's floating-point numbers are not modelled.
- The registration connection's `client.end()` is the `endsConnection` flag. Opened connections are counted (never decremented), not tracked individually.
