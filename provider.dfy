/**
 * The state a `Provider` object keeps and updates in place: the memoised
 * service instances and the heartbeat timer, with the data handler and
 * the registration callbacks as methods. Sockets are gone: their events
 * are method calls and their writes are returned values. Timers are the
 * set the event loop still holds, with firing as an explicit event.
 */
module Providers {
  import opened Wrappers
  import opened Bytes
  import opened Services
  import ServiceKeys
  import TargetName
  import Dispatch
  import Registration

  type TimerId = nat

  /**
   * The class name the handler looks up for `buf`, or `None` when it
   * returns or throws before `_getService` is called.
   */
  function LookedUpClass(buf: seq<byte>, parse: Dispatch.Parser): (c: Option<string>)
  {
    if IsZeroByte(buf) then None
    else
      match parse(buf)
      case None => None
      case Some(inv) =>
        if 0 <= inv.serviceId < UInt32Limit then Some(TargetName.ClassName(inv.serviceName)) else None
  }

  class Provider {
    const port: nat
    /** Service classes by key, as the constructor's fold files them. */
    const serviceClasses: map<string, ServiceClass>
    /** `this.services`: the instances built so far, by key. */
    var services: map<string, ServiceInstance>
    /** `this.hbTimeout`: the heartbeat timer last armed, cleared when it fires. */
    var hbTimeout: Option<TimerId>
    /** The heartbeat timers the event loop holds: armed and neither cleared nor fired. */
    var armedTimers: set<TimerId>
    var nextTimerId: TimerId
    /** How many registration connections `_registerProvider` has opened. */
    var registrations: nat

    /**
     * Every instance belongs to the class filed under its key, and the
     * event loop holds exactly the timer `hbTimeout` names, if any.
     */
    ghost predicate Valid()
      reads this
    {
      && (forall k :: k in services ==> k in serviceClasses && services[k].cls == serviceClasses[k])
      && armedTimers == (if hbTimeout.Some? then {hbTimeout.value} else {})
      && (hbTimeout.Some? ==> hbTimeout.value < nextTimerId)
    }

    /** At most one heartbeat timer is ever armed. */
    lemma AtMostOneTimer()
      requires Valid()
      ensures |armedTimers| <= 1
      ensures armedTimers != {} <==> hbTimeout.Some?
    {
    }

    /** `new Provider({port, serviceClasses})`: the table folded, nothing built or armed. */
    constructor (port: nat, classes: seq<ServiceClass>)
      ensures Valid()
      ensures this.port == port && serviceClasses == ServiceKeys.ClassTable(classes)
      ensures services == map[] && hbTimeout == None && armedTimers == {} && registrations == 0
    {
      var table := ServiceKeys.BuildClassTable(classes);
      this.port := port;
      serviceClasses := table;
      services := map[];
      hbTimeout := None;
      armedTimers := {};
      nextTimerId := 0;
      registrations := 0;
    }

    /**
     * `_getService`: the memoised instance, or a new one filed under the
     * key; `None` where `new undefined` throws because no class has the key.
     */
    method GetService(className: string) returns (s: Option<ServiceInstance>)
      requires Valid()
      modifies this`services
      ensures Valid()
      ensures className in old(services) ==>
        s == Some(old(services)[className]) && services == old(services)
      ensures className !in old(services) && className in serviceClasses ==>
        && s.Some? && fresh(s.value) && s.value.cls == serviceClasses[className]
        && services == old(services)[className := s.value]
      ensures className !in serviceClasses ==> s.None? && services == old(services)
    {
      if className in services {
        return Some(services[className]);
      }
      if className !in serviceClasses {
        return None;
      }
      var instance := new ServiceInstance(serviceClasses[className]);
      services := services[className := instance];
      s := Some(instance);
    }

    /** Two lookups of one key give one instance, built at most once. */
    method GetServiceTwice(className: string) returns (first: Option<ServiceInstance>, second: Option<ServiceInstance>)
      requires Valid()
      modifies this`services
      ensures Valid()
      ensures first == second
      ensures first.Some? <==> className in serviceClasses
      ensures services.Keys == old(services).Keys + (if className in serviceClasses then {className} else {})
      ensures forall k :: k in old(services) ==> services[k] == old(services)[k]
    {
      first := GetService(className);
      second := GetService(className);
    }

    /**
     * The server socket's `'data'` handler: the response is the one
     * `Dispatch.Handle` describes, and the only state change is the
     * instance a first lookup builds.
     */
    method HandleData(buf: seq<byte>, parse: Dispatch.Parser, formatData: Dispatch.Formatter)
      returns (r: Dispatch.Response)
      requires Valid()
      modifies this`services
      ensures Valid()
      ensures r == Dispatch.Handle(buf, parse, formatData, serviceClasses)
      ensures var c := LookedUpClass(buf, parse);
        if c.Some? && c.value !in old(services) && c.value in serviceClasses then
          && services.Keys == old(services).Keys + {c.value}
          && fresh(services[c.value]) && services[c.value].cls == serviceClasses[c.value]
          && (forall k :: k in old(services) ==> services[k] == old(services)[k])
        else services == old(services)
    {
      if IsZeroByte(buf) {
        return Dispatch.Write([0]);
      }
      var parsed := parse(buf);
      if parsed.None? {
        return Dispatch.Raise(Dispatch.MalformedRequest);
      }
      var inv := parsed.value;
      if !(0 <= inv.serviceId < UInt32Limit) {
        return Dispatch.Raise(Dispatch.ServiceIdOutOfRange);
      }
      var prefix := LE4(inv.serviceId);
      var className := TargetName.ClassName(inv.serviceName);
      var service := GetService(className);
      if service.None? {
        return Dispatch.Raise(Dispatch.NotAConstructor(className));
      }
      var outcome := Dispatch.Classify(inv, Some(service.value.cls.methods));
      r := Dispatch.Respond(prefix, outcome, formatData);
    }

    /**
     * `_heartbeat`: cancel the armed timer, if any, and arm a new one.
     * Afterwards the event loop holds exactly one heartbeat timer.
     */
    method Heartbeat()
      requires Valid()
      modifies this`hbTimeout, this`armedTimers, this`nextTimerId
      ensures Valid()
      ensures hbTimeout.Some? && armedTimers == {hbTimeout.value}
      ensures hbTimeout.value !in old(armedTimers)
      ensures old(hbTimeout).Some? ==> old(hbTimeout).value !in armedTimers
    {
      if hbTimeout.Some? {
        armedTimers := armedTimers - {hbTimeout.value};
      }
      var id := nextTimerId;
      nextTimerId := nextTimerId + 1;
      armedTimers := armedTimers + {id};
      hbTimeout := Some(id);
    }

    /** `start`'s listening callback: one registration connection is opened. */
    method Start()
      modifies this`registrations
      ensures registrations == old(registrations) + 1
    {
      registrations := registrations + 1;
    }

    /**
     * An event on a registration connection: the callback gets what the
     * handler passes it and, ignoring it, re-arms the heartbeat.
     */
    method OnRegistrationEvent(e: Registration.ConnEvent) returns (cb: Registration.Callback)
      requires Valid()
      modifies this`hbTimeout, this`armedTimers, this`nextTimerId
      ensures Valid()
      ensures cb == Registration.RegisterHandler(e)
      ensures hbTimeout.Some? && armedTimers == {hbTimeout.value}
    {
      cb := Registration.RegisterHandler(e);
      Heartbeat();
    }

    /**
     * A run of registration events (an error, then a timeout, then a
     * reply, each calling `cb`): however many there are, one timer is armed.
     */
    method OnRegistrationEvents(events: seq<Registration.ConnEvent>)
      requires Valid()
      modifies this`hbTimeout, this`armedTimers, this`nextTimerId
      ensures Valid()
      ensures events != [] ==> hbTimeout.Some? && armedTimers == {hbTimeout.value}
      ensures events == [] ==> hbTimeout == old(hbTimeout) && armedTimers == old(armedTimers)
    {
      var i := 0;
      while i < |events|
        invariant 0 <= i <= |events|
        invariant Valid()
        invariant i > 0 ==> hbTimeout.Some? && armedTimers == {hbTimeout.value}
        invariant i == 0 ==> hbTimeout == old(hbTimeout) && armedTimers == old(armedTimers)
      {
        var _ := OnRegistrationEvent(events[i]);
        i := i + 1;
      }
    }

    /**
     * The heartbeat timer fires: it is the one `hbTimeout` names, the
     * field is cleared, and only then a registration connection opens.
     */
    method FireHeartbeat(id: TimerId)
      requires Valid() && id in armedTimers
      modifies this`hbTimeout, this`armedTimers, this`registrations
      ensures Valid()
      ensures old(hbTimeout) == Some(id)
      ensures hbTimeout == None && armedTimers == {}
      ensures registrations == old(registrations) + 1
    {
      armedTimers := armedTimers - {id};
      hbTimeout := None;
      registrations := registrations + 1;
    }
  }
}
