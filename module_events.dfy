/**
 * Relaying local module events to subscribed sessions (index.js:81-127):
 * the filter that keeps forwarded events from being forwarded again, and
 * _makeSendable, which stamps a shallow copy of the event and rewrites
 * its addresses without touching the original.
 */
module ModuleEvents {
  import opened Wrappers
  import opened Strings
  import opened JsValues
  import opened L2lAddress
  import opened Subscribers

  const OnModuleEventAction: string := "l2l-modules.onModuleEvent"
  const DoitResult: string := "doitresult"

  /** `event.options`: the target module and every other property. */
  class EventOptions {
    var targetModule: Option<string>
    var others: map<string, Value>

    constructor (targetModule: Option<string>, others: map<string, Value>)
      ensures this.targetModule == targetModule && this.others == others
    {
      this.targetModule := targetModule;
      this.others := others;
    }

    /** A shallow clone of `options`: a new object with the same own properties. */
    constructor Clone(from: EventOptions)
      ensures targetModule == from.targetModule && others == from.others
    {
      targetModule := from.targetModule;
      others := from.others;
    }
  }

  /** A module-system notification as index.js reads and writes it. */
  class ModuleEvent {
    var eventType: string
    var moduleName: Option<string>
    var options: EventOptions?
    var result: Value
    var isRemoteEvent: Option<bool>
    var sourceSession: Option<string>
    var others: map<string, Value>

    constructor (eventType: string, moduleName: Option<string>, options: EventOptions?, result: Value,
                 others: map<string, Value>)
      ensures this.eventType == eventType && this.moduleName == moduleName && this.options == options
      ensures this.result == result && this.others == others
      ensures isRemoteEvent.None? && sourceSession.None?
    {
      this.eventType := eventType;
      this.moduleName := moduleName;
      this.options := options;
      this.result := result;
      this.others := others;
      isRemoteEvent := None;
      sourceSession := None;
    }

    /**
     * A shallow clone of `event`: a new object with the same own
     * properties; the clone shares the original's options object.
     */
    constructor Clone(from: ModuleEvent)
      ensures eventType == from.eventType && moduleName == from.moduleName && options == from.options
      ensures result == from.result && isRemoteEvent == from.isRemoteEvent
      ensures sourceSession == from.sourceSession && others == from.others
    {
      eventType := from.eventType;
      moduleName := from.moduleName;
      options := from.options;
      result := from.result;
      isRemoteEvent := from.isRemoteEvent;
      sourceSession := from.sourceSession;
      others := from.others;
    }
  }

  /**
   * The module an event is about (index.js:83-84): the options' target
   * module when that is truthy, and otherwise the event's module.
   */
  function Subject(event: ModuleEvent): (r: Option<string>)
    reads event, event.options
    ensures event.options != null && Present(event.options.targetModule) ==> r == event.options.targetModule
    ensures !(event.options != null && Present(event.options.targetModule)) ==> r == event.moduleName
  {
    if event.options != null && Present(event.options.targetModule) then event.options.targetModule
    else event.moduleName
  }

  /** What the notification subscriber does with an event. */
  datatype RelayDecision = Relay | Skip | Throws

  /**
   * The filter of setupRemoteNotifications (index.js:82-88): events whose
   * subject starts with `l2l:` are not relayed; an event without a
   * subject makes `moduleName.match` throw.
   */
  function Decide(event: ModuleEvent): (d: RelayDecision)
    reads event, event.options
    ensures d == Throws <==> Subject(event).None?
    ensures d == Skip <==> Subject(event).Some? && StartsWith(Subject(event).value, "l2l:")
  {
    match Subject(event)
    case None => Throws
    case Some(name) => if StartsWith(name, "l2l:") then Skip else Relay
  }

  /** A rewritten local address starts with `l2l:`, so the filter recognises it as remote. */
  lemma RewrittenAddressIsRemote(baseURL: string, sessionId: string, address: string)
    requires StartsWith(address, baseURL)
    ensures StartsWith(LocalToL2lAddress(baseURL, sessionId, address), "l2l:")
  {
    var r := LocalToL2lAddress(baseURL, sessionId, address);
    assert r[..|Scheme + sessionId + "/"|] == Scheme + sessionId + "/";
    assert r[..4] == (Scheme + sessionId + "/")[..4] == "l2l:";
  }

  /** The rewriting of an optional address property: only a non-empty string is rewritten. */
  function RewriteProperty(baseURL: string, sessionId: string, address: Option<string>): (r: Option<string>)
    ensures !Present(address) ==> r == address
    ensures Present(address) && StartsWith(address.value, baseURL) ==>
      r.Some? && StartsWith(r.value, Scheme + sessionId + "/")
    ensures Present(address) && !StartsWith(address.value, baseURL) ==> r == address
  {
    if Present(address) then Some(LocalToL2lAddress(baseURL, sessionId, address.value)) else address
  }

  /**
   * The options part of _makeSendable (index.js:109-112): options with a
   * truthy targetModule are replaced by a clone whose target is
   * rewritten; any others are kept, shared with the original event.
   */
  method SendableOptions(baseURL: string, sessionId: string, options: EventOptions?)
    returns (result: EventOptions?)
    ensures if options != null && Present(options.targetModule) then
        && fresh(result)
        && result.targetModule == RewriteProperty(baseURL, sessionId, options.targetModule)
        && result.others == options.others
      else result == options
    ensures options != null ==> unchanged(options)
  {
    result := options;
    if options != null && Present(options.targetModule) {
      var copy := new EventOptions.Clone(options);
      copy.targetModule := RewriteProperty(baseURL, sessionId, copy.targetModule);
      result := copy;
    }
  }

  /**
   * What _makeSendable promises about its copy `sendable` of `event`: it
   * is marked as a remote event of the own session, a `doitresult`
   * result is replaced by its inspection, the module and a truthy target
   * module are rewritten into l2l addresses, and everything else is
   * carried over; options without a truthy target stay shared.
   */
  predicate SendableOf(baseURL: string, sessionId: string, inspect: Value -> Value,
                       event: ModuleEvent, sendable: ModuleEvent)
    reads event, event.options, sendable, sendable.options
  {
    && sendable.isRemoteEvent == Some(true) && sendable.sourceSession == Some(sessionId)
    && sendable.eventType == event.eventType && sendable.others == event.others
    && sendable.result == (if event.eventType == DoitResult then inspect(event.result) else event.result)
    && sendable.moduleName == RewriteProperty(baseURL, sessionId, event.moduleName)
    && if event.options != null && Present(event.options.targetModule) then
         && sendable.options != null
         && sendable.options.targetModule == RewriteProperty(baseURL, sessionId, event.options.targetModule)
         && sendable.options.others == event.options.others
       else sendable.options == event.options
  }

  /**
   * _makeSendable (index.js:102-117), with `lively.morphic.printInspect(_, 1)`
   * as the parameter `inspect`: a fresh copy (with fresh options where the
   * target is rewritten), and the original event and its options untouched.
   */
  method MakeSendable(baseURL: string, sessionId: string, event: ModuleEvent, inspect: Value -> Value)
    returns (sendable: ModuleEvent)
    ensures fresh(sendable)
    ensures event.options != null && Present(event.options.targetModule) ==> fresh(sendable.options)
    ensures SendableOf(baseURL, sessionId, inspect, event, sendable)
    ensures unchanged(event)
    ensures event.options != null ==> unchanged(event.options)
  {
    var options := SendableOptions(baseURL, sessionId, event.options);
    sendable := new ModuleEvent.Clone(event);
    sendable.isRemoteEvent := Some(true);
    sendable.sourceSession := Some(sessionId);
    if sendable.eventType == DoitResult {
      sendable.result := inspect(sendable.result);
    }
    sendable.options := options;
    sendable.moduleName := RewriteProperty(baseURL, sessionId, event.moduleName);
  }

  /**
   * What keeps relayed events from bouncing back: the subject of the copy
   * is the rewritten subject of the original, so an event about a local
   * module arrives with an `l2l:` subject, which the filter skips.
   */
  lemma SendableSubjectIsRewritten(baseURL: string, sessionId: string, inspect: Value -> Value,
                                   event: ModuleEvent, sendable: ModuleEvent)
    requires SendableOf(baseURL, sessionId, inspect, event, sendable)
    requires Subject(event).Some? && Subject(event).value != "" && StartsWith(Subject(event).value, baseURL)
    ensures Subject(sendable) == RewriteProperty(baseURL, sessionId, Subject(event))
    ensures Decide(sendable) == Skip
  {
    RewrittenAddressIsRemote(baseURL, sessionId, Subject(event).value);
  }

  /** An event about the module at base + `rest` goes out about `l2l://<session>/rest`, less one leading slash. */
  lemma SendableModuleAddress(baseURL: string, sessionId: string, inspect: Value -> Value,
                              event: ModuleEvent, sendable: ModuleEvent, rest: string)
    requires SendableOf(baseURL, sessionId, inspect, event, sendable)
    requires event.moduleName == Some(baseURL + rest) && baseURL + rest != ""
    ensures sendable.moduleName == Some(Scheme + sessionId + "/" + StripLeadingSlash(rest))
  {
    LocalToL2lOfBased(baseURL, sessionId, rest);
  }

  /**
   * informRemoteSubscribers (index.js:119-127) without the transport: the
   * sessions the event goes to (read before the copy is made), the action
   * it is sent under and the copy they all receive.
   */
  method InformRemoteSubscribers(registry: Registry, baseURL: string, sessionId: string,
                                 event: ModuleEvent, inspect: Value -> Value)
    returns (recipients: set<string>, action: string, sendable: ModuleEvent)
    ensures recipients == registry.subscribers.Keys && action == OnModuleEventAction
    ensures fresh(sendable) && SendableOf(baseURL, sessionId, inspect, event, sendable)
    ensures unchanged(registry) && unchanged(event)
    ensures event.options != null ==> unchanged(event.options)
  {
    recipients := registry.SessionIds();
    action := OnModuleEventAction;
    sendable := MakeSendable(baseURL, sessionId, event, inspect);
  }

  /** The outcome of one local notification. */
  datatype Notified = Relayed(recipients: set<string>, action: string, sendable: ModuleEvent) | Ignored | Threw

  /** The `l2l-modules-remote-notifications` subscriber (index.js:82-88). */
  method OnLocalModuleEvent(registry: Registry, baseURL: string, sessionId: string,
                            event: ModuleEvent, inspect: Value -> Value)
    returns (n: Notified)
    ensures Decide(event) == Relay <==> n.Relayed?
    ensures Decide(event) == Skip <==> n.Ignored?
    ensures n.Relayed? ==> n.recipients == registry.subscribers.Keys && n.action == OnModuleEventAction
    ensures n.Relayed? ==> fresh(n.sendable)
    ensures n.Relayed? ==> SendableOf(baseURL, sessionId, inspect, event, n.sendable)
  {
    match Decide(event)
    case Throws => n := Threw;
    case Skip => n := Ignored;
    case Relay =>
      var recipients, action, sendable := InformRemoteSubscribers(registry, baseURL, sessionId, event, inspect);
      n := Relayed(recipients, action, sendable);
  }
}
