/**
 * The registry of remote sessions that want module events
 * (index.js:91-94, 296-310). getRemoteSubscribers ignores the System it
 * is given and always answers the one dictionary stored on the global
 * modules.System, so the model has a single registry object.
 */
module Subscribers {

  /** The empty object `{}` stored for each subscriber; only the keys matter. */
  datatype Marker = Marker

  type SubscriberMap = map<string, Marker>

  const Subscribed: string := "subscribed"
  const AlreadySubscribed: string := "already subscribed"
  const Unsubscribed: string := "unsubscribed"
  const NotSubscribed: string := "not subscribed"

  /**
   * The property names a plain object `{}` inherits from
   * `Object.prototype`; the `in` operator finds them as well.
   */
  predicate Inherited(name: string) {
    name in {"constructor", "hasOwnProperty", "isPrototypeOf", "propertyIsEnumerable",
             "toLocaleString", "toString", "valueOf", "__proto__",
             "__defineGetter__", "__defineSetter__", "__lookupGetter__", "__lookupSetter__"}
  }

  /** `sender in subscribers` (index.js:299, 307): an own key or an inherited name. */
  predicate Registered(subscribers: SubscriberMap, sender: string) {
    sender in subscribers || Inherited(sender)
  }

  /**
   * The addSubscriber handler as a transition: the sender becomes an own
   * key (except `__proto__`, whose assignment replaces the prototype and
   * adds no key), no other key changes, and the status says whether `in`
   * found the sender before.
   */
  function Subscribe(subscribers: SubscriberMap, sender: string): (r: (SubscriberMap, string))
    ensures sender != "__proto__" ==> sender in r.0
    ensures sender == "__proto__" ==> r.0 == subscribers
    ensures forall k :: k != sender ==> (k in r.0 <==> k in subscribers)
    ensures r.1 == AlreadySubscribed <==> Registered(subscribers, sender)
    ensures r.1 == Subscribed <==> !Registered(subscribers, sender)
  {
    var wasSubscribed := Registered(subscribers, sender);
    var after := if sender == "__proto__" then subscribers else subscribers[sender := Marker];
    (after, if wasSubscribed then AlreadySubscribed else Subscribed)
  }

  /**
   * The removeSubscriber handler as a transition: the sender is no own
   * key afterwards, no other key changes, a sender that is not an own key
   * leaves the registry as it was, and the status says whether `in` found
   * the sender (so an inherited name is "unsubscribed" without any change).
   */
  function Unsubscribe(subscribers: SubscriberMap, sender: string): (r: (SubscriberMap, string))
    ensures sender !in r.0
    ensures forall k :: k != sender ==> (k in r.0 <==> k in subscribers)
    ensures sender !in subscribers ==> r.0 == subscribers
    ensures r.1 == Unsubscribed <==> Registered(subscribers, sender)
    ensures r.1 == NotSubscribed <==> !Registered(subscribers, sender)
  {
    if Registered(subscribers, sender) then (subscribers - {sender}, Unsubscribed)
    else (subscribers, NotSubscribed)
  }

  /** The dictionary stored under `__l2l-modules__subscribers`. */
  class Registry {
    var subscribers: SubscriberMap

    /** The first call of getRemoteSubscribers creates the dictionary empty. */
    constructor ()
      ensures subscribers == map[]
    {
      subscribers := map[];
    }

    /** `Object.keys(getRemoteSubscribers(System))`: the sessions an event is relayed to. */
    function SessionIds(): set<string>
      reads this
    {
      subscribers.Keys
    }

    /** The `l2l-modules.addSubscriber` handler (index.js:296-302). */
    method AddSubscriber(sender: string) returns (status: string)
      modifies this
      ensures (subscribers, status) == Subscribe(old(subscribers), sender)
    {
      var wasSubscribed := Registered(subscribers, sender);
      if sender != "__proto__" {
        subscribers := subscribers[sender := Marker];
      }
      status := if wasSubscribed then AlreadySubscribed else Subscribed;
    }

    /** The `l2l-modules.removeSubscriber` handler (index.js:304-310). */
    method RemoveSubscriber(sender: string) returns (status: string)
      modifies this
      ensures (subscribers, status) == Unsubscribe(old(subscribers), sender)
    {
      var wasSubscribed := Registered(subscribers, sender);
      if wasSubscribed {
        subscribers := subscribers - {sender};
      }
      status := if wasSubscribed then Unsubscribed else NotSubscribed;
    }
  }

  /** Subscribing twice answers "subscribed" and then "already subscribed", and registers the sender once. */
  lemma SubscribeTwice(subscribers: SubscriberMap, sender: string)
    requires !Registered(subscribers, sender)
    ensures Subscribe(subscribers, sender).1 == Subscribed
    ensures Subscribe(Subscribe(subscribers, sender).0, sender).1 == AlreadySubscribed
    ensures Subscribe(Subscribe(subscribers, sender).0, sender).0 == Subscribe(subscribers, sender).0
  {
  }

  /** Unsubscribing a newly subscribed sender restores the registry. */
  lemma SubscribeThenUnsubscribe(subscribers: SubscriberMap, sender: string)
    requires !Registered(subscribers, sender)
    ensures Unsubscribe(Subscribe(subscribers, sender).0, sender) == (subscribers, Unsubscribed)
  {
    var once := Subscribe(subscribers, sender).0;
    assert (once - {sender}).Keys == subscribers.Keys;
    assert forall k :: k in subscribers ==> (once - {sender})[k] == Marker == subscribers[k];
    assert once - {sender} == subscribers;
  }

  /** After unsubscribing an own key, a second unsubscribe answers "not subscribed" and changes nothing. */
  lemma UnsubscribeTwice(subscribers: SubscriberMap, sender: string)
    requires !Inherited(sender)
    ensures var once := Unsubscribe(subscribers, sender).0;
      Unsubscribe(once, sender) == (once, NotSubscribed)
  {
  }

  /**
   * A session whose id is an inherited name is never new: on an empty
   * registry it is "already subscribed" without being listed, and it is
   * "unsubscribed" while it never was.
   */
  lemma InheritedNameIsAlwaysFound(sender: string)
    requires Inherited(sender)
    ensures Subscribe(map[], sender).1 == AlreadySubscribed
    ensures Unsubscribe(map[], sender) == (map[], Unsubscribed)
  {
  }
}
