/**
 * The client's push-notification service: one STOMP client at a time and
 * a list of subscriber callbacks that every incoming notification is
 * handed to, in list order. Callbacks compare by identity, as functions do
 * in JavaScript.
 */
module WebSocketService {
  import opened TaskWebSocketController

  /** A subscriber callback; only its identity matters here. */
  class Listener {
    constructor () {}
  }

  /** A STOMP client: created, then activated or deactivated. */
  class StompClient {
    var active: bool

    constructor ()
      ensures !active
    {
      active := false;
    }

    method Activate()
      modifies this
      ensures active
    {
      active := true;
    }

    method Deactivate()
      modifies this
      ensures !active
    {
      active := false;
    }
  }

  /** `subscribers.filter(cb => cb !== x)`. */
  function Without<T(==)>(s: seq<T>, x: T): (r: seq<T>)
    ensures x !in r
    ensures |r| <= |s|
  {
    if s == [] then []
    else (if s[0] == x then [] else [s[0]]) + Without(s[1..], x)
  }

  /** Filtering distributes over concatenation, so the others keep their order. */
  lemma {:induction false} WithoutConcat<T>(s: seq<T>, t: seq<T>, x: T)
    ensures Without(s + t, x) == Without(s, x) + Without(t, x)
    decreases |s|
  {
    if s == [] {
      assert s + t == t;
    } else {
      assert (s + t)[1..] == s[1..] + t;
      WithoutConcat(s[1..], t, x);
    }
  }

  /** Every other callback keeps its number of occurrences. */
  lemma {:induction false} WithoutKeepsOthers<T>(s: seq<T>, x: T, y: T)
    requires y != x
    ensures multiset(Without(s, x))[y] == multiset(s)[y]
    decreases |s|
  {
    if s != [] {
      WithoutKeepsOthers(s[1..], x, y);
      assert s == [s[0]] + s[1..];
    }
  }

  /** Removing a callback that is not there changes nothing. */
  lemma {:induction false} WithoutAbsent<T>(s: seq<T>, x: T)
    requires x !in s
    ensures Without(s, x) == s
    decreases |s|
  {
    if s != [] {
      WithoutAbsent(s[1..], x);
      assert s == [s[0]] + s[1..];
    }
  }

  /** Unsubscribing twice is unsubscribing once. */
  lemma WithoutIdempotent<T>(s: seq<T>, x: T)
    ensures Without(Without(s, x), x) == Without(s, x)
  {
    WithoutAbsent(Without(s, x), x);
  }

  /** Subscribing a new callback and unsubscribing it restores the list. */
  lemma SubscribeThenUnsubscribe<T>(s: seq<T>, x: T)
    requires x !in s
    ensures Without(s + [x], x) == s
  {
    WithoutConcat(s, [x], x);
    WithoutAbsent(s, x);
  }

  class WebSocketServiceImpl {
    var client: StompClient?
    var subscribers: seq<Listener>

    constructor ()
      ensures client == null && subscribers == []
    {
      client, subscribers := null, [];
    }

    /**
     * `connect`: a new, activated client replaces the field; an existing
     * client is neither checked for nor deactivated. Subscribers are kept.
     */
    method Connect()
      modifies this
      ensures client != null && fresh(client) && client.active
      ensures old(client) != null ==> old(client).active == old(client.active)
      ensures subscribers == old(subscribers)
    {
      var c := new StompClient();
      c.Activate();
      client := c;
    }

    /** `disconnect`: deactivates and drops the client if there is one; otherwise nothing. */
    method Disconnect()
      modifies this, client
      ensures client == null
      ensures old(client) != null ==> !old(client).active
      ensures subscribers == old(subscribers)
    {
      if client != null {
        client.Deactivate();
        client := null;
      }
    }

    /** `subscribe`: the callback goes to the end of the list. */
    method Subscribe(cb: Listener)
      modifies this
      ensures subscribers == old(subscribers) + [cb]
      ensures client == old(client)
    {
      subscribers := subscribers + [cb];
    }

    /** The function `subscribe` returns: drops every occurrence of the callback. */
    method Unsubscribe(cb: Listener)
      modifies this
      ensures subscribers == Without(old(subscribers), cb)
      ensures client == old(client)
    {
      subscribers := Without(subscribers, cb);
    }

    /**
     * The topic handler: the notification goes to each subscriber of the
     * moment, in list order; returns the calls made, in call order, each as
     * the callback and the payload it received.
     */
    method Deliver(notification: Payload) returns (calls: seq<(Listener, Payload)>)
      ensures |calls| == |subscribers|
      ensures forall k :: 0 <= k < |calls| ==> calls[k] == (subscribers[k], notification)
    {
      var current := subscribers;
      calls := [];
      for i := 0 to |current|
        invariant |calls| == i
        invariant forall k :: 0 <= k < i ==> calls[k] == (current[k], notification)
      {
        calls := calls + [(current[i], notification)];
      }
    }
  }
}
