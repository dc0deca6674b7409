/** The two-way index between channels and subscribed clients (ws/orderbook.go:12-94). */
module Subscriptions {
  import opened Options

  datatype Client = Client(id: nat)
  type Channel = string

  datatype Event =
    | Subscribe(id: Channel, c: Client)
    | UnsubscribeChannel(id: Channel, c: Client)
    | Unsubscribe(c: Client)

  /** The event takes this client off, or puts it on, this channel. */
  predicate Concerns(e: Event, id: Channel, c: Client) {
    e.c == c && (e.Unsubscribe? || e.id == id)
  }

  /** The last event that concerns the client on the channel is a subscription. */
  predicate LastSubscribed(es: seq<Event>, id: Channel, c: Client) {
    es != [] &&
    var e := es[|es| - 1];
    if Concerns(e, id, c) then e.Subscribe? else LastSubscribed(es[..|es| - 1], id, c)
  }

  lemma LastAfter(es: seq<Event>, e: Event)
    ensures forall id, c {:trigger LastSubscribed(es + [e], id, c)} :: LastSubscribed(es + [e], id, c) <==> if Concerns(e, id, c) then e.Subscribe? else LastSubscribed(es, id, c)
  {
    assert (es + [e])[..|es + [e]| - 1] == es;
  }

  type Index = map<Channel, map<Client, bool>>

  predicate Subscribed(index: Index, id: Channel, c: Client) {
    id in index && c in index[id] && index[id][c]
  }

  class OrderBookSocket {
    /** Channel to clients; the code never leaves a client mapped to false. */
    var subscriptions: Index
    /** Client to every channel it ever subscribed to; it is only appended to. */
    var subscriptionsList: map<Client, seq<Channel>>
    ghost var history: seq<Event>

    /** The index says exactly what the history of calls calls for, and a subscribed channel is
        always listed with its client. */
    ghost predicate Valid()
      reads this
    {
      && (forall id, c :: Subscribed(subscriptions, id, c) <==> LastSubscribed(history, id, c))
      && (forall id, c :: Subscribed(subscriptions, id, c) ==> c in subscriptionsList && id in subscriptionsList[c])
    }

    constructor ()
      ensures Valid() && history == []
    {
      subscriptions, subscriptionsList, history := map[], map[], [];
    }

    method Insert(id: Channel, c: Client)
      modifies `subscriptions
      ensures forall i, x :: Subscribed(subscriptions, i, x) <==> old(Subscribed(subscriptions, i, x)) || (i == id && x == c)
    {
      if id !in subscriptions {
        subscriptions := subscriptions[id := map[]];
      }
      subscriptions := subscriptions[id := subscriptions[id][c := true]];
    }

    method List(id: Channel, c: Client)
      modifies `subscriptionsList
      ensures subscriptionsList == old(subscriptionsList)[c := (if c in old(subscriptionsList) then old(subscriptionsList)[c] else []) + [id]]
    {
      if c !in subscriptionsList {
        subscriptionsList := subscriptionsList[c := []];
      }
      subscriptionsList := subscriptionsList[c := subscriptionsList[c] + [id]];
    }

    /** Without a connection nothing changes and an error is returned. */
    method Subscribe(id: Channel, connection: Option<Client>) returns (ok: bool)
      requires Valid()
      modifies this
      ensures ok == connection.Some?
      ensures Valid() && history == old(history) + if ok then [Event.Subscribe(id, connection.value)] else []
      ensures !ok ==> unchanged(this)
    {
      if connection == None {
        return false;
      }
      var c := connection.value;
      Insert(id, c);
      List(id, c);
      LastAfter(history, Event.Subscribe(id, c));
      history := history + [Event.Subscribe(id, c)];
      ok := true;
    }

    /** Deletes the entry when it is there; touches no other channel or client. */
    method Remove(id: Channel, c: Client)
      modifies `subscriptions
      ensures forall i, x :: Subscribed(subscriptions, i, x) <==> old(Subscribed(subscriptions, i, x)) && !(i == id && x == c)
    {
      if id in subscriptions && c in subscriptions[id] && subscriptions[id][c] {
        subscriptions := subscriptions[id := subscriptions[id] - {c}];
      }
    }

    method UnsubscribeChannel(id: Channel, c: Client)
      requires Valid()
      modifies this
      ensures Valid() && history == old(history) + [Event.UnsubscribeChannel(id, c)]
    {
      Remove(id, c);
      LastAfter(history, Event.UnsubscribeChannel(id, c));
      history := history + [Event.UnsubscribeChannel(id, c)];
    }

    /** Walks the client's list, which may name channels it has long left. */
    method Unsubscribe(c: Client)
      requires Valid()
      modifies this
      ensures Valid() && history == old(history) + [Event.Unsubscribe(c)]
      ensures forall id :: !Subscribed(subscriptions, id, c)
      ensures forall id, x :: x != c ==> (Subscribed(subscriptions, id, x) <==> old(Subscribed(subscriptions, id, x)))
    {
      if c in subscriptionsList {
        var ids := subscriptionsList[c];
        var i := 0;
        while i < |ids|
          invariant 0 <= i <= |ids|
          invariant subscriptionsList == old(subscriptionsList) && history == old(history)
          invariant forall id, x :: Subscribed(subscriptions, id, x) <==> old(Subscribed(subscriptions, id, x)) && !(x == c && id in ids[..i])
        {
          Remove(ids[i], c);
          i := i + 1;
        }
        assert ids[..i] == ids;
      }
      LastAfter(history, Event.Unsubscribe(c));
      history := history + [Event.Unsubscribe(c)];
    }

    /** The clients an update is sent to: exactly those whose last event on the channel is a
        subscription, each once. */
    method BroadcastMessage(id: Channel) returns (sent: seq<Client>)
      requires Valid()
      ensures forall c :: c in sent <==> LastSubscribed(history, id, c)
      ensures forall i, j :: 0 <= i < j < |sent| ==> sent[i] != sent[j]
    {
      sent := [];
      if id in subscriptions {
        var rest := subscriptions[id].Keys;
        while rest != {}
          invariant rest <= subscriptions[id].Keys
          invariant forall c :: c in sent <==> Subscribed(subscriptions, id, c) && c !in rest
          invariant forall i, j :: 0 <= i < j < |sent| ==> sent[i] != sent[j]
          decreases |rest|
        {
          var c :| c in rest;
          rest := rest - {c};
          if subscriptions[id][c] {
            sent := sent + [c];
          }
        }
      }
    }
  }
}
