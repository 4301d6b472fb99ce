/** Vocabulary shared by both games and both hubs: identities, optional
    values, results, and the hub's "emit or evict" delivery rule. */
module Common {

  /** Opaque identity of a connected client (a UUID in the server). */
  type ClientId = nat

  /** Opaque identity of a match (a UUID in the server). */
  type GameId = nat

  /** A value that may be absent: a nil pointer, an unset map entry or the
      empty string in the server. */
  datatype Option<+T> = None | Some(value: T) {
    function GetOr(default: T): T {
      match this
      case Some(v) => v
      case None => default
    }
  }

  /** An operation that either succeeds with a value or fails with an error. */
  datatype Result<+T, +E> = Success(value: T) | Failure(error: E)

  /** One outbound message addressed to one client. */
  datatype Envelope<+M> = Envelope(to: ClientId, msg: M)

  /** Messages already queued stay queued when more are appended. */
  lemma QueuedStays<M>(a: seq<Envelope<M>>, b: seq<Envelope<M>>)
    requires |a| <= |b| && b[..|a|] == a
    ensures forall x :: x in a ==> x in b
  {
    forall x | x in a
      ensures x in b
    {
      var k :| 0 <= k < |a| && a[k] == x;
      assert b[k] == x;
    }
  }

  /** When each client's outbound queue fills up while one event is
      handled. A client listed with `n` finds its queue full for every write
      made once the event has queued `n` messages (to anyone); an unlisted
      client never does. The writer side drains queues concurrently, so a
      queue may fill at any moment, and since the first overflow evicts the
      client, every choice made write by write is one of these maps. */
  type Room = map<ClientId, nat>

  /** The next write to `to`, after the messages `out` of the same event,
      finds its queue full. */
  predicate Overflows<M>(room: Room, out: seq<Envelope<M>>, to: ClientId) {
    to in room && |out| >= room[to]
  }

  /** What one delivery attempt leaves behind: the live set, the messages
      actually queued, and whether the attempt wrote to a closed queue. */
  datatype Delivery<+M> = Delivery(live: set<ClientId>, queued: seq<Envelope<M>>, closed: bool)

  /** Deliver `m` to `to`. A client outside the live set has had its queue
      closed (on unregistration or eviction), and writing to it is a fault
      that stops the server. A client whose queue overflows has the message
      dropped, its queue closed and leaves the live set. Any other client
      gets the message appended to its queue. */
  function Deliver<M>(live: set<ClientId>, overflow: bool, to: ClientId, m: M): (d: Delivery<M>)
    ensures d.closed <==> to !in live
    ensures d.live <= live && d.live + {to} >= live
    ensures |d.queued| <= 1
    ensures to !in live ==> d.live == live && d.queued == []
    ensures to in live && overflow ==> d.live == live - {to} && d.queued == []
    ensures to in live && !overflow ==> d.live == live && d.queued == [Envelope(to, m)]
  {
    if to !in live then Delivery(live, [], true)
    else if overflow then Delivery(live - {to}, [], false)
    else Delivery(live, [Envelope(to, m)], false)
  }

  /** Delivery that first checks the recipient is still live and skips it
      otherwise, as the registration gate of the event loop does. */
  function DeliverChecked<M>(live: set<ClientId>, overflow: bool, to: ClientId, m: M): (d: Delivery<M>)
    ensures !d.closed
    ensures to !in live ==> d == Delivery(live, [], false)
    ensures to in live ==> d == Deliver(live, overflow, to, m)
  {
    if to in live then Deliver(live, overflow, to, m) else Delivery(live, [], false)
  }
}
