/** The unbounded queue in front of the notification handler. */
module Queues {

  /** What may happen in the select of queueHandler: a value arrives (and the reader may be
      ready to take it at once), the reader takes the next value, or the handler stops. */
  datatype Event<T> = In(value: T, readerReady: bool) | Take | Stop

  /** The values that arrived before the handler stopped. */
  function Arrived<T>(events: seq<Event<T>>): seq<T> {
    if events == [] || events[0].Stop? then []
    else (if events[0].In? then [events[0].value] else []) + Arrived(events[1..])
  }

  lemma {:induction false} ArrivedPrefix<T>(events: seq<Event<T>>, n: nat)
    requires n < |events| && forall k :: 0 <= k < n ==> !events[k].Stop?
    ensures Arrived(events[..n + 1]) ==
      if events[n].In? then Arrived(events[..n]) + [events[n].value] else Arrived(events[..n])
    ensures events[n].Stop? ==> Arrived(events) == Arrived(events[..n])
    decreases n
  {
    if n > 0 {
      ArrivedPrefix(events[1..], n - 1);
      assert events[..n + 1][1..] == events[1..][..n];
      assert events[..n][1..] == events[1..][..n - 1];
    } else {
      assert events[..1][1..] == [];
    }
  }

  /** How many values are queued after the first n events: a value is passed on at once only
      when none is queued and the reader is ready, and the reader takes one at a time. */
  function Backlog<T>(events: seq<Event<T>>, n: nat): nat
    requires n <= |events|
  {
    if n == 0 then 0
    else
      var before := Backlog(events, n - 1);
      match events[n - 1]
      case In(_, readerReady) => if before == 0 && readerReady then 0 else before + 1
      case Take => if before == 0 then 0 else before - 1
      case Stop => before
  }

  /** How many events the handler sees. */
  function Seen<T>(events: seq<Event<T>>): (n: nat)
    ensures n <= |events| && (n < |events| ==> events[n].Stop?) && forall k :: 0 <= k < n ==> !events[k].Stop?
  {
    if events == [] || events[0].Stop? then 0 else 1 + Seen(events[1..])
  }

  /** A queue of k values is emptied by k takes, not by fewer, and takes in excess do nothing. */
  lemma {:induction false} TakesDrain<T>(events: seq<Event<T>>, n: nat, k: nat)
    requires n + k <= |events| && forall i :: n <= i < n + k ==> events[i] == Take
    ensures Backlog(events, n + k) == if Backlog(events, n) > k then Backlog(events, n) - k else 0
  {
    if k > 0 {
      TakesDrain(events, n, k - 1);
    }
  }

  /** With a reader that is never ready and takes nothing, everything that arrives is queued. */
  lemma {:induction false} NothingTaken<T>(events: seq<Event<T>>, n: nat)
    requires n <= |events| && forall i :: 0 <= i < n ==> events[i].In? && !events[i].readerReady
    ensures Backlog(events, n) == n
  {
    if n > 0 {
      NothingTaken(events, n - 1);
    }
  }

  /** With a reader that is always ready, nothing is ever queued. */
  lemma {:induction false} AlwaysReady<T>(events: seq<Event<T>>, n: nat)
    requires n <= |events| && forall i :: 0 <= i < n && events[i].In? ==> events[i].readerReady
    ensures Backlog(events, n) == 0
  {
    if n > 0 {
      AlwaysReady(events, n - 1);
    }
  }

  /** A value that finds others queued goes behind them even if the reader is ready. */
  lemma QueuedBehind<T>(events: seq<Event<T>>, n: nat)
    requires n < |events| && events[n].In? && (Backlog(events, n) > 0 || !events[n].readerReady)
    ensures Backlog(events, n + 1) == Backlog(events, n) + 1
  {
  }

  /** The handler loop.  Whatever happens, what arrived is what was passed on followed by
      what is still queued, so the output is a prefix of the input, in order; and nothing stays
      queued that the reader was ready to take. */
  method QueueHandler<T>(events: seq<Event<T>>) returns (out: seq<T>, q: seq<T>)
    ensures Arrived(events) == out + q && |q| == Backlog(events, Seen(events))
  {
    out, q := [], [];
    var dequeue := false;
    var skipQueue := true;
    var next: seq<T> := [];
    var i := 0;
    while i < |events|
      invariant 0 <= i <= |events|
      invariant forall k :: 0 <= k < i ==> !events[k].Stop?
      invariant Arrived(events[..i]) == out + q && |q| == Backlog(events, i)
      invariant dequeue == (q != []) && skipQueue == (q == [])
      invariant dequeue ==> next == [q[0]]
    {
      ArrivedPrefix(events, i);
      match events[i] {
        case In(value, readerReady) =>
          if skipQueue && readerReady {
            out := out + [value];
          } else {
            q := q + [value];
            dequeue := true;
            skipQueue := false;
            next := [q[0]];
          }
        case Take =>
          if dequeue {
            out := out + next;
            q := q[1..];
            if |q| == 0 {
              dequeue := false;
              skipQueue := true;
            } else {
              next := [q[0]];
            }
          }
        case Stop =>
          return;
      }
      i := i + 1;
    }
    assert events[..|events|] == events;
  }
}
