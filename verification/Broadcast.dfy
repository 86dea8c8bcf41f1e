/** Fan-out of alert messages to subscribers with small buffers; a full buffer loses the message. */
module Broadcast {

  const BUFFER: nat := 4

  function Offered(buf: seq<string>, msg: string): seq<string> {
    if |buf| < BUFFER then buf + [msg] else buf
  }

  class Channel {
    var buf: seq<string>

    constructor ()
      ensures buf == []
    {
      buf := [];
    }

    /** A select with a default branch: it never blocks. */
    method TrySend(msg: string)
      modifies this
      ensures buf == Offered(old(buf), msg)
    {
      if |buf| < BUFFER {
        buf := buf + [msg];
      }
    }

    method Receive() returns (msg: string)
      requires buf != []
      modifies this
      ensures [msg] + buf == old(buf)
    {
      msg := buf[0];
      buf := buf[1..];
    }
  }

  class Broadcaster {
    var clients: set<Channel>

    constructor ()
      ensures clients == {}
    {
      clients := {};
    }

    method Subscribe() returns (ch: Channel)
      modifies this
      ensures fresh(ch) && ch.buf == [] && clients == old(clients) + {ch}
    {
      ch := new Channel();
      clients := clients + {ch};
    }

    method Unsubscribe(ch: Channel)
      modifies this
      ensures clients == old(clients) - {ch}
    {
      clients := clients - {ch};
    }

    /** Every subscriber is offered the message once, in no particular order. */
    method Publish(msg: string)
      modifies clients
      ensures forall ch <- clients :: ch.buf == if |old(ch.buf)| < 4 then old(ch.buf) + [msg] else old(ch.buf)
    {
      var left := clients;
      while left != {}
        invariant left <= clients
        invariant forall ch <- clients :: ch.buf == if ch in left then old(ch.buf) else Offered(old(ch.buf), msg)
        decreases |left|
      {
        var ch :| ch in left;
        ch.TrySend(msg);
        left := left - {ch};
      }
    }
  }
}

/** Runs of one broadcaster with any number of subscribers and readers. */
module BroadcastRuns {
  import opened Broadcast

  type Id = nat

  datatype Event = Subscribe(id: Id) | Unsubscribe(id: Id) | Publish(msg: string) | Receive(id: Id)

  /** A channel's buffer and everything its reader has taken out of it. */
  datatype Chan = Chan(buf: seq<string>, received: seq<string>)

  datatype State = State(clients: set<Id>, chans: map<Id, Chan>)

  function Next(s: State, e: Event): State {
    match e
    case Subscribe(id) =>
      if id in s.chans then s else State(s.clients + {id}, s.chans[id := Chan([], [])])
    case Unsubscribe(id) => s.(clients := s.clients - {id})
    case Publish(msg) =>
      s.(chans := map id | id in s.chans ::
           if id in s.clients then s.chans[id].(buf := Offered(s.chans[id].buf, msg)) else s.chans[id])
    case Receive(id) =>
      if id in s.chans && s.chans[id].buf != []
      then s.(chans := s.chans[id := Chan(s.chans[id].buf[1..], s.chans[id].received + [s.chans[id].buf[0]])])
      else s
  }

  function After(trace: seq<Event>): State {
    if trace == [] then State({}, map[]) else Next(After(trace[..|trace| - 1]), trace[|trace| - 1])
  }

  /**
   What a subscriber should see, told from the trace alone: the messages published while
   it was subscribed, which of them found fewer than four pending, and how many are pending.
   */
  datatype View = View(known: bool, subscribed: bool, offers: seq<string>, taken: seq<bool>, pending: int)

  function Expect(trace: seq<Event>, id: Id): View {
    if trace == [] then View(false, false, [], [], 0)
    else
      var v := Expect(trace[..|trace| - 1], id);
      match trace[|trace| - 1]
      case Subscribe(x) => if x == id && !v.known then v.(known := true, subscribed := true) else v
      case Unsubscribe(x) => if x == id then v.(subscribed := false) else v
      case Publish(msg) =>
        if !v.subscribed then v
        else v.(offers := v.offers + [msg], taken := v.taken + [v.pending < 4],
                pending := if v.pending < 4 then v.pending + 1 else v.pending)
      case Receive(x) => if x == id && v.pending > 0 then v.(pending := v.pending - 1) else v
  }

  /** The offers whose mark says taken. */
  function Kept(offers: seq<string>, taken: seq<bool>): seq<string>
    requires |offers| == |taken|
  {
    if offers == [] then []
    else
      var n := |offers| - 1;
      Kept(offers[..n], taken[..n]) + if taken[n] then [offers[n]] else []
  }

  ghost predicate Matches(s: State, v: View, id: Id) {
    && |v.offers| == |v.taken|
    && (id in s.chans <==> v.known)
    && (id in s.clients <==> v.subscribed)
    && (v.subscribed ==> v.known)
    && 0 <= v.pending <= BUFFER
    && (!v.known ==> v.offers == [] && v.pending == 0)
    && (v.known ==> |s.chans[id].buf| == v.pending && s.chans[id].received + s.chans[id].buf == Kept(v.offers, v.taken))
  }

  lemma KeptStep(offers: seq<string>, taken: seq<bool>, msg: string, take: bool)
    requires |offers| == |taken|
    ensures Kept(offers + [msg], taken + [take]) == Kept(offers, taken) + if take then [msg] else []
  {
    assert (offers + [msg])[..|offers|] == offers;
    assert (taken + [take])[..|taken|] == taken;
  }

  lemma PublishMatches(s: State, v: View, id: Id, msg: string)
    requires Matches(s, v, id) && v.subscribed
    ensures var take := v.pending < BUFFER;
            Matches(Next(s, Publish(msg)),
                    v.(offers := v.offers + [msg], taken := v.taken + [take], pending := if take then v.pending + 1 else v.pending), id)
  {
    KeptStep(v.offers, v.taken, msg, v.pending < BUFFER);
    var c := s.chans[id];
    assert c.received + (c.buf + [msg]) == (c.received + c.buf) + [msg];
  }

  lemma ReceiveMatches(s: State, v: View, id: Id)
    requires Matches(s, v, id) && v.pending > 0
    ensures Matches(Next(s, Receive(id)), v.(pending := v.pending - 1), id)
  {
    var c := s.chans[id];
    assert (c.received + [c.buf[0]]) + c.buf[1..] == c.received + c.buf;
  }

  /**
   For every run, what a subscriber has received followed by what waits in its buffer is
   exactly the messages offered to it that found fewer than four pending, in order.
   */
  lemma {:induction false} DeliveryIsExact(trace: seq<Event>, id: Id)
    ensures Matches(After(trace), Expect(trace, id), id)
  {
    if trace != [] {
      var front, e := trace[..|trace| - 1], trace[|trace| - 1];
      DeliveryIsExact(front, id);
      var s, v := After(front), Expect(front, id);
      match e
      case Subscribe(x) =>
      case Unsubscribe(x) =>
      case Publish(msg) =>
        if v.subscribed {
          PublishMatches(s, v, id, msg);
        }
      case Receive(x) =>
        if x == id && v.pending > 0 {
          ReceiveMatches(s, v, id);
        }
    }
  }

  /** Event j is the first subscription of id, and id has not unsubscribed since. */
  ghost predicate Since(trace: seq<Event>, id: Id, j: nat) {
    && j < |trace| && trace[j] == Subscribe(id)
    && (forall i :: 0 <= i < j ==> trace[i] != Subscribe(id))
    && forall k :: j < k < |trace| ==> trace[k] != Unsubscribe(id)
  }

  lemma SinceStep(front: seq<Event>, e: Event, id: Id)
    ensures (exists j: nat :: Since(front + [e], id, j)) <==>
      if Subscribe(id) !in front then e == Subscribe(id)
      else (exists j: nat :: Since(front, id, j)) && e != Unsubscribe(id)
  {
    var trace := front + [e];
    if j: nat :| Since(trace, id, j) {
      if j < |front| {
        assert front[j] == trace[j];
        assert forall i :: 0 <= i < |front| ==> front[i] == trace[i];
        assert trace[|front|] == e;
        assert Since(front, id, j);
      } else {
        assert forall i :: 0 <= i < |front| ==> front[i] == trace[i];
      }
    }
    if Subscribe(id) !in front && e == Subscribe(id) {
      assert trace[|front|] == e;
      assert Since(trace, id, |front|);
    }
    if j: nat :| Since(front, id, j) && e != Unsubscribe(id) {
      assert trace[j] == front[j];
      assert Since(trace, id, j);
    }
  }

  /** Who is subscribed, told from the events: whoever has subscribed and not unsubscribed since. */
  lemma {:induction false} SubscribedMeans(trace: seq<Event>, id: Id)
    ensures Expect(trace, id).known <==> Subscribe(id) in trace
    ensures Expect(trace, id).subscribed <==> exists j: nat :: Since(trace, id, j)
    ensures id in After(trace).clients <==> exists j: nat :: Since(trace, id, j)
  {
    DeliveryIsExact(trace, id);
    if trace != [] {
      var front, e := trace[..|trace| - 1], trace[|trace| - 1];
      assert trace == front + [e];
      SubscribedMeans(front, id);
      SinceStep(front, e, id);
      DeliveryIsExact(front, id);
    }
  }

  /** The messages offered to a subscriber are those published while it was subscribed, in order. */
  lemma OffersMean(trace: seq<Event>, id: Id, msg: string)
    ensures Expect(trace + [Publish(msg)], id).offers ==
            Expect(trace, id).offers + if exists j: nat :: Since(trace, id, j) then [msg] else []
    ensures forall e: Event :: !e.Publish? ==> Expect(trace + [e], id).offers == Expect(trace, id).offers
  {
    SubscribedMeans(trace, id);
    forall e: Event ensures (trace + [e])[..|trace|] == trace {
    }
  }

  /** a can be read off b from left to right, skipping elements. */
  ghost predicate Subsequence(a: seq<string>, b: seq<string>) {
    if a == [] then true
    else if b == [] then false
    else
      || Subsequence(a, b[..|b| - 1])
      || (a[|a| - 1] == b[|b| - 1] && Subsequence(a[..|a| - 1], b[..|b| - 1]))
  }

  lemma {:induction false} KeptIsSubsequence(offers: seq<string>, taken: seq<bool>)
    requires |offers| == |taken|
    ensures Subsequence(Kept(offers, taken), offers)
    ensures (forall i :: 0 <= i < |taken| ==> taken[i]) ==> Kept(offers, taken) == offers
  {
    if offers != [] {
      var n := |offers| - 1;
      KeptIsSubsequence(offers[..n], taken[..n]);
      var k := Kept(offers, taken);
      if taken[n] {
        assert k[..|k| - 1] == Kept(offers[..n], taken[..n]);
      } else {
        assert k == Kept(offers[..n], taken[..n]);
      }
      assert offers == offers[..n] + [offers[n]];
    }
  }

  /** Nothing is invented, duplicated or reordered, no buffer exceeds four, and a reader that keeps up misses nothing. */
  lemma DeliveryIsOrdered(trace: seq<Event>, id: Id)
    requires id in After(trace).chans
    ensures var c := After(trace).chans[id];
            var v := Expect(trace, id);
            && |c.buf| <= 4
            && Subsequence(c.received + c.buf, v.offers)
            && ((forall i :: 0 <= i < |v.taken| ==> v.taken[i]) ==> c.received + c.buf == v.offers)
  {
    DeliveryIsExact(trace, id);
    KeptIsSubsequence(Expect(trace, id).offers, Expect(trace, id).taken);
  }
}
