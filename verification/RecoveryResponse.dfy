/** The waiting response: one client connection that receives heartbeats until a final response
    is forwarded, and the shared counter that limits how many connections wait.  A step is what
    one connection does between two awaits; steps of different connections interleave freely. */
module RecoveryResponse {

  /** One ASGI message: a response start, or a body chunk with its `more_body` flag; heartbeats
      are body chunks that carry only an event-stream comment. */
  datatype Message = Start(status: int) | Heartbeat | Body(more: bool)

  /** A response as ASGI sees it: the messages it sends when called. */
  datatype Reply = Reply(safe: bool, status: int, messages: seq<Message>)

  /** The shape ASGI servers accept: one start, then body chunks of which only the last is
      marked as last. */
  predicate WellFormed(messages: seq<Message>) {
    && |messages| >= 2 && messages[0].Start?
    && (forall i :: 1 <= i < |messages| ==> messages[i] == Body(i + 1 < |messages|))
  }

  const TIMEOUT_REPLY := Reply(false, 503, [Start(503), Body(false)])

  /** Where a connection is in `__call__`.  Sending: the final response is being forwarded, which
      is all that happens to a connection that was not admitted among the waiting ones. */
  datatype Phase = Opening | Greeting | Deciding | Attempting | Sending | Done | Cancelled

  datatype Connection = Connection(
    stream: bool,
    admitted: bool,
    phase: Phase,
    reply: Reply,       // `response`: the first failure, later the response to forward
    deadline: real,
    forwarded: nat,     // messages of the final reply already taken
    heartbeats: nat,
    sent: seq<Message>)

  predicate Ended(c: Connection) { c.phase in {Done, Cancelled} }

  predicate Waiting(c: Connection) { c.admitted && !Ended(c) }

  /** The connection announces its stream and keeps it alive while it waits. */
  predicate KeptAlive(c: Connection) { c.stream && c.admitted }

  /** What the final reply makes this connection send: one that is kept alive sent the start
      before, and gets an error as one event frame. */
  function FinalMessages(c: Connection): seq<Message> {
    if KeptAlive(c) && c.reply.status >= 400 then [Body(false)] else c.reply.messages
  }

  predicate Dropped(c: Connection, m: Message) { KeptAlive(c) && m.Start? }

  function Beats(n: nat): seq<Message> { seq(n, _ => Heartbeat) }

  /** The body chunks among the first `n` messages of the final reply of a connection that is kept
      alive. */
  function BodiesSent(c: Connection, n: nat): seq<Message>
    requires n <= |FinalMessages(c)|
  {
    if c.reply.status >= 400 then FinalMessages(c)[..n] else if n == 0 then [] else FinalMessages(c)[1..n]
  }

  /** What a connection has sent: when kept alive one start, then heartbeats, then the bodies of
      the final reply; otherwise the beginning of the final reply alone. */
  function Expected(c: Connection): seq<Message>
    requires c.forwarded <= |FinalMessages(c)|
  {
    if !KeptAlive(c) then c.reply.messages[..c.forwarded]
    else if c.phase == Opening then []
    else [Start(200)] + Beats(c.heartbeats) + BodiesSent(c, c.forwarded)
  }

  ghost predicate ConnectionValid(c: Connection) {
    && WellFormed(c.reply.messages)
    && c.forwarded <= |FinalMessages(c)|
    && (c.sent == Expected(c) || (c.phase == Cancelled && c.sent == []))
    && (c.phase in {Opening, Greeting, Deciding, Attempting} ==> c.forwarded == 0)
    && (c.phase in {Opening, Greeting} ==> c.stream && c.heartbeats == 0)
    && (!c.admitted ==> c.phase in {Sending, Done, Cancelled})
    && (c.phase == Sending ==> c.forwarded < |FinalMessages(c)|)
    && (c.phase == Done ==> c.forwarded == |FinalMessages(c)|)
  }

  function WaitingIds(connections: map<nat, Connection>): set<nat> {
    set id | id in connections && Waiting(connections[id])
  }

  /** A new connection: it only gets the first response when too many are waiting. */
  function Arrived(stream: bool, first: Reply, deadline: real, full: bool): (c: Connection)
    requires WellFormed(first.messages)
    ensures ConnectionValid(c) && (Waiting(c) <==> !full)
  {
    var phase := if full then Sending else if stream then Opening else Deciding;
    Connection(stream, !full, phase, first, deadline, 0, 0, [])
  }

  lemma EnterIds(connections: map<nat, Connection>, id: nat, c: Connection)
    requires id !in connections
    ensures WaitingIds(connections[id := c]) == WaitingIds(connections) + (if Waiting(c) then {id} else {})
    ensures |WaitingIds(connections[id := c])| == |WaitingIds(connections)| + (if Waiting(c) then 1 else 0)
  {
    assert WaitingIds(connections[id := c]) == WaitingIds(connections) + (if Waiting(c) then {id} else {});
  }

  function Beaten(c: Connection): Connection {
    c.(phase := if c.phase == Greeting then Deciding else c.phase,
       heartbeats := c.heartbeats + 1,
       sent := c.sent + [Heartbeat])
  }

  /** The next message of the final response is taken; the last one ends the connection. */
  function Forwarded(c: Connection): Connection
    requires c.forwarded < |FinalMessages(c)|
  {
    var m := FinalMessages(c)[c.forwarded];
    c.(forwarded := c.forwarded + 1,
       sent := if Dropped(c, m) then c.sent else c.sent + [m],
       phase := if c.forwarded + 1 == |FinalMessages(c)| then Done else Sending)
  }

  class CapacityRecovery {
    const maxWaiting: nat
    var waiting: nat
    var connections: map<nat, Connection>

    ghost predicate Valid()
      reads this
    {
      && waiting == |WaitingIds(connections)| <= maxWaiting
      && forall id :: id in connections ==> ConnectionValid(connections[id])
    }

    constructor (maxWaiting: nat)
      ensures Valid() && connections == map[] && this.maxWaiting == maxWaiting
    {
      this.maxWaiting := maxWaiting;
      waiting, connections := 0, map[];
      new;
      assert WaitingIds(map[]) == {};
    }

    /** A connection whose first response may be recovered arrives. */
    method Enter(id: nat, stream: bool, first: Reply, deadline: real)
      requires Valid() && id !in connections && WellFormed(first.messages)
      modifies this
      ensures Valid()
      ensures connections == old(connections)[id := Arrived(stream, first, deadline, old(waiting) >= maxWaiting)]
      ensures waiting == old(waiting) + (if old(waiting) >= maxWaiting then 0 else 1)
    {
      var c := Arrived(stream, first, deadline, waiting >= maxWaiting);
      EnterIds(connections, id, c);
      if waiting < maxWaiting {
        waiting := waiting + 1;
      }
      connections := connections[id := c];
    }

    /** Replaces the state of a connection that goes on waiting, or was never waiting. */
    method Update(id: nat, c: Connection)
      requires Valid() && id in connections && ConnectionValid(c) && (Waiting(connections[id]) <==> Waiting(c))
      modifies this`connections
      ensures Valid() && connections == old(connections)[id := c]
    {
      assert WaitingIds(connections[id := c]) == WaitingIds(connections);
      connections := connections[id := c];
    }

    /** The `finally` block: the connection stops waiting, whatever ended it. */
    method Leave(id: nat, c: Connection)
      requires Valid() && id in connections && Waiting(connections[id]) && !Waiting(c) && ConnectionValid(c)
      modifies this
      ensures Valid() && connections == old(connections)[id := c] && waiting == old(waiting) - 1
    {
      assert WaitingIds(connections[id := c]) == WaitingIds(connections) - {id};
      assert id in WaitingIds(connections);
      connections := connections[id := c];
      waiting := waiting - 1;
    }

    method SendStart(id: nat)
      requires Valid() && id in connections && connections[id].phase == Opening && connections[id].stream
      modifies this`connections
      ensures Valid()
      ensures connections == old(connections)[id := old(connections)[id].(phase := Greeting, sent := [Start(200)])]
    {
      assert [Start(200)] + Beats(0) + [] == [Start(200)];
      Update(id, connections[id].(phase := Greeting, sent := [Start(200)]));
    }

    /** The heartbeat that follows the start, or one sent while an attempt is running. */
    method SendHeartbeat(id: nat)
      requires Valid() && id in connections && connections[id].stream && connections[id].phase in {Greeting, Attempting}
      modifies this`connections
      ensures Valid()
      ensures connections == old(connections)[id := Beaten(old(connections)[id])]
    {
      HeartbeatKeeps(connections[id]);
      Update(id, Beaten(connections[id]));
    }

    /** The head of the waiting loop. */
    method Decide(id: nat, automatic: bool, now: real)
      requires Valid() && id in connections && connections[id].phase == Deciding
      modifies this`connections
      ensures Valid()
      ensures var c := old(connections)[id];
              connections == old(connections)[id :=
                if !c.reply.safe || !automatic then c.(phase := Sending, forwarded := 0)
                else if now >= c.deadline then
                  c.(phase := Sending, forwarded := 0, reply := Reply(false, 503, [Start(503), Body(false)]))
                else c.(phase := Attempting)]
    {
      var c := connections[id];
      if !c.reply.safe || !automatic {
        Update(id, c.(phase := Sending, forwarded := 0));
      } else if now >= c.deadline {
        Update(id, c.(phase := Sending, forwarded := 0, reply := TIMEOUT_REPLY));
      } else {
        Update(id, c.(phase := Attempting));
      }
    }

    /** A running attempt ends with a response, or the deadline passes first. */
    method EndAttempt(id: nat, result: Reply, now: real, finished: bool)
      requires Valid() && id in connections && connections[id].phase == Attempting
      requires WellFormed(result.messages) && (finished || now >= connections[id].deadline)
      modifies this`connections
      ensures Valid()
      ensures var c := old(connections)[id];
              connections == old(connections)[id :=
                if finished then c.(phase := Deciding, reply := result)
                else c.(phase := Sending, forwarded := 0, reply := Reply(false, 503, [Start(503), Body(false)]))]
    {
      var c := connections[id];
      if finished {
        Update(id, c.(phase := Deciding, reply := result));
      } else {
        Update(id, c.(phase := Sending, forwarded := 0, reply := TIMEOUT_REPLY));
      }
    }

    /** Forwards the next message of the final response, whether or not the connection waited. */
    method Forward(id: nat)
      requires Valid() && id in connections && connections[id].phase == Sending
      modifies this
      ensures Valid() && connections == old(connections)[id := Forwarded(old(connections)[id])]
      ensures waiting == old(waiting) - (if connections[id].admitted && connections[id].phase == Done then 1 else 0)
    {
      var c := connections[id];
      ForwardKeeps(c);
      var next := Forwarded(c);
      if next.phase == Done && c.admitted {
        Leave(id, next);
      } else {
        Update(id, next);
      }
    }

    /** Cancellation, or an exception while sending, at any await of a connection. */
    method Cancel(id: nat)
      requires Valid() && id in connections && !Ended(connections[id])
      modifies this
      ensures Valid() && waiting == old(waiting) - (if old(connections)[id].admitted then 1 else 0)
      ensures connections == old(connections)[id := old(connections)[id].(phase := Cancelled)]
    {
      if connections[id].admitted {
        Leave(id, connections[id].(phase := Cancelled));
      } else {
        Update(id, connections[id].(phase := Cancelled));
      }
    }
  }

  lemma HeartbeatKeeps(c: Connection)
    requires ConnectionValid(c) && c.stream && c.phase in {Greeting, Attempting}
    ensures ConnectionValid(Beaten(c)) && Waiting(Beaten(c))
  {
    assert Beats(c.heartbeats + 1) == Beats(c.heartbeats) + [Heartbeat];
    assert BodiesSent(c, 0) == [];
  }

  lemma ForwardKeeps(c: Connection)
    requires ConnectionValid(c) && c.phase == Sending
    ensures ConnectionValid(Forwarded(c)) && Forwarded(c).phase in {Sending, Done}
  {
    var n := c.forwarded;
    var m := FinalMessages(c)[n];
    assert FinalMessages(c)[..n + 1] == FinalMessages(c)[..n] + [m];
    if KeptAlive(c) {
      BodiesGrow(c, n);
    }
  }

  lemma BodiesGrow(c: Connection, n: nat)
    requires n < |FinalMessages(c)| && WellFormed(c.reply.messages) && KeptAlive(c) && c.phase == Sending
    ensures var m := FinalMessages(c)[n];
            BodiesSent(c, n + 1) == BodiesSent(c, n) + if Dropped(c, m) then [] else [m]
  {
  }

  /** What a connection that ended normally has sent in all: in stream mode a start of its own, the
      heartbeats and then the bodies of the final reply, or one error frame for an error; otherwise
      the final reply, message for message. */
  lemma WholeResponse(c: Connection)
    requires ConnectionValid(c) && c.phase == Done
    ensures c.sent ==
            if !c.stream || !c.admitted then c.reply.messages
            else [Start(200)] + seq(c.heartbeats, _ => Heartbeat) +
                 (if c.reply.status >= 400 then [Body(false)] else c.reply.messages[1..])
  {
    assert c.reply.messages[..|c.reply.messages|] == c.reply.messages;
    assert c.reply.messages[1..|c.reply.messages|] == c.reply.messages[1..];
    assert [Body(false)][..1] == [Body(false)];
    assert Beats(c.heartbeats) == seq(c.heartbeats, _ => Heartbeat);
  }

  /** In every phase, for every interleaving: at most one response start, and nothing before it;
      heartbeats only in stream mode and before any body of the final response; a connection that
      ended normally has sent one start and closed the body exactly once, at the end; and one that
      was not admitted, at any moment, the beginning of the first response. */
  lemma ResponseShape(c: Connection)
    requires ConnectionValid(c)
    ensures c.sent != [] ==> c.sent[0].Start?
    ensures forall i :: 0 < i < |c.sent| ==> !c.sent[i].Start?
    ensures forall i, j :: 0 <= j < i < |c.sent| && c.sent[i] == Heartbeat ==> KeptAlive(c) && !c.sent[j].Body?
    ensures forall i :: 0 <= i < |c.sent| && c.sent[i] == Body(false) ==> i == |c.sent| - 1
    ensures c.phase == Done ==> |c.sent| >= 2 && c.sent[|c.sent| - 1] == Body(false)
    ensures !c.admitted ==> c.sent <= c.reply.messages && (c.phase == Done ==> c.sent == c.reply.messages)
  {
    if c.sent != [] && KeptAlive(c) {
      var bodies := BodiesSent(c, c.forwarded);
      var head := 1 + c.heartbeats;
      assert forall i :: 0 <= i < |bodies| ==> bodies[i].Body?;
      assert forall i :: 0 <= i < |bodies| && bodies[i] == Body(false) ==> i == |bodies| - 1;
      assert forall i :: 1 <= i < |c.sent| ==> c.sent[i] == if i < head then Heartbeat else bodies[i - head];
    }
  }
}
