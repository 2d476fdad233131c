/** `NixlAgent.read_message`: one socket shared by all senders, one queue per sender. */
module NixlAgent {
  import opened Wrappers

  /** The queues, and the messages the socket is going to deliver, in arrival order. */
  datatype Mail<M> = Mail(queues: map<string, seq<M>>, socket: seq<(string, M)>)

  function Queue<M>(queues: map<string, seq<M>>, agent: string): seq<M> {
    if agent in queues then queues[agent] else []
  }

  /** The messages of one sender, in arrival order. */
  function From<M>(socket: seq<(string, M)>, agent: string): seq<M> {
    if socket == [] then []
    else (if socket[0].0 == agent then [socket[0].1] else []) + From(socket[1..], agent)
  }

  /** What a sender's readers can still get: its queue, then its later arrivals. */
  function Pending<M>(m: Mail<M>, agent: string): seq<M> {
    Queue(m.queues, agent) + From(m.socket, agent)
  }

  /** `self.messages[sender].append(message)` for the next arrival. */
  function Receive<M>(m: Mail<M>): Mail<M>
    requires m.socket != []
  {
    var (sender, message) := m.socket[0];
    Mail(m.queues[sender := Queue(m.queues, sender) + [message]], m.socket[1..])
  }

  /** Reading a message from one sender; None if it never comes. */
  function Read<M>(m: Mail<M>, agent: string): (Mail<M>, Option<M>)
    decreases |m.socket|
  {
    var q := Queue(m.queues, agent);
    if q != [] then (m.(queues := m.queues[agent := q[1..]]), Some(q[0]))
    else if m.socket == [] then (m, None)
    else Read(Receive(m), agent)
  }

  class Agent<M> {
    var messages: map<string, seq<M>>
    var socket: seq<(string, M)>

    constructor (socket: seq<(string, M)>)
      ensures messages == map[] && this.socket == socket
    {
      this.messages, this.socket := map[], socket;
    }

    method ReadMessage(agent: string) returns (message: Option<M>)
      modifies this
      ensures (Mail(messages, socket), message) == Read(old(Mail(messages, socket)), agent)
    {
      while Queue(messages, agent) == []
        invariant Read(Mail(messages, socket), agent) == Read(old(Mail(messages, socket)), agent)
        decreases |socket|
      {
        if socket == [] {
          return None;
        }
        var (sender, received) := socket[0];
        messages := messages[sender := Queue(messages, sender) + [received]];
        socket := socket[1..];
      }
      var q := messages[agent];
      messages := messages[agent := q[1..]];
      message := Some(q[0]);
    }
  }

  /** The messages a sequence of `read_message` calls returns for one sender. */
  function Returned<M>(m: Mail<M>, calls: seq<string>, agent: string): seq<M>
    decreases |calls|
  {
    if calls == [] then []
    else
      var (m', got) := Read(m, calls[0]);
      (if calls[0] == agent && got.Some? then [got.value] else []) + Returned(m', calls[1..], agent)
  }

  function After<M>(m: Mail<M>, calls: seq<string>): Mail<M>
    decreases |calls|
  {
    if calls == [] then m else After(Read(m, calls[0]).0, calls[1..])
  }

  lemma ReceiveKeepsPending<M>(m: Mail<M>, agent: string)
    requires m.socket != []
    ensures Pending(Receive(m), agent) == Pending(m, agent)
  {
    if m.socket[0].0 == agent {
      var q := Queue(m.queues, agent);
      assert q + [m.socket[0].1] + From(m.socket[1..], agent) == q + ([m.socket[0].1] + From(m.socket[1..], agent));
    }
  }

  /** One read takes exactly the first pending message of its sender and nothing of the others,
      and blocks only if that sender never sends again. */
  lemma {:induction false} ReadTakesFirst<M>(m: Mail<M>, agent: string, other: string)
    ensures var (m', got) := Read(m, agent);
            && Pending(m, other) == (if other == agent && got.Some? then [got.value] else []) + Pending(m', other)
            && (got.None? <==> Pending(m, agent) == [])
    decreases |m.socket|
  {
    var q := Queue(m.queues, agent);
    if q != [] {
      if other == agent {
        assert q == [q[0]] + q[1..];
        assert Pending(m, agent) == [q[0]] + (q[1..] + From(m.socket, agent));
      }
    } else if m.socket != [] {
      ReceiveKeepsPending(m, other);
      ReceiveKeepsPending(m, agent);
      ReadTakesFirst(Receive(m), agent, other);
    }
  }

  /** For any arrival order and any calls, what was returned for a sender followed by what is still
      pending for it is what it sent, in order. */
  lemma {:induction false} NothingLostOrCrossed<M>(m: Mail<M>, calls: seq<string>, agent: string)
    ensures Returned(m, calls, agent) + Pending(After(m, calls), agent) == Pending(m, agent)
    decreases |calls|
  {
    if calls != [] {
      var (m', got) := Read(m, calls[0]);
      ReadTakesFirst(m, calls[0], agent);
      NothingLostOrCrossed(m', calls[1..], agent);
      var first := if calls[0] == agent && got.Some? then [got.value] else [];
      assert first + (Returned(m', calls[1..], agent) + Pending(After(m', calls[1..]), agent))
          == first + Returned(m', calls[1..], agent) + Pending(After(m', calls[1..]), agent);
    }
  }
}
