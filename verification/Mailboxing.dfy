/** app/storing.py and app/indirecting.py: the mailbox of a server, the cursors it
    streams a mailbox by, and the cursors its client resumes by. */
module Mailboxing {

  type Topic = nat
  type Msg = seq<nat>

  /** The digest of a message. */
  datatype Dig = Dig(msg: Msg)

  /** Mailboxer: the digests of each topic in order, and the messages by digest. */
  datatype Mail = Mail(tpcs: map<Topic, seq<Dig>>, msgs: map<Dig, Msg>)

  /** A server sent event. */
  datatype Frame = Frame(id: nat, topic: Topic, msg: Msg)

  function Digs(m: Mail, t: Topic): seq<Dig> { if t in m.tpcs then m.tpcs[t] else [] }

  /** Mailboxer.storeMsg */
  function StoreMsg(m: Mail, t: Topic, msg: Msg): Mail {
    Mail(m.tpcs[t := Digs(m, t) + [Dig(msg)]], m.msgs[Dig(msg) := msg])
  }

  /** The test of cloneTopicIter and getTopicMsgs: the message is there and not empty. */
  predicate There(m: Mail, d: Dig) { d in m.msgs && m.msgs[d] != [] }

  /** Mailboxer.cloneTopicIter */
  function CloneTopic(m: Mail, t: Topic, fn: nat): seq<Frame>
    decreases |Digs(m, t)| - fn
  {
    if fn >= |Digs(m, t)| then [] else
    var d := Digs(m, t)[fn];
    (if There(m, d) then [Frame(fn, t, m.msgs[d])] else []) + CloneTopic(m, t, fn + 1)
  }

  /** MailboxIterable: its topics in order and the cursor of each. */
  datatype Server = Server(names: seq<Topic>, cur: map<Topic, nat>)

  /** MailboxIterable.__next__ over the first n topics: every cursor goes up by the
      number of messages that were sent. */
  function PollTo(m: Mail, srv: Server, n: nat): (Server, seq<Frame>)
    requires n <= |srv.names|
  {
    if n == 0 then (srv, []) else
    var (srv1, data) := PollTo(m, srv, n - 1);
    var t := srv.names[n - 1];
    var sent := CloneTopic(m, t, if t in srv1.cur then srv1.cur[t] else 0);
    (srv1.(cur := srv1.cur[t := (if t in srv1.cur then srv1.cur[t] else 0) + |sent|]), data + sent)
  }

  /** Poller: the last position taken of each topic, and what was taken. */
  datatype Client = Client(topics: map<Topic, nat>, taken: seq<Frame>)

  function Next(c: Client, t: Topic): nat { if t in c.topics then c.topics[t] + 1 else 0 }

  /** The topics of a request, each once. */
  function Unique(wanted: seq<Topic>): (names: seq<Topic>)
    ensures forall t :: t in names <==> t in wanted
    ensures forall i, j | 0 <= i < j < |names| :: names[i] != names[j]
  {
    if wanted == [] then [] else
    var names := Unique(wanted[..|wanted| - 1]);
    var t := wanted[|wanted| - 1];
    assert wanted == wanted[..|wanted| - 1] + [t];
    if t in names then names else names + [t]
  }

  /** A request of the Poller: from the position after the last taken. */
  function Request(c: Client, wanted: seq<Topic>): Server {
    Server(Unique(wanted), map t | t in wanted :: Next(c, t))
  }

  /** The Poller takes one event. */
  function TakeFrame(c: Client, f: Frame): Client {
    if f.msg == [] then c else Client(c.topics[f.topic := f.id], c.taken + [f])
  }

  /** The whole: a mailbox, the stream being served, the events under way and the
      client. */
  datatype Sys = Sys(mail: Mail, srv: Server, pipe: seq<Frame>, client: Client)

  datatype Op = Store(topic: Topic, msg: Msg) | Connect(wanted: seq<Topic>) | Poll | Take

  /** A step of anyone.  A new connection drops what was under way. */
  function Step(s: Sys, op: Op): Sys {
    match op
    case Store(t, msg) => s.(mail := StoreMsg(s.mail, t, msg))
    case Connect(wanted) => s.(srv := Request(s.client, wanted), pipe := [])
    case Poll => var (srv, data) := PollTo(s.mail, s.srv, |s.srv.names|); s.(srv := srv, pipe := s.pipe + data)
    case Take => if s.pipe == [] then s else s.(client := TakeFrame(s.client, s.pipe[0]), pipe := s.pipe[1..])
  }

  const START := Sys(Mail(map[], map[]), Server([], map[]), [], Client(map[], []))

  function Run(ops: seq<Op>): Sys {
    if ops == [] then START else Step(Run(ops[..|ops| - 1]), ops[|ops| - 1])
  }

  /** The messages stored to a topic, in order. */
  function Stored(ops: seq<Op>, t: Topic): seq<Msg> {
    if ops == [] then [] else
    var op := ops[|ops| - 1];
    Stored(ops[..|ops| - 1], t) + if op.Store? && op.topic == t then [op.msg] else []
  }

  /** What the client took of a topic, in order. */
  function Taken(frames: seq<Frame>, t: Topic): seq<Msg> {
    if frames == [] then [] else
    var f := frames[|frames| - 1];
    Taken(frames[..|frames| - 1], t) + if f.topic == t then [f.msg] else []
  }
}
