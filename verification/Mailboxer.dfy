/** The mailbox, the stream of a server and the poller of a client as objects. */
module MailboxObjects {
  import opened Collections
  import opened Mailboxing

  lemma CloneStep(m: Mail, t: Topic, on: nat, frames: seq<Frame>)
    requires on < |Digs(m, t)|
    ensures var d := Digs(m, t)[on];
      frames + CloneTopic(m, t, on)
        == (if There(m, d) then frames + [Frame(on, t, m.msgs[d])] else frames) + CloneTopic(m, t, on + 1)
  {
    var d := Digs(m, t)[on];
    var rest := CloneTopic(m, t, on + 1);
    if There(m, d) {
      assert CloneTopic(m, t, on) == [Frame(on, t, m.msgs[d])] + rest;
    } else {
      assert CloneTopic(m, t, on) == [] + rest;
    }
  }

  lemma NoneUnique()
    ensures Unique([]) == []
  {
  }

  lemma UniqueStep(wanted: seq<Topic>, i: nat)
    requires i < |wanted|
    ensures var (fore, t) := (wanted[..i], wanted[i]);
      && Unique(wanted[..i + 1]) == (if t in ToSet(fore) then Unique(fore) else Unique(fore) + [t])
      && ToSet(wanted[..i + 1]) == ToSet(fore) + {t}
  {
    assert wanted[..i + 1] == wanted[..i] + [wanted[i]] && wanted[..i + 1][..i] == wanted[..i];
  }

  lemma CloneEnds(m: Mail, t: Topic, on: nat)
    requires on >= |Digs(m, t)|
    ensures CloneTopic(m, t, on) == []
  {
  }

  /** Mailboxer of app/storing.py */
  class Mailboxer {
    var tpcs: map<Topic, seq<Dig>>
    var msgs: map<Dig, Msg>

    function Abs(): Mail
      reads this
    {
      Mail(tpcs, msgs)
    }

    constructor ()
      ensures Abs() == Mail(map[], map[])
    {
      tpcs, msgs := map[], map[];
    }

    method StoreMsg(topic: Topic, msg: Msg)
      modifies this
      ensures Abs() == Mailboxing.StoreMsg(old(Abs()), topic, msg)
    {
      var digb := Dig(msg);
      tpcs := tpcs[topic := Digs(Abs(), topic) + [digb]];
      msgs := msgs[digb := msg];
    }

    method CloneTopicIter(topic: Topic, fn: nat) returns (frames: seq<Frame>)
      ensures frames == CloneTopic(Abs(), topic, fn)
    {
      hide CloneTopic;
      frames := [];
      var digs := Digs(Abs(), topic);
      var on := fn;
      while on < |digs|
        invariant frames + CloneTopic(Abs(), topic, on) == CloneTopic(Abs(), topic, fn)
      {
        CloneStep(Abs(), topic, on, frames);
        if There(Abs(), digs[on]) {
          frames := frames + [Frame(on, topic, msgs[digs[on]])];
        }
        on := on + 1;
      }
      CloneEnds(Abs(), topic, on);
    }

    /** The messages alone. */
    method GetTopicMsgs(topic: Topic, fn: nat) returns (found: seq<Msg>)
      ensures |found| == |CloneTopic(Abs(), topic, fn)|
      ensures forall i | 0 <= i < |found| :: found[i] == CloneTopic(Abs(), topic, fn)[i].msg
    {
      hide CloneTopic;
      found := [];
      var digs := Digs(Abs(), topic);
      ghost var frames := [];
      var on := fn;
      while on < |digs|
        invariant frames + CloneTopic(Abs(), topic, on) == CloneTopic(Abs(), topic, fn)
        invariant |found| == |frames| && forall i | 0 <= i < |found| :: found[i] == frames[i].msg
      {
        CloneStep(Abs(), topic, on, frames);
        if There(Abs(), digs[on]) {
          found := found + [msgs[digs[on]]];
          frames := frames + [Frame(on, topic, msgs[digs[on]])];
        }
        on := on + 1;
      }
      CloneEnds(Abs(), topic, on);
    }
  }

  /** MailboxIterable of app/indirecting.py */
  class MailboxIterable {
    const mbx: Mailboxer
    const names: seq<Topic>
    var topics: map<Topic, nat>

    function Abs(): Server
      reads this
    {
      Server(names, topics)
    }

    constructor (mbx: Mailboxer, names: seq<Topic>, topics: map<Topic, nat>)
      ensures this.mbx == mbx && Abs() == Server(names, topics)
    {
      this.mbx, this.names, this.topics := mbx, names, topics;
    }

    /** Goes through the topics, and through the messages of each from its cursor. */
    method Next() returns (data: seq<Frame>)
      modifies this
      ensures (Abs(), data) == PollTo(mbx.Abs(), old(Abs()), |names|)
    {
      hide CloneTopic;
      data := [];
      for n := 0 to |names|
        invariant (Abs(), data) == PollTo(mbx.Abs(), old(Abs()), n)
      {
        var topic := names[n];
        var start := if topic in topics then topics[topic] else 0;
        var idx := start;
        var sent := mbx.CloneTopicIter(topic, idx);
        ghost var before := data;
        for k := 0 to |sent|
          invariant data == before + sent[..k] && idx == start + k
          modifies {}
        {
          data := data + [sent[k]];
          idx := idx + 1;
        }
        topics := topics[topic := idx];
        assert data == before + sent;
      }
    }
  }

  /** The cursors of Poller in app/indirecting.py */
  class Poller {
    const wanted: seq<Topic>
    var topics: map<Topic, nat>
    var taken: seq<Frame>

    function Abs(): Client
      reads this
    {
      Client(topics, taken)
    }

    constructor (wanted: seq<Topic>)
      ensures this.wanted == wanted && Abs() == Client(map[], [])
    {
      this.wanted := wanted;
      topics, taken := map[], [];
    }

    /** The cursors of a request, topic by topic. */
    method Query() returns (names: seq<Topic>, q: map<Topic, nat>)
      ensures Server(names, q) == Request(Abs(), wanted)
    {
      hide Mailboxing.Next;
      hide Unique;
      NoneUnique();
      names, q := [], map[];
      for i := 0 to |wanted|
        invariant names == Unique(wanted[..i])
        invariant q.Keys == ToSet(wanted[..i])
        invariant forall t | t in q :: q[t] == Mailboxing.Next(Abs(), t)
      {
        var topic := wanted[i];
        UniqueStep(wanted, i);
        if topic !in q { names := names + [topic]; }
        q := q[topic := Mailboxing.Next(Abs(), topic)];
      }
      assert wanted[..|wanted|] == wanted;
    }

    /** Takes the events that have arrived one by one. */
    method Drain(events: seq<Frame>)
      modifies this
      ensures Abs() == TakeAll(old(Abs()), events)
    {
      for i := 0 to |events|
        invariant Abs() == TakeAll(old(Abs()), events[..i])
      {
        assert events[..i + 1][..i] == events[..i];
        var evt := events[i];
        if evt.msg == [] { continue; }
        taken := taken + [evt];
        topics := topics[evt.topic := evt.id];
      }
      assert events[..|events|] == events;
    }
  }

  /** Taking events one after another. */
  function TakeAll(c: Client, events: seq<Frame>): Client {
    if events == [] then c else TakeFrame(TakeAll(c, events[..|events| - 1]), events[|events| - 1])
  }
}
