/** What delivery of a mailbox promises, over any order of stores, polls, reads and
    reconnections: a client has taken a prefix of each topic, without gaps or
    repeats. */
module MailboxingLaws {
  import opened Mailboxing

  /** The messages of a topic. */
  function Texts(m: Mail, t: Topic): (r: seq<Msg>)
    ensures |r| == |Digs(m, t)|
  {
    seq(|Digs(m, t)|, i requires 0 <= i < |Digs(m, t)| => Digs(m, t)[i].msg)
  }

  /** Every message of the mailbox is there and not empty. */
  ghost predicate Whole(m: Mail) {
    forall t, i | 0 <= i < |Digs(m, t)| :: There(m, Digs(m, t)[i]) && m.msgs[Digs(m, t)[i]] == Digs(m, t)[i].msg
  }

  /** The events for positions i to j of a topic. */
  function Frames(t: Topic, log: seq<Msg>, i: nat, j: nat): (r: seq<Frame>)
    requires i <= j <= |log|
    ensures |r| == j - i
  {
    seq(j - i, k requires 0 <= k < j - i => Frame(i + k, t, log[i + k]))
  }

  /** The events of one topic among those under way. */
  function Of(frames: seq<Frame>, t: Topic): seq<Frame> {
    if frames == [] then [] else
    var f := frames[|frames| - 1];
    Of(frames[..|frames| - 1], t) + if f.topic == t then [f] else []
  }

  lemma OfLast(frames: seq<Frame>, t: Topic)
    requires frames != []
    ensures var n := |frames| - 1;
      Of(frames, t) == Of(frames[..n], t) + if frames[n].topic == t then [frames[n]] else []
  {
  }

  lemma {:induction false} OfJoin(a: seq<Frame>, b: seq<Frame>, t: Topic)
    ensures Of(a + b, t) == Of(a, t) + Of(b, t)
  {
    if b == [] {
      assert a + b == a;
    } else {
      OfJoin(a, b[..|b| - 1], t);
      OfLast(b, t);
      OfLast(a + b, t);
      hide Of;
      assert (a + b)[..|a + b| - 1] == a + b[..|b| - 1];
    }
  }

  lemma {:induction false} OfFrames(t: Topic, log: seq<Msg>, i: nat, j: nat, t': Topic)
    requires i <= j <= |log|
    ensures Of(Frames(t, log, i, j), t') == if t == t' then Frames(t, log, i, j) else []
  {
    if i >= j {
    } else {
      OfFrames(t, log, i, j - 1, t');
      assert Frames(t, log, i, j)[..j - i - 1] == Frames(t, log, i, j - 1);
      assert Frames(t, log, i, j) == Frames(t, log, i, j - 1) + [Frame(j - 1, t, log[j - 1])];
    }
  }

  /** A whole mailbox sends every message from a position on. */
  lemma {:induction false} CloneIs(m: Mail, t: Topic, fn: nat)
    requires Whole(m) && fn <= |Digs(m, t)|
    ensures CloneTopic(m, t, fn) == Frames(t, Texts(m, t), fn, |Texts(m, t)|)
    decreases |Digs(m, t)| - fn
  {
    var log := Texts(m, t);
    if fn >= |log| {
    } else {
      CloneIs(m, t, fn + 1);
      assert Digs(m, t)[fn].msg == log[fn];
      assert Frames(t, log, fn, |log|) == [Frame(fn, t, log[fn])] + Frames(t, log, fn + 1, |log|);
    }
  }

  /** Each topic of the request has a cursor and comes once. */
  ghost predicate Fit(srv: Server) {
    && (forall i, j | 0 <= i < j < |srv.names| :: srv.names[i] != srv.names[j])
    && (forall t | t in srv.names :: t in srv.cur)
  }

  lemma OfNone(t: Topic)
    ensures Of([], t) == []
  {
  }

  /** The events of a topic from its cursor to its end. */
  function Due(m: Mail, t: Topic, from: nat): seq<Frame>
    requires from <= |Digs(m, t)|
  {
    Frames(t, Texts(m, t), from, |Texts(m, t)|)
  }

  /** What a poll has done to topic t after n topics. */
  ghost predicate Polled(m: Mail, srv: Server, n: nat, t: Topic)
    requires n <= |srv.names| && (t in srv.names ==> t in srv.cur && srv.cur[t] <= |Digs(m, t)|)
  {
    var (srv', data) := PollTo(m, srv, n);
    && srv'.names == srv.names && srv'.cur.Keys == srv.cur.Keys
    && if t in srv.names[..n] then srv'.cur[t] == |Digs(m, t)| && Of(data, t) == Due(m, t, srv.cur[t])
       else Of(data, t) == [] && (t in srv.cur ==> srv'.cur[t] == srv.cur[t])
  }

  lemma PollNone(m: Mail, srv: Server, t: Topic)
    requires t in srv.names ==> t in srv.cur && srv.cur[t] <= |Digs(m, t)|
    ensures Polled(m, srv, 0, t)
  {
    hide Texts;
    hide Frames;
    OfNone(t);
  }

  lemma PollLast(m: Mail, srv: Server, n: nat, u: Topic)
    requires Whole(m) && 0 < n <= |srv.names| && u == srv.names[n - 1]
    requires var srv1 := PollTo(m, srv, n - 1).0;
      srv1.names == srv.names && u in srv1.cur && u in srv.cur && srv1.cur[u] == srv.cur[u] <= |Digs(m, u)|
    ensures var (srv1, data) := PollTo(m, srv, n - 1);
      PollTo(m, srv, n) == (srv1.(cur := srv1.cur[u := |Digs(m, u)|]), data + Due(m, u, srv.cur[u]))
  {
    hide Whole;
    hide CloneTopic;
    hide Texts;
    hide Frames;
    CloneIs(m, u, srv.cur[u]);
  }

  lemma PollStep(m: Mail, srv: Server, n: nat, t: Topic, u: Topic)
    requires Whole(m) && Fit(srv) && 0 < n <= |srv.names| && u == srv.names[n - 1]
    requires forall x | x in srv.names :: srv.cur[x] <= |Digs(m, x)|
    requires Polled(m, srv, n - 1, t) && Polled(m, srv, n - 1, u)
    ensures Polled(m, srv, n, t)
  {
    hide Whole;
    hide Texts;
    hide Of;
    hide Frames;
    hide PollTo;
    assert srv.names[..n] == srv.names[..n - 1] + [u];
    assert u !in srv.names[..n - 1];
    PollLast(m, srv, n, u);
    hide Fit;
    OfJoin(PollTo(m, srv, n - 1).1, Due(m, u, srv.cur[u]), t);
    OfFrames(u, Texts(m, u), srv.cur[u], |Texts(m, u)|, t);
  }

  /** A poll sends each topic asked for from its cursor to its end. */
  lemma {:induction false} PollIs(m: Mail, srv: Server, n: nat, t: Topic)
    requires Whole(m) && Fit(srv) && n <= |srv.names|
    requires forall u | u in srv.names :: srv.cur[u] <= |Digs(m, u)|
    ensures Polled(m, srv, n, t)
  {
    hide Whole;
    hide Polled;
    hide PollTo;
    hide Texts;
    hide Frames;
    if n == 0 {
      PollNone(m, srv, t);
    } else {
      PollIs(m, srv, n - 1, t);
      PollIs(m, srv, n - 1, srv.names[n - 1]);
      PollStep(m, srv, n, t, srv.names[n - 1]);
    }
  }

  /** The client has taken the messages before its next position, the events under
      way are those from there on, and the server's cursor is where they end. */
  ghost predicate Synced(s: Sys, t: Topic) {
    var log, n, way := Texts(s.mail, t), Next(s.client, t), Of(s.pipe, t);
    && n + |way| <= |log|
    && Taken(s.client.taken, t) == log[..n]
    && way == Frames(t, log, n, n + |way|)
    && (t in s.srv.names ==> t in s.srv.cur && s.srv.cur[t] == n + |way|)
    && (t !in s.srv.names ==> way == [])
  }

  ghost predicate InSync(s: Sys) {
    Whole(s.mail) && Fit(s.srv) && forall t: Topic :: Synced(s, t)
  }

  lemma SyncAt(s: Sys, t: Topic)
    requires InSync(s)
    ensures Synced(s, t)
  {
  }

  lemma StoreWhole(m: Mail, t: Topic, msg: Msg)
    requires Whole(m) && msg != []
    ensures Whole(StoreMsg(m, t, msg))
  {
    var m' := StoreMsg(m, t, msg);
    forall u, i | 0 <= i < |Digs(m', u)|
      ensures There(m', Digs(m', u)[i]) && m'.msgs[Digs(m', u)[i]] == Digs(m', u)[i].msg
    {
      if u == t && i == |Digs(m, t)| {
      } else {
        assert There(m, Digs(m, u)[i]);
      }
    }
  }

  lemma StoreSync(s: Sys, t: Topic, msg: Msg)
    requires InSync(s) && msg != []
    ensures InSync(Step(s, Store(t, msg)))
  {
    hide Of;
    hide Taken;
    hide Texts;
    hide Whole;
    StoreWhole(s.mail, t, msg);
    forall u: Topic ensures Synced(Step(s, Store(t, msg)), u) {
      assert Synced(s, u);
      StoreTexts(s.mail, t, msg, u);
    }
  }

  lemma ConnectSync(s: Sys, wanted: seq<Topic>)
    requires InSync(s)
    ensures InSync(Step(s, Connect(wanted)))
  {
    hide Whole;
    hide Taken;
    hide Texts;
    forall u: Topic ensures Synced(Step(s, Connect(wanted)), u) {
      assert Synced(s, u);
    }
  }

  lemma PollSync(s: Sys)
    requires InSync(s)
    ensures InSync(Step(s, Poll))
  {
    hide Whole;
    hide Taken;
    hide Of;
    hide PollTo;
    var n := |s.srv.names|;
    var (srv', data) := PollTo(s.mail, s.srv, n);
    assert s.srv.names[..n] == s.srv.names;
    forall u | u in s.srv.names ensures s.srv.cur[u] <= |Digs(s.mail, u)| {
      assert Synced(s, u);
    }
    PollIs(s.mail, s.srv, n, 0);
    forall u: Topic ensures Synced(Step(s, Poll), u) {
      assert Synced(s, u);
      PollIs(s.mail, s.srv, n, u);
      OfJoin(s.pipe, data, u);
      if u in s.srv.names {
        var log, k := Texts(s.mail, u), Next(s.client, u);
        assert Frames(u, log, k, |log|) == Frames(u, log, k, s.srv.cur[u]) + Frames(u, log, s.srv.cur[u], |log|);
      }
    }
  }

  lemma NotEmpty(m: Mail, t: Topic, i: nat)
    requires Whole(m) && i < |Texts(m, t)|
    ensures Texts(m, t)[i] != []
  {
    assert There(m, Digs(m, t)[i]);
  }

  lemma OfCons(f: Frame, rest: seq<Frame>, t: Topic)
    ensures Of([f] + rest, t) == (if f.topic == t then [f] else []) + Of(rest, t)
  {
    OfJoin([f], rest, t);
    assert [f][..0] == [];
  }

  /** The first event under way is the next message of its topic. */
  lemma FirstIsNext(s: Sys)
    requires InSync(s) && s.pipe != []
    ensures var f := s.pipe[0]; var log, n := Texts(s.mail, f.topic), Next(s.client, f.topic);
      n < |log| && f == Frame(n, f.topic, log[n]) && f.msg != []
  {
    hide Whole;
    hide Of;
    hide Texts;
    var f := s.pipe[0];
    assert s.pipe == [f] + s.pipe[1..];
    assert Synced(s, f.topic);
    OfCons(f, s.pipe[1..], f.topic);
    assert f == Of(s.pipe, f.topic)[0];
    NotEmpty(s.mail, f.topic, Next(s.client, f.topic));
  }

  lemma TakenSnoc(frames: seq<Frame>, f: Frame, t: Topic)
    ensures Taken(frames + [f], t) == Taken(frames, t) + if f.topic == t then [f.msg] else []
  {
    assert (frames + [f])[..|frames|] == frames;
  }

  /** What a client that takes the first event under way comes to. */
  lemma TakeIs(s: Sys, u: Topic)
    requires s.pipe != [] && s.pipe[0].msg != []
    ensures var f, s' := s.pipe[0], Step(s, Take);
      && s'.mail == s.mail && s'.srv == s.srv
      && Next(s'.client, u) == (if f.topic == u then f.id + 1 else Next(s.client, u))
      && Taken(s'.client.taken, u) == Taken(s.client.taken, u) + (if f.topic == u then [f.msg] else [])
      && Of(s.pipe, u) == (if f.topic == u then [f] else []) + Of(s'.pipe, u)
  {
    hide Taken;
    hide Of;
    var f := s.pipe[0];
    TakenSnoc(s.client.taken, f, u);
    OfCons(f, s.pipe[1..], u);
    assert s.pipe == [f] + s.pipe[1..];
  }

  lemma TakeTopicSync(s: Sys, u: Topic)
    requires InSync(s) && s.pipe != []
    ensures Synced(Step(s, Take), u)
  {
    hide Of;
    hide Texts;
    hide InSync;
    hide Taken;
    hide Step;
    hide Next;
    FirstIsNext(s);
    SyncAt(s, u);
    TakeIs(s, u);
    var f, rest := s.pipe[0], Of(Step(s, Take).pipe, u);
    var log, n := Texts(s.mail, u), Next(s.client, u);
    if f.topic == u {
      TailOfFrames(u, log, n, n + |Of(s.pipe, u)|, rest);
      hide Frames;
      assert log[..n + 1] == log[..n] + [log[n]];
    } else {
      hide Frames;
      assert [] + rest == rest && Taken(s.client.taken, u) + [] == Taken(s.client.taken, u);
    }
  }

  lemma TailOfFrames(t: Topic, log: seq<Msg>, i: nat, j: nat, way: seq<Frame>)
    requires i < j <= |log| && [Frames(t, log, i, j)[0]] + way == Frames(t, log, i, j)
    ensures way == Frames(t, log, i + 1, j)
  {
    assert way == Frames(t, log, i, j)[1..];
  }

  lemma TakeSync(s: Sys)
    requires InSync(s)
    ensures InSync(Step(s, Take))
  {
    hide Synced;
    if s.pipe != [] {
      forall u: Topic ensures Synced(Step(s, Take), u) {
        TakeTopicSync(s, u);
      }
    }
  }

  predicate NoEmpty(ops: seq<Op>) {
    forall i | 0 <= i < |ops| && ops[i].Store? :: ops[i].msg != []
  }

  lemma StartSync()
    ensures InSync(START)
  {
  }

  lemma {:induction false} RunSync(ops: seq<Op>)
    requires NoEmpty(ops)
    ensures InSync(Run(ops)) && forall t: Topic :: Texts(Run(ops).mail, t) == Stored(ops, t)
  {
    hide InSync;
    hide Texts;
    if ops == [] {
      StartSync();
      forall t: Topic ensures Texts(START.mail, t) == [] { }
    } else {
      var op, s := ops[|ops| - 1], Run(ops[..|ops| - 1]);
      RunSync(ops[..|ops| - 1]);
      match op
      case Store(t, msg) =>
        StoreSync(s, t, msg);
        forall u: Topic ensures Texts(Step(s, op).mail, u) == Texts(s.mail, u) + if u == t then [msg] else [] {
          StoreTexts(s.mail, t, msg, u);
        }
      case Connect(wanted) => ConnectSync(s, wanted);
      case Poll => PollSync(s);
      case Take => TakeSync(s);
    }
  }

  lemma StoreTexts(m: Mail, t: Topic, msg: Msg, u: Topic)
    ensures Texts(StoreMsg(m, t, msg), u) == Texts(m, u) + if u == t then [msg] else []
  {
  }

  /** At every point of every run the client has taken a prefix of what was stored to
      each topic: in order, without a gap or a repeat. */
  lemma TakenIsPrefix(ops: seq<Op>, t: Topic)
    requires NoEmpty(ops)
    ensures Taken(Run(ops).client.taken, t) <= Stored(ops, t)
  {
    RunSync(ops);
    assert Synced(Run(ops), t);
  }

  /** A number of reads. */
  function Takes(k: nat): (ops: seq<Op>)
    ensures |ops| == k && forall i | 0 <= i < k :: ops[i] == Take
  {
    seq(k, i => Take)
  }

  lemma {:induction false} TakesDrain(ops: seq<Op>, k: nat)
    requires NoEmpty(ops)
    ensures var s, s' := Run(ops), Run(ops + Takes(k));
      s'.mail == s.mail && s'.srv == s.srv && s'.pipe == if k < |s.pipe| then s.pipe[k..] else []
  {
    hide TakeFrame;
    if k == 0 {
      assert ops + Takes(0) == ops;
    } else {
      TakesDrain(ops, k - 1);
      assert (ops + Takes(k))[..|ops + Takes(k)| - 1] == ops + Takes(k - 1);
      assert (ops + Takes(k))[|ops + Takes(k)| - 1] == Take;
    }
  }

  /** It has taken all of a topic it asked for once a poll has been read to its end. */
  lemma ReadToTheEnd(ops: seq<Op>, k: nat, t: Topic)
    requires NoEmpty(ops) && t in Run(ops).srv.names && k >= |Run(ops + [Poll]).pipe|
    ensures Taken(Run(ops + [Poll] + Takes(k)).client.taken, t) == Stored(ops, t)
  {
    hide InSync;
    hide Texts;
    var s := Run(ops);
    var s1 := Run(ops + [Poll]);
    var s2 := Run(ops + [Poll] + Takes(k));
    assert (ops + [Poll])[..|ops|] == ops && s1 == Step(s, Poll);
    TakesDrain(ops + [Poll], k);
    RunSync(ops);
    RunSync(ops + [Poll]);
    RunSync(ops + [Poll] + Takes(k));
    SyncAt(s2, t);
    PollEnds(s, t);
  }

  lemma PollEnds(s: Sys, t: Topic)
    requires InSync(s) && t in s.srv.names
    ensures var s' := Step(s, Poll); t in s'.srv.names && t in s'.srv.cur && s'.srv.cur[t] == |Texts(s.mail, t)|
  {
    hide Of;
    hide Texts;
    hide PollTo;
    forall u | u in s.srv.names ensures s.srv.cur[u] <= |Digs(s.mail, u)| {
      SyncAt(s, u);
    }
    PollIs(s.mail, s.srv, |s.srv.names|, t);
    assert s.srv.names[..|s.srv.names|] == s.srv.names;
  }

  /** The cursor of a poll ends at the end of its topic just when no message on the
      way is empty; an empty one is skipped and not counted, and the poll after
      sends what came behind it again. */
  lemma {:induction false} PollCatchesUp(m: Mail, t: Topic, fn: nat)
    requires fn <= |Digs(m, t)|
    ensures fn + |CloneTopic(m, t, fn)| == |Digs(m, t)|
      <==> forall i | fn <= i < |Digs(m, t)| :: There(m, Digs(m, t)[i])
    ensures fn + |CloneTopic(m, t, fn)| <= |Digs(m, t)|
    decreases |Digs(m, t)| - fn
  {
    if fn >= |Digs(m, t)| {
    } else {
      PollCatchesUp(m, t, fn + 1);
    }
  }

  lemma PollOne(m: Mail, t: Topic, k: nat)
    ensures var sent := CloneTopic(m, t, k);
      PollTo(m, Server([t], map[t := k]), 1) == (Server([t], map[t := k + |sent|]), sent)
  {
    hide CloneTopic;
    var srv := Server([t], map[t := k]);
    var sent := CloneTopic(m, t, k);
    assert PollTo(m, srv, 0) == (srv, []);
    assert [] + sent == sent && srv.cur[t := k + |sent|] == map[t := k + |sent|];
  }

  lemma EmptyFirst(m: Mail, t: Topic, msg: Msg)
    requires msg != [] && Digs(m, t) == [Dig([]), Dig(msg)] && m.msgs == map[Dig([]) := [], Dig(msg) := msg]
    ensures CloneTopic(m, t, 0) == CloneTopic(m, t, 1) == [Frame(1, t, msg)]
  {
    assert CloneTopic(m, t, 2) == [];
    assert !There(m, Dig([])) && There(m, Dig(msg));
  }

  /** Behind an empty first message two polls send the second one twice. */
  lemma PollTwice(t: Topic, msg: Msg, c: Client)
    requires msg != []
    ensures var m := StoreMsg(StoreMsg(Mail(map[], map[]), t, []), t, msg); var f := Frame(1, t, msg);
      Step(Step(Sys(m, Server([t], map[t := 0]), [], c), Poll), Poll) == Sys(m, Server([t], map[t := 2]), [f, f], c)
  {
    hide CloneTopic;
    hide PollTo;
    var m := StoreMsg(StoreMsg(Mail(map[], map[]), t, []), t, msg);
    var f := Frame(1, t, msg);
    assert Digs(m, t) == [Dig([])] + [Dig(msg)];
    EmptyFirst(m, t, msg);
    PollOne(m, t, 0);
    PollOne(m, t, 1);
    var s1 := Step(Sys(m, Server([t], map[t := 0]), [], c), Poll);
    assert s1 == Sys(m, Server([t], map[t := 1]), [f], c);
    assert [f] + [f] == [f, f];
  }

  lemma RunSnoc(ops: seq<Op>, op: Op, t: Topic)
    ensures Run(ops + [op]) == Step(Run(ops), op)
    ensures Stored(ops + [op], t) == Stored(ops, t) + if op.Store? && op.topic == t then [op.msg] else []
  {
    assert (ops + [op])[..|ops|] == ops;
  }

  function RepeatOps(t: Topic, msg: Msg): seq<Op> {
    [Store(t, []), Store(t, msg), Connect([t]), Poll, Poll, Take, Take]
  }

  lemma RepeatPrefix(t: Topic, msg: Msg, n: nat)
    requires n < 7
    ensures var ops := RepeatOps(t, msg);
      && Run(ops[..n + 1]) == Step(Run(ops[..n]), ops[n])
      && Stored(ops[..n + 1], t) == Stored(ops[..n], t) + if ops[n].Store? then [ops[n].msg] else []
  {
    hide Step;
    var ops := RepeatOps(t, msg);
    assert ops[..n + 1] == ops[..n] + [ops[n]];
    RunSnoc(ops[..n], ops[n], t);
  }

  lemma RepeatStarts(t: Topic, msg: Msg)
    ensures var ops, m := RepeatOps(t, msg), StoreMsg(StoreMsg(Mail(map[], map[]), t, []), t, msg);
      && Run(ops[..3]) == Sys(m, Server([t], map[t := 0]), [], Client(map[], []))
      && Stored(ops[..3], t) == [[], msg]
  {
    hide Run;
    hide Stored;
    hide StoreMsg;
    var ops := RepeatOps(t, msg);
    assert ops[..0] == [];
    NoOps(t);
    RepeatPrefix(t, msg, 0);
    RepeatPrefix(t, msg, 1);
    RepeatPrefix(t, msg, 2);
    assert Unique([t]) == [t] by { assert [t][..0] == []; }
    assert [] + [[]] + [msg] + [] == [[], msg];
  }

  /** At the end of this run the client has taken the second message twice, which was
      stored once. */
  lemma EmptyMessageRepeats(t: Topic, msg: Msg)
    requires msg != []
    ensures Run(RepeatOps(t, msg)).client.taken == [Frame(1, t, msg), Frame(1, t, msg)]
    ensures Stored(RepeatOps(t, msg), t) == [[], msg]
  {
    hide Run;
    hide Stored;
    hide StoreMsg;
    hide PollTo;
    var ops, f := RepeatOps(t, msg), Frame(1, t, msg);
    assert ops[..7] == ops;
    RepeatStarts(t, msg);
    PollTwice(t, msg, Client(map[], []));
    RepeatPrefix(t, msg, 3);
    RepeatPrefix(t, msg, 4);
    assert Run(ops[..5]).pipe == [f, f] && Run(ops[..5]).client.taken == [];
    RepeatPrefix(t, msg, 5);
    assert [f, f][1..] == [f];
    RepeatPrefix(t, msg, 6);
    assert [] + [f] + [f] == [f, f];
  }

  lemma NoOps(t: Topic)
    ensures Run([]) == START && Stored([], t) == []
  {
  }
}
