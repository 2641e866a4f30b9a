/** Where the messages passed to a connection's send() end up. */
module Outbox {
  import opened Common
  import opened Connection

  /** The application's messages among `msgs`, by number. */
  function Ids(msgs: seq<Msg>): seq<nat> {
    if msgs == [] then []
    else Ids(msgs[..|msgs| - 1]) + match msgs[|msgs| - 1] { case User(n) => [n] case _ => [] }
  }

  function AllIds(wires: seq<seq<Msg>>): seq<nat> {
    if wires == [] then [] else AllIds(wires[..|wires| - 1]) + Ids(wires[|wires| - 1])
  }

  /** Strictly increasing numbers, all smaller than `below`. */
  predicate Increasing(s: seq<nat>, below: nat) {
    s == [] || (s[|s| - 1] < below && Increasing(s[..|s| - 1], s[|s| - 1]))
  }

  lemma {:induction false} IncreasingPrefix(a: seq<nat>, b: seq<nat>, below: nat)
    requires Increasing(a + b, below)
    ensures Increasing(a, below)
  {
    if b == [] {
      assert a + b == a;
    } else {
      assert (a + b)[..|a + b| - 1] == a + b[..|b| - 1];
      IncreasingPrefix(a, b[..|b| - 1], b[|b| - 1]);
    }
  }

  lemma {:induction false} IncreasingSkip(a: seq<nat>, x: nat, b: seq<nat>, below: nat)
    requires Increasing(a + ([x] + b), below)
    ensures Increasing(a + b, below)
  {
    var longer := a + ([x] + b);
    if b == [] {
      assert a + b == a;
      IncreasingPrefix(a, [x] + b, below);
    } else {
      assert longer[..|longer| - 1] == a + ([x] + b[..|b| - 1]);
      assert (a + b)[..|a + b| - 1] == a + b[..|b| - 1];
      IncreasingSkip(a, x, b[..|b| - 1], b[|b| - 1]);
    }
  }

  lemma NextIncreases(s: seq<nat>, sent: nat)
    requires Increasing(s, sent)
    ensures Increasing(s + [sent], sent + 1)
  {
    assert (s + [sent])[..|s|] == s;
  }

  function UpTo(n: nat): multiset<nat> {
    if n == 0 then multiset{} else UpTo(n - 1) + multiset{n - 1}
  }

  /** Of the first `sent` numbers each is in exactly one place, in order, with the dropped ones before the queue. */
  ghost predicate Ledger(out: seq<nat>, queue: seq<nat>, dropped: seq<nat>, sent: nat) {
    && multiset(out) + multiset(queue) + multiset(dropped) == UpTo(sent)
    && Increasing(out + queue, sent) && Increasing(dropped + queue, sent)
  }

  ghost predicate NoIds(listeners: seq<Listener>) {
    forall l | l in listeners :: Ids(l.msgs) == []
  }

  ghost predicate Accounted(c: Conn, sent: nat) {
    && !c.closedByUser
    && (c.isOpen ==> c.pending == [])
    && Ledger(AllIds(c.wires), Ids(c.pending), Ids(c.dropped), sent)
  }

  /** What the callbacks and the handshake send is not counted. */
  ghost predicate OnlySendsCounted(s: State) {
    NoIds(s.anyListeners) && NoIds(s.watchers) && NoIds(s.openListeners) && Ids(s.hello) == []
  }

  lemma LedgerTransmit(out: seq<nat>, dropped: seq<nat>, sent: nat)
    requires Ledger(out, [], dropped, sent)
    ensures Ledger(out + [sent], [], dropped, sent + 1)
  {
    assert out + [] == out && dropped + [] == dropped && out + [sent] + [] == out + [sent];
    NextIncreases(out, sent);
    assert multiset(out + [sent]) == multiset(out) + multiset{sent};
  }

  lemma LedgerQueue(out: seq<nat>, queue: seq<nat>, dropped: seq<nat>, sent: nat)
    requires Ledger(out, queue, dropped, sent)
    ensures Ledger(out, queue + [sent], dropped, sent + 1)
  {
    NextIncreases(out + queue, sent);
    NextIncreases(dropped + queue, sent);
    assert out + (queue + [sent]) == out + queue + [sent] && dropped + (queue + [sent]) == dropped + queue + [sent];
    CountOneMore(multiset(out), multiset(queue), multiset(dropped), sent);
    assert multiset(queue + [sent]) == multiset(queue) + multiset{sent};
  }

  lemma CountOneMore(out: multiset<nat>, queue: multiset<nat>, dropped: multiset<nat>, sent: nat)
    requires out + queue + dropped == UpTo(sent)
    ensures out + (queue + multiset{sent}) + dropped == UpTo(sent + 1)
  {
  }

  lemma LedgerDrop(out: seq<nat>, first: nat, queue: seq<nat>, dropped: seq<nat>, sent: nat)
    requires Ledger(out, [first] + queue, dropped, sent)
    ensures Ledger(out, queue, dropped + [first], sent)
  {
    assert dropped + [first] + queue == dropped + ([first] + queue);
    IncreasingSkip(out, first, queue, sent);
    assert multiset([first] + queue) == multiset{first} + multiset(queue);
    assert multiset(dropped + [first]) == multiset(dropped) + multiset{first};
  }

  lemma LedgerFlush(out: seq<nat>, queue: seq<nat>, dropped: seq<nat>, sent: nat)
    requires Ledger(out, queue, dropped, sent)
    ensures Ledger(out + queue, [], dropped, sent)
  {
    assert out + queue + [] == out + queue && dropped + [] == dropped;
    IncreasingPrefix(dropped, queue, sent);
    assert multiset(out + queue) == multiset(out) + multiset(queue);
  }

  lemma {:induction false} IdsAppend(a: seq<Msg>, b: seq<Msg>)
    ensures Ids(a + b) == Ids(a) + Ids(b)
  {
    if b == [] {
      assert a + b == a;
    } else {
      assert (a + b)[..|a + b| - 1] == a + b[..|b| - 1];
      IdsAppend(a, b[..|b| - 1]);
    }
  }

  lemma {:induction false} AllIdsGrow(wires: seq<seq<Msg>>, msgs: seq<Msg>)
    requires wires != []
    ensures var k := |wires| - 1; AllIds(wires[k := wires[k] + msgs]) == AllIds(wires) + Ids(msgs)
  {
    var k := |wires| - 1;
    var grown := wires[k := wires[k] + msgs];
    assert grown[..k] == wires[..k] && grown[k] == wires[k] + msgs && |grown| == k + 1;
    IdsAppend(wires[k], msgs);
    Associate(AllIds(wires[..k]), Ids(wires[k]), Ids(msgs));
  }

  lemma {:induction false} SendsNoIds(listeners: seq<Listener>)
    requires NoIds(listeners)
    ensures Ids(Sends(listeners)) == []
  {
    if listeners != [] {
      SendsNoIds(listeners[1..]);
      IdsAppend(listeners[0].msgs, Sends(listeners[1..]));
    }
  }

  lemma OneId(n: nat)
    ensures Ids([User(n)]) == [n]
  {
    assert Ids([User(n)]) == [] + [n];
  }

  ghost predicate OnLastSocket(c: Conn) {
    c.Valid() && c.wires != [] && c.ws == Some(|c.wires| - 1)
  }

  lemma {:induction false} SendOnSocket(c: Conn, sent: nat)
    requires OnLastSocket(c) && c.isOpen && Accounted(c, sent)
    ensures Accounted(Send(c, User(sent)), sent + 1)
  {
    OneId(sent);
    AllIdsGrow(c.wires, [User(sent)]);
    LedgerTransmit(AllIds(c.wires), Ids(c.dropped), sent);
  }

  lemma {:induction false} SendToQueue(c: Conn, sent: nat)
    requires c.Valid() && !c.isOpen && |c.pending| < MAX_PENDING_SENDS && Accounted(c, sent)
    ensures Accounted(Send(c, User(sent)), sent + 1)
  {
    OneId(sent);
    IdsAppend(c.pending, [User(sent)]);
    LedgerQueue(AllIds(c.wires), Ids(c.pending), Ids(c.dropped), sent);
  }

  lemma {:induction false} SendToFullQueue(c: Conn, sent: nat)
    requires c.Valid() && !c.isOpen && |c.pending| == MAX_PENDING_SENDS && Accounted(c, sent)
    ensures Accounted(Send(c, User(sent)), sent + 1)
  {
    var first, rest := c.pending[0], Ids(c.pending[1..]);
    SplitHead(c.pending);
    OneId(sent);
    IdsAppend(c.pending[1..], [User(sent)]);
    IdsAppend(c.dropped, [first]);
    AtMostOneId(first);
    LedgerShiftHead(AllIds(c.wires), Ids([first]), rest, Ids(c.dropped), sent);
  }

  lemma AtMostOneId(msg: Msg)
    ensures |Ids([msg])| <= 1
  {
    if msg.User? {
      OneId(msg.n);
    } else {
      NoId(msg);
    }
  }

  lemma LedgerShiftHead(out: seq<nat>, head: seq<nat>, rest: seq<nat>, dropped: seq<nat>, sent: nat)
    requires Ledger(out, head + rest, dropped, sent) && |head| <= 1
    ensures Ledger(out, rest + [sent], dropped + head, sent + 1)
  {
    if head == [] {
      assert head + rest == rest && dropped + head == dropped;
      LedgerQueue(out, rest, dropped, sent);
    } else {
      assert head == [head[0]];
      LedgerShift(out, head[0], rest, dropped, sent);
    }
  }

  lemma SplitHead(msgs: seq<Msg>)
    requires msgs != []
    ensures Ids(msgs) == Ids([msgs[0]]) + Ids(msgs[1..])
  {
    assert msgs == [msgs[0]] + msgs[1..];
    IdsAppend([msgs[0]], msgs[1..]);
  }

  lemma NoId(msg: Msg)
    requires !msg.User?
    ensures Ids([msg]) == []
  {
    assert [msg][..0] == [];
  }

  /** A message that is not counted leaves the account as it is, even where it pushes a counted one out. */
  lemma {:induction false} SendUncounted(c: Conn, msg: Msg, sent: nat)
    requires c.Valid() && (c.isOpen ==> OnLastSocket(c)) && Accounted(c, sent) && !msg.User?
    ensures Accounted(Send(c, msg), sent)
  {
    NoId(msg);
    if c.isOpen {
      AllIdsGrow(c.wires, [msg]);
      assert AllIds(c.wires) + [] == AllIds(c.wires);
    } else {
      IdsAppend(c.pending, [msg]);
      assert Ids(c.pending) + [] == Ids(c.pending);
      if |c.pending| == MAX_PENDING_SENDS { PushOut(c, msg, sent); }
    }
  }

  lemma {:induction false} PushOut(c: Conn, msg: Msg, sent: nat)
    requires c.Valid() && !c.isOpen && |c.pending| == MAX_PENDING_SENDS && Accounted(c, sent) && Ids([msg]) == []
    ensures Accounted(Send(c, msg), sent)
  {
    var first, rest := c.pending[0], Ids(c.pending[1..]);
    SplitHead(c.pending);
    IdsAppend(c.pending[1..], [msg]);
    IdsAppend(c.dropped, [first]);
    assert Ids(c.pending[1..] + [msg]) == rest;
    if first.User? {
      OneId(first.n);
      LedgerDrop(AllIds(c.wires), first.n, rest, Ids(c.dropped), sent);
    } else {
      NoId(first);
      assert Ids(c.pending) == rest && Ids(c.dropped + [first]) == Ids(c.dropped);
    }
  }

  lemma {:induction false} RelayKeepsAccount(c: Conn, msgs: seq<Msg>, sent: nat)
    requires c.Valid() && (c.isOpen ==> OnLastSocket(c)) && Accounted(c, sent) && Uncounted(msgs)
    ensures Accounted(SendAll(c, msgs), sent)
  {
    if msgs != [] {
      var front := msgs[..|msgs| - 1];
      RelayKeepsAccount(c, front, sent);
      SendAllOnlySends(c, front);
      SendUncounted(SendAll(c, front), msgs[|msgs| - 1], sent);
    }
  }

  ghost predicate Uncounted(msgs: seq<Msg>) { forall msg | msg in msgs :: !msg.User? }

  lemma {:induction false} LedgerShift(out: seq<nat>, id: nat, rest: seq<nat>, dropped: seq<nat>, sent: nat)
    requires Ledger(out, [id] + rest, dropped, sent)
    ensures Ledger(out, rest + [sent], dropped + [id], sent + 1)
  {
    LedgerQueue(out, [id] + rest, dropped, sent);
    assert [id] + rest + [sent] == [id] + (rest + [sent]);
    LedgerDrop(out, id, rest + [sent], dropped, sent + 1);
  }

  lemma {:induction false} FlushedIds(wires: seq<seq<Msg>>, msgs: seq<Msg>, pending: seq<Msg>)
    requires wires != [] && Ids(msgs) == []
    ensures var k := |wires| - 1; AllIds(wires[k := wires[k] + msgs + pending]) == AllIds(wires) + Ids(pending)
  {
    var k := |wires| - 1;
    IdsAppend(msgs, pending);
    AllIdsGrow(wires, msgs + pending);
    Associate(wires[k], msgs, pending);
    assert [] + Ids(pending) == Ids(pending);
  }

  lemma Associate<T>(a: seq<T>, b: seq<T>, c: seq<T>)
    ensures a + b + c == a + (b + c)
  {
  }

  lemma {:induction false} OpenFlushes(c: Conn, msgs: seq<Msg>, sent: nat)
    requires OnLastSocket(c) && Accounted(c, sent) && Ids(msgs) == []
    ensures Accounted(OnOpen(c, msgs), sent)
  {
    var d := OnOpen(c, msgs);
    OpenSendsHandlersThenQueue(c, msgs);
    FlushedIds(c.wires, msgs, c.pending);
    assert AllIds(d.wires) == AllIds(c.wires) + Ids(c.pending);
    LedgerFlush(AllIds(c.wires), Ids(c.pending), Ids(c.dropped), sent);
    assert Ids(d.pending) == [] && d.dropped == c.dropped && d.closedByUser == c.closedByUser;
  }

  /** Nothing is closed, and what callbacks and older connections send is not counted as passed to send(). */
  ghost predicate NoClose(es: seq<Event>) {
    forall e | e in es :: !e.UserClose? && !e.SessionClose? && Counts(e)
  }

  ghost predicate Counts(e: Event) {
    (e.On? || e.OnAny? || e.Watch? ==> Ids(e.l.msgs) == []) && (e.Relay? ==> Uncounted(e.msgs))
  }

  lemma AddNoIds(listeners: seq<Listener>, l: Listener)
    requires NoIds(listeners) && Ids(l.msgs) == []
    ensures NoIds(Add(listeners, l))
  {
  }

  lemma {:induction false} RemoveNoIds(listeners: seq<Listener>, l: Listener)
    requires NoIds(listeners)
    ensures NoIds(Remove(listeners, l))
  {
    RemoveKeepsOthers(listeners, l);
  }

  lemma {:induction false} StepKeepsCounted(s: State, e: Event)
    requires OnlySendsCounted(s) && Enabled(s, e) && Counts(e)
    ensures OnlySendsCounted(Next(s, e))
  {
    match e {
      case On(l) => AddNoIds(s.openListeners, l);
      case OnAny(l) => AddNoIds(s.anyListeners, l);
      case Watch(l) => AddNoIds(s.watchers, l);
      case Off(l) => RemoveNoIds(s.openListeners, l);
      case OffAny(l) => RemoveNoIds(s.anyListeners, l);
      case Unwatch(l) => RemoveNoIds(s.watchers, l);
      case _ =>
    }
  }

  lemma {:induction false} StepKeepsAccount(s: State, e: Event)
    requires Inv(s) && OnlySendsCounted(s) && Accounted(s.c, s.sent) && Enabled(s, e) && NoClose([e])
    ensures Accounted(Next(s, e).c, Next(s, e).sent)
  {
    assert e in [e];
    OpenIsLast(s);
    match e {
      case UserSend => SendStep(s);
      case Relay(msgs) => RelayStep(s, msgs);
      case Opens(k) => OpenStep(s, k);
      case UrlReady => ReadyStep(s);
      case UrlFails => FailStep(s);
      case Closes(k) => CloseStep(s, k);
      case Errors(k) => ErrorStep(s, k);
      case TimerFires => TimerStep(s);
      case _ =>
    }
  }

  lemma SendStep(s: State)
    requires s.c.Valid() && Accounted(s.c, s.sent) && (s.c.isOpen ==> OnLastSocket(s.c))
    ensures Accounted(Sent(s).c, Sent(s).sent)
  {
    var d, n := SentAccount(s.c, s.sent);
  }

  lemma RelayStep(s: State, msgs: seq<Msg>)
    requires s.c.Valid() && Accounted(s.c, s.sent) && (s.c.isOpen ==> OnLastSocket(s.c))
    requires s.attached && Uncounted(msgs)
    ensures Accounted(Next(s, Relay(msgs)).c, s.sent)
  {
    var d := RelayedAccount(s.c, msgs, s.sent);
    assert Next(s, Relay(msgs)).c == d;
  }

  lemma OpenStep(s: State, k: nat)
    requires s.c.Valid() && Accounted(s.c, s.sent) && OnLastSocket(s.c) && OnlySendsCounted(s) && Enabled(s, Opens(k))
    ensures Accounted(Next(s, Opens(k)).c, s.sent)
  {
    var d := OpenedAccount(s);
    assert Next(s, Opens(k)).c == d;
  }

  lemma ReadyStep(s: State)
    requires s.c.Valid() && Accounted(s.c, s.sent) && s.fetching > 0
    ensures Accounted(Next(s, UrlReady).c, s.sent)
  {
    var d := NewAccount(s.c, s.sent);
    assert Next(s, UrlReady).c == d;
  }

  lemma FailStep(s: State)
    requires s.c.Valid() && Accounted(s.c, s.sent) && s.fetching > 0
    ensures Accounted(Next(s, UrlFails).c, s.sent)
  {
    var d := RescheduledAccount(s.c, s.sent);
    assert Next(s, UrlFails).c == d;
  }

  lemma CloseStep(s: State, k: nat)
    requires s.c.Valid() && Accounted(s.c, s.sent) && Enabled(s, Closes(k))
    ensures Accounted(Next(s, Closes(k)).c, s.sent)
  {
    var d := ClosedAccount(s.c, s.sent);
    assert Next(s, Closes(k)).c == d;
  }

  lemma ErrorStep(s: State, k: nat)
    requires s.c.Valid() && Accounted(s.c, s.sent) && Enabled(s, Errors(k))
    ensures Accounted(Next(s, Errors(k)).c, s.sent)
  {
    var d := ClosedAccount(s.c, s.sent);
    ErrorThenCloseCountsOnce(s.c);
    assert Next(s, Errors(k)).c == d;
  }

  lemma TimerStep(s: State)
    requires s.c.Valid() && Accounted(s.c, s.sent) && s.c.timer
    ensures Accounted(Next(s, TimerFires).c, s.sent)
  {
    var d := FiredAccount(s.c, s.sent);
    assert Next(s, TimerFires).c == d;
  }

  lemma SentAccount(c: Conn, sent: nat) returns (d: Conn, n: nat)
    requires c.Valid() && (c.isOpen ==> OnLastSocket(c)) && Accounted(c, sent)
    ensures d == Send(c, User(sent)) && n == sent + 1 && Accounted(d, n)
  {
    SendKeepsAccount(c, sent);
    d, n := Send(c, User(sent)), sent + 1;
  }

  lemma RelayedAccount(c: Conn, msgs: seq<Msg>, sent: nat) returns (d: Conn)
    requires c.Valid() && (c.isOpen ==> OnLastSocket(c)) && Accounted(c, sent) && Uncounted(msgs)
    ensures d == SendAll(c, msgs) && Accounted(d, sent)
  {
    RelayKeepsAccount(c, msgs, sent);
    d := SendAll(c, msgs);
  }

  lemma OpenedAccount(s: State) returns (d: Conn)
    requires OnLastSocket(s.c) && OnlySendsCounted(s) && Accounted(s.c, s.sent)
    ensures d == OnOpen(s.c, OpenMsgs(s)) && Accounted(d, s.sent)
  {
    HandlersHaveNoIds(s);
    OpenFlushes(s.c, OpenMsgs(s), s.sent);
    d := OnOpen(s.c, OpenMsgs(s));
  }

  lemma NewAccount(c: Conn, sent: nat) returns (d: Conn)
    requires c.Valid() && Accounted(c, sent)
    ensures d == NewSocket(c) && Accounted(d, sent)
  {
    NewSocketNoIds(c.wires);
    d := NewSocket(c);
  }

  lemma RescheduledAccount(c: Conn, sent: nat) returns (d: Conn)
    requires c.Valid() && Accounted(c, sent)
    ensures d == ScheduleReconnect(c) && Accounted(d, sent)
  {
    d := ScheduleReconnect(c);
  }

  lemma ClosedAccount(c: Conn, sent: nat) returns (d: Conn)
    requires c.Valid() && Accounted(c, sent)
    ensures d == OnClose(c) && Accounted(d, sent)
  {
    d := RescheduledAccount(c.(isOpen := false), sent);
  }

  lemma FiredAccount(c: Conn, sent: nat) returns (d: Conn)
    requires Accounted(c, sent)
    ensures d == c.(timer := false) && Accounted(d, sent)
  {
    d := c.(timer := false);
  }

  lemma OpenIsLast(s: State)
    requires Inv(s)
    ensures s.c.isOpen ==> OnLastSocket(s.c)
    ensures forall k | 0 <= k < |s.sockets| && s.sockets[k].Connecting? :: OnLastSocket(s.c)
  {
  }

  lemma {:induction false} SendKeepsAccount(c: Conn, sent: nat)
    requires c.Valid() && (c.isOpen ==> OnLastSocket(c)) && Accounted(c, sent)
    ensures Accounted(Send(c, User(sent)), sent + 1)
  {
    if c.isOpen {
      SendOnSocket(c, sent);
    } else if |c.pending| < MAX_PENDING_SENDS {
      SendToQueue(c, sent);
    } else {
      SendToFullQueue(c, sent);
    }
  }

  lemma {:induction false} HandlersHaveNoIds(s: State)
    requires OnlySendsCounted(s)
    ensures Ids(OpenMsgs(s)) == []
  {
    SendsNoIds(s.anyListeners);
    SendsNoIds(s.watchers);
    SendsNoIds(s.openListeners);
    IdsAppend(Sends(s.anyListeners), Sends(s.watchers));
    IdsAppend(Noise(s), Greeting(s));
    IdsAppend(Noise(s) + Greeting(s), Sends(s.openListeners));
  }

  lemma NewSocketNoIds(wires: seq<seq<Msg>>)
    ensures AllIds(wires + [[]]) == AllIds(wires)
  {
    assert (wires + [[]])[..|wires|] == wires;
    assert AllIds(wires) + [] == AllIds(wires);
  }

  lemma {:induction false} RunKeepsAccount(s: State, es: seq<Event>, t: State)
    requires Inv(s) && OnlySendsCounted(s) && Accounted(s.c, s.sent) && Run(s, es, t) && NoClose(es)
    ensures Inv(t) && Accounted(t.c, t.sent)
    decreases es
  {
    if es != [] {
      assert NoClose([es[0]]) by { assert es[0] in es; }
      StepKeepsInv(s, es[0]);
      StepKeepsCounted(s, es[0]);
      StepKeepsAccount(s, es[0]);
      RunKeepsAccount(Next(s, es[0]), es[1..], t);
    }
  }

  /** On every run of sends, opens, closes, errors and retries before close(): each message passed to send() is exactly
      one of transmitted once, queued, or dropped; transmissions and then the queue follow the order of the calls; drops
      are the oldest, so they precede the whole queue; and the queue never exceeds its limit. */
  lemma {:induction false} OutboxConservation(
    retry: RetryConfig, credentials: bool, requestState: bool, watchers: seq<Listener>, es: seq<Event>, t: State)
    requires Run(Init(retry, Hello(credentials, requestState), watchers), es, t) && NoClose(es) && NoIds(watchers)
    ensures forall n: nat ::
              multiset(AllIds(t.c.wires))[n] + multiset(Ids(t.c.pending))[n] + multiset(Ids(t.c.dropped))[n]
                == if n < t.sent then 1 else 0
    ensures Increasing(AllIds(t.c.wires) + Ids(t.c.pending), t.sent)
    ensures Increasing(Ids(t.c.dropped) + Ids(t.c.pending), t.sent)
    ensures |t.c.pending| <= 1000
  {
    var hello := Hello(credentials, requestState);
    HelloHasNoIds(credentials, requestState);
    InitOutbox(retry, hello, watchers);
    RunKeepsAccount(Init(retry, hello, watchers), es, t);
    EachOnce(AllIds(t.c.wires), Ids(t.c.pending), Ids(t.c.dropped), t.sent);
  }

  lemma EachOnce(out: seq<nat>, queue: seq<nat>, dropped: seq<nat>, sent: nat)
    requires Ledger(out, queue, dropped, sent)
    ensures forall n: nat ::
              multiset(out)[n] + multiset(queue)[n] + multiset(dropped)[n] == if n < sent then 1 else 0
  {
    forall n: nat ensures multiset(out)[n] + multiset(queue)[n] + multiset(dropped)[n] == if n < sent then 1 else 0 {
      UpToIsEachOnce(sent, n);
    }
  }

  lemma InitOutbox(retry: RetryConfig, hello: seq<Msg>, watchers: seq<Listener>)
    requires Ids(hello) == [] && NoIds(watchers)
    ensures var s := Init(retry, hello, watchers); OnlySendsCounted(s) && Accounted(s.c, s.sent)
  {
  }

  lemma {:induction false} HelloHasNoIds(credentials: bool, requestState: bool)
    ensures Ids(Hello(credentials, requestState)) == []
  {
    assert Ids([SessionInit]) == [] && Ids([GetConversationState]) == [];
    IdsAppend(if credentials then [SessionInit] else [], if requestState then [GetConversationState] else []);
  }

  lemma {:induction false} UpToIsEachOnce(n: nat, m: nat)
    ensures UpTo(n)[m] == if m < n then 1 else 0
  {
    if n > 0 {
      UpToIsEachOnce(n - 1, m);
    }
  }

  /** Only a send to a full queue drops a message, and only one. */
  lemma DropsOnlyWhenFull(c: Conn, msg: Msg)
    requires c.Valid()
    ensures var d := Send(c, msg);
            d.dropped != c.dropped ==>
              |c.pending| == 1000 && !(c.isOpen && c.ws.Some?) && d.dropped == c.dropped + [c.pending[0]]
  {
  }

  // ---------- what close() loses ----------

  /** No message sent before number `from` is queued. */
  ghost predicate NothingOldQueued(c: Conn, from: nat) { AllFrom(Ids(c.pending), from) }

  ghost predicate AllFrom(ids: seq<nat>, from: nat) { forall i | 0 <= i < |ids| :: ids[i] >= from }

  /** The numbers below `from`. */
  function Old(ids: seq<nat>, from: nat): seq<nat> {
    if ids == [] then []
    else Old(ids[..|ids| - 1], from) + if ids[|ids| - 1] < from then [ids[|ids| - 1]] else []
  }

  lemma {:induction false} NoneOld(ids: seq<nat>, more: seq<nat>, from: nat)
    requires AllFrom(more, from)
    ensures Old(ids + more, from) == Old(ids, from)
  {
    if more == [] {
      assert ids + more == ids;
    } else {
      assert (ids + more)[..|ids + more| - 1] == ids + more[..|more| - 1];
      NoneOld(ids, more[..|more| - 1], from);
    }
  }

  /** Sent so far are at least `from` messages, none of the old ones is queued, and these have gone out. */
  ghost predicate Forgotten(c: Conn, sent: nat, from: nat, gone: seq<nat>) {
    sent >= from && NothingOldQueued(c, from) && Old(AllIds(c.wires), from) == gone
  }

  lemma SendForgets(c: Conn, sent: nat, from: nat, gone: seq<nat>)
    requires c.Valid() && (c.isOpen ==> OnLastSocket(c)) && Forgotten(c, sent, from, gone)
    ensures Forgotten(Send(c, User(sent)), sent + 1, from, gone)
  {
    OneId(sent);
    if c.isOpen {
      AllIdsGrow(c.wires, [User(sent)]);
      NoneOld(AllIds(c.wires), [sent], from);
    } else {
      QueueForgets(c, User(sent), from);
    }
  }

  lemma QueueForgets(c: Conn, msg: Msg, from: nat)
    requires c.Valid() && !c.isOpen && NothingOldQueued(c, from) && AllFrom(Ids([msg]), from)
    ensures NothingOldQueued(Send(c, msg), from)
  {
    if |c.pending| < MAX_PENDING_SENDS {
      IdsAppend(c.pending, [msg]);
      FromParts(Ids(c.pending), Ids([msg]), from);
    } else {
      SplitHead(c.pending);
      IdsAppend(c.pending[1..], [msg]);
      FromParts(Ids([c.pending[0]]), Ids(c.pending[1..]), from);
      FromParts(Ids(c.pending[1..]), Ids([msg]), from);
    }
  }

  lemma FromParts(a: seq<nat>, b: seq<nat>, from: nat)
    ensures AllFrom(a + b, from) <==> AllFrom(a, from) && AllFrom(b, from)
  {
    if AllFrom(a + b, from) {
      forall i | 0 <= i < |a| ensures a[i] >= from { assert (a + b)[i] >= from; }
      forall i | 0 <= i < |b| ensures b[i] >= from { assert (a + b)[|a| + i] >= from; }
    }
  }

  lemma {:induction false} RelayForgets(c: Conn, msgs: seq<Msg>, sent: nat, from: nat, gone: seq<nat>)
    requires c.Valid() && (c.isOpen ==> OnLastSocket(c)) && Forgotten(c, sent, from, gone) && Uncounted(msgs)
    ensures Forgotten(SendAll(c, msgs), sent, from, gone)
  {
    if msgs != [] {
      var front, msg := msgs[..|msgs| - 1], msgs[|msgs| - 1];
      RelayForgets(c, front, sent, from, gone);
      SendAllOnlySends(c, front);
      NoId(msg);
      var d := SendAll(c, front);
      if d.isOpen {
        AllIdsGrow(d.wires, [msg]);
        NoneOld(AllIds(d.wires), [], from);
      } else {
        QueueForgets(d, msg, from);
      }
    }
  }

  lemma OpenForgets(s: State, from: nat, gone: seq<nat>)
    requires OnLastSocket(s.c) && OnlySendsCounted(s) && Forgotten(s.c, s.sent, from, gone)
    ensures Forgotten(OnOpen(s.c, OpenMsgs(s)), s.sent, from, gone)
  {
    HandlersHaveNoIds(s);
    OpenSendsHandlersThenQueue(s.c, OpenMsgs(s));
    FlushedIds(s.c.wires, OpenMsgs(s), s.c.pending);
    NoneOld(AllIds(s.c.wires), Ids(s.c.pending), from);
  }

  lemma StepForgets(s: State, e: Event, from: nat, gone: seq<nat>)
    requires Inv(s) && OnlySendsCounted(s) && Enabled(s, e) && Counts(e) && Forgotten(s.c, s.sent, from, gone)
    ensures Forgotten(Next(s, e).c, Next(s, e).sent, from, gone)
  {
    OpenIsLast(s);
    match e {
      case UserSend => SendForgets(s.c, s.sent, from, gone);
      case Relay(msgs) => RelayForgets(s.c, msgs, s.sent, from, gone);
      case Opens(k) => OpenForgets(s, from, gone);
      case UrlReady => NewSocketNoIds(s.c.wires);
      case _ => SameWires(s, e);
    }
  }

  lemma SameWires(s: State, e: Event)
    requires Enabled(s, e) && !e.UserSend? && !e.Relay? && !e.Opens? && !e.UrlReady?
    ensures var t := Next(s, e);
            t.c.wires == s.c.wires && t.sent == s.sent && (t.c.pending == s.c.pending || t.c.pending == [])
  {
  }

  lemma {:induction false} RunForgets(s: State, es: seq<Event>, t: State, from: nat, gone: seq<nat>)
    requires Inv(s) && OnlySendsCounted(s) && Run(s, es, t) && Forgotten(s.c, s.sent, from, gone)
    requires forall e | e in es :: Counts(e)
    ensures Forgotten(t.c, t.sent, from, gone)
    decreases es
  {
    if es != [] {
      assert Counts(es[0]);
      StepForgets(s, es[0], from, gone);
      StepKeepsInv(s, es[0]);
      StepKeepsCounted(s, es[0]);
      RunForgets(Next(s, es[0]), es[1..], t, from, gone);
    }
  }

  /** What is still queued when the connection or its session is closed is never sent: on every run from there, even
      one on which a late socket opens, no message passed to send() before the close goes out any more. */
  lemma CloseLosesQueue(s: State, e: Event, es: seq<Event>, t: State)
    requires Inv(s) && OnlySendsCounted(s) && Enabled(s, e) && (e.UserClose? || e.SessionClose?)
    requires Run(Next(s, e), es, t) && forall f | f in es :: Counts(f)
    ensures Old(AllIds(t.c.wires), s.sent) == Old(AllIds(s.c.wires), s.sent)
    ensures AllFrom(Ids(t.c.pending), s.sent)
  {
    StepKeepsInv(s, e);
    StepKeepsCounted(s, e);
    RunForgets(Next(s, e), es, t, s.sent, Old(AllIds(s.c.wires), s.sent));
  }
}
