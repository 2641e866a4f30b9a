/** The SDK's reconnecting WebSocket connection, with the callbacks that send when it opens
    and the session that owns it. */
module Connection {
  import opened Common

  const MAX_PENDING_SENDS := 1000

  /** `User(n)` is the n-th message passed to send() by the application. */
  datatype Msg = SessionInit | GetConversationState | Other(text: string) | User(n: nat)

  /** `maxRetries` absent means unlimited. */
  datatype RetryConfig = RetryConfig(enabled: bool, maxRetries: Option<nat>)

  /** The connection's variables, and what it has done with them: `wires` holds the messages given to each
      socket, `dropped` the overflowed ones, `reconnects` the attempt numbers announced since the last open. */
  datatype Conn = Conn(
    retry: RetryConfig,
    ws: Option<nat>,
    isOpen: bool,
    closedByUser: bool,
    attempts: nat,
    timer: bool,
    pending: seq<Msg>,
    wires: seq<seq<Msg>>,
    dropped: seq<Msg>,
    reconnects: seq<nat>)
  {
    predicate Valid() {
      && (ws.Some? ==> ws.value < |wires|)
      && |pending| <= MAX_PENDING_SENDS
    }
  }

  function InitConn(retry: RetryConfig): (c: Conn)
    ensures c.Valid()
  {
    Conn(retry, None, false, false, 0, false, [], [], [], [])
  }

  function Transmit(c: Conn, msgs: seq<Msg>): Conn
    requires c.Valid() && c.ws.Some?
  {
    c.(wires := c.wires[c.ws.value := c.wires[c.ws.value] + msgs])
  }

  function Send(c: Conn, msg: Msg): (d: Conn)
    requires c.Valid()
    ensures d.Valid()
  {
    if c.isOpen && c.ws.Some? then Transmit(c, [msg])
    else if |c.pending| < MAX_PENDING_SENDS then c.(pending := c.pending + [msg])
    else c.(pending := c.pending[1..] + [msg], dropped := c.dropped + [c.pending[0]])
  }

  function SendAll(c: Conn, msgs: seq<Msg>): (d: Conn)
    requires c.Valid()
    ensures d.Valid()
  {
    if msgs == [] then c else Send(SendAll(c, msgs[..|msgs| - 1]), msgs[|msgs| - 1])
  }

  function Flush(c: Conn): (d: Conn)
    requires c.Valid()
    ensures d.Valid()
  {
    if c.isOpen && c.ws.Some? then Transmit(c, c.pending).(pending := []) else c
  }

  function ScheduleReconnect(c: Conn): (d: Conn)
    requires c.Valid()
    ensures d.Valid()
  {
    if c.closedByUser || !c.retry.enabled || c.timer then c
    else if c.retry.maxRetries.Some? && c.attempts >= c.retry.maxRetries.value then c
    else c.(reconnects := c.reconnects + [c.attempts + 1], attempts := c.attempts + 1, timer := true)
  }

  /** The open handlers' messages go out between marking the connection open and the flush. */
  function OnOpen(c: Conn, handlerMsgs: seq<Msg>): (d: Conn)
    requires c.Valid()
    ensures d.Valid()
  {
    Flush(SendAll(c.(isOpen := true, attempts := 0, reconnects := []), handlerMsgs))
  }

  function OnClose(c: Conn): (d: Conn)
    requires c.Valid()
    ensures d.Valid()
  {
    ScheduleReconnect(c.(isOpen := false))
  }

  function NewSocket(c: Conn): (d: Conn)
    requires c.Valid()
    ensures d.Valid()
  {
    c.(ws := Some(|c.wires|), wires := c.wires + [[]])
  }

  function Close(c: Conn): (d: Conn)
    requires c.Valid()
    ensures d.Valid()
  {
    c.(closedByUser := true, isOpen := false, pending := [], timer := false, ws := None)
  }

  // ---------- the object ----------

  class AgentConnection {
    const retry: RetryConfig
    var ws: Option<nat>
    var isOpen: bool
    var closedByUser: bool
    var reconnectAttempts: nat
    var reconnectTimer: bool
    var pendingSends: seq<Msg>
    var wires: seq<seq<Msg>>
    var dropped: seq<Msg>
    var reconnects: seq<nat>

    function View(): Conn
      reads this
    {
      Conn(retry, ws, isOpen, closedByUser, reconnectAttempts, reconnectTimer, pendingSends, wires, dropped, reconnects)
    }

    constructor (retry: RetryConfig)
      ensures View() == InitConn(retry)
    {
      this.retry := retry;
      ws, isOpen, closedByUser := None, false, false;
      reconnectAttempts, reconnectTimer, pendingSends := 0, false, [];
      wires, dropped, reconnects := [], [], [];
    }

    method SocketSend(data: Msg)
      requires View().Valid() && ws.Some?
      modifies `wires
      ensures View() == Transmit(old(View()), [data])
    {
      wires := wires[ws.value := wires[ws.value] + [data]];
    }

    method SendMessage(msg: Msg)
      requires View().Valid()
      modifies this
      ensures View() == Send(old(View()), msg)
    {
      if isOpen && ws.Some? {
        SocketSend(msg);
        return;
      }
      pendingSends := pendingSends + [msg];
      if |pendingSends| > MAX_PENDING_SENDS {
        dropped := dropped + [pendingSends[0]];
        pendingSends := pendingSends[1..];
      }
    }

    method FlushPendingSends()
      requires View().Valid()
      modifies this
      ensures View() == Flush(old(View()))
    {
      if ws.None? || !isOpen { return; }
      ghost var before := View();
      assert before.wires[ws.value] + [] == before.wires[ws.value];
      for i := 0 to |pendingSends|
        invariant View() == Transmit(before, before.pending[..i])
      {
        ghost var k := ws.value;
        assert before.pending[..i + 1] == before.pending[..i] + [before.pending[i]];
        assert before.wires[k] + before.pending[..i] + [before.pending[i]] == before.wires[k] + before.pending[..i + 1];
        SocketSend(pendingSends[i]);
      }
      assert before.pending[..|before.pending|] == before.pending;
      pendingSends := [];
    }

    method ArmReconnect()
      requires View().Valid()
      modifies this
      ensures View() == ScheduleReconnect(old(View()))
    {
      if closedByUser { return; }
      if !retry.enabled { return; }
      if retry.maxRetries.Some? && reconnectAttempts >= retry.maxRetries.value { return; }
      if reconnectTimer { return; }
      reconnects := reconnects + [reconnectAttempts + 1];
      reconnectAttempts := reconnectAttempts + 1;
      reconnectTimer := true;
    }

    method HandleOpen(handlerMsgs: seq<Msg>)
      requires View().Valid()
      modifies this
      ensures View() == OnOpen(old(View()), handlerMsgs)
    {
      isOpen := true;
      reconnectAttempts := 0;
      reconnects := [];
      ghost var marked := View();
      for i := 0 to |handlerMsgs|
        invariant View().Valid() && View() == SendAll(marked, handlerMsgs[..i])
      {
        assert handlerMsgs[..i + 1][..i] == handlerMsgs[..i];
        SendMessage(handlerMsgs[i]);
      }
      assert handlerMsgs[..|handlerMsgs|] == handlerMsgs;
      FlushPendingSends();
    }

    method HandleClose()
      requires View().Valid()
      modifies this
      ensures View() == OnClose(old(View()))
    {
      isOpen := false;
      ArmReconnect();
    }

    method Connected()
      requires View().Valid()
      modifies this
      ensures View() == NewSocket(old(View()))
    {
      ws := Some(|wires|);
      wires := wires + [[]];
    }

    method CloseByUser()
      requires View().Valid()
      modifies this
      ensures View() == Close(old(View()))
    {
      closedByUser := true;
      isOpen := false;
      pendingSends := [];
      reconnectTimer := false;
      ws := None;
    }
  }

  // ---------- listeners ----------

  /** A registered callback and the messages it sends on this connection when the connection opens. */
  datatype Listener = Listener(id: nat, msgs: seq<Msg>)

  /** Listener sets keep insertion order and ignore a callback already present. */
  function Add(listeners: seq<Listener>, l: Listener): seq<Listener> {
    if l in listeners then listeners else listeners + [l]
  }

  function Remove(listeners: seq<Listener>, l: Listener): seq<Listener> {
    if listeners == [] then []
    else if listeners[0] == l then listeners[1..]
    else [listeners[0]] + Remove(listeners[1..], l)
  }

  lemma {:induction false} RemoveKeepsOthers(listeners: seq<Listener>, l: Listener)
    ensures forall x | x in Remove(listeners, l) :: x in listeners
  {
    if listeners != [] {
      RemoveKeepsOthers(listeners[1..], l);
    }
  }

  function Sends(listeners: seq<Listener>): seq<Msg> {
    if listeners == [] then [] else listeners[0].msgs + Sends(listeners[1..])
  }

  ghost predicate Once(listeners: seq<Listener>) {
    forall i, j | 0 <= i < j < |listeners| :: listeners[i] != listeners[j]
  }

  /** A callback added is there once, and one removed is gone, with the others where they were. */
  lemma {:induction false} AddThenRemove(listeners: seq<Listener>, l: Listener)
    requires Once(listeners)
    ensures Once(Add(listeners, l)) && l in Add(listeners, l) && listeners <= Add(listeners, l)
    ensures l !in listeners ==> Remove(Add(listeners, l), l) == listeners
    ensures Once(Remove(listeners, l)) && l !in Remove(listeners, l)
    ensures forall x | x in listeners && x != l :: x in Remove(listeners, l)
  {
    if listeners != [] {
      var rest := listeners[1..];
      assert listeners == [listeners[0]] + rest;
      AddThenRemove(rest, l);
      RemoveKeepsOthers(rest, l);
      OncePrepend(listeners[0], rest);
      if listeners[0] == l {
        assert Remove(listeners, l) == rest;
      } else {
        OncePrepend(listeners[0], Remove(rest, l));
      }
      if l !in listeners {
        assert Add(listeners, l)[1..] == Add(rest, l);
      }
    }
  }

  lemma OncePrepend(first: Listener, rest: seq<Listener>)
    ensures Once([first] + rest) <==> first !in rest && Once(rest)
  {
    var all := [first] + rest;
    if Once(all) {
      forall i | 0 <= i < |rest| ensures rest[i] != first { assert all[i + 1] != all[0]; }
      forall i, j | 0 <= i < j < |rest| ensures rest[i] != rest[j] { assert all[i + 1] != all[j + 1]; }
    }
  }

  lemma {:induction false} RemoveTakesOne(before: seq<Listener>, l: Listener, after: seq<Listener>)
    requires l !in before
    ensures Remove(before + [l] + after, l) == before + after
  {
    var all := before + [l] + after;
    if before == [] {
      assert all[1..] == after;
    } else {
      assert all[1..] == before[1..] + [l] + after && all[0] == before[0];
      RemoveTakesOne(before[1..], l, after);
      assert before + after == [before[0]] + (before[1..] + after);
    }
  }

  /** The callbacks' messages follow each other in the order of registration. */
  lemma {:induction false} SendsInOrder(listeners: seq<Listener>, l: Listener)
    ensures Sends(listeners + [l]) == Sends(listeners) + l.msgs
  {
    if listeners == [] {
      assert [l][1..] == [] && l.msgs + [] == l.msgs;
    } else {
      assert (listeners + [l])[1..] == listeners[1..] + [l];
      SendsInOrder(listeners[1..], l);
    }
  }

  // ---------- all runs ----------

  datatype Status = Connecting | Live | Closing | Dead

  /** `fetching` counts connect attempts waiting for their ticket; `sent` the messages passed to send(). `hello` is
      the handshake of the session that made the connection, which is `attached` until the session closes. The session's
      own open handlers come before the application's `openListeners`; the first of them reports the connection to
      the session's state store, whose callbacks are the `watchers`. */
  datatype State = State(
    c: Conn,
    sockets: seq<Status>,
    fetching: nat,
    sent: nat,
    hello: seq<Msg>,
    attached: bool,
    anyListeners: seq<Listener>,
    watchers: seq<Listener>,
    openListeners: seq<Listener>)

  datatype Event =
    | UserSend
    | UserClose        // close() of the connection itself
    | SessionClose     // close() of the session
    | Relay(msgs: seq<Msg>)   // sent here by the session's handlers on an older connection of the session
    | UrlReady
    | UrlFails
    | Opens(k: nat)
    | Closes(k: nat)
    | Errors(k: nat)   // an error event, immediately followed by the close event
    | TimerFires
    | On(l: Listener)
    | Off(l: Listener)
    | OnAny(l: Listener)
    | OffAny(l: Listener)
    | Watch(l: Listener)
    | Unwatch(l: Listener)

  /** What a session with these options sends on open. */
  function Hello(credentials: bool, requestState: bool): seq<Msg> {
    (if credentials then [SessionInit] else []) + (if requestState then [GetConversationState] else [])
  }

  /** connect(): the connection starts fetching its first ticket, and the session registers its handlers. */
  function Init(retry: RetryConfig, hello: seq<Msg>, watchers: seq<Listener>): State {
    State(InitConn(retry), [], 1, 0, hello, true, [], watchers, [])
  }

  /** What is sent on an open before the session's handshake has its turn. */
  function Noise(s: State): seq<Msg> { Sends(s.anyListeners) + Sends(s.watchers) }

  /** The session's second handler sends through the session's field, which no longer leads here once the
      session has closed. */
  function Greeting(s: State): seq<Msg> { if s.attached then s.hello else [] }

  /** Everything the callbacks send on an open, in the order in which they are called. */
  function OpenMsgs(s: State): seq<Msg> { Noise(s) + Greeting(s) + Sends(s.openListeners) }

  predicate Enabled(s: State, e: Event) {
    && s.c.Valid()
    && match e
       case SessionClose => s.attached
       case Relay(_) => s.attached
       case Watch(_) => s.attached
       case UrlReady => s.fetching > 0
       case UrlFails => s.fetching > 0
       case Opens(k) => k < |s.sockets| && s.sockets[k].Connecting?
       case Closes(k) => k < |s.sockets| && !s.sockets[k].Dead?
       case Errors(k) => k < |s.sockets| && !s.sockets[k].Dead?
       case TimerFires => s.c.timer
       case _ => true
  }

  function Closed(s: State): State
    requires s.c.Valid()
  {
    s.(c := Close(s.c),
       sockets := if s.c.ws.Some? && s.c.ws.value < |s.sockets| && !s.sockets[s.c.ws.value].Dead?
                  then s.sockets[s.c.ws.value := Closing] else s.sockets)
  }

  function Sent(s: State): State
    requires s.c.Valid()
  {
    s.(c := Send(s.c, User(s.sent)), sent := s.sent + 1)
  }

  function Opened(s: State, k: nat): State
    requires s.c.Valid() && k < |s.sockets|
  {
    s.(c := OnOpen(s.c, OpenMsgs(s)), sockets := s.sockets[k := Live])
  }

  function Next(s: State, e: Event): State
    requires Enabled(s, e)
  {
    match e
    case UserSend => Sent(s)
    case UserClose => Closed(s)
    case SessionClose => Closed(s).(attached := false, watchers := [])
    case Relay(msgs) => s.(c := SendAll(s.c, msgs))
    case UrlReady => s.(c := NewSocket(s.c), sockets := s.sockets + [Connecting], fetching := s.fetching - 1)
    case UrlFails => s.(c := ScheduleReconnect(s.c), fetching := s.fetching - 1)
    case Opens(k) => Opened(s, k)
    case Closes(k) => s.(c := OnClose(s.c), sockets := s.sockets[k := Dead])
    case Errors(k) => s.(c := OnClose(ScheduleReconnect(s.c)), sockets := s.sockets[k := Dead])
    case TimerFires =>
      s.(c := s.c.(timer := false), fetching := if s.c.closedByUser then s.fetching else s.fetching + 1)
    case On(l) => s.(openListeners := Add(s.openListeners, l))
    case Off(l) => s.(openListeners := Remove(s.openListeners, l))
    case OnAny(l) => s.(anyListeners := Add(s.anyListeners, l))
    case OffAny(l) => s.(anyListeners := Remove(s.anyListeners, l))
    case Watch(l) => s.(watchers := Add(s.watchers, l))
    case Unwatch(l) => s.(watchers := Remove(s.watchers, l))
  }

  ghost predicate Run(s: State, es: seq<Event>, t: State)
    decreases es
  {
    if es == [] then s == t else Enabled(s, es[0]) && Run(Next(s, es[0]), es[1..], t)
  }

  // ---------- who is registered ----------

  /** The last of the two calls made for a callback decides, and its state before if there was none. */
  function Registered(before: bool, es: seq<Event>, on: Event, off: Event): bool
    decreases es
  {
    if es == [] then before
    else Registered(if es[0] == on then true else if es[0] == off then false else before, es[1..], on, off)
  }

  ghost predicate ListsOnce(s: State) { Once(s.openListeners) && Once(s.anyListeners) }

  lemma {:induction false} StepRegisters(s: State, e: Event, l: Listener)
    requires ListsOnce(s) && Enabled(s, e)
    ensures var t := Next(s, e);
            && ListsOnce(t)
            && (l in t.openListeners <==> Registered(l in s.openListeners, [e], On(l), Off(l)))
            && (l in t.anyListeners <==> Registered(l in s.anyListeners, [e], OnAny(l), OffAny(l)))
  {
    assert [e][1..] == [];
    match e {
      case On(x) => AddThenRemove(s.openListeners, x);
      case OnAny(x) => AddThenRemove(s.anyListeners, x);
      case Off(x) =>
        AddThenRemove(s.openListeners, x);
        RemoveKeepsOthers(s.openListeners, x);
      case OffAny(x) =>
        AddThenRemove(s.anyListeners, x);
        RemoveKeepsOthers(s.anyListeners, x);
      case _ =>
    }
  }

  lemma RegisteredNext(before: bool, es: seq<Event>, on: Event, off: Event)
    requires es != []
    ensures Registered(before, es, on, off) == Registered(Registered(before, [es[0]], on, off), es[1..], on, off)
  {
    assert [es[0]][1..] == [];
  }

  /** On every run a callback is called at an open, once, exactly when it was last registered and not last removed;
      nothing else that happens to the connection adds or removes one. */
  lemma {:induction false} CallbacksAreAsRegistered(s: State, es: seq<Event>, t: State, l: Listener)
    requires ListsOnce(s) && Run(s, es, t)
    ensures ListsOnce(t)
    ensures l in t.openListeners <==> Registered(l in s.openListeners, es, On(l), Off(l))
    ensures l in t.anyListeners <==> Registered(l in s.anyListeners, es, OnAny(l), OffAny(l))
    decreases es
  {
    if es != [] {
      StepRegisters(s, es[0], l);
      RegisteredNext(l in s.openListeners, es, On(l), Off(l));
      RegisteredNext(l in s.anyListeners, es, OnAny(l), OffAny(l));
      CallbacksAreAsRegistered(Next(s, es[0]), es[1..], t, l);
    }
  }

  // ---------- one socket at a time ----------

  predicate Usable(status: Status) { status.Connecting? || status.Live? }

  /** A ticket being fetched, an armed timer and a usable socket exclude each other. */
  ghost predicate Inv(s: State) {
    && s.c.Valid() && |s.sockets| == |s.c.wires|
    && s.fetching <= 1
    && (s.c.timer ==> s.fetching == 0 && !s.c.closedByUser)
    && (forall k | 0 <= k < |s.sockets| && Usable(s.sockets[k]) ::
          k == |s.sockets| - 1 && s.c.ws == Some(k) && s.fetching == 0 && !s.c.timer)
    && (forall k | 0 <= k < |s.sockets| && s.sockets[k].Connecting? :: s.c.wires[k] == [] && !s.c.isOpen)
    && (s.c.isOpen ==> s.sockets != [] && s.sockets[|s.sockets| - 1].Live?)
    && (!s.c.closedByUser ==> forall k | 0 <= k < |s.sockets| :: !s.sockets[k].Closing?)
  }

  lemma {:induction false} SendAllWhenOpen(c: Conn, msgs: seq<Msg>)
    requires c.Valid() && c.isOpen && c.ws.Some?
    ensures SendAll(c, msgs) == Transmit(c, msgs)
  {
    if msgs == [] {
      assert c.wires[c.ws.value] + [] == c.wires[c.ws.value];
    } else {
      SendAllWhenOpen(c, msgs[..|msgs| - 1]);
      assert msgs == msgs[..|msgs| - 1] + [msgs[|msgs| - 1]];
      assert c.wires[c.ws.value] + msgs == c.wires[c.ws.value] + msgs[..|msgs| - 1] + [msgs[|msgs| - 1]];
    }
  }

  /** On an open, the handlers' messages go first and the whole queue follows in order. */
  lemma {:induction false} OpenSendsHandlersThenQueue(c: Conn, handlerMsgs: seq<Msg>)
    requires c.Valid() && c.ws.Some?
    ensures var d := OnOpen(c, handlerMsgs);
            && d.wires == c.wires[c.ws.value := c.wires[c.ws.value] + handlerMsgs + c.pending]
            && d == c.(isOpen := true, attempts := 0, reconnects := [], wires := d.wires, pending := [])
  {
    SendAllWhenOpen(c.(isOpen := true, attempts := 0, reconnects := []), handlerMsgs);
  }

  lemma {:induction false} OpenKeepsInv(s: State, k: nat)
    requires Inv(s) && Enabled(s, Opens(k))
    ensures Inv(Next(s, Opens(k)))
  {
    OpenSendsHandlersThenQueue(s.c, OpenMsgs(s));
  }

  lemma {:induction false} CloseKeepsInv(s: State, k: nat)
    requires Inv(s) && Enabled(s, Closes(k))
    ensures Inv(Next(s, Closes(k)))
  {
    var t := Next(s, Closes(k));
    assert t.c == ScheduleReconnect(s.c.(isOpen := false)) && t.fetching == s.fetching;
    assert t.c.wires == s.c.wires && t.c.ws == s.c.ws && t.c.closedByUser == s.c.closedByUser;
  }

  /** An error event followed by its close event leaves the connection exactly as the close alone. */
  lemma ErrorThenCloseCountsOnce(c: Conn)
    requires c.Valid()
    ensures OnClose(ScheduleReconnect(c)) == OnClose(c)
  {
  }

  /** Sending changes nothing but the queue, or the one open socket's wire, which only grows. */
  ghost predicate OnlySends(c: Conn, d: Conn) {
    && d == c.(wires := d.wires, pending := d.pending, dropped := d.dropped) && |d.wires| == |c.wires|
    && (!c.isOpen || c.ws.None? ==> d.wires == c.wires)
    && (forall k | 0 <= k < |c.wires| :: c.wires[k] <= d.wires[k])
    && (forall k | 0 <= k < |c.wires| && c.ws != Some(k) :: d.wires[k] == c.wires[k])
  }

  lemma {:induction false} SendAllOnlySends(c: Conn, msgs: seq<Msg>)
    requires c.Valid()
    ensures OnlySends(c, SendAll(c, msgs))
  {
    if msgs != [] {
      SendAllOnlySends(c, msgs[..|msgs| - 1]);
    }
  }

  lemma {:induction false} SendKeepsInv(s: State, e: Event)
    requires Inv(s) && Enabled(s, e) && (e.UserSend? || e.Relay?)
    ensures Inv(Next(s, e))
  {
    if e.Relay? {
      SendAllOnlySends(s.c, e.msgs);
    }
  }

  lemma {:induction false} UrlKeepsInv(s: State, e: Event)
    requires Inv(s) && Enabled(s, e) && (e.UrlReady? || e.UrlFails? || e.TimerFires?)
    ensures Inv(Next(s, e))
  {
  }

  lemma {:induction false} UserCloseKeepsInv(s: State)
    requires Inv(s)
    ensures Inv(Closed(s))
  {
  }

  lemma {:induction false} StepKeepsInv(s: State, e: Event)
    requires Inv(s) && Enabled(s, e)
    ensures Inv(Next(s, e))
  {
    match e {
      case Opens(k) => OpenKeepsInv(s, k);
      case Closes(k) => CloseKeepsInv(s, k);
      case Errors(k) =>
        ErrorThenCloseCountsOnce(s.c);
        CloseKeepsInv(s, k);
      case UserSend => SendKeepsInv(s, e);
      case Relay(_) => SendKeepsInv(s, e);
      case UrlReady => UrlKeepsInv(s, e);
      case UrlFails => UrlKeepsInv(s, e);
      case TimerFires => UrlKeepsInv(s, e);
      case UserClose => UserCloseKeepsInv(s);
      case SessionClose => UserCloseKeepsInv(s);
      case _ =>
    }
  }

  lemma {:induction false} RunKeepsInv(s: State, es: seq<Event>, t: State)
    requires Inv(s) && Run(s, es, t)
    ensures Inv(t)
    decreases es
  {
    if es != [] {
      StepKeepsInv(s, es[0]);
      RunKeepsInv(Next(s, es[0]), es[1..], t);
    }
  }

  /** On every run there is at most one usable socket, and none while a
      reconnect is armed or a ticket is being fetched. */
  lemma {:induction false} OneSocketAtATime(
    retry: RetryConfig, hello: seq<Msg>, watchers: seq<Listener>, es: seq<Event>, t: State)
    requires Run(Init(retry, hello, watchers), es, t)
    ensures forall j, k |
              0 <= j < |t.sockets| && 0 <= k < |t.sockets| && Usable(t.sockets[j]) && Usable(t.sockets[k]) :: j == k
    ensures t.c.timer || t.fetching > 0 ==> forall k | 0 <= k < |t.sockets| :: !Usable(t.sockets[k])
  {
    RunKeepsInv(Init(retry, hello, watchers), es, t);
  }

  // ---------- reconnect attempts ----------

  ghost predicate Numbered(c: Conn) {
    && c.reconnects == seq(c.attempts, i => i + 1)
    && (c.retry.maxRetries.Some? ==> c.attempts <= c.retry.maxRetries.value)
  }

  lemma {:induction false} StepKeepsNumbered(s: State, e: Event)
    requires Inv(s) && Enabled(s, e) && Numbered(s.c)
    ensures Numbered(Next(s, e).c) && Next(s, e).c.retry == s.c.retry
  {
    match e {
      case Opens(k) => OpenSendsHandlersThenQueue(s.c, OpenMsgs(s));
      case Relay(msgs) => SendAllOnlySends(s.c, msgs);
      case UrlFails => RescheduleKeepsNumbered(s.c);
      case Closes(k) => CloseKeepsNumbered(s.c);
      case Errors(k) =>
        ErrorThenCloseCountsOnce(s.c);
        CloseKeepsNumbered(s.c);
      case _ =>
    }
  }

  lemma CloseKeepsNumbered(c: Conn)
    requires c.Valid() && Numbered(c)
    ensures Numbered(OnClose(c)) && OnClose(c).retry == c.retry
  {
    RescheduleKeepsNumbered(c.(isOpen := false));
  }

  lemma RescheduleKeepsNumbered(c: Conn)
    requires c.Valid() && Numbered(c)
    ensures Numbered(ScheduleReconnect(c))
  {
  }

  lemma {:induction false} RunKeepsNumbered(s: State, es: seq<Event>, t: State)
    requires Inv(s) && Run(s, es, t) && Numbered(s.c)
    ensures Numbered(t.c) && t.c.retry == s.c.retry
    decreases es
  {
    if es != [] {
      StepKeepsInv(s, es[0]);
      StepKeepsNumbered(s, es[0]);
      RunKeepsNumbered(Next(s, es[0]), es[1..], t);
    }
  }

  /** Between two opens the reconnects announced are numbered 1, 2, 3, ... and never more than
      `maxRetries`, on every run. */
  lemma {:induction false} ReconnectsAreNumberedAndBounded(
    retry: RetryConfig, hello: seq<Msg>, watchers: seq<Listener>, es: seq<Event>, t: State)
    requires Run(Init(retry, hello, watchers), es, t)
    ensures forall i | 0 <= i < |t.c.reconnects| :: t.c.reconnects[i] == i + 1
    ensures retry.maxRetries.Some? ==> |t.c.reconnects| <= retry.maxRetries.value
  {
    RunKeepsNumbered(Init(retry, hello, watchers), es, t);
  }

  /** A reconnect is still allowed. */
  predicate Willing(c: Conn) {
    && !c.closedByUser && c.retry.enabled
    && (c.retry.maxRetries.Some? ==> |c.reconnects| < c.retry.maxRetries.value)
  }

  /** A failed ticket, a close or an error announces the next reconnect and arms its timer, exactly when one is
      still allowed and none is armed. */
  lemma FailureSchedulesIff(s: State, e: Event)
    requires Numbered(s.c) && Enabled(s, e) && (e.UrlFails? || e.Closes? || e.Errors?)
    ensures var d := Next(s, e).c;
            && (if Willing(s.c) && !s.c.timer then d.reconnects == s.c.reconnects + [|s.c.reconnects| + 1] && d.timer
                else d.reconnects == s.c.reconnects && d.timer == s.c.timer)
  {
    ErrorThenCloseCountsOnce(s.c);
  }

  /** A socket is usable, or a ticket or a reconnect is on its way to one. */
  ghost predicate Alive(s: State) {
    s.c.timer || s.fetching > 0 || exists k :: 0 <= k < |s.sockets| && Usable(s.sockets[k])
  }

  lemma {:induction false} StepStaysAlive(s: State, e: Event)
    requires Inv(s) && Numbered(s.c) && Enabled(s, e) && (Willing(s.c) ==> Alive(s))
    ensures Willing(Next(s, e).c) ==> Alive(Next(s, e))
  {
    var t := Next(s, e);
    match e {
      case UrlReady => assert Usable(t.sockets[|s.sockets|]);
      case UrlFails => FailureSchedulesIff(s, e);
      case Closes(k) => FailureSchedulesIff(s, e);
      case Errors(k) => FailureSchedulesIff(s, e);
      case Opens(k) => assert Usable(t.sockets[k]);
      case Relay(msgs) =>
        SendAllOnlySends(s.c, msgs);
        SameSocketsStayAlive(s, t);
      case TimerFires =>
      case UserClose =>
      case SessionClose =>
      case _ => SameSocketsStayAlive(s, t);
    }
  }

  lemma SameSocketsStayAlive(s: State, t: State)
    requires t.sockets == s.sockets && t.fetching == s.fetching && t.c.timer == s.c.timer
    ensures Alive(s) ==> Alive(t)
  {
  }

  lemma {:induction false} RunStaysAlive(s: State, es: seq<Event>, t: State)
    requires Inv(s) && Numbered(s.c) && Run(s, es, t) && (Willing(s.c) ==> Alive(s))
    ensures Willing(t.c) ==> Alive(t)
    decreases es
  {
    if es != [] {
      StepKeepsInv(s, es[0]);
      StepKeepsNumbered(s, es[0]);
      StepStaysAlive(s, es[0]);
      RunStaysAlive(Next(s, es[0]), es[1..], t);
    }
  }

  /** On every run, until it is closed or its retries are used up, a connection is never without a usable socket and
      without anything on its way to one: whatever fails, it tries again. */
  lemma KeepsTrying(retry: RetryConfig, hello: seq<Msg>, watchers: seq<Listener>, es: seq<Event>, t: State)
    requires Run(Init(retry, hello, watchers), es, t) && Willing(t.c)
    ensures t.c.timer || t.fetching > 0 || exists k :: 0 <= k < |t.sockets| && Usable(t.sockets[k])
  {
    RunStaysAlive(Init(retry, hello, watchers), es, t);
  }

  // ---------- close() ----------

  /** No socket is made from here on. */
  ghost predicate NoMoreSockets(s: State) {
    forall es: seq<Event>, t: State | Run(s, es, t) :: |t.c.wires| == |s.c.wires|
  }

  lemma {:induction false} ClosedStaysClosed(s: State, es: seq<Event>, t: State)
    requires Inv(s) && s.c.closedByUser && s.fetching == 0 && Run(s, es, t)
    ensures |t.c.wires| == |s.c.wires|
    decreases es
  {
    if es != [] {
      StepKeepsInv(s, es[0]);
      if es[0].Opens? {
        OpenSendsHandlersThenQueue(s.c, OpenMsgs(s));
      } else if es[0].Relay? {
        SendAllOnlySends(s.c, es[0].msgs);
      }
      ClosedStaysClosed(Next(s, es[0]), es[1..], t);
    }
  }

  /** Neither the connection's close() nor the session's re-checks after the ticket arrives: no socket is made
      afterwards if and only if no ticket was being fetched when it was called. The sockets there are all let go. */
  lemma {:induction false} CloseIsFinalIffNotFetching(s: State, e: Event)
    requires Inv(s) && Enabled(s, e) && (e.UserClose? || e.SessionClose?)
    ensures NoMoreSockets(Next(s, e)) <==> s.fetching == 0
    ensures forall k | 0 <= k < |Next(s, e).sockets| :: !Usable(Next(s, e).sockets[k])
  {
    var closed := Next(s, e);
    StepKeepsInv(s, e);
    if s.fetching == 0 {
      forall es: seq<Event>, t: State | Run(closed, es, t) ensures |t.c.wires| == |closed.c.wires| {
        ClosedStaysClosed(closed, es, t);
      }
    } else {
      var t := Next(closed, UrlReady);
      assert Run(t, [], t);
      assert Run(closed, [UrlReady], t);
    }
  }
}
