/** The session around its connections: the handshake it sends first on every socket, and what
    becomes of it when the session is closed and connected again. */
module Session {
  import opened Common
  import opened Connection

  // ---------- the handshake on one connection ----------

  ghost predicate Silent(listeners: seq<Listener>) { forall l | l in listeners :: l.msgs == [] }

  /** What has been sent on each opened socket begins with the handshake. */
  ghost predicate Greets(s: State) {
    && s.attached && Silent(s.anyListeners) && Silent(s.watchers)
    && (forall k | 0 <= k < |s.c.wires| && k < |s.sockets| && (s.c.wires[k] != [] || s.sockets[k].Live?) ::
          s.hello <= s.c.wires[k])
  }

  /** No callback registered for every event, or for the session's state, sends anything. */
  ghost predicate QuietBefore(es: seq<Event>) {
    forall e | e in es && (e.OnAny? || e.Watch?) :: e.l.msgs == []
  }

  lemma {:induction false} SilentSends(listeners: seq<Listener>)
    requires Silent(listeners)
    ensures Sends(listeners) == []
  {
    if listeners != [] {
      SilentSends(listeners[1..]);
    }
  }

  lemma RemoveStaysSilent(listeners: seq<Listener>, l: Listener)
    requires Silent(listeners)
    ensures Silent(Remove(listeners, l))
  {
    RemoveKeepsOthers(listeners, l);
  }

  lemma OpenSends(s: State, k: nat)
    requires Inv(s) && Enabled(s, Opens(k))
    ensures var wires := Next(s, Opens(k)).c.wires;
            k < |wires| && wires == s.c.wires[k := OpenMsgs(s) + s.c.pending]
  {
    var msgs := OpenMsgs(s);
    assert s.c.ws == Some(k) && s.c.wires[k] == [];
    OpenSendsHandlersThenQueue(s.c, msgs);
    assert [] + msgs == msgs;
  }

  lemma {:induction false} OpenKeepsGreets(s: State, k: nat)
    requires Inv(s) && Greets(s) && Enabled(s, Opens(k))
    ensures Greets(Next(s, Opens(k)))
  {
    SilentSends(s.anyListeners);
    SilentSends(s.watchers);
    OpenSends(s, k);
    HelloLeads(s.hello, Sends(s.openListeners), s.c.pending);
  }

  lemma HelloLeads(hello: seq<Msg>, handlers: seq<Msg>, pending: seq<Msg>)
    ensures hello <= [] + [] + hello + handlers + pending
  {
  }

  lemma {:induction false} SendKeepsGreets(s: State, e: Event)
    requires Inv(s) && Greets(s) && Enabled(s, e) && (e.UserSend? || e.Relay?)
    ensures Greets(Next(s, e))
  {
    var msgs := if e.Relay? then e.msgs else [User(s.sent)];
    assert [User(s.sent)][..0] == [];
    assert e.UserSend? ==> SendAll(s.c, msgs) == Send(s.c, User(s.sent));
    SendAllOnlySends(s.c, msgs);
    WiresGrow(s, Next(s, e));
  }

  lemma WiresGrow(s: State, t: State)
    requires Inv(s) && Greets(s) && OnlySends(s.c, t.c) && t.sockets == s.sockets && t.hello == s.hello && t.attached
    requires t.anyListeners == s.anyListeners && t.watchers == s.watchers
    ensures Greets(t)
  {
    forall k | 0 <= k < |t.c.wires| && k < |t.sockets| && (t.c.wires[k] != [] || t.sockets[k].Live?)
      ensures t.hello <= t.c.wires[k]
    {
      assert s.c.wires[k] <= t.c.wires[k];
      if s.c.wires[k] != t.c.wires[k] {
        assert s.c.isOpen && s.sockets[|s.sockets| - 1].Live? && k == |s.sockets| - 1;
      }
    }
  }

  lemma {:induction false} SocketStepKeepsGreets(s: State, e: Event)
    requires Inv(s) && Greets(s) && Enabled(s, e)
    requires e.UserClose? || e.UrlReady? || e.UrlFails? || e.Closes? || e.Errors? || e.TimerFires?
    ensures Greets(Next(s, e))
  {
    var t := Next(s, e);
    assert t.anyListeners == s.anyListeners && t.watchers == s.watchers && t.hello == s.hello && t.attached;
    assert t.c.wires == if e.UrlReady? then s.c.wires + [[]] else s.c.wires;
  }

  lemma {:induction false} StepKeepsGreets(s: State, e: Event)
    requires Inv(s) && Greets(s) && Enabled(s, e) && !e.SessionClose? && QuietBefore([e])
    ensures Greets(Next(s, e))
  {
    assert e in [e];
    match e {
      case Opens(k) => OpenKeepsGreets(s, k);
      case UserSend => SendKeepsGreets(s, e);
      case Relay(_) => SendKeepsGreets(s, e);
      case OffAny(l) => RemoveStaysSilent(s.anyListeners, l);
      case Unwatch(l) => RemoveStaysSilent(s.watchers, l);
      case OnAny(l) =>
      case Watch(l) =>
      case On(l) =>
      case Off(l) =>
      case _ => SocketStepKeepsGreets(s, e);
    }
  }

  lemma StepKeepsOptions(s: State, e: Event)
    requires Enabled(s, e)
    ensures Next(s, e).attached ==> s.attached
    ensures Next(s, e).hello == s.hello && Next(s, e).c.retry == s.c.retry
  {
    if e.Relay? {
      SendAllOnlySends(s.c, e.msgs);
    } else if e.Opens? {
      SendAllOnlySends(s.c.(isOpen := true, attempts := 0, reconnects := []), OpenMsgs(s));
    }
  }

  /** A connection never comes back to a session that has closed, and keeps its options and handshake. */
  lemma {:induction false} RunKeepsOptions(s: State, es: seq<Event>, t: State)
    requires Run(s, es, t)
    ensures t.attached ==> s.attached
    ensures t.hello == s.hello && t.c.retry == s.c.retry
    decreases es
  {
    if es != [] {
      StepKeepsOptions(s, es[0]);
      RunKeepsOptions(Next(s, es[0]), es[1..], t);
    }
  }

  lemma {:induction false} RunKeepsGreets(s: State, es: seq<Event>, t: State)
    requires Inv(s) && Greets(s) && Run(s, es, t) && t.attached && QuietBefore(es)
    ensures Inv(t) && Greets(t)
    decreases es
  {
    if es != [] {
      assert QuietBefore([es[0]]) by { assert es[0] in es; }
      RunKeepsOptions(Next(s, es[0]), es[1..], t);
      StepKeepsInv(s, es[0]);
      StepKeepsGreets(s, es[0]);
      RunKeepsGreets(Next(s, es[0]), es[1..], t);
    }
  }

  /** While the session is not closed, on every open and reopen, whatever the application queued or registered:
      the first messages on each socket are session_init, when there are credentials, and then
      get_conversation_state, when enabled. */
  lemma {:induction false} HandshakeComesFirst(
    retry: RetryConfig, credentials: bool, requestState: bool, watchers: seq<Listener>,
    es: seq<Event>, t: State, k: nat)
    requires Run(Init(retry, Hello(credentials, requestState), watchers), es, t) && t.attached
    requires QuietBefore(es) && Silent(watchers)
    requires k < |t.sockets| && k < |t.c.wires| && (t.sockets[k].Live? || t.c.wires[k] != [])
    ensures Hello(credentials, requestState) <= t.c.wires[k]
    ensures credentials ==> |t.c.wires[k]| >= 1 && t.c.wires[k][0] == SessionInit
    ensures requestState ==>
              var i := if credentials then 1 else 0;
              |t.c.wires[k]| > i && t.c.wires[k][i] == GetConversationState
  {
    var s := Init(retry, Hello(credentials, requestState), watchers);
    RunKeepsGreets(s, es, t);
    RunKeepsOptions(s, es, t);
  }

  /** What comes before a greeting keeps it first only if there is nothing before it or it greets as well. */
  lemma GreetingStaysFirst(noise: seq<Msg>, credentials: bool, requestState: bool, rest: seq<Msg>)
    ensures var hello := Hello(credentials, requestState);
            hello <= noise + (hello + rest) <==> noise == [] || hello <= noise
  {
    var hello := Hello(credentials, requestState);
    var all := noise + (hello + rest);
    if |hello| <= |noise| {
      assert all[..|hello|] == noise[..|hello|];
    } else if noise == [] {
      assert all == hello + rest;
    } else {
      assert |noise| == 1 && all[1] == SessionInit && hello[1] == GetConversationState;
    }
  }

  lemma Regroup(noise: seq<Msg>, hello: seq<Msg>, handlers: seq<Msg>, pending: seq<Msg>)
    ensures noise + hello + handlers + pending == noise + (hello + (handlers + pending))
  {
  }

  /** What one open puts on its socket, exactly. While the connection is the session's own, the handshake comes
      first if and only if the catch-all and state callbacks registered by then send nothing, or themselves
      begin with it. Once the session has closed there is no handshake: the socket gets what the application's
      callbacks send, and the queue. */
  ghost predicate OpensLike(s: State, k: nat, hello: seq<Msg>)
    requires Enabled(s, Opens(k))
  {
    var wires := Next(s, Opens(k)).c.wires;
    && k < |wires|
    && var early := Sends(s.anyListeners) + Sends(s.watchers);
       wires[k] == early + (if s.attached then hello else []) + Sends(s.openListeners) + s.c.pending
       && (s.attached ==> (hello <= wires[k] <==> early == [] || hello <= early))
  }

  lemma OpenIsExact(s: State, k: nat, credentials: bool, requestState: bool)
    requires Inv(s) && Enabled(s, Opens(k)) && s.hello == Hello(credentials, requestState)
    ensures OpensLike(s, k, s.hello)
  {
    OpenSends(s, k);
    if s.attached {
      Regroup(Noise(s), s.hello, Sends(s.openListeners), s.c.pending);
      GreetingStaysFirst(Noise(s), credentials, requestState, Sends(s.openListeners) + s.c.pending);
    } else {
      assert Noise(s) + [] == Noise(s);
    }
  }

  /** The exact condition, on every open and reopen of every run, before and after the session's close(). */
  lemma HandshakeComesFirstIff(
    retry: RetryConfig, credentials: bool, requestState: bool, watchers: seq<Listener>,
    es: seq<Event>, t: State, k: nat)
    requires Run(Init(retry, Hello(credentials, requestState), watchers), es, t) && Enabled(t, Opens(k))
    ensures OpensLike(t, k, Hello(credentials, requestState))
  {
    var s := Init(retry, Hello(credentials, requestState), watchers);
    RunKeepsInv(s, es, t);
    RunKeepsOptions(s, es, t);
    OpenIsExact(t, k, credentials, requestState);
  }

  lemma Prepend(s: State, e: Event, es: seq<Event>, t: State)
    requires Enabled(s, e) && Run(Next(s, e), es, t)
    ensures Run(s, [e] + es, t)
  {
    assert ([e] + es)[1..] == es;
  }

  /** The first ticket arrives and its socket opens. */
  lemma FirstOpen(s: State) returns (t: State)
    requires Inv(s) && s.fetching == 1 && s.sockets == [] && s.c.wires == [] && s.c.pending == []
    ensures Run(s, [UrlReady, Opens(0)], t) && t.c.wires == [OpenMsgs(s)]
  {
    var ready := Next(s, UrlReady);
    StepKeepsInv(s, UrlReady);
    assert ready.sockets == [Connecting] && ready.c.wires == [[]] && OpenMsgs(ready) == OpenMsgs(s);
    t := Next(ready, Opens(0));
    OpenSends(ready, 0);
    assert OpenMsgs(s) + [] == OpenMsgs(s);
    assert Run(t, [], t);
    Prepend(ready, Opens(0), [], t);
    Prepend(s, UrlReady, [Opens(0)], t);
    assert [Opens(0)] + [] == [Opens(0)] && [UrlReady] + [Opens(0)] == [UrlReady, Opens(0)];
  }

  /** A catch-all callback, or one that follows the session's state, gets ahead of the handshake if it sends on open. */
  lemma NoisyCallbackComesFirst(retry: RetryConfig, text: string, e: Event) returns (t: State)
    requires e == OnAny(Listener(0, [Other(text)])) || e == Watch(Listener(0, [Other(text)]))
    ensures Run(Init(retry, Hello(true, true), []), [e, UrlReady, Opens(0)], t)
    ensures t.c.wires == [[Other(text), SessionInit, GetConversationState]]
  {
    var s, noisy := Init(retry, Hello(true, true), []), Listener(0, [Other(text)]);
    var u := Next(s, e);
    assert Sends([noisy]) == [Other(text)] by { assert [noisy][1..] == []; }
    assert Add([], noisy) == [noisy] && Sends([]) == [];
    assert Noise(u) == [Other(text)] && Sends(u.openListeners) == [];
    assert OpenMsgs(u) == [Other(text), SessionInit, GetConversationState];
    t := FirstOpen(u);
    Prepend(s, e, [UrlReady, Opens(0)], t);
    assert [e] + [UrlReady, Opens(0)] == [e, UrlReady, Opens(0)];
  }

  /** A socket whose ticket was being fetched when the session closed still opens, and nothing is sent on it. */
  lemma LateSocketIsNotGreeted(retry: RetryConfig) returns (t: State)
    ensures Run(Init(retry, Hello(true, true), []), [SessionClose, UrlReady, Opens(0)], t) && t.c.wires == [[]]
  {
    var s := Init(retry, Hello(true, true), []);
    StepKeepsInv(s, SessionClose);
    assert OpenMsgs(Next(s, SessionClose)) == [];
    t := FirstOpen(Next(s, SessionClose));
    Prepend(s, SessionClose, [UrlReady, Opens(0)], t);
    assert [SessionClose] + [UrlReady, Opens(0)] == [SessionClose, UrlReady, Opens(0)];
  }

  // ---------- the session and all its connections ----------

  /** All connections a session has made, and the one its field holds. `watchers` follow the session's state
      and send through the session. */
  datatype Session = Session(conns: seq<State>, current: Option<nat>, watchers: seq<Listener>)

  /** The application connects and closes the session and follows its state; anything else happens at one connection. */
  datatype Act =
    | Connect(retry: RetryConfig, credentials: bool, requestState: bool)
    | CloseSession
    | OnState(l: Listener)
    | OffState(l: Listener)
    | At(i: nat, e: Event)

  const EMPTY := Session([], None, [])

  /** The steps that a connection takes without its session. */
  predicate Own(e: Event) { !e.SessionClose? && !e.Relay? && !e.Watch? && !e.Unwatch? }

  predicate CurrentIn(s: Session) {
    s.current.Some? ==> s.current.value < |s.conns| && Enabled(s.conns[s.current.value], SessionClose)
  }

  predicate Able(s: Session, a: Act) {
    CurrentIn(s) && (a.At? ==> a.i < |s.conns| && Own(a.e) && Enabled(s.conns[a.i], a.e))
  }

  /** One step of the connection in the session's field, if any. */
  function AtCurrent(s: Session, e: Event): seq<State>
    requires CurrentIn(s) && (e.SessionClose? || e.Relay? || e.Watch? || e.Unwatch?)
  {
    if s.current.None? then s.conns else s.conns[s.current.value := Next(s.conns[s.current.value], e)]
  }

  /** When a socket opens on a connection that the session has left, the session's handlers there send through the
      field all the same, so their messages go to the connection that has taken its place. */
  predicate Strays(s: Session, a: Act) {
    a.At? && a.e.Opens? && s.current.Some? && s.current.value != a.i
  }

  function Do(s: Session, a: Act): Session
    requires Able(s, a)
  {
    match a
    case Connect(retry, credentials, requestState) =>
      if s.current.Some? then s
      else
        var made := Init(retry, Hello(credentials, requestState), s.watchers);
        s.(conns := s.conns + [made], current := Some(|s.conns|))
    case CloseSession => Session(AtCurrent(s, SessionClose), None, [])
    case OnState(l) => s.(conns := AtCurrent(s, Watch(l)), watchers := Add(s.watchers, l))
    case OffState(l) => s.(conns := AtCurrent(s, Unwatch(l)), watchers := Remove(s.watchers, l))
    case At(i, e) =>
      var relayed := if Strays(s, a) then AtCurrent(s, Relay(Sends(s.watchers) + s.conns[i].hello)) else s.conns;
      s.(conns := relayed[i := Next(s.conns[i], e)])
  }

  ghost predicate Acts(s: Session, acts: seq<Act>, t: Session)
    decreases acts
  {
    if acts == [] then s == t else Able(s, acts[0]) && Acts(Do(s, acts[0]), acts[1..], t)
  }

  /** Exactly the connection in the session's field is attached, and only its opens reach the session's watchers. */
  ghost predicate Tracks(s: Session) {
    && (s.current.Some? ==> s.current.value < |s.conns|)
    && (forall i | 0 <= i < |s.conns| ::
          && Inv(s.conns[i])
          && (s.conns[i].attached <==> s.current == Some(i))
          && s.conns[i].watchers == if s.current == Some(i) then s.watchers else [])
  }

  lemma OwnStepTracks(c: State, e: Event)
    requires Inv(c) && Enabled(c, e) && Own(e)
    ensures Inv(Next(c, e)) && Next(c, e).attached == c.attached && Next(c, e).watchers == c.watchers
  {
    StepKeepsInv(c, e);
  }

  lemma SessionStepTracks(s: Session, e: Event, current: Option<nat>, watchers: seq<Listener>)
    requires Tracks(s) && CurrentIn(s) && (e.SessionClose? || e.Relay? || e.Watch? || e.Unwatch?)
    requires current == if e.SessionClose? then None else s.current
    requires s.current.Some? ==> watchers == Next(s.conns[s.current.value], e).watchers
    ensures Tracks(Session(AtCurrent(s, e), current, watchers))
  {
    if s.current.Some? { StepKeepsInv(s.conns[s.current.value], e); }
  }

  lemma OwnActTracks(s: Session, i: nat, e: Event)
    requires Tracks(s) && i < |s.conns| && Own(e) && Enabled(s.conns[i], e)
    ensures Tracks(s.(conns := s.conns[i := Next(s.conns[i], e)]))
  {
    OwnStepTracks(s.conns[i], e);
  }

  lemma ConnectTracks(s: Session, retry: RetryConfig, credentials: bool, requestState: bool)
    requires Tracks(s) && Able(s, Connect(retry, credentials, requestState))
    ensures Tracks(Do(s, Connect(retry, credentials, requestState)))
  {
  }

  lemma ActKeepsTracks(s: Session, a: Act)
    requires Tracks(s) && Able(s, a)
    ensures Tracks(Do(s, a))
  {
    match a {
      case Connect(retry, credentials, requestState) => ConnectTracks(s, retry, credentials, requestState);
      case CloseSession => SessionStepTracks(s, SessionClose, None, []);
      case OnState(l) => SessionStepTracks(s, Watch(l), s.current, Add(s.watchers, l));
      case OffState(l) => SessionStepTracks(s, Unwatch(l), s.current, Remove(s.watchers, l));
      case At(i, e) =>
        if Strays(s, a) {
          var stray := Relay(Sends(s.watchers) + s.conns[i].hello);
          SessionStepTracks(s, stray, s.current, s.watchers);
          OwnActTracks(s.(conns := AtCurrent(s, stray)), i, e);
        } else {
          OwnActTracks(s, i, e);
        }
    }
  }

  lemma {:induction false} ActsKeepTracks(s: Session, acts: seq<Act>, t: Session)
    requires Tracks(s) && Acts(s, acts, t)
    ensures Tracks(t)
    decreases acts
  {
    if acts != [] {
      ActKeepsTracks(s, acts[0]);
      ActsKeepTracks(Do(s, acts[0]), acts[1..], t);
    }
  }

  /** No callback of the application for every event, or for the session's state, sends anything. */
  ghost predicate QuietActs(acts: seq<Act>) {
    forall a | a in acts :: (a.OnState? ==> a.l.msgs == []) && (a.At? && a.e.OnAny? ==> a.e.l.msgs == [])
  }

  /** One act is at most one step of each connection. */
  lemma ActIsStep(s: Session, a: Act, i: nat) returns (es: seq<Event>)
    requires Tracks(s) && Able(s, a) && i < |s.conns|
    ensures i < |Do(s, a).conns| && Run(s.conns[i], es, Do(s, a).conns[i])
    ensures QuietActs([a]) ==> QuietBefore(es)
  {
    assert a in [a];
    var c, d := s.conns[i], Do(s, a).conns[i];
    es := match a
      case Connect(_, _, _) => []
      case CloseSession => if s.current == Some(i) then [SessionClose] else []
      case OnState(l) => if s.current == Some(i) then [Watch(l)] else []
      case OffState(l) => if s.current == Some(i) then [Unwatch(l)] else []
      case At(j, e) =>
        if j == i then [e]
        else if Strays(s, a) && s.current == Some(i) then [Relay(Sends(s.watchers) + s.conns[j].hello)]
        else [];
    if es == [] {
      assert c == d;
    } else {
      assert Enabled(c, es[0]) && Next(c, es[0]) == d;
      assert Run(d, [], d);
      Prepend(c, es[0], [], d);
      assert [es[0]] + [] == es;
    }
  }

  lemma {:induction false} RunsJoin(s: State, es: seq<Event>, t: State, fs: seq<Event>, u: State)
    requires Run(s, es, t) && Run(t, fs, u)
    ensures Run(s, es + fs, u)
    decreases es
  {
    if es == [] {
      assert es + fs == fs;
    } else {
      RunsJoin(Next(s, es[0]), es[1..], t, fs, u);
      assert (es + fs)[1..] == es[1..] + fs;
    }
  }

  lemma {:induction false} ActsAreSteps(s: Session, acts: seq<Act>, t: Session, i: nat) returns (es: seq<Event>)
    requires Tracks(s) && Acts(s, acts, t) && i < |s.conns|
    ensures i < |t.conns| && Run(s.conns[i], es, t.conns[i])
    ensures QuietActs(acts) ==> QuietBefore(es)
    decreases acts
  {
    es := [];
    if acts != [] {
      var a, u := acts[0], Do(s, acts[0]);
      var first := ActIsStep(s, a, i);
      ActKeepsTracks(s, a);
      var rest := ActsAreSteps(u, acts[1..], t, i);
      RunsJoin(s.conns[i], first, u.conns[i], rest, t.conns[i]);
      es := first + rest;
      if QuietActs(acts) { QuietParts(acts); }
    }
  }

  ghost predicate FromInit(c: State, es: seq<Event>, watchers: seq<Listener>, credentials: bool, requestState: bool) {
    c.hello == Hello(credentials, requestState) && Run(Init(c.c.retry, c.hello, watchers), es, c)
  }

  lemma QuietParts(acts: seq<Act>)
    requires acts != [] && QuietActs(acts)
    ensures QuietActs([acts[0]]) && QuietActs(acts[1..])
  {
    assert acts[0] in acts;
  }

  lemma ActMakes(s: Session, a: Act)
    requires Able(s, a)
    ensures |s.conns| <= |Do(s, a).conns| <= |s.conns| + 1
    ensures |Do(s, a).conns| > |s.conns| ==>
              a.Connect?
              && Do(s, a).conns[|s.conns|] == Init(a.retry, Hello(a.credentials, a.requestState), s.watchers)
  {
  }

  /** The act of a run that makes connection `i`, the state it leaves, and the acts before and after. */
  lemma {:induction false} MadeBy(s: Session, acts: seq<Act>, t: Session, i: nat, quiet: bool)
    returns (u: Session, a: Act, rest: seq<Act>, watchers: seq<Listener>)
    requires Tracks(s) && Acts(s, acts, t) && |s.conns| <= i < |t.conns|
    requires quiet ==> QuietActs(acts) && Silent(s.watchers)
    ensures a.Connect? && Tracks(u) && Acts(u, rest, t) && i < |u.conns|
    ensures u.conns[i] == Init(a.retry, Hello(a.credentials, a.requestState), watchers)
    ensures quiet ==> QuietActs(rest) && Silent(watchers)
    decreases acts
  {
    var v := Do(s, acts[0]);
    ActKeepsTracks(s, acts[0]);
    ActMakes(s, acts[0]);
    if quiet {
      QuietParts(acts);
      WatchersStaySilent(s, acts[0]);
    }
    if |v.conns| > i {
      u, a, rest, watchers := v, acts[0], acts[1..], s.watchers;
    } else {
      u, a, rest, watchers := MadeBy(v, acts[1..], t, i, quiet);
    }
  }

  /** Whatever the application does with the session, each of its connections makes a run of its own, so all
      that holds of every run of a connection holds of it. */
  lemma EachConnectionRuns(acts: seq<Act>, t: Session, i: nat)
    returns (es: seq<Event>, watchers: seq<Listener>, credentials: bool, requestState: bool)
    requires Acts(EMPTY, acts, t) && i < |t.conns|
    ensures FromInit(t.conns[i], es, watchers, credentials, requestState)
    ensures QuietActs(acts) ==> QuietBefore(es) && Silent(watchers)
  {
    var u, a, rest;
    u, a, rest, watchers := MadeBy(EMPTY, acts, t, i, QuietActs(acts));
    es := RunFromConnect(u, rest, t, i, watchers, a);
    credentials, requestState := a.credentials, a.requestState;
  }

  lemma RunFromConnect(u: Session, acts: seq<Act>, t: Session, i: nat, watchers: seq<Listener>, a: Act)
    returns (es: seq<Event>)
    requires Tracks(u) && Acts(u, acts, t) && i < |u.conns| && a.Connect?
    requires u.conns[i] == Init(a.retry, Hello(a.credentials, a.requestState), watchers)
    ensures i < |t.conns| && FromInit(t.conns[i], es, watchers, a.credentials, a.requestState)
    ensures QuietActs(acts) ==> QuietBefore(es)
  {
    es := ActsAreSteps(u, acts, t, i);
    RunKeepsOptions(u.conns[i], es, t.conns[i]);
  }

  lemma WatchersStaySilent(s: Session, a: Act)
    requires Able(s, a)
    ensures QuietActs([a]) && Silent(s.watchers) ==> Silent(Do(s, a).watchers)
  {
    assert a in [a];
    if Silent(s.watchers) && a.OffState? { RemoveStaysSilent(s.watchers, a.l); }
  }

  /** So across any number of close() and connect(): on the connection in the session's field the handshake is
      first on every socket, also when the handlers of an older connection have sent theirs here, as long as no
      early callback sends. */
  lemma SessionHandshakeComesFirst(acts: seq<Act>, t: Session, i: nat, k: nat)
    requires Acts(EMPTY, acts, t) && QuietActs(acts) && t.current == Some(i) && i < |t.conns|
    requires k < |t.conns[i].sockets| && k < |t.conns[i].c.wires|
    requires t.conns[i].sockets[k].Live? || t.conns[i].c.wires[k] != []
    ensures t.conns[i].hello <= t.conns[i].c.wires[k]
  {
    ActsKeepTracks(EMPTY, acts, t);
    var es, watchers, credentials, requestState := EachConnectionRuns(acts, t, i);
    HandshakeComesFirst(t.conns[i].c.retry, credentials, requestState, watchers, es, t.conns[i], k);
  }

  /** What the session's handlers send when a socket opens on a connection that the session has left: it goes to the
      connection in the field, and nothing else changes there or elsewhere. */
  lemma StraysGoToCurrent(t: Session, i: nat, k: nat)
    requires Able(t, At(i, Opens(k)))
    ensures var u := Do(t, At(i, Opens(k)));
            && |u.conns| == |t.conns| && u.conns[i] == Next(t.conns[i], Opens(k))
            && (forall j | 0 <= j < |t.conns| && j != i ::
                  u.conns[j] == if t.current == Some(j)
                                then t.conns[j].(c := SendAll(t.conns[j].c, Sends(t.watchers) + t.conns[i].hello))
                                else t.conns[j])
  {
  }

  /** Every open of every connection of a session is exactly as on a connection of its own, and the one in the
      field, no other, is greeted. */
  lemma SessionOpenIsExact(acts: seq<Act>, t: Session, i: nat, k: nat)
    requires Acts(EMPTY, acts, t) && Able(t, At(i, Opens(k)))
    ensures OpensLike(t.conns[i], k, t.conns[i].hello) && (t.conns[i].attached <==> t.current == Some(i))
  {
    ActsKeepTracks(EMPTY, acts, t);
    var es, watchers, credentials, requestState := EachConnectionRuns(acts, t, i);
    OpenIsExact(t.conns[i], k, credentials, requestState);
  }

  /** Closing lets go of the session's callbacks, and the next connection starts anew without them. */
  lemma ClosingStartsAnew(acts: seq<Act>, t: Session, retry: RetryConfig, credentials: bool, requestState: bool)
    requires Acts(EMPTY, acts, t)
    ensures Able(t, CloseSession)
    ensures var closed := Do(t, CloseSession);
            && |closed.conns| == |t.conns| && (forall i | 0 <= i < |t.conns| :: !closed.conns[i].attached)
            && Able(closed, Connect(retry, credentials, requestState))
            && Do(closed, Connect(retry, credentials, requestState))
               == Session(closed.conns + [Init(retry, Hello(credentials, requestState), [])], Some(|t.conns|), [])
  {
    ActsKeepTracks(EMPTY, acts, t);
    ActKeepsTracks(t, CloseSession);
  }

  lemma QueuesTwo(c: Conn, first: Msg, second: Msg)
    requires c.Valid() && !c.isOpen && c.pending == []
    ensures SendAll(c, [first, second]).pending == [first, second]
  {
    assert [first, second][..1] == [first] && [first][..0] == [];
    assert SendAll(c, [first]) == Send(SendAll(c, []), first);
  }

  lemma StrayOpens(s: Session) returns (t: Session)
    requires |s.conns| == 2 && s.current == Some(1) && s.watchers == [] && Able(s, At(0, Opens(0)))
    requires var c := s.conns[0];
             && Inv(c) && !c.attached && c.hello == Hello(true, true) && c.c.wires == [[]] && c.c.pending == []
             && c.anyListeners == c.watchers == c.openListeners == []
    requires var c := s.conns[1].c; c.Valid() && !c.isOpen && c.pending == []
    ensures t == Do(s, At(0, Opens(0))) && |t.conns| == 2 && t.current == Some(1)
    ensures t.conns[0].c.wires == [[]] && t.conns[1].c.pending == [SessionInit, GetConversationState]
  {
    t := Do(s, At(0, Opens(0)));
    StraysGoToCurrent(s, 0, 0);
    QueuesTwo(s.conns[1].c, SessionInit, GetConversationState);
    assert Sends([]) + Hello(true, true) == [SessionInit, GetConversationState];
    OpenSends(s.conns[0], 0);
    assert OpenMsgs(s.conns[0]) == [];
  }

  lemma Reconnected(retry: RetryConfig) returns (t: Session)
    ensures var connect, made := Connect(retry, true, true), Init(retry, Hello(true, true), []);
            && Acts(EMPTY, [connect, CloseSession, connect], t)
            && Enabled(made, SessionClose) && t == Session([Next(made, SessionClose), made], Some(1), [])
  {
    var connect := Connect(retry, true, true);
    var made := Do(EMPTY, connect);
    var closed := Do(made, CloseSession);
    t := Do(closed, connect);
    assert Acts(t, [], t);
    PrependAct(closed, connect, [], t);
    PrependAct(made, CloseSession, [connect], t);
    PrependAct(EMPTY, connect, [CloseSession, connect], t);
    assert [connect] + [] == [connect] && [CloseSession] + [connect] == [CloseSession, connect];
    assert [connect] + [CloseSession, connect] == [connect, CloseSession, connect];
  }

  /** The stray handshake does occur: closed while fetching and connected again, the first connection's socket opens
      ungreeted, and its session_init waits in the second connection's queue. */
  lemma HandshakeGoesAstray(retry: RetryConfig) returns (s: Session, t: Session)
    ensures var connect := Connect(retry, true, true); Acts(EMPTY, [connect, CloseSession, connect], s)
    ensures Acts(s, [At(0, UrlReady), At(0, Opens(0))], t)
    ensures |t.conns| == 2 && t.current == Some(1)
    ensures t.conns[0].c.wires == [[]] && t.conns[1].c.pending == [SessionInit, GetConversationState]
  {
    s := Reconnected(retry);
    var ready, opens := At(0, UrlReady), At(0, Opens(0));
    var d := Do(s, ready);
    StepKeepsInv(Init(retry, Hello(true, true), []), SessionClose);
    StepKeepsInv(s.conns[0], UrlReady);
    t := StrayOpens(d);
    assert Acts(t, [], t);
    PrependAct(d, opens, [], t);
    PrependAct(s, ready, [opens], t);
    assert [opens] + [] == [opens] && [ready] + [opens] == [ready, opens];
  }

  lemma PrependAct(s: Session, a: Act, acts: seq<Act>, t: Session)
    requires Able(s, a) && Acts(Do(s, a), acts, t)
    ensures Acts(s, [a] + acts, t)
  {
    assert ([a] + acts)[1..] == acts;
  }
}
