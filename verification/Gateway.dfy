/** The WebSocket gateway of apps/ws-gateway/src/gateway.ts: sockets bound to one tenant each,
    fan-out of tenant messages, and the heartbeat. */
module Gateway {
  import opened Wrappers

  datatype Socket = Socket(id: nat)

  datatype Binding = Binding(tenantId: string, isAlive: bool)

  /** One call of `send`, recorded with the channel the message came on and the tenant its payload
      names, whatever they are. */
  datatype Attempt = Attempt(ws: Socket, channel: string, envelope: Option<string>, message: string)

  const PREFIX := "tenant:"

  /** `tenantIdFromChannel` of packages/realtime/src/events.ts. */
  function TenantOf(channel: string): Option<string> {
    if |channel| > |PREFIX| && channel[..|PREFIX|] == PREFIX then Some(channel[|PREFIX|..]) else None
  }

  /** A channel names a tenant exactly when it is that tenant's channel, "tenant:" and a non-empty id;
      every other channel, "tenant:" itself included, names none. */
  lemma ChannelNamesItsTenant(channel: string, tenantId: string)
    ensures TenantOf(channel) == Some(tenantId) <==> tenantId != "" && channel == "tenant:" + tenantId
    ensures TenantOf(channel) == None <==> forall t :: t != "" ==> channel != "tenant:" + t
  {
    assert ("tenant:" + tenantId)[..7] == "tenant:" && ("tenant:" + tenantId)[7..] == tenantId;
    if TenantOf(channel).Some? { assert channel == "tenant:" + TenantOf(channel).value; }
    forall t | t != "" && channel == "tenant:" + t ensures TenantOf(channel) == Some(t) {
      assert channel[..7] == "tenant:" && channel[7..] == t;
    }
  }

  /** A message as it arrives: `envelope` is the tenant in its payload, None when it is malformed;
      `open` are the sockets ready to send and `throwing` those whose send throws. */
  datatype Arrival = Arrival(channel: string, message: string, envelope: Option<string>, open: set<Socket>,
                             throwing: set<Socket>)

  /** `handlers` records for each socket the tenant its close handler captured when it was bound. */
  datatype State = State(
    byTenant: map<string, set<Socket>>,
    sockets: map<Socket, Binding>,
    handlers: map<Socket, string>,
    attempts: multiset<Attempt>,
    reports: nat)

  datatype Event =
    | Authorized(ws: Socket, tenantId: Option<string>)
    | Pong(ws: Socket)
    | Closed(ws: Socket)
    | Sweep
    | Message(arrival: Arrival)

  const START := State(map[], map[], map[], multiset{}, 0)

  function BoundTo(st: State, tenantId: string): set<Socket> {
    if tenantId in st.byTenant then st.byTenant[tenantId] else {}
  }

  /** The tenant a message is for: channel and envelope must agree. */
  function Target(a: Arrival): Option<string> {
    if TenantOf(a.channel).Some? && a.envelope == TenantOf(a.channel) then a.envelope else None
  }

  function AttemptsFor(targets: set<Socket>, a: Arrival): set<Attempt> {
    set ws | ws in targets :: Attempt(ws, a.channel, a.envelope, a.message)
  }

  /** The sockets a heartbeat terminates: those that did not answer the last ping. */
  function Terminates(st: State): set<Socket> { set ws | ws in st.sockets && !st.sockets[ws].isAlive }

  function Step(st: State, e: Event): State {
    match e
    case Authorized(ws, tenantId) =>
      if tenantId.None? then st
      else
        var t := tenantId.value;
        st.(byTenant := st.byTenant[t := BoundTo(st, t) + {ws}], sockets := st.sockets[ws := Binding(t, true)],
            handlers := st.handlers[ws := t])
    case Pong(ws) =>
      if ws in st.sockets then st.(sockets := st.sockets[ws := st.sockets[ws].(isAlive := true)]) else st
    case Closed(ws) =>
      if ws !in st.handlers then st
      else
        var t := st.handlers[ws];
        var rest := BoundTo(st, t) - {ws};
        st.(byTenant := if t !in st.byTenant then st.byTenant
                        else if rest == {} then st.byTenant - {t} else st.byTenant[t := rest],
            sockets := st.sockets - {ws})
    case Sweep => st.(sockets := map ws | ws in st.sockets :: st.sockets[ws].(isAlive := false))
    case Message(a) =>
      var t := Target(a);
      if t.None? then st
      else
        var targets := BoundTo(st, t.value) * a.open;
        st.(attempts := st.attempts + multiset(AttemptsFor(targets, a)),
            reports := st.reports + if targets * a.throwing != {} then 1 else 0)
  }

  /** A connection is a new socket, authorised once. */
  predicate Enabled(st: State, e: Event) { e.Authorized? ==> e.ws !in st.handlers }

  predicate ValidRun(st: State, events: seq<Event>)
    decreases |events|
  {
    events == [] || (Enabled(st, events[0]) && ValidRun(Step(st, events[0]), events[1..]))
  }

  function Run(st: State, events: seq<Event>): State
    decreases |events|
  {
    if events == [] then st else Run(Step(st, events[0]), events[1..])
  }

  // ---------------------------------------------------------------- the handlers

  class Server {
    var byTenant: map<string, set<Socket>>
    var sockets: map<Socket, Binding>
    var attempts: multiset<Attempt>
    var reports: nat
    ghost var handlers: map<Socket, string>

    constructor ()
      ensures StateOf() == START
    {
      byTenant, sockets, attempts, reports, handlers := map[], map[], multiset{}, 0, map[];
    }

    ghost function StateOf(): State
      reads this
    {
      State(byTenant, sockets, handlers, attempts, reports)
    }

    /** The end of a connection's authorisation; a refused socket is never bound. */
    method OnAuthorized(ws: Socket, tenantId: Option<string>)
      modifies this
      ensures StateOf() == Step(old(StateOf()), Authorized(ws, tenantId))
    {
      if tenantId.None? {
        return;
      }
      var t := tenantId.value;
      var bound := if t in byTenant then byTenant[t] else {};
      byTenant := byTenant[t := bound + {ws}];
      sockets := sockets[ws := Binding(t, true)];
      handlers := handlers[ws := t];
    }

    method OnPong(ws: Socket)
      modifies this`sockets
      ensures StateOf() == Step(old(StateOf()), Pong(ws))
    {
      if ws in sockets {
        sockets := sockets[ws := sockets[ws].(isAlive := true)];
      }
    }

    /** The close handler attached at binding; `tenantId` is what it captured. */
    method OnClosed(ws: Socket, tenantId: string)
      requires ws in handlers && handlers[ws] == tenantId
      modifies this`sockets, this`byTenant
      ensures StateOf() == Step(old(StateOf()), Closed(ws))
    {
      sockets := sockets - {ws};
      if tenantId in byTenant {
        var rest := byTenant[tenantId] - {ws};
        byTenant := byTenant[tenantId := rest];
        if rest == {} {
          byTenant := byTenant - {tenantId};
        }
      }
    }

    /** One heartbeat: silent sockets are terminated, the others must answer before the next. */
    method Heartbeat() returns (terminated: set<Socket>)
      modifies this`sockets
      ensures StateOf() == Step(old(StateOf()), Sweep)
      ensures terminated == Terminates(old(StateOf()))
    {
      terminated := {};
      var before := sockets;
      var todo := before.Keys;
      while todo != {}
        invariant todo <= before.Keys && sockets.Keys == before.Keys
        invariant forall ws :: ws in before ==>
          sockets[ws] == if ws in todo then before[ws] else before[ws].(isAlive := false)
        invariant terminated == set ws | ws in before && ws !in todo && !before[ws].isAlive
        decreases todo
      {
        var ws :| ws in todo;
        if !sockets[ws].isAlive {
          terminated := terminated + {ws};
        } else {
          sockets := sockets[ws := sockets[ws].(isAlive := false)];
        }
        todo := todo - {ws};
      }
    }

    /** Tries every open socket of a tenant once; a throwing send does not stop the others. */
    method Deliver(bound: set<Socket>, a: Arrival) returns (failed: bool)
      modifies this`attempts
      ensures attempts == old(attempts) + multiset(AttemptsFor(bound * a.open, a))
      ensures failed <==> bound * a.open * a.throwing != {}
    {
      hide AttemptsFor;
      NothingTried(a);
      failed := false;
      var todo := bound;
      ghost var tried: set<Socket> := {};
      while todo != {}
        invariant todo <= bound && tried == (bound - todo) * a.open
        invariant attempts == old(attempts) + multiset(AttemptsFor(tried, a))
        invariant failed <==> tried * a.throwing != {}
        decreases todo
      {
        var ws :| ws in todo;
        TriedStep(bound, todo, a.open, a.throwing, ws);
        if ws in a.open {
          DeliverStep(tried, ws, a);
          attempts := attempts + multiset{Attempt(ws, a.channel, a.envelope, a.message)};
          failed := failed || ws in a.throwing;
          tried := tried + {ws};
        }
        todo := todo - {ws};
      }
      assert tried == bound * a.open;
    }

    /** Fan-out: only to the sockets of the tenant that channel and envelope agree on; a failed
        delivery is reported once per message. */
    method OnMessage(a: Arrival)
      modifies this`attempts, this`reports
      ensures StateOf() == Step(old(StateOf()), Message(a))
    {
      var channelTenant := TenantOf(a.channel);
      if channelTenant.None? || a.envelope != channelTenant {
        return;
      }
      var t := channelTenant.value;
      if t !in byTenant {
        NothingTried(a);
        return;
      }
      var failed := Deliver(byTenant[t], a);
      if failed {
        reports := reports + 1;
      }
    }
  }

  lemma TriedStep(bound: set<Socket>, todo: set<Socket>, open: set<Socket>, throwing: set<Socket>, ws: Socket)
    requires ws in todo && todo <= bound
    ensures var tried := (bound - todo) * open;
      && (bound - (todo - {ws})) * open == (if ws in open then tried + {ws} else tried)
      && ((tried + {ws}) * throwing != {} <==> tried * throwing != {} || ws in throwing)
      && ws !in tried
  {
    var tried := (bound - todo) * open;
    if ws in throwing {
      assert ws in (tried + {ws}) * throwing;
    } else {
      assert (tried + {ws}) * throwing == tried * throwing;
    }
  }

  lemma NothingTried(a: Arrival)
    ensures AttemptsFor({}, a) == {}
  {}

  lemma DeliverStep(tried: set<Socket>, ws: Socket, a: Arrival)
    requires ws !in tried
    ensures multiset(AttemptsFor(tried + {ws}, a))
         == multiset(AttemptsFor(tried, a)) + multiset{Attempt(ws, a.channel, a.envelope, a.message)}
  {
    assert AttemptsFor(tried + {ws}, a) == AttemptsFor(tried, a) + {Attempt(ws, a.channel, a.envelope, a.message)};
  }

  // ---------------------------------------------------------------- safety over every run

  /** The two maps describe the same binding and no tenant set is empty. */
  ghost predicate Mirrors(st: State) {
    && (forall t, ws :: ws in BoundTo(st, t) <==> ws in st.sockets && st.sockets[ws].tenantId == t)
    && (forall t :: t in st.byTenant ==> st.byTenant[t] != {})
  }

  /** Besides, a bound socket has the tenant its handler captured, and every frame went where
      channel, envelope and socket agree. */
  ghost predicate Consistent(st: State) {
    && Mirrors(st)
    && (forall ws :: ws in st.sockets ==> ws in st.handlers && st.handlers[ws] == st.sockets[ws].tenantId)
    && FramesAgree(st.attempts, st.handlers)
  }

  /** The channel's tenant and the envelope's are both the one the socket was bound to. */
  ghost predicate Agrees(a: Attempt, handlers: map<Socket, string>) {
    a.ws in handlers && a.channel == "tenant:" + handlers[a.ws] && a.envelope == Some(handlers[a.ws])
  }

  ghost predicate FramesAgree(attempts: multiset<Attempt>, handlers: map<Socket, string>) {
    forall a :: a in attempts ==> Agrees(a, handlers)
  }

  lemma MoreFramesAgree(attempts: multiset<Attempt>, added: set<Attempt>, handlers: map<Socket, string>)
    requires FramesAgree(attempts, handlers) && forall a :: a in added ==> Agrees(a, handlers)
    ensures FramesAgree(attempts + multiset(added), handlers)
  {
    forall a | a in attempts + multiset(added) ensures Agrees(a, handlers) {
      assert a in attempts || a in added;
    }
  }

  lemma BindKeepsMirrors(st: State, ws: Socket, t: string)
    requires Mirrors(st) && ws !in st.sockets
    ensures Mirrors(Step(st, Authorized(ws, Some(t))))
  {
    var next := Step(st, Authorized(ws, Some(t)));
    forall u, x ensures x in BoundTo(next, u) <==> x in next.sockets && next.sockets[x].tenantId == u {
      assert x in BoundTo(st, u) <==> x in st.sockets && st.sockets[x].tenantId == u;
    }
    assert ws in next.byTenant[t];
  }

  lemma CloseKeepsMirrors(st: State, ws: Socket)
    requires Mirrors(st) && (ws in st.sockets ==> ws in st.handlers && st.handlers[ws] == st.sockets[ws].tenantId)
    ensures Mirrors(Step(st, Closed(ws)))
  {
    var next := Step(st, Closed(ws));
    forall u, x ensures x in BoundTo(next, u) <==> x in next.sockets && next.sockets[x].tenantId == u {
      assert x in BoundTo(st, u) <==> x in st.sockets && st.sockets[x].tenantId == u;
      assert ws in BoundTo(st, u) <==> ws in st.sockets && st.sockets[ws].tenantId == u;
    }
  }

  lemma SameBindingsKeepMirrors(st: State, next: State)
    requires Mirrors(st) && next.byTenant == st.byTenant && next.sockets.Keys == st.sockets.Keys
    requires forall ws :: ws in st.sockets ==> next.sockets[ws].tenantId == st.sockets[ws].tenantId
    ensures Mirrors(next)
  {
    forall u, x ensures x in BoundTo(next, u) <==> x in next.sockets && next.sockets[x].tenantId == u {
      assert BoundTo(next, u) == BoundTo(st, u);
      assert x in BoundTo(st, u) <==> x in st.sockets && st.sockets[x].tenantId == u;
    }
  }

  lemma MessageKeepsConsistent(st: State, a: Arrival)
    requires Consistent(st)
    ensures Consistent(Step(st, Message(a)))
  {
    if Target(a).Some? {
      var added := AttemptsFor(BoundTo(st, Target(a).value) * a.open, a);
      AttemptsAgree(st, a);
      MoreFramesAgree(st.attempts, added, st.handlers);
      hide AttemptsFor, BoundTo, FramesAgree;
      SameBindingsKeepMirrors(st, Step(st, Message(a)));
    }
  }

  lemma AttemptsAgree(st: State, a: Arrival)
    requires Consistent(st) && Target(a).Some?
    ensures forall x :: x in AttemptsFor(BoundTo(st, Target(a).value) * a.open, a) ==> Agrees(x, st.handlers)
  {
    hide BoundTo, Mirrors, TenantOf;
    ChannelNamesItsTenant(a.channel, Target(a).value);
    forall x | x in AttemptsFor(BoundTo(st, Target(a).value) * a.open, a) ensures Agrees(x, st.handlers) {
      BoundSocketHandler(st, x.ws, Target(a).value);
    }
  }

  lemma BoundSocketHandler(st: State, ws: Socket, t: string)
    requires Consistent(st) && ws in BoundTo(st, t)
    ensures ws in st.handlers && st.handlers[ws] == t
  {
    assert ws in st.sockets && st.sockets[ws].tenantId == t;
  }

  lemma StepKeepsConsistent(st: State, e: Event)
    requires Consistent(st) && Enabled(st, e)
    ensures Consistent(Step(st, e))
  {
    match e
    case Authorized(ws, tenantId) => if tenantId.Some? { BindKeepsMirrors(st, ws, tenantId.value); }
    case Pong(ws) => SameBindingsKeepMirrors(st, Step(st, e));
    case Closed(ws) => CloseKeepsMirrors(st, ws);
    case Sweep => SameBindingsKeepMirrors(st, Step(st, e));
    case Message(a) => MessageKeepsConsistent(st, a);
  }

  /** Over every interleaving of authorisations, closes, pongs, heartbeats and messages. */
  lemma {:induction false} RunKeepsConsistent(st: State, events: seq<Event>)
    requires Consistent(st) && ValidRun(st, events)
    ensures Consistent(Run(st, events))
    decreases |events|
  {
    if events == [] {
    } else {
      StepKeepsConsistent(st, events[0]);
      RunKeepsConsistent(Step(st, events[0]), events[1..]);
    }
  }

  /** From the start of the process. */
  lemma EveryRunIsConsistent(events: seq<Event>)
    requires ValidRun(START, events)
    ensures Consistent(Run(START, events))
  {
    RunKeepsConsistent(START, events);
  }

  /** The message may go to this socket: it is bound to the tenant that the channel names and the
      envelope names too. */
  predicate MeantFor(st: State, a: Arrival, ws: Socket) {
    ws in st.sockets && a.channel == "tenant:" + st.sockets[ws].tenantId != "tenant:"
      && a.envelope == Some(st.sockets[ws].tenantId)
  }

  lemma TargetsAreMeant(st: State, a: Arrival, ws: Socket)
    requires Consistent(st)
    ensures MeantFor(st, a, ws) <==> Target(a).Some? && ws in BoundTo(st, Target(a).value)
  {
    if ws in st.sockets {
      assert ws in BoundTo(st, st.sockets[ws].tenantId);
      ChannelNamesItsTenant(a.channel, st.sockets[ws].tenantId);
    }
  }

  /** A message is tried once on each open socket it is meant for, whatever else throws, and nothing
      else is tried. */
  lemma MessageReachesItsTenant(st: State, a: Arrival, x: Attempt)
    requires Consistent(st)
    ensures Step(st, Message(a)).attempts[x] - st.attempts[x] ==
              if x == Attempt(x.ws, a.channel, a.envelope, a.message) && x.ws in a.open
                && MeantFor(st, a, x.ws) then 1 else 0
  {
    TargetsAreMeant(st, a, x.ws);
    hide MeantFor, BoundTo, Consistent;
    if Target(a).Some? {
      var targets := BoundTo(st, Target(a).value) * a.open;
      assert x in AttemptsFor(targets, a) <==> x == Attempt(x.ws, a.channel, a.envelope, a.message) && x.ws in targets;
    }
  }

  /** A message is reported once if one of its sends threw, and not at all otherwise. */
  lemma FailureIsReportedOnce(st: State, a: Arrival)
    requires Consistent(st)
    ensures Step(st, Message(a)).reports - st.reports ==
              if exists ws :: ws in a.open && ws in a.throwing && MeantFor(st, a, ws) then 1 else 0
  {
    forall ws
      ensures MeantFor(st, a, ws)
        <==> Target(a).Some? && ws in BoundTo(st, Target(a).value)
    {
      TargetsAreMeant(st, a, ws);
    }
    hide MeantFor, BoundTo, Consistent;
    if Target(a).Some? {
      var failing := BoundTo(st, Target(a).value) * a.open * a.throwing;
      assert forall ws :: ws in failing <==> ws in a.open && ws in a.throwing && MeantFor(st, a, ws);
      assert failing != {} <==> exists ws :: ws in failing;
    }
  }

  /** Closing a bound socket removes it from both maps. */
  lemma ClosedSocketIsForgotten(st: State, ws: Socket)
    requires Consistent(st) && ws in st.sockets
    ensures var next := Step(st, Closed(ws));
      ws !in next.sockets && forall t :: ws !in BoundTo(next, t)
  {
    StepKeepsConsistent(st, Closed(ws));
    var next := Step(st, Closed(ws));
    forall t ensures ws !in BoundTo(next, t) {
      assert ws in BoundTo(next, t) ==> ws in next.sockets;
    }
  }

  // ---------------------------------------------------------------- the heartbeat

  ghost predicate StaysBound(events: seq<Event>, ws: Socket) {
    forall i :: 0 <= i < |events| ==> events[i] != Closed(ws)
  }

  ghost predicate Ponged(events: seq<Event>, ws: Socket) {
    exists i :: 0 <= i < |events| && events[i] == Pong(ws)
  }

  lemma AliveStep(st: State, e: Event, ws: Socket)
    requires Consistent(st) && Enabled(st, e) && ws in st.sockets && e != Closed(ws)
    ensures ws in Step(st, e).sockets
    ensures Step(st, e).sockets[ws].isAlive <==> e == Pong(ws) || (!e.Sweep? && st.sockets[ws].isAlive)
  {}

  /** Whether a bound socket counts as alive after some events: as before, or because it ponged. */
  lemma {:induction false} AliveAfter(st: State, events: seq<Event>, ws: Socket)
    requires Consistent(st) && ValidRun(st, events) && ws in st.sockets && StaysBound(events, ws)
    ensures var after := Run(st, events);
      && ws in after.sockets
      && (!Ponged(events, ws) && !st.sockets[ws].isAlive ==> !after.sockets[ws].isAlive)
      && ((forall i :: 0 <= i < |events| ==> !events[i].Sweep?) ==>
            (after.sockets[ws].isAlive <==> st.sockets[ws].isAlive || Ponged(events, ws)))
    decreases |events|
  {
    if events == [] {
    } else {
      var e, rest := events[0], events[1..];
      hide Step, Consistent;
      StepKeepsConsistent(st, e);
      assert e != Closed(ws);
      AliveStep(st, e, ws);
      assert forall i :: 0 <= i < |rest| ==> rest[i] == events[i + 1];
      AliveAfter(Step(st, e), rest, ws);
      if Ponged(rest, ws) {
        var i :| 0 <= i < |rest| && rest[i] == Pong(ws);
        assert events[i + 1] == Pong(ws);
      }
      if Ponged(events, ws) && e != Pong(ws) {
        var i :| 0 <= i < |events| && events[i] == Pong(ws);
        assert rest[i - 1] == Pong(ws);
      }
    }
  }

  /** A bound socket that stays silent after a heartbeat is terminated at the next one, whatever
      else happens in between. */
  lemma SilentSocketIsTerminated(st: State, events: seq<Event>, ws: Socket)
    requires Consistent(st) && ws in st.sockets
    requires ValidRun(Step(st, Sweep), events) && StaysBound(events, ws) && !Ponged(events, ws)
    ensures ws in Terminates(Run(Step(st, Sweep), events))
  {
    StepKeepsConsistent(st, Sweep);
    AliveAfter(Step(st, Sweep), events, ws);
  }

  /** Between two consecutive heartbeats a socket that stays bound is terminated at the second if
      and only if it did not pong. */
  lemma TerminatedIffSilent(st: State, events: seq<Event>, ws: Socket)
    requires Consistent(st) && ws in st.sockets
    requires ValidRun(Step(st, Sweep), events) && StaysBound(events, ws)
    requires forall i :: 0 <= i < |events| ==> !events[i].Sweep?
    ensures ws in Terminates(Run(Step(st, Sweep), events)) <==> !Ponged(events, ws)
  {
    StepKeepsConsistent(st, Sweep);
    AliveAfter(Step(st, Sweep), events, ws);
  }
}
