/** A front connection: the read loop, the handler chain it feeds, and the
    authentication handler, which takes itself out of the chain while the chain
    is being walked. */
module FrontSessions {
  import opened Wrappers

  // ---- what arrives, and what the server's tables say ----

  /** A login packet: whom it is for, whether it names another password plugin,
      and whether its character set is known here. */
  datatype Login = Login(user: string, password: string, database: string, otherPlugin: bool, charsetKnown: bool)

  /** The answers of the privilege tables at the time of a login. */
  datatype Checks = Checks(passwordLess: bool, userExists: bool, passwordOk: bool, limited: bool, schemaOk: bool)

  /** How a wait ends, for an answer to be sent or for a query: as it should, by
      throwing, or with the connection closed by another coroutine meanwhile, after
      which it may throw or not. */
  datatype Wait = Undisturbed | Broken | ClosedMeanwhile(broken: bool)

  /** A packet: is it the five-byte quit packet, what command it carries, what
      login it parses as, if any, what the tables say when it is handled, and how
      the wait in its handling ends. */
  datatype Packet = Packet(
    quit: bool, command: nat, sql: string, login: Option<Login>, checks: Checks, wait: Wait)

  /** One read: the packets it delivers, or an error thrown by the reader, and
      whether another coroutine closed the connection during it. A packet over the
      limit closes the connection and then throws. */
  datatype Read = Batch(packets: seq<Packet>, closed: bool) | ReadThrows(closed: bool) | TooLarge

  const COM_QUIT := 1
  const COM_QUERY := 3

  // ---- the connection ----

  datatype Kind = Auth | Command | Query

  datatype Message = PacketMessage(packet: Packet) | QueryMessage(sql: string, wait: Wait)

  datatype Refusal = AccessDenied | TooManyConnections | BadSchema

  datatype Event =
    | Entered(kind: Kind)
    | LoggedIn(login: Login, checks: Checks)
    | Refused(reason: Refusal)
    | Answered
    | Closed

  /** `queries` are the texts the query handler was given. */
  datatype Session = Session(
    handlers: seq<Kind>, login: Option<Login>, authenticated: bool, closed: bool, thrown: bool, log: seq<Event>,
    queries: seq<string>)

  function Start(): Session {
    Session([Auth, Command, Query], None, false, false, false, [], [])
  }

  function Note(s: Session, e: Event): Session {
    s.(log := s.log + [e])
  }

  /** Closing twice does nothing the second time. */
  function Close(s: Session): Session {
    if s.closed then s else Note(s.(closed := true), Closed)
  }

  function Throw(s: Session): Session {
    s.(thrown := true)
  }

  function Waited(s: Session, w: Wait): (r: Session)
    ensures r.handlers == s.handlers && r.authenticated == s.authenticated
  {
    match w
    case Undisturbed => s
    case Broken => Throw(s)
    case ClosedMeanwhile(broken) => if broken then Throw(Close(s)) else Close(s)
  }

  /** An answer counts when it is sent on an open connection. */
  function Answer(s: Session, w: Wait): (r: Session)
    ensures r.handlers == s.handlers && r.authenticated == s.authenticated
  {
    var t := Waited(s, w);
    if t.closed || t.thrown then t else Note(t, Answered)
  }

  /** Takes the first occurrence of a handler out of a chain. */
  function Removed(handlers: seq<Kind>, h: Kind): (r: seq<Kind>)
    ensures |r| <= |handlers|
  {
    if handlers == [] then [] else if handlers[0] == h then handlers[1..] else [handlers[0]] + Removed(handlers[1..], h)
  }

  /** A handler found first at i is spliced out there. */
  lemma {:induction false} RemovedAt(handlers: seq<Kind>, h: Kind, i: nat)
    requires i <= |handlers| && forall k | 0 <= k < i :: handlers[k] != h
    requires i < |handlers| ==> handlers[i] == h
    ensures Removed(handlers, h) == if i < |handlers| then handlers[..i] + handlers[i + 1..] else handlers
  {
    if i > 0 {
      var tail := handlers[1..];
      RemovedAt(tail, h, i - 1);
      assert handlers == [handlers[0]] + tail;
      if i < |handlers| {
        assert handlers[..i] == [handlers[0]] + tail[..i - 1] && handlers[i + 1..] == tail[i..];
        assert [handlers[0]] + (tail[..i - 1] + tail[i..]) == handlers[..i] + handlers[i + 1..];
      }
    }
  }

  // ---- the handlers ----

  function Passes(login: Login, checks: Checks): bool {
    && !login.otherPlugin
    && checks.userExists && (checks.passwordLess || checks.passwordOk)
    && !checks.limited && (login.database == "" || checks.schemaOk)
  }

  /** The error is sent, then the connection is closed. */
  function Refuse(s: Session, reason: Refusal, w: Wait): (r: Session)
    ensures r.handlers == s.handlers && r.authenticated == s.authenticated
  {
    var t := Waited(Note(s, Refused(reason)), w);
    if t.thrown then t else Close(t)
  }

  /** A login that names the plugin of this server is checked at once. An
      unknown character set makes the last assignments throw after the session
      is already authenticated. */
  function CheckLogin(s: Session, login: Login, checks: Checks, w: Wait): (r: Session)
    ensures |r.handlers| <= |s.handlers|
  {
    if !checks.userExists || (!checks.passwordLess && !checks.passwordOk) then Refuse(s, AccessDenied, w)
    else if checks.limited then Refuse(s, TooManyConnections, w)
    else if login.database != "" && !checks.schemaOk then Refuse(s, BadSchema, w)
    else
      var t := Note(s.(authenticated := true), LoggedIn(login, checks));
      if !login.charsetKnown then Throw(t)
      else
        var u := Answer(t, w);
        if u.thrown then u else u.(handlers := Removed(u.handlers, Auth))
  }

  /** The authentication handler. A login that cannot be read throws, even where an
      error is sent for it first. A switch to another plugin makes a packet whose
      constructor throws, on the way out and on the way back. */
  function AuthStep(s: Session, p: Packet): (r: (Session, Option<Message>))
    ensures |r.0.handlers| <= |s.handlers|
  {
    if s.authenticated then (s, Some(PacketMessage(p)))
    else if p.quit then (Close(s), None)
    else if s.login.Some? then (Throw(s), None)
    else
      match p.login
      case None => (Throw(Waited(s, p.wait)), None)
      case Some(login) =>
        var t := s.(login := Some(login));
        (if login.otherPlugin then Throw(t) else CheckLogin(t, login, p.checks, p.wait), None)
  }

  function CommandStep(s: Session, p: Packet): (Session, Option<Message>) {
    if p.command == COM_QUIT then (Close(s), None)
    else if p.command == COM_QUERY then (s, Some(QueryMessage(p.sql, p.wait)))
    else (Answer(s, p.wait), None)
  }

  /** A handler that is given something it does not understand throws. */
  function Enter(s: Session, kind: Kind, m: Message): (r: (Session, Option<Message>))
    ensures |r.0.handlers| <= |s.handlers|
  {
    var t := Note(s, Entered(kind));
    match (kind, m)
    case (Auth, PacketMessage(p)) => AuthStep(t, p)
    case (Command, PacketMessage(p)) => CommandStep(t, p)
    case (Query, QueryMessage(sql, wait)) => (Answer(t.(queries := t.queries + [sql]), wait), None)
    case _ => (Throw(t), None)
  }

  /** Walks the chain as it is at each moment; a handler that returns nothing
      ends the walk. */
  function Walk(s: Session, k: nat, m: Message): Session
    decreases |s.handlers| - k
  {
    if k >= |s.handlers| then s
    else
      var (t, r) := Enter(s, s.handlers[k], m);
      if t.thrown || r.None? then t else Walk(t, k + 1, r.value)
  }

  // ---- the read loop ----

  function Deliver(s: Session, packets: seq<Packet>): Session
    decreases |packets|
  {
    if packets == [] || s.closed || s.thrown then s else Deliver(Walk(s, 0, PacketMessage(packets[0])), packets[1..])
  }

  function ClosedIn(s: Session, closed: bool): Session {
    if closed then Close(s) else s
  }

  /** A batch without packets makes the loop hand on an undefined one, unless the
      connection was closed meanwhile. */
  function Serve(s: Session, inputs: seq<Read>): Session
    decreases |inputs|
  {
    if inputs == [] || s.closed || s.thrown then s
    else
      match inputs[0]
      case ReadThrows(closed) => Throw(ClosedIn(s, closed))
      case TooLarge => Throw(Close(s))
      case Batch(packets, closed) =>
        if closed then Close(s)
        else if packets == [] then Throw(s)
        else Serve(Deliver(s, packets), inputs[1..])
  }

  // ---- what a log may look like ----

  /** Before the login; after it; inside a command; inside a query; when it is
      over; and what must not happen. */
  datatype Phase = Outside | Inside | InCommand | InQuery | Over | Wrong

  function After(phase: Phase, e: Event): Phase {
    match (phase, e)
    case (Outside, Entered(kind)) => if kind == Auth then Outside else Wrong
    case (Outside, LoggedIn(login, checks)) => if Passes(login, checks) then Inside else Wrong
    case (Outside, Refused(_)) => Outside
    case (Inside, Entered(kind)) => if kind == Command then InCommand else Wrong
    case (Inside, Answered) => Inside
    case (InCommand, Entered(kind)) => if kind == Query then InQuery else Wrong
    case (InCommand, Answered) => Inside
    case (InQuery, Answered) => Inside
    case (Over, _) => Wrong
    case (Wrong, _) => Wrong
    case (_, Closed) => Over
    case _ => Wrong
  }

  function PhaseOf(log: seq<Event>): Phase {
    if log == [] then Outside else After(PhaseOf(log[..|log| - 1]), log[|log| - 1])
  }

  lemma NotePhase(s: Session, e: Event)
    ensures PhaseOf(Note(s, e).log) == After(PhaseOf(s.log), e)
  {
    assert (s.log + [e])[..|s.log|] == s.log;
  }

  // ---- the invariant ----

  predicate Running(s: Session) {
    !s.closed && !s.thrown
  }

  /** Between packets. */
  predicate Ready(s: Session) {
    && (s.closed <==> PhaseOf(s.log) == Over)
    && PhaseOf(s.log) != Wrong
    && (Running(s) ==>
          && PhaseOf(s.log) == (if s.authenticated then Inside else Outside)
          && s.handlers == (if s.authenticated then [Command, Query] else [Auth, Command, Query]))
  }

  lemma ClosePhase(s: Session)
    requires !s.closed && PhaseOf(s.log) != Over && PhaseOf(s.log) != Wrong
    ensures PhaseOf(Close(s).log) == Over
  {
    NotePhase(s.(closed := true), Closed);
  }

  /** A wait may end with the connection closed, and changes nothing else. */
  lemma WaitedPhase(s: Session, w: Wait)
    requires !s.closed && PhaseOf(s.log) != Over && PhaseOf(s.log) != Wrong
    ensures var t := Waited(s, w);
            && t.authenticated == s.authenticated && t.handlers == s.handlers && t.login == s.login
            && (t.closed ==> PhaseOf(t.log) == Over) && (!t.closed ==> t.log == s.log)
            && (Running(s) && Running(t) ==> t == s)
  {
    hide PhaseOf;
    ClosePhase(s);
  }

  lemma RefusePhase(s: Session, reason: Refusal, w: Wait)
    requires Running(s) && PhaseOf(s.log) == Outside
    ensures var t := Refuse(s, reason, w);
            Ready(t) && !Running(t) && t.authenticated == s.authenticated
  {
    var t := Note(s, Refused(reason));
    NotePhase(s, Refused(reason));
    hide PhaseOf;
    WaitedPhase(t, w);
    if !Waited(t, w).closed {
      ClosePhase(Waited(t, w));
    }
  }

  /** An answer leads back between packets. */
  lemma AnswerPhase(s: Session, w: Wait)
    requires Running(s) && PhaseOf(s.log) in {Inside, InCommand, InQuery}
    ensures var t := Answer(s, w);
            && t.authenticated == s.authenticated && t.handlers == s.handlers && t.login == s.login
            && (t.closed <==> PhaseOf(t.log) == Over) && PhaseOf(t.log) != Wrong
            && (Running(t) ==> PhaseOf(t.log) == Inside)
  {
    NotePhase(s, Answered);
    hide PhaseOf;
    WaitedPhase(s, w);
  }

  lemma LoginPhase(s: Session, login: Login, checks: Checks, w: Wait)
    requires Running(s) && PhaseOf(s.log) == Outside && !s.authenticated && s.handlers == [Auth, Command, Query]
    requires !login.otherPlugin
    ensures var t := CheckLogin(s, login, checks, w);
            Ready(t) && (t.authenticated <==> Passes(login, checks)) && (!t.authenticated ==> !Running(t))
  {
    if Passes(login, checks) {
      var u := s.(authenticated := true);
      NotePhase(u, LoggedIn(login, checks));
      hide PhaseOf, Answer;
      AnswerPhase(Note(u, LoggedIn(login, checks)), w);
      assert Removed([Auth, Command, Query], Auth) == [Command, Query];
    } else {
      hide PhaseOf, Refuse;
      RefusePhase(s, AccessDenied, w);
      RefusePhase(s, TooManyConnections, w);
      RefusePhase(s, BadSchema, w);
    }
  }

  /** An unauthenticated client's packet is handled by the authentication handler
      alone: it logs in, or the session ends. */
  lemma WalkOutside(s: Session, p: Packet)
    requires Ready(s) && Running(s) && !s.authenticated
    ensures var t := Walk(s, 0, PacketMessage(p));
            && Ready(t)
            && (t.authenticated <==> !p.quit && s.login == None && p.login.Some? && Passes(p.login.value, p.checks))
            && (!t.authenticated ==> !Running(t))
  {
    var t := Note(s, Entered(Auth));
    NotePhase(s, Entered(Auth));
    hide PhaseOf, CheckLogin, Passes, Waited;
    ClosePhase(t);
    WaitedPhase(t, p.wait);
    assert Walk(s, 0, PacketMessage(p)) == AuthStep(t, p).0;
    if !p.quit && s.login == None && p.login.Some? {
      var login := p.login.value;
      if login.otherPlugin {
        OtherPluginFails(login, p.checks);
      } else {
        LoginPhase(t.(login := p.login), login, p.checks, p.wait);
      }
    }
  }

  lemma OtherPluginFails(login: Login, checks: Checks)
    ensures login.otherPlugin ==> !Passes(login, checks)
  {
  }

  /** An authenticated client's packet never reaches the authentication handler. */
  lemma WalkInside(s: Session, p: Packet)
    requires Ready(s) && Running(s) && s.authenticated
    ensures var t := Walk(s, 0, PacketMessage(p)); Ready(t) && t.authenticated
  {
    var t := Note(s, Entered(Command));
    NotePhase(s, Entered(Command));
    NotePhase(t, Closed);
    NotePhase(t, Entered(Query));
    hide PhaseOf, Answer;
    AnswerPhase(t, p.wait);
    var u := Note(t, Entered(Query));
    AnswerPhase(u.(queries := u.queries + [p.sql]), p.wait);
    assert s.handlers[0] == Command && s.handlers[1] == Query && |s.handlers| == 2;
  }

  lemma WalkKeepsReady(s: Session, p: Packet)
    requires Ready(s) && Running(s)
    ensures Ready(Walk(s, 0, PacketMessage(p)))
    ensures s.authenticated ==> Walk(s, 0, PacketMessage(p)).authenticated
  {
    hide Walk, Ready;
    if s.authenticated {
      WalkInside(s, p);
    } else {
      WalkOutside(s, p);
    }
  }

  lemma {:induction false} DeliverKeepsReady(s: Session, packets: seq<Packet>)
    requires Ready(s)
    ensures Ready(Deliver(s, packets)) && (s.authenticated ==> Deliver(s, packets).authenticated)
    decreases |packets|
  {
    hide Walk, Ready;
    if packets != [] && Running(s) {
      WalkKeepsReady(s, packets[0]);
      DeliverKeepsReady(Walk(s, 0, PacketMessage(packets[0])), packets[1..]);
    }
  }

  lemma {:induction false} ServeKeepsReady(s: Session, inputs: seq<Read>)
    requires Ready(s)
    ensures PhaseOf(Serve(s, inputs).log) != Wrong
    ensures s.authenticated ==> Serve(s, inputs).authenticated
    decreases |inputs|
  {
    if inputs != [] && Running(s) {
      NotePhase(s.(closed := true), Closed);
      hide PhaseOf, Ready, Deliver;
      if inputs[0].Batch? && !inputs[0].closed && inputs[0].packets != [] {
        DeliverKeepsReady(s, inputs[0].packets);
        ServeKeepsReady(Deliver(s, inputs[0].packets), inputs[1..]);
      }
      EndsProperly(s);
    }
  }

  lemma EndsProperly(s: Session)
    requires Ready(s) && Running(s)
    ensures PhaseOf(s.log) != Wrong && PhaseOf(Close(s).log) != Wrong
  {
    ClosePhase(s);
  }

  // ---- theorems about whole sessions ----

  /** In every session the command and query handlers are entered only after a
      login that passed every check and before any close, a query only out of a
      command, and nobody logs in twice. */
  lemma SessionsAreGuarded(inputs: seq<Read>, i: nat)
    requires i < |Serve(Start(), inputs).log|
    ensures var log := Serve(Start(), inputs).log;
            && (log[i] == Entered(Command) || log[i] == Entered(Query) ==>
                  && (exists j | 0 <= j < i :: log[j].LoggedIn? && Passes(log[j].login, log[j].checks))
                  && (forall j | 0 <= j < i :: log[j] != Closed))
            && (log[i] == Entered(Query) ==> i > 0 && log[i - 1] == Entered(Command))
            && (log[i].LoggedIn? ==> forall j | 0 <= j < i :: !log[j].LoggedIn?)
            && (log[i] == Closed ==> i == |log| - 1)
  {
    ServeKeepsReady(Start(), inputs);
    hide Serve, PhaseOf;
    var log := Serve(Start(), inputs).log;
    var before := log[..i];
    EventIsProper(log, i);
    PhaseTells(before);
    assert forall j | 0 <= j < i :: before[j] == log[j];
    if PhaseOf(before) in {Inside, InCommand, InQuery} {
      var j: nat :| LoggedInOnce(before, j);
      assert before[j] == log[j];
      assert log[j].LoggedIn? && Passes(log[j].login, log[j].checks);
    }
  }

  /** Each event is one the phase before it allows, and a close is the last. */
  lemma EventIsProper(log: seq<Event>, i: nat)
    requires PhaseOf(log) != Wrong && i < |log|
    ensures PhaseOf(log[..i]) != Wrong && After(PhaseOf(log[..i]), log[i]) != Wrong
    ensures log[i] == Closed ==> i == |log| - 1
  {
    Prefix(log, i + 1);
    assert log[..i + 1][..i] == log[..i];
    if i < |log| - 1 {
      Prefix(log, i + 2);
      assert log[..i + 2][..i + 1] == log[..i + 1];
    }
  }

  /** A prefix of a proper log is proper. */
  lemma {:induction false} Prefix(log: seq<Event>, n: nat)
    requires n <= |log| && PhaseOf(log) != Wrong
    ensures PhaseOf(log[..n]) != Wrong
    decreases |log|
  {
    if n == |log| {
      assert log[..n] == log;
    } else {
      Prefix(log[..|log| - 1], n);
      assert log[..|log| - 1][..n] == log[..n];
    }
  }

  predicate LoggedInOnce(log: seq<Event>, j: nat) {
    && j < |log| && log[j].LoggedIn? && Passes(log[j].login, log[j].checks)
    && forall k | 0 <= k < |log| && k != j :: !log[k].LoggedIn?
  }

  /** What the phase says about the log that led to it. */
  lemma {:induction false} PhaseTells(log: seq<Event>)
    requires PhaseOf(log) != Wrong
    ensures PhaseOf(log) == Outside ==> forall j | 0 <= j < |log| :: !log[j].LoggedIn?
    ensures PhaseOf(log) in {Inside, InCommand, InQuery} ==> exists j: nat :: LoggedInOnce(log, j)
    ensures PhaseOf(log) != Over ==> forall j | 0 <= j < |log| :: log[j] != Closed
    ensures PhaseOf(log) == InCommand ==> log != [] && log[|log| - 1] == Entered(Command)
    decreases |log|
  {
    if log != [] {
      var n := |log| - 1;
      PhaseTells(log[..n]);
      assert log == log[..n] + [log[n]];
      if PhaseOf(log) in {Inside, InCommand, InQuery} {
        if PhaseOf(log[..n]) == Outside {
          assert LoggedInOnce(log, n);
        } else {
          var j: nat :| LoggedInOnce(log[..n], j);
          assert LoggedInOnce(log, j);
        }
      }
    }
  }

  /** The first packet that is looked at. */
  function FirstPacket(inputs: seq<Read>): Option<Packet> {
    if inputs != [] && inputs[0].Batch? && !inputs[0].closed && inputs[0].packets != []
    then Some(inputs[0].packets[0])
    else None
  }

  /** A client is authenticated exactly when its very first packet is a login for
      this server's own plugin that passes every check. A client of another
      plugin never gets in: the switch it is meant to be offered throws. */
  lemma AuthenticatedIff(inputs: seq<Read>)
    ensures Serve(Start(), inputs).authenticated <==>
              var p := FirstPacket(inputs);
              p.Some? && !p.value.quit && p.value.login.Some? && Passes(p.value.login.value, p.value.checks)
  {
    if FirstPacket(inputs).Some? {
      var p := FirstPacket(inputs).value;
      var packets := inputs[0].packets;
      WalkOutside(Start(), p);
      var t := Walk(Start(), 0, PacketMessage(p));
      assert Deliver(Start(), packets) == Deliver(t, packets[1..]);
      DeliverKeepsReady(t, packets[1..]);
      ServeKeepsReady(Deliver(t, packets[1..]), inputs[1..]);
    }
  }

  // ---- the connection object ----

  class FrontConnection {
    var handlers: seq<Kind>
    var login: Option<Login>
    var authenticated: bool
    var closed: bool
    var thrown: bool
    var log: seq<Event>
    var queries: seq<string>

    ghost function State(): Session
      reads this
    {
      Session(handlers, login, authenticated, closed, thrown, log, queries)
    }

    constructor ()
      ensures State() == Start() && Ready(State())
    {
      handlers, login := [Auth, Command, Query], None;
      authenticated, closed, thrown, log, queries := false, false, false, [], [];
    }

    method Emit(e: Event)
      modifies this`log
      ensures State() == Note(old(State()), e)
    {
      log := log + [e];
    }

    method CloseConn()
      modifies this`closed, this`log
      ensures State() == Close(old(State()))
    {
      if !closed {
        closed := true;
        Emit(Closed);
      }
    }

    /** Searches the chain for a handler and splices it out. */
    method RemoveHandler(h: Kind) returns (found: bool)
      modifies this`handlers
      ensures handlers == Removed(old(handlers), h) && (found <==> h in old(handlers))
    {
      var i := 0;
      while i < |handlers| && handlers[i] != h
        invariant i <= |handlers| && handlers == old(handlers)
        invariant forall k | 0 <= k < i :: handlers[k] != h
      {
        i := i + 1;
      }
      RemovedAt(handlers, h, i);
      found := i < |handlers|;
      if found {
        handlers := handlers[..i] + handlers[i + 1..];
      }
    }

    /** What a wait does to the connection. */
    method WaitFor(w: Wait)
      modifies this`closed, this`thrown, this`log
      ensures State() == Waited(old(State()), w)
    {
      if w.ClosedMeanwhile? {
        CloseConn();
      }
      if w.Broken? || (w.ClosedMeanwhile? && w.broken) {
        thrown := true;
      }
    }

    method SendAnswer(w: Wait)
      modifies this`closed, this`thrown, this`log
      ensures State() == Answer(old(State()), w)
    {
      WaitFor(w);
      if !closed && !thrown {
        Emit(Answered);
      }
    }

    method Fail(reason: Refusal, w: Wait)
      modifies this`closed, this`thrown, this`log
      ensures State() == Refuse(old(State()), reason, w)
    {
      Emit(Refused(reason));
      WaitFor(w);
      if !thrown {
        CloseConn();
      }
    }

    method Authenticate(user: Login, checks: Checks, w: Wait)
      modifies this
      ensures State() == CheckLogin(old(State()), user, checks, w)
    {
      if !checks.userExists || (!checks.passwordLess && !checks.passwordOk) {
        Fail(AccessDenied, w);
        return;
      }
      if checks.limited {
        Fail(TooManyConnections, w);
        return;
      }
      if user.database != "" && !checks.schemaOk {
        Fail(BadSchema, w);
        return;
      }
      authenticated := true;
      Emit(LoggedIn(user, checks));
      if !user.charsetKnown {
        thrown := true;
        return;
      }
      SendAnswer(w);
      if !thrown {
        var _ := RemoveHandler(Auth);
      }
    }

    method InvokeAuth(p: Packet) returns (r: Option<Message>)
      modifies this
      ensures (State(), r) == AuthStep(old(State()), p)
    {
      if authenticated {
        return Some(PacketMessage(p));
      }
      r := None;
      if p.quit {
        CloseConn();
      } else if login.Some? {
        thrown := true;
      } else if p.login.None? {
        WaitFor(p.wait);
        thrown := true;
      } else {
        login := p.login;
        if p.login.value.otherPlugin {
          thrown := true;
        } else {
          Authenticate(p.login.value, p.checks, p.wait);
        }
      }
    }

    method InvokeCommand(p: Packet) returns (r: Option<Message>)
      modifies this`closed, this`thrown, this`log
      ensures (State(), r) == CommandStep(old(State()), p)
    {
      r := None;
      if p.command == COM_QUIT {
        CloseConn();
      } else if p.command == COM_QUERY {
        r := Some(QueryMessage(p.sql, p.wait));
      } else {
        SendAnswer(p.wait);
      }
    }

    /** One handler of the chain. */
    method InvokeHandler(kind: Kind, m: Message) returns (r: Option<Message>)
      modifies this
      ensures (State(), r) == Enter(old(State()), kind, m)
    {
      Emit(Entered(kind));
      r := None;
      match (kind, m) {
        case (Auth, PacketMessage(p)) => r := InvokeAuth(p);
        case (Command, PacketMessage(p)) => r := InvokeCommand(p);
        case (Query, QueryMessage(sql, wait)) =>
          queries := queries + [sql];
          SendAnswer(wait);
        case _ => thrown := true;
      }
    }

    /** Walks the chain, handing each handler what the one before it returned. */
    method DoInvoke(p: Packet)
      modifies this
      ensures State() == Walk(old(State()), 0, PacketMessage(p))
    {
      hide Enter;
      var k := 0;
      var message := PacketMessage(p);
      while k < |handlers|
        invariant Walk(old(State()), 0, PacketMessage(p)) == Walk(State(), k, message)
        decreases |handlers| - k
      {
        ghost var before := State();
        ghost var size := |Enter(before, handlers[k], message).0.handlers|;
        var r := InvokeHandler(handlers[k], message);
        if thrown || r.None? {
          return;
        }
        message := r.value;
        k := k + 1;
      }
    }

    /** The read loop over everything that arrives. */
    method Run(inputs: seq<Read>)
      modifies this
      ensures State() == Serve(old(State()), inputs)
    {
      hide Walk;
      var n := 0;
      var packets: seq<Packet> := [];
      var i := 0;
      while !closed && !thrown && (i < |packets| || n < |inputs|)
        invariant n <= |inputs| && i <= |packets|
        invariant Serve(old(State()), inputs) == Serve(Deliver(State(), packets[i..]), inputs[n..])
        decreases |inputs| - n, |packets| - i
      {
        if i >= |packets| {
          assert inputs[n..][1..] == inputs[n + 1..];
          match inputs[n] {
            case ReadThrows(c) =>
              if c {
                CloseConn();
              }
              thrown := true;
              return;
            case TooLarge =>
              CloseConn();
              thrown := true;
              return;
            case Batch(ps, c) =>
              packets := ps;
              if c {
                CloseConn();
              }
          }
          n := n + 1;
          i := 0;
          assert packets[i..] == packets;
          if closed {
            return;
          }
          if packets == [] {
            thrown := true;
            return;
          }
        } else {
          assert packets[i..][1..] == packets[i + 1..];
          DoInvoke(packets[i]);
          i := i + 1;
        }
      }
    }
  }
}
