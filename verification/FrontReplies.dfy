/** What a client gets for what it sends, packet by packet: the events each packet
    leaves in the log, and the queries handed on, in the order they arrived. */
module FrontReplies {
  import opened Wrappers
  import opened FrontSessions

  // ---- one packet of a client that is logged in ----

  /** Command 1 closes the connection, command 3 is handled as a query, and every
      other command is answered at once. */
  function Reply(p: Packet): seq<Event> {
    if p.command == 1 then [Entered(Command), Closed]
    else if p.command == 3 then [Entered(Command), Entered(Query), Answered]
    else [Entered(Command), Answered]
  }

  /** The texts of the packets with command 3. */
  function Queries(packets: seq<Packet>): seq<string> {
    if packets == [] then []
    else (if packets[0].command == 3 then [packets[0].sql] else []) + Queries(packets[1..])
  }

  function Replies(packets: seq<Packet>): seq<Event> {
    if packets == [] then [] else Reply(packets[0]) + Replies(packets[1..])
  }

  /** The three kinds of reply tell the three kinds of command apart. */
  lemma CommandReply(s: Session, p: Packet)
    requires Ready(s) && Running(s) && s.authenticated && p.wait == Undisturbed
    ensures var t := Walk(s, 0, PacketMessage(p));
            && (p.command == 3 <==> t.log == s.log + [Entered(Command), Entered(Query), Answered])
            && (p.command == 1 <==> t.log == s.log + [Entered(Command), Closed])
            && (p.command != 1 && p.command != 3 <==> t.log == s.log + [Entered(Command), Answered])
            && t.queries == s.queries + (if p.command == 3 then [p.sql] else [])
            && t.closed == (p.command == 1)
            && !t.thrown && t.authenticated && t.login == s.login
  {
    hide Ready;
    InsideChain(s);
    var t := Walk(s, 0, PacketMessage(p));
    var u := Note(s, Entered(Command));
    if p.command == 1 {
      assert u.log + [Closed] == s.log + [Entered(Command), Closed];
    } else if p.command == 3 {
      assert u.log + [Entered(Query)] + [Answered] == s.log + [Entered(Command), Entered(Query), Answered];
    } else {
      assert u.log + [Answered] == s.log + [Entered(Command), Answered];
    }
    assert s.queries + [] == s.queries;
    RepliesDiffer(s.log);
  }

  lemma InsideChain(s: Session)
    requires Ready(s) && Running(s) && s.authenticated
    ensures s.handlers == [Command, Query]
  {
  }

  lemma RepliesDiffer(log: seq<Event>)
    ensures var n := |log|;
            && (log + [Entered(Command), Closed])[n + 1] == Closed
            && (log + [Entered(Command), Answered])[n + 1] == Answered
            && (log + [Entered(Command), Entered(Query), Answered])[n + 1] == Entered(Query)
  {
  }

  /** A wait that throws leaves the command unanswered; one during which the
      connection is closed leaves the close behind. A quit waits for nothing. */
  lemma DisturbedReply(s: Session, p: Packet)
    requires Ready(s) && Running(s) && s.authenticated && p.wait != Undisturbed && p.command != 1
    ensures var t := Walk(s, 0, PacketMessage(p));
            && t.log == s.log + (if p.command == 3 then [Entered(Command), Entered(Query)] else [Entered(Command)])
                        + (if p.wait == Broken then [] else [Closed])
            && t.closed == (p.wait != Broken)
            && t.thrown == (p.wait == Broken || p.wait == ClosedMeanwhile(true))
            && t.queries == s.queries + (if p.command == 3 then [p.sql] else [])
  {
    hide Ready;
    InsideChain(s);
    assert s.log + [Entered(Command)] + [Entered(Query)] == s.log + [Entered(Command), Entered(Query)];
    assert s.queries + [] == s.queries;
  }

  // ---- the login ----

  /** The answer to a login for the server's own plugin whose user is known and
      whose password is right, or not needed, and so on: each check in its turn. */
  lemma LoginReply(s: Session, p: Packet)
    requires Ready(s) && Running(s) && !s.authenticated && s.login == None && !p.quit && p.wait == Undisturbed
    requires p.login.Some? && !p.login.value.otherPlugin
    ensures var (t, c, login) := (Walk(s, 0, PacketMessage(p)), p.checks, p.login.value);
            var known := c.userExists && (c.passwordLess || c.passwordOk);
            var entered := s.log + [Entered(Auth)];
            && (!known <==> t.log == entered + [Refused(AccessDenied), Closed])
            && (known && c.limited <==> t.log == entered + [Refused(TooManyConnections), Closed])
            && (known && !c.limited && login.database != "" && !c.schemaOk
                <==> t.log == entered + [Refused(BadSchema), Closed])
            && (known && !c.limited && (login.database == "" || c.schemaOk)
                <==> t.log == entered + ([LoggedIn(login, c)] + if login.charsetKnown then [Answered] else []))
            && (t.authenticated <==> known && !c.limited && (login.database == "" || c.schemaOk))
            && (t.closed <==> !t.authenticated)
            && (t.thrown <==> t.authenticated && !login.charsetKnown)
            && (t.authenticated && !t.thrown ==> t.handlers == [Command, Query])
            && t.queries == s.queries && t.login == p.login
  {
    hide Ready;
    OutsideChain(s);
    var entered := s.log + [Entered(Auth)];
    var c, login := p.checks, p.login.value;
    assert entered + [Refused(AccessDenied)] + [Closed] == entered + [Refused(AccessDenied), Closed];
    assert entered + [Refused(TooManyConnections)] + [Closed] == entered + [Refused(TooManyConnections), Closed];
    assert entered + [Refused(BadSchema)] + [Closed] == entered + [Refused(BadSchema), Closed];
    assert entered + [LoggedIn(login, c)] + [Answered] == entered + ([LoggedIn(login, c)] + [Answered]);
    assert entered + [LoggedIn(login, c)] == entered + ([LoggedIn(login, c)] + []);
    assert Walk(s, 0, PacketMessage(p)) == CheckLogin(s.(log := entered, login := p.login), login, c, p.wait);
    LoginsDiffer(entered, login, c);
  }

  lemma OutsideChain(s: Session)
    requires Ready(s) && Running(s) && !s.authenticated
    ensures s.handlers == [Auth, Command, Query] && Removed(s.handlers, Auth) == [Command, Query]
  {
  }

  lemma LoginsDiffer(entered: seq<Event>, login: Login, c: Checks)
    ensures var n := |entered|;
            && (forall r | r in {AccessDenied, TooManyConnections, BadSchema} ::
                  (entered + [Refused(r), Closed])[n] == Refused(r))
            && (forall more: seq<Event> :: (entered + ([LoggedIn(login, c)] + more))[n] == LoggedIn(login, c))
  {
  }

  /** A login that passes is kept even if its answer is not sent; the authentication
      handler stays in the chain exactly when that throws. */
  lemma DisturbedLogin(s: Session, p: Packet)
    requires Ready(s) && Running(s) && !s.authenticated && s.login == None && !p.quit && p.wait != Undisturbed
    requires p.login.Some? && Passes(p.login.value, p.checks) && p.login.value.charsetKnown
    ensures var t := Walk(s, 0, PacketMessage(p));
            && t.log == s.log + [Entered(Auth), LoggedIn(p.login.value, p.checks)]
                        + (if p.wait == Broken then [] else [Closed])
            && t.authenticated && t.closed == (p.wait != Broken)
            && t.thrown == (p.wait == Broken || p.wait == ClosedMeanwhile(true))
            && t.handlers == if t.thrown then [Auth, Command, Query] else [Command, Query]
  {
    hide Ready;
    OutsideChain(s);
    var entered := s.log + [Entered(Auth)];
    var login := p.login.value;
    assert Walk(s, 0, PacketMessage(p))
        == CheckLogin(s.(log := entered, login := p.login), login, p.checks, p.wait);
    assert entered + [LoggedIn(login, p.checks)] == s.log + [Entered(Auth), LoggedIn(login, p.checks)];
    assert entered + [LoggedIn(login, p.checks)] + [] == entered + [LoggedIn(login, p.checks)];
  }

  /** A login that is refused leaves the refusal in the log even if sending it throws;
      the connection is then not closed, unless another coroutine did. */
  lemma DisturbedRefusal(s: Session, p: Packet)
    requires Ready(s) && Running(s) && !s.authenticated && s.login == None && !p.quit && p.wait != Undisturbed
    requires p.login.Some? && !p.login.value.otherPlugin && !Passes(p.login.value, p.checks)
    ensures var (t, c) := (Walk(s, 0, PacketMessage(p)), p.checks);
            var reason := if !c.userExists || !(c.passwordLess || c.passwordOk) then AccessDenied
                          else if c.limited then TooManyConnections
                          else BadSchema;
            && t.log == s.log + [Entered(Auth), Refused(reason)] + (if p.wait == Broken then [] else [Closed])
            && !t.authenticated && t.closed == (p.wait != Broken)
            && t.thrown == (p.wait == Broken || p.wait == ClosedMeanwhile(true))
  {
    hide Ready;
    OutsideChain(s);
    var entered := s.log + [Entered(Auth)];
    assert Walk(s, 0, PacketMessage(p))
        == CheckLogin(s.(log := entered, login := p.login), p.login.value, p.checks, p.wait);
    forall r: Refusal ensures entered + [Refused(r)] == s.log + [Entered(Auth), Refused(r)] {
    }
  }

  /** A packet that is no such login: the five-byte quit closes; an unreadable login,
      a second login and one for another plugin throw. None of them is answered. */
  lemma NoLoginReply(s: Session, p: Packet)
    requires Ready(s) && Running(s) && !s.authenticated && p.wait == Undisturbed
    requires p.quit || s.login.Some? || p.login.None? || p.login.value.otherPlugin
    ensures var t := Walk(s, 0, PacketMessage(p));
            && t.log == s.log + ([Entered(Auth)] + if p.quit then [Closed] else [])
            && t.closed == p.quit && t.thrown == !p.quit && !t.authenticated && t.queries == s.queries
  {
    hide Ready;
    OutsideChain(s);
    assert s.log + [Entered(Auth)] + [Closed] == s.log + ([Entered(Auth)] + [Closed]);
    assert s.log + [Entered(Auth)] == s.log + ([Entered(Auth)] + []);
  }

  // ---- whole sessions ----

  ghost predicate Quiet(packets: seq<Packet>) {
    forall p | p in packets :: p.wait == Undisturbed && p.command != 1
  }

  /** A batch of packets is answered packet by packet, in order. */
  lemma {:induction false} BatchReplies(s: Session, packets: seq<Packet>)
    requires Ready(s) && Running(s) && s.authenticated && Quiet(packets)
    ensures var t := Deliver(s, packets);
            && t.log == s.log + Replies(packets) && t.queries == s.queries + Queries(packets)
            && Ready(t) && Running(t) && t.authenticated
    decreases |packets|
  {
    hide Walk, Ready;
    if packets == [] {
      assert s.log + [] == s.log && s.queries + [] == s.queries;
    } else {
      var p, rest := packets[0], packets[1..];
      assert p in packets;
      CommandReply(s, p);
      WalkKeepsReady(s, p);
      var t := Walk(s, 0, PacketMessage(p));
      BatchReplies(t, rest);
      assert s.log + Reply(p) + Replies(rest) == s.log + (Reply(p) + Replies(rest));
      var first := if p.command == 3 then [p.sql] else [];
      assert s.queries + first + Queries(rest) == s.queries + (first + Queries(rest));
    }
  }

  /** What the reads deliver, one behind the other. */
  function Delivered(batches: seq<seq<Packet>>): seq<Packet> {
    if batches == [] then [] else batches[0] + Delivered(batches[1..])
  }

  ghost predicate NoneEmpty(batches: seq<seq<Packet>>) {
    forall i | 0 <= i < |batches| :: batches[i] != []
  }

  lemma QuietParts(a: seq<Packet>, b: seq<Packet>)
    requires Quiet(a + b)
    ensures Quiet(a) && Quiet(b)
  {
    assert forall p | p in a :: p in a + b;
    assert forall p | p in b :: p in a + b;
  }

  lemma FirstBatch(batches: seq<seq<Packet>>)
    requires batches != [] && NoneEmpty(batches) && Quiet(Delivered(batches))
    ensures batches[0] != [] && Quiet(batches[0])
    ensures NoneEmpty(batches[1..]) && Quiet(Delivered(batches[1..]))
    ensures Reads(batches) == [Batch(batches[0], false)] + Reads(batches[1..])
  {
    QuietParts(batches[0], Delivered(batches[1..]));
  }

  function Reads(batches: seq<seq<Packet>>): seq<Read> {
    if batches == [] then [] else [Batch(batches[0], false)] + Reads(batches[1..])
  }

  lemma {:induction false} RepliesJoin(a: seq<Packet>, b: seq<Packet>)
    ensures Replies(a + b) == Replies(a) + Replies(b) && Queries(a + b) == Queries(a) + Queries(b)
  {
    if a == [] {
      assert a + b == b;
    } else {
      assert (a + b)[1..] == a[1..] + b;
      RepliesJoin(a[1..], b);
    }
  }

  /** However the packets of a client are cut into reads, each is answered in its
      turn, and the query handler gets the texts of the queries in their order. */
  lemma {:induction false} ReadsReply(s: Session, batches: seq<seq<Packet>>)
    requires Ready(s) && Running(s) && s.authenticated && Quiet(Delivered(batches))
    requires NoneEmpty(batches)
    ensures var t := Serve(s, Reads(batches));
            && t.log == s.log + Replies(Delivered(batches)) && t.queries == s.queries + Queries(Delivered(batches))
            && Ready(t) && Running(t) && t.authenticated
    decreases |batches|
  {
    hide Ready, Deliver, Quiet, NoneEmpty, Replies, Queries, Serve;
    if batches == [] {
      NothingServed(s);
      assert s.log + [] == s.log && s.queries + [] == s.queries;
    } else {
      var first, rest := batches[0], batches[1..];
      FirstBatch(batches);
      BatchReplies(s, first);
      var t := Deliver(s, first);
      ReadsReply(t, rest);
      RepliesJoin(first, Delivered(rest));
      FirstServed(s, first, Reads(rest));
      assert s.log + Replies(first) + Replies(Delivered(rest)) == s.log + (Replies(first) + Replies(Delivered(rest)));
      assert s.queries + Queries(first) + Queries(Delivered(rest))
          == s.queries + (Queries(first) + Queries(Delivered(rest)));
    }
  }

  /** A whole session: a login that passes every check, then any packets but quits,
      cut into reads in any way. The log is the login and the replies in order. */
  lemma SessionReplies(login: Packet, more: seq<Packet>, batches: seq<seq<Packet>>)
    requires !login.quit && login.login.Some? && Passes(login.login.value, login.checks)
    requires login.login.value.charsetKnown && login.wait == Undisturbed
    requires Quiet(more) && Quiet(Delivered(batches)) && NoneEmpty(batches)
    ensures var t := Serve(Start(), [Batch([login] + more, false)] + Reads(batches));
            && t.log == [Entered(Auth), LoggedIn(login.login.value, login.checks), Answered]
                        + Replies(more + Delivered(batches))
            && t.queries == Queries(more + Delivered(batches))
            && Running(t)
  {
    hide Deliver, Serve, Ready, Quiet, NoneEmpty, Replies, Queries, Reads, Delivered, Passes;
    LoginBatch(login, more);
    var u := Deliver(Start(), [login] + more);
    FirstServed(Start(), [login] + more, Reads(batches));
    ReadsReply(u, batches);
    RepliesJoin(more, Delivered(batches));
    var entered := [Entered(Auth), LoggedIn(login.login.value, login.checks), Answered];
    assert entered + Replies(more) + Replies(Delivered(batches))
        == entered + (Replies(more) + Replies(Delivered(batches)));
  }

  lemma LoginBatch(login: Packet, more: seq<Packet>)
    requires !login.quit && login.login.Some? && Passes(login.login.value, login.checks)
    requires login.login.value.charsetKnown && login.wait == Undisturbed && Quiet(more)
    ensures Running(Start())
    ensures var u := Deliver(Start(), [login] + more);
            && u.log == [Entered(Auth), LoggedIn(login.login.value, login.checks), Answered] + Replies(more)
            && u.queries == Queries(more)
            && Ready(u) && Running(u) && u.authenticated
  {
    hide Walk, Ready, Deliver, Quiet, Passes, Replies, Queries;
    FirstLogin(login);
    assert ([login] + more)[1..] == more;
    FirstDelivered(Start(), [login] + more);
    BatchReplies(Walk(Start(), 0, PacketMessage(login)), more);
    assert [] + Queries(more) == Queries(more);
  }

  lemma FirstLogin(login: Packet)
    requires !login.quit && login.login.Some? && Passes(login.login.value, login.checks)
    requires login.login.value.charsetKnown && login.wait == Undisturbed
    ensures Ready(Start()) && Running(Start())
    ensures var t := Walk(Start(), 0, PacketMessage(login));
            && t.log == [Entered(Auth), LoggedIn(login.login.value, login.checks), Answered] && t.queries == []
            && Ready(t) && Running(t) && t.authenticated
  {
    hide Walk;
    WalkKeepsReady(Start(), login);
    LoginReply(Start(), login);
  }

  lemma FirstDelivered(s: Session, packets: seq<Packet>)
    requires packets != [] && Running(s)
    ensures Deliver(s, packets) == Deliver(Walk(s, 0, PacketMessage(packets[0])), packets[1..])
  {
  }

  lemma NothingServed(s: Session)
    ensures Serve(s, Reads([])) == s && Replies(Delivered([])) == [] && Queries(Delivered([])) == []
  {
  }

  lemma FirstServed(s: Session, packets: seq<Packet>, inputs: seq<Read>)
    requires packets != [] && Running(s)
    ensures Serve(s, [Batch(packets, false)] + inputs) == Serve(Deliver(s, packets), inputs)
  {
    assert ([Batch(packets, false)] + inputs)[1..] == inputs;
  }

  /** The reads that end a session: an error of the reader, a packet over the limit,
      nothing at all, and one during which the connection was closed, whatever it
      delivered. Only the first three throw, and what comes behind is not looked at. */
  lemma LastRead(s: Session, read: Read, inputs: seq<Read>)
    requires Running(s)
    requires read.ReadThrows? || read.TooLarge? || read.closed || read.packets == []
    ensures var t := Serve(s, [read] + inputs);
            && t.closed == (read.TooLarge? || read.closed)
            && t.log == s.log + (if t.closed then [Closed] else [])
            && t.thrown == !(read.Batch? && read.closed)
            && t.queries == s.queries && t.handlers == s.handlers && t.authenticated == s.authenticated
  {
    assert ([read] + inputs)[0] == read;
    assert s.log + [] == s.log;
  }

  /** What comes behind a quit is not looked at, in this read or another. */
  lemma BehindQuit(s: Session, quit: Packet, more: seq<Packet>, inputs: seq<Read>)
    requires Ready(s) && Running(s) && s.authenticated && quit.command == 1
    ensures var t := Serve(s, [Batch([quit] + more, false)] + inputs);
            && t.log == s.log + [Entered(Command), Closed] && t.closed && !t.thrown && t.queries == s.queries
  {
    InsideChain(s);
    hide Ready;
    assert ([quit] + more)[1..] == more;
    FirstServed(s, [quit] + more, inputs);
    FirstDelivered(s, [quit] + more);
    assert s.log + [Entered(Command)] + [Closed] == s.log + [Entered(Command), Closed];
  }
}
