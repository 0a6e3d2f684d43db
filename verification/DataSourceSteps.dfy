/** Which connection a client is given, and what each step does to the lists and the
    counters, with the lists named one by one. */
module DataSourceSteps {
  import opened Wrappers
  import opened DataSources

  // ---- the search ----

  /** The client has taken the oldest connection of one list of queue q into its hand;
      no other list, no counter and no other connection has changed. */
  predicate Took(s: Source, t: Source, c: Client, want: Want, q: nat, auto: bool) {
    && c < |s.clients| && q < |s.queues|
    && var list := if auto then s.queues[q].auto else s.queues[q].man;
       && list != [] && list[0] < |s.conns|
       && t.queues == s.queues[q := if auto then s.queues[q].(auto := list[1..]) else s.queues[q].(man := list[1..])]
       && c < |t.clients| && t.clients[c].Checking? && t.clients[c].conn == list[0] && t.clients[c].want == want
       && t.clients == s.clients[c := t.clients[c]]
       && t.conns == s.conns[list[0] := s.conns[list[0]].(place := With(c))]
       && t.connCount == s.connCount && t.activeCount == s.activeCount && t.size == s.size
  }

  predicate Empty(q: Queue) {
    q.auto == [] && q.man == []
  }

  /** The client's own queue comes before all others, and its own commit mode before
      the other one: a client gets a connection that has its schema and mode if there is
      one, else one that has its schema if there is one. */
  lemma SeekOwn(s: Source, c: Client, want: Want)
    requires c < |s.clients| && want.own < |s.queues| && QueuesValid(s)
    ensures var (t, own) := (Seek(s, c, want, 0), s.queues[want.own]);
            && (want.autoCommit && own.auto != [] ==> Took(s, t, c, want, want.own, true))
            && (want.autoCommit && own.auto == [] && own.man != [] ==> Took(s, t, c, want, want.own, false))
            && (!want.autoCommit && own.man != [] ==> Took(s, t, c, want, want.own, false))
            && (!want.autoCommit && own.man == [] && own.auto != [] ==> Took(s, t, c, want, want.own, true))
  {
    var own := s.queues[want.own];
    FindOwn(s.queues, want);
    if !Empty(own) {
      TakeTook(s, c, want, if Idle(own, want.autoCommit) != [] then 0 else 1);
      hide Take, Took, QueuesValid, Find;
    }
  }

  /** Only when its own queue is empty does it get a connection of the first other
      queue that has any, again of its own commit mode if there is one. */
  lemma SeekOther(s: Source, c: Client, want: Want, j: nat)
    requires c < |s.clients| && want.own < |s.queues| && QueuesValid(s)
    requires Empty(s.queues[want.own]) && FirstOther(s.queues, want.own, j)
    ensures Took(s, Seek(s, c, want, 0), c, want, j,
                 if want.autoCommit then s.queues[j].auto != [] else s.queues[j].man == [])
  {
    var preferred := Idle(s.queues[j], want.autoCommit) != [];
    FindOwn(s.queues, want);
    FindOther(s.queues, want, j, 2);
    var v := 2 + 2 * j + if preferred then 0 else 1;
    assert Find(s.queues, want, 0) == Some(v);
    hide Find, FirstOther, Took, Take;
    TakeTook(s, c, want, v);
    assert VisitQueue(want, v) == j;
  }

  /** Only when all queues are empty may it create a connection if there is room, and
      sleeps if there is none. */
  lemma SeekNone(s: Source, c: Client, want: Want)
    requires c < |s.clients| && want.own < |s.queues| && QueuesValid(s)
    requires forall j | 0 <= j < |s.queues| :: Empty(s.queues[j])
    ensures Seek(s, c, want, 0)
            == if s.connCount < s.size
               then s.(clients := s.clients[c := Creating],
                       connCount := s.connCount + 1, activeCount := s.activeCount + 1)
               else s.(clients := s.clients[c := Sleeping])
  {
    FindNoneIff(s.queues, want);
  }

  /** Queue j is the first with a connection, apart from the client's own. */
  ghost predicate FirstOther(queues: seq<Queue>, own: nat, j: nat) {
    && j < |queues| && j != own && !Empty(queues[j])
    && forall i | 0 <= i < j && i != own :: Empty(queues[i])
  }

  lemma FindOwn(queues: seq<Queue>, want: Want)
    requires want.own < |queues|
    ensures var own := queues[want.own];
            Find(queues, want, 0)
            == if Idle(own, want.autoCommit) != [] then Some(0)
               else if Idle(own, !want.autoCommit) != [] then Some(1)
               else Find(queues, want, 2)
  {
    assert VisitQueue(want, 0) == want.own && VisitQueue(want, 1) == want.own;
    assert VisitAuto(want, 0) == want.autoCommit && VisitAuto(want, 1) == !want.autoCommit;
    assert Find(queues, want, 1)
        == if Idle(queues[want.own], !want.autoCommit) != [] then Some(1) else Find(queues, want, 2);
  }

  lemma {:induction false} FindOther(queues: seq<Queue>, want: Want, j: nat, v: nat)
    requires want.own < |queues| && FirstOther(queues, want.own, j) && 2 <= v <= 2 + 2 * j
    ensures Find(queues, want, v) == Some(2 + 2 * j + if Idle(queues[j], want.autoCommit) != [] then 0 else 1)
    decreases 2 + 2 * j - v
  {
    var q := (v - 2) / 2;
    assert VisitQueue(want, v) == q;
    if v < 2 + 2 * j {
      assert q < j;
      assert q != want.own ==> Empty(queues[q]);
      FindOther(queues, want, j, v + 1);
    } else {
      assert VisitQueue(want, v) == j && VisitQueue(want, v + 1) == j;
    }
  }

  lemma TakeTook(s: Source, c: Client, want: Want, v: nat)
    requires c < |s.clients| && VisitQueue(want, v) < |s.queues| && QueuesValid(s)
    requires Idle(s.queues[VisitQueue(want, v)], VisitAuto(want, v)) != []
    ensures Took(s, Take(s, c, want, v), c, want, VisitQueue(want, v),
                 if v % 2 == 0 then want.autoCommit else !want.autoCommit)
  {
  }

  /** The queue a client calls its own is the first of its schema's name, made at
      the end of the others when there was none. */
  lemma AcquireOwn(s: Source, c: Client, schema: Schema, autoCommit: bool)
    requires c < |s.clients| && QueuesValid(s)
    ensures var own := QueueOf(s.queues, schema);
            var queues := if own < |s.queues| then s.queues else s.queues + [Queue(schema, [], [])];
            && own < |queues| && queues[own].name == schema && (forall i | 0 <= i < own :: queues[i].name != schema)
            && QueuesValid(s.(queues := queues))
            && Acquire(s, c, schema, autoCommit)
               == Seek(s.(queues := queues), c, Want(own, autoCommit, schema), 0)
  {
    SameLists(s.queues, schema);
    QueueOfFirst(s.queues, schema);
  }

  lemma {:induction false} QueueOfFirst(queues: seq<Queue>, name: Schema)
    ensures forall i | 0 <= i < QueueOf(queues, name) :: queues[i].name != name
  {
    if queues != [] && queues[0].name != name {
      QueueOfFirst(queues[1..], name);
    }
  }

  // ---- the steps behind the search ----

  /** A live connection is lent with the schema that was asked for; only the count of
      lent ones goes up. */
  lemma BorrowEffect(s: Source, c: Client)
    requires c < |s.clients| && s.clients[c].Checking? && s.clients[c].conn < |s.conns|
    ensures var (t, conn) := (Borrow(s, c), s.clients[c].conn);
            && t.clients == s.clients[c := Holding(conn)] && t.conns[conn].borrowed
            && t.conns[conn].schema == s.clients[c].want.schema
            && t.conns[conn].autoCommit == s.conns[conn].autoCommit
            && (forall k | 0 <= k < |s.conns| && k != conn :: t.conns[k] == s.conns[k]) && |t.conns| == |s.conns|
            && t.queues == s.queues && t.connCount == s.connCount && t.activeCount == s.activeCount + 1
  {
  }

  /** A connection given back goes behind all others in the list of its schema and of
      the commit mode it was left in; the other list stays as it is, and it stays
      counted. */
  lemma GiveBackEffect(s: Source, c: Client, autoCommit: bool)
    requires c < |s.clients| && s.clients[c].Holding? && s.clients[c].conn < |s.conns|
    requires QueueOf(s.queues, s.conns[s.clients[c].conn].schema) < |s.queues|
    ensures var (t, conn) := (GiveBack(s, c, autoCommit), s.clients[c].conn);
            var q := QueueOf(s.queues, s.conns[conn].schema);
            && t.queues == s.queues[q := if autoCommit then s.queues[q].(auto := s.queues[q].auto + [conn])
                                         else s.queues[q].(man := s.queues[q].man + [conn])]
            && t.clients == s.clients[c := Outside]
            && !t.conns[conn].borrowed && t.conns[conn].autoCommit == autoCommit
            && t.conns[conn].schema == s.conns[conn].schema
            && t.connCount == s.connCount && t.activeCount == s.activeCount - 1
  {
  }

  /** The next client of the same schema and commit mode gets the connection that was
      just given back, unless there are older ones in that list. */
  lemma ReturnedIsReused(s: Source, c: Client, d: Client, autoCommit: bool)
    requires c < |s.clients| && d < |s.clients| && c != d && s.clients[c].Holding? && s.clients[d].Outside?
    requires QueuesValid(s) && s.clients[c].conn < |s.conns|
    requires QueueOf(s.queues, s.conns[s.clients[c].conn].schema) < |s.queues|
    ensures var (conn, t) := (s.clients[c].conn, GiveBack(s, c, autoCommit));
            var own := s.queues[QueueOf(s.queues, s.conns[conn].schema)];
            var list := if autoCommit then own.auto else own.man;
            && QueuesValid(t)
            && var u := Acquire(t, d, s.conns[conn].schema, autoCommit);
               u.clients[d].Checking? && u.clients[d].conn == (if list == [] then conn else list[0])
  {
    GivenBackValid(s, c, autoCommit);
    GiveBackEffect(s, c, autoCommit);
    var t := GiveBack(s, c, autoCommit);
    var schema := s.conns[s.clients[c].conn].schema;
    hide GiveBack, Took, QueuesValid;
    SameNames(s.queues, t.queues, schema);
    AcquireOwn(t, d, schema, autoCommit);
    var own := QueueOf(t.queues, schema);
    assert t.(queues := t.queues) == t;
    SeekOwn(t, d, Want(own, autoCommit, schema));
    hide Seek, Acquire;
    TookWhat(t, Acquire(t, d, schema, autoCommit), d, Want(own, autoCommit, schema), own, autoCommit);
  }

  lemma GivenBackValid(s: Source, c: Client, autoCommit: bool)
    requires c < |s.clients| && s.clients[c].Holding? && s.clients[c].conn < |s.conns|
    requires QueuesValid(s) && QueueOf(s.queues, s.conns[s.clients[c].conn].schema) < |s.queues|
    ensures QueuesValid(GiveBack(s, c, autoCommit))
  {
    GiveBackEffect(s, c, autoCommit);
    var t, q := GiveBack(s, c, autoCommit), QueueOf(s.queues, s.conns[s.clients[c].conn].schema);
    hide GiveBack;
    forall k, auto | 0 <= k < |t.queues|
      ensures Idle(t.queues[k], auto) == Idle(s.queues[k], auto)
              || Idle(t.queues[k], auto) == Idle(s.queues[k], auto) + [s.clients[c].conn]
    {
    }
  }

  lemma {:induction false} SameNames(a: seq<Queue>, b: seq<Queue>, name: Schema)
    requires |a| == |b| && forall i | 0 <= i < |a| :: a[i].name == b[i].name
    ensures QueueOf(a, name) == QueueOf(b, name)
  {
    if a != [] {
      SameNames(a[1..], b[1..], name);
    }
  }

  lemma TookWhat(s: Source, t: Source, c: Client, want: Want, q: nat, auto: bool)
    requires Took(s, t, c, want, q, auto)
    ensures var list := if auto then s.queues[q].auto else s.queues[q].man;
            list != [] && c < |t.clients| && t.clients[c].Checking? && t.clients[c].conn == list[0]
  {
  }

  /** A created connection was counted before it was there; a creation that fails, or
      whose first statement fails, gives both counts back. */
  lemma CreateEffect(s: Source, c: Client, prepare: bool)
    requires Sound(s) && c < |s.clients| && s.clients[c].Creating?
    ensures var (t, f) := (Next(s, c, Created(true, prepare)), Next(s, c, Created(false, prepare)));
            && t.clients == s.clients[c := if prepare then Preparing(|s.conns|) else Holding(|s.conns|)]
            && |t.conns| == |s.conns| + 1 && t.conns[..|s.conns|] == s.conns && t.conns[|s.conns|].borrowed
            && t.connCount == s.connCount && t.activeCount == s.activeCount && t.queues == s.queues
            && f.clients == s.clients[c := Outside] && f.conns == s.conns && f.queues == s.queues
            && f.connCount == s.connCount - 1 && f.activeCount == s.activeCount - 1
  {
    hide Sound;
  }

  lemma PrepareEffect(s: Source, c: Client)
    requires Sound(s) && c < |s.clients| && s.clients[c].Preparing?
    ensures var (t, f) := (Next(s, c, Prepared(true)), Next(s, c, Prepared(false)));
            && t == s.(clients := s.clients[c := Holding(s.clients[c].conn)])
            && f.clients == s.clients[c := Outside] && f.queues == s.queues
            && f.connCount == s.connCount - 1 && f.activeCount == s.activeCount - 1
  {
  }

  /** A sleeper looks at the room alone; it takes no connection out of a queue. */
  lemma WakeEffect(s: Source, c: Client)
    requires Sound(s) && c < |s.clients| && s.clients[c].Sleeping?
    ensures var t := Next(s, c, WakeUp);
            t == if s.connCount < s.size
                 then s.(clients := s.clients[c := Creating],
                         connCount := s.connCount + 1, activeCount := s.activeCount + 1)
                 else s
    ensures Next(s, c, TimeOut) == s.(clients := s.clients[c := Outside])
  {
    assert s.clients[c := Sleeping] == s.clients;
  }
}
