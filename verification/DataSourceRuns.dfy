/** What the clients of a data source can still hope for: exactly when a client
    can get a connection, and when a sleeping one can be given room to create
    one. Both conditions are about the state a run starts from. */
module DataSourceRuns {
  import opened DataSources

  // ---- building runs from the front ----

  lemma OneEvent(s: Source, c: Client, a: Action)
    requires Sound(s) && Enabled(s, c, a)
    ensures Run(s, [Event(c, a)], Next(s, c, a))
  {
    assert [Event(c, a)][1..] == [];
    assert Run(Next(s, c, a), [], Next(s, c, a));
  }

  lemma {:induction false} RunTwice(s: Source, run: seq<Event>, t: Source, more: seq<Event>, u: Source)
    requires Run(s, run, t) && Run(t, more, u)
    ensures Run(s, run + more, u)
    decreases |run|
  {
    hide Next, Sound, Enabled;
    if run == [] {
      assert run + more == more;
    } else {
      RunTwice(Next(s, run[0].client, run[0].action), run[1..], t, more, u);
      assert (run + more)[1..] == run[1..] + more;
    }
  }

  /** One more step at the end of a run. */
  lemma Then(s: Source, run: seq<Event>, t: Source, c: Client, a: Action) returns (more: seq<Event>, u: Source)
    requires Sound(t) && Enabled(t, c, a) && Run(s, run, t)
    ensures Run(s, more, u) && u == Next(t, c, a) && Sound(u)
  {
    hide Next, Sound, Enabled;
    NextKeepsSound(t, c, a);
    OneEvent(t, c, a);
    RunTwice(s, run, t, [Event(c, a)], Next(t, c, a));
    more, u := run + [Event(c, a)], Next(t, c, a);
  }

  // ---- who can get a connection ----

  /** In some run from here the client gets a connection. */
  ghost predicate CanHold(s: Source, c: Client) {
    exists run, t :: Run(s, run, t) && c < |t.clients| && t.clients[c].Holding?
  }

  lemma HoldsLater(s: Source, d: Client, a: Action, c: Client)
    requires Sound(s) && Enabled(s, d, a) && CanHold(Next(s, d, a), c)
    ensures CanHold(s, c)
  {
    hide Next, Sound, Enabled;
    var run, t :| Run(Next(s, d, a), run, t) && c < |t.clients| && t.clients[c].Holding?;
    OneEvent(s, d, a);
    RunTwice(s, [Event(d, a)], Next(s, d, a), run, t);
  }

  lemma HoldsNow(s: Source, c: Client)
    requires c < |s.clients| && s.clients[c].Holding?
    ensures CanHold(s, c)
  {
    assert Run(s, [], s);
  }

  /** Some list of some queue has a connection. */
  predicate SomeIdle(queues: seq<Queue>) {
    exists q | 0 <= q < |queues| :: queues[q].auto != [] || queues[q].man != []
  }

  /** A client that asks is shown an idle connection, if there is one, and else
      room, if there is some. */
  lemma Asking(s: Source, c: Client)
    requires Sound(s) && c < |s.clients| && s.clients[c].Outside?
    ensures var t := Next(s, c, AcquireAction("", true));
            && c < |t.clients|
            && (SomeIdle(s.queues) ==> t.clients[c].Checking?)
            && (!SomeIdle(s.queues) && s.connCount < s.size ==> t.clients[c].Creating?)
            && (!SomeIdle(s.queues) && s.connCount >= s.size ==> t.clients[c].Sleeping?)
  {
    var t := s.(queues := WithQueue(s.queues, ""));
    var want := Want(QueueOf(s.queues, ""), true, "");
    NewQueueKeepsSound(s, "");
    QueuesAreSound(t);
    FindNoneIff(t.queues, want);
    SameQueues(s.queues);
    hide Sound, QueuesSound, QueuesValid, Seek, Find, WithQueue;
    SeekEnds(t, c, want, 0);
  }

  lemma SeekEnds(s: Source, c: Client, want: Want, v: nat)
    requires QueuesSound(s) && c < |s.clients| && want.own < |s.queues|
    ensures var t := Seek(s, c, want, v);
            && c < |t.clients|
            && (Find(s.queues, want, v).Some? ==> t.clients[c].Checking?)
            && (Find(s.queues, want, v).None? ==> t == Reserve(s, c))
  {
    hide Find;
  }

  lemma SameQueues(queues: seq<Queue>)
    ensures SomeIdle(WithQueue(queues, "")) <==> SomeIdle(queues)
  {
    var more := WithQueue(queues, "");
    assert forall q | 0 <= q < |queues| :: more[q] == more[..|queues|][q];
    if SomeIdle(more) {
      var q :| 0 <= q < |more| && (more[q].auto != [] || more[q].man != []);
      assert queues[q] == more[q];
    }
    if SomeIdle(queues) {
      var q :| 0 <= q < |queues| && (queues[q].auto != [] || queues[q].man != []);
      assert more[q] == queues[q];
    }
  }

  lemma Served(s: Source, c: Client)
    requires Sound(s) && c < |s.clients| && s.clients[c].Outside?
    requires SomeIdle(s.queues) || s.connCount < s.size
    ensures CanHold(s, c)
  {
    hide Sound, SomeIdle;
    Asking(s, c);
    var a := AcquireAction("", true);
    NextKeepsSound(s, c, a);
    var t := Next(s, c, a);
    var b := if t.clients[c].Checking? then Checked(true) else Created(true, false);
    StepGives(t, c);
    HoldsNow(Next(t, c, b), c);
    HoldsLater(t, c, b, c);
    HoldsLater(s, c, a, c);
  }

  lemma StepGives(s: Source, c: Client)
    requires Sound(s) && c < |s.clients|
    ensures s.clients[c].Checking? ==> c < |Next(s, c, Checked(true)).clients|
                                       && Next(s, c, Checked(true)).clients[c].Holding?
    ensures s.clients[c].Creating? ==> c < |Next(s, c, Created(true, false)).clients|
                                       && Next(s, c, Created(true, false)).clients[c].Holding?
  {
    ClientKnows(s, c);
  }

  lemma {:induction false} SomeCounts<T>(xs: seq<T>, f: T -> nat, g: T -> nat) returns (i: nat)
    requires Tally(xs, f) > Tally(xs, g)
    ensures i < |xs| && f(xs[i]) > g(xs[i])
  {
    if f(xs[0]) > g(xs[0]) {
      i := 0;
    } else {
      var j := SomeCounts(xs[1..], f, g);
      i := j + 1;
    }
  }

  function Nothing(pc: Pc): nat {
    0
  }

  lemma {:induction false} NothingCounts(clients: seq<Pc>)
    ensures Tally(clients, Nothing) == 0
  {
    if clients != [] {
      NothingCounts(clients[1..]);
    }
  }

  /** When nothing is idle and there is no room, yet not all connections died,
      somebody has one or is creating one. */
  lemma Helper(s: Source) returns (d: Client)
    requires Sound(s) && !SomeIdle(s.queues) && s.connCount >= s.size && Tally(s.conns, Buried) < s.size
    ensures d < |s.clients| && !s.clients[d].Outside? && !s.clients[d].Sleeping?
  {
    if Tally(s.clients, Reserved) > 0 {
      NothingCounts(s.clients);
      d := SomeCounts(s.clients, Reserved, Nothing);
    } else {
      var i := SomeCounts(s.conns, Kept, Buried);
      assert ConnSound(s, i, s.conns[i]);
      d := s.conns[i].place.client;
    }
  }

  /** A holder gives its connection back, and it is idle. */
  lemma HolderHelps(s: Source, c: Client, d: Client)
    requires Sound(s) && c < |s.clients| && s.clients[c].Outside? && d < |s.clients| && s.clients[d].Holding?
    ensures CanHold(s, c)
  {
    hide Sound, SomeIdle;
    NextKeepsSound(s, d, Release(true));
    OthersStay(s, d, Release(true), c);
    IdleAfterRelease(s, d);
    Served(Next(s, d, Release(true)), c);
    HoldsLater(s, d, Release(true), c);
  }

  lemma IdleAfterRelease(s: Source, d: Client)
    requires Sound(s) && d < |s.clients| && s.clients[d].Holding?
    ensures SomeIdle(Next(s, d, Release(true)).queues)
  {
    ClientKnows(s, d);
    var schema := s.conns[s.clients[d].conn].schema;
    var t := Next(s, d, Release(true));
    assert t.queues[QueueOf(s.queues, schema)].auto != [];
  }

  /** A creation that fails makes room. */
  lemma FailureHelps(s: Source, c: Client, d: Client, a: Action)
    requires Sound(s) && c < |s.clients| && s.clients[c].Outside?
    requires Enabled(s, d, a) && Fails(a)
    ensures CanHold(s, c)
  {
    hide Sound, SomeIdle;
    NextKeepsSound(s, d, a);
    OthersStay(s, d, a, c);
    CountFallsIff(s, d, a);
    CountWithin(s);
    Served(Next(s, d, a), c);
    HoldsLater(s, d, a, c);
  }

  lemma CountWithin(s: Source)
    requires Sound(s)
    ensures s.connCount <= s.size
  {
  }

  lemma CheckerHelps(s: Source, c: Client, d: Client)
    requires Sound(s) && c < |s.clients| && s.clients[c].Outside? && d < |s.clients| && s.clients[d].Checking?
    ensures CanHold(s, c)
  {
    hide Sound;
    NextKeepsSound(s, d, Checked(true));
    OthersStay(s, d, Checked(true), c);
    StepGives(s, d);
    HolderHelps(Next(s, d, Checked(true)), c, d);
    HoldsLater(s, d, Checked(true), c);
  }

  /** A client that is outside can get a connection exactly while fewer connections
      have died than the pool may have: dead ones are never made up for, and as
      long as one place is left, the others can always let the client in. */
  lemma ServedIff(s: Source, c: Client)
    requires Sound(s) && c < |s.clients| && s.clients[c].Outside?
    ensures CanHold(s, c) <==> Tally(s.conns, Buried) < s.size
  {
    hide Sound, SomeIdle;
    if CanHold(s, c) {
      var run, t :| Run(s, run, t) && c < |t.clients| && t.clients[c].Holding?;
      if Tally(s.conns, Buried) >= s.size {
        UsedUpForGood(s, run, t, c);
      }
    }
    if Tally(s.conns, Buried) < s.size {
      SomeoneHelps(s, c);
      assert CanHold(s, c);
    }
  }

  lemma SomeoneHelps(s: Source, c: Client)
    requires Sound(s) && c < |s.clients| && s.clients[c].Outside? && Tally(s.conns, Buried) < s.size
    ensures CanHold(s, c)
  {
    hide Sound, SomeIdle;
    if SomeIdle(s.queues) || s.connCount < s.size {
      Served(s, c);
    } else {
      var d := Helper(s);
      match s.clients[d]
      case Creating => FailureHelps(s, c, d, Created(false, false));
      case Preparing(_) => FailureHelps(s, c, d, Prepared(false));
      case Holding(_) => HolderHelps(s, c, d);
      case Checking(_, _, _) => CheckerHelps(s, c, d);
    }
  }

  // ---- when a sleeping client is given room ----

  /** No creation is going on that could fail and make room. */
  predicate Settled(s: Source) {
    s.connCount >= s.size && forall d | 0 <= d < |s.clients| :: !s.clients[d].Creating? && !s.clients[d].Preparing?
  }

  lemma SettledStays(s: Source, c: Client, a: Action)
    requires Sound(s) && Enabled(s, c, a) && Settled(s)
    ensures Settled(Next(s, c, a))
  {
    CountFallsIff(s, c, a);
    NoNewCreation(s, c, a);
    OthersStay(s, c, a, c);
    hide Sound, Next, Enabled;
    var t := Next(s, c, a);
    forall d | 0 <= d < |t.clients| ensures !t.clients[d].Creating? && !t.clients[d].Preparing? {
      OthersStay(s, c, a, d);
    }
    NoFailure(s, c, a);
  }

  lemma NoFailure(s: Source, c: Client, a: Action)
    requires Enabled(s, c, a) && !s.clients[c].Creating? && !s.clients[c].Preparing?
    ensures !Fails(a)
  {
  }

  lemma NoNewCreation(s: Source, c: Client, a: Action)
    requires Sound(s) && Enabled(s, c, a) && s.connCount >= s.size
    requires !s.clients[c].Creating? && !s.clients[c].Preparing?
    ensures c < |Next(s, c, a).clients| && !Next(s, c, a).clients[c].Creating? && !Next(s, c, a).clients[c].Preparing?
  {
    hide Idle, WithIdle, WithQueue, Find;
  }

  lemma {:induction false} SettledForGood(s: Source, run: seq<Event>, t: Source)
    requires Sound(s) && Run(s, run, t) && Settled(s)
    ensures Settled(t)
    decreases |run|
  {
    hide Sound, Next, Settled;
    if run != [] {
      NextKeepsSound(s, run[0].client, run[0].action);
      SettledStays(s, run[0].client, run[0].action);
      SettledForGood(Next(s, run[0].client, run[0].action), run[1..], t);
    }
  }

  /** In some run from here the client may create a connection. */
  ghost predicate CanCreate(s: Source, c: Client) {
    exists run, t :: Run(s, run, t) && c < |t.clients| && t.clients[c].Creating?
  }

  lemma WakesToRoom(s: Source, c: Client)
    requires Sound(s) && c < |s.clients| && s.clients[c].Sleeping? && s.connCount < s.size
    ensures CanCreate(s, c)
  {
    var t := Next(s, c, WakeUp);
    hide Sound;
    OneEvent(s, c, WakeUp);
    assert t.clients[c].Creating?;
  }

  lemma FailureWakes(s: Source, c: Client, d: Client, a: Action)
    requires Sound(s) && c < |s.clients| && s.clients[c].Sleeping? && Enabled(s, d, a) && Fails(a)
    ensures CanCreate(s, c)
  {
    hide Sound, Next, Enabled;
    NextKeepsSound(s, d, a);
    OthersStay(s, d, a, c);
    CountFallsIff(s, d, a);
    CountWithin(s);
    var n := Next(s, d, a);
    assert d != c by { NotAsleep(s, d, a); }
    WakesToRoom(n, c);
    var run, t :| Run(n, run, t) && c < |t.clients| && t.clients[c].Creating?;
    OneEvent(s, d, a);
    RunTwice(s, [Event(d, a)], n, run, t);
  }

  lemma NotAsleep(s: Source, d: Client, a: Action)
    requires Enabled(s, d, a) && Fails(a)
    ensures !s.clients[d].Sleeping?
  {
  }

  /** A sleeping client is given room in some run exactly when there is room now or
      a creation is going on, which may fail; what is idle does not matter. */
  lemma SleeperServedIff(s: Source, c: Client)
    requires Sound(s) && c < |s.clients| && s.clients[c].Sleeping?
    ensures CanCreate(s, c)
            <==> s.connCount < s.size
                 || exists d | 0 <= d < |s.clients| :: s.clients[d].Creating? || s.clients[d].Preparing?
  {
    hide Sound, Next;
    if Settled(s) {
      forall run, t | Run(s, run, t) ensures !(c < |t.clients| && t.clients[c].Creating?) {
        SettledForGood(s, run, t);
      }
    } else if s.connCount < s.size {
      WakesToRoom(s, c);
      assert CanCreate(s, c);
    } else {
      var d :| 0 <= d < |s.clients| && (s.clients[d].Creating? || s.clients[d].Preparing?);
      FailureWakes(s, c, d, if s.clients[d].Creating? then Created(false, false) else Prepared(false));
      assert CanCreate(s, c);
    }
  }

  // ---- both failures can be reached ----

  /** A pool of one whose first client is at `pc`. */
  function One(pc: Pc, others: seq<Pc>, idle: seq<nat>, conns: seq<Conn>, activeCount: int): Source {
    Source(1, [Queue("", idle, [])], conns, [pc] + others, 1, activeCount)
  }

  const ASK := AcquireAction("", true)

  lemma FirstAsks(s: Source, others: seq<Pc>)
    requires Sound(s) && s == Start(1, [Outside] + others)
    ensures Enabled(s, 0, ASK) && Next(s, 0, ASK) == One(Creating, others, [], [], 1)
  {
    var t := Acquire(s, 0, "", true);
    assert t.queues == [Queue("", [], [])];
    assert t.clients == [Creating] + others;
  }

  lemma FirstCreates(s: Source, others: seq<Pc>)
    requires Sound(s) && s == One(Creating, others, [], [], 1)
    ensures Enabled(s, 0, Created(true, false))
    ensures Next(s, 0, Created(true, false)) == One(Holding(0), others, [], [Conn("", true, true, With(0))], 1)
  {
    assert ([Creating] + others)[0 := Holding(0)] == [Holding(0)] + others;
  }

  lemma FirstReleases(s: Source, others: seq<Pc>)
    requires Sound(s) && s == One(Holding(0), others, [], [Conn("", true, true, With(0))], 1)
    ensures Enabled(s, 0, Release(true))
    ensures Next(s, 0, Release(true)) == One(Outside, others, [0], [Conn("", true, false, InQueue(0, true))], 0)
  {
    assert ([Holding(0)] + others)[0 := Outside] == [Outside] + others;
    var t := GiveBack(s, 0, true);
    assert t.queues[0].auto == [0];
    assert t.queues == [Queue("", [0], [])];
  }

  /** A run of one client up to its connection. */
  lemma FirstHolds(others: seq<Pc>) returns (run: seq<Event>, t: Source)
    requires forall c | 0 <= c < |others| :: others[c] == Outside
    ensures Run(Start(1, [Outside] + others), run, t) && Sound(t)
    ensures t == One(Holding(0), others, [], [Conn("", true, true, With(0))], 1)
  {
    var s := Start(1, [Outside] + others);
    StartIsSound(1, [Outside] + others);
    assert Run(s, [], s);
    hide Sound, Next, Enabled, Run;
    FirstAsks(s, others);
    run, t := Then(s, [], s, 0, ASK);
    FirstCreates(t, others);
    run, t := Then(s, run, t, 0, Created(true, false));
  }

  lemma FirstTakes(s: Source)
    requires Sound(s) && s == One(Outside, [], [0], [Conn("", true, false, InQueue(0, true))], 0)
    ensures Enabled(s, 0, ASK)
    ensures Next(s, 0, ASK) == One(Checking(0, Want(0, true, ""), 0), [], [], [Conn("", true, false, With(0))], 0)
  {
    var t := Acquire(s, 0, "", true);
    assert t.queues[0].auto == [];
    assert t.queues == [Queue("", [], [])] && t.clients == [Checking(0, Want(0, true, ""), 0)];
  }

  lemma FirstBuries(s: Source)
    requires Sound(s) && s == One(Checking(0, Want(0, true, ""), 0), [], [], [Conn("", true, false, With(0))], 0)
    ensures Enabled(s, 0, Checked(false))
    ensures var t := Next(s, 0, Checked(false)); t.size == 1 && Tally(t.conns, Buried) == 1
  {
    var t := Next(s, 0, Checked(false));
    assert t.conns == [Conn("", true, false, Dead)];
    assert t.conns[1..] == [];
  }

  /** A pool of one: a client creates the connection, gives it back, asks again,
      and finds it dead. From then on nobody is served. */
  lemma UsedUpIsReached()
    ensures exists run, t :: Run(Start(1, [Outside]), run, t) && Sound(t) && Tally(t.conns, Buried) >= t.size
  {
    var s := Start(1, [Outside]);
    assert [Outside] + [] == [Outside];
    hide Sound, Next, Enabled, Run;
    var run, t := FirstHolds([]);
    FirstReleases(t, []);
    run, t := Then(s, run, t, 0, Release(true));
    FirstTakes(t);
    run, t := Then(s, run, t, 0, ASK);
    FirstBuries(t);
    run, t := Then(s, run, t, 0, Checked(false));
  }

  /** A pool of one and two clients: the second asks while the first holds the
      connection, and goes on sleeping beside it after it was given back, with
      nobody left who could make room. */
  lemma SleeperBesideIdle()
    ensures exists run, t ::
              && Run(Start(1, [Outside, Outside]), run, t) && |t.clients| == 2
              && t.clients[1].Sleeping? && SomeIdle(t.queues) && !CanCreate(t, 1)
  {
    var s := Start(1, [Outside, Outside]);
    assert [Outside] + [Outside] == [Outside, Outside];
    hide Sound, Next, Enabled, Run, CanCreate;
    var run, t := FirstHolds([Outside]);
    SecondSleeps(t);
    run, t := Then(s, run, t, 1, ASK);
    FirstReleases(t, [Sleeping]);
    run, t := Then(s, run, t, 0, Release(true));
    IdleButStuck(t);
  }

  lemma IdleButStuck(s: Source)
    requires Sound(s) && s == One(Outside, [Sleeping], [0], [Conn("", true, false, InQueue(0, true))], 0)
    ensures |s.clients| == 2 && s.clients[1].Sleeping? && SomeIdle(s.queues) && !CanCreate(s, 1)
  {
    hide Sound;
    assert s.clients == [Outside, Sleeping];
    SleeperServedIff(s, 1);
    assert s.queues[0].auto != [];
  }

  lemma SecondSleeps(s: Source)
    requires Sound(s) && s == One(Holding(0), [Outside], [], [Conn("", true, true, With(0))], 1)
    ensures Enabled(s, 1, ASK)
    ensures Next(s, 1, ASK) == One(Holding(0), [Sleeping], [], [Conn("", true, true, With(0))], 1)
  {
    assert s.clients == [Holding(0), Outside];
    Asking(s, 1);
    var t := Next(s, 1, ASK);
    assert t.clients == [Holding(0)] + [Sleeping];
    assert t.queues == [Queue("", [], [])];
  }
}
