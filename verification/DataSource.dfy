/** A physical data source: connections that wait in queues, are borrowed by
    clients, and are created up to a limit. Control passes between clients only
    while a connection is checked, created or used, and while a client sleeps; a
    run is any sequence of the steps below. */
module DataSources {
  import opened Wrappers

  // ---- tallies ----

  function Tally<T>(xs: seq<T>, f: T -> nat): nat {
    if xs == [] then 0 else f(xs[0]) + Tally(xs[1..], f)
  }

  lemma {:induction false} TallyUpdate<T>(xs: seq<T>, i: nat, v: T, f: T -> nat)
    requires i < |xs|
    ensures Tally(xs[i := v], f) + f(xs[i]) == Tally(xs, f) + f(v)
  {
    if i == 0 {
      assert xs[i := v][1..] == xs[1..];
    } else {
      assert xs[i := v][1..] == xs[1..][i - 1 := v];
      TallyUpdate(xs[1..], i - 1, v, f);
    }
  }

  lemma {:induction false} TallyAppend<T>(xs: seq<T>, v: T, f: T -> nat)
    ensures Tally(xs + [v], f) == Tally(xs, f) + f(v)
  {
    if xs == [] {
      assert [] + [v] == [v];
    } else {
      assert (xs + [v])[1..] == xs[1..] + [v];
      TallyAppend(xs[1..], v, f);
    }
  }

  // ---- state ----

  /** Upper-cased schema names; a connection that was never borrowed from a queue
      has the empty one. */
  type Schema = string

  type Client = nat

  /** Where a connection is: bookkeeping beside the code's own state. */
  datatype Place = InQueue(queue: nat, auto: bool) | With(client: Client) | Dead | Lost

  datatype Conn = Conn(schema: Schema, autoCommit: bool, borrowed: bool, place: Place)

  datatype Queue = Queue(name: Schema, auto: seq<nat>, man: seq<nat>)

  /** What a client looks for: its own queue, which commit mode first, and the
      schema it wants. */
  datatype Want = Want(own: nat, autoCommit: bool, schema: Schema)

  /** Where a client is in `getConnection` and after. A checking client has a
      connection in hand that is in no queue; `visit` is the list it came from. */
  datatype Pc =
    | Outside
    | Checking(conn: nat, want: Want, visit: nat)
    | Sleeping
    | Creating
    | Preparing(conn: nat)
    | Holding(conn: nat)

  datatype Source = Source(
    size: nat, queues: seq<Queue>, conns: seq<Conn>, clients: seq<Pc>, connCount: int, activeCount: int)

  function ConnOf(pc: Pc): Option<nat> {
    match pc
    case Checking(conn, _, _) => Some(conn)
    case Preparing(conn) => Some(conn)
    case Holding(conn) => Some(conn)
    case _ => None
  }

  function Idle(q: Queue, auto: bool): seq<nat> {
    if auto then q.auto else q.man
  }

  function WithIdle(q: Queue, auto: bool, list: seq<nat>): Queue {
    if auto then q.(auto := list) else q.(man := list)
  }

  // ---- the order in which the lists are visited ----

  /** The queue and commit mode of the v-th visit: first the client's own queue,
      then every queue in the order of creation, each with both of its lists. */
  function VisitQueue(want: Want, v: nat): nat {
    if v < 2 then want.own else (v - 2) / 2
  }

  function VisitAuto(want: Want, v: nat): bool {
    if v % 2 == 0 then want.autoCommit else !want.autoCommit
  }

  /** The first visit from v on that finds a connection. */
  function Find(queues: seq<Queue>, want: Want, v: nat): (r: Option<nat>)
    requires want.own < |queues|
    ensures r.Some? ==> v <= r.value && VisitQueue(want, r.value) < |queues|
                        && Idle(queues[VisitQueue(want, r.value)], VisitAuto(want, r.value)) != []
    decreases 2 + 2 * |queues| - v
  {
    if v >= 2 + 2 * |queues| then None
    else if (v < 2 || VisitQueue(want, v) != want.own) && Idle(queues[VisitQueue(want, v)], VisitAuto(want, v)) != []
    then Some(v)
    else Find(queues, want, v + 1)
  }

  /** Nothing is found from the first visit on exactly when all queues are empty. */
  lemma FindNoneIff(queues: seq<Queue>, want: Want)
    requires want.own < |queues|
    ensures Find(queues, want, 0).None? <==> forall q | 0 <= q < |queues| :: queues[q].auto == [] && queues[q].man == []
  {
    if Find(queues, want, 0).None? {
      forall q | 0 <= q < |queues| ensures queues[q].auto == [] && queues[q].man == [] {
        var v := if q == want.own then 0 else 2 + 2 * q;
        FindPast(queues, want, 0, v);
        FindPast(queues, want, 0, v + 1);
      }
    }
  }

  lemma {:induction false} FindPast(queues: seq<Queue>, want: Want, v: nat, u: nat)
    requires want.own < |queues| && v <= u < 2 + 2 * |queues| && Find(queues, want, v).None?
    ensures (u < 2 || VisitQueue(want, u) != want.own) ==>
              Idle(queues[VisitQueue(want, u)], VisitAuto(want, u)) == []
    decreases u - v
  {
    if v < u {
      FindPast(queues, want, v + 1, u);
    }
  }

  // ---- the steps ----

  /** The place of the queue of a name, or of the new one it will get. */
  function QueueOf(queues: seq<Queue>, name: Schema): (i: nat)
    ensures i <= |queues| && (i < |queues| ==> queues[i].name == name)
  {
    if queues == [] || queues[0].name == name then 0 else 1 + QueueOf(queues[1..], name)
  }

  function WithQueue(queues: seq<Queue>, name: Schema): (r: seq<Queue>)
    ensures QueueOf(queues, name) < |r| && |queues| <= |r| && r[..|queues|] == queues
    ensures |queues| < |r| ==> |r| == |queues| + 1 && r[|queues|] == Queue(name, [], [])
  {
    if QueueOf(queues, name) < |queues| then queues else queues + [Queue(name, [], [])]
  }

  lemma SameLists(queues: seq<Queue>, name: Schema)
    ensures forall q, auto | 0 <= q < |WithQueue(queues, name)| ::
              Idle(WithQueue(queues, name)[q], auto) == if q < |queues| then Idle(queues[q], auto) else []
  {
    var r := WithQueue(queues, name);
    assert forall q | 0 <= q < |queues| :: r[q] == r[..|queues|][q];
  }

  lemma IdleOfWith(q: Queue, auto: bool, list: seq<nat>)
    ensures Idle(WithIdle(q, auto, list), auto) == list && Idle(WithIdle(q, auto, list), !auto) == Idle(q, !auto)
  {
  }

  function SetClient(s: Source, c: Client, pc: Pc): Source
    requires c < |s.clients|
  {
    s.(clients := s.clients[c := pc])
  }

  /** Takes the first connection of the list of a visit into the client's hand. */
  function Take(s: Source, c: Client, want: Want, v: nat): Source
    requires c < |s.clients| && VisitQueue(want, v) < |s.queues|
    requires Idle(s.queues[VisitQueue(want, v)], VisitAuto(want, v)) != []
    requires Idle(s.queues[VisitQueue(want, v)], VisitAuto(want, v))[0] < |s.conns|
  {
    var q, auto := VisitQueue(want, v), VisitAuto(want, v);
    var list := Idle(s.queues[q], auto);
    var conn := list[0];
    SetClient(s, c, Checking(conn, want, v)).(
      queues := s.queues[q := WithIdle(s.queues[q], auto, list[1..])],
      conns := s.conns[conn := s.conns[conn].(place := With(c))])
  }

  /** Counts a connection to be created when there is room, or goes to sleep. */
  function Reserve(s: Source, c: Client): Source
    requires c < |s.clients|
  {
    if s.connCount >= s.size then SetClient(s, c, Sleeping)
    else SetClient(s, c, Creating).(connCount := s.connCount + 1, activeCount := s.activeCount + 1)
  }

  /** Goes on from visit v without giving up control. */
  function Seek(s: Source, c: Client, want: Want, v: nat): Source
    requires c < |s.clients| && want.own < |s.queues|
    requires QueuesValid(s)
  {
    var u := Find(s.queues, want, v);
    if u.Some? then Take(s, c, want, u.value) else Reserve(s, c)
  }

  predicate QueuesValid(s: Source) {
    forall q, auto, i | 0 <= q < |s.queues| && 0 <= i < |Idle(s.queues[q], auto)| ::
      Idle(s.queues[q], auto)[i] < |s.conns|
  }

  /** `getConnection` up to its first wait. */
  function Acquire(s: Source, c: Client, schema: Schema, autoCommit: bool): Source
    requires c < |s.clients| && QueuesValid(s)
  {
    var t := s.(queues := WithQueue(s.queues, schema));
    assert QueuesValid(t) by { SameLists(s.queues, schema); }
    Seek(t, c, Want(QueueOf(s.queues, schema), autoCommit, schema), 0)
  }

  /** The connection in hand is alive: it is borrowed. */
  function Borrow(s: Source, c: Client): Source
    requires c < |s.clients| && s.clients[c].Checking? && s.clients[c].conn < |s.conns|
  {
    var Checking(conn, want, _) := s.clients[c];
    SetClient(s, c, Holding(conn)).(
      conns := s.conns[conn := s.conns[conn].(borrowed := true, schema := want.schema)],
      activeCount := s.activeCount + 1)
  }

  /** The connection in hand is dead: it is closed, which leaves the counters as
      they are, and the search goes on where it was. */
  function Discard(s: Source, c: Client): Source
    requires c < |s.clients| && s.clients[c].Checking? && s.clients[c].conn < |s.conns|
    requires s.clients[c].want.own < |s.queues| && QueuesValid(s)
  {
    var Checking(conn, want, v) := s.clients[c];
    Seek(Drop(s, c, conn, Dead), c, want, v)
  }

  function Drop(s: Source, c: Client, conn: nat, place: Place): Source
    requires c < |s.clients| && conn < |s.conns|
  {
    SetClient(s, c, Outside).(conns := s.conns[conn := s.conns[conn].(place := place)])
  }

  /** A new connection: the code waits for its first statement, if there is one. */
  function Create(s: Source, c: Client, prepare: bool): Source
    requires c < |s.clients|
  {
    var conn := |s.conns|;
    SetClient(s, c, if prepare then Preparing(conn) else Holding(conn)).(
      conns := s.conns + [Conn("", true, true, With(c))])
  }

  function Uncount(s: Source): Source {
    s.(connCount := s.connCount - 1, activeCount := s.activeCount - 1)
  }

  /** A connection that nobody else has goes to the end of a list. */
  function Append(s: Source, c: Client, conn: nat, q: nat, auto: bool): Source
    requires c < |s.clients| && conn < |s.conns| && q < |s.queues|
  {
    SetClient(s, c, Outside).(
      queues := s.queues[q := WithIdle(s.queues[q], auto, Idle(s.queues[q], auto) + [conn])],
      conns := s.conns[conn := s.conns[conn].(borrowed := false, autoCommit := auto, place := InQueue(q, auto))],
      activeCount := s.activeCount - 1)
  }

  /** Unbinds and releases the connection a client holds; its commit mode is
      what the client left. */
  function GiveBack(s: Source, c: Client, autoCommit: bool): Source
    requires c < |s.clients| && s.clients[c].Holding? && s.clients[c].conn < |s.conns|
  {
    var conn := s.clients[c].conn;
    var schema := s.conns[conn].schema;
    var t := s.(queues := WithQueue(s.queues, schema));
    Append(t, c, conn, QueueOf(s.queues, schema), autoCommit)
  }

  // ---- runs ----

  datatype Action =
    | AcquireAction(schema: Schema, autoCommit: bool)
    | Checked(alive: bool)
    | WakeUp
    | TimeOut
    | Created(ok: bool, prepare: bool)
    | Prepared(ok: bool)
    | Release(autoCommit: bool)

  predicate Enabled(s: Source, c: Client, a: Action) {
    && c < |s.clients|
    && match a
       case AcquireAction(_, _) => s.clients[c].Outside?
       case Checked(_) => s.clients[c].Checking?
       case WakeUp => s.clients[c].Sleeping?
       case TimeOut => s.clients[c].Sleeping?
       case Created(_, _) => s.clients[c].Creating?
       case Prepared(_) => s.clients[c].Preparing?
       case Release(_) => s.clients[c].Holding?
  }

  ghost function Next(s: Source, c: Client, a: Action): Source
    requires Sound(s) && Enabled(s, c, a)
  {
    match a
    case AcquireAction(schema, autoCommit) => Acquire(s, c, schema, autoCommit)
    case Checked(alive) => if alive then Borrow(s, c) else Discard(s, c)
    case WakeUp => Reserve(s, c)
    case TimeOut => SetClient(s, c, Outside)
    case Created(ok, prepare) => if ok then Create(s, c, prepare) else Uncount(SetClient(s, c, Outside))
    case Prepared(ok) =>
      if ok then SetClient(s, c, Holding(s.clients[c].conn)) else Uncount(Drop(s, c, s.clients[c].conn, Lost))
    case Release(autoCommit) => GiveBack(s, c, autoCommit)
  }

  // ---- the invariant ----

  function Kept(conn: Conn): nat {
    if conn.place == Lost then 0 else 1
  }

  function Reserved(pc: Pc): nat {
    if pc.Creating? then 1 else 0
  }

  function Active(pc: Pc): nat {
    if pc.Creating? || pc.Preparing? || pc.Holding? then 1 else 0
  }

  predicate QueuesSound(s: Source) {
    && QueuesValid(s)
    && (forall q, auto, i | 0 <= q < |s.queues| && 0 <= i < |Idle(s.queues[q], auto)| ::
          s.conns[Idle(s.queues[q], auto)[i]].place == InQueue(q, auto))
    && (forall q, auto, i, j | 0 <= q < |s.queues| && 0 <= i < j < |Idle(s.queues[q], auto)| ::
          Idle(s.queues[q], auto)[i] != Idle(s.queues[q], auto)[j])
  }

  predicate ClientSound(s: Source, c: Client, pc: Pc) {
    && (ConnOf(pc).Some? ==> ConnOf(pc).value < |s.conns| && s.conns[ConnOf(pc).value].place == With(c))
    && (pc.Checking? ==> pc.want.own < |s.queues|)
  }

  predicate ConnSound(s: Source, i: nat, conn: Conn) {
    && (conn.place.InQueue? ==>
          conn.place.queue < |s.queues| && i in Idle(s.queues[conn.place.queue], conn.place.auto))
    && (conn.place.With? ==> conn.place.client < |s.clients| && ConnOf(s.clients[conn.place.client]) == Some(i))
    && (conn.borrowed <==> conn.place == Lost || (conn.place.With? && !s.clients[conn.place.client].Checking?))
  }

  ghost predicate Sound(s: Source) {
    && QueuesSound(s)
    && (forall c | 0 <= c < |s.clients| :: ClientSound(s, c, s.clients[c]))
    && (forall i | 0 <= i < |s.conns| :: ConnSound(s, i, s.conns[i]))
    && s.connCount == Tally(s.conns, Kept) + Tally(s.clients, Reserved)
    && s.activeCount == Tally(s.clients, Active)
    && s.connCount <= s.size
  }

  // ---- every step keeps it ----

  lemma NewQueueKeepsSound(s: Source, name: Schema)
    requires Sound(s)
    ensures Sound(s.(queues := WithQueue(s.queues, name)))
  {
    var t := s.(queues := WithQueue(s.queues, name));
    assert forall q | 0 <= q < |s.queues| :: t.queues[q] == t.queues[..|s.queues|][q] == s.queues[q];
    forall i | 0 <= i < |t.conns| ensures ConnSound(t, i, t.conns[i]) {
      assert ConnSound(s, i, s.conns[i]);
    }
    forall c | 0 <= c < |t.clients| ensures ClientSound(t, c, t.clients[c]) {
      assert ClientSound(s, c, s.clients[c]);
    }
  }

  lemma TakeKeepsQueues(s: Source, c: Client, want: Want, v: nat)
    requires QueuesSound(s) && c < |s.clients| && VisitQueue(want, v) < |s.queues|
    requires Idle(s.queues[VisitQueue(want, v)], VisitAuto(want, v)) != []
    ensures QueuesSound(Take(s, c, want, v))
  {
    hide Idle, WithIdle, VisitQueue, VisitAuto;
    var t := Take(s, c, want, v);
    var q, auto := VisitQueue(want, v), VisitAuto(want, v);
    IdleOfWith(s.queues[q], auto, Idle(s.queues[q], auto)[1..]);
    forall r, b, i | 0 <= r < |t.queues| && 0 <= i < |Idle(t.queues[r], b)|
      ensures Idle(t.queues[r], b)[i] < |t.conns| && t.conns[Idle(t.queues[r], b)[i]].place == InQueue(r, b)
    {
      if r == q && b == auto {
        assert Idle(t.queues[r], b)[i] == Idle(s.queues[r], b)[i + 1];
      } else {
        assert Idle(t.queues[r], b)[i] == Idle(s.queues[r], b)[i];
      }
    }
    forall r, b, i, j | 0 <= r < |t.queues| && 0 <= i < j < |Idle(t.queues[r], b)|
      ensures Idle(t.queues[r], b)[i] != Idle(t.queues[r], b)[j]
    {
      if r == q && b == auto {
        assert Idle(t.queues[r], b)[i] == Idle(s.queues[r], b)[i + 1];
        assert Idle(t.queues[r], b)[j] == Idle(s.queues[r], b)[j + 1];
      }
    }
  }

  lemma TakeKeepsConns(s: Source, c: Client, want: Want, v: nat, i: nat)
    requires Sound(s) && c < |s.clients| && ConnOf(s.clients[c]) == None && i < |s.conns|
    requires VisitQueue(want, v) < |s.queues| && Idle(s.queues[VisitQueue(want, v)], VisitAuto(want, v)) != []
    ensures ConnSound(Take(s, c, want, v), i, Take(s, c, want, v).conns[i])
  {
    hide Idle, WithIdle, VisitQueue, VisitAuto;
    var t := Take(s, c, want, v);
    var q, auto := VisitQueue(want, v), VisitAuto(want, v);
    var list := Idle(s.queues[q], auto);
    IdleOfWith(s.queues[q], auto, list[1..]);
    assert ConnSound(s, i, s.conns[i]);
    if i == list[0] {
      assert s.conns[i].place == InQueue(q, auto);
    } else if s.conns[i].place == InQueue(q, auto) {
      assert i in list && list == [list[0]] + list[1..];
    }
  }

  lemma TakeKeepsSound(s: Source, c: Client, want: Want, v: nat)
    requires Sound(s) && c < |s.clients| && ConnOf(s.clients[c]) == None && Active(s.clients[c]) == 0
    requires want.own < |s.queues| && VisitQueue(want, v) < |s.queues|
    requires Idle(s.queues[VisitQueue(want, v)], VisitAuto(want, v)) != []
    ensures Sound(Take(s, c, want, v))
  {
    hide Idle, WithIdle, VisitQueue, VisitAuto, QueuesSound, ConnSound;
    TakesIdle(s, want, v);
    var t := Take(s, c, want, v);
    var conn := t.clients[c].conn;
    TakeKeepsQueues(s, c, want, v);
    forall i | 0 <= i < |t.conns| ensures ConnSound(t, i, t.conns[i]) {
      TakeKeepsConns(s, c, want, v, i);
    }
    forall d | 0 <= d < |t.clients| ensures ClientSound(t, d, t.clients[d]) {
      assert ClientSound(s, d, s.clients[d]);
    }
    TallyUpdate(s.conns, conn, t.conns[conn], Kept);
    TallyUpdate(s.clients, c, t.clients[c], Reserved);
    TallyUpdate(s.clients, c, t.clients[c], Active);
  }

  lemma TakesIdle(s: Source, want: Want, v: nat)
    requires QueuesSound(s) && VisitQueue(want, v) < |s.queues|
    requires Idle(s.queues[VisitQueue(want, v)], VisitAuto(want, v)) != []
    ensures var conn := Idle(s.queues[VisitQueue(want, v)], VisitAuto(want, v))[0];
            conn < |s.conns| && s.conns[conn].place.InQueue?
  {
  }

  lemma ReserveKeepsSound(s: Source, c: Client)
    requires Sound(s) && c < |s.clients| && ConnOf(s.clients[c]) == None && Active(s.clients[c]) == 0
    ensures Sound(Reserve(s, c))
  {
    var t := Reserve(s, c);
    TallyUpdate(s.clients, c, t.clients[c], Reserved);
    TallyUpdate(s.clients, c, t.clients[c], Active);
  }

  lemma SeekKeepsSound(s: Source, c: Client, want: Want, v: nat)
    requires Sound(s) && c < |s.clients| && ConnOf(s.clients[c]) == None && Active(s.clients[c]) == 0
    requires want.own < |s.queues|
    ensures Sound(Seek(s, c, want, v))
  {
    hide Sound;
    var u := Find(s.queues, want, v);
    if u.Some? {
      TakeKeepsSound(s, c, want, u.value);
    } else {
      ReserveKeepsSound(s, c);
    }
  }

  lemma BorrowKeepsSound(s: Source, c: Client)
    requires Sound(s) && c < |s.clients| && s.clients[c].Checking?
    ensures s.clients[c].conn < |s.conns| && Sound(Borrow(s, c))
  {
    assert ClientSound(s, c, s.clients[c]);
    var t := Borrow(s, c);
    var conn := t.clients[c].conn;
    TallyUpdate(s.conns, conn, t.conns[conn], Kept);
    TallyUpdate(s.clients, c, t.clients[c], Reserved);
    TallyUpdate(s.clients, c, t.clients[c], Active);
  }

  /** A client drops its connection; a lost one is not counted any more. */
  lemma DropKeepsSound(s: Source, c: Client, place: Place)
    requires Sound(s) && c < |s.clients| && ConnOf(s.clients[c]).Some?
    requires if s.clients[c].Checking? then place == Dead else place == Lost
    requires !s.clients[c].Holding?
    ensures ConnOf(s.clients[c]).value < |s.conns|
    ensures var t := Drop(s, c, ConnOf(s.clients[c]).value, place);
            Sound(if place == Lost then Uncount(t) else t)
  {
    hide Idle;
    assert ClientSound(s, c, s.clients[c]);
    var conn := ConnOf(s.clients[c]).value;
    var t := Drop(s, c, conn, place);
    forall i | 0 <= i < |t.conns| ensures ConnSound(t, i, t.conns[i]) {
      assert ConnSound(s, i, s.conns[i]);
    }
    forall d | 0 <= d < |t.clients| ensures ClientSound(t, d, t.clients[d]) {
      assert ClientSound(s, d, s.clients[d]);
    }
    TallyUpdate(s.conns, conn, t.conns[conn], Kept);
    TallyUpdate(s.clients, c, Outside, Reserved);
    TallyUpdate(s.clients, c, Outside, Active);
  }

  lemma CreateKeepsSound(s: Source, c: Client, prepare: bool)
    requires Sound(s) && c < |s.clients| && s.clients[c].Creating?
    ensures Sound(Create(s, c, prepare))
  {
    var t := Create(s, c, prepare);
    TallyAppend(s.conns, t.conns[|s.conns|], Kept);
    TallyUpdate(s.clients, c, t.clients[c], Reserved);
    TallyUpdate(s.clients, c, t.clients[c], Active);
  }

  lemma AppendKeepsQueues(s: Source, c: Client, conn: nat, q: nat, auto: bool)
    requires QueuesSound(s) && c < |s.clients| && conn < |s.conns| && q < |s.queues|
    requires s.conns[conn].place.With?
    ensures QueuesSound(Append(s, c, conn, q, auto))
  {
    hide Idle, WithIdle;
    var t := Append(s, c, conn, q, auto);
    var list := Idle(s.queues[q], auto);
    IdleOfWith(s.queues[q], auto, list + [conn]);
    forall r, b, i | 0 <= r < |t.queues| && 0 <= i < |Idle(t.queues[r], b)|
      ensures Idle(t.queues[r], b)[i] < |t.conns| && t.conns[Idle(t.queues[r], b)[i]].place == InQueue(r, b)
    {
      if !(r == q && b == auto) || i < |list| {
        assert Idle(t.queues[r], b)[i] == Idle(s.queues[r], b)[i];
      }
    }
    forall r, b, i, j | 0 <= r < |t.queues| && 0 <= i < j < |Idle(t.queues[r], b)|
      ensures Idle(t.queues[r], b)[i] != Idle(t.queues[r], b)[j]
    {
      assert Idle(t.queues[r], b)[i] == Idle(s.queues[r], b)[i];
      if !(r == q && b == auto) || j < |list| {
        assert Idle(t.queues[r], b)[j] == Idle(s.queues[r], b)[j];
      }
    }
  }

  lemma AppendKeepsConns(s: Source, c: Client, conn: nat, q: nat, auto: bool, i: nat)
    requires Sound(s) && c < |s.clients| && s.clients[c] == Holding(conn) && q < |s.queues| && i < |s.conns|
    requires conn < |s.conns|
    ensures ConnSound(Append(s, c, conn, q, auto), i, Append(s, c, conn, q, auto).conns[i])
  {
    hide Idle, WithIdle;
    var t := Append(s, c, conn, q, auto);
    var list := Idle(s.queues[q], auto);
    IdleOfWith(s.queues[q], auto, list + [conn]);
    assert ConnSound(s, i, s.conns[i]);
    if i == conn {
      assert (list + [conn])[|list|] == conn;
    } else if s.conns[i].place.InQueue? {
      var r, b := s.conns[i].place.queue, s.conns[i].place.auto;
      var k :| 0 <= k < |Idle(s.queues[r], b)| && Idle(s.queues[r], b)[k] == i;
      assert Idle(t.queues[r], b)[k] == i;
    }
  }

  lemma AppendKeepsSound(s: Source, c: Client, conn: nat, q: nat, auto: bool)
    requires Sound(s) && c < |s.clients| && s.clients[c] == Holding(conn) && q < |s.queues|
    ensures conn < |s.conns| && Sound(Append(s, c, conn, q, auto))
  {
    hide Idle, WithIdle, QueuesSound, ConnSound;
    assert ClientSound(s, c, s.clients[c]);
    var t := Append(s, c, conn, q, auto);
    AppendKeepsQueues(s, c, conn, q, auto);
    forall i | 0 <= i < |t.conns| ensures ConnSound(t, i, t.conns[i]) {
      AppendKeepsConns(s, c, conn, q, auto, i);
    }
    forall d | 0 <= d < |t.clients| ensures ClientSound(t, d, t.clients[d]) {
      assert ClientSound(s, d, s.clients[d]);
    }
    TallyUpdate(s.conns, conn, t.conns[conn], Kept);
    TallyUpdate(s.clients, c, Outside, Reserved);
    TallyUpdate(s.clients, c, Outside, Active);
  }

  lemma NextKeepsSound(s: Source, c: Client, a: Action)
    requires Sound(s) && Enabled(s, c, a)
    ensures Sound(Next(s, c, a))
  {
    hide Sound, Seek, Take, Reserve, Create;
    match a
    case AcquireAction(schema, autoCommit) =>
      NewQueueKeepsSound(s, schema);
      var t := s.(queues := WithQueue(s.queues, schema));
      SeekKeepsSound(t, c, Want(QueueOf(s.queues, schema), autoCommit, schema), 0);
    case Checked(alive) =>
      if alive {
        BorrowKeepsSound(s, c);
      } else {
        DropKeepsSound(s, c, Dead);
        ClientKnows(s, c);
        SeekKeepsSound(Drop(s, c, s.clients[c].conn, Dead), c, s.clients[c].want, s.clients[c].visit);
      }
    case WakeUp =>
      ReserveKeepsSound(s, c);
    case TimeOut =>
      MoveKeepsSound(s, c, Outside);
    case Created(ok, prepare) =>
      if ok {
        CreateKeepsSound(s, c, prepare);
      } else {
        UncountKeepsSound(s, c);
      }
    case Prepared(ok) =>
      ClientKnows(s, c);
      if ok {
        MoveKeepsSound(s, c, Holding(s.clients[c].conn));
      } else {
        DropKeepsSound(s, c, Lost);
      }
    case Release(autoCommit) =>
      ClientKnows(s, c);
      var schema := s.conns[s.clients[c].conn].schema;
      NewQueueKeepsSound(s, schema);
      var t := s.(queues := WithQueue(s.queues, schema));
      AppendKeepsSound(t, c, s.clients[c].conn, QueueOf(s.queues, schema), autoCommit);
  }

  lemma ClientKnows(s: Source, c: Client)
    requires Sound(s) && c < |s.clients|
    ensures ClientSound(s, c, s.clients[c])
  {
  }

  /** A client moves without a change of its connection or of the counts. */
  lemma MoveKeepsSound(s: Source, c: Client, pc: Pc)
    requires Sound(s) && c < |s.clients|
    requires (s.clients[c].Sleeping? && pc == Outside) || (s.clients[c].Preparing? && pc == Holding(s.clients[c].conn))
    ensures Sound(SetClient(s, c, pc))
  {
    hide Idle;
    var t := SetClient(s, c, pc);
    forall i | 0 <= i < |t.conns| ensures ConnSound(t, i, t.conns[i]) {
      assert ConnSound(s, i, s.conns[i]);
    }
    forall d | 0 <= d < |t.clients| ensures ClientSound(t, d, t.clients[d]) {
      assert ClientSound(s, d, s.clients[d]);
    }
    TallyUpdate(s.clients, c, pc, Reserved);
    TallyUpdate(s.clients, c, pc, Active);
  }

  lemma UncountKeepsSound(s: Source, c: Client)
    requires Sound(s) && c < |s.clients| && s.clients[c].Creating?
    ensures Sound(Uncount(SetClient(s, c, Outside)))
  {
    hide Idle;
    var t := Uncount(SetClient(s, c, Outside));
    forall i | 0 <= i < |t.conns| ensures ConnSound(t, i, t.conns[i]) {
      assert ConnSound(s, i, s.conns[i]);
    }
    forall d | 0 <= d < |t.clients| ensures ClientSound(t, d, t.clients[d]) {
      assert ClientSound(s, d, s.clients[d]);
    }
    TallyUpdate(s.clients, c, Outside, Reserved);
    TallyUpdate(s.clients, c, Outside, Active);
  }

  // ---- theorems about runs ----

  datatype Event = Event(client: Client, action: Action)

  /** t comes after the events of a run from s, each enabled when it happens. */
  ghost predicate Run(s: Source, run: seq<Event>, t: Source)
    decreases |run|
  {
    if run == [] then s == t
    else Sound(s) && Enabled(s, run[0].client, run[0].action)
         && Run(Next(s, run[0].client, run[0].action), run[1..], t)
  }

  function Start(size: nat, clients: seq<Pc>): Source {
    Source(size, [], [], clients, 0, 0)
  }

  lemma {:induction false} StartIsSound(size: nat, clients: seq<Pc>)
    requires forall c | 0 <= c < |clients| :: clients[c] == Outside
    ensures Sound(Start(size, clients))
  {
    AllOutside(clients);
  }

  lemma {:induction false} AllOutside(clients: seq<Pc>)
    requires forall c | 0 <= c < |clients| :: clients[c] == Outside
    ensures Tally(clients, Reserved) == 0 == Tally(clients, Active)
  {
    if clients != [] {
      AllOutside(clients[1..]);
    }
  }

  lemma {:induction false} RunKeepsSound(s: Source, run: seq<Event>, t: Source)
    requires Sound(s) && Run(s, run, t)
    ensures Sound(t)
    decreases |run|
  {
    hide Sound, Next;
    if run != [] {
      NextKeepsSound(s, run[0].client, run[0].action);
      RunKeepsSound(Next(s, run[0].client, run[0].action), run[1..], t);
    }
  }

  /** What users of the pool rely on: a connection is in at most one queue, at
      most once, and in none while a client has it; no two clients have the same
      one; only connections in use are borrowed; and the limit is kept. */
  ghost predicate ExclusiveUse(s: Source) {
    && QueuesValid(s)
    && (forall q, auto, i, r, b, j |
          && 0 <= q < |s.queues| && 0 <= i < |Idle(s.queues[q], auto)|
          && 0 <= r < |s.queues| && 0 <= j < |Idle(s.queues[r], b)| ::
          Idle(s.queues[q], auto)[i] == Idle(s.queues[r], b)[j] ==> q == r && auto == b && i == j)
    && (forall q, auto, i | 0 <= q < |s.queues| && 0 <= i < |Idle(s.queues[q], auto)| ::
          !s.conns[Idle(s.queues[q], auto)[i]].borrowed
          && forall c | 0 <= c < |s.clients| :: ConnOf(s.clients[c]) != Some(Idle(s.queues[q], auto)[i]))
    && (forall c, d | 0 <= c < d < |s.clients| ::
          ConnOf(s.clients[c]).Some? ==> ConnOf(s.clients[c]) != ConnOf(s.clients[d]))
    && (forall c | 0 <= c < |s.clients| && s.clients[c].Holding? ::
          s.clients[c].conn < |s.conns| && s.conns[s.clients[c].conn].borrowed)
    && 0 <= s.activeCount && s.connCount <= s.size
  }

  /** In every run of any clients from an empty pool connections are used
      exclusively and the limit is kept. */
  lemma RunsAreExclusive(size: nat, clients: seq<Pc>, run: seq<Event>, t: Source)
    requires forall c | 0 <= c < |clients| :: clients[c] == Outside
    requires Run(Start(size, clients), run, t)
    ensures ExclusiveUse(t)
  {
    StartIsSound(size, clients);
    RunKeepsSound(Start(size, clients), run, t);
    hide Run;
    SoundIsExclusive(t);
  }

  lemma SoundIsExclusive(s: Source)
    requires Sound(s)
    ensures ExclusiveUse(s)
  {
    hide Idle;
    forall c | 0 <= c < |s.clients|
      ensures ConnOf(s.clients[c]).Some? ==>
                && ConnOf(s.clients[c]).value < |s.conns|
                && s.conns[ConnOf(s.clients[c]).value].place == With(c)
      ensures s.clients[c].Holding? ==> s.conns[s.clients[c].conn].borrowed
    {
      assert ClientSound(s, c, s.clients[c]);
      if s.clients[c].Holding? {
        assert ConnSound(s, s.clients[c].conn, s.conns[s.clients[c].conn]);
      }
    }
    forall q, auto, i | 0 <= q < |s.queues| && 0 <= i < |Idle(s.queues[q], auto)|
      ensures var conn := Idle(s.queues[q], auto)[i];
              s.conns[conn].place == InQueue(q, auto) && !s.conns[conn].borrowed
    {
      assert ConnSound(s, Idle(s.queues[q], auto)[i], s.conns[Idle(s.queues[q], auto)[i]]);
    }
  }

  /** The only steps that lower the connection count are failed creations. */
  lemma CountFallsIff(s: Source, c: Client, a: Action)
    requires Sound(s) && Enabled(s, c, a)
    ensures Next(s, c, a).connCount < s.connCount <==> (a.Created? && !a.ok) || (a.Prepared? && !a.ok)
    ensures Next(s, c, a).size == s.size
  {
    hide Idle, WithIdle, WithQueue, Find;
  }

  predicate Fails(a: Action) {
    (a.Created? && !a.ok) || (a.Prepared? && !a.ok)
  }

  lemma OthersStay(s: Source, c: Client, a: Action, d: Client)
    requires Sound(s) && Enabled(s, c, a) && d < |s.clients|
    ensures |Next(s, c, a).clients| == |s.clients|
    ensures c != d ==> Next(s, c, a).clients[d] == s.clients[d]
    ensures c == d && s.clients[c].Sleeping? && s.connCount >= s.size && a != TimeOut ==>
              Next(s, c, a).clients[d] == Sleeping
  {
    hide Idle, WithIdle, WithQueue, Find;
  }

  // ---- connections found dead stay counted ----

  function Buried(conn: Conn): nat {
    if conn.place == Dead then 1 else 0
  }

  lemma {:induction false} BuriedGrows(a: seq<Conn>, b: seq<Conn>)
    requires |a| <= |b| && forall i | 0 <= i < |a| :: a[i].place == Dead ==> b[i].place == Dead
    ensures Tally(a, Buried) <= Tally(b, Buried)
  {
    if a != [] {
      BuriedGrows(a[1..], b[1..]);
    }
  }

  lemma {:induction false} KeptBesideBuried(conns: seq<Conn>, i: nat)
    ensures Tally(conns, Buried) <= Tally(conns, Kept)
    ensures i < |conns| && conns[i].place != Dead && conns[i].place != Lost ==>
              Tally(conns, Buried) < Tally(conns, Kept)
  {
    if conns != [] {
      KeptBesideBuried(conns[1..], if i == 0 then 0 else i - 1);
    }
  }

  lemma SeekKeepsDead(s: Source, c: Client, want: Want, v: nat, i: nat)
    requires QueuesSound(s) && c < |s.clients| && want.own < |s.queues|
    ensures var t := Seek(s, c, want, v);
            |t.conns| == |s.conns| && (i < |s.conns| && s.conns[i].place == Dead ==> t.conns[i].place == Dead)
  {
    var u := Find(s.queues, want, v);
    if u.Some? {
      TakesIdle(s, want, u.value);
    }
  }

  lemma DeadStaysDead(s: Source, c: Client, a: Action, i: nat)
    requires Sound(s) && Enabled(s, c, a)
    ensures var t := Next(s, c, a);
            |s.conns| <= |t.conns| && (i < |s.conns| && s.conns[i].place == Dead ==> t.conns[i].place == Dead)
  {
    hide Sound, QueuesSound, Seek, Idle, WithIdle;
    ClientKnows(s, c);
    match a
    case AcquireAction(schema, autoCommit) =>
      NewQueueKeepsSound(s, schema);
      var t := s.(queues := WithQueue(s.queues, schema));
      QueuesAreSound(t);
      SeekKeepsDead(t, c, Want(QueueOf(s.queues, schema), autoCommit, schema), 0, i);
    case Checked(alive) =>
      if !alive {
        DropKeepsSound(s, c, Dead);
        var t := Drop(s, c, s.clients[c].conn, Dead);
        QueuesAreSound(t);
        SeekKeepsDead(t, c, s.clients[c].want, s.clients[c].visit, i);
      }
    case _ =>
  }

  lemma QueuesAreSound(s: Source)
    requires Sound(s)
    ensures QueuesSound(s)
  {
  }

  /** Once as many connections have died as the pool may have, it is used up: in
      every run from there on no client has a connection or is given one. */
  lemma {:induction false} UsedUpForGood(s: Source, run: seq<Event>, t: Source, c: Client)
    requires Sound(s) && Run(s, run, t) && Tally(s.conns, Buried) >= s.size && c < |s.clients|
    ensures c < |t.clients| && (t.clients[c].Outside? || t.clients[c].Sleeping?)
    decreases |run|
  {
    if run == [] {
      NobodyHas(s, c);
    } else {
      var n := Next(s, run[0].client, run[0].action);
      NextKeepsSound(s, run[0].client, run[0].action);
      DeadStaysDead(s, run[0].client, run[0].action, 0);
      forall i | 0 <= i < |s.conns| && s.conns[i].place == Dead ensures n.conns[i].place == Dead {
        DeadStaysDead(s, run[0].client, run[0].action, i);
      }
      BuriedGrows(s.conns, n.conns);
      CountFallsIff(s, run[0].client, run[0].action);
      OthersStay(s, run[0].client, run[0].action, c);
      UsedUpForGood(n, run[1..], t, c);
    }
  }

  lemma NobodyHas(s: Source, c: Client)
    requires Sound(s) && Tally(s.conns, Buried) >= s.size && c < |s.clients|
    ensures s.clients[c].Outside? || s.clients[c].Sleeping?
  {
    assert ClientSound(s, c, s.clients[c]);
    KeptBesideBuried(s.conns, if ConnOf(s.clients[c]).Some? then ConnOf(s.clients[c]).value else 0);
    TallyUpdate(s.clients, c, Outside, Reserved);
  }

  // ---- the data source object ----

  class PhysicalDataSource {
    const size: nat
    var queues: seq<Queue>
    var conns: seq<Conn>
    var clients: seq<Pc>
    var connCount: int
    var activeCount: int

    ghost function State(): Source
      reads this
    {
      Source(size, queues, conns, clients, connCount, activeCount)
    }

    constructor (size: nat, clients: seq<Pc>)
      requires forall c | 0 <= c < |clients| :: clients[c] == Outside
      ensures State() == Start(size, clients) && Sound(State())
    {
      this.size, this.clients := size, clients;
      queues, conns, connCount, activeCount := [], [], 0, 0;
      new;
      StartIsSound(size, clients);
    }

    /** The queue of a schema, made if there is none. */
    method GetConnQueue(schema: Schema) returns (i: nat)
      modifies this`queues
      ensures queues == WithQueue(old(queues), schema) && i == QueueOf(old(queues), schema)
    {
      i := 0;
      while i < |queues| && queues[i].name != schema
        invariant i <= |queues| && queues == old(queues)
        invariant QueueOf(queues, schema) == i + QueueOf(queues[i..], schema)
      {
        assert queues[i..][1..] == queues[i + 1..];
        i := i + 1;
      }
      assert i < |queues| ==> queues[i..][0] == queues[i];
      if i == |queues| {
        queues := queues + [Queue(schema, [], [])];
      }
    }

    /** Shifts connections off the lists from a visit on until one is found; with
        none left, counts a new one or goes to sleep. */
    method SeekConn(c: Client, want: Want, visit: nat)
      requires c < |clients| && want.own < |queues| && QueuesValid(State())
      modifies this
      ensures State() == Seek(old(State()), c, want, visit)
    {
      var v := visit;
      while v < 2 + 2 * |queues|
        invariant State() == old(State())
        invariant Find(queues, want, visit) == Find(queues, want, v)
      {
        var q, auto := VisitQueue(want, v), VisitAuto(want, v);
        if v < 2 || q != want.own {
          var list := Idle(queues[q], auto);
          if list != [] {
            var conn := list[0];
            queues := queues[q := WithIdle(queues[q], auto, list[1..])];
            conns := conns[conn := conns[conn].(place := With(c))];
            clients := clients[c := Checking(conn, want, v)];
            return;
          }
        }
        v := v + 1;
      }
      ReserveConn(c);
    }

    /** The last check and the count, with no wait between them. */
    method ReserveConn(c: Client)
      requires c < |clients|
      modifies this`clients, this`connCount, this`activeCount
      ensures State() == Reserve(old(State()), c)
    {
      if connCount >= size {
        clients := clients[c := Sleeping];
      } else {
        connCount, activeCount := connCount + 1, activeCount + 1;
        clients := clients[c := Creating];
      }
    }

    method GetConnection(c: Client, schema: Schema, autoCommit: bool)
      requires Sound(State()) && Enabled(State(), c, AcquireAction(schema, autoCommit))
      modifies this
      ensures State() == Next(old(State()), c, AcquireAction(schema, autoCommit)) && Sound(State())
    {
      NextKeepsSound(State(), c, AcquireAction(schema, autoCommit));
      NewQueueKeepsSound(State(), schema);
      hide Seek, Idle, Find;
      var own := GetConnQueue(schema);
      SeekConn(c, Want(own, autoCommit, schema), 0);
    }

    /** After the liveness check of the connection in hand. */
    method AfterCheck(c: Client, alive: bool)
      requires Sound(State()) && Enabled(State(), c, Checked(alive))
      modifies this
      ensures State() == Next(old(State()), c, Checked(alive)) && Sound(State())
    {
      NextKeepsSound(State(), c, Checked(alive));
      ClientKnows(State(), c);
      hide Seek, Idle, Find;
      var Checking(conn, want, v) := clients[c];
      if alive {
        conns := conns[conn := conns[conn].(borrowed := true, schema := want.schema)];
        clients := clients[c := Holding(conn)];
        activeCount := activeCount + 1;
      } else {
        DropKeepsSound(State(), c, Dead);
        conns := conns[conn := conns[conn].(place := Dead)];
        clients := clients[c := Outside];
        SeekConn(c, want, v);
      }
    }

    /** The end of one sleep: look again, or give up when the time is over. */
    method AfterSleep(c: Client, timeOut: bool)
      requires Sound(State()) && c < |clients| && clients[c].Sleeping?
      modifies this
      ensures State() == Next(old(State()), c, if timeOut then TimeOut else WakeUp) && Sound(State())
    {
      NextKeepsSound(State(), c, if timeOut then TimeOut else WakeUp);
      if timeOut {
        clients := clients[c := Outside];
      } else {
        ReserveConn(c);
      }
    }

    /** After a connection was created, or was not. */
    method AfterCreate(c: Client, ok: bool, prepare: bool)
      requires Sound(State()) && Enabled(State(), c, Created(ok, prepare))
      modifies this
      ensures State() == Next(old(State()), c, Created(ok, prepare)) && Sound(State())
    {
      NextKeepsSound(State(), c, Created(ok, prepare));
      if ok {
        clients := clients[c := if prepare then Preparing(|conns|) else Holding(|conns|)];
        conns := conns + [Conn("", true, true, With(c))];
      } else {
        clients := clients[c := Outside];
        connCount, activeCount := connCount - 1, activeCount - 1;
      }
    }

    /** After the first statement of a new connection. */
    method AfterPrepare(c: Client, ok: bool)
      requires Sound(State()) && Enabled(State(), c, Prepared(ok))
      modifies this
      ensures State() == Next(old(State()), c, Prepared(ok)) && Sound(State())
    {
      NextKeepsSound(State(), c, Prepared(ok));
      ClientKnows(State(), c);
      var conn := clients[c].conn;
      if ok {
        clients := clients[c := Holding(conn)];
      } else {
        conns := conns[conn := conns[conn].(place := Lost)];
        clients := clients[c := Outside];
        connCount, activeCount := connCount - 1, activeCount - 1;
      }
    }

    method ReleaseConn(c: Client, autoCommit: bool)
      requires Sound(State()) && Enabled(State(), c, Release(autoCommit))
      modifies this
      ensures State() == Next(old(State()), c, Release(autoCommit)) && Sound(State())
    {
      NextKeepsSound(State(), c, Release(autoCommit));
      ClientKnows(State(), c);
      hide Idle, WithIdle;
      var conn := clients[c].conn;
      var q := GetConnQueue(conns[conn].schema);
      conns := conns[conn := conns[conn].(borrowed := false, autoCommit := autoCommit,
                                          place := InQueue(q, autoCommit))];
      queues := queues[q := WithIdle(queues[q], autoCommit, Idle(queues[q], autoCommit) + [conn])];
      clients := clients[c := Outside];
      activeCount := activeCount - 1;
    }
  }
}
