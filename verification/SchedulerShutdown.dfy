/** The shutdown that waits. It walks over the registered timers in the order of the
    registry, turns each one off and joins its runs before it goes on; meanwhile the
    scheduler goes on, and names come and go in front of the walk. */
module SchedulerShutdown {
  import opened Schedulers

  // ---- the walk ----

  /** Where the walk is: it joins a run of a handle, with names still to come; or it
      has returned. */
  datatype Sweep = Joining(todo: seq<string>, timer: nat, on: nat) | Returned

  datatype World = World(s: State, w: Sweep)

  predicate NamesIn(todo: seq<string>, registry: map<string, nat>) {
    forall k | 0 <= k < |todo| :: todo[k] in registry
  }

  predicate AllApart(todo: seq<string>) {
    forall k, l | 0 <= k < l < |todo| :: todo[k] != todo[l]
  }

  /** Asks the first recorded run to end and joins it. */
  function Join(s: State, i: nat, todo: seq<string>): World
    requires i < |s.timers| && s.timers[i].cos != [] && s.timers[i].cos[0] < |s.runs|
  {
    var r := s.timers[i].cos[0];
    World(s.(runs := s.runs[r := s.runs[r].(canceled := true)]), Joining(todo, i, r))
  }

  function Disarm(s: State, i: nat): State
    requires i < |s.timers|
  {
    SetTimer(s, i, s.timers[i].(armed := false))
  }

  /** What the rest of the walk needs of the state. */
  ghost predicate Walkable(s: State, todo: seq<string>) {
    Sound(s) && s.closed && NamesIn(todo, s.registry) && AllApart(todo)
  }

  lemma FirstName(s: State, todo: seq<string>)
    requires Walkable(s, todo) && todo != []
    ensures s.registry[todo[0]] < |s.timers| && s.timers[s.registry[todo[0]]].name == todo[0]
    ensures var i := s.registry[todo[0]];
            && Walkable(Disarm(s, i), todo[1..])
            && (forall k | 0 <= k < |s.timers[i].cos| :: s.timers[i].cos[k] < |s.runs|)
  {
    RegistryIsSound(s);
    CancelFits(s, todo[0]);
    DisarmKeepsSound(s, s.registry[todo[0]]);
    hide Sound;
  }

  /** Walks on until it has to join a run; at the end the registry is emptied. */
  ghost function Visit(s: State, todo: seq<string>): World
    requires Walkable(s, todo)
    decreases |todo|
  {
    if todo == [] then World(s.(registry := map[]), Returned)
    else
      FirstName(s, todo);
      var i := s.registry[todo[0]];
      if s.timers[i].cos != [] then Join(Disarm(s, i), i, todo[1..]) else Visit(Disarm(s, i), todo[1..])
  }

  // ---- the steps ----

  datatype Event = Other(a: Action) | Proceed

  function StillThere(todo: seq<string>, registry: map<string, nat>): (r: seq<string>)
    ensures NamesIn(r, registry) && (AllApart(todo) ==> AllApart(r))
    ensures forall name :: name in r <==> name in todo && name in registry
    ensures NamesIn(todo, registry) ==> r == todo
  {
    if todo == [] then []
    else
      var rest := StillThere(todo[1..], registry);
      assert todo == [todo[0]] + todo[1..];
      if todo[0] in registry then [todo[0]] + rest else rest
  }

  /** A name that comes in goes to the end, in front of the walk; one that is given
      a new timer stays where it is. */
  function NewNames(before: map<string, nat>, a: Action, s: State): seq<string> {
    match a
    case ScheduleAction(name, _) => if name !in before then [name] else []
    case FinishAction(r) =>
      if r < |s.runs| && s.runs[r].timer < |s.timers| then
        var tm := s.timers[s.runs[r].timer];
        if tm.periodic && !tm.interval && tm.name !in before then [tm.name] else []
      else []
    case _ => []
  }

  ghost predicate WorldSound(x: World) {
    && Sound(x.s) && x.s.closed
    && (x.w.Joining? ==>
          && NamesIn(x.w.todo, x.s.registry) && AllApart(x.w.todo)
          && x.w.timer < |x.s.timers| && !x.s.timers[x.w.timer].armed
          && x.w.on < |x.s.runs| && x.s.runs[x.w.on].timer == x.w.timer)
  }

  ghost predicate CanHappen(x: World, e: Event) {
    match e
    case Other(a) => Enabled(x.s, a)
    case Proceed => x.w.Joining? && x.w.on < |x.s.runs| && !x.s.runs[x.w.on].active
  }

  /** The joined run is over: the next one of the handle, or on with the walk. */
  ghost function Go(s: State, w: Sweep): World
    requires w.Joining? && WorldSound(World(s, w))
  {
    FirstRecorded(s.timers, s.runs, w.timer);
    if s.timers[w.timer].cos != [] then Join(s, w.timer, w.todo) else Visit(s, w.todo)
  }

  ghost function After(x: World, e: Event): World
    requires WorldSound(x) && CanHappen(x, e)
  {
    match e
    case Other(a) =>
      var t := Next(x.s, a);
      World(t, match x.w
               case Returned => Returned
               case Joining(todo, i, r) => Joining(StillThere(todo, t.registry) + NewNames(x.s.registry, a, x.s), i, r))
    case Proceed => Go(x.s, x.w)
  }

  ghost predicate Course(x: World, events: seq<Event>, y: World)
    decreases |events|
  {
    if events == [] then x == y
    else WorldSound(x) && CanHappen(x, events[0]) && Course(After(x, events[0]), events[1..], y)
  }

  predicate Enumerates(order: seq<string>, registry: map<string, nat>) {
    AllApart(order) && NamesIn(order, registry) && forall name | name in registry :: name in order
  }

  ghost function Close(s: State): State {
    s.(closed := true)
  }

  lemma CloseIsWalkable(s: State, order: seq<string>)
    requires Sound(s) && Enumerates(order, s.registry)
    ensures Walkable(Close(s), order)
  {
  }

  /** The call, up to its first wait. `order` is the order of the registry. */
  ghost function Shutdown(s: State, order: seq<string>): World
    requires Sound(s) && Enumerates(order, s.registry)
  {
    CloseIsWalkable(s, order);
    Visit(Close(s), order)
  }

  // ---- every step keeps the world sound ----

  lemma JoinKeepsSound(s: State, i: nat, todo: seq<string>)
    requires Walkable(s, todo) && i < |s.timers| && !s.timers[i].armed && s.timers[i].cos != []
    ensures s.timers[i].cos[0] < |s.runs| && WorldSound(Join(s, i, todo))
    ensures s.runs[s.timers[i].cos[0]].active
  {
    FirstRecorded(s.timers, s.runs, i);
    AskedRecords(s.timers, s.runs, s.timers[i].cos[0]);
    var t := Join(s, i, todo).s;
    WaitersKeep(s.timers, s.runs, s.waiters, t.timers, t.runs);
    hide WaitersSound, TimersSound, RegistrySound;
  }

  lemma EmptyRegistry(s: State)
    requires Sound(s)
    ensures Sound(s.(registry := map[]))
  {
  }

  lemma {:induction false} VisitKeepsSound(s: State, todo: seq<string>)
    requires Walkable(s, todo)
    ensures WorldSound(Visit(s, todo))
    decreases |todo|
  {
    hide Sound;
    if todo == [] {
      EmptyRegistry(s);
    } else {
      FirstName(s, todo);
      var i := s.registry[todo[0]];
      if s.timers[i].cos != [] {
        JoinKeepsSound(Disarm(s, i), i, todo[1..]);
      } else {
        VisitKeepsSound(Disarm(s, i), todo[1..]);
      }
    }
  }

  lemma OtherKeepsSound(x: World, a: Action)
    requires WorldSound(x) && Enabled(x.s, a)
    ensures WorldSound(After(x, Other(a)))
  {
    NextKeepsSound(x.s, a);
    NextGrows(x.s, a);
    NextStaysClosed(x.s, a);
    if x.w.Joining? {
      NextKeepsOff(x.s, a, x.w.timer);
      NewNamesIn(x.s, a);
      hide Sound, Next, NewNames, NamesIn, AllApart, StillThere;
      var t := Next(x.s, a);
      TodoJoins(StillThere(x.w.todo, t.registry), NewNames(x.s.registry, a, x.s), x.w.todo, x.s.registry, t.registry);
    }
  }

  lemma TodoJoins(a: seq<string>, b: seq<string>, todo: seq<string>, before: map<string, nat>, after: map<string, nat>)
    requires NamesIn(a, after) && NamesIn(b, after) && AllApart(a) && AllApart(b) && NamesIn(todo, before)
    requires (forall name | name in a :: name in todo) && forall name | name in b :: name !in before
    ensures NamesIn(a + b, after) && AllApart(a + b)
  {
    forall k, l | 0 <= k < l < |a + b| ensures (a + b)[k] != (a + b)[l] {
      if k < |a| <= l {
        assert a[k] in a && b[l - |a|] in b;
      }
    }
  }

  lemma NextStaysClosed(s: State, a: Action)
    requires Sound(s) && Enabled(s, a) && s.closed
    ensures Next(s, a).closed && !a.ScheduleAction?
  {
    match a
    case ResumeAction(c) =>
      assert WaiterSound(s.timers, s.runs, s.waiters[c]);
      hide Sound;
    case CancelAction(c, name, await) =>
      if name in s.registry {
        CancelFits(s, name);
      }
      hide Sound;
    case _ => hide Sound;
  }

  /** A handle that is off stays off. */
  lemma NextKeepsOff(s: State, a: Action, i: nat)
    requires Sound(s) && Enabled(s, a) && i < |s.timers| && !s.timers[i].armed
    ensures i < |Next(s, a).timers| && !Next(s, a).timers[i].armed
  {
    hide Await, Cancel, Finish;
    match a
    case FinishAction(r) => FinishKeepsOff(s, r, i);
    case ResumeAction(c) =>
      assert WaiterSound(s.timers, s.runs, s.waiters[c]);
      AwaitGrows(s, c, s.waiters[c].timer, s.waiters[c].name);
      hide Sound;
    case CancelAction(c, name, await) =>
      if name in s.registry {
        CancelShape(s, c, name, await);
      } else {
        CancelNothing(s, c, name, await);
      }
      hide Sound;
    case _ => hide Sound;
  }

  lemma FinishKeepsOff(s: State, r: nat, i: nat)
    requires Sound(s) && r < |s.runs| && s.runs[r].active && i < |s.timers| && !s.timers[i].armed
    ensures s.runs[r].timer < |s.timers| && i < |Finish(s, r).timers| && !Finish(s, r).timers[i].armed
  {
    OffIs(s, r);
    OffStill(s.timers[s.runs[r].timer], r);
    hide Sound, Off;
  }

  lemma NewNamesIn(s: State, a: Action)
    requires Sound(s) && Enabled(s, a) && s.closed
    ensures NamesIn(NewNames(s.registry, a, s), Next(s, a).registry) && AllApart(NewNames(s.registry, a, s))
    ensures forall name | name in NewNames(s.registry, a, s) :: name !in s.registry
  {
    match a
    case FinishAction(r) => hide Sound, Without;
    case _ => hide Sound;
  }

  lemma AfterKeepsSound(x: World, e: Event)
    requires WorldSound(x) && CanHappen(x, e)
    ensures WorldSound(After(x, e))
  {
    match e
    case Other(a) => OtherKeepsSound(x, a);
    case Proceed =>
      var s, w := x.s, x.w;
      FirstRecorded(s.timers, s.runs, w.timer);
      hide Sound;
      if s.timers[w.timer].cos != [] {
        JoinKeepsSound(s, w.timer, w.todo);
      } else {
        VisitKeepsSound(s, w.todo);
      }
  }

  // ---- what is sure to be silent ----

  /** An armed timer whose name nobody takes off before the walk comes to it, and
      which will not be found in a first run that makes another timer. */
  predicate Safe(s: State, i: nat)
    requires i < |s.timers|
  {
    var tm := s.timers[i];
    && (tm.interval || !tm.periodic)
    && (forall c | c in s.waiters :: s.waiters[c].name != tm.name)
    && (forall k | 0 <= k < |s.timers| && s.timers[k].name == tm.name && !s.timers[k].interval ::
          s.timers[k].cos == [])
  }

  predicate Guarded(s: State, i: nat, todo: seq<string>)
    requires i < |s.timers|
  {
    s.timers[i].armed && Registered(s, i) && s.timers[i].name in todo && Safe(s, i)
  }

  predicate Tame(s: State, todo: seq<string>) {
    forall i | 0 <= i < |s.timers| :: EndingTimer(s.timers[i]) || Guarded(s, i, todo)
  }

  predicate Calm(x: World) {
    match x.w
    case Returned => Stopped(x.s)
    case Joining(todo, _, _) => Tame(x.s, todo)
  }

  lemma FireKeepsTame(s: State, i: nat, todo: seq<string>)
    requires Sound(s) && Tame(s, todo) && i < |s.timers| && s.timers[i].armed && !s.timers[i].interval
    ensures Tame(Fire(s, i), todo)
  {
    var t := Fire(s, i);
    assert Guarded(s, i, todo);
    hide Sound;
    forall k | 0 <= k < |t.timers| ensures EndingTimer(t.timers[k]) || Guarded(t, k, todo) {
      assert EndingTimer(s.timers[k]) || Guarded(s, k, todo);
      if k != i && Guarded(s, k, todo) {
        assert s.timers[k].name != s.timers[i].name;
      }
    }
  }

  lemma TickKeepsTame(s: State, i: nat, todo: seq<string>)
    requires Tame(s, todo) && i < |s.timers| && s.timers[i].armed && s.timers[i].interval
    ensures Tame(Tick(s, i), todo)
  {
    var t := Tick(s, i);
    forall k | 0 <= k < |t.timers| ensures EndingTimer(t.timers[k]) || Guarded(t, k, todo) {
      assert EndingTimer(s.timers[k]) || Guarded(s, k, todo);
    }
  }

  /** In a tame state no first run of a periodic task goes on, and one that ends has
      no armed timer's name. */
  lemma FinishIsTame(s: State, r: nat, todo: seq<string>)
    requires Sound(s) && Tame(s, todo) && r < |s.runs| && s.runs[r].active
    ensures s.runs[r].timer < |s.timers|
    ensures var tm := s.timers[s.runs[r].timer];
            && tm.cos != [] && (tm.interval || !tm.periodic)
            && (!tm.interval ==> forall k | 0 <= k < |s.timers| && s.timers[k].armed :: s.timers[k].name != tm.name)
  {
    OffIs(s, r);
    hide Sound;
    var i := s.runs[r].timer;
    assert EndingTimer(s.timers[i]) || Guarded(s, i, todo);
    forall k | 0 <= k < |s.timers| && s.timers[k].armed && !s.timers[i].interval
      ensures s.timers[k].name != s.timers[i].name
    {
      assert Guarded(s, k, todo);
    }
  }

  lemma FinishKeepsTame(s: State, r: nat, todo: seq<string>)
    requires Sound(s) && Tame(s, todo) && r < |s.runs| && s.runs[r].active && NamesIn(todo, s.registry)
    ensures s.runs[r].timer < |s.timers| && Tame(Finish(s, r), StillThere(todo, Finish(s, r).registry))
  {
    FinishIsTame(s, r, todo);
    OffIs(s, r);
    hide Sound, Off, Finish, Safe, PhaseSound, Without;
    var t, i := Finish(s, r), s.runs[r].timer;
    OffStill(s.timers[i], r);
    FinishShape(s, r);
    forall k | 0 <= k < |t.timers|
      ensures EndingTimer(t.timers[k]) || Guarded(t, k, StillThere(todo, t.registry))
    {
      assert EndingTimer(s.timers[k]) || Guarded(s, k, todo);
      if Guarded(s, k, todo) {
        StaysSafe(s, t, k);
        assert Registered(t, k);
      }
    }
  }

  lemma FinishShape(s: State, r: nat)
    requires r < |s.runs| && s.runs[r].timer < |s.timers|
    requires var tm := s.timers[s.runs[r].timer]; tm.interval || !tm.periodic
    ensures var t, i := Finish(s, r), s.runs[r].timer;
            && t.timers == s.timers[i := Off(s.timers[i], r)] && t.waiters == s.waiters
            && t.registry == if s.timers[i].interval then s.registry else s.registry - {s.timers[i].name}
  {
    hide Off;
  }

  lemma OffStill(tm: Timer, r: nat)
    ensures var off := Off(tm, r);
            && off == tm.(fin := off.fin, cos := off.cos) && (!tm.interval ==> off.cos == [])
  {
  }

  /** A safe timer stays safe when runs end and nobody else starts to wait. */
  lemma StaysSafe(s: State, t: State, k: nat)
    requires k < |s.timers| == |t.timers| && Safe(s, k) && t.waiters == s.waiters
    requires forall i | 0 <= i < |s.timers| ::
               && t.timers[i].name == s.timers[i].name && t.timers[i].interval == s.timers[i].interval
               && t.timers[i].periodic == s.timers[i].periodic
               && (!s.timers[i].interval && s.timers[i].cos == [] ==> t.timers[i].cos == [])
    ensures Safe(t, k)
  {
  }

  /** Turning timers off and taking off names of timers that are off. */
  lemma LessIsTame(s: State, t: State, todo: seq<string>)
    requires Tame(s, todo) && OnlyDisarms(s.timers, t.timers)
    requires forall name | name in t.registry :: name in s.registry && t.registry[name] == s.registry[name]
    requires forall i | 0 <= i < |t.timers| && t.timers[i].armed && Registered(s, i) :: Registered(t, i)
    requires forall c | c in t.waiters ::
               (exists d :: d in s.waiters && s.waiters[d].name == t.waiters[c].name)
               || forall i | 0 <= i < |t.timers| && t.timers[i].armed :: t.timers[i].name != t.waiters[c].name
    ensures Tame(t, StillThere(todo, t.registry))
  {
    forall i | 0 <= i < |t.timers|
      ensures EndingTimer(t.timers[i]) || Guarded(t, i, StillThere(todo, t.registry))
    {
      assert t.timers[i] == s.timers[i].(armed := t.timers[i].armed);
      assert EndingTimer(s.timers[i]) || Guarded(s, i, todo);
      if t.timers[i].armed {
        assert Guarded(s, i, todo) && Registered(t, i);
        assert Safe(t, i);
      }
    }
  }

  lemma ArmedIsGuarded(s: State, todo: seq<string>, k: nat)
    requires Tame(s, todo) && k < |s.timers| && s.timers[k].armed
    ensures Guarded(s, k, todo)
  {
    assert EndingTimer(s.timers[k]) || Guarded(s, k, todo);
  }

  /** A cancel's wait takes at most its own name off, and waits under no other. */
  predicate OnlyName(s: State, t: State, name: string) {
    && OnlyDisarms(s.timers, t.timers)
    && (t.registry == s.registry || t.registry == s.registry - {name})
    && forall d | d in t.waiters :: t.waiters[d].name == name || (d in s.waiters && t.waiters[d] == s.waiters[d])
  }

  lemma AwaitShape(s: State, c: Client, i: nat, name: string)
    requires i < |s.timers| && forall k | 0 <= k < |s.timers[i].cos| :: s.timers[i].cos[k] < |s.runs|
    ensures OnlyName(s, Await(s, c, i, name), name)
  {
  }

  lemma CancelShape(s: State, c: Client, name: string, await: bool)
    requires Sound(s) && name in s.registry
    ensures s.registry[name] < |s.timers|
    ensures OnlyName(s, Cancel(s, c, name, await), name) && !Cancel(s, c, name, await).timers[s.registry[name]].armed
  {
    CancelFits(s, name);
    hide Sound, Await, OnlyName;
    var i := s.registry[name];
    if await {
      AwaitShape(Disarm(s, i), c, i, name);
      AwaitGrows(Disarm(s, i), c, i, name);
      DisarmedFirst(s, i, Cancel(s, c, name, await), name);
    } else {
      DisarmedFirst(s, i, Cancel(s, c, name, await), name) by {
        NameOff(Disarm(s, i), name);
      }
    }
  }

  lemma NameOff(s: State, name: string)
    ensures OnlyName(s, s.(registry := s.registry - {name}), name)
  {
  }

  lemma DisarmedFirst(s: State, i: nat, t: State, name: string)
    requires i < |s.timers| && OnlyName(Disarm(s, i), t, name)
    ensures OnlyName(s, t, name)
  {
    forall k | 0 <= k < |s.timers|
      ensures t.timers[k] == s.timers[k].(armed := t.timers[k].armed) && (t.timers[k].armed ==> s.timers[k].armed)
    {
      assert t.timers[k] == Disarm(s, i).timers[k].(armed := t.timers[k].armed);
    }
  }

  lemma OnlyNameKeepsTame(s: State, t: State, name: string, todo: seq<string>)
    requires Tame(s, todo) && OnlyName(s, t, name)
    requires forall k | 0 <= k < |t.timers| && t.timers[k].armed && Registered(s, k) :: s.timers[k].name != name
    ensures Tame(t, StillThere(todo, t.registry))
  {
    hide Tame;
    forall k | 0 <= k < |t.timers| && t.timers[k].armed ensures t.timers[k].name != name {
      assert t.timers[k] == s.timers[k].(armed := t.timers[k].armed);
      ArmedIsGuarded(s, todo, k);
    }
    LessIsTame(s, t, todo);
  }

  lemma CancelKeepsTame(s: State, c: Client, name: string, await: bool, todo: seq<string>)
    requires Sound(s) && Tame(s, todo) && name in s.registry
    ensures s.registry[name] < |s.timers|
    ensures Tame(Cancel(s, c, name, await), StillThere(todo, Cancel(s, c, name, await).registry))
  {
    CancelShape(s, c, name, await);
    hide Sound, Tame, Cancel, OnlyName;
    OnlyNameKeepsTame(s, Cancel(s, c, name, await), name, todo);
  }

  lemma AwaitKeepsTame(s: State, c: Client, todo: seq<string>)
    requires Sound(s) && Tame(s, todo) && Enabled(s, ResumeAction(c))
    ensures Tame(Next(s, ResumeAction(c)), StillThere(todo, Next(s, ResumeAction(c)).registry))
  {
    assert WaiterSound(s.timers, s.runs, s.waiters[c]);
    var w := s.waiters[c];
    FirstRecorded(s.timers, s.runs, w.timer);
    hide Sound, Await, Tame, OnlyName;
    AwaitShape(s, c, w.timer, w.name);
    AwaitGrows(s, c, w.timer, w.name);
    forall k | 0 <= k < |s.timers| && s.timers[k].armed ensures s.timers[k].name != w.name {
      ArmedIsGuarded(s, todo, k);
    }
    OnlyNameKeepsTame(s, Await(s, c, w.timer, w.name), w.name, todo);
  }

  lemma CancelAllKeepsTame(s: State, close: bool, todo: seq<string>)
    requires Tame(s, todo)
    ensures Tame(CancelAll(s, close), StillThere(todo, CancelAll(s, close).registry))
  {
    var t := CancelAll(s, close);
    forall k | 0 <= k < |t.timers| ensures EndingTimer(t.timers[k]) {
      assert EndingTimer(s.timers[k]) || Guarded(s, k, todo);
    }
  }

  lemma NextKeepsTame(s: State, a: Action, todo: seq<string>)
    requires Sound(s) && s.closed && Enabled(s, a) && Tame(s, todo) && NamesIn(todo, s.registry)
    ensures Tame(Next(s, a), StillThere(todo, Next(s, a).registry)) && NewNames(s.registry, a, s) == []
  {
    hide Tame, Fire, Tick, Finish, Cancel, CancelAll, Await, StillThere;
    match a
    case FireAction(i) => FireKeepsTame(s, i, todo); SameRegistry(s, i);
    case TickAction(i) => TickKeepsTame(s, i, todo); SameRegistry(s, i);
    case FinishAction(r) =>
      FinishIsTame(s, r, todo);
      FinishKeepsTame(s, r, todo);
    case CancelAction(c, name, await) =>
      if name in s.registry {
        CancelKeepsTame(s, c, name, await, todo);
      } else {
        CancelNothing(s, c, name, await);
      }
    case ResumeAction(c) => AwaitKeepsTame(s, c, todo);
    case CancelAllAction(close) => CancelAllKeepsTame(s, close, todo);
    case ScheduleAction(_, _) =>
  }

  lemma SameRegistry(s: State, i: nat)
    requires i < |s.timers|
    ensures Fire(s, i).registry == s.registry && Tick(s, i).registry == s.registry
  {
  }

  // ---- where the walk first waits ----

  /** The names the walk has still to come to when it first waits. */
  function Behind(s: State, todo: seq<string>): seq<string> {
    if todo == [] then []
    else if todo[0] in s.registry && s.registry[todo[0]] < |s.timers| && s.timers[s.registry[todo[0]]].cos != [] then
      todo[1..]
    else Behind(s, todo[1..])
  }

  lemma {:induction false} BehindSame(s: State, t: State, todo: seq<string>)
    requires t.registry == s.registry && |t.timers| == |s.timers|
    requires forall i | 0 <= i < |s.timers| :: t.timers[i].cos == s.timers[i].cos
    ensures Behind(t, todo) == Behind(s, todo)
    ensures forall name | name in Behind(s, todo) :: name in todo
  {
    if todo != [] {
      BehindSame(s, t, todo[1..]);
    }
  }

  /** Good enough before the walk: it comes to every armed timer, and those it comes
      to only after a wait are safe. */
  predicate Fit(s: State, todo: seq<string>, i: nat)
    requires i < |s.timers|
  {
    && s.timers[i].armed && Registered(s, i) && s.timers[i].name in todo
    && (s.timers[i].name in Behind(s, todo) ==> Safe(s, i))
  }

  predicate AllFit(s: State, todo: seq<string>) {
    forall i | 0 <= i < |s.timers| :: EndingTimer(s.timers[i]) || Fit(s, todo, i)
  }

  lemma DisarmKeepsFit(s: State, todo: seq<string>)
    requires Walkable(s, todo) && todo != [] && AllFit(s, todo)
    ensures s.registry[todo[0]] < |s.timers|
    ensures var i := s.registry[todo[0]];
            if s.timers[i].cos == [] then AllFit(Disarm(s, i), todo[1..]) else Tame(Disarm(s, i), todo[1..])
  {
    FirstName(s, todo);
    var i := s.registry[todo[0]];
    var t := Disarm(s, i);
    BehindSame(s, t, todo[1..]);
    BehindStep(s, todo);
    assert PhaseSound(s.timers[i], i, s.concur);
    hide Sound, Behind, NamesIn, AllApart, Fit, Guarded, Walkable;
    forall k | 0 <= k < |t.timers|
      ensures EndingTimer(t.timers[k])
              || if s.timers[i].cos == [] then Fit(t, todo[1..], k) else Guarded(t, k, todo[1..])
    {
      assert EndingTimer(s.timers[k]) || Fit(s, todo, k);
      if k == i {
        FitEnds(s, todo, i);
      } else if Fit(s, todo, k) {
        FitBehind(s, todo, k);
      }
    }
  }

  /** The timer the walk is at is off then, and in no first run that makes another. */
  lemma FitEnds(s: State, todo: seq<string>, i: nat)
    requires i < |s.timers| && PhaseSound(s.timers[i], i, s.concur) && (EndingTimer(s.timers[i]) || Fit(s, todo, i))
    ensures EndingTimer(Disarm(s, i).timers[i])
  {
  }

  lemma FitBehind(s: State, todo: seq<string>, k: nat)
    requires todo != [] && todo[0] in s.registry && s.registry[todo[0]] < |s.timers| && k != s.registry[todo[0]]
    requires k < |s.timers| && Fit(s, todo, k)
    requires var i := s.registry[todo[0]];
             && Behind(Disarm(s, i), todo[1..]) == Behind(s, todo[1..])
             && Behind(s, todo) == if s.timers[i].cos != [] then todo[1..] else Behind(s, todo[1..])
    ensures var i := s.registry[todo[0]];
            if s.timers[i].cos == [] then Fit(Disarm(s, i), todo[1..], k) else Guarded(Disarm(s, i), k, todo[1..])
  {
    var t := Disarm(s, s.registry[todo[0]]);
    hide Behind, Safe;
    assert todo == [todo[0]] + todo[1..];
    assert s.timers[k].name != todo[0];
    if Safe(s, k) {
      StaysSafe(s, t, k);
    }
  }

  lemma BehindStep(s: State, todo: seq<string>)
    requires todo != [] && todo[0] in s.registry && s.registry[todo[0]] < |s.timers|
    ensures Behind(s, todo) == if s.timers[s.registry[todo[0]]].cos != [] then todo[1..] else Behind(s, todo[1..])
  {
  }

  lemma JoinKeepsTame(s: State, i: nat, todo: seq<string>)
    requires Tame(s, todo) && i < |s.timers| && s.timers[i].cos != [] && s.timers[i].cos[0] < |s.runs|
    ensures Tame(Join(s, i, todo).s, todo)
  {
    var t := Join(s, i, todo).s;
    forall k | 0 <= k < |t.timers| ensures EndingTimer(t.timers[k]) || Guarded(t, k, todo) {
      assert EndingTimer(s.timers[k]) || Guarded(s, k, todo);
    }
  }

  lemma {:induction false} VisitIsCalm(s: State, todo: seq<string>)
    requires Walkable(s, todo) && AllFit(s, todo)
    ensures Calm(Visit(s, todo))
    decreases |todo|
  {
    hide Sound, AllFit;
    if todo == [] {
      NothingArmed(s);
    } else {
      FirstName(s, todo);
      DisarmKeepsFit(s, todo);
      var i := s.registry[todo[0]];
      if s.timers[i].cos != [] {
        hide Tame;
        JoinKeepsTame(Disarm(s, i), i, todo[1..]);
      } else {
        VisitIsCalm(Disarm(s, i), todo[1..]);
      }
    }
  }

  lemma NothingArmed(s: State)
    requires s.closed && AllFit(s, [])
    ensures Stopped(s.(registry := map[]))
  {
    forall i | 0 <= i < |s.timers| ensures EndingTimer(s.timers[i]) {
      assert EndingTimer(s.timers[i]) || Fit(s, [], i);
    }
  }

  lemma TameIsFit(s: State, todo: seq<string>)
    requires Tame(s, todo)
    ensures AllFit(s, todo)
  {
    forall i | 0 <= i < |s.timers| ensures EndingTimer(s.timers[i]) || Fit(s, todo, i) {
      assert EndingTimer(s.timers[i]) || Guarded(s, i, todo);
    }
  }

  lemma AfterKeepsCalm(x: World, e: Event)
    requires WorldSound(x) && CanHappen(x, e) && Calm(x)
    ensures Calm(After(x, e))
  {
    hide Sound, Tame, AllFit, Stopped, Next;
    match e
    case Other(a) =>
      if x.w.Returned? {
        NextKeepsStopped(x.s, a);
      } else {
        NextKeepsTame(x.s, a, x.w.todo);
        var l := StillThere(x.w.todo, Next(x.s, a).registry);
        assert l + [] == l;
      }
    case Proceed =>
      FirstRecorded(x.s.timers, x.s.runs, x.w.timer) by {
        SoundRecords(x.s);
      }
      if x.s.timers[x.w.timer].cos != [] {
        JoinKeepsTame(x.s, x.w.timer, x.w.todo);
      } else {
        TameIsFit(x.s, x.w.todo);
        VisitIsCalm(x.s, x.w.todo);
      }
  }

  lemma SoundRecords(s: State)
    requires Sound(s)
    ensures RecordsSound(s.timers, s.runs)
  {
  }

  lemma {:induction false} CalmForGood(x: World, events: seq<Event>, y: World)
    requires WorldSound(x) && Course(x, events, y) && Calm(x)
    ensures WorldSound(y) && Calm(y)
    decreases |events|
  {
    hide WorldSound, Calm, After, CanHappen;
    if events != [] {
      AfterKeepsSound(x, events[0]);
      AfterKeepsCalm(x, events[0]);
      CalmForGood(After(x, events[0]), events[1..], y);
    }
  }

  // ---- what is left to start something ----

  lemma {:induction false} CoursesJoin(x: World, first: seq<Event>, m: World, second: seq<Event>, y: World)
    requires Course(x, first, m) && Course(m, second, y)
    ensures Course(x, first + second, y)
    decreases |first|
  {
    hide WorldSound, CanHappen, After;
    if first == [] {
      assert first + second == second;
    } else {
      assert (first + second)[0] == first[0] && (first + second)[1..] == first[1..] + second;
      CoursesJoin(After(x, first[0]), first[1..], m, second, y);
    }
  }

  lemma OneEvent(x: World, e: Event)
    requires WorldSound(x) && CanHappen(x, e)
    ensures Course(x, [e], After(x, e)) && WorldSound(After(x, e))
  {
    hide WorldSound, CanHappen, After;
    AfterKeepsSound(x, e);
    assert [e][1..] == [];
  }

  /** The timer can still start a run. */
  predicate Loud(s: State, i: nat) {
    i < |s.timers| && (s.timers[i].armed || FirstRunActive(s.timers[i]))
  }

  /** The walk will not stop it: it does not come to the timer any more, or finds it
      in its first run. */
  predicate Missed(s: State, todo: seq<string>, i: nat) {
    && i < |s.timers|
    && ((s.timers[i].armed && !(Registered(s, i) && s.timers[i].name in todo)) || FirstRunActive(s.timers[i]))
  }

  /** What the walk has just come to is behind it. */
  ghost predicate Ripe(x: World) {
    && WorldSound(x) && x.w.Joining? && x.s.runs[x.w.on].active
    && x.s.timers[x.w.timer].name !in x.w.todo
    && (FirstRunActive(x.s.timers[x.w.timer]) ==> Registered(x.s, x.w.timer))
  }

  function Active(runs: seq<TaskRun>): nat {
    if runs == [] then 0 else (if runs[0].active then 1 else 0) + Active(runs[1..])
  }

  lemma {:induction false} ActiveUpdate(runs: seq<TaskRun>, r: nat, v: TaskRun)
    requires r < |runs|
    ensures Active(runs[r := v]) + (if runs[r].active then 1 else 0) == Active(runs) + if v.active then 1 else 0
  {
    if r == 0 {
      assert runs[r := v][1..] == runs[1..];
    } else {
      assert runs[r := v][1..] == runs[1..][r - 1 := v];
      ActiveUpdate(runs[1..], r - 1, v);
    }
  }

  lemma JoinIsRipe(s: State, i: nat, todo: seq<string>)
    requires Walkable(s, todo) && i < |s.timers| && !s.timers[i].armed && s.timers[i].cos != []
    requires s.timers[i].name !in todo && (FirstRunActive(s.timers[i]) ==> Registered(s, i))
    ensures s.timers[i].cos[0] < |s.runs| && Ripe(Join(s, i, todo))
    ensures var t := Join(s, i, todo).s;
            && t.timers == s.timers && t.registry == s.registry && t.waiters == s.waiters
            && Active(t.runs) == Active(s.runs)
  {
    JoinKeepsSound(s, i, todo);
    var r := s.timers[i].cos[0];
    ActiveUpdate(s.runs, r, s.runs[r].(canceled := true));
    hide Sound;
  }

  /** The walk leaves a timer it misses as it is. */
  lemma {:induction false} VisitMisses(s: State, todo: seq<string>, i: nat)
    requires Walkable(s, todo) && Missed(s, todo, i)
    ensures var y := Visit(s, todo);
            && Active(y.s.runs) == Active(s.runs)
            && if y.w.Returned? then Loud(y.s, i) else Ripe(y) && Missed(y.s, y.w.todo, i)
    decreases |todo|
  {
    hide Sound;
    if todo != [] {
      FirstName(s, todo);
      var j := s.registry[todo[0]];
      var t := Disarm(s, j);
      assert todo == [todo[0]] + todo[1..];
      assert Missed(t, todo[1..], i);
      if s.timers[j].cos != [] {
        JoinIsRipe(t, j, todo[1..]);
      } else {
        VisitMisses(t, todo[1..], i);
      }
    }
  }

  /** The end of a run of a handle that the walk does not come to any more. */
  lemma EndIsMissed(s: State, r: nat, todo: seq<string>, i: nat) returns (k: nat)
    requires r < |s.runs| && s.runs[r].timer < |s.timers| && s.timers[s.runs[r].timer].cos != []
    requires var tm := s.timers[s.runs[r].timer];
             tm.name !in todo && (FirstRunActive(tm) ==> Registered(s, s.runs[r].timer))
    requires NamesIn(todo, s.registry) && Missed(s, todo, i)
    ensures NewNames(s.registry, FinishAction(r), s) == [] && NamesIn(todo, Finish(s, r).registry)
    ensures Missed(Finish(s, r), todo, k)
    ensures var m := s.runs[r].timer;
            && |s.timers| <= |Finish(s, r).timers|
            && Finish(s, r).timers[m].name == s.timers[m].name && !FirstRunActive(Finish(s, r).timers[m])
  {
    hide Off;
    var m := s.runs[r].timer;
    OffStill(s.timers[m], r);
    if FirstRunActive(s.timers[m]) {
      k := |s.timers|;
    } else {
      k := i;
      FinishShape(s, r);
      hide Finish;
    }
  }

  /** The joined run ends; a periodic task whose first run that was has its interval
      timer now, which the walk does not come to. */
  lemma JoinedEnds(x: World, i: nat) returns (k: nat)
    requires Ripe(x) && Missed(x.s, x.w.todo, i)
    ensures CanHappen(x, Other(FinishAction(x.w.on)))
    ensures var y := After(x, Other(FinishAction(x.w.on)));
            && WorldSound(y) && y.w == x.w && y.w.on < |y.s.runs| && !y.s.runs[y.w.on].active
            && Missed(y.s, y.w.todo, k) && Active(y.s.runs) < Active(x.s.runs)
            && y.s.timers[y.w.timer].name == x.s.timers[x.w.timer].name
            && !FirstRunActive(y.s.timers[y.w.timer])
  {
    var s, r := x.s, x.w.on;
    OffIs(s, r);
    k := EndIsMissed(s, r, x.w.todo, i);
    ActiveUpdate(s.runs, r, s.runs[r].(active := false));
    AfterKeepsSound(x, Other(FinishAction(r)));
    hide Sound, Missed, Off, Without, NewNames, AllApart;
    assert x.w.todo + [] == x.w.todo;
  }

  /** The walk goes on behind a run that ended. */
  lemma GoMisses(x: World, i: nat)
    requires WorldSound(x) && x.w.Joining? && !x.s.runs[x.w.on].active && Missed(x.s, x.w.todo, i)
    requires x.s.timers[x.w.timer].name !in x.w.todo && !FirstRunActive(x.s.timers[x.w.timer])
    ensures var y := After(x, Proceed);
            && Active(y.s.runs) == Active(x.s.runs)
            && if y.w.Returned? then Loud(y.s, i) else Ripe(y) && Missed(y.s, y.w.todo, i)
  {
    var s, w := x.s, x.w;
    FirstRecorded(s.timers, s.runs, w.timer);
    hide Sound, Visit, Missed;
    if s.timers[w.timer].cos != [] {
      JoinIsRipe(s, w.timer, w.todo);
      SameMissed(s, Join(s, w.timer, w.todo).s, w.todo, i);
    } else {
      VisitMisses(s, w.todo, i);
    }
  }

  lemma SameMissed(s: State, t: State, todo: seq<string>, i: nat)
    requires Missed(s, todo, i) && t.timers == s.timers && t.registry == s.registry
    ensures Missed(t, todo, i)
  {
  }

  /** When every joined run just ends, the shutdown returns, and what it missed can
      still start something. */
  lemma {:induction false} ReturnsLoud(x: World, i: nat) returns (events: seq<Event>, y: World, k: nat)
    requires Ripe(x) && Missed(x.s, x.w.todo, i)
    ensures Course(x, events, y) && WorldSound(y) && y.w.Returned? && Loud(y.s, k)
    decreases Active(x.s.runs)
  {
    hide Sound, Missed, Ripe, CanHappen, After, Loud, Active, Course, WorldSound;
    RipeIs(x);
    var j := JoinedEnds(x, i);
    var end := Other(FinishAction(x.w.on));
    OneEvent(x, end);
    var m := After(x, end);
    JoinedOver(m);
    GoMisses(m, j);
    OneEvent(m, Proceed);
    var n := After(m, Proceed);
    CoursesJoin(x, [end], m, [Proceed], n);
    if n.w.Returned? {
      events, y, k := [end] + [Proceed], n, j;
    } else {
      var more;
      more, y, k := ReturnsLoud(n, j);
      events := [end] + [Proceed] + more;
      CoursesJoin(x, [end] + [Proceed], n, more, y);
    }
  }

  lemma RipeIs(x: World)
    requires Ripe(x)
    ensures WorldSound(x) && x.w.Joining? && x.w.on < |x.s.runs| && x.s.runs[x.w.on].active
    ensures x.w.timer < |x.s.timers| && x.s.timers[x.w.timer].name !in x.w.todo
  {
  }

  lemma JoinedOver(x: World)
    requires WorldSound(x) && x.w.Joining? && x.w.on < |x.s.runs| && !x.s.runs[x.w.on].active
    ensures CanHappen(x, Proceed)
  {
  }

  // ---- what can come between ----

  /** A name the walk first has to wait for. */
  lemma {:induction false} VisitLeaves(s: State, todo: seq<string>, name: string)
    requires Walkable(s, todo) && name in Behind(s, todo)
    requires forall i | 0 <= i < |s.timers| :: !FirstRunActive(s.timers[i])
    ensures var y := Visit(s, todo);
            && Ripe(y) && name in y.w.todo && OnlyDisarms(s.timers, y.s.timers)
            && y.s.registry == s.registry && y.s.waiters == s.waiters
            && s.registry[name] < |s.timers| && y.s.timers[s.registry[name]] == s.timers[s.registry[name]]
    decreases |todo|
  {
    hide Sound;
    FirstName(s, todo);
    var j := s.registry[todo[0]];
    var t := Disarm(s, j);
    BehindStep(s, todo);
    BehindSame(s, t, todo[1..]);
    BehindSame(s, s, todo[1..]);
    FirstIsNone(todo, name);
    hide Behind, NamesIn, AllApart, Ripe;
    if s.timers[j].cos != [] {
      JoinIsRipe(t, j, todo[1..]);
      NameOf(s, name);
    } else {
      VisitLeaves(t, todo[1..], name);
      NameOf(s, name);
      OnlyDisarmsTwice(s.timers, t.timers, Visit(t, todo[1..]).s.timers);
    }
  }

  lemma FirstIsNone(todo: seq<string>, name: string)
    requires todo != [] && AllApart(todo)
    ensures todo[0] !in todo[1..] && (name in todo[1..] ==> name != todo[0] && name in todo)
  {
    assert todo == [todo[0]] + todo[1..];
  }

  lemma OnlyDisarmsTwice(a: seq<Timer>, b: seq<Timer>, c: seq<Timer>)
    requires OnlyDisarms(a, b) && OnlyDisarms(b, c)
    ensures OnlyDisarms(a, c)
  {
    forall i | 0 <= i < |a| ensures c[i] == a[i].(armed := c[i].armed) && (c[i].armed ==> a[i].armed) {
      assert b[i] == a[i].(armed := b[i].armed) && c[i] == b[i].(armed := c[i].armed);
    }
  }

  lemma NameOf(s: State, name: string)
    requires Sound(s) && name in s.registry
    ensures s.registry[name] < |s.timers| && s.timers[s.registry[name]].name == name
  {
  }

  /** A timer behind the wait, still armed under its name. */
  ghost predicate Coming(x: World, i: nat) {
    && Ripe(x) && i < |x.s.timers| && x.s.timers[i].armed && Registered(x.s, i)
    && x.s.timers[i].name in x.w.todo
    && (forall k | 0 <= k < |x.s.timers| :: !FirstRunActive(x.s.timers[k]))
  }

  /** It goes off during the wait, and is in its first run when the walk comes. */
  lemma GoesOff(x: World, i: nat)
    requires Coming(x, i) && x.s.timers[i].periodic && !x.s.timers[i].interval
    ensures CanHappen(x, Other(FireAction(i)))
    ensures var y := After(x, Other(FireAction(i))); Ripe(y) && Missed(y.s, y.w.todo, i)
  {
    AfterKeepsSound(x, Other(FireAction(i)));
    hide Sound;
    assert x.w.todo + [] == x.w.todo;
  }

  /** A task that had its name before ends, and takes the name off. */
  lemma NameIsTaken(x: World, i: nat, k: nat)
    requires Coming(x, i) && k < |x.s.timers| && x.s.timers[k].name == x.s.timers[i].name
    requires !x.s.timers[k].interval && x.s.timers[k].cos != []
    ensures var a := FinishAction(x.s.timers[k].cos[0]);
            && CanHappen(x, Other(a))
            && var y := After(x, Other(a)); Ripe(y) && Missed(y.s, y.w.todo, i)
  {
    var s := x.s;
    var r := s.timers[k].cos[0];
    assert s.runs[s.timers[k].cos[0]].active && s.runs[s.timers[k].cos[0]].timer == k;
    AfterKeepsSound(x, Other(FinishAction(r)));
    assert PhaseSound(s.timers[i], i, s.concur);
    assert !FirstRunActive(s.timers[k]) && !FirstRunActive(s.timers[x.w.timer]);
    NameEnds(s, r, i);
    hide Sound, Finish, NamesIn, AllApart, PhaseSound, FirstRunActive;
    var y := After(x, Other(FinishAction(r)));
    StillRipe(x, y);
  }

  /** The end of a task that is no periodic one takes its name off. */
  lemma NameEnds(s: State, r: nat, i: nat)
    requires r < |s.runs| && s.runs[r].timer < |s.timers| && s.timers[s.runs[r].timer].cos != []
    requires !s.timers[s.runs[r].timer].interval && !FirstRunActive(s.timers[s.runs[r].timer])
    requires i < |s.timers| && s.timers[i].armed && i != s.runs[r].timer
    requires s.timers[i].name == s.timers[s.runs[r].timer].name
    ensures var t := Finish(s, r);
            && t.registry == s.registry - {s.timers[i].name}
            && NewNames(s.registry, FinishAction(r), s) == [] && |t.timers| == |s.timers|
            && (forall k | 0 <= k < |s.timers| && k != s.runs[r].timer :: t.timers[k] == s.timers[k])
            && forall q | 0 <= q < |s.runs| && q != r :: t.runs[q] == s.runs[q]
    ensures forall todo: seq<string> :: Missed(Finish(s, r), todo, i)
  {
    OffStill(s.timers[s.runs[r].timer], r);
    FinishShape(s, r);
    hide Off;
  }

  lemma StillRipe(x: World, y: World)
    requires Ripe(x) && WorldSound(y) && y.w.Joining? && y.w.timer == x.w.timer && y.w.on == x.w.on
    requires y.s.runs[y.w.on].active && forall name | name in y.w.todo :: name in x.w.todo
    requires y.s.timers[y.w.timer].name == x.s.timers[x.w.timer].name && !FirstRunActive(y.s.timers[y.w.timer])
    ensures Ripe(y)
  {
  }

  lemma TakenIsMissed(x: World, y: World, i: nat)
    requires Coming(x, i) && WorldSound(y) && y.w.Joining? && y.s.timers == x.s.timers
    requires y.s.registry == x.s.registry - {x.s.timers[i].name}
    requires y.w.timer == x.w.timer && y.w.on == x.w.on && y.s.runs[y.w.on].active
    requires forall name | name in y.w.todo :: name in x.w.todo
    ensures Ripe(y) && Missed(y.s, y.w.todo, i)
  {
  }

  /** A cancel waits under that name, for another handle. */
  ghost predicate Contended(x: World, i: nat, c: Client) {
    && Coming(x, i) && c in x.s.waiters && x.s.waiters[c].name == x.s.timers[i].name
    && x.s.waiters[c].on < |x.s.runs|
    && (forall k | 0 <= k < |x.s.timers| && x.s.timers[k].name == x.s.timers[i].name && !x.s.timers[k].interval ::
          x.s.timers[k].cos == [])
  }

  /** Handles whose runs end, or are asked to, leave it so. */
  predicate Alike(s: State, t: State) {
    && |t.timers| == |s.timers| && t.registry == s.registry && |s.runs| == |t.runs|
    && forall k | 0 <= k < |s.timers| ::
         && t.timers[k] == s.timers[k].(fin := t.timers[k].fin, cos := t.timers[k].cos)
         && (!s.timers[k].interval && s.timers[k].cos == [] ==> t.timers[k].cos == [])
  }

  lemma StillContended(x: World, y: World, i: nat, c: Client)
    requires Contended(x, i, c) && WorldSound(y) && y.w == x.w && y.s.runs[y.w.on].active && Alike(x.s, y.s)
    requires forall k | 0 <= k < |x.s.timers| && !x.s.timers[k].interval && x.s.timers[k].periodic ::
               y.s.timers[k].cos == x.s.timers[k].cos
    requires c in y.s.waiters && y.s.waiters[c].name == x.s.waiters[c].name && y.s.waiters[c].on < |y.s.runs|
    ensures Contended(y, i, c)
  {
    hide Sound, NamesIn, AllApart, FirstRunActive;
    forall k | 0 <= k < |y.s.timers| ensures !FirstRunActive(y.s.timers[k]) {
      assert !FirstRunActive(x.s.timers[k]);
      FirstRunSame(x.s.timers[k], y.s.timers[k]);
    }
  }

  lemma FirstRunSame(tm: Timer, tm': Timer)
    requires tm'.periodic == tm.periodic && tm'.interval == tm.interval
    requires !tm.interval && tm.periodic ==> tm'.cos == tm.cos
    ensures FirstRunActive(tm') == FirstRunActive(tm)
  {
  }

  /** It waits for a run of an interval timer the walk does not look at now. */
  lemma ItsRun(x: World, i: nat, c: Client)
    requires Contended(x, i, c)
    ensures var w := x.s.waiters[c];
            && WaiterSound(x.s.timers, x.s.runs, w) && w.timer != x.w.timer
            && (x.s.runs[w.on].active ==> x.s.timers[w.timer].interval && w.on != x.w.on)
            && (x.s.timers[w.timer].cos != [] ==> x.s.timers[w.timer].interval)
            && FirstRecordedIn(x.s, w.timer)
  {
    var w := x.s.waiters[c];
    assert WaiterSound(x.s.timers, x.s.runs, w);
    FirstRecorded(x.s.timers, x.s.runs, w.timer);
    if x.s.runs[w.on].active {
      OffIs(x.s, w.on);
    }
    assert x.s.timers[w.timer].cos != [] ==> x.s.runs[x.s.timers[w.timer].cos[0]].active;
    hide Sound;
  }

  predicate FirstRecordedIn(s: State, k: nat) {
    && k < |s.timers| && (forall l | 0 <= l < |s.timers[k].cos| :: s.timers[k].cos[l] < |s.runs|)
    && (s.timers[k].cos != [] ==> s.runs[s.timers[k].cos[0]].active)
  }

  /** The run it waits for ends. */
  lemma WaitedEnds(x: World, i: nat, c: Client)
    requires Contended(x, i, c) && x.s.runs[x.s.waiters[c].on].active
    ensures var e := Other(FinishAction(x.s.waiters[c].on));
            && CanHappen(x, e)
            && var y := After(x, e); Contended(y, i, c) && Active(y.s.runs) < Active(x.s.runs)
  {
    WaitedShape(x, i, c);
    hide Contended, WorldSound, After, CanHappen, Alike, Active;
    StillContended(x, After(x, Other(FinishAction(x.s.waiters[c].on))), i, c);
  }

  lemma WaitedShape(x: World, i: nat, c: Client)
    requires Contended(x, i, c) && x.s.runs[x.s.waiters[c].on].active
    ensures var e := Other(FinishAction(x.s.waiters[c].on));
            && CanHappen(x, e)
            && var y := After(x, e);
               && WorldSound(y) && y.w == x.w && Alike(x.s, y.s) && y.s.waiters == x.s.waiters
               && y.w.on < |y.s.runs| && y.s.runs[y.w.on].active && Active(y.s.runs) < Active(x.s.runs)
               && forall k | 0 <= k < |x.s.timers| && !x.s.timers[k].interval :: y.s.timers[k] == x.s.timers[k]
  {
    var r := x.s.waiters[c].on;
    ItsRun(x, i, c);
    ContendedIs(x, i, c);
    hide Contended, Coming, Alike, Active;
    AfterKeepsSound(x, Other(FinishAction(r)));
    hide Sound, WorldSound, After, Next, CanHappen, Enabled;
    AfterFinish(x, r);
    TickEnds(x.s, r);
  }

  /** A run of an interval timer ends. */
  lemma TickEnds(s: State, r: nat)
    requires r < |s.runs| && s.runs[r].active && s.runs[r].timer < |s.timers| && s.timers[s.runs[r].timer].interval
    ensures var t := Finish(s, r);
            && Alike(s, t) && t.waiters == s.waiters && NewNames(s.registry, FinishAction(r), s) == []
            && Active(t.runs) < Active(s.runs)
            && (forall q | 0 <= q < |s.runs| && q != r :: t.runs[q] == s.runs[q])
            && forall k | 0 <= k < |s.timers| && !s.timers[k].interval :: t.timers[k] == s.timers[k]
  {
    ActiveUpdate(s.runs, r, s.runs[r].(active := false));
    hide Without;
  }

  lemma AfterFinish(x: World, r: nat)
    requires WorldSound(x) && x.w.Joining? && r < |x.s.runs| && x.s.runs[r].active && x.s.runs[r].timer < |x.s.timers|
    ensures CanHappen(x, Other(FinishAction(r)))
    ensures var y := After(x, Other(FinishAction(r)));
            && y.s == Finish(x.s, r)
            && (y.s.registry == x.s.registry && NewNames(x.s.registry, FinishAction(r), x.s) == [] ==> y.w == x.w)
  {
    hide Sound, NewNames, Finish;
    if Finish(x.s, r).registry == x.s.registry && NewNames(x.s.registry, FinishAction(r), x.s) == [] {
      SameTodo(x, FinishAction(r));
    }
  }

  lemma SameTodo(x: World, a: Action)
    requires WorldSound(x) && x.w.Joining? && Enabled(x.s, a) && Next(x.s, a).registry == x.s.registry
    requires NewNames(x.s.registry, a, x.s) == []
    ensures After(x, Other(a)).w == x.w
  {
    hide Sound, NewNames, Next;
    assert x.w.todo + [] == x.w.todo;
  }

  /** The cancel goes on: it waits for another run, or takes the name off. */
  lemma CancelGoesOn(x: World, i: nat, c: Client)
    requires Contended(x, i, c) && !x.s.runs[x.s.waiters[c].on].active
    ensures CanHappen(x, Other(ResumeAction(c)))
    ensures var y := After(x, Other(ResumeAction(c)));
            && Active(y.s.runs) == Active(x.s.runs)
            && (if x.s.timers[x.s.waiters[c].timer].cos == [] then Ripe(y) && Missed(y.s, y.w.todo, i)
                else Contended(y, i, c) && y.s.runs[y.s.waiters[c].on].active)
  {
    var s, w := x.s, x.s.waiters[c];
    var e := Other(ResumeAction(c));
    ItsRun(x, i, c);
    AfterKeepsSound(x, e);
    hide Sound, NamesIn, AllApart, Active, FirstRunActive;
    AwaitIs(s, c, w.timer, w.name);
    hide Await;
    if s.timers[w.timer].cos != [] {
      SameTodo(x, e.a);
      StillContended(x, After(x, e), i, c);
    } else {
      TakenIsMissed(x, After(x, e), i);
    }
  }

  lemma AwaitIs(s: State, c: Client, k: nat, name: string)
    requires FirstRecordedIn(s, k)
    ensures var t := Await(s, c, k, name);
            && t.timers == s.timers && Active(t.runs) == Active(s.runs) && |t.runs| == |s.runs|
            && (forall q | 0 <= q < |s.runs| :: t.runs[q].active == s.runs[q].active)
            && if s.timers[k].cos == [] then t.registry == s.registry - {name}
               else Alike(s, t) && c in t.waiters && t.waiters[c] == Waiter(k, name, s.timers[k].cos[0])
  {
    if s.timers[k].cos != [] {
      var r := s.timers[k].cos[0];
      ActiveUpdate(s.runs, r, s.runs[r].(canceled := true));
    }
  }

  /** Its runs end, it goes on, and takes the name off. */
  lemma {:induction false} NameIsCanceled(x: World, i: nat, c: Client) returns (events: seq<Event>, y: World)
    requires Contended(x, i, c)
    ensures Course(x, events, y) && Ripe(y) && Missed(y.s, y.w.todo, i)
    decreases Active(x.s.runs), if x.s.runs[x.s.waiters[c].on].active then 0 else 1
  {
    hide Ripe, Missed, After, CanHappen, Active, Course;
    ContendedIs(x, i, c);
    var e := Other(if x.s.runs[x.s.waiters[c].on].active then FinishAction(x.s.waiters[c].on) else ResumeAction(c));
    if x.s.runs[x.s.waiters[c].on].active {
      WaitedEnds(x, i, c);
    } else {
      CancelGoesOn(x, i, c);
    }
    OneEvent(x, e);
    var m := After(x, e);
    if e == Other(ResumeAction(c)) && x.s.timers[x.s.waiters[c].timer].cos == [] {
      events, y := [e], m;
    } else {
      var more;
      more, y := NameIsCanceled(m, i, c);
      events := [e] + more;
      CoursesJoin(x, [e], m, more, y);
    }
  }

  lemma ContendedIs(x: World, i: nat, c: Client)
    requires Contended(x, i, c)
    ensures WorldSound(x) && c in x.s.waiters && x.s.waiters[c].on < |x.s.runs|
    ensures x.s.waiters[c].timer < |x.s.timers|
    ensures x.w.Joining? && x.w.on < |x.s.runs| && x.s.runs[x.w.on].active
  {
    assert WaiterSound(x.s.timers, x.s.runs, x.s.waiters[c]);
  }

  // ---- when a shutdown that waits is final ----

  /** Whenever it has returned, nothing ever starts again. */
  ghost predicate Final(s: State, order: seq<string>)
    requires Sound(s) && Enumerates(order, s.registry)
  {
    forall events, y | Course(Shutdown(s, order), events, y) && y.w.Returned? :: Silent(y.s)
  }

  /** What a shutdown that does not wait needs to be final. */
  predicate Reached(s: State) {
    forall i | 0 <= i < |s.timers| :: (s.timers[i].armed ==> Registered(s, i)) && !FirstRunActive(s.timers[i])
  }

  /** The armed timers that the walk comes to only after a wait are safe. */
  predicate BehindSafe(s: State, order: seq<string>) {
    forall name | name in Behind(s, order) && name in s.registry ::
      var i := s.registry[name];
      i < |s.timers| && s.timers[i].armed ==> Safe(s, i)
  }

  lemma ReachedIsFit(s: State, order: seq<string>)
    requires Sound(s) && Enumerates(order, s.registry) && Reached(s) && BehindSafe(s, order)
    ensures AllFit(Close(s), order)
  {
    var t := Close(s);
    BehindSame(s, t, order);
    hide Sound, Behind;
    forall i | 0 <= i < |t.timers| ensures EndingTimer(t.timers[i]) || Fit(t, order, i) {
      if s.timers[i].armed {
        assert Registered(s, i);
        if Safe(s, i) {
          assert Safe(t, i);
        }
      } else {
        assert !FirstRunActive(s.timers[i]);
      }
    }
  }

  lemma LoudIsNotSilent(s: State, i: nat)
    requires Sound(s) && Loud(s, i)
    ensures !Silent(s)
  {
    hide Sound;
    if s.timers[i].armed {
      ArmedStarts(s, i);
    } else {
      FirstRunGoesOn(s, i);
    }
  }

  /** A timer the walk misses makes the shutdown fail. */
  lemma MissedFails(s: State, order: seq<string>, first: seq<Event>, x: World, i: nat)
    requires Sound(s) && Enumerates(order, s.registry)
    requires Course(Shutdown(s, order), first, x) && Ripe(x) && Missed(x.s, x.w.todo, i)
    ensures !Final(s, order)
  {
    hide Sound, Ripe, Missed, Course, Loud, Visit, Silent;
    var events, y, k := ReturnsLoud(x, i);
    CoursesJoin(Shutdown(s, order), first, x, events, y);
    assert Sound(y.s) by {
      WorldIsSound(y);
    }
    LoudIsNotSilent(y.s, k);
  }

  lemma WorldIsSound(x: World)
    requires WorldSound(x)
    ensures Sound(x.s)
  {
  }

  lemma NotReachedFails(s: State, order: seq<string>, i: nat)
    requires Sound(s) && Enumerates(order, s.registry) && i < |s.timers|
    requires (s.timers[i].armed && !Registered(s, i)) || FirstRunActive(s.timers[i])
    ensures !Final(s, order)
  {
    CloseIsWalkable(s, order);
    var x := Shutdown(s, order);
    VisitMisses(Close(s), order, i);
    VisitKeepsSound(Close(s), order);
    assert Course(x, [], x);
    hide Sound, Ripe, Missed, Course, Visit, Silent;
    if x.w.Returned? {
      WorldIsSound(x);
      LoudIsNotSilent(x.s, i);
    } else {
      MissedFails(s, order, [], x, i);
    }
  }

  lemma FirstWait(s: State, order: seq<string>, name: string)
    requires Sound(s) && Enumerates(order, s.registry) && Reached(s) && name in Behind(s, order) && name in s.registry
    requires s.registry[name] < |s.timers| && s.timers[s.registry[name]].armed && !Safe(s, s.registry[name])
    ensures var x := Shutdown(s, order);
            Coming(x, s.registry[name]) && !Safe(x.s, s.registry[name]) && Course(x, [], x)
  {
    CloseIsWalkable(s, order);
    var t, i := Close(s), s.registry[name];
    BehindSame(s, t, order);
    NameOf(s, name);
    VisitLeaves(t, order, name);
    var x := Shutdown(s, order);
    hide Sound, Visit, Behind, Enumerates, Ripe, Safe, FirstRunActive, Walkable;
    StillComing(s, x, i);
    if Safe(x.s, i) {
      DisarmedSafe(x.s, s, i);
    }
  }

  lemma StillComing(s: State, x: World, i: nat)
    requires Reached(s) && i < |s.timers| && s.timers[i].armed && Registered(s, i)
    requires Ripe(x) && s.timers[i].name in x.w.todo && OnlyDisarms(s.timers, x.s.timers)
    requires x.s.registry == s.registry && x.s.timers[i] == s.timers[i]
    ensures Coming(x, i)
  {
    hide Ripe, FirstRunActive;
    forall k | 0 <= k < |x.s.timers| ensures !FirstRunActive(x.s.timers[k]) {
      assert x.s.timers[k] == s.timers[k].(armed := x.s.timers[k].armed);
      FirstRunSame(s.timers[k], x.s.timers[k]);
      assert !FirstRunActive(s.timers[k]);
    }
  }

  lemma DisarmedSafe(s: State, t: State, i: nat)
    requires i < |s.timers| && Safe(s, i) && OnlyDisarms(t.timers, s.timers) && s.waiters == t.waiters
    ensures Safe(t, i)
  {
    assert s.timers[i] == t.timers[i].(armed := s.timers[i].armed);
    forall k | 0 <= k < |t.timers| && t.timers[k].name == t.timers[i].name && !t.timers[k].interval
      ensures t.timers[k].cos == []
    {
      assert s.timers[k] == t.timers[k].(armed := s.timers[k].armed);
    }
  }

  lemma UnsafeFails(s: State, order: seq<string>, x: World, i: nat)
    requires Sound(s) && Enumerates(order, s.registry) && x == Shutdown(s, order) && Course(x, [], x)
    requires Coming(x, i) && !Safe(x.s, i)
    ensures !Final(s, order)
  {
    var tm := x.s.timers[i];
    ComingIsSound(x, i);
    hide Sound, Ripe, Visit, Missed, Course, Coming, After, CanHappen, Enumerates, WorldSound;
    if tm.periodic && !tm.interval {
      GoesOff(x, i);
      Happens(s, order, x, Other(FireAction(i)), i);
    } else if TakenSoon(x.s, i) {
      var k :| 0 <= k < |x.s.timers| && x.s.timers[k].name == tm.name && !x.s.timers[k].interval
               && x.s.timers[k].cos != [];
      NameIsTaken(x, i, k);
      Happens(s, order, x, Other(FinishAction(x.s.timers[k].cos[0])), i);
    } else {
      var c :| c in x.s.waiters && x.s.waiters[c].name == tm.name;
      IsContended(x, i, c);
      var events, y := NameIsCanceled(x, i, c);
      RipeIs(y);
      MissedFails(s, order, events, y, i);
    }
  }

  predicate TakenSoon(s: State, i: nat)
    requires i < |s.timers|
  {
    exists k :: 0 <= k < |s.timers| && s.timers[k].name == s.timers[i].name && !s.timers[k].interval
                && s.timers[k].cos != []
  }

  lemma ComingIsSound(x: World, i: nat)
    requires Coming(x, i)
    ensures WorldSound(x) && i < |x.s.timers|
  {
  }

  lemma IsContended(x: World, i: nat, c: Client)
    requires Coming(x, i) && c in x.s.waiters && x.s.waiters[c].name == x.s.timers[i].name && !TakenSoon(x.s, i)
    ensures Contended(x, i, c)
  {
    assert WaiterSound(x.s.timers, x.s.runs, x.s.waiters[c]);
    hide Sound, Ripe;
  }

  lemma Happens(s: State, order: seq<string>, x: World, e: Event, i: nat)
    requires Sound(s) && Enumerates(order, s.registry) && x == Shutdown(s, order)
    requires WorldSound(x) && CanHappen(x, e) && Ripe(After(x, e)) && Missed(After(x, e).s, After(x, e).w.todo, i)
    ensures !Final(s, order)
  {
    hide Sound, Ripe, Visit, Missed, After, CanHappen;
    OneEvent(x, e);
    MissedFails(s, order, [e], After(x, e), i);
  }

  /** A shutdown that waits is final exactly when one that does not would be, and no
      armed timer behind the first wait can change before the walk comes to it: it is
      no periodic task before its first run, and no task that ends and no cancel that
      waits has its name. */
  lemma AwaitedShutdownIff(s: State, order: seq<string>)
    requires Sound(s) && Enumerates(order, s.registry)
    ensures Final(s, order) <==> Reached(s) && BehindSafe(s, order)
  {
    CloseIsWalkable(s, order);
    if Reached(s) && BehindSafe(s, order) {
      ReachedIsFit(s, order);
      VisitIsCalm(Close(s), order);
      VisitKeepsSound(Close(s), order);
      hide Sound, Reached, BehindSafe, Visit, Silent, Stopped, AllFit;
      var x := Shutdown(s, order);
      forall events, y | Course(x, events, y) && y.w.Returned? ensures Silent(y.s) {
        CalmForGood(x, events, y);
        StoppedIsSilent(y.s);
      }
    } else if !Reached(s) {
      var i :| 0 <= i < |s.timers| && ((s.timers[i].armed && !Registered(s, i)) || FirstRunActive(s.timers[i]));
      hide Sound;
      NotReachedFails(s, order, i);
    } else {
      var name :| name in Behind(s, order) && name in s.registry && s.registry[name] < |s.timers|
                  && s.timers[s.registry[name]].armed && !Safe(s, s.registry[name]);
      hide Sound;
      FirstWait(s, order, name);
      UnsafeFails(s, order, Shutdown(s, order), s.registry[name]);
    }
  }

  lemma StoppedIsSilent(s: State)
    requires Sound(s) && Stopped(s)
    ensures Silent(s)
  {
    hide Sound, Stopped;
    forall run, t | Run(s, run, t) ensures |t.runs| == |s.runs| {
      StoppedForGood(s, run, t);
    }
  }

  /** Reached from the start: a task runs and a periodic one is still to come. A
      shutdown that does not wait is final, one that waits is not. */
  lemma WaitingIsWorse(a: string, b: string)
    requires a != b
    ensures exists run, s ::
              && Run(Empty(false), run, s) && Sound(s) && Silent(CancelAll(s, true))
              && Enumerates([a, b], s.registry) && !Final(s, [a, b])
  {
    hide Run, Silent, Final, Sound, Reached, BehindSafe, Next;
    var run, s := TaskScheduled(a);
    var fire, t := TaskStarts(s, a);
    var add, u := SecondScheduled(t, a, b);
    RunTwice(Empty(false), run, s, fire, t);
    RunTwice(Empty(false), run + fire, t, add, u);
    PeriodicBehind(u, a, b);
    ShutdownSilencesIff(u);
    AwaitedShutdownIff(u, [a, b]);
  }

  lemma PeriodicBehind(u: State, a: string, b: string)
    requires a != b
    requires u == State(false, false, OneShot(a, [0]) + [Timer(b, 1, true, false, true, true, [])],
                        map[a := 0, b := 1], [TaskRun(0, true, false)], map[])
    ensures Reached(u) && Enumerates([a, b], u.registry) && !BehindSafe(u, [a, b])
    ensures forall i | 0 <= i < |u.timers| :: (u.timers[i].armed ==> Registered(u, i)) && !FirstRunActive(u.timers[i])
  {
    assert [a, b][1..] == [b];
    assert b in Behind(u, [a, b]);
    assert !Safe(u, 1);
  }

  lemma SecondScheduled(s: State, a: string, b: string) returns (run: seq<Action>, t: State)
    requires Sound(s) && a != b
    requires s == State(false, false, OneShot(a, [0]), map[a := 0], [TaskRun(0, true, false)], map[])
    ensures Run(s, run, t) && Sound(t)
    ensures t == State(false, false, OneShot(a, [0]) + [Timer(b, 1, true, false, true, true, [])],
                       map[a := 0, b := 1], [TaskRun(0, true, false)], map[])
  {
    hide Sound;
    t := Step(s, ScheduleAction(b, true));
    hide Next, Enabled;
    assert Run(t, [], t);
    run := [ScheduleAction(b, true)] + [];
    Chain(s, ScheduleAction(b, true), [], t);
  }

  // ---- the walk over the scheduler object ----

  /** Turns the timers off one after the other, up to the first with an active run. */
  method WalkOn(scheduler: Scheduler, names: seq<string>) returns (w: Sweep)
    requires Walkable(scheduler.Value(), names)
    modifies scheduler
    ensures World(scheduler.Value(), w) == Visit(old(scheduler.Value()), names)
  {
    hide Sound;
    var todo := names;
    while |todo| > 0
      invariant Walkable(scheduler.Value(), todo)
      invariant Visit(scheduler.Value(), todo) == Visit(old(scheduler.Value()), names)
      decreases |todo|
    {
      FirstName(scheduler.Value(), todo);
      var i := scheduler.registry[todo[0]];
      scheduler.timers := scheduler.timers[i := scheduler.timers[i].(armed := false)];
      todo := todo[1..];
      var cos := scheduler.timers[i].cos;
      if |cos| > 0 {
        scheduler.runs := scheduler.runs[cos[0] := scheduler.runs[cos[0]].(canceled := true)];
        return Joining(todo, i, cos[0]);
      }
    }
    scheduler.registry := map[];
    w := Returned;
  }

  /** `shutdown` that waits, up to its first wait; `order` is that of the registry. */
  method ShutdownAwait(scheduler: Scheduler, order: seq<string>) returns (w: Sweep)
    requires Sound(scheduler.Value()) && Enumerates(order, scheduler.registry)
    modifies scheduler
    ensures World(scheduler.Value(), w) == Shutdown(old(scheduler.Value()), order)
    ensures WorldSound(World(scheduler.Value(), w))
  {
    CloseIsWalkable(scheduler.Value(), order);
    VisitKeepsSound(Close(scheduler.Value()), order);
    hide Sound, Visit;
    scheduler.closed := true;
    w := WalkOn(scheduler, order);
  }

  /** The joined run is over: the next run of the same timer, or the next timer. */
  method OnSwept(scheduler: Scheduler, before: Sweep) returns (w: Sweep)
    requires WorldSound(World(scheduler.Value(), before)) && CanHappen(World(scheduler.Value(), before), Proceed)
    modifies scheduler
    ensures World(scheduler.Value(), w) == After(old(World(scheduler.Value(), before)), Proceed)
    ensures WorldSound(World(scheduler.Value(), w))
  {
    AfterKeepsSound(World(scheduler.Value(), before), Proceed);
    FirstRecorded(scheduler.timers, scheduler.runs, before.timer);
    hide Sound, Visit;
    var cos := scheduler.timers[before.timer].cos;
    if |cos| > 0 {
      scheduler.runs := scheduler.runs[cos[0] := scheduler.runs[cos[0]].(canceled := true)];
      w := Joining(before.todo, before.timer, cos[0]);
    } else {
      w := WalkOn(scheduler, before.todo);
    }
  }
}
