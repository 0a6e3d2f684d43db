/** The registry of the scheduler: when a timer that can still go off keeps its
    name, so that it can be cancelled. */
module SchedulerNames {
  import opened Schedulers

  /** Every timer that can go off is registered under its name. */
  predicate AllRegistered(s: State) {
    forall i | 0 <= i < |s.timers| && s.timers[i].armed :: Registered(s, i)
  }

  /** The name belongs to a timer that can go off. */
  predicate NameArmed(s: State, name: string) {
    name in s.registry && s.registry[name] < |s.timers| && s.timers[s.registry[name]].armed
  }

  /** The steps that take or overwrite a name they do not own any more: the end of
      a first run, and the end of an awaited cancel, when the name was cancelled in
      the meantime and given to a new task. */
  predicate TakesName(s: State, a: Action) {
    match a
    case FinishAction(r) =>
      && r < |s.runs| && s.runs[r].timer < |s.timers|
      && !s.timers[s.runs[r].timer].interval && NameArmed(s, s.timers[s.runs[r].timer].name)
    case ResumeAction(c) =>
      && c in s.waiters && s.waiters[c].timer < |s.timers|
      && s.timers[s.waiters[c].timer].cos == [] && NameArmed(s, s.waiters[c].name)
    case _ => false
  }

  lemma FinishKeepsNamesIff(s: State, r: nat)
    requires Sound(s) && r < |s.runs| && s.runs[r].active && AllRegistered(s)
    ensures s.runs[r].timer < |s.timers|
    ensures AllRegistered(Finish(s, r)) <==> !TakesName(s, FinishAction(r))
  {
    OffIs(s, r);
    hide Sound, Without;
    var i := s.runs[r].timer;
    var tm, t := s.timers[i], Finish(s, r);
    if TakesName(s, FinishAction(r)) {
      var j := s.registry[tm.name];
      assert s.timers[j].armed && Registered(s, j);
      assert t.timers[j].armed && !Registered(t, j);
    } else {
      forall j | 0 <= j < |t.timers| && t.timers[j].armed ensures Registered(t, j) {
        if j < |s.timers| {
          assert Registered(s, j);
        }
      }
    }
  }

  lemma AwaitKeepsNamesIff(s: State, c: Client, i: nat, name: string)
    requires i < |s.timers| && forall k | 0 <= k < |s.timers[i].cos| :: s.timers[i].cos[k] < |s.runs|
    requires AllRegistered(s) && RegistrySound(s.timers, s.registry)
    ensures AllRegistered(Await(s, c, i, name)) <==> !(s.timers[i].cos == [] && NameArmed(s, name))
  {
    var t := Await(s, c, i, name);
    if s.timers[i].cos == [] && NameArmed(s, name) {
      var j := s.registry[name];
      assert Registered(s, j) && !Registered(t, j);
    } else {
      forall j | 0 <= j < |t.timers| && t.timers[j].armed ensures Registered(t, j) {
        assert Registered(s, j);
      }
    }
  }

  /** Once its timer is off, a name can be taken off the registry. */
  lemma DisarmKeepsNames(s: State, name: string)
    requires RegistrySound(s.timers, s.registry) && AllRegistered(s) && name in s.registry
    ensures s.registry[name] < |s.timers|
    ensures var t := SetTimer(s, s.registry[name], s.timers[s.registry[name]].(armed := false));
            && RegistrySound(t.timers, t.registry) && AllRegistered(t) && !NameArmed(t, name)
            && AllRegistered(t.(registry := t.registry - {name}))
  {
    var i := s.registry[name];
    ChangeRegistry(s.timers, s.registry, i, s.timers[i].(armed := false));
    var t := SetTimer(s, i, s.timers[i].(armed := false));
    forall j | 0 <= j < |t.timers| && t.timers[j].armed ensures Registered(t, j) && t.timers[j].name != name {
      assert Registered(s, j);
    }
    hide RegistrySound;
  }

  lemma CancelKeepsNames(s: State, c: Client, name: string, await: bool)
    requires Sound(s) && AllRegistered(s)
    ensures name in s.registry ==> s.registry[name] < |s.timers|
    ensures AllRegistered(Cancel(s, c, name, await))
  {
    RegistryIsSound(s);
    hide Sound, RegistrySound, AllRegistered, NameArmed, Await;
    if name in s.registry {
      CancelFits(s, name);
      DisarmKeepsNames(s, name);
      var i := s.registry[name];
      AwaitKeepsNamesIff(SetTimer(s, i, s.timers[i].(armed := false)), c, i, name);
    }
  }

  lemma OthersKeepNames(s: State, a: Action)
    requires Sound(s) && Enabled(s, a) && AllRegistered(s)
    requires a.ScheduleAction? || a.FireAction? || a.TickAction? || a.CancelAllAction?
    ensures AllRegistered(Next(s, a))
  {
    hide RecordsSound, TimersSound, WaitersSound;
    var t := Next(s, a);
    forall j | 0 <= j < |t.timers| && t.timers[j].armed ensures Registered(t, j) {
      if j < |s.timers| {
        assert Registered(s, j);
      }
    }
  }

  /** A step from a state in which every timer that can go off is registered leads
      to another such state exactly when it does not take a name from a newer task. */
  lemma NamesKeptIff(s: State, a: Action)
    requires Sound(s) && Enabled(s, a) && AllRegistered(s)
    ensures AllRegistered(Next(s, a)) <==> !TakesName(s, a)
  {
    match a
    case FinishAction(r) => FinishKeepsNamesIff(s, r);
    case ResumeAction(c) =>
      WaiterKnows(s, c);
      RegistryIsSound(s);
      hide Sound, Await;
      AwaitKeepsNamesIff(s, c, s.waiters[c].timer, s.waiters[c].name);
    case CancelAction(c, name, await) =>
      hide Sound, Cancel;
      CancelKeepsNames(s, c, name, await);
    case _ =>
      hide Sound, Next;
      OthersKeepNames(s, a);
  }

  lemma WaiterKnows(s: State, c: Client)
    requires Sound(s) && c in s.waiters
    ensures var i := s.waiters[c].timer;
            i < |s.timers| && forall k | 0 <= k < |s.timers[i].cos| :: s.timers[i].cos[k] < |s.runs|
  {
    assert WaiterSound(s.timers, s.runs, s.waiters[c]);
    FirstRecorded(s.timers, s.runs, s.waiters[c].timer);
  }

  /** No step of a run takes a name. */
  ghost predicate Polite(s: State, run: seq<Action>)
    decreases |run|
  {
    run == [] || (Sound(s) && Enabled(s, run[0]) && !TakesName(s, run[0]) && Polite(Next(s, run[0]), run[1..]))
  }

  /** Whatever can go off is registered, before, during and after a run. */
  ghost predicate AlwaysRegistered(s: State, run: seq<Action>)
    decreases |run|
  {
    && AllRegistered(s)
    && (run != [] ==> Sound(s) && Enabled(s, run[0]) && AlwaysRegistered(Next(s, run[0]), run[1..]))
  }

  /** Over whole runs: whatever can go off can be cancelled all along exactly when
      no step takes a name. */
  lemma {:induction false} NamesKeptAlongIff(s: State, run: seq<Action>, t: State)
    requires Sound(s) && Run(s, run, t) && AllRegistered(s)
    ensures AlwaysRegistered(s, run) <==> Polite(s, run)
    decreases |run|
  {
    hide Sound, Next, AllRegistered, TakesName;
    if run != [] {
      NextKeepsSound(s, run[0]);
      NamesKeptIff(s, run[0]);
      if AllRegistered(Next(s, run[0])) {
        NamesKeptAlongIff(Next(s, run[0]), run[1..], t);
      } else {
        assert !AlwaysRegistered(Next(s, run[0]), run[1..]);
      }
    }
  }

  /** The end of a first run can take the name of a newer task: a one-shot task is
      running, is cancelled without waiting, its name is used again, and then the
      run ends. `Schedulers.CancelUnregistersLater` is the other way. */
  lemma FinishUnregistersLater(name: string)
    ensures exists run, t :: Run(Empty(false), run, t) && t.registry == map[] && |t.timers| == 2 && t.timers[1].armed
  {
    hide Next, Run;
    var run, s := TaskScheduled(name);
    var fire, t := TaskStarts(s, name);
    var more, u := UsedAgain(t, name);
    RunTwice(Empty(false), run, s, fire, t);
    RunTwice(Empty(false), run + fire, t, more, u);
  }

  lemma UsedAgain(s: State, name: string) returns (run: seq<Action>, t: State)
    requires Sound(s)
    requires s == State(false, false, OneShot(name, [0]), map[name := 0], [TaskRun(0, true, false)], map[])
    ensures Run(s, run, t) && t.registry == map[] && |t.timers| == 2 && t.timers[1].armed
  {
    hide Sound, Fire, Tick, Await;
    var cancel, finish := CancelAction(0, name, false), FinishAction(0);
    var s1 := Step(s, cancel);
    assert s1.timers == OneShot(name, [0]) && s1.registry == map[];
    var s2 := Step(s1, ScheduleAction(name, false));
    assert s2.timers == OneShot(name, [0]) + [Timer(name, 1, false, false, true, true, [])];
    t := Step(s2, finish);
    hide Next, Enabled;
    assert Run(t, [], t);
    Chain(s2, finish, [], t);
    Chain(s1, ScheduleAction(name, false), [finish] + [], t);
    run := [cancel] + ([ScheduleAction(name, false)] + ([finish] + []));
    Chain(s, cancel, [ScheduleAction(name, false)] + ([finish] + []), t);
  }
}
