/** What one step does to the timers, the runs and the registry, entry by entry, and
    what becomes of a task from its schedule call on. */
module SchedulerSteps {
  import opened Wrappers
  import opened Schedulers
  import opened SchedulerShutdown

  /** Some run of a timer is active. */
  ghost predicate Busy(s: State, i: nat) {
    exists r | 0 <= r < |s.runs| :: s.runs[r].active && s.runs[r].timer == i
  }

  lemma BusyIff(s: State, i: nat)
    requires Sound(s) && i < |s.timers|
    ensures Busy(s, i) <==> s.timers[i].cos != []
    ensures s.timers[i].cos != [] ==>
              var r := s.timers[i].cos[0]; r < |s.runs| && s.runs[r].active && s.runs[r].timer == i
  {
    hide TimersSound, RegistrySound, WaitersSound;
    if s.timers[i].cos != [] {
      assert s.runs[s.timers[i].cos[0]].active;
    }
  }

  // ---- schedule ----

  /** A task is refused exactly when the scheduler is closed or has one of that name.
      Otherwise there is one more timer, armed, and the name is taken: the same call
      again is refused. */
  lemma ScheduleEffect(s: State, name: string, periodic: bool)
    ensures Schedule(s, name, periodic) == None <==> s.closed || name in s.registry
    ensures Schedule(s, name, periodic).Some? ==>
              var (t, i) := (Schedule(s, name, periodic).value, |s.timers|);
              && |t.timers| == i + 1 && t.timers[..i] == s.timers
              && t.timers[i].armed && !t.timers[i].interval && t.timers[i].name == name
              && t.timers[i].periodic == periodic && t.timers[i].cos == []
              && t.registry == s.registry[name := i] && t.runs == s.runs && t.waiters == s.waiters
              && t.closed == s.closed && t.concur == s.concur
              && Schedule(t, name, periodic) == None
  {
  }

  // ---- a timer goes off ----

  /** One more run, of this timer; a first timer is spent by it. */
  predicate Started(s: State, t: State, i: nat) {
    && i < |s.timers| && i < |t.timers| && t.timers == s.timers[i := t.timers[i]]
    && t.runs == s.runs + [TaskRun(i, true, false)]
    && |s.runs| in t.timers[i].cos && (forall x | x in s.timers[i].cos :: x in t.timers[i].cos)
    && t.timers[i].name == s.timers[i].name
    && t.timers[i].armed == (s.timers[i].armed && s.timers[i].interval)
    && t.registry == s.registry && t.waiters == s.waiters && t.closed == s.closed
  }

  lemma FireEffect(s: State, i: nat)
    requires Sound(s) && Enabled(s, FireAction(i))
    ensures Started(s, Next(s, FireAction(i)), i) && !Busy(s, i)
  {
    assert PhaseSound(s.timers[i], i, s.concur);
    BusyIff(s, i);
    hide Sound;
  }

  /** An interval that goes off starts a run exactly when runs may overlap or no run of
      it is active. Otherwise nothing happens. */
  lemma TickEffect(s: State, i: nat)
    requires Sound(s) && Enabled(s, TickAction(i))
    ensures var t := Next(s, TickAction(i));
            if s.concur || !Busy(s, i) then Started(s, t, i) else t == s
  {
    assert PhaseSound(s.timers[i], i, s.concur);
    BusyIff(s, i);
    hide Sound;
  }

  // ---- a run is over ----

  /** The run is over and no longer recorded; the other records, runs and waiting
      cancels are what they were, and so are the registry and the timers when the run
      was an interval's. The first run of a periodic task makes an armed interval under
      the task's name; the run of any other task gives its name free. */
  lemma FinishEffect(s: State, r: nat)
    requires Sound(s) && Enabled(s, FinishAction(r))
    ensures s.runs[r].timer < |s.timers|
    ensures var (t, i) := (Next(s, FinishAction(r)), s.runs[r].timer);
            var tm := s.timers[i];
            && t.runs == s.runs[r := TaskRun(i, false, s.runs[r].canceled)]
            && t.waiters == s.waiters && t.closed == s.closed && |t.timers| >= |s.timers|
            && (forall k | 0 <= k < |s.timers| && k != i :: t.timers[k] == s.timers[k])
            && (forall x :: x in t.timers[i].cos <==> x in tm.cos && x != r)
            && t.timers[i].armed == tm.armed && t.timers[i].name == tm.name
            && (tm.interval ==> |t.timers| == |s.timers| && t.registry == s.registry && t.timers[i].fin)
            && (!tm.interval && tm.periodic ==>
                  var n := |s.timers|;
                  && |t.timers| == n + 1 && t.registry == s.registry[tm.name := n]
                  && t.timers[n].interval && t.timers[n].armed && t.timers[n].name == tm.name && t.timers[n].fin
                  && t.timers[n].cos == [])
            && (!tm.interval && !tm.periodic ==>
                  |t.timers| == |s.timers| && t.registry == s.registry - {tm.name})
  {
    RunsTimer(s, r);
    var i := s.runs[r].timer;
    RecordOf(s, i);
    assert PhaseSound(s.timers[i], i, s.concur);
    hide Sound;
    WithoutIs(s.timers[i].cos, r);
    assert |s.timers[i].cos| == 1 && r in s.timers[i].cos ==> s.timers[i].cos == [r];
  }

  lemma RunsTimer(s: State, r: nat)
    requires Sound(s) && r < |s.runs|
    ensures s.runs[r].timer < |s.timers|
    ensures s.runs[r].active ==> r in s.timers[s.runs[r].timer].cos
  {
    hide TimersSound, RegistrySound, WaitersSound;
  }

  lemma RecordOf(s: State, i: nat)
    requires Sound(s) && i < |s.timers|
    ensures forall k, l | 0 <= k < l < |s.timers[i].cos| :: s.timers[i].cos[k] != s.timers[i].cos[l]
  {
    hide TimersSound, RegistrySound, WaitersSound;
  }

  // ---- cancel ----

  /** Timer i is off; the other timers are what they were. */
  predicate TurnedOff(s: State, t: State, i: nat) {
    && i < |s.timers| && t.timers == s.timers[i := s.timers[i].(armed := false)]
    && t.closed == s.closed && t.concur == s.concur
  }

  /** The client waits for a run of timer i that is active, and the run is asked to end;
      or the name is free and the client is done. */
  predicate AskedOrFree(s: State, t: State, c: Client, i: nat, name: string) {
    && i < |s.timers|
    && if s.timers[i].cos != [] then
         var r := s.timers[i].cos[0];
         && r < |s.runs| && s.runs[r].active && s.runs[r].timer == i
         && t.runs == s.runs[r := TaskRun(i, true, true)] && t.registry == s.registry
         && t.waiters == s.waiters[c := Waiter(i, name, r)]
       else t.runs == s.runs && t.registry == s.registry - {name} && t.waiters == s.waiters - {c}
  }

  /** A cancel turns the timer of its name off. It gives the name free at once, or, when
      it waits, once no run of the timer is active. Without such a name it does nothing. */
  lemma CancelEffect(s: State, c: Client, name: string, await: bool)
    requires Sound(s) && Enabled(s, CancelAction(c, name, await))
    ensures name in s.registry ==> s.registry[name] < |s.timers| && s.timers[s.registry[name]].name == name
    ensures var t := Next(s, CancelAction(c, name, await));
            if name !in s.registry then t == s
            else
              var i := s.registry[name];
              && TurnedOff(s, t, i)
              && (await ==> AskedOrFree(s, t, c, i, name))
              && (await ==> (c in t.waiters <==> Busy(s, i)))
              && (!await ==> t.runs == s.runs && t.registry == s.registry - {name} && t.waiters == s.waiters)
  {
    RegistryIsSound(s);
    if name in s.registry {
      BusyIff(s, s.registry[name]);
      CancelFits(s, name);
    }
    hide Sound;
  }

  /** A waiting cancel whose run is over asks the next run to end, or is done. */
  lemma ResumeEffect(s: State, c: Client)
    requires Sound(s) && Enabled(s, ResumeAction(c))
    ensures var (t, w) := (Next(s, ResumeAction(c)), s.waiters[c]);
            && t.timers == s.timers && t.closed == s.closed
            && AskedOrFree(s, t, c, w.timer, w.name) && (c in t.waiters <==> Busy(s, w.timer))
  {
    assert WaiterSound(s.timers, s.runs, s.waiters[c]);
    BusyIff(s, s.waiters[c].timer);
    FirstRecorded(s.timers, s.runs, s.waiters[c].timer);
    hide Sound;
  }

  /** Every timer that is registered under its name is off, no other timer and no run
      has changed, and every name is free, though a closed scheduler takes none. */
  lemma CancelAllEffect(s: State, close: bool)
    ensures var t := CancelAll(s, close);
            && |t.timers| == |s.timers| && t.registry == map[] && t.runs == s.runs && t.waiters == s.waiters
            && t.closed == (s.closed || close)
            && (forall i | 0 <= i < |s.timers| ::
                  t.timers[i]
                  == if exists name :: name in s.registry && s.registry[name] == i && s.timers[i].name == name
                     then s.timers[i].(armed := false) else s.timers[i])
  {
    var t := CancelAll(s, close);
    forall i | 0 <= i < |s.timers|
      ensures Registered(s, i)
              <==> exists name :: name in s.registry && s.registry[name] == i && s.timers[i].name == name
    {
    }
  }

  // ---- from the schedule call on ----

  /** A state with timers and runs added, and another registry. */
  function With(s: State, timers: seq<Timer>, runs: seq<TaskRun>, registry: map<string, nat>): (t: State)
    ensures |t.timers| == |s.timers| + |timers| && |t.runs| == |s.runs| + |runs|
    ensures forall k | 0 <= k < |timers| :: t.timers[|s.timers| + k] == timers[k]
    ensures forall k | 0 <= k < |runs| :: t.runs[|s.runs| + k] == runs[k]
  {
    s.(timers := s.timers + timers, runs := s.runs + runs, registry := registry)
  }

  /** The first timer of a task: before it goes off, during its run, and after it. */
  function First(s: State, name: string, periodic: bool, armed: bool, cos: seq<nat>): Timer {
    Timer(name, |s.timers|, periodic, false, armed, true, cos)
  }

  /** The interval of a task behind its first timer. */
  function Again(s: State, name: string, armed: bool, cos: seq<nat>): Timer {
    Timer(name, |s.timers|, true, true, armed, cos == [], cos)
  }

  function Active(s: State, k: nat): TaskRun {
    TaskRun(|s.timers| + k, true, false)
  }

  function Over(s: State, k: nat): TaskRun {
    TaskRun(|s.timers| + k, false, false)
  }

  /** A task without a period runs once: the timer that goes off is spent, the run is
      recorded while it lasts, and at its end the registry is what it was before. */
  lemma OneShotLife(s: State, name: string)
    requires !s.closed && name !in s.registry
    ensures var (i, r, taken) := (|s.timers|, |s.runs|, s.registry[name := |s.timers|]);
            var a := With(s, [First(s, name, false, true, [])], [], taken);
            var b := With(s, [First(s, name, false, false, [r])], [Active(s, 0)], taken);
            && Schedule(s, name, false) == Some(a)
            && Enabled(a, FireAction(i)) && Fire(a, i) == b
            && Enabled(b, FinishAction(r)) && !Enabled(b, FireAction(i))
            && Finish(b, r) == With(s, [First(s, name, false, false, [])], [Over(s, 0)], s.registry)
  {
    var (i, r, taken) := (|s.timers|, |s.runs|, s.registry[name := |s.timers|]);
    TaskScheduled(s, name, false);
    TaskStarted(s, name, false, taken);
    var b := With(s, [First(s, name, false, false, [r])], [Active(s, 0)], taken);
    assert taken - {name} == s.registry;
    assert b.timers[i := First(s, name, false, false, [])] == s.timers + [First(s, name, false, false, [])];
    assert b.runs[r := Over(s, 0)] == s.runs + [Over(s, 0)];
  }

  lemma TaskScheduled(s: State, name: string, periodic: bool)
    requires !s.closed && name !in s.registry
    ensures Schedule(s, name, periodic)
            == Some(With(s, [First(s, name, periodic, true, [])], [], s.registry[name := |s.timers|]))
  {
    assert s.runs + [] == s.runs;
  }

  lemma TaskStarted(s: State, name: string, periodic: bool, taken: map<string, nat>)
    ensures Fire(With(s, [First(s, name, periodic, true, [])], [], taken), |s.timers|)
            == With(s, [First(s, name, periodic, false, [|s.runs|])], [Active(s, 0)], taken)
  {
    var a := With(s, [First(s, name, periodic, true, [])], [], taken);
    var tm := First(s, name, periodic, false, [|s.runs|]);
    assert a.runs + [Active(s, 0)] == s.runs + [Active(s, 0)];
    assert a.timers[|s.timers| := tm] == s.timers + [tm];
    assert [] + [|s.runs|] == [|s.runs|];
  }

  /** A periodic task begins like any other; the end of its first run makes the interval
      and gives it the task's name. */
  lemma PeriodicFirst(s: State, name: string)
    requires !s.closed && name !in s.registry
    ensures var (i, r, taken) := (|s.timers|, |s.runs|, s.registry[name := |s.timers|]);
            var a := With(s, [First(s, name, true, true, [])], [], taken);
            var b := With(s, [First(s, name, true, false, [r])], [Active(s, 0)], taken);
            && Schedule(s, name, true) == Some(a)
            && Enabled(a, FireAction(i)) && Fire(a, i) == b
            && Enabled(b, FinishAction(r))
            && Finish(b, r) == With(s, [First(s, name, true, false, []), Again(s, name, true, [])], [Over(s, 0)],
                                    s.registry[name := i + 1])
  {
    var (i, r, taken) := (|s.timers|, |s.runs|, s.registry[name := |s.timers|]);
    TaskScheduled(s, name, true);
    TaskStarted(s, name, true, taken);
    var b := With(s, [First(s, name, true, false, [r])], [Active(s, 0)], taken);
    var off := First(s, name, true, false, []);
    assert b.timers[i := off] + [Again(s, name, true, [])] == s.timers + [off, Again(s, name, true, [])];
    assert b.runs[r := Over(s, 0)] == s.runs + [Over(s, 0)];
    assert taken[name := i + 1] == s.registry[name := i + 1];
  }

  /** Each time the interval goes off with no run of it active one starts; while it is
      active another starts only if runs may overlap; at its end the interval is as it
      was before. `done` are the runs of the task so far. */
  lemma PeriodicAgain(s: State, name: string, done: seq<TaskRun>, taken: map<string, nat>)
    ensures var (i, r, off) := (|s.timers| + 1, |s.runs| + |done|, First(s, name, true, false, []));
            var a := With(s, [off, Again(s, name, true, [])], done, taken);
            var b := With(s, [off, Again(s, name, true, [r])], done + [Active(s, 1)], taken);
            && Enabled(a, TickAction(i)) && Tick(a, i) == b
            && Enabled(b, TickAction(i))
            && Tick(b, i) == (if s.concur then With(s, [off, Again(s, name, true, [r, r + 1])],
                                                    done + [Active(s, 1), Active(s, 1)], taken)
                              else b)
            && Enabled(b, FinishAction(r))
            && Finish(b, r) == With(s, [off, Again(s, name, true, [])], done + [Over(s, 1)], taken)
  {
    hide Finish, Tick;
    TickStarts(s, name, done, taken);
    TickTwice(s, name, done, taken);
    AgainOver(s, name, done, taken);
  }

  lemma TickStarts(s: State, name: string, done: seq<TaskRun>, taken: map<string, nat>)
    ensures var (i, r, off) := (|s.timers| + 1, |s.runs| + |done|, First(s, name, true, false, []));
            Tick(With(s, [off, Again(s, name, true, [])], done, taken), i)
            == With(s, [off, Again(s, name, true, [r])], done + [Active(s, 1)], taken)
  {
    var (i, r, off) := (|s.timers| + 1, |s.runs| + |done|, First(s, name, true, false, []));
    var a := With(s, [off, Again(s, name, true, [])], done, taken);
    assert [] + [r] == [r];
    assert a.timers[i := Again(s, name, true, [r])] == s.timers + [off, Again(s, name, true, [r])];
    assert a.runs + [Active(s, 1)] == s.runs + (done + [Active(s, 1)]);
  }

  lemma TickTwice(s: State, name: string, done: seq<TaskRun>, taken: map<string, nat>)
    ensures var (i, r, off) := (|s.timers| + 1, |s.runs| + |done|, First(s, name, true, false, []));
            var b := With(s, [off, Again(s, name, true, [r])], done + [Active(s, 1)], taken);
            Tick(b, i)
            == if s.concur then With(s, [off, Again(s, name, true, [r, r + 1])], done + [Active(s, 1), Active(s, 1)],
                                     taken)
               else b
  {
    var (i, r, off) := (|s.timers| + 1, |s.runs| + |done|, First(s, name, true, false, []));
    var b := With(s, [off, Again(s, name, true, [r])], done + [Active(s, 1)], taken);
    assert [r] + [r + 1] == [r, r + 1];
    assert b.timers[i := Again(s, name, true, [r, r + 1])] == s.timers + [off, Again(s, name, true, [r, r + 1])];
    assert b.runs + [Active(s, 1)] == s.runs + (done + [Active(s, 1), Active(s, 1)]);
  }

  lemma AgainOver(s: State, name: string, done: seq<TaskRun>, taken: map<string, nat>)
    ensures var (i, r, off) := (|s.timers| + 1, |s.runs| + |done|, First(s, name, true, false, []));
            var b := With(s, [off, Again(s, name, true, [r])], done + [Active(s, 1)], taken);
            && b.runs[r] == Active(s, 1)
            && Finish(b, r) == With(s, [off, Again(s, name, true, [])], done + [Over(s, 1)], taken)
  {
    var (i, r, off) := (|s.timers| + 1, |s.runs| + |done|, First(s, name, true, false, []));
    var b := With(s, [off, Again(s, name, true, [r])], done + [Active(s, 1)], taken);
    assert b.runs[r] == (done + [Active(s, 1)])[|done|];
    assert Without([r], r) == [];
    assert b.timers[i := Again(s, name, true, [])] == s.timers + [off, Again(s, name, true, [])];
    assert b.runs[r := Over(s, 1)] == s.runs + (done + [Over(s, 1)]);
  }

  // ---- a shutdown that waits ----

  /** Where the walk first has to wait: the number of names before that. */
  function QuietNames(s: State, todo: seq<string>): (n: nat)
    requires NamesIn(todo, s.registry) && forall k | 0 <= k < |todo| :: s.registry[todo[k]] < |s.timers|
    ensures n <= |todo|
    ensures forall k | 0 <= k < n :: s.timers[s.registry[todo[k]]].cos == []
    ensures n < |todo| ==> s.timers[s.registry[todo[n]]].cos != []
  {
    if todo == [] || s.timers[s.registry[todo[0]]].cos != [] then 0 else 1 + QuietNames(s, todo[1..])
  }

  /** Timers of the first n names are off; all others are what they were. */
  ghost predicate OffUpTo(s: State, t: State, todo: seq<string>, n: nat)
    requires n <= |todo| && NamesIn(todo, s.registry)
  {
    && |t.timers| == |s.timers|
    && (forall i | 0 <= i < |s.timers| ::
          t.timers[i] == if exists k :: 0 <= k < n && s.registry[todo[k]] == i then s.timers[i].(armed := false)
                         else s.timers[i])
  }

  lemma NamesFit(s: State, todo: seq<string>)
    requires Walkable(s, todo)
    ensures forall k | 0 <= k < |todo| :: s.registry[todo[k]] < |s.timers|
  {
    RegistryIsSound(s);
  }

  /** Turning a timer off does not change which names are quiet. */
  lemma {:induction false} QuietSame(s: State, t: State, todo: seq<string>)
    requires NamesIn(todo, s.registry) && forall k | 0 <= k < |todo| :: s.registry[todo[k]] < |s.timers|
    requires t.registry == s.registry && |t.timers| == |s.timers|
    requires forall i | 0 <= i < |s.timers| :: t.timers[i].cos == s.timers[i].cos
    ensures QuietNames(t, todo) == QuietNames(s, todo)
  {
    if todo != [] {
      QuietSame(s, t, todo[1..]);
    }
  }

  lemma OffOneMore(s: State, u: State, todo: seq<string>, n: nat)
    requires todo != [] && n < |todo| && NamesIn(todo, s.registry) && s.registry[todo[0]] < |s.timers|
    requires OffUpTo(Disarm(s, s.registry[todo[0]]), u, todo[1..], n)
    ensures OffUpTo(s, u, todo, n + 1)
  {
    var t, rest := Disarm(s, s.registry[todo[0]]), todo[1..];
    forall i | 0 <= i < |s.timers|
      ensures u.timers[i] == if exists k :: 0 <= k < n + 1 && s.registry[todo[k]] == i then s.timers[i].(armed := false)
                             else s.timers[i]
    {
      if exists k :: 0 <= k < n + 1 && s.registry[todo[k]] == i {
        var k :| 0 <= k < n + 1 && s.registry[todo[k]] == i;
        if k > 0 {
          assert t.registry[rest[k - 1]] == i;
        }
      }
      if exists k :: 0 <= k < n && t.registry[rest[k]] == i {
        var k :| 0 <= k < n && t.registry[rest[k]] == i;
        assert s.registry[todo[k + 1]] == i;
      }
    }
  }

  ghost predicate WaitsBehind(s: State, todo: seq<string>, n: nat, x: World)
    requires n <= |todo| && NamesIn(todo, s.registry) && forall k | 0 <= k < |todo| :: s.registry[todo[k]] < |s.timers|
  {
    && x.s.waiters == s.waiters && x.s.closed
    && OffUpTo(s, x.s, todo, if n < |todo| then n + 1 else n)
    && (x.w == Returned <==> n == |todo|)
    && (n == |todo| ==> x.s.registry == map[] && x.s.runs == s.runs)
    && (n < |todo| ==>
          var i := s.registry[todo[n]];
          && s.timers[i].cos != []
          && var r := s.timers[i].cos[0];
             && r < |s.runs| && s.runs[r].active && s.runs[r].timer == i
             && x.w == Joining(todo[n + 1..], i, r)
             && x.s.registry == s.registry && x.s.runs == s.runs[r := TaskRun(i, true, true)])
  }

  lemma JoinsFirst(s: State, todo: seq<string>)
    requires Walkable(s, todo) && todo != [] && s.registry[todo[0]] < |s.timers|
    requires s.timers[s.registry[todo[0]]].cos != []
    requires forall k | 0 <= k < |todo| :: s.registry[todo[k]] < |s.timers|
    ensures WaitsBehind(s, todo, 0, Visit(s, todo))
  {
    hide Sound, OffUpTo;
    var i := s.registry[todo[0]];
    BusyIff(s, i);
    FirstName(s, todo);
    var x := Visit(s, todo);
    NoneOff(Disarm(s, i), x.s, todo[1..]);
    OffOneMore(s, x.s, todo, 0);
    assert todo[0 + 1..] == todo[1..];
  }

  lemma NoneOff(s: State, t: State, todo: seq<string>)
    requires NamesIn(todo, s.registry) && t.timers == s.timers
    ensures OffUpTo(s, t, todo, 0)
  {
  }

  lemma WaitsOneMore(s: State, todo: seq<string>, n: nat, x: World)
    requires todo != [] && n < |todo| && NamesIn(todo, s.registry)
    requires forall k | 0 <= k < |todo| :: s.registry[todo[k]] < |s.timers|
    requires WaitsBehind(Disarm(s, s.registry[todo[0]]), todo[1..], n, x)
    ensures WaitsBehind(s, todo, n + 1, x)
  {
    hide OffUpTo;
    OffOneMore(s, x.s, todo, if n < |todo| - 1 then n + 1 else n);
    if n < |todo| - 1 {
      assert todo[1..][n] == todo[n + 1] && todo[1..][n + 1..] == todo[n + 2..];
    }
  }

  /** A shutdown that waits turns timers off one by one. If no run of them is active it
      turns all off, and is done. Otherwise it stops behind the first timer with an
      active run: those before it and this one are off, all others are untouched, the
      run is asked to end, and every name is still registered. */
  lemma {:induction false} VisitStops(s: State, todo: seq<string>)
    requires Walkable(s, todo)
    ensures forall k | 0 <= k < |todo| :: s.registry[todo[k]] < |s.timers|
    ensures WaitsBehind(s, todo, QuietNames(s, todo), Visit(s, todo))
    decreases |todo|
  {
    hide Sound, WaitsBehind;
    NamesFit(s, todo);
    if todo == [] {
      NothingToVisit(s, todo);
    } else if s.timers[s.registry[todo[0]]].cos != [] {
      JoinsFirst(s, todo);
    } else {
      FirstName(s, todo);
      var t := Disarm(s, s.registry[todo[0]]);
      VisitStops(t, todo[1..]);
      QuietSame(s, t, todo[1..]);
      WaitsOneMore(s, todo, QuietNames(t, todo[1..]), Visit(s, todo));
    }
  }

  lemma NothingToVisit(s: State, todo: seq<string>)
    requires Walkable(s, todo) && todo == []
    ensures WaitsBehind(s, todo, 0, Visit(s, todo))
  {
    hide Sound;
  }
}
