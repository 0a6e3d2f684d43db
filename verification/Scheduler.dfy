/** The scheduler of named tasks. A schedule call makes a one-shot timer; after
    the first run of a periodic task the code makes an interval timer for the
    rest. Runs of a task are coroutines: they start when a timer goes off and
    finish at any later time, so a run of the scheduler is any sequence of the
    steps below. */
module Schedulers {
  import opened Wrappers

  type Client = nat

  /** A timer handle. `job` is the first timer of the same schedule call, `cos`
      the runs the handle records, `fin` whether the last run has finished. */
  datatype Timer = Timer(
    name: string, job: nat, periodic: bool, interval: bool, armed: bool, fin: bool, cos: seq<nat>)

  datatype TaskRun = TaskRun(timer: nat, active: bool, canceled: bool)

  /** A cancel that waits for a run of the timer it found under its name. */
  datatype Waiter = Waiter(timer: nat, name: string, on: nat)

  datatype State = State(
    concur: bool, closed: bool, timers: seq<Timer>, registry: map<string, nat>, runs: seq<TaskRun>,
    waiters: map<Client, Waiter>)

  // ---- steps ----

  function SetTimer(s: State, i: nat, tm: Timer): State
    requires i < |s.timers|
  {
    s.(timers := s.timers[i := tm])
  }

  /** Refused when the scheduler is closed or the name is taken. */
  function Schedule(s: State, name: string, periodic: bool): Option<State> {
    if s.closed || name in s.registry then None
    else
      var id := |s.timers|;
      Some(s.(timers := s.timers + [Timer(name, id, periodic, false, true, true, [])],
              registry := s.registry[name := id]))
  }

  function Begin(s: State, i: nat, tm: Timer): State
    requires i < |s.timers|
  {
    SetTimer(s, i, tm.(cos := tm.cos + [|s.runs|])).(runs := s.runs + [TaskRun(i, true, false)])
  }

  /** A one-shot timer goes off. */
  function Fire(s: State, i: nat): State
    requires i < |s.timers|
  {
    Begin(s, i, s.timers[i].(armed := false, cos := []))
  }

  /** An interval timer goes off: a run starts if the last one has finished or
      runs may overlap. */
  function Tick(s: State, i: nat): State
    requires i < |s.timers|
  {
    var tm := s.timers[i];
    if tm.fin || s.concur then Begin(s, i, tm.(fin := false)) else s
  }

  function Without(cos: seq<nat>, r: nat): seq<nat> {
    if cos == [] then [] else if cos[0] == r then cos[1..] else [cos[0]] + Without(cos[1..], r)
  }

  /** The handle of a run that finishes, without the run. */
  function Off(tm: Timer, r: nat): Timer {
    if tm.interval then tm.(fin := true, cos := Without(tm.cos, r)) else tm.(cos := [])
  }

  /** A run finishes. The first run of a periodic task makes the interval timer
      and registers it; any other first run takes the name off the registry. */
  function Finish(s: State, r: nat): State
    requires r < |s.runs| && s.runs[r].timer < |s.timers|
  {
    var i := s.runs[r].timer;
    var tm := s.timers[i];
    var t := s.(runs := s.runs[r := s.runs[r].(active := false)]);
    var u := SetTimer(t, i, Off(tm, r));
    if tm.interval then u
    else if tm.periodic then
      u.(timers := u.timers + [Timer(tm.name, tm.job, true, true, true, true, [])],
         registry := u.registry[tm.name := |s.timers|])
    else u.(registry := u.registry - {tm.name})
  }

  /** The wait loop of a cancel: wait for the first recorded run, or take the
      name off the registry and be done. */
  function Await(s: State, c: Client, i: nat, name: string): State
    requires i < |s.timers| && forall k | 0 <= k < |s.timers[i].cos| :: s.timers[i].cos[k] < |s.runs|
  {
    var cos := s.timers[i].cos;
    if cos != [] then
      s.(runs := s.runs[cos[0] := s.runs[cos[0]].(canceled := true)],
         waiters := s.waiters[c := Waiter(i, name, cos[0])])
    else s.(registry := s.registry - {name}, waiters := s.waiters - {c})
  }

  function Cancel(s: State, c: Client, name: string, await: bool): State
    requires name in s.registry ==>
               && s.registry[name] < |s.timers|
               && forall k | 0 <= k < |s.timers[s.registry[name]].cos| :: s.timers[s.registry[name]].cos[k] < |s.runs|
  {
    if name !in s.registry then s
    else
      var i := s.registry[name];
      var t := SetTimer(s, i, s.timers[i].(armed := false));
      if await then Await(t, c, i, name) else t.(registry := t.registry - {name})
  }

  predicate Registered(s: State, i: nat)
    requires i < |s.timers|
  {
    s.timers[i].name in s.registry && s.registry[s.timers[i].name] == i
  }

  /** Turns every registered timer off and empties the registry. */
  function CancelAll(s: State, close: bool): State {
    s.(timers := seq(|s.timers|, i requires 0 <= i < |s.timers| =>
                   if Registered(s, i) then s.timers[i].(armed := false) else s.timers[i]),
       registry := map[], closed := s.closed || close)
  }

  datatype Action =
    | ScheduleAction(name: string, periodic: bool)
    | FireAction(timer: nat)
    | TickAction(timer: nat)
    | FinishAction(task: nat)
    | CancelAction(client: Client, name: string, await: bool)
    | ResumeAction(client: Client)
    | CancelAllAction(close: bool)

  /** A timer goes off only while it is armed; a waiting cancel goes on when the
      run it waits for has finished. */
  predicate Enabled(s: State, a: Action) {
    match a
    case ScheduleAction(name, _) => !s.closed && name !in s.registry
    case FireAction(i) => i < |s.timers| && s.timers[i].armed && !s.timers[i].interval
    case TickAction(i) => i < |s.timers| && s.timers[i].armed && s.timers[i].interval
    case FinishAction(r) => r < |s.runs| && s.runs[r].active
    case CancelAction(c, _, _) => c !in s.waiters
    case ResumeAction(c) => c in s.waiters && s.waiters[c].on < |s.runs| && !s.runs[s.waiters[c].on].active
    case CancelAllAction(_) => true
  }

  ghost function Next(s: State, a: Action): State
    requires Sound(s) && Enabled(s, a)
  {
    match a
    case ScheduleAction(name, periodic) => Schedule(s, name, periodic).value
    case FireAction(i) => Fire(s, i)
    case TickAction(i) => Tick(s, i)
    case FinishAction(r) => Finish(s, r)
    case CancelAction(c, name, await) => Cancel(s, c, name, await)
    case ResumeAction(c) =>
      assert WaiterSound(s.timers, s.runs, s.waiters[c]);
      Await(s, c, s.waiters[c].timer, s.waiters[c].name)
    case CancelAllAction(close) => CancelAll(s, close)
  }

  // ---- the invariant ----

  /** Every handle records exactly its active runs, each once. */
  predicate RecordsSound(timers: seq<Timer>, runs: seq<TaskRun>) {
    && (forall i, k | 0 <= i < |timers| && 0 <= k < |timers[i].cos| ::
          timers[i].cos[k] < |runs| && runs[timers[i].cos[k]].active && runs[timers[i].cos[k]].timer == i)
    && (forall i, k, l | 0 <= i < |timers| && 0 <= k < l < |timers[i].cos| :: timers[i].cos[k] != timers[i].cos[l])
    && (forall r | 0 <= r < |runs| ::
          runs[r].timer < |timers| && (runs[r].active ==> r in timers[runs[r].timer].cos))
  }

  /** A handle before and after its first run, and in the interval phase. */
  predicate PhaseSound(tm: Timer, i: nat, concur: bool) {
    if tm.interval
    then tm.job < i && tm.periodic && (!concur ==> |tm.cos| <= 1 && (tm.fin <==> tm.cos == []))
    else tm.job == i && |tm.cos| <= 1 && (tm.armed ==> tm.cos == [])
  }

  /** An interval timer comes when the first run of its job is over, and only one. */
  predicate TimersSound(timers: seq<Timer>, concur: bool) {
    && (forall i | 0 <= i < |timers| :: PhaseSound(timers[i], i, concur))
    && (forall i | 0 <= i < |timers| && timers[i].interval :: IsOver(timers, timers[i].job))
    && (forall i, j | 0 <= i < j < |timers| && timers[i].interval && timers[j].interval ::
          timers[i].job != timers[j].job)
  }

  predicate IsOver(timers: seq<Timer>, i: nat) {
    i < |timers| && !timers[i].interval && !timers[i].armed && timers[i].cos == []
  }

  predicate RegistrySound(timers: seq<Timer>, registry: map<string, nat>) {
    forall name | name in registry ::
      && registry[name] < |timers| && timers[registry[name]].name == name
      && forall k | 0 <= k < |timers| && timers[k].interval :: timers[k].job != registry[name]
  }

  predicate WaitersSound(timers: seq<Timer>, runs: seq<TaskRun>, waiters: map<Client, Waiter>) {
    forall c | c in waiters :: WaiterSound(timers, runs, waiters[c])
  }

  predicate WaiterSound(timers: seq<Timer>, runs: seq<TaskRun>, w: Waiter) {
    && w.timer < |timers| && !timers[w.timer].armed && timers[w.timer].name == w.name
    && w.on < |runs| && runs[w.on].timer == w.timer
  }

  ghost predicate Sound(s: State) {
    && RecordsSound(s.timers, s.runs)
    && TimersSound(s.timers, s.concur)
    && RegistrySound(s.timers, s.registry)
    && WaitersSound(s.timers, s.runs, s.waiters)
  }

  // ---- every step keeps it ----

  lemma AddTimer(timers: seq<Timer>, tm: Timer, concur: bool, runs: seq<TaskRun>)
    requires RecordsSound(timers, runs) && TimersSound(timers, concur)
    requires tm.cos == [] && PhaseSound(tm, |timers|, concur)
    requires tm.interval ==>
               IsOver(timers, tm.job) && forall i | 0 <= i < |timers| && timers[i].interval :: timers[i].job != tm.job
    ensures RecordsSound(timers + [tm], runs) && TimersSound(timers + [tm], concur)
  {
    var more := timers + [tm];
    hide PhaseSound;
    forall i | 0 <= i < |more| && more[i].interval ensures IsOver(more, more[i].job) {
      if i < |timers| {
        assert IsOver(timers, timers[i].job);
      }
    }
  }

  /** A run starts. */
  lemma BeginRecords(timers: seq<Timer>, runs: seq<TaskRun>, i: nat, tm: Timer)
    requires RecordsSound(timers, runs) && i < |timers| && tm.cos == timers[i].cos
    ensures RecordsSound(timers[i := tm.(cos := tm.cos + [|runs|])], runs + [TaskRun(i, true, false)])
  {
    var more := timers[i := tm.(cos := tm.cos + [|runs|])];
    var all := runs + [TaskRun(i, true, false)];
    forall r | 0 <= r < |all| && all[r].active ensures r in more[all[r].timer].cos {
      if r == |runs| {
        assert more[i].cos[|tm.cos|] == r;
      } else if all[r].timer == i {
        assert r in timers[i].cos && more[i].cos == timers[i].cos + [|runs|];
      }
    }
  }

  /** A handle changes its phase within what its kind allows. */
  lemma ChangeTimer(timers: seq<Timer>, i: nat, tm: Timer, concur: bool)
    requires TimersSound(timers, concur) && i < |timers| && PhaseSound(tm, i, concur)
    requires tm.interval == timers[i].interval && tm.job == timers[i].job
    requires !tm.interval && IsOver(timers, i) ==> !tm.armed && tm.cos == []
    ensures TimersSound(timers[i := tm], concur)
  {
    hide PhaseSound;
    var more := timers[i := tm];
    forall j | 0 <= j < |more| && more[j].interval ensures IsOver(more, more[j].job) {
      assert IsOver(timers, timers[j].job);
    }
  }

  /** Waiters only look at handles that are off and at which run is whose. */
  lemma WaitersKeep(timers: seq<Timer>, runs: seq<TaskRun>, waiters: map<Client, Waiter>,
                    timers': seq<Timer>, runs': seq<TaskRun>)
    requires WaitersSound(timers, runs, waiters) && |timers| <= |timers'| && |runs| <= |runs'|
    requires forall i | 0 <= i < |timers| ::
               timers'[i].name == timers[i].name && (!timers[i].armed ==> !timers'[i].armed)
    requires forall r | 0 <= r < |runs| :: runs'[r].timer == runs[r].timer
    ensures WaitersSound(timers', runs', waiters)
  {
    forall c | c in waiters ensures WaiterSound(timers', runs', waiters[c]) {
      assert WaiterSound(timers, runs, waiters[c]);
    }
  }

  lemma ChangeRegistry(timers: seq<Timer>, registry: map<string, nat>, i: nat, tm: Timer)
    requires RegistrySound(timers, registry) && i < |timers|
    requires tm.name == timers[i].name && tm.interval == timers[i].interval && tm.job == timers[i].job
    ensures RegistrySound(timers[i := tm], registry)
  {
  }

  lemma BeginKeepsSound(s: State, i: nat, tm: Timer)
    requires Sound(s) && i < |s.timers| && tm == s.timers[i].(armed := tm.armed, fin := tm.fin)
    requires if tm.interval then tm.armed == s.timers[i].armed && !tm.fin && (s.timers[i].fin || s.concur)
             else s.timers[i].armed && !tm.armed
    ensures Sound(Begin(s, i, tm))
  {
    assert PhaseSound(s.timers[i], i, s.concur);
    hide RecordsSound, TimersSound, RegistrySound, WaitersSound;
    ChangeRegistry(s.timers, s.registry, i, tm.(cos := tm.cos + [|s.runs|]));
    BeginRecords(s.timers, s.runs, i, tm);
    ChangeTimer(s.timers, i, tm.(cos := tm.cos + [|s.runs|]), s.concur);
    var t := Begin(s, i, tm);
    WaitersKeep(s.timers, s.runs, s.waiters, t.timers, t.runs);
  }

  lemma {:induction false} WithoutIs(cos: seq<nat>, r: nat)
    requires forall k, l | 0 <= k < l < |cos| :: cos[k] != cos[l]
    ensures forall x :: x in Without(cos, r) <==> x in cos && x != r
    ensures forall k, l | 0 <= k < l < |Without(cos, r)| :: Without(cos, r)[k] != Without(cos, r)[l]
    ensures |Without(cos, r)| == |cos| - (if r in cos then 1 else 0)
  {
    if cos != [] {
      assert cos == [cos[0]] + cos[1..];
      if cos[0] != r {
        WithoutIs(cos[1..], r);
        var w := Without(cos[1..], r);
        forall k, l | 0 <= k < l < |Without(cos, r)| ensures Without(cos, r)[k] != Without(cos, r)[l] {
          assert Without(cos, r)[l] == w[l - 1];
          assert w[l - 1] in cos[1..];
        }
      }
    }
  }

  lemma WithoutStep(cos: seq<nat>, i: nat, r: nat)
    requires i < |cos|
    ensures Without(cos[i..], r) == if cos[i] == r then cos[i + 1..] else [cos[i]] + Without(cos[i + 1..], r)
  {
    assert cos[i..][1..] == cos[i + 1..];
  }

  lemma WithoutFront(cos: seq<nat>, i: nat, r: nat)
    requires i < |cos| && cos[i] != r
    ensures cos[..i] + Without(cos[i..], r) == cos[..i + 1] + Without(cos[i + 1..], r)
    ensures r in cos[i..] ==> r in cos[i + 1..]
  {
    WithoutStep(cos, i, r);
    assert cos[..i + 1] == cos[..i] + [cos[i]];
    assert cos[i..] == [cos[i]] + cos[i + 1..];
  }

  /** A run is finished and taken off its handle's record. */
  lemma FinishRecords(timers: seq<Timer>, runs: seq<TaskRun>, r: nat, tm: Timer)
    requires RecordsSound(timers, runs) && r < |runs| && runs[r].active
    requires tm.cos == Without(timers[runs[r].timer].cos, r)
    ensures RecordsSound(timers[runs[r].timer := tm], runs[r := runs[r].(active := false)])
  {
    var i := runs[r].timer;
    var cos := timers[i].cos;
    WithoutIs(cos, r);
    hide Without;
    var less, all := timers[i := tm], runs[r := runs[r].(active := false)];
    forall j, k | 0 <= j < |less| && 0 <= k < |less[j].cos|
      ensures less[j].cos[k] < |all| && all[less[j].cos[k]].active && all[less[j].cos[k]].timer == j
    {
      var q := less[j].cos[k];
      assert q in less[j].cos;
      var l :| 0 <= l < |timers[j].cos| && timers[j].cos[l] == q;
      assert runs[timers[j].cos[l]].timer == j;
    }
  }

  lemma OffIs(s: State, r: nat)
    requires Sound(s) && r < |s.runs| && s.runs[r].active
    ensures s.runs[r].timer < |s.timers|
    ensures var i := s.runs[r].timer;
            var off := Off(s.timers[i], r);
            && r in s.timers[i].cos && off.cos == Without(s.timers[i].cos, r)
            && PhaseSound(s.timers[i], i, s.concur) && PhaseSound(off, i, s.concur)
  {
    var i := s.runs[r].timer;
    assert PhaseSound(s.timers[i], i, s.concur);
    WithoutIs(s.timers[i].cos, r);
    assert |s.timers[i].cos| <= 1 ==> s.timers[i].cos == [r];
  }

  lemma FinishTimers(s: State, r: nat)
    requires Sound(s) && r < |s.runs| && s.runs[r].active && s.runs[r].timer < |s.timers|
    ensures RecordsSound(Finish(s, r).timers, Finish(s, r).runs) && TimersSound(Finish(s, r).timers, s.concur)
  {
    var i := s.runs[r].timer;
    var tm := s.timers[i];
    OffIs(s, r);
    var off := Off(tm, r);
    FinishRecords(s.timers, s.runs, r, off);
    ChangeTimer(s.timers, i, off, s.concur);
    if tm.periodic && !tm.interval {
      assert forall j | 0 <= j < |s.timers| && s.timers[j].interval :: IsOver(s.timers, s.timers[j].job);
      AddTimer(s.timers[i := off], Timer(tm.name, tm.job, true, true, true, true, []), s.concur,
               s.runs[r := s.runs[r].(active := false)]);
    }
    hide RecordsSound, TimersSound, Without;
  }

  lemma FinishRegistry(s: State, r: nat)
    requires Sound(s) && r < |s.runs| && s.runs[r].active && s.runs[r].timer < |s.timers|
    ensures RegistrySound(Finish(s, r).timers, Finish(s, r).registry)
  {
    OffIs(s, r);
    hide RecordsSound, TimersSound, PhaseSound, WaitersSound, Without;
  }

  lemma FinishWaiters(s: State, r: nat)
    requires Sound(s) && r < |s.runs| && s.runs[r].active && s.runs[r].timer < |s.timers|
    ensures WaitersSound(Finish(s, r).timers, Finish(s, r).runs, Finish(s, r).waiters)
  {
    hide RecordsSound, TimersSound, RegistrySound, WaitersSound, Without;
    WaitersKeep(s.timers, s.runs, s.waiters, Finish(s, r).timers, Finish(s, r).runs);
  }

  lemma FinishKeepsSound(s: State, r: nat)
    requires Sound(s) && r < |s.runs| && s.runs[r].active
    ensures s.runs[r].timer < |s.timers| && Sound(Finish(s, r))
  {
    OffIs(s, r);
    hide RecordsSound, TimersSound, RegistrySound, WaitersSound, PhaseSound, Without;
    FinishTimers(s, r);
    FinishRegistry(s, r);
    FinishWaiters(s, r);
  }

  lemma AskedRecords(timers: seq<Timer>, runs: seq<TaskRun>, r: nat)
    requires RecordsSound(timers, runs) && r < |runs|
    ensures RecordsSound(timers, runs[r := runs[r].(canceled := true)])
  {
  }

  lemma FirstRecorded(timers: seq<Timer>, runs: seq<TaskRun>, i: nat)
    requires RecordsSound(timers, runs) && i < |timers|
    ensures forall k | 0 <= k < |timers[i].cos| :: timers[i].cos[k] < |runs|
    ensures timers[i].cos != [] ==> runs[timers[i].cos[0]].timer == i
  {
  }

  lemma AwaitKeepsSound(s: State, c: Client, i: nat, name: string)
    requires Sound(s) && i < |s.timers| && !s.timers[i].armed && s.timers[i].name == name
    ensures Sound(Await(s, c, i, name))
  {
    FirstRecorded(s.timers, s.runs, i);
    hide TimersSound, RecordsSound, RegistrySound;
    if s.timers[i].cos != [] {
      AskedRecords(s.timers, s.runs, s.timers[i].cos[0]);
    }
    var t := Await(s, c, i, name);
    TakenOff(s.timers, s.registry, name);
    forall d | d in t.waiters ensures WaiterSound(t.timers, t.runs, t.waiters[d]) {
      if d != c {
        assert WaiterSound(s.timers, s.runs, s.waiters[d]);
      }
    }
  }

  lemma TakenOff(timers: seq<Timer>, registry: map<string, nat>, name: string)
    requires RegistrySound(timers, registry)
    ensures RegistrySound(timers, registry - {name})
  {
  }

  lemma DisarmRecords(timers: seq<Timer>, runs: seq<TaskRun>, i: nat)
    requires RecordsSound(timers, runs) && i < |timers|
    ensures RecordsSound(timers[i := timers[i].(armed := false)], runs)
  {
  }

  lemma DisarmKeepsSound(s: State, i: nat)
    requires Sound(s) && i < |s.timers|
    ensures Sound(SetTimer(s, i, s.timers[i].(armed := false)))
  {
    assert PhaseSound(s.timers[i], i, s.concur);
    hide TimersSound, RecordsSound, RegistrySound, WaitersSound;
    ChangeTimer(s.timers, i, s.timers[i].(armed := false), s.concur);
    DisarmRecords(s.timers, s.runs, i);
    ChangeRegistry(s.timers, s.registry, i, s.timers[i].(armed := false));
    WaitersKeep(s.timers, s.runs, s.waiters, s.timers[i := s.timers[i].(armed := false)], s.runs);
  }

  lemma CancelKeepsSound(s: State, c: Client, name: string, await: bool)
    requires Sound(s) && name in s.registry
    ensures Sound(Cancel(s, c, name, await))
  {
    var i := s.registry[name];
    DisarmKeepsSound(s, i);
    var t := SetTimer(s, i, s.timers[i].(armed := false));
    if await {
      AwaitKeepsSound(t, c, i, name);
    }
    hide TimersSound, RecordsSound, WaitersSound, Await;
  }

  /** Turning any of the handles off keeps the timers in order. */
  predicate OnlyDisarms(timers: seq<Timer>, timers': seq<Timer>) {
    && |timers'| == |timers|
    && forall i | 0 <= i < |timers| ::
         timers'[i] == timers[i].(armed := timers'[i].armed) && (timers'[i].armed ==> timers[i].armed)
  }

  lemma DisarmTimers(timers: seq<Timer>, timers': seq<Timer>, concur: bool, runs: seq<TaskRun>)
    requires TimersSound(timers, concur) && RecordsSound(timers, runs) && OnlyDisarms(timers, timers')
    ensures TimersSound(timers', concur) && RecordsSound(timers', runs)
  {
    forall i | 0 <= i < |timers'| ensures PhaseSound(timers'[i], i, concur) {
      assert PhaseSound(timers[i], i, concur);
    }
    hide PhaseSound;
    forall i | 0 <= i < |timers'| && timers'[i].interval ensures IsOver(timers', timers'[i].job) {
      assert IsOver(timers, timers[i].job);
    }
  }

  lemma CancelAllKeepsSound(s: State, close: bool)
    requires Sound(s)
    ensures Sound(CancelAll(s, close))
  {
    var t := CancelAll(s, close);
    DisarmTimers(s.timers, t.timers, s.concur, s.runs);
    hide TimersSound, RecordsSound, WaitersSound;
    WaitersKeep(s.timers, s.runs, s.waiters, t.timers, t.runs);
  }

  lemma ScheduleKeepsSound(s: State, name: string, periodic: bool)
    requires Sound(s) && !s.closed && name !in s.registry
    ensures Sound(Schedule(s, name, periodic).value)
  {
    AddTimer(s.timers, Timer(name, |s.timers|, periodic, false, true, true, []), s.concur, s.runs);
    hide TimersSound, RecordsSound;
  }

  lemma NextKeepsSound(s: State, a: Action)
    requires Sound(s) && Enabled(s, a)
    ensures Sound(Next(s, a))
  {
    match a
    case ScheduleAction(name, periodic) => ScheduleKeepsSound(s, name, periodic);
    case FireAction(i) =>
      assert PhaseSound(s.timers[i], i, s.concur);
      hide Sound, Begin;
      BeginKeepsSound(s, i, s.timers[i].(armed := false, cos := []));
    case TickAction(i) =>
      hide Sound, Begin;
      if s.timers[i].fin || s.concur {
        BeginKeepsSound(s, i, s.timers[i].(fin := false));
      }
    case FinishAction(r) => hide Sound, Finish; FinishKeepsSound(s, r);
    case CancelAction(c, name, await) =>
      if name in s.registry {
        hide Sound;
        CancelKeepsSound(s, c, name, await);
      }
    case ResumeAction(c) =>
      assert WaiterSound(s.timers, s.runs, s.waiters[c]);
      hide Sound, Await;
      AwaitKeepsSound(s, c, s.waiters[c].timer, s.waiters[c].name);
    case CancelAllAction(close) => CancelAllKeepsSound(s, close);
  }

  // ---- theorems about runs ----

  ghost predicate Run(s: State, run: seq<Action>, t: State)
    decreases |run|
  {
    if run == [] then s == t
    else Sound(s) && Enabled(s, run[0]) && Run(Next(s, run[0]), run[1..], t)
  }

  lemma {:induction false} RunKeepsSound(s: State, run: seq<Action>, t: State)
    requires Sound(s) && Run(s, run, t)
    ensures Sound(t)
    decreases |run|
  {
    hide Sound, Next;
    if run != [] {
      NextKeepsSound(s, run[0]);
      RunKeepsSound(Next(s, run[0]), run[1..], t);
    }
  }

  function Empty(concur: bool): State {
    State(concur, false, [], map[], [], map[])
  }

  function JobOf(s: State, r: nat): nat
    requires r < |s.runs| && s.runs[r].timer < |s.timers|
  {
    s.timers[s.runs[r].timer].job
  }

  /** In every run of the scheduler, the coroutines a handle records are exactly
      the active runs it started; and unless runs may overlap, two active runs
      never come from the same schedule call. */
  lemma RunsDoNotOverlap(concur: bool, run: seq<Action>, t: State)
    requires Run(Empty(concur), run, t)
    ensures forall i, r | 0 <= i < |t.timers| && 0 <= r < |t.runs| ::
              r in t.timers[i].cos <==> t.runs[r].active && t.runs[r].timer == i
    ensures forall r | 0 <= r < |t.runs| :: t.runs[r].timer < |t.timers|
    ensures !t.concur ==> forall r, q | 0 <= r < q < |t.runs| && t.runs[r].active && t.runs[q].active ::
                            JobOf(t, r) != JobOf(t, q)
  {
    RunKeepsSound(Empty(concur), run, t);
    hide Run;
    forall i, r | 0 <= i < |t.timers| && 0 <= r < |t.runs| && r in t.timers[i].cos
      ensures t.runs[r].active && t.runs[r].timer == i
    {
      var k :| 0 <= k < |t.timers[i].cos| && t.timers[i].cos[k] == r;
    }
    if !t.concur {
      forall r, q | 0 <= r < q < |t.runs| && t.runs[r].active && t.runs[q].active ensures JobOf(t, r) != JobOf(t, q) {
        Apart(t, r, q);
      }
    }
  }

  lemma Apart(s: State, r: nat, q: nat)
    requires Sound(s) && !s.concur && r < q < |s.runs| && s.runs[r].active && s.runs[q].active
    ensures JobOf(s, r) != JobOf(s, q)
  {
    var i, j := s.runs[r].timer, s.runs[q].timer;
    assert r in s.timers[i].cos && q in s.timers[j].cos;
    assert PhaseSound(s.timers[i], i, s.concur) && PhaseSound(s.timers[j], j, s.concur);
    if s.timers[i].interval {
      assert IsOver(s.timers, s.timers[i].job);
    }
    if s.timers[j].interval {
      assert IsOver(s.timers, s.timers[j].job);
    }
  }

  // ---- what a cancel achieves ----

  /** No run of the job will start: its handles are off, and no first run of a
      periodic task is going on. */
  predicate Ending(s: State, job: nat) {
    forall i | 0 <= i < |s.timers| && s.timers[i].job == job :: EndingTimer(s.timers[i])
  }

  predicate EndingTimer(tm: Timer) {
    !tm.armed && (tm.interval || !tm.periodic || tm.cos == [])
  }

  /** Runs that started after s belong to other jobs. */
  predicate NoNewRuns(s: State, t: State, job: nat) {
    forall r | |s.runs| <= r < |t.runs| :: t.runs[r].timer < |t.timers| && JobOf(t, r) != job
  }

  predicate NoNewTimers(s: State, t: State, job: nat) {
    forall i | |s.timers| <= i < |t.timers| :: t.timers[i].job != job
  }

  /** Handles and runs stay what they are. */
  predicate Grows(s: State, t: State) {
    && |s.timers| <= |t.timers| && |s.runs| <= |t.runs|
    && (forall i | 0 <= i < |s.timers| ::
          t.timers[i].job == s.timers[i].job && t.timers[i].interval == s.timers[i].interval
          && t.timers[i].periodic == s.timers[i].periodic && t.timers[i].name == s.timers[i].name)
    && (forall r | 0 <= r < |s.runs| :: t.runs[r].timer == s.runs[r].timer)
  }

  lemma BeginGrows(s: State, i: nat, tm: Timer)
    requires i < |s.timers| && tm.job == s.timers[i].job && tm.interval == s.timers[i].interval
    requires tm.periodic == s.timers[i].periodic && tm.name == s.timers[i].name
    ensures Grows(s, Begin(s, i, tm))
  {
  }

  lemma FinishGrows(s: State, r: nat)
    requires r < |s.runs| && s.runs[r].timer < |s.timers|
    ensures Grows(s, Finish(s, r))
  {
    hide Without;
  }

  lemma AwaitGrows(s: State, c: Client, i: nat, name: string)
    requires i < |s.timers| && forall k | 0 <= k < |s.timers[i].cos| :: s.timers[i].cos[k] < |s.runs|
    ensures Grows(s, Await(s, c, i, name)) && Await(s, c, i, name).timers == s.timers
    ensures |Await(s, c, i, name).runs| == |s.runs| && Await(s, c, i, name).closed == s.closed
  {
  }

  lemma CancelFits(s: State, name: string)
    requires Sound(s) && name in s.registry
    ensures var i := s.registry[name];
            i < |s.timers| && forall k | 0 <= k < |s.timers[i].cos| :: s.timers[i].cos[k] < |s.runs|
  {
  }

  lemma CancelGrows(s: State, c: Client, name: string, await: bool)
    requires Sound(s)
    ensures name in s.registry ==> s.registry[name] < |s.timers|
    ensures Grows(s, Cancel(s, c, name, await))
  {
    hide Await, Sound;
    if name in s.registry {
      var i := s.registry[name];
      CancelFits(s, name);
      AwaitGrows(SetTimer(s, i, s.timers[i].(armed := false)), c, i, name);
    }
  }

  lemma NextGrows(s: State, a: Action)
    requires Sound(s) && Enabled(s, a)
    ensures Grows(s, Next(s, a))
  {
    hide Begin, Finish, Cancel, CancelAll, Await, Grows, Off;
    match a
    case ScheduleAction(name, periodic) =>
      hide Sound;
      AddGrows(s, name, periodic);
    case FireAction(i) => hide Sound; BeginGrows(s, i, s.timers[i].(armed := false, cos := []));
    case TickAction(i) =>
      hide Sound;
      AddGrows(s, s.timers[i].name, false);
      BeginGrows(s, i, s.timers[i].(fin := false));
    case FinishAction(r) =>
      OffIs(s, r);
      FinishGrows(s, r);
    case CancelAction(c, name, await) => CancelGrows(s, c, name, await);
    case ResumeAction(c) =>
      assert WaiterSound(s.timers, s.runs, s.waiters[c]);
      AwaitGrows(s, c, s.waiters[c].timer, s.waiters[c].name);
    case CancelAllAction(close) => CancelAllGrows(s, close);
  }

  lemma CancelAllGrows(s: State, close: bool)
    ensures Grows(s, CancelAll(s, close))
  {
  }

  lemma AddGrows(s: State, name: string, periodic: bool)
    ensures !s.closed && name !in s.registry ==> Grows(s, Schedule(s, name, periodic).value)
    ensures Grows(s, s)
  {
  }

  predicate StillEnding(s: State, t: State, job: nat) {
    && Ending(t, job) && NoNewRuns(s, t, job) && NoNewTimers(s, t, job)
    && |s.timers| <= |t.timers|
    && forall i | 0 <= i < |s.timers| && s.timers[i].job == job && s.timers[i].cos == [] :: t.timers[i].cos == []
  }

  lemma BeginKeepsEnding(s: State, i: nat, tm: Timer, job: nat)
    requires Ending(s, job) && i < |s.timers| && tm.job == s.timers[i].job != job
    ensures StillEnding(s, Begin(s, i, tm), job)
  {
  }

  lemma FinishKeepsEnding(s: State, r: nat, job: nat)
    requires Ending(s, job) && r < |s.runs| && s.runs[r].timer < |s.timers|
    requires r in s.timers[s.runs[r].timer].cos
    ensures StillEnding(s, Finish(s, r), job)
  {
    var i := s.runs[r].timer;
    assert s.timers[i].job == job ==> EndingTimer(s.timers[i]);
    assert Off(s.timers[i], r).cos == [] || s.timers[i].cos != [];
    hide Without;
  }

  lemma DisarmKeepsEnding(s: State, i: nat, job: nat)
    requires Ending(s, job) && i < |s.timers|
    ensures StillEnding(s, SetTimer(s, i, s.timers[i].(armed := false)), job)
  {
  }

  lemma CancelKeepsEnding(s: State, c: Client, name: string, await: bool, job: nat)
    requires Sound(s) && Ending(s, job)
    ensures name in s.registry ==> s.registry[name] < |s.timers|
    ensures StillEnding(s, Cancel(s, c, name, await), job)
  {
    hide Await, Sound;
    if name in s.registry {
      var i := s.registry[name];
      CancelFits(s, name);
      AwaitGrows(SetTimer(s, i, s.timers[i].(armed := false)), c, i, name);
      DisarmKeepsEnding(s, i, job);
    }
  }

  lemma ScheduleKeepsEnding(s: State, name: string, periodic: bool, job: nat)
    requires Ending(s, job) && job < |s.timers|
    ensures !s.closed && name !in s.registry ==> StillEnding(s, Schedule(s, name, periodic).value, job)
    ensures StillEnding(s, s, job)
  {
  }

  lemma AwaitKeepsEnding(s: State, c: Client, job: nat)
    requires Sound(s) && c in s.waiters && Ending(s, job)
    ensures var w := s.waiters[c];
            && w.timer < |s.timers|
            && (forall k | 0 <= k < |s.timers[w.timer].cos| :: s.timers[w.timer].cos[k] < |s.runs|)
            && StillEnding(s, Await(s, c, w.timer, w.name), job)
  {
    assert WaiterSound(s.timers, s.runs, s.waiters[c]);
    AwaitGrows(s, c, s.waiters[c].timer, s.waiters[c].name);
    hide Await, TimersSound, RegistrySound, WaitersSound;
  }

  /** A handle that is off and cannot make another stays so, and starts no run. */
  lemma NextKeepsEnding(s: State, a: Action, job: nat)
    requires Sound(s) && Enabled(s, a) && Ending(s, job) && job < |s.timers|
    ensures StillEnding(s, Next(s, a), job)
  {
    hide Begin, Finish, Cancel, CancelAll, Await, StillEnding, Off;
    match a
    case ScheduleAction(name, periodic) =>
      hide Sound;
      ScheduleKeepsEnding(s, name, periodic, job);
    case FireAction(i) =>
      FireIsOther(s, i, job);
      hide Sound;
      BeginKeepsEnding(s, i, s.timers[i].(armed := false, cos := []), job);
    case TickAction(i) =>
      FireIsOther(s, i, job);
      hide Sound;
      ScheduleKeepsEnding(s, "", false, job);
      BeginKeepsEnding(s, i, s.timers[i].(fin := false), job);
    case FinishAction(r) =>
      OffIs(s, r);
      FinishKeepsEnding(s, r, job);
    case CancelAction(c, name, await) => CancelKeepsEnding(s, c, name, await, job);
    case ResumeAction(c) => AwaitKeepsEnding(s, c, job);
    case CancelAllAction(close) => CancelAllKeepsEnding(s, close, job);
  }

  lemma CancelAllKeepsEnding(s: State, close: bool, job: nat)
    requires Ending(s, job)
    ensures StillEnding(s, CancelAll(s, close), job)
  {
    var t := CancelAll(s, close);
    forall i | 0 <= i < |t.timers| && t.timers[i].job == job ensures EndingTimer(t.timers[i]) {
      assert EndingTimer(s.timers[i]);
    }
  }

  lemma FireIsOther(s: State, i: nat, job: nat)
    requires Ending(s, job) && i < |s.timers| && s.timers[i].armed
    ensures s.timers[i].job != job
  {
    assert s.timers[i].job == job ==> EndingTimer(s.timers[i]);
  }

  lemma {:induction false} EndingForGood(s: State, run: seq<Action>, t: State, job: nat)
    requires Sound(s) && Run(s, run, t) && Ending(s, job) && job < |s.timers|
    ensures StillEnding(s, t, job) && Grows(s, t)
    decreases |run|
  {
    hide Sound, Next, Ending;
    if run != [] {
      var n := Next(s, run[0]);
      NextKeepsSound(s, run[0]);
      NextKeepsEnding(s, run[0], job);
      NextGrows(s, run[0]);
      EndingForGood(n, run[1..], t, job);
    }
  }

  /** No run of the job starts in any run of the scheduler from here. */
  ghost predicate NeverAgain(s: State, job: nat) {
    forall run, t | Run(s, run, t) :: NoNewRuns(s, t, job)
  }

  predicate FirstRunActive(tm: Timer) {
    tm.periodic && !tm.interval && tm.cos != []
  }

  /** A cancel, waiting or not, stops its task for good exactly when it does not
      come during the first run of a periodic task: that run goes on to make the
      interval timer, which nobody turns off. */
  lemma CancelStopsIff(s: State, c: Client, name: string, await: bool)
    requires Sound(s) && c !in s.waiters && name in s.registry && s.registry[name] < |s.timers|
    ensures var tm := s.timers[s.registry[name]];
            NeverAgain(Next(s, CancelAction(c, name, await)), tm.job) <==> !FirstRunActive(tm)
  {
    var i := s.registry[name];
    var tm := s.timers[i];
    var a := CancelAction(c, name, await);
    var t := Next(s, a);
    NextKeepsSound(s, a);
    assert PhaseSound(tm, i, s.concur);
    if FirstRunActive(tm) {
      LaterRun(t, tm.cos[0], i);
    } else {
      CancelIsEnding(s, c, name, await);
      forall run, u | Run(t, run, u) ensures NoNewRuns(t, u, tm.job) {
        EndingForGood(t, run, u, tm.job);
      }
    }
  }

  lemma CancelIsEnding(s: State, c: Client, name: string, await: bool)
    requires Sound(s) && c !in s.waiters && name in s.registry && s.registry[name] < |s.timers|
    requires !FirstRunActive(s.timers[s.registry[name]])
    ensures var job := s.timers[s.registry[name]].job;
            var t := Next(s, CancelAction(c, name, await));
            && Ending(t, job) && job < |t.timers|
            && forall k | 0 <= k < |t.timers| && t.timers[k].job == job && k != s.registry[name] ::
                 t.timers[k].cos == []
  {
    var i := s.registry[name];
    OtherHandles(s, name);
    var t := SetTimer(s, i, s.timers[i].(armed := false));
    AwaitGrows(t, c, i, name);
    hide Await, RecordsSound, TimersSound, WaitersSound;
  }

  /** The registered handle of a job is the one that counts. */
  lemma OtherHandles(s: State, name: string)
    requires Sound(s) && name in s.registry
    ensures var i := s.registry[name];
            && i < |s.timers| && s.timers[i].job < |s.timers|
            && forall k | 0 <= k < |s.timers| && s.timers[k].job == s.timers[i].job && k != i ::
                 EndingTimer(s.timers[k]) && s.timers[k].cos == []
  {
    var i := s.registry[name];
    hide RecordsSound, WaitersSound;
    assert PhaseSound(s.timers[i], i, s.concur);
    if s.timers[i].interval {
      assert IsOver(s.timers, s.timers[i].job);
    }
    forall k | 0 <= k < |s.timers| && s.timers[k].job == s.timers[i].job && k != i
      ensures EndingTimer(s.timers[k]) && s.timers[k].cos == []
    {
      assert PhaseSound(s.timers[k], k, s.concur);
    }
  }

  /** When the first run of a periodic task finishes, a tick starts another. */
  lemma LaterRun(s: State, r: nat, i: nat)
    requires Sound(s) && r < |s.runs| && s.runs[r].active && s.runs[r].timer == i < |s.timers|
    requires s.timers[i].periodic && !s.timers[i].interval
    ensures !NeverAgain(s, s.timers[i].job)
  {
    var n := Next(s, FinishAction(r));
    NextKeepsSound(s, FinishAction(r));
    var tick := TickAction(|s.timers|);
    var t := Next(n, tick);
    NextKeepsSound(n, tick);
    hide Sound;
    assert Run(t, [], t);
    assert [FinishAction(r), tick][1..] == [tick] && [tick][1..] == [];
    assert Run(n, [tick], t);
    assert Run(s, [FinishAction(r), tick], t);
    assert t.runs[|s.runs|] == TaskRun(|s.timers|, true, false) && JobOf(t, |s.runs|) == s.timers[i].job;
  }

  /** A waiting client waits for its timer until that one has no active run. */
  predicate WaitsOrQuiet(s: State, c: Client, i: nat)
    requires i < |s.timers|
  {
    (c in s.waiters && s.waiters[c].timer == i) || s.timers[i].cos == []
  }

  lemma WaiterStays(s: State, a: Action, c: Client)
    requires Sound(s) && Enabled(s, a) && c in s.waiters && a != ResumeAction(c)
    ensures c in Next(s, a).waiters && Next(s, a).waiters[c] == s.waiters[c]
  {
    match a
    case FinishAction(r) =>
      OffIs(s, r);
      hide Sound, Off;
    case _ =>
      hide TimersSound, RecordsSound, WaitersSound;
  }

  lemma WaitsOrQuietStep(s: State, a: Action, c: Client, i: nat)
    requires Sound(s) && Enabled(s, a) && i < |s.timers| && Ending(s, s.timers[i].job)
    requires s.timers[i].job < |s.timers| && WaitsOrQuiet(s, c, i)
    ensures i < |Next(s, a).timers| && WaitsOrQuiet(Next(s, a), c, i)
  {
    NextKeepsEnding(s, a, s.timers[i].job);
    if s.timers[i].cos != [] {
      if a == ResumeAction(c) {
        assert WaiterSound(s.timers, s.runs, s.waiters[c]);
        hide RecordsSound, TimersSound, RegistrySound, WaitersSound, Ending;
      } else {
        WaiterStays(s, a, c);
        hide Sound, Next, Ending;
      }
    }
    hide Sound, Next;
  }

  lemma {:induction false} QuietWhenDone(s: State, c: Client, i: nat, run: seq<Action>, t: State)
    requires Sound(s) && Run(s, run, t) && i < |s.timers| && Ending(s, s.timers[i].job)
    requires s.timers[i].job < |s.timers| && WaitsOrQuiet(s, c, i)
    ensures i < |t.timers| && WaitsOrQuiet(t, c, i)
    decreases |run|
  {
    hide Sound, Next, Ending, WaitsOrQuiet;
    if run != [] {
      NextKeepsSound(s, run[0]);
      NextKeepsEnding(s, run[0], s.timers[i].job);
      NextGrows(s, run[0]);
      WaitsOrQuietStep(s, run[0], c, i);
      QuietWhenDone(Next(s, run[0]), c, i, run[1..], t);
    }
  }

  /** An awaited cancel that does not come during a first run returns only when
      no run of the task is active, and none ever starts again. */
  lemma AwaitedCancelIsFinal(s: State, c: Client, name: string, run: seq<Action>, t: State)
    requires Sound(s) && c !in s.waiters && name in s.registry && s.registry[name] < |s.timers|
    requires !FirstRunActive(s.timers[s.registry[name]])
    requires Run(Next(s, CancelAction(c, name, true)), run, t) && c !in t.waiters
    ensures var job := s.timers[s.registry[name]].job;
            && NeverAgain(t, job)
            && forall r | 0 <= r < |t.runs| && t.runs[r].active :: t.runs[r].timer < |t.timers| && JobOf(t, r) != job
  {
    var i := s.registry[name];
    var job := s.timers[i].job;
    var n := Next(s, CancelAction(c, name, true));
    NextKeepsSound(s, CancelAction(c, name, true));
    CancelIsEnding(s, c, name, true);
    EndingForGood(n, run, t, job);
    assert n.timers[i].job == job;
    QuietWhenDone(n, c, i, run, t);
    RunKeepsSound(n, run, t);
    forall more, u | Run(t, more, u) ensures NoNewRuns(t, u, job) {
      EndingForGood(t, more, u, job);
    }
    forall r | 0 <= r < |t.runs| && t.runs[r].active ensures t.runs[r].timer < |t.timers| && JobOf(t, r) != job {
      assert r in t.timers[t.runs[r].timer].cos;
    }
  }

  // ---- what a shutdown achieves ----

  /** Closed, with nothing that could start a run. */
  predicate Stopped(s: State) {
    s.closed && forall i | 0 <= i < |s.timers| :: EndingTimer(s.timers[i])
  }

  lemma FinishKeepsStopped(s: State, r: nat)
    requires Sound(s) && r < |s.runs| && s.runs[r].active && Stopped(s)
    ensures s.runs[r].timer < |s.timers| && Stopped(Finish(s, r)) && |Finish(s, r).runs| == |s.runs|
  {
    OffIs(s, r);
    hide Sound, Without;
    assert EndingTimer(s.timers[s.runs[r].timer]);
  }

  lemma CancelKeepsStopped(s: State, c: Client, name: string, await: bool)
    requires Sound(s) && name in s.registry && Stopped(s)
    ensures s.registry[name] < |s.timers|
    ensures Stopped(Cancel(s, c, name, await)) && |Cancel(s, c, name, await).runs| == |s.runs|
  {
    CancelFits(s, name);
    hide Sound, Await;
    var i := s.registry[name];
    AwaitGrows(SetTimer(s, i, s.timers[i].(armed := false)), c, i, name);
  }

  lemma CancelAllKeepsStopped(s: State, close: bool)
    requires Stopped(s)
    ensures Stopped(CancelAll(s, close)) && CancelAll(s, close).runs == s.runs
  {
    var t := CancelAll(s, close);
    forall i | 0 <= i < |t.timers| ensures EndingTimer(t.timers[i]) {
      assert EndingTimer(s.timers[i]);
    }
  }

  lemma NextKeepsStopped(s: State, a: Action)
    requires Sound(s) && Enabled(s, a) && Stopped(s)
    ensures Stopped(Next(s, a)) && |Next(s, a).runs| == |s.runs|
  {
    hide Sound, Finish, Cancel, CancelAll, Await;
    match a
    case FinishAction(r) => FinishKeepsStopped(s, r);
    case CancelAction(c, name, await) =>
      if name in s.registry {
        CancelKeepsStopped(s, c, name, await);
      } else {
        CancelNothing(s, c, name, await);
      }
    case ResumeAction(c) => AwaitKeepsStopped(s, c);
    case CancelAllAction(close) => CancelAllKeepsStopped(s, close);
    case _ =>
  }

  lemma CancelNothing(s: State, c: Client, name: string, await: bool)
    requires name !in s.registry
    ensures Cancel(s, c, name, await) == s
  {
  }

  lemma AwaitKeepsStopped(s: State, c: Client)
    requires Sound(s) && c in s.waiters && Stopped(s)
    ensures var w := s.waiters[c];
            && w.timer < |s.timers|
            && (forall k | 0 <= k < |s.timers[w.timer].cos| :: s.timers[w.timer].cos[k] < |s.runs|)
            && Stopped(Await(s, c, w.timer, w.name)) && |Await(s, c, w.timer, w.name).runs| == |s.runs|
  {
    assert WaiterSound(s.timers, s.runs, s.waiters[c]);
    AwaitGrows(s, c, s.waiters[c].timer, s.waiters[c].name);
    hide Await, TimersSound, RegistrySound, WaitersSound;
  }

  lemma {:induction false} StoppedForGood(s: State, run: seq<Action>, t: State)
    requires Sound(s) && Run(s, run, t) && Stopped(s)
    ensures |t.runs| == |s.runs|
    decreases |run|
  {
    hide Sound, Next, Stopped;
    if run != [] {
      NextKeepsSound(s, run[0]);
      NextKeepsStopped(s, run[0]);
      StoppedForGood(Next(s, run[0]), run[1..], t);
    }
  }

  /** Nothing starts in any run of the scheduler from here. */
  ghost predicate Silent(s: State) {
    forall run, t | Run(s, run, t) :: |t.runs| == |s.runs|
  }

  lemma OneMore(s: State, a: Action)
    requires Sound(s) && Enabled(s, a) && |Next(s, a).runs| > |s.runs|
    ensures !Silent(s)
  {
    hide Next, Enabled, Sound;
    var t := Next(s, a);
    assert Run(t, [], t);
    Chain(s, a, [], t);
  }

  lemma LaterMore(s: State, a: Action)
    requires Sound(s) && Enabled(s, a) && !Silent(Next(s, a)) && |Next(s, a).runs| == |s.runs|
    ensures !Silent(s)
  {
    hide Next, Enabled, Sound;
    var run, t :| Run(Next(s, a), run, t) && |t.runs| != |Next(s, a).runs|;
    Chain(s, a, run, t);
  }

  /** An armed timer can always start a run, if only after the one before ends. */
  lemma ArmedStarts(s: State, i: nat)
    requires Sound(s) && i < |s.timers| && s.timers[i].armed
    ensures !Silent(s)
  {
    assert PhaseSound(s.timers[i], i, s.concur);
    if !s.timers[i].interval {
      hide Sound;
      OneMore(s, FireAction(i));
    } else if s.timers[i].fin || s.concur {
      hide Sound;
      OneMore(s, TickAction(i));
    } else {
      var r := s.timers[i].cos[0];
      assert s.runs[s.timers[i].cos[0]].active;
      OffIs(s, r);
      NextKeepsSound(s, FinishAction(r));
      hide Sound, Without;
      OneMore(Next(s, FinishAction(r)), TickAction(i));
      LaterMore(s, FinishAction(r));
    }
  }

  /** After a shutdown nothing ever starts again, in any run of the scheduler,
      exactly when every armed timer was still registered and no periodic task
      was in its first run. */
  lemma ShutdownSilencesIff(s: State)
    requires Sound(s)
    ensures Silent(CancelAll(s, true)) <==>
              forall i | 0 <= i < |s.timers| :: (s.timers[i].armed ==> Registered(s, i)) && !FirstRunActive(s.timers[i])
  {
    var t := CancelAll(s, true);
    CancelAllKeepsSound(s, true);
    if forall i | 0 <= i < |s.timers| :: (s.timers[i].armed ==> Registered(s, i)) && !FirstRunActive(s.timers[i]) {
      assert Stopped(t);
      forall run, u | Run(t, run, u) ensures |u.runs| == |t.runs| {
        StoppedForGood(t, run, u);
      }
    } else {
      var i :| 0 <= i < |s.timers| && ((s.timers[i].armed && !Registered(s, i)) || FirstRunActive(s.timers[i]));
      if s.timers[i].armed && !Registered(s, i) {
        ArmedStarts(t, i);
      } else {
        FirstRunGoesOn(t, i);
      }
    }
  }

  lemma FirstRunGoesOn(s: State, i: nat)
    requires Sound(s) && i < |s.timers| && FirstRunActive(s.timers[i])
    ensures !Silent(s)
  {
    var r := s.timers[i].cos[0];
    assert s.runs[s.timers[i].cos[0]].timer == i;
    LaterRun(s, r, i);
    hide Sound;
    var run, t :| Run(s, run, t) && !NoNewRuns(s, t, s.timers[i].job);
  }

  /** The names of the registry are not safe: an awaited cancel takes its name
      off at the end, even if a task was scheduled under it in the meantime, whose
      armed timer nobody can cancel then. */
  lemma CancelUnregistersLater(name: string)
    ensures exists run, t :: Run(Empty(false), run, t) && t.registry == map[] && |t.timers| == 2 && t.timers[1].armed
  {
    hide Next, Run;
    var run, s := TaskScheduled(name);
    var fire, t := TaskStarts(s, name);
    var next, u := CancelWaits(t, name);
    var more, v := NameTakenAgain(u, name);
    RunTwice(Empty(false), run, s, fire, t);
    RunTwice(Empty(false), run + fire, t, next, u);
    RunTwice(Empty(false), run + fire + next, u, more, v);
  }

  /** The timer of a one-shot task that went off. */
  function OneShot(name: string, cos: seq<nat>): seq<Timer> {
    [Timer(name, 0, false, false, false, true, cos)]
  }

  lemma TaskScheduled(name: string) returns (run: seq<Action>, t: State)
    ensures Run(Empty(false), run, t) && Sound(t)
    ensures t == State(false, false, [Timer(name, 0, false, false, true, true, [])], map[name := 0], [], map[])
  {
    assert Sound(Empty(false));
    hide Sound, Finish, Fire, Tick, Await, Cancel;
    t := Step(Empty(false), ScheduleAction(name, false));
    assert t.timers == [Timer(name, 0, false, false, true, true, [])];
    hide Next, Enabled;
    assert Run(t, [], t);
    run := [ScheduleAction(name, false)] + [];
    Chain(Empty(false), ScheduleAction(name, false), [], t);
  }

  lemma TaskStarts(s: State, name: string) returns (run: seq<Action>, t: State)
    requires Sound(s)
    requires s == State(false, false, [Timer(name, 0, false, false, true, true, [])], map[name := 0], [], map[])
    ensures Run(s, run, t) && Sound(t)
    ensures t == State(false, false, OneShot(name, [0]), map[name := 0], [TaskRun(0, true, false)], map[])
  {
    hide Sound, Finish, Tick, Await, Cancel;
    t := Step(s, FireAction(0));
    assert t.timers[0].cos == [0];
    assert t.timers == OneShot(name, [0]);
    hide Next, Enabled;
    assert Run(t, [], t);
    run := [FireAction(0)] + [];
    Chain(s, FireAction(0), [], t);
  }

  lemma CancelWaits(s: State, name: string) returns (run: seq<Action>, t: State)
    requires Sound(s)
    requires s == State(false, false, OneShot(name, [0]), map[name := 0], [TaskRun(0, true, false)], map[])
    ensures Run(s, run, t) && Sound(t)
    ensures t == State(false, false, OneShot(name, [0]), map[name := 0], [TaskRun(0, true, true)],
                       map[0 := Waiter(0, name, 0)])
  {
    hide Sound, Finish, Fire, Tick, Schedule;
    t := Step(s, CancelAction(0, name, true));
    assert t.timers == s.timers && t.runs == [TaskRun(0, true, true)];
    hide Next, Enabled;
    assert Run(t, [], t);
    run := [CancelAction(0, name, true)] + [];
    Chain(s, CancelAction(0, name, true), [], t);
  }

  /** The task ends, its name is used again, and then the cancel goes on. */
  lemma NameTakenAgain(s: State, name: string) returns (run: seq<Action>, t: State)
    requires Sound(s)
    requires s == State(false, false, OneShot(name, [0]), map[name := 0], [TaskRun(0, true, true)],
                        map[0 := Waiter(0, name, 0)])
    ensures Run(s, run, t) && t.registry == map[] && |t.timers| == 2 && t.timers[1].armed
  {
    hide Sound, Fire, Tick, Cancel;
    var s1 := Step(s, FinishAction(0));
    assert s1.timers == OneShot(name, []) && s1.registry == map[];
    var s2 := Step(s1, ScheduleAction(name, false));
    t := Step(s2, ResumeAction(0));
    hide Next, Enabled;
    var r3 := ResumeAction(0);
    assert Run(t, [], t);
    Chain(s2, r3, [], t);
    Chain(s1, ScheduleAction(name, false), [r3] + [], t);
    run := [FinishAction(0)] + ([ScheduleAction(name, false)] + ([r3] + []));
    Chain(s, FinishAction(0), [ScheduleAction(name, false)] + ([r3] + []), t);
  }

  lemma {:induction false} RunTwice(s: State, run: seq<Action>, t: State, more: seq<Action>, u: State)
    requires Run(s, run, t) && Run(t, more, u)
    ensures Run(s, run + more, u)
    decreases |run|
  {
    if run == [] {
      assert run + more == more;
    } else {
      RunTwice(Next(s, run[0]), run[1..], t, more, u);
      assert (run + more)[1..] == run[1..] + more;
    }
  }

  lemma Step(s: State, a: Action) returns (t: State)
    requires Sound(s) && Enabled(s, a)
    ensures t == Next(s, a) && Sound(t)
  {
    NextKeepsSound(s, a);
    t := Next(s, a);
  }

  lemma Chain(s: State, a: Action, run: seq<Action>, t: State)
    requires Sound(s) && Enabled(s, a) && Run(Next(s, a), run, t)
    ensures Run(s, [a] + run, t)
  {
    assert ([a] + run)[1..] == run;
  }

  // ---- turning timers off one by one ----

  /** The registered timers are off except those of some names. */
  predicate Disarmed(s: State, names: set<string>, timers: seq<Timer>) {
    && |timers| == |s.timers|
    && forall i | 0 <= i < |timers| ::
         timers[i] == if Registered(s, i) && s.timers[i].name !in names then s.timers[i].(armed := false)
                      else s.timers[i]
  }

  lemma RegistryIsSound(s: State)
    requires Sound(s)
    ensures RegistrySound(s.timers, s.registry)
  {
  }

  lemma NoneDisarmed(s: State, names: set<string>)
    requires names == s.registry.Keys
    ensures Disarmed(s, names, s.timers)
  {
  }

  lemma DisarmNext(s: State, names: set<string>, timers: seq<Timer>, name: string)
    requires RegistrySound(s.timers, s.registry) && name in names && names <= s.registry.Keys
    requires Disarmed(s, names, timers)
    ensures s.registry[name] < |timers|
    ensures var i := s.registry[name]; Disarmed(s, names - {name}, timers[i := timers[i].(armed := false)])
  {
    assert s.registry[name] < |s.timers| && s.timers[s.registry[name]].name == name;
    hide RegistrySound;
  }

  lemma AllDisarmed(s: State, timers: seq<Timer>, close: bool)
    requires Disarmed(s, {}, timers)
    ensures CancelAll(s, close) == s.(timers := timers, registry := map[], closed := s.closed || close)
  {
    assert CancelAll(s, close).timers == timers;
  }

  // ---- the scheduler object ----

  class Scheduler {
    const concur: bool
    var closed: bool
    var timers: seq<Timer>
    var registry: map<string, nat>
    var runs: seq<TaskRun>
    var waiters: map<Client, Waiter>

    ghost function Value(): State
      reads this
    {
      State(concur, closed, timers, registry, runs, waiters)
    }

    constructor (concur: bool)
      ensures Value() == Empty(concur) && Sound(Value())
    {
      this.concur := concur;
      closed, timers, registry, runs, waiters := false, [], map[], [], map[];
    }

    method Schedule(name: string, periodic: bool) returns (ok: bool)
      requires Sound(Value())
      modifies this
      ensures ok <==> !old(closed) && name !in old(registry)
      ensures if ok then Value() == Next(old(Value()), ScheduleAction(name, periodic)) else Value() == old(Value())
      ensures Sound(Value())
    {
      if closed || name in registry {
        return false;
      }
      NextKeepsSound(Value(), ScheduleAction(name, periodic));
      registry := registry[name := |timers|];
      timers := timers + [Timer(name, |timers|, periodic, false, true, true, [])];
      ok := true;
    }

    /** The timeout callback up to the task's body. */
    method OnTimeout(i: nat)
      requires Sound(Value()) && Enabled(Value(), FireAction(i))
      modifies this
      ensures Value() == Next(old(Value()), FireAction(i)) && Sound(Value())
    {
      NextKeepsSound(Value(), FireAction(i));
      hide Sound;
      assert [] + [|runs|] == [|runs|];
      timers := timers[i := timers[i].(armed := false, cos := [|runs|])];
      runs := runs + [TaskRun(i, true, false)];
    }

    /** The interval callback up to the task's body, if it is entered. */
    method OnInterval(i: nat)
      requires Sound(Value()) && Enabled(Value(), TickAction(i))
      modifies this
      ensures Value() == Next(old(Value()), TickAction(i)) && Sound(Value())
    {
      NextKeepsSound(Value(), TickAction(i));
      hide Sound;
      if timers[i].fin || concur {
        timers := timers[i := timers[i].(fin := false, cos := timers[i].cos + [|runs|])];
        runs := runs + [TaskRun(i, true, false)];
      }
    }

    /** Searches the record for a run and takes it off. */
    method Unrecord(cos: seq<nat>, r: nat) returns (rest: seq<nat>)
      requires r in cos
      ensures rest == Without(cos, r)
    {
      hide Without;
      var i := 0;
      assert cos[0..] == cos && cos[..0] + Without(cos, r) == Without(cos, r);
      while i < |cos| && cos[i] != r
        invariant i <= |cos| && r in cos[i..]
        invariant Without(cos, r) == cos[..i] + Without(cos[i..], r)
      {
        WithoutFront(cos, i, r);
        i := i + 1;
      }
      WithoutStep(cos, i, r);
      rest := cos[..i] + cos[i + 1..];
    }

    /** What follows the task's body, however that ends. */
    method OnFinish(r: nat)
      requires Sound(Value()) && Enabled(Value(), FinishAction(r))
      modifies this
      ensures Value() == Next(old(Value()), FinishAction(r)) && Sound(Value())
    {
      NextKeepsSound(Value(), FinishAction(r));
      OffIs(Value(), r);
      hide Sound, Without;
      var i := runs[r].timer;
      var tm := timers[i];
      runs := runs[r := runs[r].(active := false)];
      if tm.interval {
        var rest := Unrecord(tm.cos, r);
        timers := timers[i := tm.(fin := true, cos := rest)];
      } else {
        timers := timers[i := tm.(cos := [])];
        if tm.periodic {
          registry := registry[tm.name := |timers|];
          timers := timers + [Timer(tm.name, tm.job, true, true, true, true, [])];
        } else {
          registry := registry - {tm.name};
        }
      }
    }

    /** The wait loop of a cancel, up to its next join or its end. */
    method AwaitRuns(c: Client, i: nat, name: string)
      requires i < |timers| && forall k | 0 <= k < |timers[i].cos| :: timers[i].cos[k] < |runs|
      modifies this`runs, this`waiters, this`registry
      ensures Value() == Await(old(Value()), c, i, name)
    {
      var cos := timers[i].cos;
      if |cos| > 0 {
        runs := runs[cos[0] := runs[cos[0]].(canceled := true)];
        waiters := waiters[c := Waiter(i, name, cos[0])];
      } else {
        registry := registry - {name};
        waiters := waiters - {c};
      }
    }

    /** True when there was such a task. */
    method Cancel(c: Client, name: string, await: bool) returns (found: bool)
      requires Sound(Value()) && Enabled(Value(), CancelAction(c, name, await))
      modifies this
      ensures Value() == Next(old(Value()), CancelAction(c, name, await)) && Sound(Value())
      ensures found <==> name in old(registry)
    {
      NextKeepsSound(Value(), CancelAction(c, name, await));
      found := name in registry;
      if found {
        CancelFits(Value(), name);
        hide Sound, Await;
        var i := registry[name];
        timers := timers[i := timers[i].(armed := false)];
        if await {
          AwaitRuns(c, i, name);
        } else {
          registry := registry - {name};
        }
      }
    }

    /** The run a cancel waits for is over. */
    method OnJoined(c: Client)
      requires Sound(Value()) && Enabled(Value(), ResumeAction(c))
      modifies this
      ensures Value() == Next(old(Value()), ResumeAction(c)) && Sound(Value())
    {
      NextKeepsSound(Value(), ResumeAction(c));
      assert WaiterSound(timers, runs, waiters[c]);
      hide TimersSound, RegistrySound, WaitersSound, Await;
      AwaitRuns(c, waiters[c].timer, waiters[c].name);
    }

    /** `cancelAll` without waiting, and `shutdown`. */
    method CancelEach(close: bool)
      requires Sound(Value())
      modifies this
      ensures Value() == Next(old(Value()), CancelAllAction(close)) && Sound(Value())
    {
      NextKeepsSound(Value(), CancelAllAction(close));
      ghost var s := Value();
      RegistryIsSound(s);
      hide Sound, CancelAll, RegistrySound;
      var names := registry.Keys;
      NoneDisarmed(s, names);
      while names != {}
        invariant names <= registry.Keys
        invariant Value() == s.(timers := timers) && Disarmed(s, names, timers)
        decreases names
      {
        var name :| name in names;
        DisarmNext(s, names, timers, name);
        timers := timers[registry[name] := timers[registry[name]].(armed := false)];
        names := names - {name};
      }
      AllDisarmed(s, timers, close);
      registry, closed := map[], closed || close;
    }
  }
}
