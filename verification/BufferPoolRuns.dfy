/** Which waiting requests of the buffer pool can still be granted: the runs that
    a gridlock rules out, and no others. */
module BufferPoolRuns {
  import opened BufferPools

  // ---- runs one behind the other ----

  lemma {:induction false} RunsJoin(s: Pool, first: seq<Action>, m: Pool, second: seq<Action>, t: Pool)
    requires Run(s, first, m) && Run(m, second, t)
    ensures Run(s, first + second, t)
    decreases |first|
  {
    hide Sound, Next, Enabled;
    if first == [] {
      assert first + second == second;
    } else {
      assert (first + second)[0] == first[0] && (first + second)[1..] == first[1..] + second;
      RunsJoin(Next(s, first[0]), first[1..], m, second, t);
    }
  }

  lemma OneStep(s: Pool, a: Action)
    requires Sound(s) && Enabled(s, a)
    ensures Run(s, [a], Next(s, a)) && Sound(Next(s, a))
  {
    hide Sound, Next, Enabled;
    NextKeepsSound(s, a);
    assert [a][1..] == [];
  }

  // ---- giving everything back ----

  /** The waiting coroutines ask for the same and have the same; the pool is as large. */
  ghost predicate SameWaiting(s: Pool, t: Pool) {
    && t.pending == s.pending && t.totalSize == s.totalSize && |t.buffers| == |s.buffers|
    && forall cs | cs <= s.pending.Keys :: Held(t.buffers, cs) == Held(s.buffers, cs)
  }

  lemma ReleaseOne(s: Pool, b: nat)
    requires Sound(s) && b < |s.buffers| && s.buffers[b].owner !in s.pending
    ensures var t := ReleaseStep(s, b).0;
            && Sound(t) && Run(s, [ReleaseAction(b)], t) && SameWaiting(s, t)
            && !t.buffers[b].counted
            && forall k | 0 <= k < |s.buffers| && k != b :: t.buffers[k] == s.buffers[k]
  {
    hide Held;
    OneStep(s, ReleaseAction(b));
    forall cs | cs <= s.pending.Keys ensures Held(ReleaseStep(s, b).0.buffers, cs) == Held(s.buffers, cs) {
      NextKeepsHeld(s, ReleaseAction(b), cs);
    }
  }

  /** Coroutines that wait for nothing can give back all their buffers. */
  lemma {:induction false} ReleaseFree(s: Pool, n: nat) returns (run: seq<Action>, t: Pool)
    requires Sound(s) && n <= |s.buffers|
    ensures Run(s, run, t) && Sound(t) && SameWaiting(s, t)
    ensures forall b | 0 <= b < n && t.buffers[b].counted :: t.buffers[b].owner in t.pending
  {
    hide Sound, Run, ReleaseStep, Held;
    if n == 0 {
      run, t := [], s;
      Still(s);
    } else {
      var first, m := ReleaseFree(s, n - 1);
      if m.buffers[n - 1].owner in m.pending {
        run, t := first, m;
      } else {
        ReleaseOne(m, n - 1);
        t := ReleaseStep(m, n - 1).0;
        run := first + [ReleaseAction(n - 1)];
        RunsJoin(s, first, m, [ReleaseAction(n - 1)], t);
      }
    }
  }

  lemma Still(s: Pool)
    ensures Run(s, [], s)
  {
  }

  // ---- granting one request ----

  /** A request that fits is not asleep, and is granted when it looks again. */
  lemma GrantOne(s: Pool, c: Coroutine)
    requires Sound(s) && c in s.pending && s.pending[c].size + s.used <= s.totalSize
    ensures Enabled(s, RetryAction(c))
    ensures var t := Next(s, RetryAction(c));
            t.pending == s.pending - {c} && t.totalSize == s.totalSize
  {
    assert Waiting(s, c, s.pending[c]);
  }

  /** Outside a gridlock of them all, some waiting request can be granted, and the
      others ask for the same and have the same as before. */
  lemma SomeGranted(s: Pool) returns (c: Coroutine, run: seq<Action>, t: Pool)
    requires Sound(s) && !Gridlock(s, s.pending.Keys)
    ensures c in s.pending && Run(s, run, t) && Sound(t)
    ensures t.pending == s.pending - {c} && t.totalSize == s.totalSize
    ensures forall cs | cs <= t.pending.Keys :: Held(t.buffers, cs) == Held(s.buffers, cs)
  {
    hide Sound, Run, Next, Enabled, Held;
    var all := s.pending.Keys;
    var first, m := ReleaseFree(s, |s.buffers|);
    HeldIsUsed(m.buffers, all);
    SoundCounts(m);
    assert Held(m.buffers, all) == Held(s.buffers, all);
    c :| c in all && s.pending[c].size + Held(s.buffers, all) <= s.totalSize;
    GrantOne(m, c);
    OneStep(m, RetryAction(c));
    t := Next(m, RetryAction(c));
    run := first + [RetryAction(c)];
    RunsJoin(s, first, m, [RetryAction(c)], t);
    forall cs | cs <= t.pending.Keys ensures Held(t.buffers, cs) == Held(s.buffers, cs) {
      NextKeepsHeld(m, RetryAction(c), cs);
    }
  }

  /** Some run grants the request. */
  ghost predicate CanBeGranted(s: Pool, c: Coroutine) {
    exists run, t :: Run(s, run, t) && c !in t.pending
  }

  /** The pool is stuck exactly in a gridlock: some run grants a waiting request if
      and only if not all of them together are gridlocked. */
  lemma StuckIff(s: Pool)
    requires Sound(s)
    ensures (exists c | c in s.pending :: CanBeGranted(s, c)) <==> !Gridlock(s, s.pending.Keys)
  {
    hide Sound, Run, Gridlock, Held;
    if Gridlock(s, s.pending.Keys) {
      forall c | c in s.pending ensures !CanBeGranted(s, c) {
        NeverGranted(s, s.pending.Keys, c);
      }
    } else {
      var c, run, t := SomeGranted(s);
    }
  }

  lemma NeverGranted(s: Pool, cs: set<Coroutine>, c: Coroutine)
    requires Sound(s) && Gridlock(s, cs) && c in cs
    ensures !CanBeGranted(s, c)
  {
    hide Sound, Run;
    forall run, t | Run(s, run, t) ensures c in t.pending {
      GridlockForever(s, cs, run, t);
    }
  }

  // ---- granting a given request ----

  ghost predicate Gridlocked(s: Pool, c: Coroutine) {
    exists cs :: Gridlock(s, cs) && c in cs
  }

  lemma {:induction false} GrantedAtLast(s: Pool, c: Coroutine) returns (run: seq<Action>, t: Pool)
    requires Sound(s) && c in s.pending && !Gridlocked(s, c)
    ensures Run(s, run, t) && c !in t.pending
    decreases |s.pending.Keys|
  {
    hide Sound, Run, Held;
    var d, first, m := SomeGranted(s);
    if d == c {
      run, t := first, m;
    } else {
      forall cs | Gridlock(m, cs) ensures c !in cs {
        assert Gridlock(s, cs);
      }
      assert m.pending.Keys == s.pending.Keys - {d};
      var second;
      second, t := GrantedAtLast(m, c);
      run := first + second;
      RunsJoin(s, first, m, second, t);
    }
  }

  /** A waiting request can be granted exactly when it is in no gridlock: there is
      no other way to wait for ever than among coroutines that all ask for more than
      is left beside what they have. */
  lemma CanBeGrantedIff(s: Pool, c: Coroutine)
    requires Sound(s) && c in s.pending
    ensures CanBeGranted(s, c) <==> !Gridlocked(s, c)
  {
    hide Sound, Run, Gridlock;
    if Gridlocked(s, c) {
      var cs :| Gridlock(s, cs) && c in cs;
      NeverGranted(s, cs, c);
    } else {
      var run, t := GrantedAtLast(s, c);
    }
  }

  // ---- gridlocks that are reached ----

  /** Two coroutines that each have one chunk. */
  lemma TwoOwners(total: nat) returns (run: seq<Action>, t: Pool)
    requires total >= 2
    ensures Run(Empty(1, total), run, t) && Sound(t)
    ensures t == Pool(1, total, [Buffer(1, true, 0), Buffer(1, true, 1)], 2, map[], {})
  {
    var s := Empty(1, total);
    var a, b := AllocateAction(0, 1, true), AllocateAction(1, 1, true);
    OneStep(s, a);
    var m := Next(s, a);
    assert m.buffers == [Buffer(1, true, 0)];
    OneStep(m, b);
    t := Next(m, b);
    RunsJoin(s, [a], m, [b], t);
    run := [a] + [b];
  }

  /** Both wait for what the other has. */
  lemma HeldByTwo()
    ensures Held([Buffer(1, true, 0), Buffer(1, true, 1)], {0, 1}) == 2
  {
    var bs := [Buffer(1, true, 0), Buffer(1, true, 1)];
    assert bs[1..] == [Buffer(1, true, 1)] && [Buffer(1, true, 1)][1..] == [];
  }

  /** The two ask for more, one after the other, and both have to wait. */
  lemma BothWait(s: Pool, a: Action, b: Action) returns (run: seq<Action>, t: Pool)
    requires Sound(s) && Enabled(s, a) && Sound(Next(s, a)) && Enabled(Next(s, a), b)
    ensures t == Next(Next(s, a), b) && Run(s, run, t) && Sound(t)
  {
    hide Sound, Run, Next, Enabled;
    OneStep(s, a);
    OneStep(Next(s, a), b);
    t := Next(Next(s, a), b);
    RunsJoin(s, [a], Next(s, a), [b], t);
    run := [a] + [b];
  }

  /** Two owners of one chunk in a pool of three both grow theirs to two: one chunk
      is free, and both wait for ever. */
  lemma TwoGrowsGridlock()
    ensures exists run, t ::
              Run(Empty(1, 3), run, t) && t.parked == {0, 1} && !CanBeGranted(t, 0) && !CanBeGranted(t, 1)
  {
    var first, s := TwoOwners(3);
    var a, b := ResizeAction(0, 0, 2, true), ResizeAction(1, 1, 2, true);
    OneStep(s, a);
    assert Next(s, a) == s.(pending := map[0 := Grow(0, 2, 1)], parked := {0});
    var second, t := BothWait(s, a, b);
    assert t == s.(pending := map[0 := Grow(0, 2, 1), 1 := Grow(1, 2, 1)], parked := {0, 1});
    TwoAreStuck(Empty(1, 3), first, s, second, t);
  }

  /** Two owners of one chunk each fill a pool of two and both want one more. */
  lemma TwoFreshGridlock()
    ensures exists run, t ::
              Run(Empty(1, 2), run, t) && t.parked == {0, 1} && !CanBeGranted(t, 0) && !CanBeGranted(t, 1)
  {
    var first, s := TwoOwners(2);
    var a, b := AllocateAction(0, 1, true), AllocateAction(1, 1, true);
    OneStep(s, a);
    assert Next(s, a) == s.(pending := map[0 := Fresh(1)], parked := {0});
    var second, t := BothWait(s, a, b);
    assert t == s.(pending := map[0 := Fresh(1), 1 := Fresh(1)], parked := {0, 1});
    TwoAreStuck(Empty(1, 2), first, s, second, t);
  }

  lemma TwoAreStuck(s: Pool, first: seq<Action>, m: Pool, second: seq<Action>, t: Pool)
    requires Run(s, first, m) && Run(m, second, t) && Sound(t)
    requires t.buffers == [Buffer(1, true, 0), Buffer(1, true, 1)] && t.pending.Keys == {0, 1}
    requires forall c | c in t.pending :: t.pending[c].size + 2 > t.totalSize
    ensures Run(s, first + second, t) && !CanBeGranted(t, 0) && !CanBeGranted(t, 1)
  {
    hide Sound, Run, Held;
    RunsJoin(s, first, m, second, t);
    HeldByTwo();
    NeverGranted(t, {0, 1}, 0);
    NeverGranted(t, {0, 1}, 1);
  }
}
