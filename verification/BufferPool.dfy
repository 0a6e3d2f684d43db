/** The buffer pool: it only counts. Control passes from one coroutine to another
    only where a request waits for memory, so a run is a sequence of the steps
    below, in any order and by any coroutines. */
module BufferPools {
  type Coroutine = nat

  /** A buffer handed out by the pool: its length, whether the pool still counts
      it, and the coroutine it was handed to. Buffers are named by their place in the
      list of all of them. */
  datatype Buffer = Buffer(length: nat, counted: bool, owner: Coroutine)

  datatype PoolError = BadArgument | OutOfMemory

  /** A request that has to wait: for a new buffer, or to grow one whose length
      was read before the wait. */
  datatype Request =
    | Fresh(size: nat)
    | Grow(buffer: nat, size: nat, length: nat)

  /** How a step ends for the coroutine that takes it. */
  datatype Outcome = Done(buffer: nat) | Waits | Failed(error: PoolError)

  datatype Pool = Pool(
    chunkSize: nat, totalSize: nat,
    buffers: seq<Buffer>, used: int,
    pending: map<Coroutine, Request>, parked: set<Coroutine>)

  // ---- what the counters mean ----

  function Outstanding(buffers: seq<Buffer>): nat {
    if buffers == [] then 0
    else (if buffers[0].counted then buffers[0].length else 0) + Outstanding(buffers[1..])
  }

  /** A waiting grow still knows the length of its buffer, which is its own. */
  predicate Waiting(s: Pool, c: Coroutine, r: Request) {
    r.Grow? ==>
      r.buffer < |s.buffers| && r.length < r.size && s.buffers[r.buffer] == Buffer(r.length, true, c)
  }

  /** The counter is the sum of the outstanding lengths and within the pool's
      size, and no coroutine sleeps while its request would be granted. */
  ghost predicate Sound(s: Pool) {
    && s.chunkSize > 0
    && s.used == Outstanding(s.buffers)
    && s.used <= s.totalSize
    && s.parked <= s.pending.Keys
    && (forall c | c in s.parked :: s.pending[c].size + s.used > s.totalSize)
    && (forall c | c in s.pending :: Waiting(s, c, s.pending[c]))
  }

  // ---- the steps ----

  /** The size rounded up to whole chunks; a size of 0 asks for one chunk. */
  function Rounded(size: nat, chunkSize: nat): nat
    requires chunkSize > 0
  {
    var n := if size == 0 then chunkSize else size;
    var rem := n % chunkSize;
    if rem > 0 then n + (chunkSize - rem) else n
  }

  /** Serves a request that fits. */
  function Serve(s: Pool, c: Coroutine, r: Request): (Pool, Outcome)
    requires r.Grow? ==> r.buffer < |s.buffers|
  {
    match r
    case Fresh(size) =>
      (s.(buffers := s.buffers + [Buffer(size, true, c)], used := s.used + size), Done(|s.buffers|))
    case Grow(b, size, length) =>
      (s.(buffers := s.buffers[b := s.buffers[b].(length := size)], used := s.used + (size - length)), Done(b))
  }

  /** One look at a request: serve it, refuse it or go to sleep. */
  function Look(s: Pool, c: Coroutine, r: Request, await: bool): (Pool, Outcome)
    requires r.Grow? ==> r.buffer < |s.buffers|
  {
    if r.size + s.used <= s.totalSize then Serve(s, c, r)
    else if await then (s.(pending := s.pending[c := r], parked := s.parked + {c}), Waits)
    else (s, Failed(OutOfMemory))
  }

  function WakeAll(s: Pool): Pool {
    s.(parked := {})
  }

  function AllocateStep(s: Pool, c: Coroutine, size: int, await: bool): (Pool, Outcome)
    requires s.chunkSize > 0
  {
    if size < 0 then (s, Failed(BadArgument))
    else Look(s, c, Fresh(Rounded(size, s.chunkSize)), await)
  }

  function ResizeStep(s: Pool, c: Coroutine, b: nat, size: int, await: bool): (Pool, Outcome)
    requires b < |s.buffers|
  {
    var buffer := s.buffers[b];
    if size < 0 then (s, Failed(BadArgument))
    else if !buffer.counted then (s.(buffers := s.buffers[b := buffer.(length := size)]), Done(b))
    else if buffer.length >= size then
      (WakeAll(s.(buffers := s.buffers[b := buffer.(length := size)],
                  used := s.used - (buffer.length - size))), Done(b))
    else Look(s, c, Grow(b, size, buffer.length), await)
  }

  /** True when the buffer was still counted. */
  function ReleaseStep(s: Pool, b: nat): (Pool, bool)
    requires b < |s.buffers|
  {
    var buffer := s.buffers[b];
    if buffer.counted then
      (WakeAll(s.(buffers := s.buffers[b := buffer.(counted := false)],
                  used := s.used - buffer.length)), true)
    else (s, false)
  }

  /** A woken coroutine looks again. */
  function RetryStep(s: Pool, c: Coroutine): (Pool, Outcome)
    requires c in s.pending && c !in s.parked
    requires s.pending[c].Grow? ==> s.pending[c].buffer < |s.buffers|
  {
    Look(s.(pending := s.pending - {c}), c, s.pending[c], true)
  }

  // ---- sums ----

  lemma {:induction false} OutstandingUpdate(buffers: seq<Buffer>, b: nat, v: Buffer)
    requires b < |buffers|
    ensures Outstanding(buffers[b := v]) + Outstanding([buffers[b]]) == Outstanding(buffers) + Outstanding([v])
    ensures Outstanding([v]) == if v.counted then v.length else 0
    ensures Outstanding([buffers[b]]) <= Outstanding(buffers)
  {
    if b == 0 {
      assert buffers[b := v][1..] == buffers[1..];
    } else {
      assert buffers[b := v][1..] == buffers[1..][b - 1 := v];
      OutstandingUpdate(buffers[1..], b - 1, v);
    }
  }

  lemma {:induction false} OutstandingAppend(buffers: seq<Buffer>, v: Buffer)
    ensures Outstanding(buffers + [v]) == Outstanding(buffers) + (if v.counted then v.length else 0)
  {
    if buffers == [] {
      assert [] + [v] == [v];
    } else {
      assert (buffers + [v])[1..] == buffers[1..] + [v];
      OutstandingAppend(buffers[1..], v);
    }
  }

  // ---- every step keeps the pool sound ----

  lemma LookKeepsSound(s: Pool, c: Coroutine, r: Request, await: bool)
    requires Sound(s) && c !in s.pending && Waiting(s, c, r)
    ensures Sound(Look(s, c, r, await).0)
  {
    if r.size + s.used <= s.totalSize {
      if r.Fresh? {
        OutstandingAppend(s.buffers, Buffer(r.size, true, c));
      } else {
        OutstandingUpdate(s.buffers, r.buffer, Buffer(r.size, true, c));
      }
    }
  }

  lemma AllocateKeepsSound(s: Pool, c: Coroutine, size: int, await: bool)
    requires Sound(s) && c !in s.pending
    ensures Sound(AllocateStep(s, c, size, await).0)
  {
    if size >= 0 {
      LookKeepsSound(s, c, Fresh(Rounded(size, s.chunkSize)), await);
    }
  }

  lemma ResizeKeepsSound(s: Pool, c: Coroutine, b: nat, size: int, await: bool)
    requires Sound(s) && c !in s.pending && b < |s.buffers| && s.buffers[b].owner == c
    ensures Sound(ResizeStep(s, c, b, size, await).0)
  {
    var buffer := s.buffers[b];
    if size >= 0 {
      OutstandingUpdate(s.buffers, b, buffer.(length := size));
      if buffer.counted && buffer.length < size {
        LookKeepsSound(s, c, Grow(b, size, buffer.length), await);
      }
    }
  }

  lemma ReleaseKeepsSound(s: Pool, b: nat)
    requires Sound(s) && b < |s.buffers| && s.buffers[b].owner !in s.pending
    ensures Sound(ReleaseStep(s, b).0)
  {
    OutstandingUpdate(s.buffers, b, s.buffers[b].(counted := false));
  }

  lemma RetryKeepsSound(s: Pool, c: Coroutine)
    requires Sound(s) && c in s.pending && c !in s.parked
    ensures Sound(RetryStep(s, c).0)
  {
    var t := s.(pending := s.pending - {c});
    assert Waiting(s, c, s.pending[c]);
    LookKeepsSound(t, c, s.pending[c], true);
  }

  // ---- runs ----

  /** A step of some coroutine. */
  datatype Action =
    | AllocateAction(c: Coroutine, size: int, await: bool)
    | ResizeAction(c: Coroutine, buffer: nat, size: int, await: bool)
    | ReleaseAction(buffer: nat)
    | RetryAction(c: Coroutine)

  /** A waiting coroutine does nothing else, and a buffer has one owner: only the
      owner resizes or releases it. */
  predicate Enabled(s: Pool, a: Action) {
    match a
    case AllocateAction(c, _, _) => c !in s.pending
    case ResizeAction(c, b, _, _) => c !in s.pending && b < |s.buffers| && s.buffers[b].owner == c
    case ReleaseAction(b) => b < |s.buffers| && s.buffers[b].owner !in s.pending
    case RetryAction(c) => c in s.pending && c !in s.parked
  }

  ghost function Next(s: Pool, a: Action): Pool
    requires Sound(s) && Enabled(s, a)
  {
    match a
    case AllocateAction(c, size, await) => AllocateStep(s, c, size, await).0
    case ResizeAction(c, b, size, await) => ResizeStep(s, c, b, size, await).0
    case ReleaseAction(b) => ReleaseStep(s, b).0
    case RetryAction(c) => RetryStep(s, c).0
  }

  lemma NextKeepsSound(s: Pool, a: Action)
    requires Sound(s) && Enabled(s, a)
    ensures Sound(Next(s, a))
  {
    hide Sound, Waiting;
    match a
    case AllocateAction(c, size, await) => AllocateKeepsSound(s, c, size, await);
    case ResizeAction(c, b, size, await) => ResizeKeepsSound(s, c, b, size, await);
    case ReleaseAction(b) => ReleaseKeepsSound(s, b);
    case RetryAction(c) => RetryKeepsSound(s, c);
  }

  /** t comes after the actions of a run from s, each enabled when it is taken. */
  ghost predicate Run(s: Pool, run: seq<Action>, t: Pool)
    decreases |run|
  {
    if run == [] then s == t
    else Sound(s) && Enabled(s, run[0]) && Run(Next(s, run[0]), run[1..], t)
  }

  function Empty(chunkSize: nat, totalSize: nat): Pool {
    Pool(chunkSize, totalSize, [], 0, map[], {})
  }

  /** In every run the pool is sound: the counter is the sum of the outstanding
      lengths, within the pool's size, and nobody sleeps in vain. */
  lemma {:induction false} RunKeepsSound(s: Pool, run: seq<Action>, t: Pool)
    requires Sound(s) && Run(s, run, t)
    ensures Sound(t)
    decreases |run|
  {
    hide Sound;
    if run != [] {
      NextKeepsSound(s, run[0]);
      RunKeepsSound(Next(s, run[0]), run[1..], t);
    }
  }

  /** A buffer that is not counted is never counted again, so that releasing it
      once more never changes anything. */
  lemma {:induction false} ReleasedForGood(s: Pool, run: seq<Action>, t: Pool, b: nat)
    requires Sound(s) && Run(s, run, t) && b < |s.buffers| && !s.buffers[b].counted
    ensures b < |t.buffers| && ReleaseStep(t, b) == (t, false)
    decreases |run|
  {
    if run != [] {
      NextKeepsSound(s, run[0]);
      var n := Next(s, run[0]);
      assert b < |n.buffers| && !n.buffers[b].counted;
      ReleasedForGood(n, run[1..], t, b);
    }
  }

  // ---- requests that wait for each other ----

  /** The memory some coroutines have: none of them can give it back while it waits. */
  function Held(buffers: seq<Buffer>, cs: set<Coroutine>): nat {
    if buffers == [] then 0
    else (if buffers[0].counted && buffers[0].owner in cs then buffers[0].length else 0) + Held(buffers[1..], cs)
  }

  /** Each of the requests asks for more than is left beside what the waiting
      coroutines have. A single request that can never be granted is the simplest
      case. */
  predicate Gridlock(s: Pool, cs: set<Coroutine>) {
    && cs <= s.pending.Keys
    && (forall c | c in cs :: s.pending[c].size + Held(s.buffers, cs) > s.totalSize)
  }

  /** What some have is part of what is used, and all of it when nobody else has any. */
  lemma {:induction false} HeldIsUsed(buffers: seq<Buffer>, cs: set<Coroutine>)
    ensures Held(buffers, cs) <= Outstanding(buffers)
    ensures (forall b | 0 <= b < |buffers| && buffers[b].counted :: buffers[b].owner in cs)
            ==> Held(buffers, cs) == Outstanding(buffers)
  {
    if buffers != [] {
      HeldIsUsed(buffers[1..], cs);
      if forall b | 0 <= b < |buffers| && buffers[b].counted :: buffers[b].owner in cs {
        assert forall b | 0 <= b < |buffers[1..]| :: buffers[1..][b] == buffers[b + 1];
      }
    }
  }

  /** What others do with their own buffers does not change what these have. */
  lemma {:induction false} HeldUpdate(buffers: seq<Buffer>, cs: set<Coroutine>, b: nat, v: Buffer)
    requires b < |buffers| && buffers[b].owner !in cs && v.owner !in cs
    ensures Held(buffers[b := v], cs) == Held(buffers, cs)
  {
    if b == 0 {
      assert buffers[b := v][1..] == buffers[1..];
    } else {
      assert buffers[b := v][1..] == buffers[1..][b - 1 := v];
      HeldUpdate(buffers[1..], cs, b - 1, v);
    }
  }

  lemma {:induction false} HeldAppend(buffers: seq<Buffer>, cs: set<Coroutine>, v: Buffer)
    requires v.owner !in cs
    ensures Held(buffers + [v], cs) == Held(buffers, cs)
  {
    if buffers == [] {
      assert [] + [v] == [v];
    } else {
      assert (buffers + [v])[1..] == buffers[1..] + [v];
      HeldAppend(buffers[1..], cs, v);
    }
  }

  lemma LookKeepsHeld(s: Pool, c: Coroutine, r: Request, await: bool, cs: set<Coroutine>)
    requires c !in cs && Waiting(s, c, r)
    ensures Held(Look(s, c, r, await).0.buffers, cs) == Held(s.buffers, cs)
  {
    if r.Fresh? {
      HeldAppend(s.buffers, cs, Buffer(r.size, true, c));
    } else {
      HeldUpdate(s.buffers, cs, r.buffer, Buffer(r.size, true, c));
    }
  }

  /** Coroutines that wait, and are not granted their requests, keep what they have. */
  lemma NextKeepsHeld(s: Pool, a: Action, cs: set<Coroutine>)
    requires Sound(s) && Enabled(s, a) && cs <= s.pending.Keys && (a.RetryAction? ==> a.c !in cs)
    ensures Held(Next(s, a).buffers, cs) == Held(s.buffers, cs)
  {
    hide Held, Look;
    match a
    case AllocateAction(c, size, await) =>
      if size >= 0 {
        LookKeepsHeld(s, c, Fresh(Rounded(size, s.chunkSize)), await, cs);
      }
    case ResizeAction(c, b, size, await) =>
      var buffer := s.buffers[b];
      if size >= 0 {
        HeldUpdate(s.buffers, cs, b, buffer.(length := size));
        if buffer.counted && buffer.length < size {
          LookKeepsHeld(s, c, Grow(b, size, buffer.length), await, cs);
        }
      }
    case ReleaseAction(b) =>
      HeldUpdate(s.buffers, cs, b, s.buffers[b].(counted := false));
    case RetryAction(c) =>
      assert Waiting(s, c, s.pending[c]);
      LookKeepsHeld(s.(pending := s.pending - {c}), c, s.pending[c], true, cs);
  }

  /** A request that does not fit stays. */
  lemma StillPending(s: Pool, c: Coroutine, a: Action)
    requires Sound(s) && Enabled(s, a) && c in s.pending && s.pending[c].size + s.used > s.totalSize
    ensures c in Next(s, a).pending && Next(s, a).pending[c] == s.pending[c]
    ensures Next(s, a).totalSize == s.totalSize
    ensures a == RetryAction(c) ==> Next(s, a).buffers == s.buffers
  {
  }

  lemma GridlockStays(s: Pool, cs: set<Coroutine>, a: Action)
    requires Sound(s) && Gridlock(s, cs) && Enabled(s, a) && cs != {}
    ensures Gridlock(Next(s, a), cs) && forall c | c in cs :: Next(s, a).pending[c] == s.pending[c]
  {
    hide Sound, Enabled, Next, Held;
    HeldIsUsed(s.buffers, cs);
    SoundCounts(s);
    var n := Next(s, a);
    forall c | c in cs ensures c in n.pending && n.pending[c] == s.pending[c] && n.totalSize == s.totalSize {
      StillPending(s, c, a);
    }
    if a.RetryAction? && a.c in cs {
      StillPending(s, a.c, a);
    } else {
      NextKeepsHeld(s, a, cs);
    }
  }

  lemma SoundCounts(s: Pool)
    requires Sound(s)
    ensures s.used == Outstanding(s.buffers)
  {
  }

  /** A gridlock is for ever: in no run is any of its requests granted. */
  lemma {:induction false} GridlockForever(s: Pool, cs: set<Coroutine>, run: seq<Action>, t: Pool)
    requires Sound(s) && Gridlock(s, cs) && Run(s, run, t)
    ensures Gridlock(t, cs) && forall c | c in cs :: t.pending[c] == s.pending[c]
    decreases |run|
  {
    hide Sound, Enabled, Next, Held;
    if run != [] && cs != {} {
      NextKeepsSound(s, run[0]);
      GridlockStays(s, cs, run[0]);
      GridlockForever(Next(s, run[0]), cs, run[1..], t);
    }
  }

  /** The one owner matters. Release a buffer while a grow of it waits: the request
      wakes, is granted as soon as its new size fits, and the counter is then too
      high by what the buffer was to grow. */
  lemma SharedBufferMiscounts(s: Pool, c: Coroutine)
    requires Sound(s) && c in s.pending && s.pending[c].Grow? && s.pending[c].buffer < |s.buffers|
    ensures var r := s.pending[c];
            var u := ReleaseStep(s, r.buffer).0;
            && u.used == Outstanding(u.buffers) && u.pending == s.pending && u.parked == {}
            && var (v, o) := RetryStep(u, c);
               && (o.Done? <==> r.size + s.used - r.length <= s.totalSize)
               && (o.Done? ==> v.used - Outstanding(v.buffers) == r.size - r.length > 0)
  {
    var r := s.pending[c];
    assert Waiting(s, c, r);
    OutstandingUpdate(s.buffers, r.buffer, Buffer(r.length, false, c));
    var u := ReleaseStep(s, r.buffer).0;
    OutstandingUpdate(u.buffers, r.buffer, Buffer(r.size, false, c));
  }

  /** A new buffer's size is the smallest positive number of whole chunks that
      holds the size asked for. */
  lemma RoundedIsLeast(size: nat, chunkSize: nat) returns (k: nat)
    requires chunkSize > 0
    ensures k > 0 && Rounded(size, chunkSize) == k * chunkSize
    ensures forall j: nat | j > 0 && j * chunkSize >= size :: k <= j
    ensures Rounded(size, chunkSize) >= size
  {
    var n := if size == 0 then chunkSize else size;
    var q, rem := n / chunkSize, n % chunkSize;
    assert n == q * chunkSize + rem;
    k := if rem == 0 then q else q + 1;
    assert (q + 1) * chunkSize == q * chunkSize + chunkSize;
    forall j: nat | j > 0 && j * chunkSize >= size ensures k <= j {
      Fewer(j, k, chunkSize);
    }
  }

  lemma Fewer(j: nat, k: nat, d: nat)
    ensures j < k ==> (j + 1) * d <= k * d && (j + 1) * d == j * d + d
  {
  }

  // ---- the pool object ----

  class BufferPool {
    const chunkSize: nat
    const totalSize: nat
    var buffers: seq<Buffer>
    var used: int
    var pending: map<Coroutine, Request>
    var parked: set<Coroutine>

    ghost function State(): Pool
      reads this
    {
      Pool(chunkSize, totalSize, buffers, used, pending, parked)
    }

    constructor (chunkSize: nat, pageSize: nat, pageCount: nat)
      requires chunkSize > 0
      ensures State() == Empty(chunkSize, pageSize * pageCount) && Sound(State())
    {
      this.chunkSize, totalSize := chunkSize, pageSize * pageCount;
      buffers, used, pending, parked := [], 0, map[], {};
    }

    method Allocate(c: Coroutine, asked: int, await: bool) returns (r: Outcome)
      requires Sound(State()) && c !in pending
      modifies this
      ensures (State(), r) == AllocateStep(old(State()), c, asked, await)
      ensures Sound(State())
    {
      AllocateKeepsSound(State(), c, asked, await);
      var size := if asked == 0 then chunkSize else asked;
      if size < 0 {
        return Failed(BadArgument);
      }
      var rem := size % chunkSize;
      if rem > 0 {
        size := size + (chunkSize - rem);
      }
      if size + used > totalSize {
        if !await {
          return Failed(OutOfMemory);
        }
        pending, parked := pending[c := Fresh(size)], parked + {c};
        return Waits;
      }
      r := Done(|buffers|);
      buffers := buffers + [Buffer(size, true, c)];
      used := used + size;
    }

    method Resize(c: Coroutine, b: nat, size: int, await: bool) returns (r: Outcome)
      requires Sound(State()) && c !in pending && b < |buffers| && buffers[b].owner == c
      modifies this
      ensures (State(), r) == ResizeStep(old(State()), c, b, size, await)
      ensures Sound(State())
    {
      ResizeKeepsSound(State(), c, b, size, await);
      if size < 0 {
        return Failed(BadArgument);
      }
      r := Done(b);
      var length := buffers[b].length;
      if !buffers[b].counted {
        buffers := buffers[b := buffers[b].(length := size)];
      } else if length >= size {
        buffers := buffers[b := buffers[b].(length := size)];
        used := used - (length - size);
        parked := {};
      } else if size + used > totalSize {
        if !await {
          return Failed(OutOfMemory);
        }
        pending, parked := pending[c := Grow(b, size, length)], parked + {c};
        r := Waits;
      } else {
        buffers := buffers[b := buffers[b].(length := size)];
        used := used + (size - length);
      }
    }

    method Release(b: nat) returns (r: bool)
      requires Sound(State()) && b < |buffers| && buffers[b].owner !in pending
      modifies this
      ensures (State(), r) == ReleaseStep(old(State()), b)
      ensures Sound(State())
    {
      ReleaseKeepsSound(State(), b);
      r := buffers[b].counted;
      if r {
        used := used - buffers[b].length;
        buffers := buffers[b := buffers[b].(counted := false)];
        parked := {};
      }
    }

    /** A woken coroutine goes round its wait loop once more. */
    method Retry(c: Coroutine) returns (r: Outcome)
      requires Sound(State()) && c in pending && c !in parked
      requires pending[c].Grow? ==> pending[c].buffer < |buffers|
      modifies this
      ensures (State(), r) == RetryStep(old(State()), c)
      ensures Sound(State())
    {
      RetryKeepsSound(State(), c);
      var request := pending[c];
      if request.size + used > totalSize {
        pending, parked := (pending - {c})[c := request], parked + {c};
        return Waits;
      }
      pending := pending - {c};
      match request {
        case Fresh(size) =>
          r := Done(|buffers|);
          buffers := buffers + [Buffer(size, true, c)];
          used := used + size;
        case Grow(b, size, length) =>
          r := Done(b);
          buffers := buffers[b := buffers[b].(length := size)];
          used := used + (size - length);
      }
    }
  }
}
