/** What one call does to the pool, field by field, and what another call undoes. */
module BufferPoolSteps {
  import opened BufferPools

  /** Buffer b is now `now`, the buffers before it and behind it are what they were,
      and the counter has moved by `moved`. Nothing else is said of the pool. */
  predicate Becomes(s: Pool, t: Pool, b: nat, now: Buffer, moved: int) {
    && b < |t.buffers| && t.buffers[b] == now && t.used == s.used + moved
    && |t.buffers| == (if b < |s.buffers| then |s.buffers| else b + 1)
    && (forall i | 0 <= i < |s.buffers| && i != b :: t.buffers[i] == s.buffers[i])
    && t.chunkSize == s.chunkSize && t.totalSize == s.totalSize
  }

  // ---- allocation ----

  /** A request for a new buffer is granted exactly when its size, rounded up to
      whole chunks, and what is counted come to at most the pool's size. */
  lemma AllocateEffect(s: Pool, c: Coroutine, size: int, await: bool)
    requires s.chunkSize > 0
    ensures var ((t, o), n) := (AllocateStep(s, c, size, await), if size < 0 then 0 else Rounded(size, s.chunkSize));
            && (o == Failed(BadArgument) <==> size < 0)
            && (o == Done(|s.buffers|) <==> size >= 0 && n + s.used <= s.totalSize)
            && (o == Waits <==> size >= 0 && n + s.used > s.totalSize && await)
            && (o == Failed(OutOfMemory) <==> size >= 0 && n + s.used > s.totalSize && !await)
            && (o.Failed? ==> t == s)
            && (o.Done? ==> Becomes(s, t, |s.buffers|, Buffer(n, true, c), n)
                            && t.pending == s.pending && t.parked == s.parked)
            && (o.Waits? ==> t == s.(pending := s.pending[c := Fresh(n)], parked := s.parked + {c}))
  {
  }

  // ---- resizing ----

  /** Making a buffer smaller, or one that is no longer counted any size, is always
      done; a counted one grows exactly when its new size and all that is counted,
      its old size included, come to at most the pool's size. When it is done the
      buffer has the new length, and the counter has moved by the difference if the
      buffer is counted. */
  lemma ResizeEffect(s: Pool, c: Coroutine, b: nat, size: int, await: bool)
    requires b < |s.buffers|
    ensures var ((t, o), was) := (ResizeStep(s, c, b, size, await), s.buffers[b]);
            var free := !was.counted || size <= was.length || size + s.used <= s.totalSize;
            && (o == Failed(BadArgument) <==> size < 0)
            && (o == Done(b) <==> size >= 0 && free)
            && (o == Waits <==> size >= 0 && !free && await)
            && (o == Failed(OutOfMemory) <==> size >= 0 && !free && !await)
            && (o.Failed? ==> t == s)
            && (o.Done? ==>
                  && Becomes(s, t, b, Buffer(size, was.counted, was.owner),
                             if was.counted then size - was.length else 0)
                  && t.pending == s.pending
                  && t.parked == if was.counted && size <= was.length then {} else s.parked)
            && (o.Waits? ==> t == s.(pending := s.pending[c := Grow(b, size, was.length)], parked := s.parked + {c}))
  {
  }

  // ---- release ----

  /** Only a counted buffer is released; everybody who sleeps is woken. */
  lemma ReleaseEffect(s: Pool, b: nat)
    requires b < |s.buffers|
    ensures var ((t, done), was) := (ReleaseStep(s, b), s.buffers[b]);
            && done == was.counted
            && (done ==> Becomes(s, t, b, Buffer(was.length, false, was.owner), 0 - was.length)
                         && t.pending == s.pending && t.parked == {})
            && (!done ==> t == s)
  {
  }

  // ---- another look ----

  /** A woken request is granted exactly when it fits by now; it then makes its new
      buffer or gives its buffer the size it asked for, and is no longer pending. */
  lemma RetryEffect(s: Pool, c: Coroutine)
    requires Sound(s) && c in s.pending && c !in s.parked
    ensures var ((t, o), r) := (RetryStep(s, c), s.pending[c]);
            var b := if r.Grow? then r.buffer else |s.buffers|;
            && (o == Done(b) <==> r.size + s.used <= s.totalSize)
            && (o == Waits <==> r.size + s.used > s.totalSize)
            && (o.Done? ==>
                  && Becomes(s, t, b, Buffer(r.size, true, c),
                             if r.Grow? then r.size - s.buffers[r.buffer].length else r.size)
                  && t.pending == s.pending - {c} && t.parked == s.parked)
            && (o.Waits? ==> t == s.(parked := s.parked + {c}))
  {
    var r := s.pending[c];
    assert Waiting(s, c, r);
    assert (s.pending - {c})[c := r] == s.pending;
  }

  /** Waiting loses nothing: a grow that looks again does what it would do if it
      were asked for only now. */
  lemma RetryIsResize(s: Pool, c: Coroutine)
    requires Sound(s) && c in s.pending && c !in s.parked && s.pending[c].Grow?
    ensures var r := s.pending[c];
            r.buffer < |s.buffers| && r.size > s.buffers[r.buffer].length
            && RetryStep(s, c) == ResizeStep(s.(pending := s.pending - {c}), c, r.buffer, r.size, true)
  {
    assert Waiting(s, c, s.pending[c]);
  }

  // ---- what a call undoes ----

  /** Releasing a new buffer gives back exactly what it took. */
  lemma ReleaseUndoes(s: Pool, c: Coroutine, size: int, await: bool)
    requires s.chunkSize > 0 && AllocateStep(s, c, size, await).1.Done?
    ensures var t := AllocateStep(s, c, size, await).0;
            var (u, done) := ReleaseStep(t, |s.buffers|);
            done && u.used == s.used && u.buffers[..|s.buffers|] == s.buffers && u.pending == s.pending
  {
    AllocateEffect(s, c, size, await);
    ReleaseEffect(AllocateStep(s, c, size, await).0, |s.buffers|);
  }

  /** A buffer that was given another size and then its old one leaves the pool as
      it was, up to those who were woken; the way back never waits unless the buffer
      is counted and grows again. */
  lemma ResizeBack(s: Pool, c: Coroutine, b: nat, size: int, await: bool)
    requires b < |s.buffers| && ResizeStep(s, c, b, size, await).1.Done?
    ensures var (t, length) := (ResizeStep(s, c, b, size, await).0, s.buffers[b].length);
            var (u, o) := ResizeStep(t, c, b, length, await);
            && (o == Done(b) <==> !s.buffers[b].counted || length <= size || length + t.used <= s.totalSize)
            && (o == Done(b) ==> u.(parked := s.parked) == s)
  {
    ResizeEffect(s, c, b, size, await);
    var t, length := ResizeStep(s, c, b, size, await).0, s.buffers[b].length;
    ResizeEffect(t, c, b, length, await);
    hide ResizeStep;
    var (u, o) := ResizeStep(t, c, b, length, await);
    if o.Done? {
      assert u.buffers == s.buffers;
    }
  }
}
