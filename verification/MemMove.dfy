/** memmove_wd() (image-board.c): a move in chunks, so that the watchdog can be served in between. */
module MemMove {

  /** `now` is `mem` after one move of `len` bytes from `from` to `to`. */
  ghost predicate Moved<T>(mem: seq<T>, now: seq<T>, to: nat, from: nat, len: nat) {
    && |now| == |mem| && to + len <= |mem| && from + len <= |mem|
    && (forall k :: to <= k < to + len ==> now[k] == mem[from + (k - to)])
    && (forall k :: 0 <= k < |mem| && !(to <= k < to + len) ==> now[k] == mem[k])
  }

  /** A move has one outcome. */
  lemma MovedUnique<T>(mem: seq<T>, a: seq<T>, b: seq<T>, to: nat, from: nat, len: nat)
    requires Moved(mem, a, to, from, len) && Moved(mem, b, to, from, len)
    ensures a == b
  {
    assert forall k :: 0 <= k < |mem| ==> a[k] == b[k];
  }

  /** Moving a front part down and then the next part moves both. */
  lemma MovedDown<T>(mem: seq<T>, mid: seq<T>, now: seq<T>, to: nat, from: nat, to': nat, from': nat, done: nat,
                     tail: nat)
    requires to < from && to' == to + done && from' == from + done
    requires Moved(mem, mid, to, from, done) && Moved(mid, now, to', from', tail)
    ensures Moved(mem, now, to, from, done + tail)
  {
  }

  /** Moving a back part up and then the part before it moves both. */
  lemma MovedUp<T>(mem: seq<T>, mid: seq<T>, now: seq<T>, to: nat, from: nat, to': nat, from': nat, done: nat,
                   tail: nat)
    requires from < to && to == to' + tail && from == from' + tail
    requires Moved(mem, mid, to, from, done) && Moved(mid, now, to', from', tail)
    ensures Moved(mem, now, to', from', done + tail)
  {
  }

  /** memmove() */
  method Move<T>(mem: array<T>, to: nat, from: nat, len: nat)
    requires to + len <= mem.Length && from + len <= mem.Length
    modifies mem
    ensures Moved(old(mem[..]), mem[..], to, from, len)
  {
    forall k | 0 <= k < len {
      mem[to + k] := mem[from + k];
    }
  }

  /** The loop of memmove_wd(). */
  method MoveChunks<T>(mem: array<T>, to0: nat, from0: nat, len0: nat, chunk: nat)
    requires to0 != from0 && to0 + len0 <= mem.Length && from0 + len0 <= mem.Length && chunk > 0
    modifies mem
    ensures Moved(old(mem[..]), mem[..], to0, from0, len0)
  {
    ghost var was := mem[..];
    ghost var done: nat := 0;
    var to: nat, from: nat, len: nat := to0, from0, len0;
    if to > from {
      from := from + len;
      to := to + len;
    }
    while len > 0
      invariant done + len == len0
      invariant to0 > from0 ==> to == to0 + len && from == from0 + len && Moved(was, mem[..], to, from, done)
      invariant to0 < from0 ==> to == to0 + done && from == from0 + done && Moved(was, mem[..], to0, from0, done)
    {
      var tail := if len > chunk then chunk else len;
      ghost var mid, to1, from1 := mem[..], to, from;
      if to > from {
        to := to - tail;
        from := from - tail;
      }
      Move(mem, to, from, tail);
      if to < from {
        MovedDown(was, mid, mem[..], to0, from0, to, from, done, tail);
        to := to + tail;
        from := from + tail;
      } else {
        MovedUp(was, mid, mem[..], to1, from1, to, from, done, tail);
      }
      done := done + tail;
      len := len - tail;
    }
  }

  /**
   memmove_wd(): whatever the overlap and the chunk size, the chunks leave memory as one whole move
   would. They go from the front when the target is below the source, and from the back otherwise.
   */
  method MoveWd<T>(mem: array<T>, to: nat, from: nat, len: nat, chunk: nat, watchdog: bool)
    requires to + len <= mem.Length && from + len <= mem.Length && chunk > 0
    modifies mem
    ensures Moved(old(mem[..]), mem[..], to, from, len)
  {
    if to == from {
      return;
    }
    if watchdog {
      MoveChunks(mem, to, from, len, chunk);
    } else {
      Move(mem, to, from, len);
    }
  }
}
