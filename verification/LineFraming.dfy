/** Splitting a byte stream that arrives in chunks into lines, with a bound on the unfinished
    line, for any line handler: the `while b"\\n" in self.buffer` loop of a stream check. */
module LineFraming {
  import opened Common

  const LIMIT := 2 * 1024 * 1024
  const NEWLINE: Byte := 10

  /** What handling one complete line does to the state: go on, or raise. */
  datatype Step<+S, +E> = Next(state: S) | Stop(state: S, error: E)

  type Handler<!S, !E> = (S, Bytes) -> Step<S, E>

  /** After a call: `buffer` is what was not consumed, `error` what was raised. */
  datatype Feeding<+S, +E> = Feeding(state: S, buffer: Bytes, error: Option<E>)

  /** The position of the first newline from `i` on, |b| when there is none. */
  function NewlineFrom(b: Bytes, i: nat): (n: nat)
    requires i <= |b|
    ensures i <= n <= |b| && (n < |b| ==> b[n] == NEWLINE) && forall k :: i <= k < n ==> b[k] != NEWLINE
    decreases |b| - i
  {
    if i == |b| || b[i] == NEWLINE then i else NewlineFrom(b, i + 1)
  }

  function Newline(b: Bytes): (n: nat)
    ensures n <= |b| && (n < |b| ==> b[n] == NEWLINE) && forall k :: 0 <= k < n ==> b[k] != NEWLINE
  {
    NewlineFrom(b, 0)
  }

  /** The fold over the complete lines of the buffer. */
  function Drain<S, E>(handle: Handler<S, E>, state: S, buffer: Bytes): (r: Feeding<S, E>)
    ensures |r.buffer| <= |buffer| && (r.error.None? ==> Newline(r.buffer) == |r.buffer|)
    decreases |buffer|
  {
    var n := Newline(buffer);
    if n == |buffer| then Feeding(state, buffer, None)
    else
      match handle(state, buffer[..n])
      case Next(next) => Drain(handle, next, buffer[n + 1..])
      case Stop(last, error) => Feeding(last, buffer[n + 1..], Some(error))
  }

  /** One call to `feed` with everything received so far in `buffer`. */
  function Feed<S, E>(handle: Handler<S, E>, tooLarge: E, state: S, buffer: Bytes): Feeding<S, E> {
    var r := Drain(handle, state, buffer);
    if r.error.None? && |r.buffer| > LIMIT then r.(error := Some(tooLarge)) else r
  }

  /** Feeding chunk after chunk until one call raises; the chunks never fed count as not
      consumed. */
  function FeedAll<S, E>(handle: Handler<S, E>, tooLarge: E, state: S, buffer: Bytes, chunks: seq<Bytes>): Feeding<S, E>
    decreases |chunks|
  {
    if chunks == [] then Feeding(state, buffer, None)
    else
      var r := Feed(handle, tooLarge, state, buffer + chunks[0]);
      if r.error.None? then FeedAll(handle, tooLarge, r.state, r.buffer, chunks[1..])
      else r.(buffer := r.buffer + Flatten(chunks[1..]))
  }

  lemma NewlineAt(b: Bytes, n: nat)
    requires n < |b| && b[n] == NEWLINE && forall k :: 0 <= k < n ==> b[k] != NEWLINE
    ensures Newline(b) == n
  {
  }

  lemma NewlineOfAppend(b: Bytes, more: Bytes)
    ensures Newline(b) < |b| ==> Newline(b + more) == Newline(b)
    ensures Newline(b) == |b| ==> Newline(b + more) == |b| + Newline(more)
  {
    var whole := b + more;
    if Newline(b) < |b| {
      NewlineAt(whole, Newline(b));
    } else {
      var m := Newline(more);
      assert forall k :: 0 <= k < |b| + m ==> whole[k] == if k < |b| then b[k] else more[k - |b|];
      if m < |more| {
        NewlineAt(whole, |b| + m);
      }
    }
  }

  /** The first line and the rest of a buffer that has one do not depend on what follows. */
  lemma FirstLineOfAppend(b: Bytes, more: Bytes)
    requires Newline(b) < |b|
    ensures var n := Newline(b);
            Newline(b + more) == n && (b + more)[..n] == b[..n] && (b + more)[n + 1..] == b[n + 1..] + more
  {
    NewlineOfAppend(b, more);
  }

  /** Draining before more bytes arrive does not change what draining everything gives. */
  lemma {:induction false} DrainThenMore<S, E>(handle: Handler<S, E>, state: S, buffer: Bytes, more: Bytes)
    ensures var r := Drain(handle, state, buffer);
            Drain(handle, state, buffer + more)
            == if r.error.None? then Drain(handle, r.state, r.buffer + more) else r.(buffer := r.buffer + more)
    decreases |buffer|
  {
    var n := Newline(buffer);
    if n < |buffer| {
      FirstLineOfAppend(buffer, more);
      var step := handle(state, buffer[..n]);
      if step.Next? {
        DrainThenMore(handle, step.state, buffer[n + 1..], more);
      }
    }
  }

  /** Every line the fold consumes, up to and including one that raises, is within the limit. */
  predicate ShortLines<S, E>(handle: Handler<S, E>, state: S, buffer: Bytes)
    decreases |buffer|
  {
    var n := Newline(buffer);
    n < |buffer| ==>
      && n <= LIMIT
      && match handle(state, buffer[..n])
         case Next(next) => ShortLines(handle, next, buffer[n + 1..])
         case Stop(_, _) => true
  }

  lemma {:induction false} ShortLinesAfter<S, E>(handle: Handler<S, E>, state: S, buffer: Bytes, more: Bytes)
    requires ShortLines(handle, state, buffer + more) && Drain(handle, state, buffer).error.None?
    ensures var r := Drain(handle, state, buffer); ShortLines(handle, r.state, r.buffer + more)
    decreases |buffer|
  {
    var n := Newline(buffer);
    if n < |buffer| {
      var next := handle(state, buffer[..n]).state;
      ShortAfterFirst(handle, state, buffer, more);
      ShortLinesAfter(handle, next, buffer[n + 1..], more);
      assert Drain(handle, state, buffer) == Drain(handle, next, buffer[n + 1..]);
    }
  }

  lemma ShortAfterFirst<S, E>(handle: Handler<S, E>, state: S, buffer: Bytes, more: Bytes)
    requires ShortLines(handle, state, buffer + more) && Drain(handle, state, buffer).error.None?
    requires Newline(buffer) < |buffer|
    ensures var n := Newline(buffer);
            var step := handle(state, buffer[..n]);
            && step.Next? && ShortLines(handle, step.state, buffer[n + 1..] + more)
            && Drain(handle, step.state, buffer[n + 1..]).error.None?
  {
    FirstLineOfAppend(buffer, more);
  }

  /** A too long unfinished line stays unfinished when the lines consumed are short. */
  lemma LongTailStays<S, E>(handle: Handler<S, E>, state: S, buffer: Bytes, more: Bytes)
    requires ShortLines(handle, state, buffer + more) && Newline(buffer) == |buffer| > LIMIT
    ensures Drain(handle, state, buffer + more) == Feeding(state, buffer + more, None)
  {
    NewlineOfAppend(buffer, more);
  }

  /** With short lines every cut of the stream gives the result of the uncut stream: the same
      state and buffer, or the same error with the same bytes left unread. */
  lemma {:induction false} CutsAgree<S, E>(
      handle: Handler<S, E>, tooLarge: E, state: S, buffer: Bytes, chunks: seq<Bytes>)
    requires chunks != []
    requires ShortLines(handle, state, buffer + Flatten(chunks))
    ensures FeedAll(handle, tooLarge, state, buffer, chunks) == Feed(handle, tooLarge, state, buffer + Flatten(chunks))
    decreases |chunks|
  {
    var taken, later := buffer + chunks[0], Flatten(chunks[1..]);
    assert buffer + Flatten(chunks) == taken + later;
    DrainThenMore(handle, state, taken, later);
    var r := Drain(handle, state, taken);
    if r.error.None? {
      ShortLinesAfter(handle, state, taken, later);
      if |r.buffer| > LIMIT {
        LongTailStays(handle, r.state, r.buffer, later);
      } else if |chunks| == 1 {
        assert r.buffer + later == r.buffer;
      } else {
        CutsAgree(handle, tooLarge, r.state, r.buffer, chunks[1..]);
      }
    }
  }

  /** Where a line is too long, cutting inside it raises the size failure with that line still
      unread, while the uncut stream reads past it. */
  lemma {:induction false} LongLineCut<S, E>(
      handle: Handler<S, E>, tooLarge: E, state: S, buffer: Bytes) returns (k: nat)
    requires !ShortLines(handle, state, buffer)
    ensures k <= |buffer|
    ensures var r := Feed(handle, tooLarge, state, buffer[..k]);
            r.error.Some? && |r.buffer| + |buffer| - k > |Drain(handle, state, buffer).buffer|
    decreases |buffer|
  {
    var n := Newline(buffer);
    if n > LIMIT {
      k := LIMIT + 1;
      assert Drain(handle, state, buffer[..k]) == Feeding(state, buffer[..k], None);
    } else {
      var next := handle(state, buffer[..n]).state;
      var rest := LongLineCut(handle, tooLarge, next, buffer[n + 1..]);
      k := n + 1 + rest;
      NewlineAt(buffer[..k], n);
      assert buffer[..k][..n] == buffer[..n] && buffer[..k][n + 1..] == buffer[n + 1..][..rest];
    }
  }

  lemma OneChunk<S, E>(handle: Handler<S, E>, tooLarge: E, state: S, bytes: Bytes)
    ensures |FeedAll(handle, tooLarge, state, [], [bytes]).buffer| == |Drain(handle, state, bytes).buffer|
  {
    assert [bytes][1..] == [] && [] + bytes == bytes;
  }

  lemma FailingFirstChunk<S, E>(handle: Handler<S, E>, tooLarge: E, state: S, first: Bytes, second: Bytes)
    requires Feed(handle, tooLarge, state, first).error.Some?
    ensures |FeedAll(handle, tooLarge, state, [], [first, second]).buffer|
         == |Feed(handle, tooLarge, state, first).buffer| + |second|
  {
    assert [first, second][1..] == [second] && [] + first == first;
    assert Flatten([second]) == second + Flatten<Byte>([]);
  }

  lemma FlattenTwo(bytes: Bytes, k: nat)
    requires k <= |bytes|
    ensures Flatten([bytes]) == bytes && Flatten([bytes[..k], bytes[k..]]) == bytes
  {
    assert [bytes[..k], bytes[k..]][1..] == [bytes[k..]];
    assert Flatten([bytes[k..]]) == bytes[k..] + Flatten<Byte>([]);
  }

  /** Exactly when does the cut not matter?  All ways of cutting `bytes` agree if and only if
      every line consumed, up to the first failing one, is at most LIMIT bytes long. */
  lemma CutIndependence<S, E>(handle: Handler<S, E>, tooLarge: E, state: S, bytes: Bytes)
    ensures ShortLines(handle, state, bytes)
       <==> forall a: seq<Bytes>, b: seq<Bytes> ::
              a != [] && b != [] && Flatten(a) == bytes && Flatten(b) == bytes
              ==> FeedAll(handle, tooLarge, state, [], a) == FeedAll(handle, tooLarge, state, [], b)
  {
    if ShortLines(handle, state, bytes) {
      assert [] + bytes == bytes;
      forall a: seq<Bytes>, b: seq<Bytes> | a != [] && b != [] && Flatten(a) == bytes && Flatten(b) == bytes
        ensures FeedAll(handle, tooLarge, state, [], a) == FeedAll(handle, tooLarge, state, [], b)
      {
        CutsAgree(handle, tooLarge, state, [], a);
        CutsAgree(handle, tooLarge, state, [], b);
      }
    } else {
      var k := LongLineCut(handle, tooLarge, state, bytes);
      FlattenTwo(bytes, k);
      OneChunk(handle, tooLarge, state, bytes);
      FailingFirstChunk(handle, tooLarge, state, bytes[..k], bytes[k..]);
    }
  }

  /** Feeding one more chunk after the others. */
  lemma {:induction false} FeedAllSnoc<S, E>(
      handle: Handler<S, E>, tooLarge: E, state: S, buffer: Bytes, chunks: seq<Bytes>, last: Bytes)
    requires FeedAll(handle, tooLarge, state, buffer, chunks).error.None?
    ensures var r := FeedAll(handle, tooLarge, state, buffer, chunks);
            FeedAll(handle, tooLarge, state, buffer, chunks + [last]) ==
                Feed(handle, tooLarge, r.state, r.buffer + last)
    decreases |chunks|
  {
    var all := chunks + [last];
    if chunks == [] {
      assert all[1..] == [];
      var r := Feed(handle, tooLarge, state, buffer + last);
      assert r.buffer + [] == r.buffer;
    } else {
      assert all[0] == chunks[0] && all[1..] == chunks[1..] + [last];
      var r := Feed(handle, tooLarge, state, buffer + chunks[0]);
      FeedAllSnoc(handle, tooLarge, r.state, r.buffer, chunks[1..], last);
    }
  }
}
