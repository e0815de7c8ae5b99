/** The bounded, filtered copy of a child's output into its log. Text is ASCII, so a character
    is a byte. */
module LogStream {

  const NEWLINE := '\n'
  const MAX_PENDING: nat := 128 * 1024
  const FRAGMENT: nat := 64 * 1024

  function Concat(parts: seq<string>): string {
    if parts == [] then "" else parts[0] + Concat(parts[1..])
  }

  lemma {:induction false} ConcatAppend(a: seq<string>, b: seq<string>)
    ensures Concat(a + b) == Concat(a) + Concat(b)
  {
    if a == [] {
      assert a + b == b;
    } else {
      assert (a + b)[1..] == a[1..] + b;
      ConcatAppend(a[1..], b);
    }
  }

  lemma ConcatCons(s: string, a: seq<string>)
    ensures Concat([s] + a) == s + Concat(a)
    ensures a == [] ==> Concat([s]) == s
  {
    assert ([s] + a)[1..] == a;
  }

  lemma ConcatOne(a: seq<string>, s: string)
    ensures Concat(a + [s]) == Concat(a) + s
  {
    ConcatAppend(a, [s]);
    ConcatCons(s, []);
  }

  /** The index of the first newline. */
  function FirstNewline(s: string): (i: nat)
    requires NEWLINE in s
    ensures i < |s| && s[i] == NEWLINE && forall j | 0 <= j < i :: s[j] != NEWLINE
  {
    if s[0] == NEWLINE then 0 else FirstNewline(s[1..]) + 1
  }

  /** The stream cut after each newline; the last part may lack one. */
  function Lines(s: string): seq<string>
    decreases |s|
  {
    if s == "" then []
    else if NEWLINE !in s then [s]
    else [s[..FirstNewline(s) + 1]] + Lines(s[FirstNewline(s) + 1..])
  }

  /** A line that has been completed. */
  predicate Complete(l: string) {
    l != "" && l[|l| - 1] == NEWLINE && forall j | 0 <= j < |l| - 1 :: l[j] != NEWLINE
  }

  lemma FirstNewlineOfLine(l: string, rest: string)
    requires Complete(l)
    ensures NEWLINE in l + rest && FirstNewline(l + rest) == |l| - 1
  {
    var s := l + rest;
    assert s[|l| - 1] == NEWLINE;
    assert forall j | 0 <= j < |l| - 1 :: s[j] == l[j];
  }

  lemma LinesOfLine(l: string, rest: string)
    requires Complete(l)
    ensures Lines(l + rest) == [l] + Lines(rest)
  {
    FirstNewlineOfLine(l, rest);
    assert (l + rest)[..|l|] == l && (l + rest)[|l|..] == rest;
  }

  /** Completed lines are cut off the same way whatever follows. */
  lemma {:induction false} LinesAfter(done: seq<string>, rest: string)
    requires forall l | l in done :: Complete(l)
    ensures Lines(Concat(done) + rest) == done + Lines(rest)
  {
    hide Complete, Lines;
    if done == [] {
      assert Concat(done) + rest == rest;
      assert done + Lines(rest) == Lines(rest);
    } else {
      var l, tail := done[0], done[1..];
      assert l in done;
      assert forall x | x in tail :: x in done;
      LinesAfter(tail, rest);
      LinesOfLine(l, Concat(tail) + rest);
      assert Concat(done) + rest == l + (Concat(tail) + rest);
      assert done + Lines(rest) == [l] + (tail + Lines(rest));
    }
  }

  lemma {:induction false} LinesConcat(s: string)
    ensures Concat(Lines(s)) == s
    decreases |s|
  {
    if s != "" && NEWLINE in s {
      var i := FirstNewline(s) + 1;
      LinesConcat(s[i..]);
      ConcatCons(s[..i], Lines(s[i..]));
      assert s == s[..i] + s[i..];
    } else if s != "" {
      ConcatCons(s, []);
    }
  }

  lemma LineIsComplete(s: string, i: nat)
    requires NEWLINE in s && i == FirstNewline(s)
    ensures Complete(s[..i + 1]) && s == s[..i + 1] + s[i + 1..]
  {
  }

  function Body(l: string): nat {
    if l != "" && l[|l| - 1] == NEWLINE then |l| - 1 else |l|
  }

  /** No line, its newline aside, is longer than the pending limit. */
  predicate ShortLines(s: string) {
    forall l | l in Lines(s) :: Body(l) <= MAX_PENDING
  }

  /** Text without a newline is at most one line's worth of what is still to come. */
  lemma PendingIsBounded(done: seq<string>, pending: string, future: string)
    requires forall l | l in done :: Complete(l)
    requires NEWLINE !in pending && ShortLines(Concat(done) + pending + future)
    ensures |pending| <= MAX_PENDING
  {
    var tail := pending + future;
    assert Concat(done) + pending + future == Concat(done) + tail;
    LinesAfter(done, tail);
    if pending != "" {
      var first := Lines(tail)[0];
      assert first in Lines(Concat(done) + tail);
      assert forall j | 0 <= j < |pending| :: tail[j] == pending[j];
      if NEWLINE in tail {
        assert first == tail[..FirstNewline(tail) + 1];
      } else {
        assert first == tail;
      }
    }
  }

  // ----- Filtering and truncation -----

  /** What the filter lets through. */
  function Kept(noisy: string -> bool, fragments: seq<string>): string {
    if fragments == [] then ""
    else Kept(noisy, fragments[..|fragments| - 1])
         + (if noisy(fragments[|fragments| - 1]) then "" else fragments[|fragments| - 1])
  }

  lemma KeptOne(noisy: string -> bool, fragments: seq<string>, f: string)
    ensures Kept(noisy, fragments + [f]) == Kept(noisy, fragments) + (if noisy(f) then "" else f)
  {
    assert (fragments + [f])[..|fragments|] == fragments;
  }

  lemma KeptEmpty(noisy: string -> bool, fragments: seq<string>)
    ensures Kept(noisy, fragments + [""]) == Kept(noisy, fragments)
  {
    KeptOne(noisy, fragments, "");
  }

  function Truncate(s: string, capacity: nat): string {
    if |s| <= capacity then s else s[..capacity]
  }

  /** The batch result: the log's old text, then the filtered fragments, cut to the room left. */
  function Expected(noisy: string -> bool, before: string, maxBytes: nat, fragments: seq<string>): string {
    before + Truncate(Kept(noisy, fragments), Room(before, maxBytes))
  }

  function Room(before: string, maxBytes: nat): nat {
    if |before| < maxBytes then maxBytes - |before| else 0
  }

  predicate Overflows(noisy: string -> bool, before: string, maxBytes: nat, fragments: seq<string>) {
    |Kept(noisy, fragments)| > Room(before, maxBytes)
  }

  class ChildLog {
    const noisy: string -> bool
    const maxBytes: nat
    var text: string
    var writtenBytes: nat
    var limitSet: bool

    constructor (noisy: string -> bool, maxBytes: nat, text: string)
      ensures this.noisy == noisy && this.maxBytes == maxBytes && this.text == text
      ensures writtenBytes == |text| && !limitSet
    {
      this.noisy := noisy;
      this.maxBytes := maxBytes;
      this.text := text;
      writtenBytes := |text|;
      limitSet := false;
    }

    /** The log holds the batch result for the fragments emitted so far. */
    predicate Holds(before: string, fragments: seq<string>)
      reads this
    {
      && text == Expected(noisy, before, maxBytes, fragments)
      && writtenBytes == |text|
      && (limitSet <==> Overflows(noisy, before, maxBytes, fragments))
    }

    method Emit(fragment: string, ghost before: string, ghost emitted: seq<string>)
      requires Holds(before, emitted)
      modifies this
      ensures Holds(before, emitted + [fragment])
    {
      KeptOne(noisy, emitted, fragment);
      hide Kept;
      if fragment == "" || noisy(fragment) {
        return;
      }
      var remaining := if writtenBytes < maxBytes then maxBytes - writtenBytes else 0;
      if remaining <= 0 {
        limitSet := true;
        return;
      }
      var kept := if |fragment| <= remaining then fragment else fragment[..remaining];
      text := text + kept;
      writtenBytes := writtenBytes + |kept|;
      if |fragment| > remaining {
        limitSet := true;
      }
    }

    /** The inner loop: every completed line of the pending text is emitted. */
    method EmitLines(text_: string, ghost before: string, ghost emitted: seq<string>)
      returns (pending: string, ghost fragments: seq<string>)
      requires Holds(before, emitted)
      modifies this
      ensures Holds(before, emitted + fragments)
      ensures NEWLINE !in pending && Concat(fragments) + pending == text_
      ensures forall l | l in fragments :: Complete(l)
    {
      hide Expected, Overflows, Concat, Holds, Complete;
      pending := text_;
      fragments := [];
      assert emitted + fragments == emitted;
      ConcatNone();
      while NEWLINE in pending
        invariant Holds(before, emitted + fragments)
        invariant Concat(fragments) + pending == text_
        invariant forall l | l in fragments :: Complete(l)
        decreases |pending|
      {
        var i := FirstNewline(pending);
        var line := pending[..i + 1];
        LineIsComplete(pending, i);
        Emit(line, before, emitted + fragments);
        ConcatOne(fragments, line);
        Associative(Concat(fragments), line, pending[i + 1..]);
        assert emitted + fragments + [line] == emitted + (fragments + [line]);
        fragments := fragments + [line];
        pending := pending[i + 1..];
      }
    }

    lemma HoldsMeans(before: string, fragments: seq<string>, stream: string)
      requires Holds(before, fragments)
      ensures text == Expected(noisy, before, maxBytes, fragments)
      ensures limitSet <==> Overflows(noisy, before, maxBytes, fragments)
      ensures Kept(noisy, fragments) == Kept(noisy, Lines(stream)) ==>
        && text == Expected(noisy, before, maxBytes, Lines(stream))
        && (limitSet <==> Overflows(noisy, before, maxBytes, Lines(stream)))
    {
      if Kept(noisy, fragments) == Kept(noisy, Lines(stream)) {
        KeptDetermines(noisy, before, maxBytes, fragments, Lines(stream));
      }
    }

    /** _stream_child_log. The fragments it emits always make up the whole stream, so nothing is
        lost or reordered, all but the last are whole lines or pieces of a long one, and the log never
        outgrows its cap. When no line exceeds the pending
        limit the log and the verdict are those of the batch computation on the whole stream:
        they do not depend on how the stream was cut into chunks. */
    method StreamChildLog(chunks: seq<string>) returns (ghost fragments: seq<string>)
      requires writtenBytes == |text| && !limitSet
      modifies this
      ensures Concat(fragments) == Concat(chunks)
      ensures text == Expected(noisy, old(text), maxBytes, fragments)
      ensures limitSet <==> Overflows(noisy, old(text), maxBytes, fragments)
      ensures fragments != [] && NEWLINE !in fragments[|fragments| - 1] && AllPieces(fragments[..|fragments| - 1])
      ensures ShortLines(Concat(chunks)) ==>
        && text == Expected(noisy, old(text), maxBytes, Lines(Concat(chunks)))
        && (limitSet <==> Overflows(noisy, old(text), maxBytes, Lines(Concat(chunks))))
      ensures |text| <= if |old(text)| < maxBytes then maxBytes else |old(text)|
    {
      ghost var before := text;
      ghost var stream := Concat(chunks);
      fragments := [];
      var pending := "";
      assert text == before + "";
      assert Holds(before, []);
      hide Concat, ShortLines, Kept, Lines, Complete, Holds;
      JoinedStart(chunks);
      hide Joined;
      for k := 0 to |chunks|
        invariant Holds(before, fragments)
        invariant NEWLINE !in pending && Joined(chunks, k, fragments, pending)
        invariant ShortLines(stream) ==> AllComplete(fragments)
        invariant AllPieces(fragments)
      {
        if ShortLines(stream) {
          NoSplitOfShortLines(chunks, k, fragments, pending);
        }
        ghost var more: seq<string>;
        ghost var pendingBefore := pending;
        pending, more := DrainChunk(pending + chunks[k], before, fragments);
        JoinedStep(chunks, k, fragments, pendingBefore, more, pending);
        fragments := fragments + more;
      }
      Emit(pending, before, fragments);
      ghost var done := fragments;
      JoinedEnd(chunks, fragments, pending);
      if ShortLines(stream) {
        LastFragment(noisy, fragments, pending);
      }
      fragments := fragments + [pending];
      assert fragments[..|fragments| - 1] == done;
      ExpectedBounded(noisy, before, maxBytes, fragments);
      HoldsMeans(before, fragments, stream);
    }

    /** One chunk joined to the pending text: lines are emitted, and what remains loses a
        fixed-size piece when it has grown too long. */
    method DrainChunk(text_: string, ghost before: string, ghost emitted: seq<string>)
      returns (pending: string, ghost fragments: seq<string>)
      requires Holds(before, emitted)
      modifies this
      ensures Holds(before, emitted + fragments)
      ensures NEWLINE !in pending && Concat(fragments) + pending == text_
      ensures NeverLong(text_) ==> AllComplete(fragments)
      ensures AllPieces(fragments)
    {
      hide Holds, Concat, Complete;
      pending, fragments := EmitLines(text_, before, emitted);
      if |pending| > MAX_PENDING {
        Emit(pending[..FRAGMENT], before, emitted + fragments);
        assert emitted + fragments + [pending[..FRAGMENT]] == emitted + (fragments + [pending[..FRAGMENT]]);
        ConcatOne(fragments, pending[..FRAGMENT]);
        assert pending == pending[..FRAGMENT] + pending[FRAGMENT..];
        assert Concat(fragments) + pending[..FRAGMENT] + pending[FRAGMENT..] == text_;
        fragments := fragments + [pending[..FRAGMENT]];
        pending := pending[FRAGMENT..];
      }
    }
  }

  /** However the text splits into completed lines and a rest, the rest is within the limit. */
  ghost predicate NeverLong(s: string) {
    forall lines, rest | AllComplete(lines) && NEWLINE !in rest && Concat(lines) + rest == s :: |rest| <= MAX_PENDING
  }

  predicate AllComplete(fragments: seq<string>) {
    forall l | l in fragments :: Complete(l)
  }

  /** Completed lines, and pieces of 65536 characters of a longer one. */
  predicate AllPieces(fragments: seq<string>) {
    forall f | f in fragments :: Complete(f) || (|f| == 65536 && NEWLINE !in f)
  }

  /** The fragments so far and the pending text are the first k chunks. */
  ghost predicate Joined(chunks: seq<string>, k: nat, fragments: seq<string>, pending: string) {
    k <= |chunks| && Concat(fragments) + pending == Concat(chunks[..k])
  }

  lemma JoinedStart(chunks: seq<string>)
    ensures Joined(chunks, 0, [], "")
  {
  }

  lemma Associative(a: string, b: string, c: string)
    ensures a + b + c == a + (b + c)
  {
  }

  lemma JoinedStep(chunks: seq<string>, k: nat, fragments: seq<string>, pending: string, more: seq<string>,
                   after: string)
    requires k < |chunks| && Joined(chunks, k, fragments, pending)
    requires Concat(more) + after == pending + chunks[k]
    ensures Joined(chunks, k + 1, fragments + more, after)
  {
    ConcatAppend(fragments, more);
    assert chunks[..k + 1] == chunks[..k] + [chunks[k]];
    ConcatOne(chunks[..k], chunks[k]);
    hide Concat;
    Associative(Concat(fragments), Concat(more), after);
    Associative(Concat(fragments), pending, chunks[k]);
  }

  lemma JoinedEnd(chunks: seq<string>, fragments: seq<string>, pending: string)
    requires Joined(chunks, |chunks|, fragments, pending)
    ensures Concat(fragments + [pending]) == Concat(chunks) == Concat(fragments) + pending
  {
    assert chunks[..|chunks|] == chunks;
    ConcatOne(fragments, pending);
  }

  lemma RestBounded(chunks: seq<string>, k: nat, done: seq<string>, rest: string)
    requires ShortLines(Concat(chunks)) && AllComplete(done) && NEWLINE !in rest
    requires Joined(chunks, k, done, rest)
    ensures |rest| <= MAX_PENDING
  {
    assert chunks == chunks[..k] + chunks[k..];
    ConcatAppend(chunks[..k], chunks[k..]);
    hide Concat, ShortLines, Complete;
    PendingIsBounded(done, rest, Concat(chunks[k..]));
  }

  lemma NoSplitOfShortLines(chunks: seq<string>, k: nat, done: seq<string>, pending: string)
    requires k < |chunks| && ShortLines(Concat(chunks))
    requires AllComplete(done) && Joined(chunks, k, done, pending)
    ensures NeverLong(pending + chunks[k])
  {
    hide Complete, ShortLines, Concat, Joined;
    forall lines, rest | AllComplete(lines) && NEWLINE !in rest && Concat(lines) + rest == pending + chunks[k]
      ensures |rest| <= MAX_PENDING
    {
      JoinedStep(chunks, k, done, pending, lines, rest);
      RestBounded(chunks, k + 1, done + lines, rest);
    }
  }

  lemma KeptDetermines(noisy: string -> bool, before: string, maxBytes: nat, a: seq<string>, b: seq<string>)
    requires Kept(noisy, a) == Kept(noisy, b)
    ensures Expected(noisy, before, maxBytes, a) == Expected(noisy, before, maxBytes, b)
    ensures Overflows(noisy, before, maxBytes, a) <==> Overflows(noisy, before, maxBytes, b)
  {
  }

  lemma ConcatNone()
    ensures Concat([]) == ""
  {
  }

  lemma ExpectedBounded(noisy: string -> bool, before: string, maxBytes: nat, fragments: seq<string>)
    ensures |Expected(noisy, before, maxBytes, fragments)| <= if |before| < maxBytes then maxBytes else |before|
  {
  }

  lemma LastFragment(noisy: string -> bool, done: seq<string>, pending: string)
    requires forall l | l in done :: Complete(l)
    requires NEWLINE !in pending
    ensures Kept(noisy, done + [pending]) == Kept(noisy, Lines(Concat(done) + pending))
  {
    LinesAfter(done, pending);
    if pending == "" {
      KeptEmpty(noisy, done);
      assert done + Lines(pending) == done;
    } else {
      assert done + Lines(pending) == done + [pending];
    }
  }
}
