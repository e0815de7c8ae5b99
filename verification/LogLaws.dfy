/** The log restated on its text: which fragments are kept, where the text is cut, and what a line is. */
module LogLaws {
  import opened LogStream

  /** Filtering goes fragment by fragment, in order. */
  lemma {:induction false} KeptOnFragments(noisy: string -> bool, a: seq<string>, b: seq<string>)
    ensures Kept(noisy, a + b) == Kept(noisy, a) + Kept(noisy, b)
    decreases |b|
  {
    if b == [] {
      assert a + b == a && Kept(noisy, b) == "";
    } else {
      var init, last := b[..|b| - 1], b[|b| - 1];
      assert b == init + [last] && a + b == (a + init) + [last];
      KeptOnFragments(noisy, a, init);
      KeptOne(noisy, init, last);
      KeptOne(noisy, a + init, last);
      hide Kept;
    }
  }

  /** It drops the noisy fragments and keeps the others whole. */
  lemma {:induction false} KeptAllOrNothing(noisy: string -> bool, a: seq<string>)
    ensures (forall f | f in a :: noisy(f)) ==> Kept(noisy, a) == ""
    ensures (forall f | f in a :: !noisy(f)) ==> Kept(noisy, a) == Concat(a)
    decreases |a|
  {
    if a != [] {
      var init, last := a[..|a| - 1], a[|a| - 1];
      assert a == init + [last] && last in a && forall f | f in init :: f in a;
      KeptAllOrNothing(noisy, init);
      KeptOne(noisy, init, last);
      ConcatOne(init, last);
      hide Kept, Concat;
    }
  }

  /** The log is its old text and then the kept text, up to the cap, which only the old text may exceed; the
      flag is set exactly when some of the kept text is missing. */
  lemma ExpectedOnText(noisy: string -> bool, before: string, maxBytes: nat, fragments: seq<string>)
    ensures var log, all := Expected(noisy, before, maxBytes, fragments), before + Kept(noisy, fragments);
      && before <= log <= all
      && (|all| <= maxBytes ==> log == all)
      && (|all| > maxBytes ==> |log| == if |before| < maxBytes then maxBytes else |before|)
      && (Overflows(noisy, before, maxBytes, fragments) <==> log != all)
  {
    hide Kept;
    var kept := Kept(noisy, fragments);
    var log, all := Expected(noisy, before, maxBytes, fragments), before + kept;
    assert all[..|log|] == log;
    assert log[..|before|] == before;
  }

  /** A line ends with the only newline in it; the last one of the stream may lack it. With the lines making
      up the stream, that fixes them. */
  lemma {:induction false} LinesOnText(s: string)
    ensures var lines := Lines(s);
      && Concat(lines) == s
      && (forall i | 0 <= i < |lines| - 1 :: Complete(lines[i]))
      && (lines != [] ==> Complete(lines[|lines| - 1]) || (lines[|lines| - 1] != "" && NEWLINE !in lines[|lines| - 1]))
    decreases |s|
  {
    LinesConcat(s);
    if s != "" && NEWLINE in s {
      var i := FirstNewline(s);
      LineIsComplete(s, i);
      LinesOnText(s[i + 1..]);
    }
  }

  lemma {:induction false} LinesAreThose(lines: seq<string>)
    requires forall i | 0 <= i < |lines| - 1 :: Complete(lines[i])
    requires lines != [] ==>
               Complete(lines[|lines| - 1]) || (lines[|lines| - 1] != "" && NEWLINE !in lines[|lines| - 1])
    ensures Lines(Concat(lines)) == lines
  {
    if lines == [] {
    } else if |lines| == 1 && !Complete(lines[0]) {
      ConcatCons(lines[0], []);
      assert lines == [lines[0]];
    } else {
      LinesOfLine(lines[0], Concat(lines[1..]));
      LinesAreThose(lines[1..]);
    }
  }

  predicate Unbroken(s: string, i: int, j: int) {
    0 <= i <= j <= |s| && forall k | i <= k < j :: s[k] != NEWLINE
  }

  /** The streams whose log does not depend on the chunks: no stretch without a newline has more than 131072
      characters. */
  lemma ShortOnText(s: string)
    ensures ShortLines(s) <==> forall i, j | Unbroken(s, i, j) :: j - i <= 131072
  {
    if ShortLines(s) {
      forall i, j | Unbroken(s, i, j) ensures j - i <= 131072 {
        StretchInLine(s, i, j);
      }
    }
    if forall i, j | Unbroken(s, i, j) :: j - i <= 131072 {
      forall l | l in Lines(s) ensures Body(l) <= MAX_PENDING {
        var i := LineInText(s, l);
        assert Unbroken(s, i, i + Body(l));
      }
    }
  }

  /** A stretch without a newline lies in one line. */
  lemma {:induction false} StretchInLine(s: string, i: nat, j: nat)
    requires i <= j <= |s| && forall k | i <= k < j :: s[k] != NEWLINE
    ensures i == j || exists l :: l in Lines(s) && j - i <= Body(l)
    decreases |s|
  {
    if i < j {
      if NEWLINE !in s {
        assert s in Lines(s);
      } else {
        var n := FirstNewline(s);
        var line, rest := s[..n + 1], s[n + 1..];
        assert Lines(s) == [line] + Lines(rest);
        if j <= n {
          assert line in Lines(s) && Body(line) == n;
        } else {
          assert i > n;
          assert forall k | i - n - 1 <= k < j - n - 1 :: rest[k] == s[k + n + 1];
          StretchInLine(rest, i - n - 1, j - n - 1);
          var l :| l in Lines(rest) && j - i <= Body(l);
          assert l in Lines(s);
        }
      }
    }
  }

  /** And a line's text is such a stretch. */
  lemma {:induction false} LineInText(s: string, l: string) returns (i: nat)
    requires l in Lines(s)
    ensures i + Body(l) <= |s| && forall k | i <= k < i + Body(l) :: s[k] != NEWLINE
    decreases |s|
  {
    i := 0;
    if NEWLINE in s {
      var n := FirstNewline(s);
      var line, rest := s[..n + 1], s[n + 1..];
      assert Lines(s) == [line] + Lines(rest);
      if l != line {
        var m := LineInText(rest, l);
        i := n + 1 + m;
        assert forall k | i <= k < i + Body(l) :: s[k] == rest[k - n - 1];
      }
    }
  }
}
