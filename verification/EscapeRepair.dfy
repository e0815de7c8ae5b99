/** Reading model output as JSON: protecting known LaTeX commands and repairing invalid escapes. */
module EscapeRepair {
  import opened Text
  import opened Wrappers

  const MAX_REPAIRS: nat := 4096

  function Commands(): set<string> {
    {
      "backslash", "begin", "beta", "bigcap", "bigcup", "bigl", "bigr", "bigwedge", "frac", "nabla", "neq", "nleq",
      "nolimits", "not", "rho", "right", "tau", "text", "theta", "times", "underbrace", "underline", "uparrow",
      "upsilon"
    }
  }

  // ----- Protecting known commands -----

  predicate IsLetter(c: char) {
    'a' <= c <= 'z' || 'A' <= c <= 'Z'
  }

  function LetterRun(t: string): (r: string)
    ensures r <= t && (forall c | c in r :: IsLetter(c)) && (|r| == |t| || !IsLetter(t[|r|]))
  {
    if t == "" || !IsLetter(t[0]) then "" else [t[0]] + LetterRun(t[1..])
  }

  /** What follows the backslash in the pattern: a listed command with no letter after it. */
  ghost predicate MatchesCommand(t: string) {
    exists c :: c in Commands() && c <= t && (|c| == |t| || !IsLetter(t[|c|]))
  }

  predicate IsCommand(t: string) {
    LetterRun(t) in Commands()
  }

  predicate AllLetters(t: string) {
    forall c | c in t :: IsLetter(c)
  }

  lemma CommandsAreWords()
    ensures forall c | c in Commands() :: AllLetters(c) && c != ""
  {
  }

  lemma {:induction false} RunIsLongest(t: string, c: string)
    requires AllLetters(c) && c <= t && (|c| == |t| || !IsLetter(t[|c|]))
    ensures LetterRun(t) == c
  {
    if c == "" {
    } else {
      RunIsLongest(t[1..], c[1..]);
    }
  }

  /** At most one listed command can match: the whole run of letters. */
  lemma MatchIsWholeRun(t: string)
    ensures MatchesCommand(t) <==> IsCommand(t)
  {
    CommandsAreWords();
    if MatchesCommand(t) {
      var c :| c in Commands() && c <= t && (|c| == |t| || !IsLetter(t[|c|]));
      RunIsLongest(t, c);
    }
  }

  /** _protect_known_latex_json_escapes: one more backslash before each lone backslash that starts a
      listed command. `after` says that the character before `t` is a backslash. */
  function Protect(t: string, after: bool): (r: string) {
    if t == "" then ""
    else
      var rest := [t[0]] + Protect(t[1..], t[0] == '\\');
      if t[0] == '\\' && !after && IsCommand(t[1..]) then "\\" + rest else rest
  }

  lemma {:induction false} RunKept(t: string, after: bool)
    ensures LetterRun(Protect(t, after)) == LetterRun(t)
    ensures IsCommand(Protect(t, after)) == IsCommand(t)
  {
    hide Commands, IsCommand;
    if t == "" {
    } else if IsLetter(t[0]) {
      RunKept(t[1..], false);
      assert Protect(t, after) == [t[0]] + Protect(t[1..], false);
      assert Protect(t, after)[1..] == Protect(t[1..], false);
    } else {
      assert Protect(t, after)[0] == t[0];
    }
    SameRunSameCommand(Protect(t, after), t);
  }

  lemma SameRunSameCommand(t: string, u: string)
    requires LetterRun(t) == LetterRun(u)
    ensures IsCommand(t) == IsCommand(u)
  {
  }

  lemma ProtectCons(c: char, t: string, after: bool)
    ensures Protect([c] + t, after) ==
            var rest := [c] + Protect(t, c == '\\');
            if c == '\\' && !after && IsCommand(t) then "\\" + rest else rest
  {
    hide IsCommand;
    assert ([c] + t)[1..] == t;
  }

  lemma BackslashIsNoCommand(t: string)
    ensures !IsCommand("\\" + t)
  {
    assert LetterRun("\\" + t) == "";
  }

  /** A second application finds nothing left to protect. */
  lemma {:induction false} ProtectTwice(t: string, after: bool)
    ensures Protect(Protect(t, after), after) == Protect(t, after)
  {
    if t != "" {
      var back := t[0] == '\\';
      var rest := Protect(t[1..], back);
      ProtectTwice(t[1..], back);
      RunKept(t[1..], back);
      hide Commands, IsCommand, LetterRun;
      ProtectCons(t[0], rest, after);
      if back && !after && IsCommand(t[1..]) {
        BackslashIsNoCommand(rest);
        ProtectCons('\\', "\\" + rest, false);
        ProtectCons('\\', rest, true);
      }
    }
  }

  // ----- A decoder -----

  /** What the decoder's grammar does with a character outside strings. */
  datatype Step<S> = Next(state: S) | Open(state: S) | Stop | Fail

  /** A JSON grammar read from left to right: it sees every character outside strings, and of a
      string only that it was there. */
  datatype Decoder<!S> = Decoder(start: S, outside: (S, char) -> Step<S>, complete: S -> bool)

  /** Outside strings, or inside one with the state to go back to. */
  datatype Mode<S> = Outside(state: S) | Inside(state: S)

  /** What was read: punctuation and literals as they stand, strings decoded. */
  datatype Event = Plain(c: char) | Literal(c: char) | CodeUnit(digits: string)

  /** The next piece of the text: `n` characters of it, the end of the value, an invalid escape, or
      any other error. */
  datatype Piece<S> = Take(n: nat, event: Event, mode: Mode<S>) | Finish | InvalidHere | Broken

  predicate AllHex(t: string) {
    forall c | c in t :: IsHex(c)
  }

  /** The escapes with one letter, section 7 of RFC 8259. */
  function Unescape(c: char): Option<char> {
    if c == '\"' || c == '\\' || c == '/' then Some(c)
    else if c == 'b' then Some(8 as char)
    else if c == 'f' then Some(12 as char)
    else if c == 'n' then Some('\n')
    else if c == 'r' then Some('\r')
    else if c == 't' then Some('\t')
    else None
  }

  function Scan<S>(d: Decoder<S>, t: string, m: Mode<S>): (p: Piece<S>)
    ensures p.Take? ==> 1 <= p.n <= |t|
    ensures p.InvalidHere? ==> |t| >= 2 && t[0] == '\\' && t[1] != '\\' && m.Inside?
  {
    match m
    case Outside(s) =>
      if t == "" then (if d.complete(s) then Finish else Broken)
      else
        (match d.outside(s, t[0])
         case Next(s') => Take(1, Plain(t[0]), Outside(s'))
         case Open(s') => Take(1, Plain(t[0]), Inside(s'))
         case Stop => Finish
         case Fail => Broken)
    case Inside(s) =>
      if t == "" || t[0] < 32 as char then Broken
      else if t[0] == '\"' then Take(1, Plain(t[0]), Outside(s))
      else if t[0] != '\\' then Take(1, Literal(t[0]), m)
      else if |t| == 1 then Broken
      else if t[1] == 'u' then
        (if |t| > 6 && AllHex(t[2..6]) then Take(6, CodeUnit(t[2..6]), m) else Broken)
      else
        match Unescape(t[1])
        case Some(c) => Take(2, Literal(c), m)
        case None => InvalidHere
  }

  /** The outcome of a strict decode: what was read, where the first invalid escape is, or another
      error. */
  datatype Outcome = Value(events: seq<Event>) | InvalidEscape(pos: nat) | OtherError

  function After(n: nat, e: Event, o: Outcome): Outcome {
    match o
    case Value(events) => Value([e] + events)
    case InvalidEscape(pos) => InvalidEscape(n + pos)
    case OtherError => OtherError
  }

  function Strict<S>(d: Decoder<S>, t: string, m: Mode<S>): Outcome
    decreases |t|
  {
    match Scan(d, t, m)
    case Take(n, e, m') => After(n, e, Strict(d, t[n..], m'))
    case Finish => Value([])
    case InvalidHere => InvalidEscape(0)
    case Broken => OtherError
  }

  /** One pass of a lenient reader: the backslash of an invalid escape stands for itself. */
  function Lenient<S>(d: Decoder<S>, t: string, m: Mode<S>): (r: Outcome)
    ensures !r.InvalidEscape?
    decreases |t|
  {
    match Scan(d, t, m)
    case Take(n, e, m') => After(n, e, Lenient(d, t[n..], m'))
    case Finish => Value([])
    case InvalidHere => After(1, Literal('\\'), Lenient(d, t[1..], m))
    case Broken => OtherError
  }

  function Shifted(ps: seq<nat>, n: nat): (r: seq<nat>)
    ensures |r| == |ps| && forall i | 0 <= i < |ps| :: r[i] == ps[i] + n
  {
    seq(|ps|, i requires 0 <= i < |ps| => ps[i] + n)
  }

  /** Where the lenient reader meets invalid escapes. */
  function Starts<S>(d: Decoder<S>, t: string, m: Mode<S>): (r: seq<nat>)
    decreases |t|
  {
    match Scan(d, t, m)
    case Take(n, _, m') => Shifted(Starts(d, t[n..], m'), n)
    case InvalidHere => [0] + Shifted(Starts(d, t[1..], m), 1)
    case _ => []
  }

  /** The invalid escapes start at increasing positions, at least two apart, each at a backslash. */
  lemma {:induction false} StartsAscend<S>(d: Decoder<S>, t: string, m: Mode<S>)
    ensures forall i | 0 <= i < |Starts(d, t, m)| :: Starts(d, t, m)[i] < |t| && t[Starts(d, t, m)[i]] == '\\'
    ensures forall i, j | 0 <= i < j < |Starts(d, t, m)| :: Starts(d, t, m)[i] + 1 < Starts(d, t, m)[j]
    decreases |t|
  {
    match Scan(d, t, m)
    case Take(n, _, m') => StartsAscend(d, t[n..], m');
    case InvalidHere =>
      StartsAscend(d, t[1..], m);
      assert forall i | 0 <= i < |Starts(d, t[1..], m)| :: Starts(d, t[1..], m)[i] != 0;
    case _ =>
  }

  // ----- Doubling invalid escapes -----

  /** The text with its first `k` invalid escapes doubled. */
  function Mended<S>(d: Decoder<S>, t: string, m: Mode<S>, k: nat): (r: string)
    ensures |t| <= |r|
    decreases |t|
  {
    if k == 0 then t
    else
      match Scan(d, t, m)
      case Take(n, _, m') => t[..n] + Mended(d, t[n..], m', k)
      case InvalidHere => "\\\\" + Mended(d, t[1..], m, k - 1)
      case _ => t
  }

  lemma PieceIsLocal<S>(d: Decoder<S>, t: string, m: Mode<S>, rest: string)
    requires Scan(d, t, m).Take?
    requires t[Scan(d, t, m).n..] != "" ==> rest != ""
    ensures Scan(d, t[..Scan(d, t, m).n] + rest, m) == Scan(d, t, m)
  {
    var p := Scan(d, t, m);
    var u := t[..p.n] + rest;
    assert u[0] == t[0];
    if p.n >= 2 {
      assert u[1] == t[1];
    }
    if p.n == 6 {
      assert u[2..6] == t[2..6];
    }
  }

  lemma MendedNone<S>(d: Decoder<S>, t: string, m: Mode<S>)
    ensures Mended(d, t, m, 0) == t
  {
  }

  lemma AtTake<S>(d: Decoder<S>, t: string, m: Mode<S>, k: nat)
    requires Scan(d, t, m).Take?
    ensures var p := Scan(d, t, m); var rest := Mended(d, t[p.n..], p.mode, k);
            && Mended(d, t, m, k) == t[..p.n] + rest
            && Starts(d, t, m) == Shifted(Starts(d, t[p.n..], p.mode), p.n)
            && Strict(d, t[..p.n] + rest, m) == After(p.n, p.event, Strict(d, rest, p.mode))
            && Lenient(d, t, m) == After(p.n, p.event, Lenient(d, t[p.n..], p.mode))
  {
    var p := Scan(d, t, m);
    var rest := Mended(d, t[p.n..], p.mode, k);
    assert t == t[..p.n] + t[p.n..];
    PieceIsLocal(d, t, m, rest);
    assert (t[..p.n] + rest)[p.n..] == rest;
  }

  lemma AtInvalid<S>(d: Decoder<S>, t: string, m: Mode<S>, k: nat)
    requires Scan(d, t, m).InvalidHere?
    ensures var rest := Mended(d, t[1..], m, k);
            && Mended(d, t, m, k + 1) == "\\\\" + rest
            && Mended(d, t, m, 0) == t && Mended(d, t[1..], m, 0) == t[1..]
            && Starts(d, t, m) == [0] + Shifted(Starts(d, t[1..], m), 1)
            && Strict(d, t, m) == InvalidEscape(0)
            && Strict(d, "\\\\" + rest, m) == After(2, Literal('\\'), Strict(d, rest, m))
            && Lenient(d, t, m) == After(1, Literal('\\'), Lenient(d, t[1..], m))
            && t[0] == '\\'
  {
    var rest := Mended(d, t[1..], m, k);
    assert ("\\\\" + rest)[2..] == rest;
    assert Scan(d, "\\\\" + rest, m) == Take(2, Literal('\\'), m);
  }

  lemma AtEnd<S>(d: Decoder<S>, t: string, m: Mode<S>)
    requires Scan(d, t, m).Finish? || Scan(d, t, m).Broken?
    ensures Mended(d, t, m, 0) == t && Starts(d, t, m) == [] && Strict(d, t, m) == Lenient(d, t, m)
  {
  }

  /** Each decode of the loop: with `k` escapes doubled the strict decoder stops at the next one,
      moved by the `k` insertions, and with all of them doubled it reads what the lenient reader
      reads. */
  lemma {:induction false} StrictOfMended<S>(d: Decoder<S>, t: string, m: Mode<S>, k: nat)
    requires k <= |Starts(d, t, m)|
    ensures Strict(d, Mended(d, t, m, k), m)
         == if k < |Starts(d, t, m)| then InvalidEscape(Starts(d, t, m)[k] + k) else Lenient(d, t, m)
    decreases |t|
  {
    hide Scan, Mended, Starts, Strict, Lenient;
    match Scan(d, t, m)
    case Take(n, e, m') =>
      AtTake(d, t, m, k);
      StrictOfMended(d, t[n..], m', k);
    case InvalidHere =>
      if k == 0 {
        AtInvalid(d, t, m, 0);
      } else {
        AtInvalid(d, t, m, k - 1);
        StrictOfMended(d, t[1..], m, k - 1);
      }
    case _ => AtEnd(d, t, m);
  }

  lemma SplitAt(a: string, b: string, pos: nat)
    requires pos < |b|
    ensures (a + b)[..|a| + pos] == a + b[..pos] && (a + b)[|a| + pos..] == b[pos..] && (a + b)[|a| + pos] == b[pos]
    ensures a + (b[..pos] + "\\" + b[pos..]) == a + b[..pos] + "\\" + b[pos..]
  {
  }

  /** Doubling the next one is inserting one backslash where the decoder stopped. */
  lemma {:induction false} MendedNext<S>(d: Decoder<S>, t: string, m: Mode<S>, k: nat)
    requires k < |Starts(d, t, m)|
    ensures var pos := Starts(d, t, m)[k] + k; var u := Mended(d, t, m, k);
            pos < |u| && u[pos] == '\\' && Mended(d, t, m, k + 1) == u[..pos] + "\\" + u[pos..]
    decreases |t|
  {
    hide *;
    match Scan(d, t, m)
    case Take(n, _, m') =>
      AtTake(d, t, m, k);
      AtTake(d, t, m, k + 1);
      MendedNext(d, t[n..], m', k);
      SplitAt(t[..n], Mended(d, t[n..], m', k), Starts(d, t[n..], m')[k] + k);
    case InvalidHere =>
      if k == 0 {
        AtInvalid(d, t, m, 0);
        assert "\\\\" + t[1..] == "" + "\\" + t;
      } else {
        AtInvalid(d, t, m, k - 1);
        AtInvalid(d, t, m, k);
        MendedNext(d, t[1..], m, k - 1);
        SplitAt("\\\\", Mended(d, t[1..], m, k - 1), Starts(d, t[1..], m)[k - 1] + k - 1);
      }
    case _ => AtEnd(d, t, m);
  }

  // ----- The bound on repairs -----

  function Backslashes(t: string): nat {
    if t == "" then 0 else (if t[0] == '\\' then 1 else 0) + Backslashes(t[1..])
  }

  /** How many runs of backslashes end before a character. */
  function RunEnds(t: string): nat {
    if |t| < 2 then 0 else (if t[0] == '\\' && t[1] != '\\' then 1 else 0) + RunEnds(t[1..])
  }

  /** Protection lengthens runs of backslashes and adds none. */
  lemma {:induction false} RunEndsKept(t: string, after: bool)
    ensures RunEnds(Protect(t, after)) == RunEnds(t) <= Backslashes(t)
    ensures t != "" ==> Protect(t, after) != "" && Protect(t, after)[0] == t[0]
  {
    if t != "" {
      hide IsCommand;
      RunEndsKept(t[1..], t[0] == '\\');
      var rest := Protect(t[1..], t[0] == '\\');
      assert ([t[0]] + rest)[1..] == rest;
      assert RunEnds([t[0]] + rest) == RunEnds(t);
      assert ("\\" + ([t[0]] + rest))[1..] == [t[0]] + rest;
      assert "\\" + [t[0]] + rest == "\\" + ([t[0]] + rest);
    }
  }

  lemma {:induction false} RunEndsOfRest(t: string, n: nat)
    requires n <= |t|
    ensures RunEnds(t[n..]) <= RunEnds(t)
  {
    if n > 0 {
      RunEndsOfRest(t[1..], n - 1);
      assert t[1..][n - 1..] == t[n..];
    }
  }

  lemma {:induction false} StartsAreRunEnds<S>(d: Decoder<S>, t: string, m: Mode<S>)
    ensures |Starts(d, t, m)| <= RunEnds(t)
    decreases |t|
  {
    match Scan(d, t, m)
    case Take(n, _, m') =>
      StartsAreRunEnds(d, t[n..], m');
      RunEndsOfRest(t, n);
    case InvalidHere => StartsAreRunEnds(d, t[1..], m);
    case _ =>
  }

  /** The bound on repairs is the number of backslashes before protection, and it never cuts a
      repair short. */
  lemma StartsAreFewerThanBackslashes<S>(d: Decoder<S>, t: string, m: Mode<S>)
    ensures |Starts(d, Protect(t, false), m)| <= Backslashes(t)
  {
    RunEndsKept(t, false);
    StartsAreRunEnds(d, Protect(t, false), m);
  }

  // ----- The loop -----

  /** The lenient reading, where a value that does not pass `accepts` (a patch object of this schema)
      or more than MAX_REPAIRS - 1 repairs give nothing. */
  function Reading<S>(d: Decoder<S>, accepts: seq<Event> -> bool, t: string): Option<seq<Event>> {
    var o := Lenient(d, t, Outside(d.start));
    if o.Value? && accepts(o.events) && |Starts(d, t, Outside(d.start))| < MAX_REPAIRS then Some(o.events) else None
  }

  lemma ReadingOf<S>(d: Decoder<S>, accepts: seq<Event> -> bool, t: string)
    ensures var m := Outside(d.start); var o := Lenient(d, t, m);
            && (|Starts(d, t, m)| >= MAX_REPAIRS || !o.Value? ==> Reading(d, accepts, t) == None)
            && (|Starts(d, t, m)| < MAX_REPAIRS && o.Value? ==>
                  Reading(d, accepts, t) == if accepts(o.events) then Some(o.events) else None)
  {
  }

  /** _repair_invalid_json_escapes. The ghost result lists the positions at which the decoder
      reported an invalid escape and a backslash was inserted. */
  method RepairInvalidJsonEscapes<S>(d: Decoder<S>, accepts: seq<Event> -> bool, candidate: string, error: Outcome)
    returns (r: Option<seq<Event>>, ghost stops: seq<nat>)
    requires error == Strict(d, candidate, Outside(d.start)) && !error.Value?
    ensures r == if error.InvalidEscape? then Reading(d, accepts, Protect(candidate, false)) else None
    ensures |stops| <= |Starts(d, Protect(candidate, false), Outside(d.start))|
    ensures forall i | 0 <= i < |stops| :: stops[i] == Starts(d, Protect(candidate, false), Outside(d.start))[i] + i
    ensures forall i, j | 0 <= i < j < |stops| :: stops[i] + 2 < stops[j]
    ensures r.Some? ==> |stops| == |Starts(d, Protect(candidate, false), Outside(d.start))|
  {
    hide *;
    stops := [];
    if !error.InvalidEscape? {
      return None, stops;
    }
    var repaired := Protect(candidate, false);
    ghost var t := repaired;
    ghost var m := Outside(d.start);
    ghost var starts := Starts(d, t, m);
    StartsAscend(d, t, m);
    StartsAreFewerThanBackslashes(d, candidate, m);
    ReadingOf(d, accepts, t);
    MendedNone(d, t, m);
    var limit := Backslashes(candidate) + 1;
    var maxRepairs := if limit < MAX_REPAIRS then limit else MAX_REPAIRS;
    for k := 0 to maxRepairs
      invariant k <= |starts|
      invariant repaired == Mended(d, t, m, k)
      invariant |stops| == k && forall i | 0 <= i < k :: stops[i] == starts[i] + i
    {
      StrictOfMended(d, t, m, k);
      var outcome := Strict(d, repaired, Outside(d.start));
      match outcome {
        case InvalidEscape(pos) =>
          MendedNext(d, t, m, k);
          assert pos < |repaired| && repaired[pos] == '\\';
          stops := stops + [pos];
          repaired := repaired[..pos] + "\\" + repaired[pos..];
        case OtherError =>
          return None, stops;
        case Value(events) =>
          return if accepts(events) then Some(events) else None, stops;
      }
    }
    r := None;
  }

  // ----- What is read, in terms of the unprotected text -----

  /** The decoder has no use for a backslash outside strings. */
  ghost predicate RejectsBackslash<S(!new)>(d: Decoder<S>) {
    forall s :: d.outside(s, '\\').Fail?
  }

  predicate StartsCommand<S>(t: string, m: Mode<S>, after: bool) {
    m.Inside? && t != "" && t[0] == '\\' && !after && IsCommand(t[1..])
  }

  /** The one-pass reading of the response itself: inside strings the backslash of an invalid escape
      stands for itself, and so does that of a listed command, unless a backslash precedes it. */
  function Latex<S>(d: Decoder<S>, t: string, m: Mode<S>, after: bool): (r: Outcome)
    ensures !r.InvalidEscape?
    decreases |t|
  {
    if StartsCommand(t, m, after) then After(1, Literal('\\'), Latex(d, t[1..], m, true))
    else
      match Scan(d, t, m)
      case Take(n, e, m') => After(n, e, Latex(d, t[n..], m', t[n - 1] == '\\'))
      case Finish => Value([])
      case InvalidHere => After(1, Literal('\\'), Latex(d, t[1..], m, true))
      case Broken => OtherError
  }

  /** How many invalid escapes that pass meets. */
  function InvalidCount<S>(d: Decoder<S>, t: string, m: Mode<S>, after: bool): nat
    decreases |t|
  {
    if StartsCommand(t, m, after) then InvalidCount(d, t[1..], m, true)
    else
      match Scan(d, t, m)
      case Take(n, e, m') => InvalidCount(d, t[n..], m', t[n - 1] == '\\')
      case InvalidHere => 1 + InvalidCount(d, t[1..], m, true)
      case _ => 0
  }

  /** Protection does not touch hexadecimal digits, nor make any. */
  lemma {:induction false} DigitsKept(t: string, n: nat)
    requires n <= |t| && AllHex(t[..n])
    ensures |Protect(t, false)| >= n && Protect(t, false)[..n] == t[..n]
    ensures Protect(t, false)[n..] == Protect(t[n..], false)
  {
    hide IsCommand;
    if n > 0 {
      assert t[0] in t[..n] && forall c | c in t[1..][..n - 1] :: c in t[..n];
      DigitsKept(t[1..], n - 1);
      var rest := Protect(t[1..], false);
      assert t[1..][n - 1..] == t[n..];
      assert ([t[0]] + rest)[..n] == [t[0]] + rest[..n - 1];
      assert ([t[0]] + rest)[n..] == rest[n - 1..];
    }
  }

  lemma {:induction false} DigitsReflected(t: string, n: nat)
    requires n <= |Protect(t, false)| && AllHex(Protect(t, false)[..n])
    ensures n <= |t| && AllHex(t[..n])
  {
    hide IsCommand;
    var u := Protect(t, false);
    if n > 0 {
      assert u[0] in u[..n] && u[0] == t[0];
      assert forall c | c in u[1..][..n - 1] :: c in u[..n];
      DigitsReflected(t[1..], n - 1);
      assert t[..n] == [t[0]] + t[1..][..n - 1];
    }
  }

  predicate FourDigits(t: string) {
    |t| > 4 && AllHex(t[..4])
  }

  lemma SameDigits(t: string)
    ensures FourDigits(Protect(t, false)) <==> FourDigits(t)
    ensures FourDigits(t) ==> Protect(t, false)[..4] == t[..4] && Protect(t, false)[4..] == Protect(t[4..], false)
    ensures FourDigits(t) ==> t[3] != '\\'
  {
    hide IsCommand;
    if FourDigits(t) {
      DigitsKept(t, 4);
      assert t[4..] != "" && t[3] in t[..4];
      assert Protect(t, false)[4..] != "";
    }
    if FourDigits(Protect(t, false)) {
      DigitsReflected(t, 4);
      DigitsKept(t, 4);
      assert Protect(t, false)[4..] != "";
    }
  }

  lemma ScanUnicode<S>(d: Decoder<S>, digits: string, m: Mode<S>)
    requires m.Inside?
    ensures var t := "\\u" + digits;
            Scan(d, t, m) == if FourDigits(digits) then Take(6, CodeUnit(digits[..4]), m) else Broken
    ensures var t := "\\u" + digits; FourDigits(digits) ==> t[6..] == digits[4..] && t[5] == digits[3]
  {
    var t := "\\u" + digits;
    if |digits| > 4 {
      assert t[2..6] == digits[..4];
    }
  }

  lemma SameUnicodeEscape<S>(d: Decoder<S>, digits: string, m: Mode<S>)
    requires m.Inside?
    ensures var t := "\\u" + digits; var u := "\\u" + Protect(digits, false); var p := Scan(d, t, m);
            Scan(d, u, m) == p && !p.InvalidHere?
            && (p.Take? ==> u[p.n..] == Protect(t[p.n..], false) && t[p.n - 1] != '\\')
  {
    SameDigits(digits);
    ScanUnicode(d, digits, m);
    ScanUnicode(d, Protect(digits, false), m);
    hide Scan, Protect, FourDigits;
  }

  lemma LenientTake<S>(d: Decoder<S>, u: string, m: Mode<S>, rest: string)
    requires Scan(d, u, m).Take? && u[Scan(d, u, m).n..] == rest
    ensures var p := Scan(d, u, m);
            && Lenient(d, u, m) == After(1, p.event, Lenient(d, rest, p.mode))
            && |Starts(d, u, m)| == |Starts(d, rest, p.mode)|
  {
  }

  lemma LenientInvalid<S>(d: Decoder<S>, u: string, m: Mode<S>, rest: string)
    requires Scan(d, u, m).InvalidHere? && u[1..] == rest
    ensures Lenient(d, u, m) == After(1, Literal('\\'), Lenient(d, rest, m))
    ensures |Starts(d, u, m)| == 1 + |Starts(d, rest, m)|
  {
  }

  /** What the scanner makes of the protected text is what it makes of the text, and the rest is
      protected text again. */
  lemma ScanProtected<S(!new)>(d: Decoder<S>, t: string, m: Mode<S>, after: bool)
    requires RejectsBackslash(d) && !StartsCommand(t, m, after)
    ensures var u := Protect(t, after); var p := Scan(d, t, m);
            && Scan(d, u, m) == p
            && (p.Take? ==> u[p.n..] == Protect(t[p.n..], t[p.n - 1] == '\\'))
            && (p.InvalidHere? ==> u[1..] == Protect(t[1..], true))
  {
    hide IsCommand;
    if t != "" {
      var rest := Protect(t[1..], t[0] == '\\');
      assert t == [t[0]] + t[1..];
      if t[0] != '\\' {
        assert Protect(t, after) == [t[0]] + rest;
      } else if m.Outside? {
        assert Protect(t, after)[0] == '\\';
      } else {
        assert Protect(t, after) == "\\" + rest == Protect(t, true);
        if |t| > 1 {
          assert t[1..] == [t[1]] + t[2..];
          ProtectCons(t[1], t[2..], true);
          if t[1] == 'u' {
            assert t == "\\u" + t[2..] && Protect(t, after) == "\\u" + Protect(t[2..], false);
            SameUnicodeEscape(d, t[2..], m);
          }
        }
      }
    }
  }

  /** Protecting first and reading leniently is reading the response itself in one pass. */
  lemma {:induction false} ProtectedReads<S(!new)>(d: Decoder<S>, t: string, m: Mode<S>, after: bool)
    requires RejectsBackslash(d)
    ensures Lenient(d, Protect(t, after), m) == Latex(d, t, m, after)
    ensures |Starts(d, Protect(t, after), m)| == InvalidCount(d, t, m, after)
    decreases |t|
  {
    var u := Protect(t, after);
    if StartsCommand(t, m, after) {
      var rest := Protect(t[1..], true);
      assert u == "\\" + (['\\'] + rest);
      assert Scan(d, u, m) == Take(2, Literal('\\'), m) && u[2..] == rest;
      LenientTake(d, u, m, rest);
      ProtectedReads(d, t[1..], m, true);
    } else {
      ScanProtected(d, t, m, after);
      hide Scan, Protect, RejectsBackslash, StartsCommand;
      match Scan(d, t, m)
      case Take(n, _, m') =>
        LenientTake(d, u, m, u[n..]);
        ProtectedReads(d, t[n..], m', t[n - 1] == '\\');
      case InvalidHere =>
        LenientInvalid(d, u, m, u[1..]);
        ProtectedReads(d, t[1..], m, true);
      case _ =>
    }
  }

  /** What is accepted from one candidate of the response. */
  function PatchIn<S>(d: Decoder<S>, accepts: seq<Event> -> bool, raw: string): Option<seq<Event>> {
    var m := Outside(d.start);
    var o := Latex(d, raw, m, false);
    if o.Value? && accepts(o.events) && InvalidCount(d, raw, m, false) < MAX_REPAIRS then Some(o.events) else None
  }

  /** extract_patch_from_text, for one candidate: protect, decode, and repair on an invalid escape. */
  method ReadCandidate<S(!new)>(d: Decoder<S>, accepts: seq<Event> -> bool, raw: string)
    returns (r: Option<seq<Event>>)
    requires RejectsBackslash(d)
    ensures r == PatchIn(d, accepts, raw)
  {
    ghost var m := Outside(d.start);
    ghost var t := Protect(raw, false);
    ProtectedReads(d, raw, m, false);
    ProtectTwice(raw, false);
    StrictOfMended(d, t, m, 0);
    MendedNone(d, t, m);
    hide Protect, Strict, Lenient, Latex, Starts, InvalidCount, Mended;
    var candidate := Protect(raw, false);
    var outcome := Strict(d, candidate, Outside(d.start));
    if outcome.Value? {
      return if accepts(outcome.events) then Some(outcome.events) else None;
    }
    ghost var stops;
    r, stops := RepairInvalidJsonEscapes(d, accepts, candidate, outcome);
  }
}
