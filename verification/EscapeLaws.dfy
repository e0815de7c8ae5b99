/** The protected commands, the protection and the string escapes restated on the text itself. */
module EscapeLaws {
  import opened Text
  import opened Wrappers
  import opened EscapeRepair

  /** The commands whose first letter a JSON decoder would take for an escape. */
  predicate Listed(c: string) {
    || c == "backslash" || c == "begin" || c == "beta" || c == "bigcap" || c == "bigcup" || c == "bigl" || c == "bigr"
    || c == "bigwedge" || c == "frac" || c == "nabla" || c == "neq" || c == "nleq" || c == "nolimits" || c == "not"
    || c == "rho" || c == "right" || c == "tau" || c == "text" || c == "theta" || c == "times"
    || c == "underbrace" || c == "underline" || c == "uparrow" || c == "upsilon"
  }

  lemma CommandsAreListed(c: string)
    ensures c in Commands() <==> Listed(c)
  {
  }

  /** Each of them begins with a letter that a string escape may have, so that unprotected it would be read as
      something else or as a broken code unit. */
  lemma CommandsAreEscapes(c: string)
    requires Listed(c)
    ensures |c| >= 3 && c[0] in {'b', 'f', 'n', 'r', 't', 'u'}
    ensures c[0] != 'u' ==> Unescape(c[0]).Some?
  {
  }

  /** A listed command that no letter continues. */
  ghost predicate BeginsCommand(u: string) {
    exists c :: Listed(c) && c <= u && (|c| == |u| || !('a' <= u[|c|] <= 'z' || 'A' <= u[|c|] <= 'Z'))
  }

  lemma BeginsIsCommand(u: string)
    ensures BeginsCommand(u) <==> IsCommand(u)
  {
    MatchIsWholeRun(u);
    hide IsCommand, Listed, Commands;
    if MatchesCommand(u) {
      var c :| c in Commands() && c <= u && (|c| == |u| || !IsLetter(u[|c|]));
      CommandsAreListed(c);
    }
    if BeginsCommand(u) {
      var c :| Listed(c) && c <= u && (|c| == |u| || !('a' <= u[|c|] <= 'z' || 'A' <= u[|c|] <= 'Z'));
      CommandsAreListed(c);
    }
  }

  /** At `i` there is a backslash, none before it, and after it such a command. `after` says that a backslash
      precedes the text. */
  ghost predicate CommandAt(t: string, i: int, after: bool) {
    && 0 <= i < |t| && t[i] == '\\' && (if i == 0 then !after else t[i - 1] != '\\')
    && BeginsCommand(t[i + 1..])
  }

  lemma CommandInRest(t: string, i: int, after: bool)
    requires t != "" && i > 0
    ensures CommandAt(t, i, after) <==> CommandAt(t[1..], i - 1, t[0] == '\\')
  {
    if i < |t| {
      assert t[1..][i..] == t[i + 1..];
    }
    hide BeginsCommand;
  }

  lemma ProtectHead(t: string, after: bool)
    requires t != ""
    ensures Protect(t, after) == (if CommandAt(t, 0, after) then "\\" else "") + [t[0]] + Protect(t[1..], t[0] == '\\')
  {
    hide IsCommand, BeginsCommand, Protect;
    BeginsIsCommand(t[1..]);
    ProtectCons(t[0], t[1..], after);
    assert [t[0]] + t[1..] == t;
    assert CommandAt(t, 0, after) <==> t[0] == '\\' && !after && IsCommand(t[1..]);
    hide CommandAt;
    Backslashed([t[0]], Protect(t[1..], t[0] == '\\'));
  }

  lemma Backslashed(a: string, b: string)
    ensures "\\" + (a + b) == "\\" + a + b && "" + a + b == a + b
  {
  }

  lemma {:induction false} ProtectNone(t: string, after: bool)
    requires forall k :: !CommandAt(t, k, after)
    ensures Protect(t, after) == t
  {
    if t != "" {
      var u, back := t[1..], t[0] == '\\';
      forall k ensures !CommandAt(u, k, back) {
        if k >= 0 {
          CommandInRest(t, k + 1, after);
          assert !CommandAt(t, k + 1, after);
        }
      }
      ProtectHead(t, after);
      hide CommandAt, Protect;
      ProtectNone(u, back);
      assert !CommandAt(t, 0, after);
      assert t == [t[0]] + u;
    }
  }

  lemma {:induction false} ProtectFirst(t: string, i: int, after: bool)
    requires CommandAt(t, i, after) && forall k | 0 <= k < i :: !CommandAt(t, k, after)
    ensures 0 <= i < |t| && Protect(t, after) == t[..i] + "\\\\" + Protect(t[i + 1..], true)
    decreases |t|
  {
    hide BeginsCommand, Protect;
    if i == 0 {
      ProtectHead(t, after);
      assert t[..0] + "\\\\" == "\\" + [t[0]];
    } else {
      FirstInRest(t, i, after);
      var u, back := t[1..], t[0] == '\\';
      ProtectFirst(u, i - 1, back);
      ProtectHead(t, after);
      assert !CommandAt(t, 0, after);
      hide CommandAt;
      Shift(t, i, Protect(t[i + 1..], true));
    }
  }

  lemma FirstInRest(t: string, i: int, after: bool)
    requires i > 0 && CommandAt(t, i, after) && forall k | 0 <= k < i :: !CommandAt(t, k, after)
    ensures 0 <= i < |t|
    ensures CommandAt(t[1..], i - 1, t[0] == '\\')
    ensures var u, back := t[1..], t[0] == '\\'; forall k | 0 <= k < i - 1 :: !CommandAt(u, k, back)
  {
    var u, back := t[1..], t[0] == '\\';
    CommandInRest(t, i, after);
    forall k | 0 <= k < i - 1 ensures !CommandAt(u, k, back) {
      CommandInRest(t, k + 1, after);
      assert !CommandAt(t, k + 1, after);
    }
  }

  lemma Shift(t: string, i: int, rest: string)
    requires 0 < i < |t|
    ensures t[1..][i..] == t[i + 1..]
    ensures [t[0]] + (t[1..][..i - 1] + "\\\\" + rest) == t[..i] + "\\\\" + rest
  {
    assert t[..i] == [t[0]] + t[1..][..i - 1];
  }

  /** Protection on the text: without a command nothing changes; otherwise the backslash of the first one is
      doubled, all before it stays, and the rest is protected as text that follows a backslash. */
  lemma ProtectOnText(t: string, i: int, after: bool)
    ensures (forall k :: !CommandAt(t, k, after)) ==> Protect(t, after) == t
    ensures CommandAt(t, i, after) && (forall k | 0 <= k < i :: !CommandAt(t, k, after)) ==>
      0 <= i < |t| && Protect(t, after) == t[..i] + "\\\\" + Protect(t[i + 1..], true)
  {
    hide CommandAt, Protect;
    if forall k :: !CommandAt(t, k, after) {
      ProtectNone(t, after);
    }
    if CommandAt(t, i, after) && forall k | 0 <= k < i :: !CommandAt(t, k, after) {
      ProtectFirst(t, i, after);
    }
  }

  /** After a backslash a text is protected as its first character and what follows that. */
  lemma ProtectAfter(c: char, t: string)
    ensures Protect([c] + t, true) == [c] + Protect(t, c == '\\')
    ensures c != '\\' ==> Protect([c] + t, false) == [c] + Protect(t, false)
    ensures Protect("", true) == "" && Protect("", false) == ""
  {
    ProtectCons(c, t, true);
    ProtectCons(c, t, false);
    hide IsCommand;
  }

  /** What a string holds, by how the text goes on: the closing quote, an ordinary character, one of the eight
      letter escapes with its meaning, a code unit of four hexadecimal digits that is followed by something,
      an invalid escape for any other character after the backslash, and otherwise an error. */
  lemma StringOnText<S>(d: Decoder<S>, s: S, c: char, rest: string)
    ensures Scan(d, "\"" + rest, Inside(s)) == Take(1, Plain('\"'), Outside(s))
    ensures c >= ' ' && c != '\"' && c != '\\' ==> Scan(d, [c] + rest, Inside(s)) == Take(1, Literal(c), Inside(s))
    ensures c < ' ' ==> Scan(d, [c] + rest, Inside(s)) == Broken
    ensures Scan(d, "", Inside(s)) == Broken && Scan(d, "\\", Inside(s)) == Broken
    ensures var after := Scan(d, "\\" + [c] + rest, Inside(s));
      match c
      case '\"' => after == Take(2, Literal('\"'), Inside(s))
      case '\\' => after == Take(2, Literal('\\'), Inside(s))
      case '/' => after == Take(2, Literal('/'), Inside(s))
      case 'b' => after == Take(2, Literal('\U{0008}'), Inside(s))
      case 'f' => after == Take(2, Literal('\U{000C}'), Inside(s))
      case 'n' => after == Take(2, Literal('\U{000A}'), Inside(s))
      case 'r' => after == Take(2, Literal('\U{000D}'), Inside(s))
      case 't' => after == Take(2, Literal('\U{0009}'), Inside(s))
      case 'u' =>
        after == if |rest| > 4 && HexDigit(rest[0]) && HexDigit(rest[1]) && HexDigit(rest[2]) && HexDigit(rest[3])
                 then Take(6, CodeUnit(rest[..4]), Inside(s)) else Broken
      case _ => after == InvalidHere
  {
    var t := "\\" + [c] + rest;
    assert t[0] == '\\' && t[1] == c;
    if |rest| > 4 {
      assert t[2..6] == rest[..4];
      DigitsOnText(rest[..4]);
    }
    hide AllHex, HexDigit;
  }

  predicate HexDigit(c: char) {
    '0' <= c <= '9' || 'a' <= c <= 'f' || 'A' <= c <= 'F'
  }

  lemma DigitsOnText(t: string)
    requires |t| == 4
    ensures AllHex(t) <==> HexDigit(t[0]) && HexDigit(t[1]) && HexDigit(t[2]) && HexDigit(t[3])
  {
    assert t[0] in t && t[1] in t && t[2] in t && t[3] in t;
  }

  // ----- Writing and reading back -----

  /** A character that a string can hold, written with the escapes of one letter. */
  predicate Writable(c: char) {
    c >= ' ' || c == '\U{0008}' || c == '\U{000C}' || c == '\U{000A}' || c == '\U{000D}' || c == '\U{0009}'
  }

  function Quoted(c: char): string {
    if c == '\"' || c == '\\' then "\\" + [c]
    else if c == '\U{0008}' then "\\b"
    else if c == '\U{000C}' then "\\f"
    else if c == '\U{000A}' then "\\n"
    else if c == '\U{000D}' then "\\r"
    else if c == '\U{0009}' then "\\t"
    else [c]
  }

  /** The inside of a JSON string. */
  function QuotedText(s: string): string {
    if s == "" then "" else Quoted(s[0]) + QuotedText(s[1..])
  }

  function Literals(s: string): seq<Event> {
    seq(|s|, i requires 0 <= i < |s| => Literal(s[i]))
  }

  lemma QuotedCharacter<S>(d: Decoder<S>, s: S, c: char, rest: string)
    requires Writable(c)
    ensures Scan(d, Quoted(c) + rest, Inside(s)) == Take(|Quoted(c)|, Literal(c), Inside(s))
    ensures (Quoted(c) + rest)[|Quoted(c)|..] == rest
  {
    var t := Quoted(c) + rest;
    assert t[0] == Quoted(c)[0];
    if |Quoted(c)| == 2 {
      assert t[1] == Quoted(c)[1];
    }
  }

  lemma StrictTake<S>(d: Decoder<S>, t: string, m: Mode<S>)
    requires Scan(d, t, m).Take?
    ensures var p := Scan(d, t, m); var o := Strict(d, t[p.n..], p.mode);
      o.Value? ==> Strict(d, t, m) == Value([p.event] + o.events)
  {
    hide Scan;
  }

  lemma QuotedStep(s: string, rest: string)
    requires s != ""
    ensures QuotedText(s) + "\"" + rest == Quoted(s[0]) + (QuotedText(s[1..]) + "\"" + rest)
  {
    hide Quoted;
    var quoted, later := Quoted(s[0]), QuotedText(s[1..]);
    assert quoted + later + "\"" + rest == quoted + (later + "\"" + rest);
  }

  lemma LiteralsStep(s: string, events: seq<Event>)
    requires s != ""
    ensures Literals(s) + [Plain('\"')] + events == [Literal(s[0])] + (Literals(s[1..]) + [Plain('\"')] + events)
  {
    assert Literals(s) == [Literal(s[0])] + Literals(s[1..]);
    hide Literals;
    var later := Literals(s[1..]);
    assert [Literal(s[0])] + later + [Plain('\"')] + events == [Literal(s[0])] + (later + [Plain('\"')] + events);
  }

  lemma ReadQuote<S>(d: Decoder<S>, state: S, rest: string, events: seq<Event>)
    requires Strict(d, rest, Outside(state)) == Value(events)
    ensures Strict(d, "\"" + rest, Inside(state)) == Value([Plain('\"')] + events)
  {
    StringOnText(d, state, 'x', rest);
    assert ("\"" + rest)[1..] == rest;
    StrictTake(d, "\"" + rest, Inside(state));
    hide Scan, Strict;
  }

  lemma ReadQuoted<S>(d: Decoder<S>, state: S, c: char, later: string, events: seq<Event>)
    requires Writable(c) && Strict(d, later, Inside(state)) == Value(events)
    ensures Strict(d, Quoted(c) + later, Inside(state)) == Value([Literal(c)] + events)
  {
    hide Scan, Strict, Writable, Quoted;
    QuotedCharacter(d, state, c, later);
    StrictTake(d, Quoted(c) + later, Inside(state));
  }

  /** Round trip: a string that is written and then read strictly gives back exactly its characters, in order,
      then the closing quote, then whatever the rest of the text gives. */
  lemma {:induction false} StringReadBack<S>(d: Decoder<S>, state: S, s: string, rest: string, events: seq<Event>)
    requires forall c | c in s :: Writable(c)
    requires Strict(d, rest, Outside(state)) == Value(events)
    ensures Strict(d, QuotedText(s) + "\"" + rest, Inside(state)) == Value(Literals(s) + [Plain('\"')] + events)
    decreases |s|
  {
    if s == "" {
      ReadQuote(d, state, rest, events);
      assert QuotedText(s) + "\"" + rest == "\"" + rest;
      assert Literals(s) + [Plain('\"')] + events == [Plain('\"')] + events;
    } else {
      hide Strict, Writable, QuotedText, Literals, Quoted;
      assert s[0] in s && forall x | x in s[1..] :: x in s;
      StringReadBack(d, state, s[1..], rest, events);
      ReadQuoted(d, state, s[0], QuotedText(s[1..]) + "\"" + rest, Literals(s[1..]) + [Plain('\"')] + events);
      QuotedStep(s, rest);
      LiteralsStep(s, events);
    }
  }

  /** Outside strings every character that the grammar takes is read as it stands, and the value ends where the
      grammar stops or, if it is complete, where the text does. */
  lemma OutsideReadBack<S>(d: Decoder<S>, s: S, c: char, rest: string, events: seq<Event>)
    ensures var t := [c] + rest;
      && (d.outside(s, c).Next? && Strict(d, rest, Outside(d.outside(s, c).state)) == Value(events) ==>
            Strict(d, t, Outside(s)) == Value([Plain(c)] + events))
      && (d.outside(s, c).Open? && Strict(d, rest, Inside(d.outside(s, c).state)) == Value(events) ==>
            Strict(d, t, Outside(s)) == Value([Plain(c)] + events))
      && (d.outside(s, c).Stop? ==> Strict(d, t, Outside(s)) == Value([]))
      && (d.outside(s, c).Fail? ==> Strict(d, t, Outside(s)) == OtherError)
    ensures Strict(d, "", Outside(s)) == if d.complete(s) then Value([]) else OtherError
  {
    var t := [c] + rest;
    assert t[0] == c && t[1..] == rest;
  }

  /** A response that is valid and holds no lone command is taken as it is. */
  lemma CleanResponse<S(!new)>(d: Decoder<S>, accepts: seq<Event> -> bool, raw: string, events: seq<Event>)
    requires RejectsBackslash(d) && forall k :: !CommandAt(raw, k, false)
    requires Strict(d, raw, Outside(d.start)) == Value(events)
    ensures PatchIn(d, accepts, raw) == if accepts(events) then Some(events) else None
  {
    var m := Outside(d.start);
    ProtectNone(raw, false);
    ProtectedReads(d, raw, m, false);
    StrictOfMended(d, raw, m, 0);
    MendedNone(d, raw, m);
    hide Strict, Lenient, Latex, Starts, InvalidCount, Mended, Protect, RejectsBackslash, CommandAt;
  }

  /** From 4096 invalid escapes on nothing is taken; below that exactly what the decoder reads once every one of
      them is doubled, if it is a patch. */
  lemma RepairedResponse<S(!new)>(d: Decoder<S>, accepts: seq<Event> -> bool, raw: string)
    requires RejectsBackslash(d)
    ensures var m, t := Outside(d.start), Protect(raw, false);
      var n := |Starts(d, t, m)|;
      var o := Strict(d, Mended(d, t, m, n), m);
      PatchIn(d, accepts, raw) == if n < 4096 && o.Value? && accepts(o.events) then Some(o.events) else None
  {
    var m, t := Outside(d.start), Protect(raw, false);
    ProtectedReads(d, raw, m, false);
    StrictOfMended(d, t, m, |Starts(d, t, m)|);
    hide Strict, Lenient, Latex, Starts, InvalidCount, Mended, Protect, RejectsBackslash;
  }
}
