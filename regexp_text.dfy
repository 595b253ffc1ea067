/** The regular expressions the search source builds, as pattern text:
    `_getRegExpFilterRegExp` (the metacharacter matcher) and `_buildRegExp`
    (the case-insensitive alternation of the query's terms). The flags
    ("g", "ig") and JavaScript's matching engine are not modelled; instead
    `ParseAlternation` reads a pattern back into the literal alternatives it
    denotes, which is what the lemmas below are stated against. */
module RegExpText {
  import opened Wrappers
  import opened Text

  /** The metacharacters escaped in a query, in the order the source lists them. */
  const RegExpChars: seq<char> :=
    ['\\', '^', '$', '*', '+', '?', '.', '(', ')', ':', '|', '{', '}', '[', ']', '=', '!', ',']

  /** The same characters as a set, which is what escaping consults. */
  const MetaChars: set<char> := set c | c in RegExpChars

  predicate IsMeta(c: char) {
    c in MetaChars
  }

  /** One character as it appears after `replace(filter, "\\$&")`. */
  function EscapeChar(c: char): string {
    if IsMeta(c) then ['\\', c] else [c]
  }

  /** `s.replace(filterRegExp, "\\$&")`: every metacharacter gets a backslash
      in front of it, every other character is kept. */
  function Escape(s: string): (r: string)
    ensures |r| >= |s|
  {
    if s == [] then [] else EscapeChar(s[0]) + Escape(s[1..])
  }

  function EscapeAll(ts: seq<string>): (r: seq<string>)
    ensures |r| == |ts|
  {
    if ts == [] then [] else [Escape(ts[0])] + EscapeAll(ts[1..])
  }

  /** The text of `_getRegExpFilterRegExp()`: each listed character with a
      backslash in front, joined with `|` and wrapped in a group. */
  function FilterPattern(): string {
    "(" + Join(Backslashed(RegExpChars), "|") + ")"
  }

  /** `_.map(chars, c => "\\" + c)` */
  function Backslashed(cs: seq<char>): (r: seq<string>)
    ensures |r| == |cs|
  {
    if cs == [] then [] else [['\\', cs[0]]] + Backslashed(cs[1..])
  }

  function Singletons(cs: seq<char>): (r: seq<string>)
    ensures |r| == |cs|
    ensures forall i :: 0 <= i < |cs| ==> r[i] == [cs[i]]
  {
    if cs == [] then [] else [[cs[0]]] + Singletons(cs[1..])
  }

  /** `query || ""` */
  function QueryText(query: Option<string>): string {
    if query.Some? then query.value else ""
  }

  /** The text of `_buildRegExp(query)`: escape, trim, split on one space,
      and wrap the `|`-joined terms in a group. */
  function BuildPattern(query: Option<string>): string {
    "(" + Join(Split(Trim(Escape(QueryText(query))), ' '), "|") + ")"
  }

  /** Reading a pattern's body back into the literal alternatives it
      stands for. A backslash followed by a metacharacter reads as that
      character; an unescaped `|` ends an alternative; any other character
      that is not a metacharacter reads as itself. Everything else (an
      unescaped metacharacter such as `.`, `*` or `(`, a backslash before
      an ordinary character such as `\d`, a trailing backslash) is not a
      plain literal, and the reading fails. */
  function Alternatives(s: string, cur: string): (r: Option<seq<string>>)
    ensures r.Some? ==> |r.value| >= 1
    decreases |s|
  {
    if s == [] then Some([cur])
    else if s[0] == '\\' then
      if |s| >= 2 && IsMeta(s[1]) then Alternatives(s[2..], cur + [s[1]]) else None
    else if s[0] == '|' then
      match Alternatives(s[1..], "")
      case None => None
      case Some(rest) => Some([cur] + rest)
    else if IsMeta(s[0]) then None
    else Alternatives(s[1..], cur + [s[0]])
  }

  /** The literal alternatives of a pattern of the form "(...)". */
  function ParseAlternation(p: string): Option<seq<string>> {
    if |p| >= 2 && p[0] == '(' && p[|p| - 1] == ')' then Alternatives(p[1..|p| - 1], "")
    else None
  }

  /** An unescaped metacharacter other than `|` and the backslash, or a
      backslash before an ordinary character, is not read as a literal. */
  lemma NonLiteralRejected(c: char, d: char, rest: string, cur: string)
    ensures IsMeta(c) && c != '|' && c != '\\' ==> Alternatives([c] + rest, cur).None?
    ensures !IsMeta(d) ==> Alternatives(['\\', d] + rest, cur).None?
  {
    assert ([c] + rest)[0] == c;
    assert (['\\', d] + rest)[0] == '\\' && (['\\', d] + rest)[1] == d;
  }

  lemma {:induction false} EscapeAppend(a: string, b: string)
    ensures Escape(a + b) == Escape(a) + Escape(b)
  {
    if a != [] {
      assert (a + b)[0] == a[0] && (a + b)[1..] == a[1..] + b;
      EscapeAppend(a[1..], b);
    } else {
      assert a + b == b;
    }
  }

  /** One escaped character reads back as itself. */
  lemma ReadEscapedChar(c: char, e: string, cur: string)
    ensures Alternatives(EscapeChar(c) + e, cur) == Alternatives(e, cur + [c])
  {
    if IsMeta(c) {
      var s := ['\\', c] + e;
      assert s[0] == '\\' && s[1] == c && s[2..] == e;
    } else {
      var s := [c] + e;
      assert s[0] == c && s[1..] == e;
    }
  }

  lemma {:induction false} ReadEscaped(t: string, rest: string, cur: string)
    ensures Alternatives(Escape(t) + rest, cur) == Alternatives(rest, cur + t)
    decreases |t|
  {
    if t == [] {
      assert Escape(t) + rest == rest && cur + t == cur;
    } else {
      var e := Escape(t[1..]) + rest;
      assert Escape(t) + rest == EscapeChar(t[0]) + e;
      ReadEscapedChar(t[0], e, cur);
      ReadEscaped(t[1..], rest, cur + [t[0]]);
      assert cur + [t[0]] + t[1..] == cur + t;
    }
  }

  /** An alternation of escaped terms is read back as exactly those terms. */
  lemma {:induction false} ReadJoined(ts: seq<string>)
    requires |ts| >= 1
    ensures Alternatives(Join(EscapeAll(ts), "|"), "") == Some(ts)
  {
    var es := EscapeAll(ts);
    if |ts| == 1 {
      ReadEscaped(ts[0], "", "");
      assert Escape(ts[0]) + "" == Escape(ts[0]) && "" + ts[0] == ts[0];
      assert Alternatives("", ts[0]) == Some([ts[0]]);
      assert ts == [ts[0]];
    } else {
      var tail := Join(EscapeAll(ts[1..]), "|");
      assert es[1..] == EscapeAll(ts[1..]);
      assert Join(es, "|") == Escape(ts[0]) + ("|" + tail);
      ReadEscaped(ts[0], "|" + tail, "");
      assert ("|" + tail)[1..] == tail;
      ReadJoined(ts[1..]);
      assert "" + ts[0] == ts[0];
      assert ts == [ts[0]] + ts[1..];
    }
  }

  /** Whitespace is never a metacharacter, and the first character of an
      escaped character is whitespace only if the character is. */
  lemma EscapeCharWhitespace(c: char)
    ensures IsWhitespace(c) ==> EscapeChar(c) == [c]
    ensures IsWhitespace(EscapeChar(c)[0]) <==> IsWhitespace(c)
  {
    if IsMeta(c) {
      assert !IsWhitespace(c);
      assert !IsWhitespace('\\');
    }
  }

  /** Escaping commutes with trimming: whitespace is never a metacharacter
      and a backslash is never whitespace. */
  lemma {:induction false} TrimStartEscape(s: string)
    ensures TrimStart(Escape(s)) == Escape(TrimStart(s))
  {
    if s != [] {
      var e := Escape(s[1..]);
      assert Escape(s) == EscapeChar(s[0]) + e;
      EscapeCharWhitespace(s[0]);
      if IsWhitespace(s[0]) {
        assert Escape(s)[1..] == e;
        TrimStartEscape(s[1..]);
      } else {
        assert !IsWhitespace(Escape(s)[0]);
      }
    }
  }

  lemma {:induction false} TrimEndEscape(s: string)
    ensures TrimEnd(Escape(s)) == Escape(TrimEnd(s))
    decreases |s|
  {
    if s != [] {
      var init, last := s[..|s| - 1], s[|s| - 1];
      assert s == init + [last];
      EscapeAppend(init, [last]);
      assert Escape([last]) == EscapeChar(last);
      EscapeCharWhitespace(last);
      if IsWhitespace(last) {
        assert Escape(s) == Escape(init) + [last];
        assert (Escape(init) + [last])[..|Escape(s)| - 1] == Escape(init);
        TrimEndEscape(init);
      } else {
        var e := Escape(s);
        assert e[|e| - 1] == last;
      }
    }
  }

  lemma TrimEscape(s: string)
    ensures Trim(Escape(s)) == Escape(Trim(s))
  {
    TrimStartEscape(s);
    TrimEndEscape(TrimStart(s));
  }

  /** Splitting on a space commutes with escaping: a space is not a metacharacter. */
  lemma {:induction false} SplitEscape(s: string)
    ensures Split(Escape(s), ' ') == EscapeAll(Split(s, ' '))
  {
    if s != [] {
      var ps := Split(s[1..], ' ');
      SplitEscape(s[1..]);
      var eps := Split(Escape(s[1..]), ' ');
      assert eps == EscapeAll(ps);
      assert eps[0] == Escape(ps[0]) && eps[1..] == EscapeAll(ps[1..]);
      if s[0] == ' ' {
        assert Escape(s) == [' '] + Escape(s[1..]);
        assert ([' '] + Escape(s[1..]))[1..] == Escape(s[1..]);
        assert Split(s, ' ') == [""] + ps;
        assert EscapeAll([""] + ps) == [""] + EscapeAll(ps);
      } else {
        var c := s[0];
        SplitPrefix(EscapeChar(c), Escape(s[1..]), ' ');
        assert Split(s, ' ') == [[c] + ps[0]] + ps[1..];
        EscapeAppend([c], ps[0]);
        assert Escape([c]) == EscapeChar(c);
        assert EscapeAll([[c] + ps[0]] + ps[1..]) == [EscapeChar(c) + Escape(ps[0])] + EscapeAll(ps[1..]);
      }
    }
  }

  lemma ParseWrapped(body: string)
    ensures ParseAlternation("(" + body + ")") == Alternatives(body, "")
  {
    var p := "(" + body + ")";
    assert p[1..|p| - 1] == body;
  }

  /** `_buildRegExp(query)` is the alternation of the trimmed query's
      space-separated terms, each matched literally: reading the pattern back
      gives exactly those terms. */
  lemma PatternAlternatives(query: Option<string>)
    ensures ParseAlternation(BuildPattern(query)) == Some(Split(Trim(QueryText(query)), ' '))
  {
    var q := QueryText(query);
    var ts := Split(Trim(q), ' ');
    TrimEscape(q);
    SplitEscape(Trim(q));
    assert Split(Trim(Escape(q)), ' ') == EscapeAll(ts);
    ReadJoined(ts);
    ParseWrapped(Join(EscapeAll(ts), "|"));
  }

  /** The metacharacter matcher matches exactly the listed characters, each
      as a one-character literal. */
  lemma FilterPatternAlternatives()
    ensures ParseAlternation(FilterPattern()) == Some(Singletons(RegExpChars))
  {
    var cs := RegExpChars;
    assert forall i :: 0 <= i < |cs| ==> IsMeta(cs[i]);
    BackslashedIsEscaped(cs);
    ReadJoined(Singletons(cs));
    ParseWrapped(Join(Backslashed(cs), "|"));
  }

  lemma {:induction false} BackslashedIsEscaped(cs: seq<char>)
    requires forall i :: 0 <= i < |cs| ==> IsMeta(cs[i])
    ensures Backslashed(cs) == EscapeAll(Singletons(cs))
  {
    if cs != [] {
      var c := cs[0];
      assert IsMeta(c);
      BackslashedIsEscaped(cs[1..]);
      assert Singletons(cs) == [[c]] + Singletons(cs[1..]);
      assert [c][1..] == [];
      assert Escape([c]) == EscapeChar(c) + Escape([]) == ['\\', c];
      assert EscapeAll(Singletons(cs)) == [Escape([c])] + EscapeAll(Singletons(cs[1..]));
      assert Backslashed(cs) == [['\\', c]] + Backslashed(cs[1..]);
    }
  }

  /** Escaping changes a string exactly when it holds a listed metacharacter. */
  lemma {:induction false} EscapeChangesOnlyMeta(s: string)
    ensures Escape(s) == s <==> forall i :: 0 <= i < |s| ==> !IsMeta(s[i])
  {
    if s != [] {
      EscapeChangesOnlyMeta(s[1..]);
      if IsMeta(s[0]) {
        assert |Escape(s)| > |s|;
      } else {
        assert Escape(s) == [s[0]] + Escape(s[1..]);
        assert s == [s[0]] + s[1..];
        if Escape(s) == s {
          assert Escape(s[1..]) == s[1..];
        }
        assert (forall i :: 0 <= i < |s| ==> !IsMeta(s[i])) <==> (forall i :: 0 <= i < |s[1..]| ==> !IsMeta(s[1..][i]));
      }
    }
  }

  /** An empty or absent query yields "()", an alternation of the single
      empty term, which matches at every position. */
  lemma EmptyQueryPattern(query: Option<string>)
    requires query.None? || Trim(query.value) == ""
    ensures BuildPattern(query) == "()"
    ensures ParseAlternation(BuildPattern(query)) == Some([""])
  {
    var q := QueryText(query);
    TrimEscape(q);
    var body := Join(Split(Trim(Escape(q)), ' '), "|");
    assert body == "" by {
      assert Trim(Escape(q)) == Escape("");
      assert Split("", ' ') == [""];
    }
    PatternAlternatives(query);
  }
}
