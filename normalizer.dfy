/**
 * The text passes that turn a relaxed devcontainer.json into strict JSON.
 * Each regular expression of the Go code is re-expressed as a scanner with
 * the same leftmost, non-overlapping matching.
 */
module Normalizer {
  import opened Wrappers
  import opened Text
  import Paths

  // ---------------------------------------------------------------------
  // Pass 1: line comments, `(?m)((^)|([ \t]+))//.*` replaced by "".
  // ---------------------------------------------------------------------

  predicate IsBlank(c: char)
  {
    c == ' ' || c == '\t'
  }

  /** Length of the run of spaces and tabs that `s` starts with. */
  function BlankRun(s: string): (n: nat)
    ensures n <= |s|
    ensures forall i :: 0 <= i < n ==> IsBlank(s[i])
    ensures n < |s| ==> !IsBlank(s[n])
  {
    if s != [] && IsBlank(s[0]) then 1 + BlankRun(s[1..]) else 0
  }

  /** Index of the first newline of `s`, or |s|: where `.*` stops. */
  function LineEnd(s: string): nat
  {
    RunBefore(s, '\n')
  }

  /**
   * A line comment match starts at the head of `s`: "//" at the start of a
   * line, or a run of blanks followed by "//".
   */
  predicate LineCommentAt(s: string, atLineStart: bool)
  {
    (atLineStart && StartsWith(s, "//")) ||
    (s != [] && IsBlank(s[0]) && StartsWith(s[BlankRun(s)..], "//"))
  }

  function StripLineCommentsFrom(s: string, atLineStart: bool): string
    decreases |s|
  {
    if s == [] then []
    else if LineCommentAt(s, atLineStart) then
      assert s[0] != '\n';
      StripLineCommentsFrom(s[LineEnd(s)..], false)
    else [s[0]] + StripLineCommentsFrom(s[1..], s[0] == '\n')
  }

  /** Removes every line comment; the text starts at the start of a line. */
  function StripLineComments(s: string): string
  {
    StripLineCommentsFrom(s, true)
  }

  function CountRune(s: string, c: char): nat
  {
    if s == [] then 0 else (if s[0] == c then 1 else 0) + CountRune(s[1..], c)
  }

  lemma {:induction false} CountRuneAppend(a: string, b: string, c: char)
    ensures CountRune(a + b, c) == CountRune(a, c) + CountRune(b, c)
  {
    if a == [] {
      assert a + b == b;
    } else {
      assert (a + b)[1..] == a[1..] + b;
      CountRuneAppend(a[1..], b, c);
    }
  }

  lemma {:induction false} CountRuneAbsent(s: string, c: char)
    requires forall i :: 0 <= i < |s| ==> s[i] != c
    ensures CountRune(s, c) == 0
  {
    if s != [] {
      CountRuneAbsent(s[1..], c);
    }
  }

  /** Removing line comments keeps every newline, so the line structure stays. */
  lemma {:induction false} StripLineCommentsKeepsNewlines(s: string, atLineStart: bool)
    ensures CountRune(StripLineCommentsFrom(s, atLineStart), '\n') == CountRune(s, '\n')
    decreases |s|
  {
    if s == [] {
    } else if LineCommentAt(s, atLineStart) {
      LineCommentSkipped(s, atLineStart);
      StripLineCommentsKeepsNewlines(s[LineEnd(s)..], false);
    } else {
      RuneKept(s, atLineStart);
      StripLineCommentsKeepsNewlines(s[1..], s[0] == '\n');
    }
  }

  /** A comment runs up to the newline that ends its line, and holds none. */
  lemma LineCommentSkipped(s: string, atLineStart: bool)
    requires LineCommentAt(s, atLineStart)
    ensures 0 < LineEnd(s)
    ensures StripLineCommentsFrom(s, atLineStart) == StripLineCommentsFrom(s[LineEnd(s)..], false)
    ensures CountRune(s, '\n') == CountRune(s[LineEnd(s)..], '\n')
  {
    var n := LineEnd(s);
    assert s[0] != '\n';
    assert s == s[..n] + s[n..];
    CountRuneAppend(s[..n], s[n..], '\n');
    CountRuneAbsent(s[..n], '\n');
  }

  /** A rune that starts no comment is kept, newline or not. */
  lemma RuneKept(s: string, atLineStart: bool)
    requires s != [] && !LineCommentAt(s, atLineStart)
    ensures var t := StripLineCommentsFrom(s[1..], s[0] == '\n');
      && CountRune(StripLineCommentsFrom(s, atLineStart), '\n') == CountRune([s[0]], '\n') + CountRune(t, '\n')
      && CountRune(s, '\n') == CountRune([s[0]], '\n') + CountRune(s[1..], '\n')
  {
    var t := StripLineCommentsFrom(s[1..], s[0] == '\n');
    assert StripLineCommentsFrom(s, atLineStart) == [s[0]] + t;
    assert [s[0]] + s[1..] == s;
    CountRuneAppend([s[0]], s[1..], '\n');
    CountRuneAppend([s[0]], t, '\n');
  }

  /**
   * No "//" in `s` stands at the start of a line or right after a blank:
   * the text holds no line comment.
   */
  predicate NoCommentMarker(s: string, atLineStart: bool)
    decreases |s|
  {
    s == [] ||
    (!(atLineStart && StartsWith(s, "//")) &&
     !(IsBlank(s[0]) && StartsWith(s[1..], "//")) &&
     NoCommentMarker(s[1..], s[0] == '\n'))
  }

  lemma {:induction false} NoMarkerAfterBlanks(s: string, atLineStart: bool)
    requires NoCommentMarker(s, atLineStart)
    requires s != [] && IsBlank(s[0])
    ensures !StartsWith(s[BlankRun(s)..], "//")
    decreases |s|
  {
    if |s| > 1 && IsBlank(s[1]) {
      assert s[BlankRun(s)..] == s[1..][BlankRun(s[1..])..];
      NoMarkerAfterBlanks(s[1..], false);
    }
  }

  /**
   * `s` does not open with a comment at a line start, and every later "//"
   * follows a rune that is neither blank nor a newline: then `s` holds no
   * comment marker.
   */
  lemma {:induction false} NoCommentMarkerOf(s: string, atLineStart: bool)
    requires atLineStart ==> !StartsWith(s, "//")
    requires forall i :: 0 < i < |s| - 1 && s[i] == '/' && s[i + 1] == '/' ==>
      !IsBlank(s[i - 1]) && s[i - 1] != '\n'
    ensures NoCommentMarker(s, atLineStart)
    decreases |s|
  {
    if s != [] {
      var t := s[1..];
      assert forall i :: 0 < i < |t| - 1 && t[i] == '/' && t[i + 1] == '/' ==>
        !IsBlank(t[i - 1]) && t[i - 1] != '\n' by {
        forall i | 0 < i < |t| - 1 && t[i] == '/' && t[i + 1] == '/'
          ensures !IsBlank(t[i - 1]) && t[i - 1] != '\n'
        {
          assert s[i + 1] == '/' && s[i + 2] == '/';
        }
      }
      if StartsWith(t, "//") {
        assert s[1] == '/' && s[2] == '/';
      }
      NoCommentMarkerOf(t, s[0] == '\n');
    }
  }

  /** Text without comment markers, such as `"url": "http://x"`, is left untouched. */
  lemma {:induction false} StripLineCommentsWithoutMarker(s: string, atLineStart: bool)
    requires NoCommentMarker(s, atLineStart)
    ensures StripLineCommentsFrom(s, atLineStart) == s
    decreases |s|
  {
    if s != [] {
      if IsBlank(s[0]) {
        NoMarkerAfterBlanks(s, atLineStart);
      }
      assert !LineCommentAt(s, atLineStart);
      StripLineCommentsWithoutMarker(s[1..], s[0] == '\n');
    }
  }

  // ---------------------------------------------------------------------
  // Pass 2: block comments, `/\*[\s\S]*?\*/` replaced by "".
  // ---------------------------------------------------------------------

  /** Index of the first "*" "/" pair in `s`. */
  function FindBlockEnd(s: string): (r: Option<nat>)
    ensures r.Some? ==> r.value + 2 <= |s| && s[r.value] == '*' && s[r.value + 1] == '/'
    ensures r.Some? ==> forall i :: 0 <= i < r.value ==> !(s[i] == '*' && s[i + 1] == '/')
    ensures r.None? ==> forall i :: 0 <= i < |s| - 1 ==> !(s[i] == '*' && s[i + 1] == '/')
  {
    if |s| < 2 then None
    else if s[0] == '*' && s[1] == '/' then Some(0)
    else match FindBlockEnd(s[1..])
      case None => None
      case Some(k) => Some(k + 1)
  }

  /** A block comment starts at the head of `s` and is closed: its length. */
  function BlockCommentAt(s: string): (r: Option<nat>)
    ensures r.Some? ==> 4 <= r.value <= |s|
  {
    if StartsWith(s, "/*") then
      match FindBlockEnd(s[2..])
      case None => None
      case Some(k) => Some(k + 4)
    else None
  }

  function StripBlockComments(s: string): string
    decreases |s|
  {
    if s == [] then []
    else match BlockCommentAt(s)
      case Some(n) => StripBlockComments(s[n..])
      case None => [s[0]] + StripBlockComments(s[1..])
  }

  /** Without any block-comment opener the text is left untouched. */
  lemma {:induction false} StripBlockCommentsWithoutOpener(s: string)
    requires forall i :: 0 <= i < |s| - 1 ==> !(s[i] == '/' && s[i + 1] == '*')
    ensures StripBlockComments(s) == s
  {
    if s != [] {
      assert !StartsWith(s, "/*") by {
        if |s| >= 2 {
          assert !(s[0] == '/' && s[1] == '*');
          assert s[..2] != "/*";
        }
      }
      StripBlockCommentsWithoutOpener(s[1..]);
    }
  }

  /** A rune other than "/" cannot open a comment and is copied. */
  lemma StripBlockCommentsStep(s: string)
    requires s != [] && s[0] != '/'
    ensures StripBlockComments(s) == [s[0]] + StripBlockComments(s[1..])
  {
    assert !StartsWith(s, "/*") by {
      if |s| >= 2 {
        assert s[..2][0] == s[0];
      }
    }
  }

  /** A prefix without "/" is copied and scanning resumes after it. */
  lemma {:induction false} StripBlockCommentsSkipsPrefix(a: string, b: string)
    requires forall i :: 0 <= i < |a| ==> a[i] != '/'
    ensures StripBlockComments(a + b) == a + StripBlockComments(b)
  {
    if a == [] {
      assert a + b == b;
    } else {
      var s := a + b;
      assert s[0] == a[0] && s[1..] == a[1..] + b;
      StripBlockCommentsStep(s);
      forall i | 0 <= i < |a[1..]| ensures a[1..][i] != '/' {
        assert a[1..][i] == a[i + 1];
      }
      StripBlockCommentsSkipsPrefix(a[1..], b);
      HeadThenRest(a, StripBlockComments(b));
    }
  }

  /** A closed block comment whose body holds no closer is removed, and scanning resumes after it. */
  lemma BlockCommentRemoved(body: string, rest: string)
    requires forall i :: 0 <= i < |body| - 1 ==> !(body[i] == '*' && body[i + 1] == '/')
    ensures StripBlockComments("/*" + body + "*/" + rest) == StripBlockComments(rest)
  {
    var s := "/*" + body + "*/" + rest;
    var t := s[2..];
    assert t == body + "*/" + rest;
    assert t[|body|] == '*' && t[|body| + 1] == '/';
    assert forall i :: 0 <= i < |body| ==> !(t[i] == '*' && t[i + 1] == '/') by {
      forall i | 0 <= i < |body|
        ensures !(t[i] == '*' && t[i + 1] == '/')
      {
        if i < |body| - 1 {
          assert t[i] == body[i] && t[i + 1] == body[i + 1];
        } else {
          assert t[i + 1] == '*';
        }
      }
    }
    assert FindBlockEnd(t) == Some(|body|);
    assert StartsWith(s, "/*") by {
      assert s[..2] == "/*";
    }
    assert BlockCommentAt(s) == Some(|body| + 4);
    assert s[|body| + 4..] == rest;
  }

  // ---------------------------------------------------------------------
  // Pass 3: trailing commas, `,\s*}` replaced by "}" and then `,\s*]` by "]".
  // ---------------------------------------------------------------------

  /** `\s` of Go's regular expressions: tab, newline, form feed, carriage return, space. */
  predicate IsSpace(c: char)
  {
    c == '\t' || c == '\n' || c == 12 as char || c == '\r' || c == ' '
  }

  function SpaceRun(s: string): (n: nat)
    ensures n <= |s|
    ensures forall i :: 0 <= i < n ==> IsSpace(s[i])
    ensures n < |s| ==> !IsSpace(s[n])
  {
    if s != [] && IsSpace(s[0]) then 1 + SpaceRun(s[1..]) else 0
  }

  /** A trailing comma before `closer` starts at the head of `s`: the length of the match. */
  function TrailingCommaAt(s: string, closer: char): (r: Option<nat>)
    ensures r.Some? ==> 2 <= r.value <= |s| && s[0] == ',' && s[r.value - 1] == closer
    ensures r.Some? ==> forall i :: 1 <= i < r.value - 1 ==> IsSpace(s[i])
  {
    if s != [] && s[0] == ',' then
      var n := 1 + SpaceRun(s[1..]);
      if n < |s| && s[n] == closer then Some(n + 1) else None
    else None
  }

  function StripTrailingCommas(s: string, closer: char): string
    decreases |s|
  {
    if s == [] then []
    else match TrailingCommaAt(s, closer)
      case Some(n) => [closer] + StripTrailingCommas(s[n..], closer)
      case None => [s[0]] + StripTrailingCommas(s[1..], closer)
  }

  /** The runes of `s` other than commas and white space. */
  function Significant(s: string): string
  {
    if s == [] then []
    else (if s[0] == ',' || IsSpace(s[0]) then [] else [s[0]]) + Significant(s[1..])
  }

  lemma {:induction false} SignificantAppend(a: string, b: string)
    ensures Significant(a + b) == Significant(a) + Significant(b)
  {
    if a == [] {
      assert a + b == b;
    } else {
      assert (a + b)[1..] == a[1..] + b;
      SignificantAppend(a[1..], b);
    }
  }

  lemma {:induction false} SignificantOfSpaces(s: string)
    requires forall i :: 0 <= i < |s| ==> IsSpace(s[i])
    ensures Significant(s) == []
  {
    if s != [] {
      SignificantOfSpaces(s[1..]);
    }
  }

  /**
   * Removing trailing commas deletes only commas and white space: every
   * other rune, closing brackets included, stays in order.
   */
  lemma {:induction false} StripTrailingCommasKeepsSignificant(s: string, closer: char)
    requires closer != ',' && !IsSpace(closer)
    ensures Significant(StripTrailingCommas(s, closer)) == Significant(s)
    decreases |s|
  {
    if s != [] {
      match TrailingCommaAt(s, closer)
      case Some(n) =>
        var rest := StripTrailingCommas(s[n..], closer);
        assert s == s[..n] + s[n..];
        SignificantAppend(s[..n], s[n..]);
        SignificantOfTrailingComma(s[..n], closer);
        SignificantAppend([closer], rest);
        StripTrailingCommasKeepsSignificant(s[n..], closer);
      case None =>
        assert s == [s[0]] + s[1..];
        SignificantAppend([s[0]], s[1..]);
        SignificantAppend([s[0]], StripTrailingCommas(s[1..], closer));
        StripTrailingCommasKeepsSignificant(s[1..], closer);
    }
  }

  /** What a trailing-comma match holds besides commas and white space is its closer. */
  lemma SignificantOfTrailingComma(m: string, closer: char)
    requires |m| >= 2 && m[0] == ',' && m[|m| - 1] == closer
    requires closer != ',' && !IsSpace(closer)
    requires forall i :: 1 <= i < |m| - 1 ==> IsSpace(m[i])
    ensures Significant(m) == [closer]
  {
    var spaces := m[1..|m| - 1];
    assert m == [','] + (spaces + [closer]);
    SignificantAppend([','], spaces + [closer]);
    SignificantAppend(spaces, [closer]);
    SignificantOfSpaces(spaces);
  }

  /** A prefix without commas is copied and scanning resumes after it. */
  lemma {:induction false} StripTrailingCommasSkipsPrefix(a: string, b: string, closer: char)
    requires ',' !in a
    ensures StripTrailingCommas(a + b, closer) == a + StripTrailingCommas(b, closer)
  {
    if a == [] {
      assert a + b == b;
    } else {
      assert (a + b)[1..] == a[1..] + b;
      StripTrailingCommasSkipsPrefix(a[1..], b, closer);
    }
  }

  /** Text without commas is left untouched. */
  lemma {:induction false} StripTrailingCommasWithoutComma(s: string, closer: char)
    requires ',' !in s
    ensures StripTrailingCommas(s, closer) == s
  {
    if s != [] {
      StripTrailingCommasWithoutComma(s[1..], closer);
    }
  }

  /** A run of white space ends where the first other rune begins. */
  lemma {:induction false} SpaceRunOf(spaces: string, rest: string)
    requires forall i :: 0 <= i < |spaces| ==> IsSpace(spaces[i])
    requires rest == [] || !IsSpace(rest[0])
    ensures SpaceRun(spaces + rest) == |spaces|
  {
    if spaces == [] {
      assert spaces + rest == rest;
    } else {
      assert (spaces + rest)[1..] == spaces[1..] + rest;
      SpaceRunOf(spaces[1..], rest);
    }
  }

  /**
   * Every match of `,\s*` followed by the closer is found, with its full
   * length: white space cannot swallow the closer.
   */
  lemma TrailingCommaAtComplete(s: string, closer: char, n: nat)
    requires !IsSpace(closer)
    requires 2 <= n <= |s| && s[0] == ',' && s[n - 1] == closer
    requires forall i :: 1 <= i < n - 1 ==> IsSpace(s[i])
    ensures TrailingCommaAt(s, closer) == Some(n)
  {
    var t := s[1..];
    assert t == t[..n - 2] + t[n - 2..];
    assert t[n - 2] == closer;
    SpaceRunOf(t[..n - 2], t[n - 2..]);
  }

  /** A comma, white space and the closer become the closer alone. */
  lemma TrailingCommaRemoved(head: string, spaces: string, closer: char, rest: string)
    requires ',' !in head
    requires forall i :: 0 <= i < |spaces| ==> IsSpace(spaces[i])
    requires !IsSpace(closer)
    ensures StripTrailingCommas(head + "," + spaces + [closer] + rest, closer)
      == head + [closer] + StripTrailingCommas(rest, closer)
  {
    var m := "," + spaces + [closer];
    var t := m + rest;
    assert head + "," + spaces + [closer] + rest == head + t;
    StripTrailingCommasSkipsPrefix(head, t, closer);
    assert t[..|m|] == m;
    TrailingCommaAtComplete(t, closer, |m|);
    assert t[|m|..] == rest;
  }

  /** A comma whose white space is followed by anything but the closer stays. */
  lemma CommaKept(spaces: string, c: char, rest: string, closer: char)
    requires forall i :: 0 <= i < |spaces| ==> IsSpace(spaces[i])
    requires !IsSpace(c) && c != closer
    ensures StripTrailingCommas("," + spaces + [c] + rest, closer)
      == "," + StripTrailingCommas(spaces + [c] + rest, closer)
  {
    var t := spaces + [c] + rest;
    var s := "," + t;
    assert s[1..] == spaces + ([c] + rest);
    SpaceRunOf(spaces, [c] + rest);
    assert s[1 + |spaces|] == c;
    assert TrailingCommaAt(s, closer) == None;
    assert s[0] == ',' && s[1..] == t;
    assert "," + spaces + [c] + rest == s;
  }

  // ---------------------------------------------------------------------
  // Pass 4: `${localEnv:NAME}`, regular expression `\${localEnv:(.+?)}`.
  // ---------------------------------------------------------------------

  const LocalEnvOpen := "${localEnv:"

  /** One match: the whole matched text and the captured variable name. */
  datatype EnvMatch = EnvMatch(text: string, name: string)

  /**
   * Where the lazy `.+?}` of a match ends in `t`, searching from `k`: the
   * first '}' at or after `k`, provided no newline comes before it.
   */
  function LazyNameEnd(t: string, k: nat): (r: Option<nat>)
    ensures r.Some? ==> k <= r.value < |t| && t[r.value] == '}'
    ensures r.Some? ==> forall i :: k <= i < r.value ==> t[i] != '}' && t[i] != '\n'
    decreases |t| - k
  {
    if k >= |t| then None
    else if t[k] == '}' then Some(k)
    else if t[k] == '\n' then None
    else LazyNameEnd(t, k + 1)
  }

  /** Length of the captured name at the head of `t`: at least one rune, no newline. */
  function EnvNameLength(t: string): (r: Option<nat>)
    ensures r.Some? ==> 1 <= r.value < |t| && t[r.value] == '}'
    ensures r.Some? ==> forall i :: 0 <= i < r.value ==> t[i] != '\n'
  {
    if t == [] || t[0] == '\n' then None else LazyNameEnd(t, 1)
  }

  /** `FindAllStringSubmatch`: the matches of `s`, left to right, non-overlapping. */
  function EnvMatches(s: string): (ms: seq<EnvMatch>)
    ensures forall m :: m in ms ==> m.text == LocalEnvOpen + m.name + "}"
    ensures forall m :: m in ms ==> m.name != "" && '\n' !in m.name
    decreases |s|
  {
    if s == [] then []
    else if StartsWith(s, LocalEnvOpen) && EnvNameLength(s[11..]).Some? then
      var k := EnvNameLength(s[11..]).value;
      assert s[..12 + k] == LocalEnvOpen + s[11..11 + k] + "}";
      [EnvMatch(s[..12 + k], s[11..11 + k])] + EnvMatches(s[12 + k..])
    else EnvMatches(s[1..])
  }

  /** The value substituted for a variable: its value, or "" when it is unset. */
  function EnvValue(env: map<string, string>, name: string): string
  {
    if name in env then env[name] else ""
  }

  /**
   * `strings.ReplaceAll(text, m.text, value)` for the matches in order, each
   * on the result of the ones before.
   */
  function SubstituteEnvMatches(s: string, ms: seq<EnvMatch>, env: map<string, string>): string
  {
    if ms == [] then s
    else
      var m := ms[|ms| - 1];
      ReplaceAll(SubstituteEnvMatches(s, ms[..|ms| - 1], env), m.text, EnvValue(env, m.name))
  }

  function SubstituteEnv(s: string, env: map<string, string>): string
  {
    SubstituteEnvMatches(s, EnvMatches(s), env)
  }

  /**
   * The loop of the loader: every match found in the text before the loop
   * is replaced everywhere by the variable's value, in match order.
   */
  method ResolveLocalEnv(s: string, env: map<string, string>) returns (r: string)
    ensures r == SubstituteEnv(s, env)
  {
    var matches := EnvMatches(s);
    r := s;
    var i := 0;
    while i < |matches|
      invariant 0 <= i <= |matches|
      invariant r == SubstituteEnvMatches(s, matches[..i], env)
    {
      var m := matches[i];
      r := ReplaceAll(r, m.text, EnvValue(env, m.name));
      assert matches[..i + 1][..i] == matches[..i] && matches[..i + 1][i] == m;
      i := i + 1;
    }
    assert matches[..i] == matches;
  }

  lemma {:induction false} EnvMatchesSkipsPrefix(a: string, b: string)
    requires '$' !in a
    ensures EnvMatches(a + b) == EnvMatches(b)
  {
    if a == [] {
      assert a + b == b;
    } else {
      assert (a + b)[0] == a[0] && a[0] in a;
      assert LocalEnvOpen[0] == '$';
      assert !StartsWith(a + b, LocalEnvOpen);
      assert (a + b)[1..] == a[1..] + b;
      EnvMatchesSkipsPrefix(a[1..], b);
    }
  }

  lemma EnvMatchesWithoutDollar(s: string)
    requires '$' !in s
    ensures EnvMatches(s) == []
  {
    EnvMatchesSkipsPrefix(s, []);
    assert s + [] == s;
  }

  lemma {:induction false} LazyNameEndOf(name: string, k: nat)
    requires 1 <= k <= |name|
    requires forall i :: k <= i < |name| ==> name[i] != '}' && name[i] != '\n'
    ensures LazyNameEnd(name + "}", k) == Some(|name|)
    decreases |name| - k
  {
    if k < |name| {
      LazyNameEndOf(name, k + 1);
    }
  }

  /**
   * A placeholder at the head of the text is matched as a whole, and the
   * search goes on right after it.
   */
  lemma EnvMatchesOfPlaceholder(name: string, rest: string)
    requires name != [] && '}' !in name && '\n' !in name
    ensures EnvMatches(LocalEnvOpen + name + "}" + rest) == [EnvMatch(LocalEnvOpen + name + "}", name)] + EnvMatches(rest)
  {
    var t := LocalEnvOpen + name + "}" + rest;
    LazyNameEndOf(name, 1);
    assert t[11..] == (name + "}") + rest;
    assert EnvNameLength(t[11..]) == Some(|name|) by {
      assert t[11..][0] == name[0];
      assert name[0] in name;
      assert forall i :: 0 <= i < |name| + 1 ==> t[11..][i] == (name + "}")[i];
      LazyNameEndPrefix(name + "}", rest, 1);
    }
    assert StartsWith(t, LocalEnvOpen);
    assert t[..12 + |name|] == LocalEnvOpen + name + "}";
    assert t[11..11 + |name|] == name;
    assert t[12 + |name|..] == rest;
  }

  /** Text after a closing brace does not change where a lazy match ends. */
  lemma {:induction false} LazyNameEndPrefix(t: string, u: string, k: nat)
    requires LazyNameEnd(t, k).Some?
    ensures LazyNameEnd(t + u, k) == LazyNameEnd(t, k)
    decreases |t| - k
  {
    if t[k] != '}' {
      LazyNameEndPrefix(t, u, k + 1);
    }
  }

  /** With a single match, substitution is one `ReplaceAll`. */
  lemma SubstituteSingleMatch(s: string, m: EnvMatch, env: map<string, string>)
    ensures SubstituteEnvMatches(s, [m], env) == ReplaceAll(s, m.text, EnvValue(env, m.name))
  {
    assert [m][..0] == [];
  }

  /** The placeholder is the only match in text around it that holds no "$". */
  lemma EnvMatchesAround(before: string, name: string, after: string)
    requires name != [] && '}' !in name && '\n' !in name
    requires '$' !in before && '$' !in after
    ensures EnvMatches(before + (LocalEnvOpen + name + "}" + after)) == [EnvMatch(LocalEnvOpen + name + "}", name)]
  {
    EnvMatchesSkipsPrefix(before, LocalEnvOpen + name + "}" + after);
    EnvMatchesOfPlaceholder(name, after);
    EnvMatchesWithoutDollar(after);
  }

  /**
   * A lone placeholder `${localEnv:NAME}` between placeholder-free texts
   * becomes the variable's value, or "" when the variable is unset; the
   * surrounding text stays as it is.
   */
  lemma EnvPlaceholder(before: string, name: string, after: string, env: map<string, string>)
    requires name != [] && '}' !in name && '\n' !in name
    requires '$' !in before && '$' !in after
    ensures SubstituteEnv(before + (LocalEnvOpen + name + "}" + after), env)
         == before + EnvValue(env, name) + after
  {
    var placeholder := LocalEnvOpen + name + "}";
    var s := before + (placeholder + after);
    EnvMatchesAround(before, name, after);
    SubstituteSingleMatch(s, EnvMatch(placeholder, name), env);
    ReplacePlaceholder(before, placeholder, after, EnvValue(env, name));
  }

  lemma ReplacePlaceholder(before: string, placeholder: string, after: string, v: string)
    requires placeholder != [] && placeholder[0] == '$'
    requires '$' !in before && '$' !in after
    ensures ReplaceAll(before + (placeholder + after), placeholder, v) == before + v + after
  {
    var t := placeholder + after;
    ReplaceAllSkipsPrefix(before, t, placeholder, v);
    assert StartsWith(t, placeholder);
    assert t[|placeholder|..] == after;
    ReplaceAllWithoutHead(after, placeholder, v);
  }

  /** A placeholder whose name holds no "$" has its only "$" at its start. */
  lemma EnvPlaceholderShape(name: string)
    requires '$' !in name
    ensures var p := LocalEnvOpen + name + "}";
      p[0] == '$' && forall i :: 1 <= i < |p| ==> p[i] != '$'
  {
    var p := LocalEnvOpen + name + "}";
    forall i | 1 <= i < |p| ensures p[i] != '$' {
      if i < 11 {
        assert p[i] == LocalEnvOpen[i];
      } else if i < 11 + |name| {
        assert p[i] == name[i - 11];
      }
    }
  }

  /** Placeholders with different names differ at a position inside both. */
  lemma EnvPlaceholdersDiffer(n1: string, n2: string) returns (k: nat)
    requires n1 != n2 && '}' !in n1 && '}' !in n2
    ensures var p1 := LocalEnvOpen + n1 + "}"; var p2 := LocalEnvOpen + n2 + "}";
      k < |p1| && k < |p2| && p1[k] != p2[k]
  {
    var p1 := LocalEnvOpen + n1 + "}";
    var p2 := LocalEnvOpen + n2 + "}";
    if |n1| < |n2| {
      k := 11 + |n1|;
      assert p2[k] == n2[|n1|] && n2[|n1|] in n2;
    } else if |n2| < |n1| {
      k := 11 + |n2|;
      assert p1[k] == n1[|n2|] && n1[|n2|] in n1;
    } else {
      assert !(forall i :: 0 <= i < |n1| ==> n1[i] == n2[i]);
      var i :| 0 <= i < |n1| && n1[i] != n2[i];
      k := 11 + i;
      assert p1[k] == n1[i] && p2[k] == n2[i];
    }
  }

  /** Two placeholders in text without another "$" are the two matches, in order. */
  lemma EnvMatchesOfTwo(before: string, n1: string, mid: string, n2: string, after: string)
    requires n1 != [] && '}' !in n1 && '\n' !in n1
    requires n2 != [] && '}' !in n2 && '\n' !in n2
    requires '$' !in before && '$' !in mid && '$' !in after
    ensures var p1 := LocalEnvOpen + n1 + "}"; var p2 := LocalEnvOpen + n2 + "}";
      EnvMatches(before + (p1 + (mid + (p2 + after)))) == [EnvMatch(p1, n1), EnvMatch(p2, n2)]
  {
    var p1 := LocalEnvOpen + n1 + "}";
    var p2 := LocalEnvOpen + n2 + "}";
    EnvMatchesSkipsPrefix(before, p1 + (mid + (p2 + after)));
    EnvMatchesOfPlaceholder(n1, mid + (p2 + after));
    EnvMatchesSkipsPrefix(mid, p2 + after);
    EnvMatchesOfPlaceholder(n2, after);
    EnvMatchesWithoutDollar(after);
  }

  /** Substituting two matches is two `ReplaceAll`s, the first match's first. */
  lemma SubstituteTwoMatches(s: string, m1: EnvMatch, m2: EnvMatch, env: map<string, string>)
    ensures SubstituteEnvMatches(s, [m1, m2], env)
      == ReplaceAll(ReplaceAll(s, m1.text, EnvValue(env, m1.name)), m2.text, EnvValue(env, m2.name))
  {
    assert [m1, m2][..1] == [m1];
    SubstituteSingleMatch(s, m1, env);
  }

  /**
   * Two placeholders between texts without "$" become their variables'
   * values, each in its place: the first replacement leaves the second
   * placeholder alone unless it names the same variable, and then it
   * replaces both with the same value.
   */
  lemma TwoEnvPlaceholders(before: string, n1: string, mid: string, n2: string, after: string, env: map<string, string>)
    requires n1 != [] && '}' !in n1 && '\n' !in n1 && '$' !in n1
    requires n2 != [] && '}' !in n2 && '\n' !in n2 && '$' !in n2
    requires '$' !in before && '$' !in mid && '$' !in after
    requires '$' !in EnvValue(env, n1)
    ensures var p1 := LocalEnvOpen + n1 + "}"; var p2 := LocalEnvOpen + n2 + "}";
      SubstituteEnv(before + (p1 + (mid + (p2 + after))), env)
        == before + (EnvValue(env, n1) + (mid + (EnvValue(env, n2) + after)))
  {
    var p1 := LocalEnvOpen + n1 + "}";
    var p2 := LocalEnvOpen + n2 + "}";
    var v1, v2 := EnvValue(env, n1), EnvValue(env, n2);
    var s := before + (p1 + (mid + (p2 + after)));
    EnvMatchesOfTwo(before, n1, mid, n2, after);
    SubstituteTwoMatches(s, EnvMatch(p1, n1), EnvMatch(p2, n2), env);
    EnvPlaceholderShape(n1);
    EnvPlaceholderShape(n2);
    assert Without(before, '$') && Without(mid, '$') && Without(after, '$') && Without(v1, '$');
    if n1 == n2 {
      ReplaceTwiceSame(before, p1, mid, after, v1, v2);
    } else {
      var k := EnvPlaceholdersDiffer(n1, n2);
      ReplaceTwiceOther(before, p1, mid, p2, after, v1, v2, k);
    }
  }

  /** Text without "$" has no placeholder and passes unchanged. */
  lemma SubstituteEnvWithoutDollar(s: string, env: map<string, string>)
    requires '$' !in s
    ensures SubstituteEnv(s, env) == s
  {
    EnvMatchesWithoutDollar(s);
  }

  // ---------------------------------------------------------------------
  // Passes 5-7: workspace placeholders via `Regexp.ReplaceAllString`.
  // ---------------------------------------------------------------------

  const LocalWorkspaceFolder := "${localWorkspaceFolder}"
  const LocalWorkspaceFolderBasename := "${localWorkspaceFolderBasename}"
  const ContainerWorkspaceFolder := "${containerWorkspaceFolder}"
  const ContainerWorkspacesRoot := "/workspaces"

  predicate IsNameRune(c: char)
  {
    'a' <= c <= 'z' || 'A' <= c <= 'Z' || '0' <= c <= '9' || c == '_'
  }

  function NameRun(s: string): (n: nat)
    ensures n <= |s|
  {
    if s != [] && IsNameRune(s[0]) then 1 + NameRun(s[1..]) else 0
  }

  /**
   * The reference after a "$" in a replacement template, as `name` or
   * `{name}`: the name and what follows it, or None when it is malformed.
   */
  function ExtractReference(t: string): (r: Option<(string, string)>)
    ensures r.Some? ==> |r.value.1| < |t|
  {
    if t == [] then None
    else if t[0] == '{' then
      var n := NameRun(t[1..]);
      if n == 0 || 1 + n >= |t| || t[1 + n] != '}' then None
      else Some((t[1..1 + n], t[2 + n..]))
    else
      var n := NameRun(t);
      if n == 0 then None else Some((t[..n], t[n..]))
  }

  /**
   * `Regexp.Expand` for an expression without groups: "$$" is "$", a
   * reference to group 0 is the whole match, any other reference is empty,
   * and a malformed "$" stands for itself.
   */
  function Expand(template: string, matched: string): string
    decreases |template|
  {
    if template == [] then []
    else if template[0] != '$' then [template[0]] + Expand(template[1..], matched)
    else
      var rest := template[1..];
      if rest != [] && rest[0] == '$' then "$" + Expand(rest[1..], matched)
      else match ExtractReference(rest)
        case None => "$" + Expand(rest, matched)
        case Some((name, after)) => (if name == "0" then matched else "") + Expand(after, matched)
  }

  /** A replacement without "$" is used literally. */
  lemma {:induction false} ExpandWithoutDollar(template: string, matched: string)
    requires '$' !in template
    ensures Expand(template, matched) == template
  {
    if template != [] {
      ExpandWithoutDollar(template[1..], matched);
    }
  }

  /** In a replacement, "$$" stands for "$". */
  lemma ExpandEscapedDollar(t: string, matched: string)
    ensures Expand("$$" + t, matched) == "$" + Expand(t, matched)
  {
    var a := "$$" + t;
    assert a[0] == '$' && a[1..][0] == '$' && a[1..][1..] == t;
  }

  /** In a replacement, "${0}" stands for the whole match. */
  lemma ExpandWholeMatch(t: string, matched: string)
    ensures Expand("${0}" + t, matched) == matched + Expand(t, matched)
  {
    var rest := ("${0}" + t)[1..];
    assert rest == "{0}" + t && rest[0] == '{';
    assert rest[1..] == "0}" + t;
    NameRunOf("0", "}" + t);
    assert "0" + ("}" + t) == "0}" + t;
    assert rest[1..2] == "0" && rest[3..] == t;
  }

  /** In a replacement, a reference "${name}" to another group stands for nothing. */
  lemma ExpandOtherGroup(t: string, matched: string, name: string)
    requires NameRun(name) == |name| && name != "" && name != "0"
    ensures Expand("${" + name + "}" + t, matched) == Expand(t, matched)
  {
    var rest := ("${" + name + "}" + t)[1..];
    assert rest == "{" + (name + ("}" + t)) && rest[0] == '{';
    assert rest[1..] == name + ("}" + t);
    NameRunOf(name, "}" + t);
    assert rest[1..1 + |name|] == name && rest[2 + |name|..] == t;
  }

  /**
   * In a replacement, an unbraced reference "$name" takes the longest run
   * of name runes; it stands for the whole match when the name is "0" and
   * for nothing otherwise.
   */
  lemma ExpandUnbracedGroup(name: string, t: string, matched: string)
    requires NameRun(name) == |name| && name != ""
    requires t == [] || !IsNameRune(t[0])
    ensures Expand("$" + name + t, matched) == (if name == "0" then matched else "") + Expand(t, matched)
  {
    var rest := ("$" + name + t)[1..];
    assert rest == name + t && rest[0] == name[0];
    if t == [] {
      assert rest == name;
    } else {
      NameRunOf(name, t);
    }
    assert rest[..|name|] == name && rest[|name|..] == t;
  }

  /**
   * In a replacement, a "$" followed by neither "$", "{" nor a name rune
   * starts no reference and stands for itself.
   */
  lemma ExpandStrayDollar(t: string, matched: string)
    requires t == [] || (t[0] != '$' && t[0] != '{' && !IsNameRune(t[0]))
    ensures Expand("$" + t, matched) == "$" + Expand(t, matched)
  {
    assert ("$" + t)[1..] == t;
  }

  /**
   * In a replacement, "${" whose name runes are not closed by "}" starts no
   * reference: the "$" stands for itself and the rest is expanded as text.
   */
  lemma ExpandUnclosedBrace(name: string, u: string, matched: string)
    requires NameRun(name) == |name|
    requires u == [] || (u[0] != '}' && !IsNameRune(u[0]))
    ensures Expand("${" + name + u, matched) == "$" + Expand("{" + name + u, matched)
  {
    var rest := ("${" + name + u)[1..];
    assert rest == "{" + name + u && rest[0] == '{';
    assert rest[1..] == name + u;
    if u == [] {
      assert rest[1..] == name;
    } else {
      NameRunOf(name, u);
      assert rest[1 + |name|] == u[0];
    }
  }

  lemma {:induction false} NameRunOf(name: string, rest: string)
    requires NameRun(name) == |name|
    requires rest != [] && !IsNameRune(rest[0])
    ensures NameRun(name + rest) == |name|
  {
    if name == [] {
      assert name + rest == rest;
    } else {
      assert (name + rest)[1..] == name[1..] + rest;
      NameRunOf(name[1..], rest);
    }
  }

  /** `ReplaceAllString` with a pattern that matches exactly the text `literal`. */
  function ReplaceLiteralMatches(s: string, literal: string, template: string): string
  {
    ReplaceAll(s, literal, Expand(template, literal))
  }

  /** `filepath.Join("/workspaces", base)`. */
  function ContainerFolder(path: string): string
  {
    Paths.Join([ContainerWorkspacesRoot, Paths.Base(path)])
  }

  function SubstituteWorkspace(s: string, path: string): string
  {
    var s1 := ReplaceLiteralMatches(s, LocalWorkspaceFolder, path);
    var s2 := ReplaceLiteralMatches(s1, LocalWorkspaceFolderBasename, Paths.Base(path));
    ReplaceLiteralMatches(s2, ContainerWorkspaceFolder, ContainerFolder(path))
  }

  lemma ReplaceLiteralWithoutDollar(s: string, literal: string, template: string)
    requires literal != [] && literal[0] == '$' && '$' !in s
    ensures ReplaceLiteralMatches(s, literal, template) == s
  {
    ReplaceAllWithoutHead(s, literal, Expand(template, literal));
  }

  /** Text without "$" passes the workspace substitutions unchanged. */
  lemma SubstituteWorkspaceWithoutDollar(s: string, path: string)
    requires '$' !in s
    ensures SubstituteWorkspace(s, path) == s
  {
    ReplaceLiteralWithoutDollar(s, LocalWorkspaceFolder, path);
    ReplaceLiteralWithoutDollar(s, LocalWorkspaceFolderBasename, Paths.Base(path));
    ReplaceLiteralWithoutDollar(s, ContainerWorkspaceFolder, ContainerFolder(path));
  }

  /**
   * Each placeholder holds "$" only at its start; the container placeholder
   * differs from the other two in its third rune, and the basename
   * placeholder from the folder placeholder where "Folder" ends.
   */
  lemma PlaceholderShapes()
    ensures forall i :: 1 <= i < |LocalWorkspaceFolder| ==> LocalWorkspaceFolder[i] != '$'
    ensures forall i :: 1 <= i < |LocalWorkspaceFolderBasename| ==> LocalWorkspaceFolderBasename[i] != '$'
    ensures forall i :: 1 <= i < |ContainerWorkspaceFolder| ==> ContainerWorkspaceFolder[i] != '$'
    ensures ContainerWorkspaceFolder[2] != LocalWorkspaceFolder[2]
    ensures ContainerWorkspaceFolder[2] != LocalWorkspaceFolderBasename[2]
    ensures LocalWorkspaceFolderBasename[22] != LocalWorkspaceFolder[22]
  {
  }

  lemma DollarFree3(a: string, b: string, c: string)
    requires '$' !in a && '$' !in b && '$' !in c
    ensures '$' !in a + b + c
  {
  }

  /**
   * `${localWorkspaceFolder}` becomes the project path, wherever it stands
   * in text that holds no other "$".
   */
  lemma WorkspaceFolderPlaceholder(before: string, path: string, after: string)
    requires '$' !in before && '$' !in path && '$' !in after
    ensures SubstituteWorkspace(before + LocalWorkspaceFolder + after, path) == before + path + after
  {
    var p := LocalWorkspaceFolder;
    PlaceholderShapes();
    ExpandWithoutDollar(path, p);
    ReplaceAround(before, p, after, path);
    DollarFree3(before, path, after);
    ReplaceLiteralWithoutDollar(before + path + after, LocalWorkspaceFolderBasename, Paths.Base(path));
    ReplaceLiteralWithoutDollar(before + path + after, ContainerWorkspaceFolder, ContainerFolder(path));
  }

  /**
   * `${localWorkspaceFolderBasename}` becomes the last element of the path;
   * the folder pass before it does not consume it, because there "Folder"
   * must be followed by "}".
   */
  lemma WorkspaceBasenamePlaceholder(before: string, path: string, after: string)
    requires '$' !in before && '$' !in path && '$' !in after
    ensures SubstituteWorkspace(before + LocalWorkspaceFolderBasename + after, path) == before + Paths.Base(path) + after
  {
    var p := LocalWorkspaceFolderBasename;
    var base := Paths.Base(path);
    PlaceholderShapes();
    ReplaceAroundOther(before, p, after, LocalWorkspaceFolder, Expand(path, LocalWorkspaceFolder), 22);
    ExpandWithoutDollar(base, p);
    ReplaceAround(before, p, after, base);
    assert '$' !in base by {
      if path == "" { Paths.BaseOfEmpty(); }
    }
    DollarFree3(before, base, after);
    ReplaceLiteralWithoutDollar(before + base + after, ContainerWorkspaceFolder, ContainerFolder(path));
  }

  /** For a path whose last element is a plain name, the container folder is "/workspaces/<name>". */
  lemma ContainerFolderOf(path: string)
    requires Paths.IsPlainName(Paths.Base(path))
    ensures ContainerFolder(path) == "/workspaces/" + Paths.Base(path)
  {
    var base := Paths.Base(path);
    WorkspacesRoot();
    Paths.JoinUnderRoot("workspaces", base);
    SlashJoin("/workspaces", base);
  }

  /** The container workspace root is one plain element below "/". */
  lemma WorkspacesRoot()
    ensures ContainerWorkspacesRoot == "/" + "workspaces"
    ensures Paths.IsPlainName("workspaces")
  {
  }

  lemma SlashJoin(dir: string, name: string)
    ensures dir + "/" + name == (dir + "/") + name
  {
  }

  lemma ContainerFolderWithoutDollar(path: string)
    requires '$' !in path
    requires Paths.IsPlainName(Paths.Base(path))
    ensures '$' !in ContainerFolder(path)
  {
    ContainerFolderOf(path);
    var base := Paths.Base(path);
    assert '$' !in base;
    RuneNotInConcat("/workspaces/", base, '$');
  }

  lemma RuneNotInConcat(a: string, b: string, c: char)
    requires c !in a && c !in b
    ensures c !in a + b
  {
  }

  /**
   * `${containerWorkspaceFolder}` becomes "/workspaces/" followed by the
   * last element of the path; the two folder passes before it leave it
   * alone, because their expressions differ from it in the third rune.
   */
  lemma ContainerFolderPlaceholder(before: string, path: string, after: string)
    requires '$' !in before && '$' !in path && '$' !in after
    requires Paths.IsPlainName(Paths.Base(path))
    ensures SubstituteWorkspace(before + ContainerWorkspaceFolder + after, path)
      == before + ("/workspaces/" + Paths.Base(path)) + after
  {
    var p := ContainerWorkspaceFolder;
    var folder := ContainerFolder(path);
    PlaceholderShapes();
    ReplaceAroundOther(before, p, after, LocalWorkspaceFolder, Expand(path, LocalWorkspaceFolder), 2);
    ReplaceAroundOther(before, p, after, LocalWorkspaceFolderBasename, Expand(Paths.Base(path), LocalWorkspaceFolderBasename), 2);
    ContainerFolderWithoutDollar(path);
    ExpandWithoutDollar(folder, p);
    ReplaceAround(before, p, after, folder);
    ContainerFolderOf(path);
  }

  // ---------------------------------------------------------------------
  // All passes in order.
  // ---------------------------------------------------------------------

  /** The text handed to the JSON decoder for raw file text `raw` read below `path`. */
  function Normalize(raw: string, path: string, env: map<string, string>): string
  {
    var s1 := StripLineComments(raw);
    var s2 := StripBlockComments(s1);
    var s3 := StripTrailingCommas(s2, '}');
    var s4 := StripTrailingCommas(s3, ']');
    SubstituteWorkspace(SubstituteEnv(s4, env), path)
  }
}
