/** SQL LIKE with ESCAPE '\', and the strings an escaped search matches. */
module LikePattern {
  function LowerChar(c: char): char {
    if 'A' <= c <= 'Z' then c - 'A' + 'a' else c
  }

  predicate IsLower(s: string) {
    forall i :: 0 <= i < |s| ==> LowerChar(s[i]) == s[i]
  }

  /** SQLite's LIKE ignores the case of ASCII letters, Postgres's does not. */
  predicate SameChar(ignoreCase: bool, a: char, b: char) {
    a == b || (ignoreCase && LowerChar(a) == LowerChar(b))
  }

  predicate Like(ignoreCase: bool, pattern: string, text: string)
    decreases |pattern| + |text|
  {
    if pattern == "" then text == ""
    else if pattern[0] == '%' then
      Like(ignoreCase, pattern[1..], text) || (text != "" && Like(ignoreCase, pattern, text[1..]))
    else if text == "" then false
    else if pattern[0] == '_' then Like(ignoreCase, pattern[1..], text[1..])
    else if pattern[0] == '\\' then
      |pattern| > 1 && SameChar(ignoreCase, pattern[1], text[0]) && Like(ignoreCase, pattern[2..], text[1..])
    else SameChar(ignoreCase, pattern[0], text[0]) && Like(ignoreCase, pattern[1..], text[1..])
  }

  predicate IsWildcard(c: char) {
    c == '%' || c == '_'
  }

  /** strings.NewReplacer(`%`, `\%`, `_`, `\_`), which leaves backslashes as they are. */
  function EscapedChar(c: char): string {
    if IsWildcard(c) then ['\\', c] else [c]
  }

  function Escaped(search: string): string {
    if search == "" then "" else EscapedChar(search[0]) + Escaped(search[1..])
  }

  predicate StartsWith(text: string, s: string) {
    |text| >= |s| && text[..|s|] == s
  }

  ghost predicate Contains(text: string, s: string) {
    exists k :: 0 <= k <= |text| && StartsWith(text[k..], s)
  }

  // ---- One step of a pattern ----

  lemma LikeEscape(ignoreCase: bool, c: char, rest: string, text: string)
    ensures Like(ignoreCase, ['\\', c] + rest, text)
       <==> text != "" && SameChar(ignoreCase, c, text[0]) && Like(ignoreCase, rest, text[1..])
  {
    var pattern := ['\\', c] + rest;
    assert pattern[0] == '\\' && pattern[1] == c && pattern[2..] == rest;
  }

  lemma LikePlain(ignoreCase: bool, c: char, rest: string, text: string)
    requires !IsWildcard(c) && c != '\\'
    ensures Like(ignoreCase, [c] + rest, text)
       <==> text != "" && SameChar(ignoreCase, c, text[0]) && Like(ignoreCase, rest, text[1..])
  {
    var pattern := [c] + rest;
    assert pattern[0] == c && pattern[1..] == rest;
  }

  lemma LikeOne(ignoreCase: bool, rest: string, text: string)
    ensures Like(ignoreCase, "_" + rest, text) <==> text != "" && Like(ignoreCase, rest, text[1..])
  {
    var pattern := "_" + rest;
    assert pattern[0] == '_' && pattern[1..] == rest;
  }

  /** A leading % tries the rest at every position. */
  lemma {:induction false} PercentTriesAll(ignoreCase: bool, rest: string, text: string)
    ensures Like(ignoreCase, "%" + rest, text) <==> exists k :: 0 <= k <= |text| && Like(ignoreCase, rest, text[k..])
    decreases |text|
  {
    assert ("%" + rest)[1..] == rest;
    if Like(ignoreCase, rest, text) {
      assert text[0..] == text;
    }
    if text == "" {
    } else {
      PercentTriesAll(ignoreCase, rest, text[1..]);
      if k :| 0 <= k <= |text[1..]| && Like(ignoreCase, rest, text[1..][k..]) {
        assert text[1..][k..] == text[k + 1..];
      }
      if k :| 0 < k <= |text| && Like(ignoreCase, rest, text[k..]) {
        assert text[1..][k - 1..] == text[k..];
      }
    }
  }

  lemma PercentMatchesAll(ignoreCase: bool, text: string)
    ensures Like(ignoreCase, "%", text)
  {
    assert "%" + "" == "%";
    PercentTriesAll(ignoreCase, "", text);
    assert Like(ignoreCase, "", text[|text|..]);
  }

  // ---- One step of an escaped search ----

  /** A character other than a backslash matches itself once escaped. */
  lemma EscapedStep(ignoreCase: bool, s: string, text: string)
    requires s != "" && s[0] != '\\'
    ensures Like(ignoreCase, Escaped(s) + "%", text)
       <==> text != "" && SameChar(ignoreCase, s[0], text[0]) && Like(ignoreCase, Escaped(s[1..]) + "%", text[1..])
  {
    var rest := Escaped(s[1..]) + "%";
    assert Escaped(s) + "%" == EscapedChar(s[0]) + rest;
    if IsWildcard(s[0]) {
      LikeEscape(ignoreCase, s[0], rest, text);
    } else {
      LikePlain(ignoreCase, s[0], rest, text);
    }
  }

  /** A backslash takes what comes after it: a wildcard's own escape, or an ordinary character. */
  lemma BackslashStep(ignoreCase: bool, s: string, text: string)
    requires |s| > 1 && s[0] == '\\'
    ensures Like(ignoreCase, Escaped(s) + "%", text) <==>
              && text != ""
              && var rest := Escaped(s[2..]) + "%";
                 if IsWildcard(s[1]) then text[0] == '\\' && Like(ignoreCase, [s[1]] + rest, text[1..])
                 else SameChar(ignoreCase, s[1], text[0]) && Like(ignoreCase, rest, text[1..])
  {
    var rest := Escaped(s[2..]) + "%";
    assert s[1..][1..] == s[2..];
    assert Escaped(s) == ['\\'] + (EscapedChar(s[1]) + Escaped(s[2..]));
    if IsWildcard(s[1]) {
      assert Escaped(s) + "%" == ['\\', '\\'] + ([s[1]] + rest);
      LikeEscape(ignoreCase, '\\', [s[1]] + rest, text);
    } else {
      assert Escaped(s) + "%" == ['\\', s[1]] + rest;
      LikeEscape(ignoreCase, s[1], rest, text);
    }
  }

  // ---- Searches without a backslash ----

  lemma StartsWithStep(text: string, s: string)
    requires s != ""
    ensures StartsWith(text, s) <==> text != "" && text[0] == s[0] && StartsWith(text[1..], s[1..])
  {
    if |text| >= |s| {
      assert text[..|s|] == [text[0]] + text[1..][..|s| - 1];
      assert s == [s[0]] + s[1..];
    }
  }

  /** The escaped search, followed by %, matches the texts that start with the search. */
  lemma {:induction false} EscapedIsPrefix(ignoreCase: bool, s: string, text: string)
    requires IsLower(s) && IsLower(text) && '\\' !in s
    ensures Like(ignoreCase, Escaped(s) + "%", text) <==> StartsWith(text, s)
    decreases |s|
  {
    if s == "" {
      assert Escaped(s) + "%" == "%";
      PercentMatchesAll(ignoreCase, text);
    } else {
      EscapedStep(ignoreCase, s, text);
      StartsWithStep(text, s);
      if text != "" {
        EscapedIsPrefix(ignoreCase, s[1..], text[1..]);
      }
    }
  }

  /** Between two %, it matches exactly the texts that contain it. */
  lemma EscapedIsSubstring(ignoreCase: bool, s: string, text: string)
    requires IsLower(s) && IsLower(text) && '\\' !in s
    ensures Like(ignoreCase, "%" + (Escaped(s) + "%"), text) <==> Contains(text, s)
  {
    PercentTriesAll(ignoreCase, Escaped(s) + "%", text);
    forall k | 0 <= k <= |text|
      ensures Like(ignoreCase, Escaped(s) + "%", text[k..]) <==> StartsWith(text[k..], s)
    {
      EscapedIsPrefix(ignoreCase, s, text[k..]);
    }
  }

  // ---- Searches with a backslash ----

  /** Whether the last backslash of the search has nothing to escape but the closing %. */
  predicate Dangling(s: string) {
    s != "" && if s[0] == '\\' then |s| == 1 || Dangling(s[2..]) else Dangling(s[1..])
  }

  /** The shortest text the pattern of a search matches, with `a` for a free character. */
  function Shortest(s: string): string {
    if s == "" then ""
    else if s[0] != '\\' then [s[0]] + Shortest(s[1..])
    else if |s| == 1 then "%"
    else (if s[1] == '%' then ['\\'] else if s[1] == '_' then ['\\', 'a'] else [s[1]]) + Shortest(s[2..])
  }

  lemma {:induction false} ShortestMatches(ignoreCase: bool, s: string)
    requires !Dangling(s)
    ensures Like(ignoreCase, Escaped(s) + "%", Shortest(s))
    decreases |s|
  {
    if s == "" {
      assert Escaped(s) + "%" == "%";
      PercentMatchesAll(ignoreCase, "");
    } else if s[0] != '\\' {
      ShortestMatches(ignoreCase, s[1..]);
      EscapedStep(ignoreCase, s, Shortest(s));
      assert Shortest(s)[1..] == Shortest(s[1..]);
    } else {
      ShortestMatches(ignoreCase, s[2..]);
      BackslashStep(ignoreCase, s, Shortest(s));
      ShortestAfterBackslash(ignoreCase, s);
    }
  }

  lemma ShortestAfterBackslash(ignoreCase: bool, s: string)
    requires |s| > 1 && s[0] == '\\' && Like(ignoreCase, Escaped(s[2..]) + "%", Shortest(s[2..]))
    ensures var rest, text := Escaped(s[2..]) + "%", Shortest(s);
            && text != ""
            && if IsWildcard(s[1]) then text[0] == '\\' && Like(ignoreCase, [s[1]] + rest, text[1..])
               else text[0] == s[1] && text[1..] == Shortest(s[2..])
  {
    var rest, tail := Escaped(s[2..]) + "%", Shortest(s[2..]);
    if s[1] == '%' {
      assert Shortest(s)[1..] == tail && tail[0..] == tail;
      PercentTriesAll(ignoreCase, rest, tail);
    } else if s[1] == '_' {
      assert Shortest(s)[1..] == ['a'] + tail && (['a'] + tail)[1..] == tail;
      LikeOne(ignoreCase, rest, ['a'] + tail);
    } else {
      assert Shortest(s)[1..] == tail;
    }
  }

  lemma {:induction false} ShortestLength(s: string)
    ensures |Shortest(s)| <= |s|
    decreases |s|
  {
    if s == "" {
    } else if s[0] != '\\' {
      ShortestLength(s[1..]);
    } else if |s| > 1 {
      ShortestLength(s[2..]);
    }
  }

  /** It is neither the search nor any string that has its underscores in the same places. */
  lemma {:induction false} ShortestDiffers(s: string, d: string)
    requires !Dangling(s) && '\\' in s && |d| == |s|
    requires forall i :: 0 <= i < |s| && s[i] == '_' ==> d[i] == '_'
    ensures Shortest(s) != d
    decreases |s|
  {
    if s == "" {
    } else if s[0] != '\\' {
      ShortestDiffers(s[1..], d[1..]);
      assert Shortest(s)[1..] == Shortest(s[1..]);
    } else {
      ShortestLength(s[2..]);
      if s[1] == '_' {
        assert Shortest(s)[1] == 'a' && d[1] == '_';
      }
    }
  }

  /** It consists of characters of the search, backslashes and free characters. */
  lemma {:induction false} ShortestChars(s: string, c: char)
    requires c in Shortest(s)
    ensures c in s || c == '\\' || c == 'a' || c == '%'
    decreases |s|
  {
    if s == "" {
    } else if s[0] != '\\' {
      if c != s[0] {
        assert c in Shortest(s[1..]);
        ShortestChars(s[1..], c);
      }
    } else if |s| > 1 {
      if c in Shortest(s[2..]) {
        ShortestChars(s[2..], c);
      }
    }
  }

  lemma {:induction false} DanglingEndsInBackslash(s: string)
    requires Dangling(s)
    ensures s != "" && s[|s| - 1] == '\\'
    decreases |s|
  {
    if s[0] != '\\' {
      DanglingEndsInBackslash(s[1..]);
    } else if |s| > 1 {
      DanglingEndsInBackslash(s[2..]);
    }
  }

  predicate EndsInPercent(text: string) {
    text != "" && text[|text| - 1] == '%'
  }

  /** A dangling backslash turns the closing wildcard into a literal %. */
  lemma {:induction false} DanglingNeedsPercent(ignoreCase: bool, s: string, text: string)
    requires Dangling(s) && Like(ignoreCase, Escaped(s) + "%", text)
    ensures EndsInPercent(text)
    decreases |s|
  {
    if s[0] != '\\' {
      EscapedStep(ignoreCase, s, text);
      DanglingNeedsPercent(ignoreCase, s[1..], text[1..]);
    } else if |s| == 1 {
      assert Escaped(s[1..]) == "" && Escaped(s) + "%" == ['\\', '%'] + "";
      LikeEscape(ignoreCase, '%', "", text);
      assert text[1..] == "";
    } else {
      BackslashStep(ignoreCase, s, text);
      var tail := AfterBackslash(ignoreCase, s, text);
      DanglingNeedsPercent(ignoreCase, s[2..], text[tail..]);
    }
  }

  /** The place from where the text goes on to match what follows a backslash and its character. */
  lemma AfterBackslash(ignoreCase: bool, s: string, text: string) returns (tail: nat)
    requires |s| > 1 && s[0] == '\\' && Like(ignoreCase, Escaped(s) + "%", text)
    ensures 0 < tail <= |text| && Like(ignoreCase, Escaped(s[2..]) + "%", text[tail..])
  {
    BackslashStep(ignoreCase, s, text);
    var rest := Escaped(s[2..]) + "%";
    if s[1] == '%' {
      PercentTriesAll(ignoreCase, rest, text[1..]);
      var k :| 0 <= k <= |text[1..]| && Like(ignoreCase, rest, text[1..][k..]);
      assert text[1..][k..] == text[k + 1..];
      tail := k + 1;
    } else if s[1] == '_' {
      LikeOne(ignoreCase, rest, text[1..]);
      assert text[1..][1..] == text[2..];
      tail := 2;
    } else {
      tail := 1;
    }
  }

  /** A search with a dangling backslash finds no text that ends like it. */
  lemma DanglingFindsNothing(ignoreCase: bool, s: string, text: string)
    requires Dangling(s) && !EndsInPercent(text)
    ensures !Like(ignoreCase, "%" + (Escaped(s) + "%"), text)
  {
    PercentTriesAll(ignoreCase, Escaped(s) + "%", text);
    forall k | 0 <= k <= |text| && Like(ignoreCase, Escaped(s) + "%", text[k..])
      ensures false
    {
      DanglingNeedsPercent(ignoreCase, s, text[k..]);
    }
  }

  /** Any other finds its shortest text. */
  lemma ShortestIsFound(ignoreCase: bool, s: string)
    requires !Dangling(s)
    ensures Like(ignoreCase, "%" + (Escaped(s) + "%"), Shortest(s))
  {
    ShortestMatches(ignoreCase, s);
    PercentTriesAll(ignoreCase, Escaped(s) + "%", Shortest(s));
    assert Shortest(s)[0..] == Shortest(s);
  }
}
