/** The user search: what the pattern finds, against looking for the search whatever its case. */
module UserSearch {
  import opened LikePattern

  /** How strings.ToLower changes one character of the search, and the database's lower() one of the text. */
  datatype Folding = Folding(program: char -> char, database: char -> char) {
    /**
     Both agree on ASCII, never make capitals of it or wildcards, and leave alone what the program has lowered.
     Elsewhere they may differ: SQLite's lower() only knows ASCII.
     */
    ghost predicate IsSound() {
      forall c ::
        && (c as int < 128 ==> program(c) == LowerChar(c) && database(c) == LowerChar(c))
        && LowerChar(program(c)) == program(c) && LowerChar(database(c)) == database(c)
        && (IsWildcard(program(c)) || program(c) == '\\' ==> program(c) == c)
        && database(program(c)) == program(c) && program(program(c)) == program(c)
    }
  }

  function Folded(fold: char -> char, s: string): string {
    seq(|s|, i requires 0 <= i < |s| => fold(s[i]))
  }

  /** The pattern ListUsers builds: escaped first, then lowered. */
  function Pattern(f: Folding, search: string): string {
    "%" + Folded(f.program, Escaped(search)) + "%"
  }

  /** The test of ListUsers on one column. */
  predicate IsFound(f: Folding, ignoreCase: bool, search: string, text: string) {
    Like(ignoreCase, Pattern(f, search), Folded(f.database, text))
  }

  lemma FoldedConcat(fold: char -> char, a: string, b: string)
    ensures Folded(fold, a + b) == Folded(fold, a) + Folded(fold, b)
  {
  }

  /** Lowering and escaping commute. */
  lemma {:induction false} FoldedEscaped(f: Folding, search: string)
    requires f.IsSound()
    ensures Folded(f.program, Escaped(search)) == Escaped(Folded(f.program, search))
    decreases |search|
  {
    if search == "" {
    } else {
      var c, rest := search[0], search[1..];
      FoldedEscaped(f, rest);
      FoldedConcat(f.program, EscapedChar(c), Escaped(rest));
      FoldedChar(f, c);
      assert Folded(f.program, search)[0] == f.program(c) && Folded(f.program, search)[1..] == Folded(f.program, rest);
    }
  }

  lemma FoldedChar(f: Folding, c: char)
    requires f.IsSound()
    ensures Folded(f.program, EscapedChar(c)) == EscapedChar(f.program(c))
  {
    if IsWildcard(c) {
      assert c as int < 128 && f.program('\\') == '\\';
    }
  }

  lemma PatternOf(f: Folding, search: string)
    requires f.IsSound()
    ensures Pattern(f, search) == "%" + (Escaped(Folded(f.program, search)) + "%")
    ensures '\\' in Folded(f.program, search) <==> '\\' in search
  {
    FoldedEscaped(f, search);
    var s := Folded(f.program, search);
    if '\\' in search {
      var i :| 0 <= i < |search| && search[i] == '\\';
      assert s[i] == '\\';
    }
    if '\\' in s {
      var i :| 0 <= i < |s| && s[i] == '\\';
      assert search[i] == '\\';
    }
  }

  // ---- What is found ----

  /** Without a backslash, the texts found are those that contain the search, each lowered by its own side. */
  lemma PatternIsSubstring(f: Folding, ignoreCase: bool, search: string, text: string)
    requires f.IsSound() && '\\' !in search
    ensures IsFound(f, ignoreCase, search, text)
       <==> Contains(Folded(f.database, text), Folded(f.program, search))
  {
    PatternOf(f, search);
    EscapedIsSubstring(ignoreCase, Folded(f.program, search), Folded(f.database, text));
  }

  /** The text contains the search when both are lowered by the same fold. */
  ghost predicate ContainsIgnoringCase(fold: char -> char, text: string, search: string) {
    Contains(Folded(fold, text), Folded(fold, search))
  }

  lemma ContainsItself(fold: char -> char, search: string)
    ensures ContainsIgnoringCase(fold, search, search)
  {
    var s := Folded(fold, search);
    assert s[0..] == s && s[..|s|] == s;
  }

  /** A text no longer than the search contains it only if they are equal. */
  lemma ShortContains(text: string, s: string)
    requires |text| <= |s| && Contains(text, s)
    ensures text == s
  {
    var k :| 0 <= k <= |text| && StartsWith(text[k..], s);
    assert text[k..] == text;
  }

  // ---- Searches with a backslash go wrong ----

  /** What the database and the program leave alone in the text a search with a backslash finds. */
  lemma ShortestIsFolded(f: Folding, search: string)
    requires f.IsSound()
    ensures var text := Shortest(Folded(f.program, search));
            Folded(f.database, text) == text && Folded(f.program, text) == text
  {
    var s := Folded(f.program, search);
    var text := Shortest(s);
    forall i | 0 <= i < |text| ensures f.database(text[i]) == text[i] && f.program(text[i]) == text[i] {
      ShortestChars(s, text[i]);
      if text[i] in s {
        var j :| 0 <= j < |s| && s[j] == text[i];
        assert text[i] == f.program(search[j]);
      }
    }
  }

  lemma DanglingMissesItself(f: Folding, ignoreCase: bool, search: string)
    requires f.IsSound() && Dangling(Folded(f.program, search))
    ensures !IsFound(f, ignoreCase, search, search)
  {
    var s, text := Folded(f.program, search), Folded(f.database, search);
    PatternOf(f, search);
    DanglingEndsInBackslash(s);
    assert search[|search| - 1] == '\\' && text[|text| - 1] == '\\';
    DanglingFindsNothing(ignoreCase, s, text);
  }

  lemma OtherFindsShortest(f: Folding, ignoreCase: bool, search: string)
    requires f.IsSound() && !Dangling(Folded(f.program, search))
    ensures IsFound(f, ignoreCase, search, Shortest(Folded(f.program, search)))
  {
    PatternOf(f, search);
    ShortestIsFolded(f, search);
    ShortestIsFound(ignoreCase, Folded(f.program, search));
  }

  lemma ShortestDoesNotContain(f: Folding, fold: char -> char, search: string)
    requires f.IsSound() && (fold == f.program || fold == f.database)
    requires '\\' in search && !Dangling(Folded(f.program, search))
    ensures !ContainsIgnoringCase(fold, Shortest(Folded(f.program, search)), search)
  {
    var s, d := Folded(f.program, search), Folded(fold, search);
    PatternOf(f, search);
    ShortestIsFolded(f, search);
    ShortestLength(s);
    forall i | 0 <= i < |s| && s[i] == '_' ensures d[i] == '_' {
      assert search[i] == '_' && '_' as int < 128;
    }
    ShortestDiffers(s, d);
    if Contains(Shortest(s), d) {
      ShortContains(Shortest(s), d);
    }
  }

  /** For every search with a backslash and either notion of case, a text on which the pattern is wrong. */
  lemma BackslashGoesWrong(f: Folding, fold: char -> char, ignoreCase: bool, search: string) returns (text: string)
    requires f.IsSound() && (fold == f.program || fold == f.database) && '\\' in search
    ensures IsFound(f, ignoreCase, search, text) != ContainsIgnoringCase(fold, text, search)
  {
    if Dangling(Folded(f.program, search)) {
      text := search;
      DanglingMissesItself(f, ignoreCase, search);
      ContainsItself(fold, search);
    } else {
      text := Shortest(Folded(f.program, search));
      OtherFindsShortest(f, ignoreCase, search);
      ShortestDoesNotContain(f, fold, search);
    }
  }

  // ---- Exactly when the search means what it should ----

  /** On every text the pattern agrees with looking for the search whatever its case. */
  ghost predicate IsExact(f: Folding, fold: char -> char, ignoreCase: bool, search: string) {
    forall text :: IsFound(f, ignoreCase, search, text) <==> ContainsIgnoringCase(fold, text, search)
  }

  /** The program and the database lower the characters of the search alike. */
  predicate AgreesOn(f: Folding, search: string) {
    forall i :: 0 <= i < |search| ==> f.program(search[i]) == f.database(search[i])
  }

  /** By the database's notion of case, the search is exact if and only if it has no backslash and both agree on it. */
  lemma SearchIsSubstringIff(f: Folding, ignoreCase: bool, search: string)
    requires f.IsSound()
    ensures IsExact(f, f.database, ignoreCase, search) <==> '\\' !in search && AgreesOn(f, search)
  {
    if '\\' in search {
      var text := BackslashGoesWrong(f, f.database, ignoreCase, search);
    } else {
      forall text {
        PatternIsSubstring(f, ignoreCase, search, text);
      }
      if AgreesOn(f, search) {
        assert Folded(f.program, search) == Folded(f.database, search);
      } else {
        var i :| 0 <= i < |search| && f.program(search[i]) != f.database(search[i]);
        assert Folded(f.program, search)[i] != Folded(f.database, search)[i];
        ContainsItself(f.database, search);
        PatternIsSubstring(f, ignoreCase, search, search);
        if IsFound(f, ignoreCase, search, search) {
          ShortContains(Folded(f.database, search), Folded(f.program, search));
        }
      }
    }
  }

  /** The database knows exactly the characters that the program takes for c in another case. */
  ghost predicate KnowsCasesOf(f: Folding, c: char) {
    forall x :: f.database(x) == f.program(c) <==> f.program(x) == f.program(c)
  }

  lemma SameMatches(f: Folding, search: string, text: string)
    requires forall i :: 0 <= i < |search| ==> KnowsCasesOf(f, search[i])
    ensures Contains(Folded(f.database, text), Folded(f.program, search))
       <==> ContainsIgnoringCase(f.program, text, search)
  {
    var s, byDatabase, byProgram := Folded(f.program, search), Folded(f.database, text), Folded(f.program, text);
    forall k | 0 <= k <= |text| ensures StartsWith(byDatabase[k..], s) <==> StartsWith(byProgram[k..], s) {
      if |text| - k >= |s| {
        assert forall i :: 0 <= i < |s| ==> (byDatabase[k + i] == s[i] <==> byProgram[k + i] == s[i]);
        StartsWithEach(byDatabase, k, s);
        StartsWithEach(byProgram, k, s);
      }
    }
  }

  lemma StartsWithEach(text: string, k: nat, s: string)
    requires k + |s| <= |text|
    ensures StartsWith(text[k..], s) <==> forall i :: 0 <= i < |s| ==> text[k + i] == s[i]
  {
    if StartsWith(text[k..], s) {
      assert forall i :: 0 <= i < |s| ==> text[k..][..|s|][i] == text[k + i];
    }
  }

  /** The lowered search with one character replaced by one that only one side takes for it in another case. */
  lemma UnknownCaseGoesWrong(f: Folding, ignoreCase: bool, search: string, i: nat, x: char)
    requires f.IsSound() && '\\' !in search && i < |search|
    requires !(f.database(x) == f.program(search[i]) <==> f.program(x) == f.program(search[i]))
    ensures var text := Folded(f.program, search)[i := x];
            IsFound(f, ignoreCase, search, text) != ContainsIgnoringCase(f.program, text, search)
  {
    var s := Folded(f.program, search);
    var text := s[i := x];
    PatternIsSubstring(f, ignoreCase, search, text);
    OnlyPlaceDecides(f, f.database, search, i, x);
    OnlyPlaceDecides(f, f.program, search, i, x);
  }

  lemma OnlyPlaceDecides(f: Folding, fold: char -> char, search: string, i: nat, x: char)
    requires f.IsSound() && (fold == f.program || fold == f.database) && i < |search|
    ensures var s := Folded(f.program, search);
            Contains(Folded(fold, s[i := x]), s) <==> fold(x) == f.program(search[i])
  {
    var s := Folded(f.program, search);
    var folded := Folded(fold, s[i := x]);
    assert folded[i] == fold(x);
    if fold(x) == f.program(search[i]) {
      forall j | 0 <= j < |s| ensures folded[j] == s[j] {
        assert j != i ==> folded[j] == fold(f.program(search[j]));
      }
      assert folded == s && s[0..] == s && s[..|s|] == s;
    }
    if Contains(folded, s) {
      ShortContains(folded, s);
    }
  }

  /**
   By the program's notion of case, the search is exact if and only if it has no
   backslash and the database knows all the cases of its characters.
   */
  lemma SearchIgnoresCaseIff(f: Folding, ignoreCase: bool, search: string)
    requires f.IsSound()
    ensures IsExact(f, f.program, ignoreCase, search)
       <==> '\\' !in search && forall i :: 0 <= i < |search| ==> KnowsCasesOf(f, search[i])
  {
    if '\\' in search {
      var text := BackslashGoesWrong(f, f.program, ignoreCase, search);
    } else if forall i :: 0 <= i < |search| ==> KnowsCasesOf(f, search[i]) {
      forall text ensures IsFound(f, ignoreCase, search, text) <==> ContainsIgnoringCase(f.program, text, search) {
        PatternIsSubstring(f, ignoreCase, search, text);
        SameMatches(f, search, text);
      }
    } else {
      var i :| 0 <= i < |search| && !KnowsCasesOf(f, search[i]);
      var x :| !(f.database(x) == f.program(search[i]) <==> f.program(x) == f.program(search[i]));
      UnknownCaseGoesWrong(f, ignoreCase, search, i, x);
    }
  }

  // ---- Names with accents on SQLite ----

  function LowerAccent(c: char): char {
    if c == '\U{00C9}' then '\U{00E9}' else LowerChar(c)
  }

  /** SQLite's lower(), and as much of Go's as the example needs. */
  const ACCENTS := Folding(LowerAccent, LowerChar)

  const ELODIE := "\U{00C9}lodie"

  lemma AccentsAreSound()
    ensures ACCENTS.IsSound()
  {
  }

  /** A text as long as the search is only found if it lowers to the same. */
  lemma OtherIsMissed(f: Folding, ignoreCase: bool, search: string, text: string)
    requires f.IsSound() && '\\' !in search && |text| == |search|
    requires Folded(f.database, text) != Folded(f.program, search)
    ensures !IsFound(f, ignoreCase, search, text)
  {
    PatternIsSubstring(f, ignoreCase, search, text);
    if Contains(Folded(f.database, text), Folded(f.program, search)) {
      ShortContains(Folded(f.database, text), Folded(f.program, search));
    }
  }

  /** A name with an accented capital is not found by itself, though it has no backslash. */
  lemma AccentedNameIsMissed()
    ensures ACCENTS.IsSound() && '\\' !in ELODIE
    ensures !IsFound(ACCENTS, true, ELODIE, ELODIE) && ContainsIgnoringCase(ACCENTS.database, ELODIE, ELODIE)
  {
    AccentsAreSound();
    assert Folded(ACCENTS.database, ELODIE)[0] != Folded(ACCENTS.program, ELODIE)[0];
    OtherIsMissed(ACCENTS, true, ELODIE, ELODIE);
    ContainsItself(ACCENTS.database, ELODIE);
  }

  // ---- The users listed ----

  /** The WHERE clause of ListUsers, for both its queries. */
  predicate IsListed(f: Folding, ignoreCase: bool, search: string, email: string, displayName: string) {
    IsFound(f, ignoreCase, search, email) || IsFound(f, ignoreCase, search, displayName)
  }

  /** The users listed are those whose email or name contains the search, for searches that are exact. */
  lemma ListedUsersContainSearch(f: Folding, ignoreCase: bool, search: string, email: string, displayName: string)
    requires f.IsSound() && '\\' !in search
    ensures AgreesOn(f, search) ==>
              (IsListed(f, ignoreCase, search, email, displayName) <==>
               ContainsIgnoringCase(f.database, email, search) || ContainsIgnoringCase(f.database, displayName, search))
    ensures (forall i :: 0 <= i < |search| ==> KnowsCasesOf(f, search[i])) ==>
              (IsListed(f, ignoreCase, search, email, displayName) <==>
               ContainsIgnoringCase(f.program, email, search) || ContainsIgnoringCase(f.program, displayName, search))
  {
    SearchIsSubstringIff(f, ignoreCase, search);
    SearchIgnoresCaseIff(f, ignoreCase, search);
  }
}
