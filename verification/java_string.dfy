/**
 * The parts of java.lang.String that the command dispatcher relies on:
 * toLowerCase() for command lookup, split(" ") for tokenising a message,
 * and String.join(" ", ...) as the inverse that split is checked against.
 */
module JavaString {

  /** Character.toLowerCase on the ASCII letters; every other character is kept. */
  function LowerChar(c: char): char
  {
    if 'A' <= c <= 'Z' then (c as int + 32) as char else c
  }

  /** s.toLowerCase(): the string with every letter lower-cased, position by position. */
  function Lower(s: string): (r: string)
    ensures |r| == |s|
    ensures forall i :: 0 <= i < |s| ==> r[i] == LowerChar(s[i])
  {
    if s == [] then [] else [LowerChar(s[0])] + Lower(s[1..])
  }

  /**
   * Two characters that are the same, or the upper- and lower-case forms of
   * one ASCII letter (the lower-case form is 32 code points above the upper).
   */
  predicate SameIgnoringCase(x: char, y: char)
  {
    || x == y
    || ('A' <= x <= 'Z' && y as int == x as int + 32)
    || ('A' <= y <= 'Z' && x as int == y as int + 32)
  }

  /** Two strings that differ at most in the case of their letters, position by position. */
  predicate CaseVariants(a: string, b: string)
  {
    |a| == |b| && forall i :: 0 <= i < |a| ==> SameIgnoringCase(a[i], b[i])
  }

  /** Lower-casing identifies exactly the case variants of a string. */
  lemma LowerIdentifiesCaseVariants(a: string, b: string)
    ensures Lower(a) == Lower(b) <==> CaseVariants(a, b)
  {
    forall x: char, y: char ensures LowerChar(x) == LowerChar(y) <==> SameIgnoringCase(x, y) {
    }
    if CaseVariants(a, b) {
      assert forall i :: 0 <= i < |a| ==> Lower(a)[i] == LowerChar(a[i]) == LowerChar(b[i]) == Lower(b)[i];
    }
    if Lower(a) == Lower(b) {
      assert forall i :: 0 <= i < |a| ==> LowerChar(a[i]) == Lower(a)[i] == Lower(b)[i] == LowerChar(b[i]);
    }
  }

  /** n spaces. */
  function Spaces(n: nat): (r: string)
    ensures |r| == n && forall i :: 0 <= i < n ==> r[i] == ' '
  {
    seq(n, _ => ' ')
  }

  /** n empty strings. */
  function Empties(n: nat): (r: seq<string>)
    ensures |r| == n && forall i :: 0 <= i < n ==> r[i] == ""
  {
    seq(n, _ => "")
  }

  /** String.join(" ", parts): the parts with one space between neighbours. */
  function Join(parts: seq<string>): string
  {
    if |parts| == 0 then ""
    else if |parts| == 1 then parts[0]
    else parts[0] + " " + Join(parts[1..])
  }

  predicate SpaceFree(s: string)
  {
    ' ' !in s
  }

  lemma JoinCons(a: string, t: seq<string>)
    ensures Join([a] + t) == if t == [] then a else a + " " + Join(t)
  {
    assert ([a] + t)[0] == a;
    assert ([a] + t)[1..] == t;
  }

  /** A space in front of a text adds an empty piece in front of its pieces. */
  lemma {:induction false} LeadingSpaceStep(s: string, rest: seq<string>)
    requires s != [] && s[0] == ' '
    requires |rest| >= 1 && Join(rest) == s[1..]
    requires forall i :: 0 <= i < |rest| ==> SpaceFree(rest[i])
    ensures forall i :: 0 <= i < |[""] + rest| ==> SpaceFree(([""] + rest)[i])
    ensures Join([""] + rest) == s
  {
    JoinCons("", rest);
    assert s == [' '] + s[1..];
  }

  /** Any other character in front of a text joins the first of its pieces. */
  lemma {:induction false} LeadingCharStep(s: string, rest: seq<string>)
    requires s != [] && s[0] != ' '
    requires |rest| >= 1 && Join(rest) == s[1..]
    requires forall i :: 0 <= i < |rest| ==> SpaceFree(rest[i])
    ensures forall i :: 0 <= i < |[[s[0]] + rest[0]] + rest[1..]| ==> SpaceFree(([[s[0]] + rest[0]] + rest[1..])[i])
    ensures Join([[s[0]] + rest[0]] + rest[1..]) == s
  {
    var r := [[s[0]] + rest[0]] + rest[1..];
    forall i | 0 <= i < |r| ensures SpaceFree(r[i]) {
      if i == 0 {
        assert SpaceFree(rest[0]);
      } else {
        assert r[i] == rest[i];
      }
    }
    JoinCons(rest[0], rest[1..]);
    JoinCons([s[0]] + rest[0], rest[1..]);
    assert rest == [rest[0]] + rest[1..];
    assert s == [s[0]] + s[1..];
  }

  /**
   * s.split(" ", -1): the pieces between consecutive spaces, none dropped.
   * No piece holds a space, and joining the pieces with spaces gives s back.
   */
  function SplitAll(s: string): (r: seq<string>)
    ensures |r| >= 1
    ensures forall i :: 0 <= i < |r| ==> SpaceFree(r[i])
    ensures Join(r) == s
  {
    if s == [] then [""]
    else
      var rest := SplitAll(s[1..]);
      if s[0] == ' ' then
        LeadingSpaceStep(s, rest);
        [""] + rest
      else
        LeadingCharStep(s, rest);
        [[s[0]] + rest[0]] + rest[1..]
  }

  /**
   * The last step of split with limit 0: trailing empty strings are removed.
   * What is removed is empty strings only, and what is left is either
   * nothing or ends in a non-empty string.
   */
  function DropTrailingEmpty(parts: seq<string>): (r: seq<string>)
    ensures |r| <= |parts| && parts == r + Empties(|parts| - |r|)
    ensures r == [] || r[|r| - 1] != ""
  {
    if parts == [] || parts[|parts| - 1] != "" then
      assert parts == parts + Empties(0);
      parts
    else
      var r := DropTrailingEmpty(parts[..|parts| - 1]);
      var k := |parts| - 1 - |r|;
      assert Empties(k) + [""] == Empties(k + 1);
      assert parts == parts[..|parts| - 1] + [""];
      r
  }

  /** Joining a list with one more empty string appends one more space. */
  lemma {:induction false} JoinAppendEmpty(parts: seq<string>)
    requires |parts| >= 1
    ensures Join(parts + [""]) == Join(parts) + " "
  {
    if |parts| == 1 {
      assert parts + [""] == [parts[0], ""];
    } else {
      assert (parts + [""])[1..] == parts[1..] + [""];
      JoinAppendEmpty(parts[1..]);
    }
  }

  /** Joining a list padded with k empty strings pads the text with spaces. */
  lemma {:induction false} JoinPadded(parts: seq<string>, k: nat)
    ensures parts != [] ==> Join(parts + Empties(k)) == Join(parts) + Spaces(k)
    ensures parts == [] && k >= 1 ==> Join(parts + Empties(k)) == Spaces(k - 1)
  {
    if k == 0 {
      assert parts + Empties(0) == parts;
    } else if parts == [] && k == 1 {
      assert parts + Empties(1) == [""];
    } else {
      JoinPadded(parts, k - 1);
      assert parts + Empties(k) == (parts + Empties(k - 1)) + [""];
      JoinAppendEmpty(parts + Empties(k - 1));
      if parts != [] {
        assert Spaces(k - 1) + " " == Spaces(k);
      } else {
        assert Spaces(k - 2) + " " == Spaces(k - 1);
      }
    }
  }

  /** A joined text ends with the last part. */
  lemma {:induction false} JoinEndsWithLast(parts: seq<string>)
    requires |parts| >= 1
    ensures |Join(parts)| >= |parts[|parts| - 1]|
    ensures Join(parts)[|Join(parts)| - |parts[|parts| - 1]|..] == parts[|parts| - 1]
  {
    if |parts| > 1 {
      JoinEndsWithLast(parts[1..]);
    }
  }

  /** Dropping trailing empty strings keeps the others as they are. */
  lemma DroppedIsPrefix(parts: seq<string>)
    ensures forall i :: 0 <= i < |DropTrailingEmpty(parts)| ==> DropTrailingEmpty(parts)[i] == parts[i]
  {
    var r := DropTrailingEmpty(parts);
    var k := |parts| - |r|;
    forall i | 0 <= i < |r| ensures r[i] == parts[i] {
      assert parts[i] == (r + Empties(k))[i];
    }
  }

  /** A text whose pieces trim to nothing is all spaces. */
  lemma {:induction false} NoTokensOnlySpaces(s: string)
    requires DropTrailingEmpty(SplitAll(s)) == []
    ensures forall i :: 0 <= i < |s| ==> s[i] == ' '
  {
    var all := SplitAll(s);
    var k := |all|;
    assert all == [] + Empties(k);
    JoinPadded([], k);
    assert Join(all) == Spaces(k - 1);
    assert s == Spaces(k - 1);
  }

  /** The first character of a non-empty last part sits inside the joined text. */
  lemma LastPartFirstChar(parts: seq<string>)
    requires |parts| >= 1 && parts[|parts| - 1] != ""
    ensures |parts[|parts| - 1]| <= |Join(parts)|
    ensures Join(parts)[|Join(parts)| - |parts[|parts| - 1]|] == parts[|parts| - 1][0]
  {
    JoinEndsWithLast(parts);
    var j := Join(parts);
    var last := parts[|parts| - 1];
    assert j[|j| - |last|..][0] == last[0];
  }

  /** A text whose pieces keep a non-empty last token has a character other than a space. */
  lemma {:induction false} TokensNotOnlySpaces(s: string)
    requires DropTrailingEmpty(SplitAll(s)) != []
    ensures exists i :: 0 <= i < |s| && s[i] != ' '
  {
    var all := SplitAll(s);
    var tokens := DropTrailingEmpty(all);
    var n := |tokens|;
    var last := tokens[n - 1];
    assert SpaceFree(last) by {
      DroppedIsPrefix(all);
      assert last == all[n - 1];
    }
    var j := Join(tokens);
    assert s == j + Spaces(|all| - n) by {
      JoinPadded(tokens, |all| - n);
    }
    LastPartFirstChar(tokens);
    var idx := |j| - |last|;
    assert s[idx] == j[idx] == last[0];
    assert last[0] in last;
  }

  /**
   * With a space in s, the trimmed pieces are space-free, and they vanish
   * exactly when s is all spaces.
   */
  lemma TrimmedPieces(s: string)
    requires ' ' in s
    ensures forall i :: 0 <= i < |DropTrailingEmpty(SplitAll(s))| ==> SpaceFree(DropTrailingEmpty(SplitAll(s))[i])
    ensures DropTrailingEmpty(SplitAll(s)) == [] <==> forall i :: 0 <= i < |s| ==> s[i] == ' '
  {
    DroppedIsPrefix(SplitAll(s));
    if DropTrailingEmpty(SplitAll(s)) == [] {
      NoTokensOnlySpaces(s);
    } else {
      TokensNotOnlySpaces(s);
    }
  }

  /**
   * s.split(" "): the pieces between spaces with trailing empty pieces
   * removed; a string without any space comes back whole (so "" gives [""]).
   * No token holds a space, the last token is non-empty whenever a space
   * was cut at, and the result is empty exactly when s is a non-empty run
   * of spaces.
   */
  function Split(s: string): (tokens: seq<string>)
    ensures forall i :: 0 <= i < |tokens| ==> SpaceFree(tokens[i])
    ensures tokens == [] <==> s != "" && forall i :: 0 <= i < |s| ==> s[i] == ' '
    ensures |tokens| >= 2 ==> tokens[|tokens| - 1] != ""
    ensures ' ' in s && tokens != [] ==> tokens[|tokens| - 1] != ""
    ensures ' ' !in s ==> tokens == [s]
  {
    if ' ' !in s then
      assert s != "" ==> s[0] in s;
      [s]
    else
      TrimmedPieces(s);
      DropTrailingEmpty(SplitAll(s))
  }

  /** Splitting then joining gives the text back, up to the trailing spaces split drops. */
  lemma SplitJoinRoundTrip(s: string)
    ensures |Join(Split(s))| <= |s|
    ensures s == Join(Split(s)) + Spaces(|s| - |Join(Split(s))|)
  {
    if ' ' !in s {
      assert s == s + Spaces(0);
    } else {
      var all := SplitAll(s);
      var tokens := DropTrailingEmpty(all);
      JoinPadded(tokens, |all| - |tokens|);
    }
  }

  /** Splitting a text that begins with a space-free word a: a is glued to the first piece of the rest. */
  lemma {:induction false} SplitAllPrefix(a: string, t: string)
    requires SpaceFree(a)
    ensures SplitAll(a + t) == [a + SplitAll(t)[0]] + SplitAll(t)[1..]
  {
    if a == [] {
      var p := SplitAll(t);
      assert a + t == t;
      assert a + p[0] == p[0];
      assert p == [p[0]] + p[1..];
    } else {
      assert (a + t)[0] == a[0];
      assert (a + t)[1..] == a[1..] + t;
      SplitAllPrefix(a[1..], t);
      assert [a[0]] + (a[1..] + SplitAll(t)[0]) == a + SplitAll(t)[0];
    }
  }

  /** Splitting a text that begins with a space: an empty first piece, then the pieces of the rest. */
  lemma SplitAllLeadingSpace(t: string)
    ensures SplitAll(" " + t) == [""] + SplitAll(t)
  {
    assert (" " + t)[0] == ' ' && (" " + t)[1..] == t;
  }

  /** A list of two or more parts joins as its head, a space, and the joined tail. */
  lemma JoinHeadTail(parts: seq<string>)
    requires |parts| >= 2
    ensures Join(parts) == parts[0] + (" " + Join(parts[1..]))
  {
  }

  /** Splitting a joined list of space-free words at every space gives the words back. */
  lemma {:induction false} SplitAllJoin(parts: seq<string>)
    requires |parts| >= 1
    requires forall i :: 0 <= i < |parts| ==> SpaceFree(parts[i])
    ensures SplitAll(Join(parts)) == parts
  {
    if |parts| == 1 {
      SplitAllPrefix(parts[0], "");
      assert parts[0] + "" == parts[0];
    } else {
      var tail := Join(parts[1..]);
      SplitAllJoin(parts[1..]);
      SplitAllLeadingSpace(tail);
      SplitAllPrefix(parts[0], " " + tail);
      JoinHeadTail(parts);
      assert SplitAll(" " + tail)[0] == "" && SplitAll(" " + tail)[1..] == parts[1..];
      assert parts[0] + "" == parts[0];
      assert [parts[0]] + parts[1..] == parts;
    }
  }

  /**
   * split(" ") undoes join(" "): a non-empty list of space-free tokens whose
   * last token is non-empty (when there are several) comes back unchanged.
   */
  lemma SplitOfJoin(tokens: seq<string>)
    requires |tokens| >= 1
    requires forall i :: 0 <= i < |tokens| ==> SpaceFree(tokens[i])
    requires |tokens| >= 2 ==> tokens[|tokens| - 1] != ""
    ensures Split(Join(tokens)) == tokens
  {
    if |tokens| >= 2 {
      assert Join(tokens)[|tokens[0]|] == ' ';
      SplitAllJoin(tokens);
    }
  }
}
