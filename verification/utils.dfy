/** The helpers of `lark_dynamic/utils.py`: bracketing, separator joining and the name-case
    predicates that decide whether a name belongs to the rule or the terminal namespace.

    `separated` is a loop flipping an `is_first` flag; it is the method `Separated`, proved
    equal to the specification function `Join`, which every renderer uses.
 */
module Utils {
  import opened PyText

  /** `wrap(parens, content)`: the opening bracket, the content, the closing bracket. */
  function Wrap(parens: string, content: string): string
    requires |parens| >= 2
  {
    [parens[0]] + content + [parens[1]]
  }

  /** The parts with `sep` between each two consecutive ones. */
  function Join(parts: seq<string>, sep: string): string {
    if |parts| == 0 then ""
    else if |parts| == 1 then parts[0]
    else Join(parts[..|parts| - 1], sep) + sep + parts[|parts| - 1]
  }

  /** `separated(parts, sep)`, emitting `sep` before every part but the first. */
  method Separated(parts: seq<string>, sep: string) returns (out: string)
    ensures out == Join(parts, sep)
    ensures |parts| == 0 ==> out == ""
    ensures |parts| == 1 ==> out == parts[0]
  {
    var isFirst := true;
    out := "";
    var i := 0;
    while i < |parts|
      invariant 0 <= i <= |parts|
      invariant isFirst <==> i == 0
      invariant out == Join(parts[..i], sep)
    {
      if !isFirst {
        out := out + sep;
      } else {
        isFirst := false;
      }
      out := out + parts[i];
      assert parts[..i + 1][..i] == parts[..i];
      i := i + 1;
    }
    assert parts[..|parts|] == parts;
  }

  /** `spaced(parts)`. */
  function Spaced(parts: seq<string>): string {
    Join(parts, " ")
  }

  /** `comma_separated(parts)`. */
  function CommaSeparated(parts: seq<string>): string {
    Join(parts, ", ")
  }

  /** Joining two non-empty runs of parts puts exactly one separator between them. */
  lemma {:induction false} JoinAppend(a: seq<string>, b: seq<string>, sep: string)
    requires |a| > 0 && |b| > 0
    ensures Join(a + b, sep) == Join(a, sep) + sep + Join(b, sep)
    decreases |b|
  {
    if |b| == 1 {
      assert (a + b)[..|a + b| - 1] == a;
    } else {
      var b' := b[..|b| - 1];
      assert (a + b)[..|a + b| - 1] == a + b';
      JoinAppend(a, b', sep);
    }
  }

  /** No leading and no trailing separator: the result begins with the first part and ends
      with the last. */
  lemma {:induction false} JoinEnds(parts: seq<string>, sep: string)
    requires |parts| > 0
    ensures var j := Join(parts, sep);
            && |parts[0]| <= |j| && j[..|parts[0]|] == parts[0]
            && |parts[|parts| - 1]| <= |j| && j[|j| - |parts[|parts| - 1]|..] == parts[|parts| - 1]
    decreases |parts|
  {
    if |parts| > 1 {
      var init := parts[..|parts| - 1];
      JoinEnds(init, sep);
      assert init[0] == parts[0];
      var j := Join(parts, sep);
      assert j == Join(init, sep) + sep + parts[|parts| - 1];
      assert j[..|parts[0]|] == Join(init, sep)[..|parts[0]|];
    }
  }

  /** The length of a join: every part once, and one separator fewer than parts. */
  function TotalLength(parts: seq<string>): nat {
    if parts == [] then 0 else TotalLength(parts[..|parts| - 1]) + |parts[|parts| - 1]|
  }

  lemma {:induction false} JoinLength(parts: seq<string>, sep: string)
    requires |parts| > 0
    ensures |Join(parts, sep)| == TotalLength(parts) + (|parts| - 1) * |sep|
    decreases |parts|
  {
    var n := |parts|;
    if n == 1 {
      assert parts[..0] == [];
      assert TotalLength(parts) == |parts[0]|;
    } else {
      var init := parts[..n - 1];
      var last := parts[n - 1];
      JoinLength(init, sep);
      assert Join(parts, sep) == Join(init, sep) + sep + last;
      assert TotalLength(parts) == TotalLength(init) + |last|;
      assert (n - 1) * |sep| == (n - 2) * |sep| + |sep|;
    }
  }

  /** Splitting at every occurrence of `c`: the inverse of joining with `[c]`. */
  function Split(s: string, c: char): (parts: seq<string>)
    ensures |parts| >= 1
  {
    if |s| == 0 then [""]
    else
      var pre := Split(s[..|s| - 1], c);
      if s[|s| - 1] == c then pre + [""]
      else pre[..|pre| - 1] + [pre[|pre| - 1] + [s[|s| - 1]]]
  }

  lemma {:induction false} SplitWithoutSeparator(y: string, c: char)
    requires c !in y
    ensures Split(y, c) == [y]
    decreases |y|
  {
    if |y| > 0 {
      SplitWithoutSeparator(y[..|y| - 1], c);
      assert y[..|y| - 1] + [y[|y| - 1]] == y;
    }
  }

  lemma {:induction false} SplitAfterSeparator(x: string, y: string, c: char)
    requires c !in y
    ensures Split(x + [c] + y, c) == Split(x, c) + [y]
    decreases |y|
  {
    var s := x + [c] + y;
    if |y| == 0 {
      assert s[..|s| - 1] == x;
    } else {
      var y' := y[..|y| - 1];
      assert s[..|s| - 1] == x + [c] + y';
      SplitAfterSeparator(x, y', c);
      assert y' + [y[|y| - 1]] == y;
    }
  }

  /** A separator splits the text into the parts before it and the parts after it. */
  lemma {:induction false} SplitConcat(x: string, y: string, c: char)
    ensures Split(x + [c] + y, c) == Split(x, c) + Split(y, c)
    decreases |y|
  {
    if |y| == 0 {
      assert x + [c] + y == x + [c];
      SplitSnoc(x, c, c);
      assert Split(y, c) == [""];
    } else {
      var y', d := y[..|y| - 1], y[|y| - 1];
      var s' := x + [c] + y';
      assert x + [c] + y == s' + [d];
      assert y == y' + [d];
      SplitConcat(x, y', c);
      SplitSnoc(s', d, c);
      SplitSnoc(y', d, c);
      SnocCombine(Split(x, c), Split(y', c), Split(s', c), Split(s' + [d], c), Split(y' + [d], c), d, c);
    }
  }

  /** The step of `SplitConcat` on the parts alone: extending the parts of `x c y'` by one
      character extends the parts of `y'` the same way. */
  lemma SnocCombine(px: seq<string>, py: seq<string>, pre: seq<string>, whole: seq<string>, tail: seq<string>,
                    d: char, c: char)
    requires |py| > 0 && pre == px + py
    requires whole == if d == c then pre + [""] else pre[..|pre| - 1] + [pre[|pre| - 1] + [d]]
    requires tail == if d == c then py + [""] else py[..|py| - 1] + [py[|py| - 1] + [d]]
    ensures whole == px + tail
  {
    if d == c {
      assert (px + py) + [""] == px + (py + [""]);
    } else {
      ExtendLastAppend(px, py, d);
    }
  }

  /** `Split` of a string with one more character: a separator opens a new empty part,
      anything else extends the last part. */
  lemma SplitSnoc(t: string, d: char, c: char)
    ensures var p := Split(t, c);
            Split(t + [d], c) == if d == c then p + [""] else p[..|p| - 1] + [p[|p| - 1] + [d]]
  {
    assert (t + [d])[..|t|] == t;
  }

  lemma ExtendLastAppend(px: seq<string>, py: seq<string>, d: char)
    requires |py| > 0
    ensures var pre := px + py;
            pre[..|pre| - 1] + [pre[|pre| - 1] + [d]] == px + (py[..|py| - 1] + [py[|py| - 1] + [d]])
  {
    var pre := px + py;
    assert pre[..|pre| - 1] == px + py[..|py| - 1];
  }

  /** Joining with a one-character separator that no part contains loses nothing. */
  lemma {:induction false} SplitJoinRoundTrip(parts: seq<string>, c: char)
    requires |parts| > 0
    requires forall i :: 0 <= i < |parts| ==> c !in parts[i]
    ensures Split(Join(parts, [c]), c) == parts
    decreases |parts|
  {
    if |parts| == 1 {
      SplitWithoutSeparator(parts[0], c);
    } else {
      var init := parts[..|parts| - 1];
      SplitJoinRoundTrip(init, c);
      SplitAfterSeparator(Join(init, [c]), parts[|parts| - 1], c);
      assert init + [parts[|parts| - 1]] == parts;
    }
  }

  /** Joining the parts of a split with the separator gives the text back. */
  lemma {:induction false} JoinSplitRoundTrip(s: string, c: char)
    ensures Join(Split(s, c), [c]) == s
    decreases |s|
  {
    if |s| > 0 {
      var init, x := s[..|s| - 1], s[|s| - 1];
      var pre := Split(init, c);
      JoinSplitRoundTrip(init, c);
      assert s == init + [x];
      if x == c {
        var q := pre + [""];
        assert q[..|q| - 1] == pre;
      } else if |pre| > 1 {
        var n := |pre|;
        var q := pre[..n - 1] + [pre[n - 1] + [x]];
        assert q[..|q| - 1] == pre[..n - 1];
      }
    }
  }

  /** No part of a split holds the separator. */
  lemma {:induction false} SplitPartsFree(s: string, c: char)
    ensures forall i :: 0 <= i < |Split(s, c)| ==> c !in Split(s, c)[i]
    decreases |s|
  {
    if |s| > 0 {
      var init, x := s[..|s| - 1], s[|s| - 1];
      var pre := Split(init, c);
      SplitPartsFree(init, c);
      if x != c {
        var n := |pre|;
        var q := pre[..n - 1] + [pre[n - 1] + [x]];
        forall i | 0 <= i < |q|
          ensures c !in q[i]
        {
          if i < n - 1 {
            assert q[i] == pre[i];
          } else {
            assert c !in pre[n - 1];
          }
        }
      }
    }
  }

  /** A join of two or more parts is the first part, the separator, and the join of the rest. */
  lemma JoinFront(parts: seq<string>, sep: string)
    requires |parts| >= 2
    ensures Join(parts, sep) == parts[0] + sep + Join(parts[1..], sep)
  {
    JoinAppend([parts[0]], parts[1..], sep);
    assert [parts[0]] + parts[1..] == parts;
  }

  /** `is_rule`: the name may hold a rule (lower case identifier). */
  predicate IsRule(s: string) {
    IsLower(s) && IsIdentifier(s)
  }

  /** `is_term`: the name may hold a terminal (upper case identifier). */
  predicate IsTerm(s: string) {
    IsUpper(s) && IsIdentifier(s)
  }

  /** The rule and terminal namespaces are disjoint. */
  lemma RuleTermDisjoint(s: string)
    ensures !(IsRule(s) && IsTerm(s))
  {
  }

  /** A rule name is a non-empty run of `[a-z0-9_]`, not starting with a digit, holding a letter. */
  lemma IsRuleCharacterised(s: string)
    ensures IsRule(s) <==>
      && |s| > 0
      && !IsAsciiDigit(s[0])
      && (forall i :: 0 <= i < |s| ==> IsAsciiLower(s[i]) || IsAsciiDigit(s[i]) || s[i] == '_')
      && (exists i :: 0 <= i < |s| && IsAsciiLower(s[i]))
  {
  }

  /** A terminal name is a non-empty run of `[A-Z0-9_]`, not starting with a digit, holding a letter. */
  lemma IsTermCharacterised(s: string)
    ensures IsTerm(s) <==>
      && |s| > 0
      && !IsAsciiDigit(s[0])
      && (forall i :: 0 <= i < |s| ==> IsAsciiUpper(s[i]) || IsAsciiDigit(s[i]) || s[i] == '_')
      && (exists i :: 0 <= i < |s| && IsAsciiUpper(s[i]))
  {
  }

  /** Names without a letter, with a leading digit, or with mixed case fit neither namespace. */
  lemma NeitherNamespace()
    ensures !IsRule("_") && !IsTerm("_")
    ensures !IsRule("_1") && !IsTerm("_1")
    ensures !IsRule("1abc") && !IsTerm("1ABC")
    ensures !IsRule("WhAtS_wRoNg") && !IsTerm("WhAtS_wRoNg")
  {
    assert IsAsciiUpper("WhAtS_wRoNg"[0]) && IsAsciiLower("WhAtS_wRoNg"[1]);
  }

  /** Plain lower- and upper-case names with digits are a rule and a terminal. */
  lemma NamespaceExamples()
    ensures IsRule("rule1") && IsTerm("TERM1")
  {
    assert IsAsciiLetter("rule1"[0]);
    assert IsAsciiLetter("TERM1"[0]);
  }
}
