/** What `generate` promises about its output: one line per definition, terminals first, then
    rules, directives and templates, each section in insertion order, with blank lines between
    sections and whitespace trimmed from both ends. */
module GrammarFacts {
  import opened Wrappers
  import opened PyText
  import opened Utils
  import opened Renders
  import opened Definitions
  import opened OrderedMaps
  import opened Grammars

  /** `filter(None, parts)`: the non-empty parts, in order. */
  function NonEmpty(parts: seq<string>): (r: seq<string>)
    ensures |r| <= |parts|
    ensures forall i :: 0 <= i < |r| ==> r[i] != ""
  {
    if parts == [] then []
    else (if parts[0] == "" then [] else [parts[0]]) + NonEmpty(parts[1..])
  }

  lemma {:induction false} NonEmptyAppend(a: seq<string>, b: seq<string>)
    ensures NonEmpty(a + b) == NonEmpty(a) + NonEmpty(b)
    decreases |a|
  {
    if a != [] {
      assert (a + b)[1..] == a[1..] + b;
      NonEmptyAppend(a[1..], b);
    } else {
      assert a + b == b;
    }
  }

  /** Lines with no newline in them. */
  predicate SingleLines(lines: seq<string>) {
    forall i :: 0 <= i < |lines| ==> '\n' !in lines[i]
  }

  /** Lines none of which is empty. */
  predicate Filled(lines: seq<string>) {
    forall i :: 0 <= i < |lines| ==> lines[i] != ""
  }

  lemma NonEmptyKeepsFilled(lines: seq<string>)
    requires Filled(lines)
    ensures NonEmpty(lines) == lines
  {
    if lines != [] {
      NonEmptyKeepsFilled(lines[1..]);
    }
  }

  /** `RenderLines` succeeds exactly when every definition renders, and then holds each
      definition's line at its position. */
  lemma {:induction false} RenderLinesElementwise(defs: seq<Definition>, ctx: Context, depth: nat)
    ensures RenderLines(defs, ctx, depth).Ok?
            <==> forall i :: 0 <= i < |defs| ==> RenderDefinition(defs[i], ctx, depth).Ok?
    ensures RenderLines(defs, ctx, depth).Ok? ==>
              && |RenderLines(defs, ctx, depth).value| == |defs|
              && forall i :: 0 <= i < |defs| ==>
                   RenderDefinition(defs[i], ctx, depth) == Ok(RenderLines(defs, ctx, depth).value[i])
    decreases |defs|
  {
    if defs != [] {
      var init := defs[..|defs| - 1];
      RenderLinesElementwise(init, ctx, depth);
      ElementwiseSnoc(defs, ctx, depth);
    }
  }

  lemma ElementwiseSnoc(defs: seq<Definition>, ctx: Context, depth: nat)
    requires defs != []
    requires var init := defs[..|defs| - 1];
             && (RenderLines(init, ctx, depth).Ok?
                 <==> forall i :: 0 <= i < |init| ==> RenderDefinition(init[i], ctx, depth).Ok?)
             && (RenderLines(init, ctx, depth).Ok? ==>
                   && |RenderLines(init, ctx, depth).value| == |init|
                   && forall i :: 0 <= i < |init| ==>
                        RenderDefinition(init[i], ctx, depth) == Ok(RenderLines(init, ctx, depth).value[i]))
    ensures RenderLines(defs, ctx, depth).Ok?
            <==> forall i :: 0 <= i < |defs| ==> RenderDefinition(defs[i], ctx, depth).Ok?
    ensures RenderLines(defs, ctx, depth).Ok? ==>
              && |RenderLines(defs, ctx, depth).value| == |defs|
              && forall i :: 0 <= i < |defs| ==>
                   RenderDefinition(defs[i], ctx, depth) == Ok(RenderLines(defs, ctx, depth).value[i])
  {
    var n := |defs|;
    var init, last := defs[..n - 1], defs[n - 1];
    assert forall i :: 0 <= i < |init| ==> init[i] == defs[i];
    var before := RenderLines(init, ctx, depth);
    var line := RenderDefinition(last, ctx, depth);
    if before.Fail? {
      assert RenderLines(defs, ctx, depth) == Fail(before.error);
    } else if line.Fail? {
      assert RenderLines(defs, ctx, depth) == Fail(line.error);
    } else {
      var lines := before.value + [line.value];
      assert RenderLines(defs, ctx, depth) == Ok(lines);
      forall i | 0 <= i < n
        ensures RenderDefinition(defs[i], ctx, depth) == Ok(lines[i])
      {
        if i < n - 1 {
          assert defs[i] == init[i] && lines[i] == before.value[i];
        }
      }
    }
  }

  /** Splitting the text of some lines, and whatever follows it, at newlines gives back those
      lines, then the parts of what follows. */
  lemma {:induction false} SplitLinesText(lines: seq<string>, tail: string)
    requires SingleLines(lines)
    ensures Split(LinesText(lines) + tail, '\n') == lines + Split(tail, '\n')
    decreases |lines|
  {
    if lines == [] {
      assert LinesText(lines) + tail == tail;
    } else {
      var init, last := lines[..|lines| - 1], lines[|lines| - 1];
      assert SingleLines(init) by {
        assert forall i :: 0 <= i < |init| ==> init[i] == lines[i];
      }
      var tail' := last + ['\n'] + tail;
      assert lines == init + [last];
      assert LinesText(lines) == LinesText(init) + last + "\n";
      TextRegroup(LinesText(init), last, tail);
      SplitLinesText(init, tail');
      SplitConcat(last, tail, '\n');
      SplitWithoutSeparator(last, '\n');
      assert Split(tail', '\n') == [last] + Split(tail, '\n');
      PartsRegroup(init, last, Split(tail, '\n'));
    }
  }

  lemma TextRegroup(text: string, last: string, tail: string)
    ensures text + last + "\n" + tail == text + (last + ['\n'] + tail)
  {
  }

  lemma PartsRegroup(init: seq<string>, last: string, rest: seq<string>)
    ensures init + ([last] + rest) == init + [last] + rest
  {
  }

  /** One section and the newline after it: its lines, then a blank part, then the parts of
      what follows. */
  lemma SectionSplit(lines: seq<string>, rest: string)
    requires SingleLines(lines)
    ensures Split(LinesText(lines) + "\n" + rest, '\n') == lines + ([""] + Split(rest, '\n'))
  {
    assert LinesText(lines) + "\n" + rest == LinesText(lines) + ("\n" + rest);
    SplitLinesText(lines, "\n" + rest);
    assert "" + ['\n'] + rest == "\n" + rest;
    SplitConcat("", rest, '\n');
  }

  /** Keeping the non-empty parts of one section and a blank part after it. */
  lemma NonEmptySection(lines: seq<string>, rest: seq<string>)
    requires Filled(lines)
    ensures NonEmpty(lines + ([""] + rest)) == lines + NonEmpty(rest)
  {
    NonEmptyAppend(lines, [""] + rest);
    NonEmptyKeepsFilled(lines);
    assert ([""] + rest)[1..] == rest;
  }

  lemma SectionsRegroup(a: string, b: string, c: string, d: string)
    ensures a + "\n" + b + "\n" + c + "\n" + d + "\n" == a + "\n" + (b + "\n" + (c + "\n" + (d + "\n" + "")))
  {
  }

  /** Splitting `build_grammar`'s text at newlines gives the terminal lines, a blank, the rule
      lines, a blank, the directive lines, a blank, the template lines, and two blanks, when no
      line holds a newline. */
  lemma BuildTextSplit(t: seq<string>, r: seq<string>, d: seq<string>, p: seq<string>)
    requires SingleLines(t) && SingleLines(r) && SingleLines(d) && SingleLines(p)
    ensures Split(LinesText(t) + "\n" + LinesText(r) + "\n" + LinesText(d) + "\n" + LinesText(p) + "\n", '\n')
            == t + ([""] + (r + ([""] + (d + ([""] + (p + ([""] + [""])))))))
  {
    var A, B, C, D := LinesText(t), LinesText(r), LinesText(d), LinesText(p);
    SectionsRegroup(A, B, C, D);
    SectionSplit(p, "");
    SectionSplit(d, D + "\n" + "");
    SectionSplit(r, C + "\n" + (D + "\n" + ""));
    SectionSplit(t, B + "\n" + (C + "\n" + (D + "\n" + "")));
  }

  /** The same parts with the blanks dropped: every line, in generation order. */
  lemma BuildTextNonEmpty(t: seq<string>, r: seq<string>, d: seq<string>, p: seq<string>)
    requires Filled(t) && Filled(r) && Filled(d) && Filled(p)
    ensures NonEmpty(t + ([""] + (r + ([""] + (d + ([""] + (p + ([""] + [""])))))))) == t + r + d + p
  {
    NonEmptySection(p, [""]);
    assert NonEmpty([""]) == [];
    NonEmptySection(d, p + ([""] + [""]));
    NonEmptySection(r, d + ([""] + (p + ([""] + [""]))));
    NonEmptySection(t, r + ([""] + (d + ([""] + (p + ([""] + [""]))))));
    assert t + (r + (d + (p + []))) == t + r + d + p;
  }

  lemma PartsFlatten(t: seq<string>, r: seq<string>, d: seq<string>, p: seq<string>)
    ensures t + ([""] + (r + ([""] + (d + ([""] + (p + ([""] + [""])))))))
            == t + [""] + r + [""] + d + [""] + p + ["", ""]
  {
  }

  /** `generate` before stripping: split at newlines, `build_grammar`'s text holds every
      definition's line, terminals, rules, directives and templates in insertion order, with one
      blank part after each section; keeping the non-empty parts leaves exactly the lines. */
  lemma BuildTextLines(terminals: seq<Definition>, rules: seq<Definition>, directives: seq<Definition>,
                       templates: seq<Definition>, ctx: Context, depth: nat)
    requires BuildText(terminals, rules, directives, templates, ctx, depth).Ok?
    ensures && RenderLines(terminals, ctx, depth).Ok? && RenderLines(rules, ctx, depth).Ok?
            && RenderLines(directives, ctx, depth).Ok? && RenderLines(templates, ctx, depth).Ok?
    ensures var t, r := RenderLines(terminals, ctx, depth).value, RenderLines(rules, ctx, depth).value;
            var d, p := RenderLines(directives, ctx, depth).value, RenderLines(templates, ctx, depth).value;
            var parts := Split(BuildText(terminals, rules, directives, templates, ctx, depth).value, '\n');
            && (SingleLines(t) && SingleLines(r) && SingleLines(d) && SingleLines(p) ==>
                  && parts == t + [""] + r + [""] + d + [""] + p + ["", ""]
                  && (Filled(t) && Filled(r) && Filled(d) && Filled(p) ==> NonEmpty(parts) == t + r + d + p))
  {
    var t, r := RenderLines(terminals, ctx, depth).value, RenderLines(rules, ctx, depth).value;
    var d, p := RenderLines(directives, ctx, depth).value, RenderLines(templates, ctx, depth).value;
    if SingleLines(t) && SingleLines(r) && SingleLines(d) && SingleLines(p) {
      BuildTextSplit(t, r, d, p);
      PartsFlatten(t, r, d, p);
      if Filled(t) && Filled(r) && Filled(d) && Filled(p) {
        BuildTextNonEmpty(t, r, d, p);
      }
    }
  }

  /** An empty grammar generates nothing: the four section newlines are all stripped. */
  lemma EmptyGeneratesNothing(ctx: Context, depth: nat)
    ensures BuildText([], [], [], [], ctx, depth) == Ok("\n\n\n\n")
    ensures Strip("\n\n\n\n") == ""
  {
    var none: seq<Definition> := [];
    assert RenderLines(none, ctx, depth) == Ok([]);
    assert LinesText([]) == "";
    assert "" + "\n" + "" + "\n" + "" + "\n" + "" + "\n" == "\n\n\n\n";
    StripAllSpace("\n\n\n\n");
  }

  lemma RenderLinesSingle(d: Definition, ctx: Context, depth: nat)
    requires RenderDefinition(d, ctx, depth).Ok?
    ensures RenderLines([d], ctx, depth) == Ok([RenderDefinition(d, ctx, depth).value])
  {
    var none: seq<Definition> := [];
    assert [d][..0] == none;
    assert RenderLines(none, ctx, depth) == Ok([]);
    assert [] + [RenderDefinition(d, ctx, depth).value] == [RenderDefinition(d, ctx, depth).value];
  }

  /** A grammar whose only definition is one rule generates exactly that rule's line, provided
      the line has no surrounding whitespace of its own to lose. */
  lemma SingleRuleGenerates(d: Definition, ctx: Context, depth: nat)
    requires RenderDefinition(d, ctx, depth).Ok?
    requires var line := RenderDefinition(d, ctx, depth).value;
             line != "" && !IsSpace(line[0]) && !IsSpace(line[|line| - 1])
    ensures var line := RenderDefinition(d, ctx, depth).value;
            && BuildText([], [d], [], [], ctx, depth) == Ok("\n" + line + "\n\n\n\n")
            && Strip("\n" + line + "\n\n\n\n") == line
  {
    var line := RenderDefinition(d, ctx, depth).value;
    var none: seq<Definition> := [];
    assert RenderLines(none, ctx, depth) == Ok([]);
    RenderLinesSingle(d, ctx, depth);
    BuildTextOk(none, [d], none, none, ctx, depth);
    OneLineText(line);
    StripPadding("\n", line, "\n\n\n\n");
  }

  /** The build text once all four sections have rendered. */
  lemma BuildTextOk(terminals: seq<Definition>, rules: seq<Definition>, directives: seq<Definition>,
                    templates: seq<Definition>, ctx: Context, depth: nat)
    requires RenderLines(terminals, ctx, depth).Ok? && RenderLines(rules, ctx, depth).Ok?
    requires RenderLines(directives, ctx, depth).Ok? && RenderLines(templates, ctx, depth).Ok?
    ensures var t, r := RenderLines(terminals, ctx, depth).value, RenderLines(rules, ctx, depth).value;
            var d, p := RenderLines(directives, ctx, depth).value, RenderLines(templates, ctx, depth).value;
            BuildText(terminals, rules, directives, templates, ctx, depth)
            == Ok(LinesText(t) + "\n" + LinesText(r) + "\n" + LinesText(d) + "\n" + LinesText(p) + "\n")
  {
  }

  /** One line in the rule section and nothing else. */
  lemma OneLineText(line: string)
    ensures LinesText([]) + "\n" + LinesText([line]) + "\n" + LinesText([]) + "\n" + LinesText([]) + "\n"
            == "\n" + line + "\n\n\n\n"
  {
    assert [line][..0] == [];
    assert LinesText([line]) == line + "\n";
  }

  // ---------------------------------------------------------------- generate: strip, then split

  /** The first line starts, and the last line ends, with something other than whitespace. */
  predicate EdgesUnpadded(lines: seq<string>) {
    lines != [] ==> StartUnpadded(lines) && EndUnpadded(lines)
  }

  /** There is a first line, and it starts with something other than whitespace. */
  predicate StartUnpadded(lines: seq<string>) {
    lines != [] && lines[0] != "" && !IsSpace(lines[0][0])
  }

  /** There is a last line, and it ends with something other than whitespace. */
  predicate EndUnpadded(lines: seq<string>) {
    lines != [] && var last := lines[|lines| - 1]; last != "" && !IsSpace(last[|last| - 1])
  }

  /** The parts with the leading empty ones dropped. */
  function DropLeadingBlanks(parts: seq<string>): (r: seq<string>)
    ensures |r| <= |parts| && r == parts[|parts| - |r|..]
  {
    if parts != [] && parts[0] == "" then DropLeadingBlanks(parts[1..]) else parts
  }

  /** The parts with the trailing empty ones dropped. */
  function DropTrailingBlanks(parts: seq<string>): (r: seq<string>)
    ensures |r| <= |parts| && r == parts[..|r|]
  {
    if parts != [] && parts[|parts| - 1] == "" then DropTrailingBlanks(parts[..|parts| - 1]) else parts
  }

  /** When the first non-empty part does not start with whitespace, `lstrip` of the joined
      lines removes exactly the leading empty lines. */
  lemma {:induction false} LeadStrip(parts: seq<string>)
    requires StartUnpadded(NonEmpty(parts))
    ensures StripLeading(Join(parts, "\n")) == Join(DropLeadingBlanks(parts), "\n")
    ensures NonEmpty(DropLeadingBlanks(parts)) == NonEmpty(parts)
    decreases |parts|
  {
    if parts[0] == "" {
      LeadBlankStep(parts);
      LeadStrip(parts[1..]);
    } else {
      assert NonEmpty(parts)[0] == parts[0];
      UnpaddedStart(parts);
    }
  }

  /** A leading empty line is one newline that `lstrip` drops. */
  lemma LeadBlankStep(parts: seq<string>)
    requires NonEmpty(parts) != [] && parts[0] == ""
    ensures |parts| >= 2 && NonEmpty(parts[1..]) == NonEmpty(parts)
    ensures StripLeading(Join(parts, "\n")) == StripLeading(Join(parts[1..], "\n"))
    ensures DropLeadingBlanks(parts) == DropLeadingBlanks(parts[1..])
  {
    JoinFront(parts, "\n");
    var rest := Join(parts[1..], "\n");
    assert Join(parts, "\n") == ['\n'] + rest;
    StripLeadingSpace('\n', rest);
  }

  /** Lines whose first character is not whitespace are left alone by `lstrip`. */
  lemma UnpaddedStart(parts: seq<string>)
    requires parts != [] && parts[0] != "" && !IsSpace(parts[0][0])
    ensures StripLeading(Join(parts, "\n")) == Join(parts, "\n")
  {
    JoinEnds(parts, "\n");
  }

  /** When the last non-empty part does not end with whitespace, `rstrip` of the joined lines
      removes exactly the trailing empty lines. */
  lemma {:induction false} TrailStrip(parts: seq<string>)
    requires EndUnpadded(NonEmpty(parts))
    ensures StripTrailing(Join(parts, "\n")) == Join(DropTrailingBlanks(parts), "\n")
    ensures NonEmpty(DropTrailingBlanks(parts)) == NonEmpty(parts)
    decreases |parts|
  {
    var n := |parts|;
    if parts[n - 1] == "" {
      OnePart(parts);
      TrailBlankStep(parts);
      TrailStrip(parts[..n - 1]);
    } else {
      TrailFilledStep(parts);
      UnpaddedEnd(parts);
    }
  }

  /** A trailing empty line is one newline that `rstrip` drops. */
  lemma TrailBlankStep(parts: seq<string>)
    requires |parts| >= 2 && parts[|parts| - 1] == ""
    ensures NonEmpty(parts[..|parts| - 1]) == NonEmpty(parts)
    ensures StripTrailing(Join(parts, "\n")) == StripTrailing(Join(parts[..|parts| - 1], "\n"))
    ensures DropTrailingBlanks(parts) == DropTrailingBlanks(parts[..|parts| - 1])
  {
    TrailBlankLines(parts);
    var j := Join(parts[..|parts| - 1], "\n");
    assert Join(parts, "\n") == j + ['\n'];
    StripTrailingSpace(j, '\n');
  }

  /** A part on its own is kept exactly when it is not empty. */
  lemma OnePart(parts: seq<string>)
    requires parts != []
    ensures |parts| == 1 ==> NonEmpty(parts) == if parts[0] == "" then [] else parts
  {
    if |parts| == 1 {
      assert parts[1..] == [];
    }
  }

  /** A trailing empty line adds no non-empty line. */
  lemma TrailBlankLines(parts: seq<string>)
    requires parts != [] && parts[|parts| - 1] == ""
    ensures NonEmpty(parts[..|parts| - 1]) == NonEmpty(parts)
  {
    var init := parts[..|parts| - 1];
    assert parts == init + [parts[|parts| - 1]];
    NonEmptyAppend(init, [""]);
    OnePart([""]);
  }

  /** A last line that is not empty is the last non-empty line. */
  lemma TrailFilledStep(parts: seq<string>)
    requires parts != [] && parts[|parts| - 1] != ""
    ensures var ne := NonEmpty(parts); ne != [] && ne[|ne| - 1] == parts[|parts| - 1]
  {
    var init, last := parts[..|parts| - 1], parts[|parts| - 1];
    assert parts == init + [last];
    NonEmptyAppend(init, [last]);
    assert NonEmpty([last]) == [last];
  }

  /** Lines whose last character is not whitespace are left alone by `rstrip`. */
  lemma UnpaddedEnd(parts: seq<string>)
    requires parts != []
    requires var last := parts[|parts| - 1]; last != "" && !IsSpace(last[|last| - 1])
    ensures StripTrailing(Join(parts, "\n")) == Join(parts, "\n")
  {
    JoinEnds(parts, "\n");
  }

  /** Lines that are all empty join to nothing but newlines. */
  lemma {:induction false} BlankJoinSpace(parts: seq<string>)
    requires NonEmpty(parts) == []
    ensures AllSpace(Join(parts, "\n"))
    decreases |parts|
  {
    if |parts| == 1 {
      assert parts[0] == "";
    } else if |parts| >= 2 {
      assert parts[0] == "" && NonEmpty(parts[1..]) == [];
      JoinFront(parts, "\n");
      BlankJoinSpace(parts[1..]);
      var rest := Join(parts[1..], "\n");
      assert Join(parts, "\n") == "\n" + rest;
      assert forall i :: 1 <= i < |"\n" + rest| ==> ("\n" + rest)[i] == rest[i - 1];
    }
  }

  /** Stripping a text keeps its non-empty lines, provided the first of them does not start and
      the last does not end with whitespace: only blank lines are lost at either end. */
  lemma StripKeepsLines(s: string)
    requires EdgesUnpadded(NonEmpty(Split(s, '\n')))
    ensures NonEmpty(Split(Strip(s), '\n')) == NonEmpty(Split(s, '\n'))
  {
    var parts := Split(s, '\n');
    JoinSplitRoundTrip(s, '\n');
    if NonEmpty(parts) == [] {
      BlankJoinSpace(parts);
      StripAllSpace(s);
      assert Split("", '\n') == [""];
      assert NonEmpty([""]) == [];
    } else {
      SplitPartsFree(s, '\n');
      assert SingleLines(parts);
      StripJoinedLines(parts);
    }
  }

  /** Lines free of newlines, joined and stripped, split back into the same lines without the
      blank ones at either end. */
  lemma StripJoinedLines(parts: seq<string>)
    requires SingleLines(parts)
    requires NonEmpty(parts) != [] && EdgesUnpadded(NonEmpty(parts))
    ensures NonEmpty(Split(Strip(Join(parts, "\n")), '\n')) == NonEmpty(parts)
  {
    var lead := DropLeadingBlanks(parts);
    LeadStrip(parts);
    var core := DropTrailingBlanks(lead);
    TrailStrip(lead);
    assert Strip(Join(parts, "\n")) == Join(core, "\n");
    LeadingSingleLines(parts);
    TrailingSingleLines(lead);
    SplitJoinRoundTrip(core, '\n');
  }

  /** Dropping blank lines at either end keeps the lines free of newlines. */
  lemma {:induction false} LeadingSingleLines(parts: seq<string>)
    requires SingleLines(parts)
    ensures SingleLines(DropLeadingBlanks(parts))
    decreases |parts|
  {
    if parts != [] && parts[0] == "" {
      var rest := parts[1..];
      assert SingleLines(rest) by {
        forall i | 0 <= i < |rest| ensures '\n' !in rest[i] {
          assert rest[i] == parts[i + 1];
        }
      }
      LeadingSingleLines(rest);
    }
  }

  lemma {:induction false} TrailingSingleLines(parts: seq<string>)
    requires SingleLines(parts)
    ensures SingleLines(DropTrailingBlanks(parts))
    decreases |parts|
  {
    if parts != [] && parts[|parts| - 1] == "" {
      var init := parts[..|parts| - 1];
      assert SingleLines(init) by {
        forall i | 0 <= i < |init| ensures '\n' !in init[i] {
          assert init[i] == parts[i];
        }
      }
      TrailingSingleLines(init);
    }
  }

  /** `generate` on the four sections' contents: once the build text is stripped, its non-empty
      lines are every definition's line, terminals, rules, directives and templates in order. This
      holds when no line is empty or holds a newline, and the first line does not start, nor the
      last end, with whitespace. */
  lemma StrippedBuildLines(terminals: seq<Definition>, rules: seq<Definition>, directives: seq<Definition>,
                           templates: seq<Definition>, ctx: Context, depth: nat)
    requires BuildText(terminals, rules, directives, templates, ctx, depth).Ok?
    ensures && RenderLines(terminals, ctx, depth).Ok? && RenderLines(rules, ctx, depth).Ok?
            && RenderLines(directives, ctx, depth).Ok? && RenderLines(templates, ctx, depth).Ok?
    ensures var t, r := RenderLines(terminals, ctx, depth).value, RenderLines(rules, ctx, depth).value;
            var d, p := RenderLines(directives, ctx, depth).value, RenderLines(templates, ctx, depth).value;
            SingleLines(t) && SingleLines(r) && SingleLines(d) && SingleLines(p)
            && Filled(t) && Filled(r) && Filled(d) && Filled(p) && EdgesUnpadded(t + r + d + p)
            ==> NonEmpty(Split(Strip(BuildText(terminals, rules, directives, templates, ctx, depth).value), '\n'))
                == t + r + d + p
  {
    BuildTextLines(terminals, rules, directives, templates, ctx, depth);
    var t, r := RenderLines(terminals, ctx, depth).value, RenderLines(rules, ctx, depth).value;
    var d, p := RenderLines(directives, ctx, depth).value, RenderLines(templates, ctx, depth).value;
    if SingleLines(t) && SingleLines(r) && SingleLines(d) && SingleLines(p)
       && Filled(t) && Filled(r) && Filled(d) && Filled(p) && EdgesUnpadded(t + r + d + p) {
      StripKeepsLines(BuildText(terminals, rules, directives, templates, ctx, depth).value);
    }
  }

  /** What `generate` returns, split at newlines with the blank lines dropped, is every
      definition's line: terminals, rules, directives, templates, each in insertion order, under
      the conditions of `StrippedBuildLines`. */
  lemma GenerateLines(g: Grammars.Grammar, ctx: Context)
    requires g.Valid() && g.GenerateText(ctx).Ok?
    ensures var depth := ResolutionLimit;
            && RenderLines(Values(g.terminals), ctx, depth).Ok? && RenderLines(Values(g.rules), ctx, depth).Ok?
            && RenderLines(g.directives, ctx, depth).Ok? && RenderLines(Values(g.templates), ctx, depth).Ok?
    ensures var depth := ResolutionLimit;
            var t, r := RenderLines(Values(g.terminals), ctx, depth).value, RenderLines(Values(g.rules), ctx, depth).value;
            var d, p := RenderLines(g.directives, ctx, depth).value, RenderLines(Values(g.templates), ctx, depth).value;
            SingleLines(t) && SingleLines(r) && SingleLines(d) && SingleLines(p)
            && Filled(t) && Filled(r) && Filled(d) && Filled(p) && EdgesUnpadded(t + r + d + p)
            ==> NonEmpty(Split(g.GenerateText(ctx).value, '\n')) == t + r + d + p
  {
    StrippedBuildLines(Values(g.terminals), Values(g.rules), g.directives, Values(g.templates), ctx, ResolutionLimit);
  }

  /** No name is both a rule and a terminal of a well-formed grammar. */
  lemma RulesAndTerminalsDisjoint(g: Grammars.Grammar)
    requires g.Valid()
    ensures forall k :: k in g.rules.entries ==> k !in g.terminals.entries
  {
    forall k | k in g.rules.entries
      ensures k !in g.terminals.entries
    {
      RuleTermDisjoint(k);
    }
  }
}
