/** `lark_dynamic/grammar.py` and the handle methods of `lark_dynamic/atoms.py`: the registry
    of definitions and the text it generates.

    A `Grammar` holds three insertion-ordered maps (rules, terminals, templates), the list of
    directives, and the plain attributes that name-based assignment stores when a name is
    neither rule- nor terminal-cased. The methods of `GrammarWrapper` (`extend`, `replace`,
    `edit`) only forward to the grammar's maps, so they are methods of `Grammar` here.

    `generate` is `build_grammar`'s fragments joined and stripped: every section's lines, each
    followed by a newline, and one more newline after each section.
 */
module Grammars {
  import opened Wrappers
  import opened PyText
  import opened Utils
  import opened Renders
  import opened Modifiers
  import opened Definitions
  import opened OrderedMaps
  import opened Sections

  /** The exceptions of the registry. */
  datatype GrammarError =
    | InvalidRuleName(name: string)      // `ValueError` from `make_rule`
    | InvalidTerminalName(name: string)  // `ValueError` from `make_terminal`
    | DuplicateRule(name: string)        // `NameError` from `make_rule`
    | DuplicateTerminal(name: string)    // `NameError` from `make_terminal`
    | UnknownAttribute(name: string)     // `AttributeError` from `Grammar.__getattr__`
    | UnknownDefinition(name: string)    // `AttributeError` from the wrapper
    | PriorityNotInt(name: string)       // `TypeError` from `Terminal.__setitem__`

  /** The key of `handle[key] = value`: an int priority, or anything else. */
  datatype ItemKey = IntKey(n: int) | ArgsKey(args: Renderable)


  /** `name.startswith("__")`. */
  predicate IsDunder(name: string) {
    |name| >= 2 && name[..2] == "__"
  }

  /** The wrapper's edits keep a definition's kind and name, so it still fits where it was. */
  lemma ExtendedFits(s: Section, key: string, d: Definition, alternatives: seq<Renderable>)
    requires Fits(s, key, d) && Editable(d)
    ensures Fits(s, key, Extended(d, alternatives))
  {
  }

  lemma ReplacedFits(s: Section, key: string, d: Definition, tokens: Renderable)
    requires Fits(s, key, d) && Editable(d)
    ensures Fits(s, key, Replaced(d, tokens))
  {
  }

  lemma EditedFits(s: Section, key: string, d: Definition, modifier: Opt<Modifier>, priority: Opt<int>)
    requires Fits(s, key, d) && Editable(d)
    ensures Fits(s, key, Edited(d, modifier, priority))
  {
  }

  // ---------------------------------------------------------------- build_grammar

  /** Every definition's line, in order; the first failing definition's error otherwise. */
  function RenderLines(defs: seq<Definition>, ctx: Context, depth: nat): (res: Result<seq<string>, RenderError>)
  {
    if defs == [] then Ok([])
    else
      var init :- RenderLines(defs[..|defs| - 1], ctx, depth);
      var line :- RenderDefinition(defs[|defs| - 1], ctx, depth);
      Ok(init + [line])
  }

  /** Each line followed by a newline. */
  function LinesText(lines: seq<string>): string {
    if lines == [] then "" else LinesText(lines[..|lines| - 1]) + lines[|lines| - 1] + "\n"
  }

  /** `"".join(build_grammar(context))` for the four sections' contents. */
  function BuildText(terminals: seq<Definition>, rules: seq<Definition>, directives: seq<Definition>,
                     templates: seq<Definition>, ctx: Context, depth: nat): Result<string, RenderError>
  {
    var t :- RenderLines(terminals, ctx, depth);
    var r :- RenderLines(rules, ctx, depth);
    var d :- RenderLines(directives, ctx, depth);
    var p :- RenderLines(templates, ctx, depth);
    Ok(LinesText(t) + "\n" + LinesText(r) + "\n" + LinesText(d) + "\n" + LinesText(p) + "\n")
  }

  /** `start` followed by the lines of `defs`: what one section loop of `build_grammar` adds. */
  function SectionText(start: string, defs: seq<Definition>, ctx: Context, depth: nat): Result<string, RenderError> {
    var lines :- RenderLines(defs, ctx, depth);
    Ok(start + LinesText(lines))
  }

  /** Appending one more line to the text built so far. */
  lemma AppendStep(start: string, out: string, lines: seq<string>, line: string)
    requires out == start + LinesText(lines)
    ensures out + line + "\n" == start + LinesText(lines + [line])
  {
    assert (lines + [line])[..|lines|] == lines;
  }

  /** The build text is the four section loops run one after the other, each section
      starting from the previous one's text and a newline. */
  lemma BuildTextSections(terminals: seq<Definition>, rules: seq<Definition>, directives: seq<Definition>,
                          templates: seq<Definition>, ctx: Context, depth: nat)
    ensures BuildText(terminals, rules, directives, templates, ctx, depth)
            == (var t :- SectionText("", terminals, ctx, depth);
                var r :- SectionText(t + "\n", rules, ctx, depth);
                var d :- SectionText(r + "\n", directives, ctx, depth);
                var p :- SectionText(d + "\n", templates, ctx, depth);
                Ok(p + "\n"))
  {
    var t := RenderLines(terminals, ctx, depth);
    var r := RenderLines(rules, ctx, depth);
    var d := RenderLines(directives, ctx, depth);
    var p := RenderLines(templates, ctx, depth);
    if t.Ok? && r.Ok? && d.Ok? && p.Ok? {
      var a, b, c, e := LinesText(t.value), LinesText(r.value), LinesText(d.value), LinesText(p.value);
      assert "" + a == a;
      assert ((a + "\n" + b) + "\n" + c) + "\n" + e + "\n" == a + "\n" + b + "\n" + c + "\n" + e + "\n";
    }
  }

  /** Once a prefix fails, the whole sequence fails with the same error. */
  lemma {:induction false} RenderLinesFailPrefix(defs: seq<Definition>, more: seq<Definition>, ctx: Context, depth: nat)
    requires RenderLines(defs, ctx, depth).Fail?
    ensures RenderLines(defs + more, ctx, depth) == RenderLines(defs, ctx, depth)
    decreases |more|
  {
    if more == [] {
      assert defs + more == defs;
    } else {
      var init := more[..|more| - 1];
      RenderLinesFailPrefix(defs, init, ctx, depth);
      assert (defs + more)[..|defs + more| - 1] == defs + init;
    }
  }

  /** The lines of one more definition: the lines so far, then its line. */
  lemma RenderLinesSnoc(defs: seq<Definition>, i: nat, ctx: Context, depth: nat)
    requires i < |defs|
    ensures RenderLines(defs[..i + 1], ctx, depth)
            == match RenderLines(defs[..i], ctx, depth)
               case Fail(e) => Fail(e)
               case Ok(init) =>
                 match RenderDefinition(defs[i], ctx, depth)
                 case Fail(e) => Fail(e)
                 case Ok(line) => Ok(init + [line])
  {
    assert defs[..i + 1][..i] == defs[..i];
  }

  /** A definition that fails after the first `i` rendered fails its whole section. */
  lemma LinesFailAt(start: string, defs: seq<Definition>, i: nat, lines: seq<string>, ctx: Context, depth: nat)
    requires i < |defs| && RenderLines(defs[..i], ctx, depth) == Ok(lines)
    requires RenderDefinition(defs[i], ctx, depth).Fail?
    ensures SectionText(start, defs, ctx, depth) == Fail(RenderDefinition(defs[i], ctx, depth).error)
  {
    SliceAt(defs, i);
    RenderLinesFailLast(defs[..i], defs[i], ctx, depth);
    RenderLinesFailPrefix(defs[..i + 1], defs[i + 1..], ctx, depth);
  }

  lemma SliceAt<T>(xs: seq<T>, i: nat)
    requires i < |xs|
    ensures xs[..i] + [xs[i]] == xs[..i + 1] && xs[..i + 1] + xs[i + 1..] == xs
  {
  }

  lemma RenderLinesFailLast(init: seq<Definition>, last: Definition, ctx: Context, depth: nat)
    requires RenderLines(init, ctx, depth).Ok? && RenderDefinition(last, ctx, depth).Fail?
    ensures RenderLines(init + [last], ctx, depth) == Fail(RenderDefinition(last, ctx, depth).error)
  {
    var defs := init + [last];
    assert defs[..|defs| - 1] == init && defs[|defs| - 1] == last;
  }

  /** A definition that renders after the first `i` adds its line to theirs. */
  lemma LinesOkAt(defs: seq<Definition>, i: nat, lines: seq<string>, line: string, ctx: Context, depth: nat)
    requires i < |defs| && RenderLines(defs[..i], ctx, depth) == Ok(lines)
    requires RenderDefinition(defs[i], ctx, depth) == Ok(line)
    ensures RenderLines(defs[..i + 1], ctx, depth) == Ok(lines + [line])
  {
    RenderLinesSnoc(defs, i, ctx, depth);
  }

  /** One section loop of `build_grammar`: each definition's line and a newline, appended to
      `start`; a failing definition aborts the whole generation. */
  method AppendLines(start: string, defs: seq<Definition>, ctx: Context, depth: nat) returns (r: Result<string, RenderError>)
    ensures r == SectionText(start, defs, ctx, depth)
  {
    var out := start;
    ghost var lines: seq<string> := [];
    var i := 0;
    while i < |defs|
      invariant 0 <= i <= |defs|
      invariant RenderLines(defs[..i], ctx, depth) == Ok(lines)
      invariant out == start + LinesText(lines)
    {
      var line := RenderDefinition(defs[i], ctx, depth);
      if line.Fail? {
        LinesFailAt(start, defs, i, lines, ctx, depth);
        return Fail(line.error);
      }
      LinesOkAt(defs, i, lines, line.value, ctx, depth);
      AppendStep(start, out, lines, line.value);
      lines := lines + [line.value];
      out := out + line.value + "\n";
      i := i + 1;
    }
    assert defs[..|defs|] == defs;
    return Ok(out);
  }

  class Grammar {
    var rules: OrderedMap<Definition>
    var terminals: OrderedMap<Definition>
    var templates: OrderedMap<Definition>
    var directives: seq<Definition>
    var attributes: map<string, Body>

    /** Each map is well formed and holds, under each key, a definition of its kind named by
        that key; rule keys are rule-cased and terminal keys terminal-cased; a directive's content
        is text or a node. */
    ghost predicate Valid()
      reads this
    {
      && SectionWellFormed(RuleSection, rules)
      && SectionWellFormed(TerminalSection, terminals)
      && SectionWellFormed(TemplateSection, templates)
      && DirectivesWellFormed(directives)
    }

    /** `Grammar()`: nothing defined. */
    constructor ()
      ensures Valid()
      ensures rules == EmptyMap() && terminals == EmptyMap() && templates == EmptyMap()
      ensures directives == [] && attributes == map[]
    {
      rules := EmptyMap();
      terminals := EmptyMap();
      templates := EmptyMap();
      directives := [];
      attributes := map[];
    }

    // -------------------------------------------------------------- registration

    /** `make_rule`: a rule-cased name that is new, or that may be replaced, gets the body
        (a modifier body supplying the prefix); its place in the order is the first one. */
    method MakeRule(name: string, body: Body, modifier: string, priority: int, replace: bool)
      returns (r: Result<Definition, GrammarError>)
      requires Valid()
      modifies this
      ensures Valid()
      ensures !IsRule(name) ==> r == Fail(InvalidRuleName(name)) && unchanged(this)
      ensures IsRule(name) && name in old(rules.entries) && !replace ==>
                r == Fail(DuplicateRule(name)) && unchanged(this)
      ensures IsRule(name) && (name !in old(rules.entries) || replace) ==>
                && r == Ok(RuleDef(name, Unpack(body, modifier).0, Unpack(body, modifier).1, priority))
                && rules == Put(old(rules), name, r.value)
                && terminals == old(terminals) && templates == old(templates)
                && directives == old(directives) && attributes == old(attributes)
      ensures r.Ok? ==> GetDef(name) == Just(r.value)
      ensures r.Ok? && name !in old(rules.entries) ==> Values(rules) == Values(old(rules)) + [r.value]
      ensures r.Ok? && name in old(rules.entries) ==>
                Values(rules) == Values(old(rules))[IndexOf(old(rules), name) := r.value]
    {
      if !IsRule(name) {
        return Fail(InvalidRuleName(name));
      }
      if name in rules.entries && !replace {
        return Fail(DuplicateRule(name));
      }
      var unpacked := Unpack(body, modifier);
      var d := RuleDef(name, unpacked.0, unpacked.1, priority);
      PutFits(RuleSection, rules, name, d);
      if name in rules.entries {
        PutExistingKeepsPosition(rules, name, d);
      } else {
        PutNewAppends(rules, name, d);
      }
      rules := Put(rules, name, d);
      return Ok(d);
    }

    /** `make_terminal`: a terminal-cased name that is new gets the body. */
    method MakeTerminal(name: string, body: Body, modifier: string, priority: int)
      returns (r: Result<Definition, GrammarError>)
      requires Valid()
      modifies this
      ensures Valid()
      ensures !IsTerm(name) ==> r == Fail(InvalidTerminalName(name)) && unchanged(this)
      ensures IsTerm(name) && name in old(terminals.entries) ==> r == Fail(DuplicateTerminal(name)) && unchanged(this)
      ensures IsTerm(name) && name !in old(terminals.entries) ==>
                && r == Ok(TerminalDef(name, Unpack(body, modifier).0, Unpack(body, modifier).1, priority))
                && terminals == Put(old(terminals), name, r.value)
                && rules == old(rules) && templates == old(templates)
                && directives == old(directives) && attributes == old(attributes)
      ensures r.Ok? ==> GetDef(name) == Just(r.value)
      ensures r.Ok? ==> Values(terminals) == Values(old(terminals)) + [r.value]
    {
      if !IsTerm(name) {
        return Fail(InvalidTerminalName(name));
      }
      if name in terminals.entries {
        return Fail(DuplicateTerminal(name));
      }
      var unpacked := Unpack(body, modifier);
      var d := TerminalDef(name, unpacked.0, unpacked.1, priority);
      RuleTermDisjoint(name);
      PutFits(TerminalSection, terminals, name, d);
      PutNewAppends(terminals, name, d);
      terminals := Put(terminals, name, d);
      return Ok(d);
    }

    /** `make_template`: no check on the name; an existing template is overwritten in place. */
    method MakeTemplate(name: string, params: Renderable, body: Body, modifier: string) returns (d: Definition)
      requires Valid()
      modifies this
      ensures Valid()
      ensures d == TemplateDef(name, params, Unpack(body, modifier).0, Unpack(body, modifier).1)
      ensures templates == Put(old(templates), name, d)
      ensures rules == old(rules) && terminals == old(terminals)
      ensures directives == old(directives) && attributes == old(attributes)
      ensures name !in rules.entries && name !in terminals.entries ==> GetDef(name) == Just(d)
      ensures name !in old(templates.entries) ==> Values(templates) == Values(old(templates)) + [d]
      ensures name in old(templates.entries) ==>
                Values(templates) == Values(old(templates))[IndexOf(old(templates), name) := d]
    {
      var unpacked := Unpack(body, modifier);
      d := TemplateDef(name, params, unpacked.0, unpacked.1);
      var before := templates;
      PutFits(TemplateSection, before, name, d);
      if name in before.entries {
        PutExistingKeepsPosition(before, name, d);
      } else {
        PutNewAppends(before, name, d);
      }
      templates := Put(before, name, d);
    }

    /** `make_directive`: always appended, duplicates included. */
    method MakeDirective(name: string, content: DirectiveContent) returns (d: Definition)
      requires Valid()
      requires content.Node? ==> IsNode(content.node)
      modifies this
      ensures Valid()
      ensures d == DirectiveDef(name, content) && directives == old(directives) + [d]
      ensures rules == old(rules) && terminals == old(terminals)
      ensures templates == old(templates) && attributes == old(attributes)
    {
      d := DirectiveDef(name, content);
      directives := directives + [d];
    }

    // -------------------------------------------------------------- names

    /** `grammar.name`: a stored plain attribute, else a handle for a rule- or terminal-cased
        name; anything else is unknown. */
    function LookupByName(name: string): (r: Result<Body, GrammarError>)
      reads this
      ensures name in attributes ==> r == Ok(attributes[name])
      ensures name !in attributes && IsRule(name) ==> r == Ok(Tokens(RuleHandle(name)))
      ensures name !in attributes && IsTerm(name) ==> r == Ok(Tokens(TerminalHandle(name)))
      ensures r.Fail? <==> name !in attributes && !IsRule(name) && !IsTerm(name)
    {
      if name in attributes then Ok(attributes[name])
      else if IsRule(name) then Ok(Tokens(RuleHandle(name)))
      else if IsTerm(name) then Ok(Tokens(TerminalHandle(name)))
      else Fail(UnknownAttribute(name))
    }

    /** `grammar.name = value`: a rule- or terminal-cased name not starting with `__` registers
        a definition with the default prefix and priority; any other name is stored as a plain
        attribute. Reading the name back gives a handle, not the value. */
    method AssignByName(name: string, value: Body) returns (r: Outcome<GrammarError>)
      requires Valid()
      modifies this
      ensures Valid()
      ensures IsDunder(name) || (!IsRule(name) && !IsTerm(name)) ==>
                && r == Pass && attributes == old(attributes)[name := value]
                && rules == old(rules) && terminals == old(terminals)
                && templates == old(templates) && directives == old(directives)
      ensures !IsDunder(name) && IsRule(name) ==>
                && (r.Pass? <==> name !in old(rules.entries))
                && (r.Pass? ==> rules == Put(old(rules), name, RuleDef(name, Unpack(value, "").0, Unpack(value, "").1, DefaultPriority))
                                && terminals == old(terminals) && templates == old(templates)
                                && directives == old(directives) && attributes == old(attributes))
                && (r.Failure? ==> r.error == DuplicateRule(name) && unchanged(this))
      ensures !IsDunder(name) && IsTerm(name) ==>
                && (r.Pass? <==> name !in old(terminals.entries))
                && (r.Pass? ==> terminals == Put(old(terminals), name, TerminalDef(name, Unpack(value, "").0, Unpack(value, "").1, DefaultPriority))
                                && rules == old(rules) && templates == old(templates)
                                && directives == old(directives) && attributes == old(attributes))
                && (r.Failure? ==> r.error == DuplicateTerminal(name) && unchanged(this))
      ensures r.Pass? && !IsDunder(name) && (IsRule(name) || IsTerm(name)) && name !in attributes ==>
                LookupByName(name) == Ok(Tokens(if IsRule(name) then RuleHandle(name) else TerminalHandle(name)))
    {
      if !IsDunder(name) {
        if IsRule(name) {
          RuleTermDisjoint(name);
          var res := MakeRule(name, value, "", DefaultPriority, false);
          return if res.Ok? then Pass else Failure(res.error);
        }
        if IsTerm(name) {
          var res := MakeTerminal(name, value, "", DefaultPriority);
          return if res.Ok? then Pass else Failure(res.error);
        }
      }
      attributes := attributes[name := value];
      return Pass;
    }

    /** `rule_handle[key] = value`: an int key is a priority for a new rule; any other key makes
        a template whose parameters are that key. */
    method SetRuleItem(handle: string, key: ItemKey, value: Body) returns (r: Result<Definition, GrammarError>)
      requires Valid()
      modifies this
      ensures Valid()
      ensures key.IntKey? && !IsRule(handle) ==> r == Fail(InvalidRuleName(handle)) && unchanged(this)
      ensures key.IntKey? && IsRule(handle) && handle in old(rules.entries) ==>
                r == Fail(DuplicateRule(handle)) && unchanged(this)
      ensures key.IntKey? && IsRule(handle) && handle !in old(rules.entries) ==>
                && r == Ok(RuleDef(handle, Unpack(value, "").0, Unpack(value, "").1, key.n))
                && rules == Put(old(rules), handle, r.value)
                && terminals == old(terminals) && templates == old(templates)
                && directives == old(directives) && attributes == old(attributes)
      ensures key.ArgsKey? ==>
                && r == Ok(TemplateDef(handle, key.args, Unpack(value, "").0, Unpack(value, "").1))
                && templates == Put(old(templates), handle, r.value)
                && rules == old(rules) && terminals == old(terminals)
                && directives == old(directives) && attributes == old(attributes)
    {
      match key
      case IntKey(n) =>
        r := MakeRule(handle, value, "", n, false);
      case ArgsKey(args) =>
        var d := MakeTemplate(handle, args, value, "");
        r := Ok(d);
    }

    /** `terminal_handle[key] = value`: only an int priority is accepted. */
    method SetTerminalItem(handle: string, key: ItemKey, value: Body) returns (r: Result<Definition, GrammarError>)
      requires Valid()
      modifies this
      ensures Valid()
      ensures key.ArgsKey? ==> r == Fail(PriorityNotInt(handle)) && unchanged(this)
      ensures key.IntKey? && !IsTerm(handle) ==> r == Fail(InvalidTerminalName(handle)) && unchanged(this)
      ensures key.IntKey? && IsTerm(handle) && handle in old(terminals.entries) ==>
                r == Fail(DuplicateTerminal(handle)) && unchanged(this)
      ensures key.IntKey? && IsTerm(handle) && handle !in old(terminals.entries) ==>
                && r == Ok(TerminalDef(handle, Unpack(value, "").0, Unpack(value, "").1, key.n))
                && terminals == Put(old(terminals), handle, r.value)
                && rules == old(rules) && templates == old(templates)
                && directives == old(directives) && attributes == old(attributes)
    {
      match key
      case IntKey(n) =>
        r := MakeTerminal(handle, value, "", n);
      case ArgsKey(_) =>
        r := Fail(PriorityNotInt(handle));
    }

    // -------------------------------------------------------------- the wrapper

    function Entries(s: Section): OrderedMap<Definition>
      reads this
    {
      match s
      case RuleSection => rules
      case TerminalSection => terminals
      case TemplateSection => templates
    }

    /** Where `get_def` finds a name: rules first, then terminals, then templates. */
    function Locate(key: string): (s: Opt<Section>)
      reads this
      ensures s.Just? ==> key in Entries(s.value).entries
      ensures s.Nothing? <==> key !in rules.entries && key !in terminals.entries && key !in templates.entries
      ensures key in rules.entries ==> s == Just(RuleSection)
      ensures key in terminals.entries && key !in rules.entries ==> s == Just(TerminalSection)
    {
      if key in rules.entries then Just(RuleSection)
      else if key in terminals.entries then Just(TerminalSection)
      else if key in templates.entries then Just(TemplateSection)
      else Nothing
    }

    /** `get_def`. */
    function GetDef(key: string): (d: Opt<Definition>)
      reads this
      ensures d.Just? <==> Locate(key).Just?
      ensures d.Just? ==> d.value == Entries(Locate(key).value).entries[key]
    {
      match Locate(key)
      case Nothing => Nothing
      case Just(s) => Just(Entries(s).entries[key])
    }

    /** Stores an edited definition back in the section it was found in, in the old
        definition's position. */
    method Store(s: Section, key: string, d: Definition)
      requires Valid() && Locate(key) == Just(s)
      requires Fits(s, key, d)
      modifies this
      ensures Valid()
      ensures Entries(s) == Put(old(Entries(s)), key, d)
      ensures s != RuleSection ==> rules == old(rules)
      ensures s != TerminalSection ==> terminals == old(terminals)
      ensures s != TemplateSection ==> templates == old(templates)
      ensures directives == old(directives) && attributes == old(attributes)
    {
      var m := Put(Entries(s), key, d);
      PutFits(s, Entries(s), key, d);
      rules := if s == RuleSection then m else rules;
      terminals := if s == TerminalSection then m else terminals;
      templates := if s == TemplateSection then m else templates;
    }

    /** `wrapper.extend(key, *alternatives)`. */
    method Extend(key: string, alternatives: seq<Renderable>) returns (r: Outcome<GrammarError>)
      requires Valid()
      modifies this
      ensures Valid()
      ensures old(Locate(key)).Nothing? ==> r == Failure(UnknownDefinition(key)) && unchanged(this)
      ensures old(Locate(key)).Just? ==>
                var s := old(Locate(key)).value;
                && r == Pass
                && Entries(s) == Put(old(Entries(s)), key, Extended(old(Entries(s).entries[key]), alternatives))
                && (forall t :: t != s ==> Entries(t) == old(Entries(t)))
                && directives == old(directives) && attributes == old(attributes)
      ensures old(Locate(key)).Just? ==>
                && Locate(key) == old(Locate(key))
                && GetDef(key) == Just(Extended(old(GetDef(key)).value, alternatives))
                && Values(Entries(Locate(key).value))
                   == Values(old(Entries(Locate(key).value)))[IndexOf(old(Entries(Locate(key).value)), key) := GetDef(key).value]
    {
      var loc := Locate(key);
      if loc.Nothing? {
        return Failure(UnknownDefinition(key));
      }
      var s := loc.value;
      var d := Entries(s).entries[key];
      ExtendedFits(s, key, d, alternatives);
      PutExistingKeepsPosition(Entries(s), key, Extended(d, alternatives));
      Store(s, key, Extended(d, alternatives));
      return Pass;
    }

    /** `wrapper.replace(key, tokens)`. */
    method Replace(key: string, tokens: Renderable) returns (r: Outcome<GrammarError>)
      requires Valid()
      modifies this
      ensures Valid()
      ensures old(Locate(key)).Nothing? ==> r == Failure(UnknownDefinition(key)) && unchanged(this)
      ensures old(Locate(key)).Just? ==>
                var s := old(Locate(key)).value;
                && r == Pass
                && Entries(s) == Put(old(Entries(s)), key, Replaced(old(Entries(s).entries[key]), tokens))
                && (forall t :: t != s ==> Entries(t) == old(Entries(t)))
                && directives == old(directives) && attributes == old(attributes)
      ensures old(Locate(key)).Just? ==>
                && Locate(key) == old(Locate(key))
                && GetDef(key) == Just(Replaced(old(GetDef(key)).value, tokens))
                && Values(Entries(Locate(key).value))
                   == Values(old(Entries(Locate(key).value)))[IndexOf(old(Entries(Locate(key).value)), key) := GetDef(key).value]
    {
      var loc := Locate(key);
      if loc.Nothing? {
        return Failure(UnknownDefinition(key));
      }
      var s := loc.value;
      var d := Entries(s).entries[key];
      ReplacedFits(s, key, d, tokens);
      PutExistingKeepsPosition(Entries(s), key, Replaced(d, tokens));
      Store(s, key, Replaced(d, tokens));
      return Pass;
    }

    /** `wrapper.edit(key, modifier, priority)`. */
    method Edit(key: string, modifier: Opt<Modifier>, priority: Opt<int>) returns (r: Outcome<GrammarError>)
      requires Valid()
      modifies this
      ensures Valid()
      ensures old(Locate(key)).Nothing? ==> r == Failure(UnknownDefinition(key)) && unchanged(this)
      ensures old(Locate(key)).Just? ==>
                var s := old(Locate(key)).value;
                && r == Pass
                && Entries(s) == Put(old(Entries(s)), key, Edited(old(Entries(s).entries[key]), modifier, priority))
                && (forall t :: t != s ==> Entries(t) == old(Entries(t)))
                && directives == old(directives) && attributes == old(attributes)
      ensures old(Locate(key)).Just? ==>
                && Locate(key) == old(Locate(key))
                && GetDef(key) == Just(Edited(old(GetDef(key)).value, modifier, priority))
                && Values(Entries(Locate(key).value))
                   == Values(old(Entries(Locate(key).value)))[IndexOf(old(Entries(Locate(key).value)), key) := GetDef(key).value]
    {
      var loc := Locate(key);
      if loc.Nothing? {
        return Failure(UnknownDefinition(key));
      }
      var s := loc.value;
      var d := Entries(s).entries[key];
      EditedFits(s, key, d, modifier, priority);
      PutExistingKeepsPosition(Entries(s), key, Edited(d, modifier, priority));
      Store(s, key, Edited(d, modifier, priority));
      return Pass;
    }

    // -------------------------------------------------------------- generate

    /** What `generate(**ctx)` returns. */
    function GenerateText(ctx: Context): Result<string, RenderError>
      requires Valid()
      reads this
    {
      var text :- BuildText(Values(terminals), Values(rules), directives, Values(templates), ctx, ResolutionLimit);
      Ok(Strip(text))
    }

    /** `build_grammar`: the four section loops, each followed by a newline. */
    method BuildGrammar(ctx: Context) returns (r: Result<string, RenderError>)
      requires Valid()
      ensures r == BuildText(Values(terminals), Values(rules), directives, Values(templates), ctx, ResolutionLimit)
    {
      BuildTextSections(Values(terminals), Values(rules), directives, Values(templates), ctx, ResolutionLimit);
      var t := AppendLines("", Values(terminals), ctx, ResolutionLimit);
      if t.Fail? {
        return Fail(t.error);
      }
      var rs := AppendLines(t.value + "\n", Values(rules), ctx, ResolutionLimit);
      if rs.Fail? {
        return Fail(rs.error);
      }
      var ds := AppendLines(rs.value + "\n", directives, ctx, ResolutionLimit);
      if ds.Fail? {
        return Fail(ds.error);
      }
      var ps := AppendLines(ds.value + "\n", Values(templates), ctx, ResolutionLimit);
      if ps.Fail? {
        return Fail(ps.error);
      }
      return Ok(ps.value + "\n");
    }

    /** `generate(**ctx)`. */
    method Generate(ctx: Context) returns (r: Result<string, RenderError>)
      requires Valid()
      ensures r == GenerateText(ctx)
    {
      var text := BuildGrammar(ctx);
      if text.Fail? {
        return Fail(text.error);
      }
      return Ok(Strip(text.value));
    }
  }
}
