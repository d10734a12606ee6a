# lark_dynamic in Dafny

A model of the core of `lark_dynamic`, a Python library that builds the text of a Lark grammar
from an in-memory tree of values, with proofs of what that text looks like.

It has two parts.

- **The render engine** (`renders.dfy`, `render_facts.dfy`). `Renderable` is the union
  every child position accepts:
  - a raw string (`Str`);
  - a tuple (`Tup`), which is sugar for a group;
  - a list (`Lst`), which is sugar for an optional;
  - one constructor per node class: the combinators, the atoms, `Alias`, `Variable`.

  `Render(r, ctx, depth)` is `Token.render_str` together with every node's `render`. It
  returns the concatenation of the yielded fragments, or the error the source raises.
  - The two escaping schemes are in `escapes.dfy`: the `unicode_escape` codec for raw
    strings, and `Literal`'s quote escaping.
  - The helpers of `utils.py` are in `utils.dfy`. The `separated` loop is the method
    `Utils.Separated`, proved equal to the function `Utils.Join`.
  - The Python string built-ins that are used (`str(int)`, `str.strip`, `islower`, `isupper`,
    `isidentifier`) are in `pytext.dfy`.
- **The definition registry.**
  - `definitions.dfy`: rule, terminal, template and directive lines, and the edits applied to a
    definition.
  - `modifiers.dfy`: the `Modifier` value.
  - `ordered_maps.dfy`: an insertion-ordered dictionary.
  - `sections.dfy`: which definitions each of the three dictionaries may hold.
  - `grammars.dfy`: the class `Grammar`. It holds the rules, terminals and templates as
    ordered maps, the directives as a list, and the plain attributes stored on the object.
    Its methods are:
    - `make_rule`, `make_terminal`, `make_template` and `make_directive`;
    - the name-based `__setattr__` and `__getattr__`;
    - the handle subscripts of `atoms.py`;
    - the `GrammarWrapper` operations `get_def`, `extend`, `replace` and `edit`;
    - `build_grammar` and `generate`.

    The two section loops are methods, proved against the functions `BuildText` and
    `GenerateText`.
  - `grammar_facts.dfy`: what the generated text contains.

A `Variable` hands the context to a callback. Its result can be any tree, so rendering is
not structural recursion. `depth` counts how many more nested `Variable` resolutions are
allowed. Running out gives `ResolutionTooDeep`, the model's counterpart of Python's
`RecursionError`. `generate` renders with `ResolutionLimit = 1000`, a fixed finite bound on
nested resolutions. `DepthMonotone` shows that the depth only decides whether rendering
succeeds, never what it produces.

Where the code and the library's own description differ, the model follows the code:

- A raw string is escaped with `unicode_escape` only, so a `"` inside it is copied as is:
  `'a"b'` renders `"a"b"`. Only `Literal` backslashes quotes (`RenderFacts.RawStringLeavesQuotes`).
- A `Repeat` bound of `0`, or an empty list or tuple, is rejected when the node is rendered,
  not when it is built. A zero inside a non-empty collection is never checked.
- A collection bound whose length is not 2 renders only its last element.
- `make_template` checks neither the name's case nor duplicates. It overwrites in place.
- Calling an `Alias` returns a new `Alias`; the original is unchanged.
- A directive's content is rendered by that node's own `render`. A raw string is copied
  verbatim, with no quoting.
- A template never shows a priority, so `edit` with a priority on a template changes
  nothing that is rendered.

## Model

| member | source | states |
|---|---|---|
| RenderFacts.TupleRendersAsGroup | lark_dynamic/token.py:28-29 | a tuple renders exactly as a `Group` of its elements |
| RenderFacts.ListRendersAsOptional | lark_dynamic/token.py:30-31 | a list renders exactly as an `Optional` of its elements |
| RenderFacts.RawStringRendering | lark_dynamic/token.py:32-37 | a raw string always renders; the result is quoted, every character is printable ASCII, and unescaping the inner part gives the string back |
| RenderFacts.RawStringLeavesQuotes | lark_dynamic/token.py:32-37 | `'a"b'` as a raw string renders `"a"b"`, while `Literal('a"b')` renders `"a\"b"` |
| RenderFacts.OperatorsKeepWrittenOrder | lark_dynamic/token.py:41-45 | `node \| x` renders `n \| o` and `x \| node` renders `o \| n`: the operands in written order |
| Escapes.EscapeChar | lark_dynamic/token.py:10 | one code point escapes to a non-empty run of printable ASCII |
| Escapes.UnicodeEscape | lark_dynamic/token.py:33 | the `unicode_escape` output is printable ASCII only |
| Escapes.DecodeEscapeChar | lark_dynamic/token.py:33 | decoding the escape of a character gives that character back and consumes exactly its escape |
| Escapes.UnescapeRoundTrip | lark_dynamic/token.py:33 | decoding the `unicode_escape` of any string returns that string: nothing is lost |
| Escapes.EscapeCharPrintable | lark_dynamic/token.py:33 | every printable ASCII character other than the backslash is copied as itself, and the backslash is doubled |
| Escapes.UnicodeEscapeAppend | lark_dynamic/token.py:33 | the codec works character by character: the escape of a concatenation is the concatenation of the escapes |
| Escapes.UnicodeEscapeIdentity | lark_dynamic/token.py:33 | a string of printable ASCII without a backslash is copied unchanged |
| Escapes.UnicodeEscapeKeepsQuotes | lark_dynamic/token.py:33 | in any string, a `"` is copied unescaped, with the text around it escaped independently |
| Escapes.EscapeQuotes | lark_dynamic/atoms.py:16 | every `"` in the result is preceded by a backslash, and the result does not start with a quote |
| Escapes.QuotesRoundTrip | lark_dynamic/atoms.py:16 | removing the backslash before every `\"` recovers the original string |
| Escapes.EscapeQuotesIdentity | lark_dynamic/atoms.py:16 | a string without quotes is copied unchanged, backslashes and non-ASCII included |
| Utils.Separated | lark_dynamic/utils.py:11-18 | the `is_first` loop yields the parts with the separator between consecutive ones: `""` for none, the part itself for one |
| Utils.JoinAppend | lark_dynamic/utils.py:11-18 | joining two non-empty runs puts exactly one separator between them |
| Utils.JoinEnds | lark_dynamic/utils.py:11-18 | there is no leading and no trailing separator: the join starts with the first part and ends with the last |
| Utils.JoinLength | lark_dynamic/utils.py:11-18 | the length is every part once plus one separator fewer than parts |
| Utils.SplitJoinRoundTrip | lark_dynamic/utils.py:11-18 | when no part holds the one-character separator, splitting the join gives the parts back |
| Utils.SplitConcat | test/test_grammar.py:71 | `str.split`, as applied to the generated text: splitting at a separator gives the parts before it followed by the parts after it |
| Utils.JoinSplitRoundTrip | test/test_grammar.py:71 | `str.split` loses nothing: joining the parts with the separator gives the text back |
| Utils.SplitPartsFree | test/test_grammar.py:71 | no part of a `str.split` holds the separator |
| Utils.RuleTermDisjoint | lark_dynamic/utils.py:41-46 | no name is both rule-cased and terminal-cased |
| Utils.IsRuleCharacterised | lark_dynamic/utils.py:41-42 | `is_rule` holds exactly for a non-empty run of `[a-z0-9_]` that does not start with a digit and holds a letter |
| Utils.IsTermCharacterised | lark_dynamic/utils.py:45-46 | `is_term` holds exactly for a non-empty run of `[A-Z0-9_]` that does not start with a digit and holds a letter |
| Utils.NeitherNamespace | lark_dynamic/utils.py:41-46 | `_`, `_1`, a leading digit and mixed case fit neither namespace |
| Utils.NamespaceExamples | lark_dynamic/utils.py:41-46 | `rule1` is a rule name and `TERM1` a terminal name |
| PyText.IntToStrRoundTrip | lark_dynamic/definitions.py:27 | `str(i)` of any int can be parsed back to `i` |
| PyText.Strip | lark_dynamic/grammar.py:14 | `strip` returns a text no longer than its input with no whitespace at either end |
| PyText.StripIsSlice | lark_dynamic/grammar.py:14 | `strip` removes whitespace only: the result is a contiguous slice of the input with nothing but whitespace before and after it |
| PyText.StripPadding | lark_dynamic/grammar.py:14 | whitespace around a text that does not start or end with whitespace is removed exactly |
| Renders.RenderAllSpec | lark_dynamic/utils.py:29-34 | `render_all` succeeds exactly when every item renders; it then has one text per item, each that item's render; otherwise it fails with the error of the first failing item |
| RenderFacts.RenderAllAppend | lark_dynamic/utils.py:29-34 | `render_all` over a concatenation is the concatenation of the two renders: order and count are kept |
| RenderFacts.RenderAllOk | lark_dynamic/utils.py:29-34 | `render_all` yields exactly each item's render, in order |
| RenderFacts.ChildrenRendered | lark_dynamic/combinators.py:38-56 | for any children that render to `ys`: `Group` gives `ys` space-separated in parentheses, `Optional` the same in brackets, `Option` `ys` joined by ` \| `, and a template `name{…}` with `ys` comma-separated |
| RenderFacts.BracketShapes | lark_dynamic/combinators.py:38-56 | `Group` renders `(a b)`, `Optional` `[a b]` and `Option` `a \| b`, with no inner padding |
| RenderFacts.EmptyBrackets | lark_dynamic/combinators.py:38-51 | an empty group renders `()` and an empty optional `[]` |
| RenderFacts.PostfixShapes | lark_dynamic/combinators.py:18-35 | `Some`, `Many` and `Maybe` render as the group of their children followed immediately by `*`, `+` and `?` |
| RenderFacts.PostfixFailures | lark_dynamic/combinators.py:18-23 | a postfix combinator fails exactly as the group of its children does |
| RenderFacts.OptionGShape | lark_dynamic/combinators.py:59-60 | `OptionG(xs)` renders the alternation inside parentheses |
| RenderFacts.SeparatedShapes | lark_dynamic/combinators.py:63-68 | `SomeSeparated(s, t)` renders `(t (s t)*)` and `ManySeparated(s, t)` renders `(t (s t)+)` |
| RenderFacts.BoundFailsOnlyWhenZero | lark_dynamic/combinators.py:106-108 | a bound fails, with the zero-repeat error, exactly when it is the int 0 or an empty collection |
| RenderFacts.BoundForms | lark_dynamic/combinators.py:106-122 | a pair renders as the `Range` it spells and so does a `Range` |
| RenderFacts.BoundReadBack | lark_dynamic/combinators.py:106-122 | a non-zero int, or the last element of any non-empty collection that is not a pair, is rendered as a numeral that reads back to it |
| RenderFacts.RepeatShape | lark_dynamic/combinators.py:101-104 | `Repeat(c, b)` succeeds exactly when both `c` and `b` render, and then gives `(c) ~ b` |
| RenderFacts.RepeatExamples | lark_dynamic/combinators.py:101-122 | `("a") ~ 4`, `("a") ~ 1..4` for a pair or a `Range`, `("a") ~ 4` for `[4]`, and a failure for a zero bound |
| RenderFacts.RangeExamples | lark_dynamic/combinators.py:134-137 | `Range(1, 4)` renders `1..4`, and `[0, 0]` passes the zero check |
| RenderFacts.LiteralRendering | lark_dynamic/atoms.py:15-19 | `Literal(s, f)` is `"`, the quote-escaped `s`, `"`, then the flags; the quoted part gives `s` back |
| RenderFacts.FlagAppends | lark_dynamic/atoms.py:21-38 | attribute access adds exactly the attribute name to the output; `RegExp(r, f)` renders `/r/f` unescaped |
| RenderFacts.VerbatimNodes | lark_dynamic/atoms.py:53-54 | `Prerendered` text and the rule and terminal handles, which inherit its `render`, render their name verbatim in every context; `Empty` renders nothing |
| RenderFacts.SubscriptRendering | lark_dynamic/atoms.py:65-110 | `handle[x]` renders `name{x}` for a non-tuple and `name{a, b}` for a pair |
| RenderFacts.TemplatePair | lark_dynamic/atoms.py:104-110 | a two-argument template instance renders `name{a, b}` |
| RenderFacts.AliasRendering | lark_dynamic/definitions.py:98-114 | `Alias.name` renders ` -> name`, and calling it gives `body -> name` |
| RenderFacts.VariableRendering | lark_dynamic/variable.py:11-12 | a variable renders as its callback's result for the context; with no depth left it fails |
| RenderFacts.BoolVariableSelects | lark_dynamic/variable.py:18-22 | the callback receives the truth of the context entry when it is present, and the default otherwise |
| RenderFacts.MakeBoolVariableSelects | lark_dynamic/variable.py:25-28 | `makeBoolVariable(k, t, f)` renders `t` when the selected value is true and `f` otherwise; an absent key with the default selects `f` |
| RenderFacts.VariableDependsOnContext | lark_dynamic/variable.py:25-28 | one variable renders `a` in one context and `b` in another |
| RenderFacts.ContextIndependent | lark_dynamic/token.py:27-39 | a tree without variables renders the same in every context |
| RenderFacts.DepthMonotone | lark_dynamic/variable.py:11-12 | a render that succeeds gives the same text with any larger depth |
| Modifiers.Call | lark_dynamic/modifier.py:14-15 | calling a modifier keeps its prefix and takes exactly the given tokens |
| Modifiers.CallReplacesBody | lark_dynamic/modifier.py:10-15 | calling twice only replaces the body once more, and calling with its own tokens gives the same modifier |
| Modifiers.PresetTags | lark_dynamic/modifier.py:19-23 | the presets carry `_`, `?`, `!` and `_` with no body: the three rule prefixes are distinct one-character strings, and `ANONYMOUS` equals `INLINE` |
| Definitions.AsItems | lark_dynamic/definitions.py:16-18 | a tuple body is kept as the items; any other body becomes a 1-tuple |
| Definitions.Unpack | lark_dynamic/grammar.py:49-51 | as in each of the three `make_*` methods, a modifier body supplies both the prefix and the tokens; a plain body keeps the given prefix |
| Definitions.PriorityReadable | lark_dynamic/definitions.py:22-28 | after the prefix and name the header is `: ` exactly when the priority is 1; otherwise `.`, the priority in decimal that parses back, then `: ` |
| Definitions.TupleBodyUnwrapped | lark_dynamic/definitions.py:16-30 | a tuple body is written without its group parentheses; any other body is rendered whole |
| Definitions.ModifierPrefixesLine | lark_dynamic/grammar.py:49-53 | a modifier body puts its prefix at the very start of the line |
| Definitions.TemplateCollectionsAgree | lark_dynamic/definitions.py:79-91 | template parameters in a list, a tuple or a group render the same line: a list is split, not rendered as an optional |
| Definitions.TemplateNoParams | lark_dynamic/definitions.py:75-95 | an empty parameter collection gives `name{}: body` |
| Definitions.TemplateSingleParam | lark_dynamic/definitions.py:75-95 | any other value is the only parameter: `name{p}: body` |
| Definitions.DirectiveContentForms | lark_dynamic/definitions.py:49-56 | text content follows `%name ` verbatim in every context; a `Literal` content is quoted and escaped |
| Definitions.Extended | lark_dynamic/grammar.py:161 | `extend` makes the body one alternation of the old items followed by the new ones, and changes nothing else |
| Definitions.ExtendMakesAlternatives | lark_dynamic/grammar.py:161 | after `extend` the body renders as the old items' renders, then the new ones, joined by ` \| ` |
| Definitions.Replaced | lark_dynamic/grammar.py:168-171 | `replace` sets the body, wrapping a non-tuple in a 1-tuple, and changes nothing else |
| Definitions.ReplaceAsFresh | lark_dynamic/grammar.py:163-171 | a replaced rule or terminal renders as a fresh definition with that body would |
| Definitions.Edited | lark_dynamic/grammar.py:181-185 | `edit` sets the prefix and/or the priority that are given; absent arguments leave the field alone; a template keeps everything but its prefix |
| Definitions.EditIdempotent | lark_dynamic/grammar.py:173-185 | `edit` without arguments changes nothing, and repeating an edit changes nothing more |
| OrderedMaps.Put | lark_dynamic/grammar.py:54 | assigning a key in a section dictionary updates its entry; a new key is appended to the order and an existing one keeps its place |
| OrderedMaps.GetPut | lark_dynamic/grammar.py:54 | reading the written key gives the value; other keys are unaffected |
| OrderedMaps.PutNewAppends | lark_dynamic/grammar.py:17-32 | a new key is iterated last, after everything already there |
| OrderedMaps.PutExistingKeepsPosition | lark_dynamic/grammar.py:46-54 | overwriting a key changes only that value, in its original position |
| OrderedMaps.PutPut | lark_dynamic/grammar.py:99 | writing a key twice leaves the second value in the first write's place |
| Grammars.AppendLines | lark_dynamic/grammar.py:17-19 | one section loop appends every definition's line and a newline, or fails with the first failing definition's error |
| Grammars.RenderLinesFailPrefix | lark_dynamic/grammar.py:17-19 | once a prefix of the definitions fails, the whole section fails with the same error |
| Grammars.BuildTextSections | lark_dynamic/grammar.py:16-32 | the build text is the four section loops run in turn, each followed by a newline |
| Grammars.Grammar.constructor | lark_dynamic/grammar.py:6-11 | a new grammar has no definitions and satisfies the invariant |
| Grammars.Grammar.MakeRule | lark_dynamic/grammar.py:34-55 | a badly cased name or an existing name without `replace` fails and changes nothing; otherwise only the rules change, the new definition is found by `get_def`, and a new name goes last while a replaced one keeps its place |
| Grammars.Grammar.MakeTerminal | lark_dynamic/grammar.py:57-77 | a badly cased or existing name fails and changes nothing; otherwise only the terminals change and the new terminal goes last |
| Grammars.Grammar.MakeTemplate | lark_dynamic/grammar.py:84-100 | no check: the template is stored, appended when new and overwritten in place otherwise, and nothing else changes |
| Grammars.Grammar.MakeDirective | lark_dynamic/grammar.py:79-82 | the directive is appended, duplicates included, and nothing else changes |
| Grammars.Grammar.LookupByName | lark_dynamic/grammar.py:112-117 | a stored attribute comes first; otherwise a rule- or terminal-cased name gives its handle; it fails exactly for any other name |
| Grammars.Grammar.AssignByName | lark_dynamic/grammar.py:102-110 | a rule- or terminal-cased name not starting with `__` registers a definition with the default prefix and priority, failing on a duplicate without change; any other name is stored as an attribute; reading the name back gives a handle |
| Grammars.Grammar.SetRuleItem | lark_dynamic/atoms.py:70-75 | an int key registers a rule with that priority and no prefix; any other key registers a template whose parameters are the key |
| Grammars.Grammar.SetTerminalItem | lark_dynamic/atoms.py:91-96 | a non-int key fails and registers nothing; an int key registers a terminal with that priority |
| Grammars.Grammar.Locate | lark_dynamic/grammar.py:136-137 | `get_def` looks in rules, then terminals, then templates; it finds nothing exactly when no map holds the name |
| Grammars.Grammar.GetDef | lark_dynamic/grammar.py:136-137 | the definition found is the one stored under the name in the first map that holds it |
| Grammars.Grammar.Extend | lark_dynamic/grammar.py:155-161 | an unknown name fails and changes nothing; otherwise the found definition becomes its extension in its own map and position, and nothing else changes |
| Grammars.Grammar.Replace | lark_dynamic/grammar.py:163-171 | an unknown name fails and changes nothing; otherwise only the found definition's body changes, in place |
| Grammars.Grammar.Edit | lark_dynamic/grammar.py:173-185 | an unknown name fails and changes nothing; otherwise only the found definition's prefix and priority change, in place |
| Grammars.Grammar.BuildGrammar | lark_dynamic/grammar.py:16-32 | the text is terminals, rules, directives and templates in insertion order, each line followed by a newline and each section by one more |
| Grammars.Grammar.Generate | lark_dynamic/grammar.py:13-14 | `generate` is the build text with surrounding whitespace stripped |
| GrammarFacts.NonEmptyAppend | test/test_grammar.py:71 | `filter(None, …)`, as applied to the split output: dropping empty parts commutes with concatenation |
| GrammarFacts.RenderLinesElementwise | lark_dynamic/grammar.py:17-31 | a section renders exactly when every definition does, and then holds each definition's line in order |
| GrammarFacts.SplitLinesText | lark_dynamic/grammar.py:17-19 | splitting the text of some single-line lines, and what follows it, at newlines gives back those lines first |
| GrammarFacts.BuildTextSplit | lark_dynamic/grammar.py:16-32 | splitting the build text at newlines gives the terminal lines, a blank, the rule lines, a blank, the directives, a blank, the templates and two blanks |
| GrammarFacts.BuildTextLines | lark_dynamic/grammar.py:16-32 | a successful build holds every section's lines; when lines are non-empty and single-line, the non-blank lines are the terminals, rules, directives and templates in that order |
| GrammarFacts.EmptyGeneratesNothing | lark_dynamic/grammar.py:13-32 | an empty grammar builds four newlines and generates the empty string |
| GrammarFacts.StripKeepsLines | lark_dynamic/grammar.py:13-14 | when the first non-blank line does not start, and the last does not end, with whitespace, `strip` loses only blank lines: the non-empty lines of the text are unchanged |
| GrammarFacts.StripJoinedLines | lark_dynamic/grammar.py:13-14 | newline-free lines, joined by newlines and stripped, split back into the same non-empty lines |
| GrammarFacts.LeadStrip | lark_dynamic/grammar.py:14 | `lstrip` of joined lines removes exactly the leading blank lines when the first non-blank line does not start with whitespace |
| GrammarFacts.TrailStrip | lark_dynamic/grammar.py:14 | `rstrip` of joined lines removes exactly the trailing blank lines when the last non-blank line does not end with whitespace |
| GrammarFacts.StrippedBuildLines | lark_dynamic/grammar.py:13-32 | on the four sections' contents: when every line is non-empty and single-line and the first and last carry no outer whitespace, the non-empty lines of the stripped build text are the terminal, rule, directive and template lines, in order |
| GrammarFacts.GenerateLines | lark_dynamic/grammar.py:13-32 | when every line is non-empty and single-line and the first and last carry no outer whitespace, the non-empty lines of `generate`'s output are the terminal, rule, directive and template lines, each section in insertion order |
| GrammarFacts.SingleRuleGenerates | lark_dynamic/grammar.py:13-32 | a grammar with one rule generates exactly that rule's line |
| GrammarFacts.RulesAndTerminalsDisjoint | lark_dynamic/grammar.py:42-77 | in a well-formed grammar no name is both a rule and a terminal |

## Left out

- `lark_dynamic.py`, the older single-module copy, is not modelled. The package shadows it
  on import, and its behaviour contradicts the package.
- `__repr__`, `repr_children`, `add_tab` and `get_name` only produce debugging dumps, so they are
  not modelled.
- `constants.py` is not part of this model. The context is a map from names to a small
  `Value` datatype with Python's truthiness written out.
- The abstract `Token.render`, which returns `NotImplemented`, is not modelled. Every node kind
  has its own case in `Render`.
- `warnings.warn` in `Terminal.__getitem__` is an I/O side effect. Only the returned
  template is modelled: a terminal subscript renders like a rule subscript.
- Generator laziness is not modelled. A render is a whole string or an error; the fragments
  emitted before a `ValueError` are not represented.
- A `Variable` callback is a Dafny function from the context to a tree. Arbitrary Python
  callables, and side effects inside them, are not modelled.
- Python's recursion limit is modelled as the `depth` bound, counted in nested `Variable`
  resolutions only. A deep tree without variables never fails in the model.
- `ResolutionLimit` (1000) is an arbitrary finite bound, not Python's failure point. Python
  counts interpreter frames: each nested `Variable` costs at least two generator frames, and
  the frames of `build_grammar`, the definition and every enclosing node come on top. So
  Python raises `RecursionError` after roughly 500 nested variables or fewer, and some renders
  that Python rejects succeed in the model.
- `str.islower`, `str.isupper` and `str.isidentifier` are modelled on ASCII only.
- `Escapes.EscapeChar` covers Unicode scalar values only, which is the range of Dafny's `char`. A
  lone surrogate in a Python `str` is not representable.
- Definitions are values. Python returns the stored definition object, so a caller could
  mutate it in place; in the model, changes go through `Extend`, `Replace` and `Edit` only.
- Rule and terminal handles are modelled by name only (`RuleHandle`, `TerminalHandle`). Their
  subscript assignments are the `Grammar` methods `SetRuleItem` and `SetTerminalItem`.
- Grammars.Grammar.SetRuleItem: the key is an `int` or another value. Python's `bool` is an
  `int`, so `handle[True] = …` registers a rule with priority 1. The model has no separate
  boolean key.
- Grammars.Grammar.LookupByName: only the stored plain attributes come before the handles.
  Python also finds the grammar's own methods and fields first (`generate`, `use_wrapper`,
  `__rules__`, …), so those names never yield a handle there.
- Grammars.Grammar.AssignByName: a dunder name is stored as a plain attribute. Assigning to
  `__rules__` and the other internal field names, which would replace the registry's own
  dictionaries in Python, is not modelled.
- Grammars.Grammar.MakeDirective: the content is text or a node. A tuple or list as directive
  content reaches `"".join` unrendered and raises `TypeError` in Python; such content is
  excluded by the precondition rather than modelled as an error.
- `GrammarWrapper` is not a separate object. Its properties only forward to the grammar's
  dictionaries, so its operations are methods of `Grammar`.
- `use_wrapper` only returns the wrapper and is therefore not modelled.
