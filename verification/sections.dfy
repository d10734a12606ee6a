/** The three named sections of a grammar (`rules`, `terminals`, `templates` in
    `lark_dynamic/grammar.py`) and what each may hold: the well-formedness the registry keeps. */
module Sections {
  import opened Utils
  import opened Renders
  import opened Definitions
  import opened OrderedMaps

  /** The three maps the wrapper searches, in the order it searches them. */
  datatype Section = RuleSection | TerminalSection | TemplateSection

  /** `d` may be stored under `key` in section `s`: it is of the section's kind and named by the
      key, and a rule or terminal key has the matching case. */
  predicate Fits(s: Section, key: string, d: Definition) {
    && d.name == key
    && match s
       case RuleSection => IsRule(key) && d.RuleDef?
       case TerminalSection => IsTerm(key) && d.TerminalDef?
       case TemplateSection => d.TemplateDef?
  }

  ghost predicate SectionWellFormed(s: Section, m: OrderedMap<Definition>) {
    m.Valid() && forall k :: k in m.entries ==> Fits(s, k, m.entries[k])
  }

  predicate DirectivesWellFormed(ds: seq<Definition>) {
    forall i :: 0 <= i < |ds| ==> ds[i].DirectiveDef? && (ds[i].content.Node? ==> IsNode(ds[i].content.node))
  }

  /** Storing a fitting definition keeps a section well formed. */
  lemma PutFits(s: Section, m: OrderedMap<Definition>, key: string, d: Definition)
    requires SectionWellFormed(s, m) && Fits(s, key, d)
    ensures SectionWellFormed(s, Put(m, key, d))
  {
    var m' := Put(m, key, d);
    forall k | k in m'.entries
      ensures Fits(s, k, m'.entries[k])
    {
      if k != key {
        assert m'.entries[k] == m.entries[k];
      }
    }
  }
}
