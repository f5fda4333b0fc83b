/**
 Filling placeholders in cluster resource templates, in notification emails and in namespace names.

 A placeholder's text is replaced wherever it stands, one placeholder after the other, in the order in which a map
 happens to be walked.
 */
module Substitution {
  import opened Wrappers

  type Key = k: string | k != "" witness "{{ project }}"

  type Values = map<Key, string>

  function Spaced(name: string): Key { "{{ " + name + " }}" }

  function Tight(name: string): Key { "{{" + name + "}}" }

  /** Every occurrence, from the left, without overlap. */
  function ReplaceAll(s: string, key: Key, value: string): string {
    if |s| < |key| then s
    else if key <= s then value + ReplaceAll(s[|key|..], key, value)
    else [s[0]] + ReplaceAll(s[1..], key, value)
  }

  // ------------------------------------------------------------------------------------------------------------
  // Templates
  // ------------------------------------------------------------------------------------------------------------

  datatype Piece = Literal(text: string) | Placeholder(text: string)

  predicate EndsOpen(s: string) { s != "" && s[|s| - 1] == '{' }

  predicate StartsOpen(s: string) { s != "" && s[0] == '{' }

  /** No two opening braces in a row. Single ones, as in JSON, are plain text. */
  predicate NoOpenPair(s: string) { forall i :: 0 <= i < |s| - 1 ==> !(s[i] == '{' && s[i + 1] == '{') }

  /** What may be filled in: no two opening braces in a row, and none at the end. */
  predicate IsValue(s: string) { NoOpenPair(s) && !EndsOpen(s) }

  /** Two opening braces, a name without braces, two closing braces. */
  predicate IsPlaceholder(t: string) {
    && |t| >= 4
    && t[0] == '{' && t[1] == '{' && t[|t| - 2] == '}' && t[|t| - 1] == '}'
    && forall i :: 2 <= i < |t| - 2 ==> t[i] != '{' && t[i] != '}'
  }

  /** A literal that ends in an opening brace is followed by plain text. */
  predicate Joins(p: Piece, q: Piece) {
    p.Literal? && EndsOpen(p.text) ==> q.Literal? && q.text != "" && !StartsOpen(q.text)
  }

  /** Literal text in which no two opening braces meet, and placeholders that do not nest. */
  predicate IsTemplate(pieces: seq<Piece>) {
    && (forall i :: 0 <= i < |pieces| ==> if pieces[i].Literal? then NoOpenPair(pieces[i].text) else IsPlaceholder(pieces[i].text))
    && (forall i :: 0 <= i < |pieces| - 1 ==> Joins(pieces[i], pieces[i + 1]))
  }

  predicate AreValues(values: Values) { forall k :: k in values ==> IsPlaceholder(k) && IsValue(values[k]) }

  function Text(pieces: seq<Piece>): string {
    if pieces == [] then "" else pieces[0].text + Text(pieces[1..])
  }

  function Filled(p: Piece, values: Values): Piece {
    if p.Placeholder? && p.text != "" && p.text in values then Literal(values[p.text]) else p
  }

  /** All placeholders at once: each that has a value becomes that value, as literal text. */
  function Substituted(pieces: seq<Piece>, values: Values): seq<Piece> {
    seq(|pieces|, i requires 0 <= i < |pieces| => Filled(pieces[i], values))
  }

  predicate IsName(n: string) { forall i :: 0 <= i < |n| ==> n[i] != '{' && n[i] != '}' }

  lemma SpellingsArePlaceholders(n: string)
    requires IsName(n)
    ensures IsPlaceholder(Spaced(n)) && IsPlaceholder(Tight(n))
  {
  }

  // ------------------------------------------------------------------------------------------------------------
  // One replacement
  // ------------------------------------------------------------------------------------------------------------

  lemma SkipOne(c: char, rest: string, key: Key, value: string)
    requires !(key <= [c] + rest)
    ensures ReplaceAll([c] + rest, key, value) == [c] + ReplaceAll(rest, key, value)
  {
  }

  lemma {:induction false} SkipText(text: string, rest: string, key: Key, value: string)
    requires NoOpenPair(text) && (EndsOpen(text) ==> !StartsOpen(rest))
    requires |key| >= 2 && key[0] == '{' && key[1] == '{'
    ensures ReplaceAll(text + rest, key, value) == text + ReplaceAll(rest, key, value)
  {
    hide ReplaceAll;
    if text == "" {
      assert text + rest == rest;
    } else {
      var c, more := text[0], text[1..];
      var s := [c] + (more + rest);
      assert text + rest == s;
      assert forall i :: 0 <= i < |more| ==> more[i] == text[i + 1];
      assert !(key <= s) by {
        assert |s| >= 2 ==> !(s[0] == '{' && s[1] == '{');
      }
      SkipOne(c, more + rest, key, value);
      SkipText(more, rest, key, value);
      assert [c] + (more + ReplaceAll(rest, key, value)) == text + ReplaceAll(rest, key, value);
    }
  }

  /** The name of a placeholder ends at its first closing brace, so one placeholder does not begin with another. */
  lemma PrefixIsWhole(t: string, rest: string, key: Key)
    requires IsPlaceholder(t) && IsPlaceholder(key)
    ensures key <= t + rest <==> key == t
  {
    var s := t + rest;
    if key <= s {
      assert |key| <= |t| ==> s[|key| - 2] == t[|key| - 2];
      assert s[|t| - 2] == '}' && s[|key| - 2] == '}';
      assert |t| <= |key| ==> key[|t| - 2] == s[|t| - 2];
      assert |key| == |t|;
    }
  }

  lemma SkipPlaceholder(t: string, rest: string, key: Key, value: string)
    requires IsPlaceholder(t) && IsPlaceholder(key) && t != key
    ensures ReplaceAll(t + rest, key, value) == t + ReplaceAll(rest, key, value)
  {
    hide ReplaceAll;
    PrefixIsWhole(t, rest, key);
    var name := t[2..];
    assert NoOpenPair(name) && !EndsOpen(name) && name[0] != '{' && key[0] == '{' && key[1] == '{';
    hide IsPlaceholder, NoOpenPair;
    SkipText(name, rest, key, value);
    assert (['{'] + (name + rest))[1] == name[0];
    SkipOne('{', name + rest, key, value);
    assert t + rest == ['{'] + (['{'] + (name + rest));
    SkipOne('{', ['{'] + (name + rest), key, value);
    var replaced := ReplaceAll(rest, key, value);
    assert ['{'] + (['{'] + (name + replaced)) == t + replaced;
  }

  lemma TakePlaceholder(rest: string, key: Key, value: string)
    ensures ReplaceAll(key + rest, key, value) == value + ReplaceAll(rest, key, value)
  {
  }

  /** Replacing one placeholder's text in a template's text fills that placeholder in the template. */
  lemma {:induction false} ReplaceFills(pieces: seq<Piece>, key: Key, value: string)
    requires IsTemplate(pieces) && IsPlaceholder(key)
    ensures ReplaceAll(Text(pieces), key, value) == Text(Substituted(pieces, map[key := value]))
  {
    if pieces != [] {
      var p, rest := pieces[0], pieces[1..];
      assert IsTemplate(rest) by {
        assert forall i :: 0 <= i < |rest| ==> rest[i] == pieces[i + 1];
      }
      ReplaceFills(rest, key, value);
      assert Substituted(pieces, map[key := value])[1..] == Substituted(rest, map[key := value]);
      if p.Literal? {
        assert EndsOpen(p.text) && rest != [] ==> Joins(p, pieces[1]);
        SkipText(p.text, Text(rest), key, value);
      } else if p.text == key {
        TakePlaceholder(Text(rest), key, value);
      } else {
        SkipPlaceholder(p.text, Text(rest), key, value);
      }
    }
  }

  lemma FilledIsTemplate(pieces: seq<Piece>, values: Values)
    requires IsTemplate(pieces) && AreValues(values)
    ensures IsTemplate(Substituted(pieces, values))
  {
    hide NoOpenPair, IsPlaceholder;
    var filled := Substituted(pieces, values);
    forall i | 0 <= i < |filled| - 1 ensures Joins(filled[i], filled[i + 1]) {
      assert Joins(pieces[i], pieces[i + 1]);
    }
  }

  lemma NothingFilled(pieces: seq<Piece>)
    ensures Substituted(pieces, map[]) == pieces
  {
  }

  /** Of two fillings, the first has the say. */
  lemma FilledTwice(pieces: seq<Piece>, first: Values, second: Values)
    ensures Substituted(Substituted(pieces, first), second) == Substituted(pieces, second + first)
  {
  }

  // ------------------------------------------------------------------------------------------------------------
  // One after the other
  // ------------------------------------------------------------------------------------------------------------

  /** The placeholders replaced one after the other, in this order. */
  function Sequentially(s: string, order: seq<Key>, values: Values): string
    requires forall k :: k in order ==> k in values
  {
    if order == [] then s
    else
      var n := |order| - 1;
      ReplaceAll(Sequentially(s, order[..n], values), order[n], values[order[n]])
  }

  /** Every key is visited. */
  ghost predicate IsOrder(order: seq<Key>, values: Values) { forall k :: k in order <==> k in values }

  function Restricted(values: Values, order: seq<Key>): Values { map k | k in values && k in order :: values[k] }

  lemma OneMoreFills(pieces: seq<Piece>, before: Values, key: Key, value: string)
    requires IsTemplate(pieces) && AreValues(before) && IsPlaceholder(key)
    ensures ReplaceAll(Text(Substituted(pieces, before)), key, value) == Text(Substituted(pieces, map[key := value] + before))
  {
    hide IsTemplate, AreValues, IsPlaceholder, Substituted, ReplaceAll, Text;
    FilledIsTemplate(pieces, before);
    ReplaceFills(Substituted(pieces, before), key, value);
    FilledTwice(pieces, before, map[key := value]);
  }

  lemma RestrictedGrows(values: Values, order: seq<Key>, k: Key)
    requires k in values
    ensures map[k := values[k]] + Restricted(values, order) == Restricted(values, order + [k])
  {
  }

  lemma {:induction false} SequentiallyFills(pieces: seq<Piece>, order: seq<Key>, values: Values)
    requires IsTemplate(pieces) && AreValues(values) && forall k :: k in order ==> k in values
    ensures Sequentially(Text(pieces), order, values) == Text(Substituted(pieces, Restricted(values, order)))
  {
    hide IsTemplate, IsPlaceholder, IsValue, Substituted, ReplaceAll, Text;
    if order == [] {
      assert Restricted(values, order) == map[];
      NothingFilled(pieces);
    } else {
      var n := |order| - 1;
      var before, k := Restricted(values, order[..n]), order[n];
      assert AreValues(before) && k in values && IsPlaceholder(k);
      hide AreValues, Restricted;
      SequentiallyFills(pieces, order[..n], values);
      OneMoreFills(pieces, before, k, values[k]);
      RestrictedGrows(values, order[..n], k);
      assert order == order[..n] + [k];
    }
  }

  /** In whatever order the map is walked, the outcome is that of filling all placeholders at once. */
  lemma OrderDoesNotMatter(pieces: seq<Piece>, order: seq<Key>, values: Values)
    requires IsTemplate(pieces) && AreValues(values) && IsOrder(order, values)
    ensures Sequentially(Text(pieces), order, values) == Text(Substituted(pieces, values))
  {
    SequentiallyFills(pieces, order, values);
    assert Restricted(values, order) == values;
  }

  /** One map after another: the first has the say. */
  lemma TwoRoundsFill(pieces: seq<Piece>, order: seq<Key>, first: Values, order': seq<Key>, second: Values)
    requires IsTemplate(pieces) && AreValues(first) && AreValues(second) && IsOrder(order, first) && IsOrder(order', second)
    ensures Sequentially(Sequentially(Text(pieces), order, first), order', second) == Text(Substituted(pieces, second + first))
  {
    hide IsTemplate, AreValues, Text, Substituted, Sequentially;
    OrderDoesNotMatter(pieces, order, first);
    FilledIsTemplate(pieces, first);
    OrderDoesNotMatter(Substituted(pieces, first), order', second);
    FilledTwice(pieces, first, second);
  }

  /** A value with an opening brace can make the order matter: a placeholder that arrives inside a value is replaced or
      not, depending on which comes first. */
  lemma BracesInValuesMakeOrderMatter()
    ensures var a, b := Tight("a"), Tight("b");
            var values: Values := map[a := b, b := "x"];
            && IsOrder([a, b], values) && IsOrder([b, a], values)
            && Sequentially(a, [a, b], values) == "x" && Sequentially(a, [b, a], values) == b
  {
    var a, b := Tight("a"), Tight("b");
    var values: Values := map[a := b, b := "x"];
    assert [a, b][..1] == [a] && [b, a][..1] == [b] && [a][..0] == [] && [b][..0] == [];
    SpellingsArePlaceholders("a");
    SpellingsArePlaceholders("b");
    assert a[2] == 'a' && b[2] == 'b';
    TakePlaceholder("", a, b);
    TakePlaceholder("", b, "x");
    assert a + "" == a && b + "" == b;
    assert ReplaceAll(a, a, b) == b && ReplaceAll(b, b, "x") == "x";
    SkipPlaceholder(a, "", b, "x");
    assert Sequentially(a, [a], values) == b;
    assert Sequentially(a, [b], values) == a;
  }

  /** So can a placeholder within a placeholder. */
  lemma NestingMakesOrderMatter()
    ensures var inner, outer: Key := Tight("a"), Tight("bx");
            var values: Values := map[inner := "x", outer := "y"];
            var template := "{{b" + inner + "}}";
            && IsOrder([inner, outer], values) && IsOrder([outer, inner], values)
            && Sequentially(template, [inner, outer], values) == "y"
            && Sequentially(template, [outer, inner], values) == outer
  {
    var inner, outer: Key := Tight("a"), Tight("bx");
    var values: Values := map[inner := "x", outer := "y"];
    var template := "{{b" + inner + "}}";
    assert [inner, outer][..1] == [inner] && [outer, inner][..1] == [outer] && [inner][..0] == [] && [outer][..0] == [];
    InnerFirst();
    OuterFirst();
    TakePlaceholder("", outer, "y");
    assert outer + "" == outer;
    assert Sequentially(template, [inner], values) == outer;
    assert Sequentially(template, [outer], values) == template;
  }

  lemma InnerFirst()
    ensures ReplaceAll("{{b" + Tight("a") + "}}", Tight("a"), "x") == Tight("bx")
  {
    var key := Tight("a");
    var tail := key + "}}";
    TakePlaceholder("}}", key, "x");
    assert ReplaceAll(tail, key, "x") == "x}}";
    hide ReplaceAll;
    var s2 := "b" + tail;
    SkipText("b", tail, key, "x");
    assert (['{'] + s2)[1] == 'b' && key[1] == '{';
    SkipOne('{', s2, key, "x");
    assert (['{'] + (['{'] + s2))[2] == 'b' && key[2] == 'a';
    SkipOne('{', ['{'] + s2, key, "x");
    assert "{{b" + key + "}}" == ['{'] + (['{'] + s2);
  }

  lemma OuterFirst()
    ensures ReplaceAll("{{b" + Tight("a") + "}}", Tight("bx"), "y") == "{{b" + Tight("a") + "}}"
  {
    assert Tight("bx")[3] == 'x';
    AbsentIsSkipped("{{b" + Tight("a") + "}}", Tight("bx"), "y", 'x');
  }

  lemma {:induction false} AbsentIsSkipped(s: string, key: Key, value: string, c: char)
    requires c in key && c !in s
    ensures ReplaceAll(s, key, value) == s
  {
    if |s| >= |key| {
      assert key <= s ==> forall d :: d in key ==> d in s;
      AbsentIsSkipped(s[1..], key, value, c);
    }
  }

  // ------------------------------------------------------------------------------------------------------------
  // Cluster resource templates
  // ------------------------------------------------------------------------------------------------------------

  method ReplaceEach(s: string, values: Values) returns (result: string)
    ensures exists order :: IsOrder(order, values) && result == Sequentially(s, order, values)
  {
    result := s;
    ghost var order: seq<Key> := [];
    var left := values.Keys;
    while left != {}
      invariant left <= values.Keys
      invariant forall k :: k in order <==> k in values && k !in left
      invariant result == Sequentially(s, order, values)
    {
      var k: Key :| k in left;
      result := ReplaceAll(result, k, values[k]);
      assert (order + [k])[..|order|] == order;
      order := order + [k];
      left := left - {k};
    }
    assert IsOrder(order, values);
  }

  /** The values of names as the values of their placeholders. */
  function Keyed(names: map<string, string>): Values {
    map k | k in SpacedKeys(names) :: if NameIn(k) in names then names[NameIn(k)] else ""
  }

  function SpacedKeys(names: map<string, string>): set<Key> { set n | n in names :: Spaced(n) }

  function NameIn(k: Key): string { if |k| >= 6 then k[3..|k| - 3] else "" }

  lemma KeyedAt(names: map<string, string>, n: string)
    ensures NameIn(Spaced(n)) == n
    ensures Spaced(n) in Keyed(names) <==> n in names
    ensures n in names ==> "{{ " + n + " }}" in Keyed(names) && Keyed(names)["{{ " + n + " }}"] == names[n]
  {
  }

  /** One more name is one more key. */
  lemma KeyedGrows(names: map<string, string>, n: string, value: string)
    ensures Keyed(names[n := value]) == Keyed(names)[Spaced(n) := value]
  {
  }

  /** The values found for a domain: its defaults, overlaid with what is stored for the project and domain. */
  function Overlaid(defaults: Values, overrides: map<string, string>): Values { defaults + Keyed(overrides) }

  class Controller {
    /** Shared by all namespaces of a sync, and written by each. */
    var templateValues: Values

    constructor (templateValues: Values)
      ensures this.templateValues == templateValues
    {
      this.templateValues := templateValues;
    }

    method CreateResourceFromTemplate(template: string, namespace: string, project: string, domain: string, custom: Values)
      returns (manifest: string)
      modifies this
      ensures templateValues ==
        old(templateValues) + map["{{ namespace }}" := namespace, "{{ project }}" := project, "{{ domain }}" := domain]
      ensures AreValues(templateValues) && AreValues(custom) ==>
        forall pieces :: IsTemplate(pieces) && Text(pieces) == template ==>
          manifest == Text(Substituted(pieces, custom + templateValues))
    {
      templateValues := templateValues[Spaced("namespace") := namespace];
      templateValues := templateValues[Spaced("project") := project];
      templateValues := templateValues[Spaced("domain") := domain];
      SystemKeys();
      assert templateValues ==
        old(templateValues) + map["{{ namespace }}" := namespace, "{{ project }}" := project, "{{ domain }}" := domain];
      hide *;
      manifest := ReplaceEach(template, templateValues);
      ghost var order :| IsOrder(order, templateValues) && manifest == Sequentially(template, order, templateValues);
      ghost var first := manifest;
      manifest := ReplaceEach(manifest, custom);
      ghost var order' :| IsOrder(order', custom) && manifest == Sequentially(first, order', custom);
      if AreValues(templateValues) && AreValues(custom) {
        forall pieces | IsTemplate(pieces) && Text(pieces) == template
          ensures manifest == Text(Substituted(pieces, custom + templateValues))
        {
          TwoRoundsFill(pieces, order, templateValues, order', custom);
        }
      }
    }
  }

  lemma SystemKeys()
    ensures Spaced("namespace") == "{{ namespace }}" && Spaced("project") == "{{ project }}" && Spaced("domain") == "{{ domain }}"
    ensures "{{ namespace }}" != "{{ project }}" && "{{ namespace }}" != "{{ domain }}" && "{{ project }}" != "{{ domain }}"
  {
    assert "{{ namespace }}"[3] == 'n' && "{{ project }}"[3] == 'p' && "{{ domain }}"[3] == 'd';
  }

  /** The text of one placeholder becomes its value. */
  lemma LonePlaceholder(key: Key, values: Values)
    requires key in values && AreValues(values)
    ensures IsTemplate([Placeholder(key)]) && Text([Placeholder(key)]) == key
    ensures Text(Substituted([Placeholder(key)], values)) == values[key]
  {
    var pieces := [Placeholder(key)];
    assert pieces[1..] == [] && key + "" == key;
    var filled := Substituted(pieces, values);
    assert filled == [Literal(values[key])] && filled[1..] == [] && values[key] + "" == values[key];
  }

  /** What each of the system's placeholders becomes, whatever the shared and the custom values are. */
  lemma SystemPlaceholdersBecome(shared: Values, namespace: string, project: string, domain: string, custom: Values)
    requires AreValues(shared) && AreValues(custom) && IsValue(namespace) && IsValue(project) && IsValue(domain)
    ensures var values :=
              custom + (shared + map["{{ namespace }}" := namespace, "{{ project }}" := project, "{{ domain }}" := domain]);
            && Text(Substituted([Placeholder("{{ namespace }}")], values)) == namespace
            && Text(Substituted([Placeholder("{{ project }}")], values)) == project
            && Text(Substituted([Placeholder("{{ domain }}")], values)) == domain
  {
    SystemKeys();
    SpellingsArePlaceholders("namespace");
    SpellingsArePlaceholders("project");
    SpellingsArePlaceholders("domain");
    hide *;
    ThreeBecome("{{ namespace }}", "{{ project }}", "{{ domain }}", shared, namespace, project, domain, custom);
  }

  lemma ThreeBecome(
    n: Key, p: Key, d: Key, shared: Values, namespace: string, project: string, domain: string, custom: Values)
    requires n != p && n != d && p != d && IsPlaceholder(n) && IsPlaceholder(p) && IsPlaceholder(d)
    requires AreValues(shared) && AreValues(custom) && IsValue(namespace) && IsValue(project) && IsValue(domain)
    ensures var values := custom + (shared + map[n := namespace, p := project, d := domain]);
            && Text(Substituted([Placeholder(n)], values)) == namespace
            && Text(Substituted([Placeholder(p)], values)) == project
            && Text(Substituted([Placeholder(d)], values)) == domain
  {
    hide Text, Substituted, IsPlaceholder, IsValue;
    var values: Values := custom + (shared + map[n := namespace, p := project, d := domain]);
    LonePlaceholder(n, values);
    LonePlaceholder(p, values);
    LonePlaceholder(d, values);
  }

  lemma NothingOverlaid(values: Values)
    ensures Overlaid(values, map[]) == values
  {
  }

  lemma OneMoreOverlaid(values: Values, done: map<string, string>, n: string, value: string)
    ensures Overlaid(values, done[n := value]) == Overlaid(values, done)[Spaced(n) := value]
  {
    hide Keyed, Spaced;
    KeyedGrows(done, n, value);
  }

  /** What is stored for a project and domain: overrides, nothing, or an error. */
  datatype Stored = Overrides(values: map<string, string>) | NotFound | LookupFailed

  method GetCustomTemplateValues(defaults: Values, stored: Stored) returns (r: Option<Values>)
    ensures r == match stored
                 case Overrides(values) => Some(Overlaid(defaults, values))
                 case NotFound => Some(defaults)
                 case LookupFailed => None
  {
    hide Overlaid, Spaced;
    var custom := CopyOf(defaults);
    if stored.LookupFailed? {
      return None;
    }
    if stored.Overrides? {
      custom := OverlaidWith(custom, stored.values);
    }
    return Some(custom);
  }

  method CopyOf(defaults: Values) returns (custom: Values)
    ensures custom == defaults
  {
    custom := map[];
    var left := defaults.Keys;
    while left != {}
      invariant left <= defaults.Keys && custom.Keys == defaults.Keys - left
      invariant forall k :: k in custom ==> custom[k] == defaults[k]
    {
      var k: Key :| k in left;
      custom := custom[k := defaults[k]];
      left := left - {k};
    }
  }

  method OverlaidWith(defaults: Values, overrides: map<string, string>) returns (custom: Values)
    ensures custom == Overlaid(defaults, overrides)
  {
    hide Overlaid, Spaced;
    custom := defaults;
    var names := overrides.Keys;
    ghost var done: map<string, string> := map[];
    NothingOverlaid(defaults);
    while names != {}
      invariant names <= overrides.Keys && done.Keys == overrides.Keys - names
      invariant forall n :: n in done ==> done[n] == overrides[n]
      invariant custom == Overlaid(defaults, done)
    {
      var name :| name in names;
      OneMoreOverlaid(defaults, done, name, overrides[name]);
      done := done[name := overrides[name]];
      custom := custom[Spaced(name) := overrides[name]];
      names := names - {name};
    }
    assert done == overrides;
  }

  /** A placeholder's value is the system's, else the global one, else the stored override, else the domain's default;
      and what an earlier namespace left in the shared values makes no difference. */
  lemma Precedence(globals: Values, namespace: string, project: string, domain: string, earlier: Values,
                   defaults: Values, overrides: map<string, string>, k: Key)
    requires earlier.Keys == {"{{ namespace }}", "{{ project }}", "{{ domain }}"}
    ensures var system: Values := map["{{ namespace }}" := namespace, "{{ project }}" := project, "{{ domain }}" := domain];
            var stored := Keyed(overrides);
            var values := Overlaid(defaults, overrides) + (globals + earlier + system);
            && (k in values <==> k in system || k in globals || k in stored || k in defaults)
            && (k in values ==>
                  values[k] ==
                    if k == "{{ namespace }}" then namespace
                    else if k == "{{ project }}" then project
                    else if k == "{{ domain }}" then domain
                    else if k in globals then globals[k]
                    else if k in stored then stored[k]
                    else defaults[k])
  {
    SystemKeys();
  }

  // ------------------------------------------------------------------------------------------------------------
  // Emails and namespaces
  // ------------------------------------------------------------------------------------------------------------

  const EMAIL_NAMES: set<string> := {
    "project", "domain", "name", "phase", "error", "workflow.project", "workflow.domain", "workflow.name",
    "workflow.version", "launch_plan.project", "launch_plan.domain", "launch_plan.name", "launch_plan.version"}

  /** No name begins with a space, so neither spelling of a name is a spelling of another. */
  predicate IsEmailName(n: string) { IsName(n) && n != "" && n[0] != ' ' }

  lemma EmailNamesFit()
    ensures forall n :: n in EMAIL_NAMES ==> IsEmailName(n)
  {
  }

  function TightKeys(names: map<string, string>): set<Key> { set n | n in names :: Tight(n) }

  function TightNameIn(k: Key): string { if |k| >= 4 then k[2..|k| - 2] else "" }

  /** The values of names as the values of both spellings of their placeholders. */
  function BothSpellings(names: map<string, string>): Values {
    Keyed(names) + map k | k in TightKeys(names) :: if TightNameIn(k) in names then names[TightNameIn(k)] else ""
  }

  lemma BothSpellingsAt(names: map<string, string>, n: string)
    requires n in names && forall m :: m in names ==> IsEmailName(m)
    ensures Spaced(n) in BothSpellings(names) && BothSpellings(names)[Spaced(n)] == names[n]
    ensures Tight(n) in BothSpellings(names) && BothSpellings(names)[Tight(n)] == names[n]
    ensures Spaced(n) == "{{ " + n + " }}" && Tight(n) == "{{" + n + "}}"
  {
    KeyedAt(names, n);
    assert TightNameIn(Tight(n)) == n;
    forall m | m in names ensures Tight(m) != Spaced(n) {
      assert Tight(m)[2] == m[0] && Spaced(n)[2] == ' ';
    }
  }

  lemma BothSpellingsAreValues(names: map<string, string>)
    requires forall n :: n in names ==> IsEmailName(n) && IsValue(names[n])
    ensures AreValues(BothSpellings(names))
  {
    var values := BothSpellings(names);
    forall k | k in values ensures IsPlaceholder(k) && IsValue(values[k]) {
      var n :| n in names && (k == Spaced(n) || k == Tight(n));
      SpellingsArePlaceholders(n);
      BothSpellingsAt(names, n);
    }
  }

  method SubstituteEmailParameters(template: string, names: map<string, string>) returns (message: string)
    requires forall n :: n in names ==> IsEmailName(n)
    ensures (forall n :: n in names ==> IsValue(names[n])) ==>
      forall pieces :: IsTemplate(pieces) && Text(pieces) == template ==>
        message == Text(Substituted(pieces, BothSpellings(names)))
  {
    hide IsTemplate, IsEmailName, IsValue, Substituted, ReplaceAll, Text, Sequentially, BothSpellings;
    message := template;
    assert Sequentially(template, [], BothSpellings(names)) == template by { NothingDone(template, BothSpellings(names)); }
    var left := names.Keys;
    ghost var values, order := BothSpellings(names), [];
    while left != {}
      invariant left <= names.Keys
      invariant forall k :: k in order ==> k in values
      invariant forall n :: n in names && n !in left ==> Spaced(n) in order && Tight(n) in order
      invariant message == Sequentially(template, order, values)
    {
      var name :| name in left;
      BothSpellingsAt(names, name);
      message := ReplaceAll(message, Spaced(name), names[name]);
      message := ReplaceAll(message, Tight(name), names[name]);
      SequentiallyTwo(template, order, Spaced(name), Tight(name), values);
      order := order + [Spaced(name), Tight(name)];
      left := left - {name};
    }
    AllVisited(names, order);
    if forall n :: n in names ==> IsValue(names[n]) {
      BothSpellingsAreValues(names);
      forall pieces | IsTemplate(pieces) && Text(pieces) == template ensures message == Text(Substituted(pieces, values)) {
        OrderDoesNotMatter(pieces, order, values);
      }
    }
  }

  lemma NothingDone(s: string, values: Values)
    ensures Sequentially(s, [], values) == s
  {
  }

  lemma AllVisited(names: map<string, string>, order: seq<Key>)
    requires forall n :: n in names ==> Spaced(n) in order && Tight(n) in order
    requires forall k :: k in order ==> k in BothSpellings(names)
    ensures IsOrder(order, BothSpellings(names))
  {
  }

  lemma SequentiallyTwo(s: string, order: seq<Key>, k1: Key, k2: Key, values: Values)
    requires k1 in values && k2 in values && forall k :: k in order ==> k in values
    ensures Sequentially(s, order + [k1, k2], values) == ReplaceAll(ReplaceAll(Sequentially(s, order, values), k1, values[k1]), k2, values[k2])
  {
    hide ReplaceAll;
    var one, two := order + [k1], order + [k1, k2];
    assert one[..|order|] == order && two[..|order| + 1] == one;
  }

  function GetNamespaceName(template: string, project: string, domain: string): string {
    ReplaceAll(ReplaceAll(template, Spaced("project"), project), Spaced("domain"), domain)
  }

  /** A namespace name is its template with both names filled in at once. */
  lemma NamespaceIsFilledTemplate(pieces: seq<Piece>, project: string, domain: string)
    requires IsTemplate(pieces) && IsValue(project) && IsValue(domain)
    ensures GetNamespaceName(Text(pieces), project, domain)
         == Text(Substituted(pieces, map["{{ project }}" := project, "{{ domain }}" := domain]))
  {
    SystemKeys();
    SpellingsArePlaceholders("project");
    SpellingsArePlaceholders("domain");
    hide IsTemplate, IsPlaceholder, Substituted, ReplaceAll, Text, IsValue;
    var p, d := Spaced("project"), Spaced("domain");
    var values: Values := map[p := project, d := domain];
    assert p[3] == 'p' && d[3] == 'd';
    assert [p, d][..1] == [p] && [p][..0] == [];
    assert Sequentially(Text(pieces), [p], values) == ReplaceAll(Text(pieces), p, project);
    OrderDoesNotMatter(pieces, [p, d], values);
  }
}
