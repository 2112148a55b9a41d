/** Keyword rules: compiled once, then matched through an index and a cache that must
    not show. */
module Matcher {
  import opened Wrappers

  datatype Kind = Exact | Prefix | Contains

  /** A JavaScript number, as far as `Number.isInteger` tells. */
  datatype Number = Integer(value: int) | NotInteger

  datatype Spec = Spec(id: string, priority: Number, kind: Option<Kind>, pattern: string, reply: string)

  datatype MatchOptions = MatchOptions(caseSensitive: bool, trim: bool, collapseWhitespace: bool)

  /** The string operations of the platform. */
  datatype Platform = Platform(
    nfc: string -> string, lower: string -> string, collapse: string -> string, trim: string -> string)

  function NormalizeText(u: Platform, o: MatchOptions, input: string): string {
    var text := u.nfc(input);
    var text := if o.caseSensitive then text else u.lower(text);
    var text := if o.collapseWhitespace then u.collapse(text) else text;
    if o.trim then u.trim(text) else text
  }

  ghost function If(wanted: bool, f: string -> string, text: string): string { if wanted then f(text) else text }

  /** The four steps in their order: composed, then in lower case unless case matters, then with white
      space collapsed, then trimmed, the last two if asked for. */
  lemma NormalizesInOrder(u: Platform, o: MatchOptions, input: string)
    ensures NormalizeText(u, o, input)
         == If(o.trim, u.trim, If(o.collapseWhitespace, u.collapse, If(!o.caseSensitive, u.lower, u.nfc(input))))
  {
  }

  /** So spellings that compose alike are one; and, unless case matters, those that have the same
      lower case. */
  lemma SpellingsAreOne(u: Platform, o: MatchOptions, a: string, b: string)
    requires u.nfc(a) == u.nfc(b) || (!o.caseSensitive && u.lower(u.nfc(a)) == u.lower(u.nfc(b)))
    ensures NormalizeText(u, o, a) == NormalizeText(u, o, b)
  {
  }

  /** The compiled rule; its `test` is the kind and the normalised needle. */
  datatype Rule = Rule(id: string, priority: int, kind: Kind, reply: string, configIndex: nat, needle: string)

  function Includes(text: string, needle: string): (r: bool)
    ensures r <==> exists i :: 0 <= i <= |text| && needle <= text[i..]
  {
    if needle <= text then
      assert text[0..] == text;
      true
    else if |text| == 0 then
      assert forall i | 0 <= i <= |text| :: text[i..] == text;
      false
    else
      assert forall i | 0 <= i <= |text[1..]| :: text[1..][i..] == text[i + 1..];
      assert forall i | 1 <= i <= |text| :: text[i..] == text[1..][i - 1..];
      assert text[0..] == text;
      Includes(text[1..], needle)
  }

  predicate Passes(r: Rule, text: string) {
    match r.kind
    case Exact => text == r.needle
    case Prefix => r.needle <= text
    case Contains => Includes(text, r.needle)
  }

  predicate Beats(a: Rule, b: Rule) {
    a.priority > b.priority || (a.priority == b.priority && a.configIndex < b.configIndex)
  }

  // ------------------------------------------------------------ what a match is

  type Rules = seq<Rule>

  /** The naive matcher's answer: nothing if no rule passes, else the passing rule that
      beats every other. */
  ghost predicate IsBest(rules: Rules, text: string, r: Option<Rule>) {
    match r
    case None => forall x | x in rules :: !Passes(x, text)
    case Some(b) => && b in rules && Passes(b, text)
                    && forall x | x in rules && Passes(x, text) && x != b :: Beats(b, x)
  }

  ghost predicate Indexed(rules: Rules) {
    forall i | 0 <= i < |rules| :: rules[i].configIndex == i
  }

  lemma BestIsUnique(rules: Rules, text: string, a: Option<Rule>, b: Option<Rule>)
    requires IsBest(rules, text, a) && IsBest(rules, text, b)
    ensures a == b
  {
    hide Passes;
  }

  /** A fold over all the rules finds it: the matcher without index or cache. */
  ghost function Naive(rules: Rules, text: string): Option<Rule> {
    if |rules| == 0 then None
    else
      var rest, last := Naive(rules[..|rules| - 1], text), rules[|rules| - 1];
      if Passes(last, text) && (rest.None? || Beats(last, rest.value)) then Some(last) else rest
  }

  lemma {:induction false} NaiveIsBest(rules: Rules, text: string)
    requires Indexed(rules)
    ensures IsBest(rules, text, Naive(rules, text))
  {
    hide Passes;
    if |rules| > 0 {
      var init, last := rules[..|rules| - 1], rules[|rules| - 1];
      NaiveIsBest(init, text);
      assert forall x :: x in rules <==> x in init || x == last;
      if Naive(init, text).Some? {
        var b := Naive(init, text).value;
        var i :| 0 <= i < |init| && init[i] == b;
        assert b.configIndex < last.configIndex;
      }
    }
  }

  // ------------------------------------------------------------ compiling

  datatype Reason = EmptyId | PriorityNotInteger | UnknownKind | EmptyReply | EmptyPattern

  datatype ValidationError = DuplicateId(id: string) | InvalidRule(id: string, reason: Reason)

  function Invalid(s: Spec): Option<Reason> {
    if s.id == "" then Some(EmptyId)
    else if s.priority.NotInteger? then Some(PriorityNotInteger)
    else if s.kind.None? then Some(UnknownKind)
    else if s.reply == "" then Some(EmptyReply)
    else if s.pattern == "" then Some(EmptyPattern)
    else None
  }

  /** Why a rule is refused: for the first thing it lacks, in this order. */
  lemma RefusedIff(s: Spec)
    ensures Invalid(s) == Some(EmptyId) <==> s.id == ""
    ensures Invalid(s) == Some(PriorityNotInteger) <==> s.id != "" && s.priority == NotInteger
    ensures Invalid(s) == Some(UnknownKind) <==> s.id != "" && s.priority != NotInteger && s.kind == None
    ensures Invalid(s) == Some(EmptyReply) <==>
              s.id != "" && s.priority != NotInteger && s.kind != None && s.reply == ""
    ensures Invalid(s) == Some(EmptyPattern) <==>
              s.id != "" && s.priority != NotInteger && s.kind != None && s.reply != "" && s.pattern == ""
    ensures Invalid(s) == None <==> Sane(s)
  {
  }

  predicate Sane(s: Spec) {
    s.id != "" && s.priority.Integer? && s.kind.Some? && s.reply != "" && s.pattern != ""
  }

  ghost predicate IdTaken(specs: seq<Spec>, n: nat, id: string)
    requires n <= |specs|
  {
    exists i :: 0 <= i < n && specs[i].id == id
  }

  /** The error of the first bad rule, repeated ids first. */
  ghost function ErrorAt(specs: seq<Spec>, n: nat): Option<ValidationError>
    requires n < |specs|
  {
    if IdTaken(specs, n, specs[n].id) then Some(DuplicateId(specs[n].id))
    else if Invalid(specs[n]).Some? then Some(InvalidRule(specs[n].id, Invalid(specs[n]).value))
    else None
  }

  ghost predicate FirstError(specs: seq<Spec>, e: ValidationError) {
    exists n :: 0 <= n < |specs| && ErrorAt(specs, n) == Some(e) && forall i | 0 <= i < n :: ErrorAt(specs, i).None?
  }

  ghost predicate WellFormed(specs: seq<Spec>) {
    && (forall i | 0 <= i < |specs| :: Sane(specs[i]))
    && (forall i, j | 0 <= i < j < |specs| :: specs[i].id != specs[j].id)
  }

  /** Rules compile exactly when each is sane and their ids differ. */
  lemma CompilesIffWellFormed(specs: seq<Spec>)
    ensures WellFormed(specs) <==> forall i | 0 <= i < |specs| :: ErrorAt(specs, i).None?
  {
    if forall i | 0 <= i < |specs| :: ErrorAt(specs, i).None? {
      forall i, j | 0 <= i < j < |specs| ensures specs[i].id != specs[j].id {
        assert ErrorAt(specs, j).None?;
        assert !IdTaken(specs, j, specs[j].id);
      }
      forall i | 0 <= i < |specs| ensures Sane(specs[i]) { assert ErrorAt(specs, i).None?; }
    }
  }

  function CompileOne(u: Platform, o: MatchOptions, s: Spec, index: nat): Rule
    requires Sane(s)
  {
    Rule(s.id, s.priority.value, s.kind.value, s.reply, index, NormalizeText(u, o, s.pattern))
  }

  ghost predicate CompiledFrom(u: Platform, o: MatchOptions, specs: seq<Spec>, rules: Rules) {
    && |rules| == |specs|
    && forall i | 0 <= i < |specs| :: Sane(specs[i]) && rules[i] == CompileOne(u, o, specs[i], i)
  }

  method CompileAll(u: Platform, o: MatchOptions, specs: seq<Spec>) returns (r: Result<Rules, ValidationError>)
    ensures r.Ok? <==> WellFormed(specs)
    ensures r.Ok? ==> CompiledFrom(u, o, specs, r.value) && Indexed(r.value)
    ensures r.Err? ==> FirstError(specs, r.error)
  {
    hide NormalizeText;
    CompilesIffWellFormed(specs);
    var seen: set<string> := {};
    var rules: Rules := [];
    for index := 0 to |specs|
      invariant seen == set i | 0 <= i < index :: specs[i].id
      invariant |rules| == index
      invariant forall i | 0 <= i < index :: ErrorAt(specs, i).None?
      invariant forall i | 0 <= i < index :: Sane(specs[i]) && rules[i] == CompileOne(u, o, specs[i], i)
    {
      var spec := specs[index];
      assert spec.id in seen <==> IdTaken(specs, index, spec.id);
      if spec.id in seen {
        assert ErrorAt(specs, index) == Some(DuplicateId(spec.id));
        return Err(DuplicateId(spec.id));
      }
      seen := seen + {spec.id};
      var reason := Invalid(spec);
      if reason.Some? {
        assert ErrorAt(specs, index) == Some(InvalidRule(spec.id, reason.value));
        return Err(InvalidRule(spec.id, reason.value));
      }
      rules := rules + [CompileOne(u, o, spec, index)];
    }
    return Ok(rules);
  }

  // ------------------------------------------------------------ the index

  type Index = map<string, Rule>

  function Lookup(index: Index, text: string): Option<Rule> {
    if text in index then Some(index[text]) else None
  }

  ghost function OnlyExact(rules: Rules): Rules {
    if |rules| == 0 then []
    else OnlyExact(rules[..|rules| - 1]) + if rules[|rules| - 1].kind == Exact then [rules[|rules| - 1]] else []
  }

  lemma {:induction false} OnlyExactIs(rules: Rules)
    ensures forall x :: x in OnlyExact(rules) <==> x in rules && x.kind == Exact
  {
    if |rules| > 0 {
      OnlyExactIs(rules[..|rules| - 1]);
      assert forall x :: x in rules <==> x in rules[..|rules| - 1] || x == rules[|rules| - 1];
    }
  }

  /** Each key leads to the best of the exact rules that it satisfies. */
  method IndexExact(rules: Rules) returns (index: Index)
    requires Indexed(rules)
    ensures forall t :: IsBest(OnlyExact(rules), t, Lookup(index, t))
  {
    index := map[];
    for i := 0 to |rules|
      invariant forall t :: IsBest(OnlyExact(rules[..i]), t, Lookup(index, t))
    {
      var rule, before := rules[i], index;
      assert rules[..i + 1][..i] == rules[..i];
      if rule.kind == Exact {
        var existing := Lookup(index, rule.needle);
        if existing.None? || Beats(rule, existing.value) { index := index[rule.needle := rule]; }
        IndexTakes(rules[..i], rule, before, index);
      }
    }
    assert rules[..|rules|] == rules;
  }

  lemma IndexTakes(rules: Rules, rule: Rule, before: Index, after: Index)
    requires Indexed(rules) && rule.configIndex == |rules| && rule.kind == Exact
    requires forall t :: IsBest(OnlyExact(rules), t, Lookup(before, t))
    requires var existing := Lookup(before, rule.needle);
             after == if existing.None? || Beats(rule, existing.value) then before[rule.needle := rule] else before
    ensures forall t :: IsBest(OnlyExact(rules) + [rule], t, Lookup(after, t))
  {
    hide OnlyExact;
    OnlyExactIs(rules);
    forall t ensures IsBest(OnlyExact(rules) + [rule], t, Lookup(after, t)) {
      assert IsBest(OnlyExact(rules), t, Lookup(before, t));
      var exact := OnlyExact(rules);
      assert forall x :: x in exact + [rule] <==> x in exact || x == rule;
      assert Passes(rule, t) <==> t == rule.needle;
      hide Passes;
      if t == rule.needle && t in before {
        var b := before[t];
        var i :| 0 <= i < |rules| && rules[i] == b;
        assert b.configIndex != rule.configIndex;
      }
    }
  }

  method OnlyNonExact(rules: Rules) returns (rest: Rules)
    ensures forall x :: x in rest <==> x in rules && x.kind != Exact
  {
    rest := [];
    for i := 0 to |rules|
      invariant forall x :: x in rest <==> x in rules[..i] && x.kind != Exact
    {
      assert rules[..i + 1] == rules[..i] + [rules[i]];
      if rules[i].kind != Exact { rest := rest + [rules[i]]; }
    }
    assert rules[..|rules|] == rules;
  }

  // ------------------------------------------------------------ the matcher

  const CACHE_MAX: nat := 500

  /** The cache: one entry a text, in insertion order. */
  datatype Entry = Entry(text: string, matched: Option<Rule>)

  class RuleSet {
    const platform: Platform
    const options: MatchOptions
    const exact: Index
    const nonExact: Rules
    ghost const rules: Rules
    var cache: seq<Entry>

    /** The index and the cache agree with the naive matcher, within bounds. */
    ghost predicate Valid()
      reads this
    {
      && Indexed(rules)
      && (forall t :: IsBest(OnlyExact(rules), t, Lookup(exact, t)))
      && (forall x :: x in nonExact <==> x in rules && x.kind != Exact)
      && |cache| <= CACHE_MAX
      && (forall e | e in cache :: e.matched == Naive(rules, e.text))
      && (forall i, j | 0 <= i < j < |cache| :: cache[i].text != cache[j].text)
    }

    constructor (platform: Platform, options: MatchOptions, rules: Rules)
      requires Indexed(rules)
      ensures Valid() && this.platform == platform && this.options == options && this.rules == rules
    {
      var index := IndexExact(rules);
      var rest := OnlyNonExact(rules);
      this.platform := platform;
      this.options := options;
      exact := index;
      nonExact := rest;
      this.rules := rules;
      cache := [];
    }

    /** After any history of matches, the answer is the naive one. */
    method Match(rawText: string) returns (matched: Option<Rule>)
      requires Valid()
      modifies this`cache
      ensures Valid()
      ensures matched == Naive(rules, NormalizeText(platform, options, rawText))
    {
      hide Naive, NormalizeText, Indexed, OnlyExact, Lookup, IsBest;
      var text := NormalizeText(platform, options, rawText);
      var hit := Cached(text);
      if hit.Some? { return hit.value.matched; }
      var candidates := CollectCandidates(text);
      matched := SelectBest(candidates);
      CandidatesAreEnough(rules, text, candidates, Lookup(exact, text), matched);
      Remember(text, matched);
    }

    method Cached(text: string) returns (hit: Option<Entry>)
      ensures hit.Some? ==> hit.value in cache && hit.value.text == text
      ensures hit.None? ==> forall e | e in cache :: e.text != text
    {
      for i := 0 to |cache|
        invariant forall j | 0 <= j < i :: cache[j].text != text
      {
        if cache[i].text == text { return Some(cache[i]); }
      }
      return None;
    }

    method CollectCandidates(text: string) returns (hits: Rules)
      ensures forall x :: x in hits <==> Lookup(exact, text) == Some(x) || (x in nonExact && Passes(x, text))
    {
      hide Passes;
      var exactHit := Lookup(exact, text);
      hits := if exactHit.Some? then [exactHit.value] else [];
      for i := 0 to |nonExact|
        invariant forall x :: x in hits <==> exactHit == Some(x) || (x in nonExact[..i] && Passes(x, text))
      {
        assert nonExact[..i + 1] == nonExact[..i] + [nonExact[i]];
        if Passes(nonExact[i], text) { hits := hits + [nonExact[i]]; }
      }
      assert nonExact[..|nonExact|] == nonExact;
    }

    method Remember(text: string, matched: Option<Rule>)
      requires |cache| <= CACHE_MAX
      modifies this`cache
      ensures cache == (if |old(cache)| >= CACHE_MAX then old(cache)[1..] else old(cache)) + [Entry(text, matched)]
    {
      if |cache| >= CACHE_MAX { cache := cache[1..]; }
      cache := cache + [Entry(text, matched)];
    }
  }

  method SelectBest(candidates: Rules) returns (best: Option<Rule>)
    ensures best.None? <==> candidates == []
    ensures best.Some? ==> best.value in candidates && forall x | x in candidates :: !Beats(x, best.value)
  {
    best := None;
    for i := 0 to |candidates|
      invariant best.None? <==> i == 0
      invariant best.Some? ==> best.value in candidates && forall j | 0 <= j < i :: !Beats(candidates[j], best.value)
    {
      if best == None || Beats(candidates[i], best.value) { best := Some(candidates[i]); }
    }
  }

  /** The best of the indexed exact rule and the other passing rules is the best of all. */
  lemma CandidatesAreEnough(rules: Rules, text: string, candidates: Rules, exactHit: Option<Rule>, best: Option<Rule>)
    requires Indexed(rules) && IsBest(OnlyExact(rules), text, exactHit)
    requires forall x :: x in candidates <==> exactHit == Some(x) || (x in rules && x.kind != Exact && Passes(x, text))
    requires best.None? <==> candidates == []
    requires best.Some? ==> best.value in candidates && forall x | x in candidates :: !Beats(x, best.value)
    ensures best == Naive(rules, text)
  {
    hide Passes, OnlyExact, Naive;
    OnlyExactIs(rules);
    NaiveIsBest(rules, text);
    forall x, y | x in rules && y in rules && x != y ensures Beats(x, y) || Beats(y, x) {
      OneBeats(rules, x, y);
    }
    assert IsBest(rules, text, best);
    BestIsUnique(rules, text, best, Naive(rules, text));
  }

  lemma OneBeats(rules: Rules, x: Rule, y: Rule)
    requires Indexed(rules) && x in rules && y in rules && x != y
    ensures Beats(x, y) || Beats(y, x)
  {
    var i :| 0 <= i < |rules| && rules[i] == x;
    var j :| 0 <= j < |rules| && rules[j] == y;
  }

  method CompileRules(platform: Platform, options: MatchOptions, specs: seq<Spec>)
    returns (r: Result<RuleSet, ValidationError>)
    ensures r.Ok? <==> WellFormed(specs)
    ensures r.Ok? ==> fresh(r.value) && r.value.Valid() && r.value.platform == platform && r.value.options == options
    ensures r.Ok? ==> CompiledFrom(platform, options, specs, r.value.rules)
    ensures r.Err? ==> FirstError(specs, r.error)
  {
    var rules := CompileAll(platform, options, specs);
    if rules.Err? { return Err(rules.error); }
    var ruleSet := new RuleSet(platform, options, rules.value);
    return Ok(ruleSet);
  }

  /** What a rule asks of the normalised text, in the author's terms. */
  ghost predicate Holds(u: Platform, o: MatchOptions, s: Spec, text: string) {
    var needle := NormalizeText(u, o, s.pattern);
    match s.kind
    case None => false
    case Some(Exact) => text == needle
    case Some(Prefix) => needle <= text
    case Some(Contains) => exists i :: 0 <= i <= |text| && needle <= text[i..]
  }

  /** The answer in the author's terms: the earliest of the highest-priority rules that
      hold of the text, and none exactly when none holds. */
  lemma AnswerIsTheBestSpec(u: Platform, o: MatchOptions, specs: seq<Spec>, rules: Rules, text: string)
    requires CompiledFrom(u, o, specs, rules)
    ensures Naive(rules, text).None? <==> forall i | 0 <= i < |specs| :: !Holds(u, o, specs[i], text)
    ensures Naive(rules, text).Some? ==>
              var b := Naive(rules, text).value;
              var k := b.configIndex;
              && k < |specs| && b == rules[k] && b.id == specs[k].id && b.reply == specs[k].reply
              && Holds(u, o, specs[k], text)
              && forall j | 0 <= j < |specs| && Holds(u, o, specs[j], text) ::
                   specs[j].priority.value < specs[k].priority.value
                   || (specs[j].priority == specs[k].priority && k <= j)
  {
    hide Naive, NormalizeText;
    NaiveIsBest(rules, text);
    forall i | 0 <= i < |specs| ensures Passes(rules[i], text) <==> Holds(u, o, specs[i], text) {
      assert Sane(specs[i]) && rules[i] == CompileOne(u, o, specs[i], i);
    }
    hide Passes, Holds;
    assert forall i | 0 <= i < |specs| :: rules[i] in rules;
  }
}
