/**
 * Dashboard strategy, category classification (`classify_category` in utils.py).
 *
 * The rules come from a JSON file mapping each category to a list of keywords, in
 * file order; they are the parameter `rules`, `None` standing for a file that is
 * missing or cannot be read. The first category with a keyword occurring in the
 * lower-cased text wins; without one the category is "Other". The keywords are
 * compared as written, so a keyword with a capital letter never matches.
 */
module DashboardCategory {
  import opened Wrappers
  import opened Text

  type Rule = (string, seq<string>)

  const Other: string := "Other"

  /** `any(k in text for k in keywords)` */
  predicate RuleMatches(rule: Rule, textLower: string) {
    ContainsAny(textLower, rule.1)
  }

  /** The first rule from index `i` on that matches, as its category. */
  function FirstRuleFrom(rules: seq<Rule>, textLower: string, i: nat): (r: Option<string>)
    requires i <= |rules|
    decreases |rules| - i
  {
    if i == |rules| then None
    else if RuleMatches(rules[i], textLower) then Some(rules[i].0)
    else FirstRuleFrom(rules, textLower, i + 1)
  }

  /** What `classify_category` returns. */
  function CategoryOf(rules: Option<seq<Rule>>, text: string): string {
    if rules.None? then Other
    else FirstRuleFrom(rules.value, Lower(text), 0).GetOr(Other)
  }

  method ClassifyCategory(rules: Option<seq<Rule>>, text: string) returns (r: string)
    ensures r == CategoryOf(rules, text)
  {
    var textLower := Lower(text);
    if rules.None? {
      return Other;
    }
    var rs := rules.value;
    for i := 0 to |rs|
      invariant FirstRuleFrom(rs, textLower, 0) == FirstRuleFrom(rs, textLower, i)
    {
      var keywords := rs[i].1;
      var found := false;
      for k := 0 to |keywords|
        invariant found <==> exists k' :: 0 <= k' < k && Contains(textLower, keywords[k'])
      {
        if Contains(textLower, keywords[k]) {
          found := true;
        }
      }
      if found {
        return rs[i].0;
      }
    }
    return Other;
  }

  // ---------------------------------------------------------------------------
  // Properties
  // ---------------------------------------------------------------------------

  /** The search from `i` finds nothing exactly when no rule from `i` on matches, and
      otherwise finds the category of the earliest matching rule. */
  lemma {:induction false} FirstRuleFromSpec(rules: seq<Rule>, textLower: string, i: nat) returns (j: nat)
    requires i <= |rules|
    ensures i <= j <= |rules|
    ensures forall j' :: i <= j' < j ==> !RuleMatches(rules[j'], textLower)
    ensures j == |rules| ==> FirstRuleFrom(rules, textLower, i) == None
    ensures j < |rules| ==> RuleMatches(rules[j], textLower)
                            && FirstRuleFrom(rules, textLower, i) == Some(rules[j].0)
    decreases |rules| - i
  {
    if i == |rules| || RuleMatches(rules[i], textLower) {
      j := i;
    } else {
      j := FirstRuleFromSpec(rules, textLower, i + 1);
    }
  }

  /** The category is that of the first rule, in rule order, with a keyword in the
      lower-cased text; "Other" comes back when no rule matches or there are no rules.
      `j` is the rule that decides, or the number of rules when none does. */
  lemma {:induction false} CategoryIsFirstRule(rules: seq<Rule>, text: string) returns (j: nat)
    ensures CategoryOf(None, text) == Other
    ensures j <= |rules|
    ensures forall j' :: 0 <= j' < j ==> !ContainsAny(Lower(text), rules[j'].1)
    ensures j == |rules| ==> CategoryOf(Some(rules), text) == Other
    ensures j < |rules| ==> ContainsAny(Lower(text), rules[j].1)
                            && CategoryOf(Some(rules), text) == rules[j].0
  {
    j := FirstRuleFromSpec(rules, Lower(text), 0);
  }

  /** Keywords are compared with the lower-cased text as written: a keyword holding a
      capital letter never matches. */
  lemma {:induction false} CapitalKeywordNeverMatches(text: string, keyword: string, c: nat)
    requires c < |keyword| && IsUpper(keyword[c])
    ensures !Contains(Lower(text), keyword)
  {
    var t := Lower(text);
    ContainsIff(t, keyword);
    forall i: int ensures !OccursAt(t, keyword, i) {
      if 0 <= i && i + |keyword| <= |t| {
        assert t[i..i + |keyword|][c] == t[i + c] != keyword[c];
      }
    }
  }
}
