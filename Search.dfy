/**
 * `re.search`: try a matcher at every start position from left to right and keep the
 * first hit. Each regular expression of the source is a hand-written matcher
 * `m(s, i)` that says whether (and with what groups) the expression matches at `i`.
 */
module Search {
  import opened Wrappers
  import opened Text

  /** The hit at the first start position `j` in `i..|s|` at which `m` matches. */
  function FirstMatch<T>(s: string, i: nat, m: (string, nat) -> Option<T>): Option<T>
    requires i <= |s|
    decreases |s| - i
  {
    if m(s, i).Some? then m(s, i)
    else if i == |s| then None
    else FirstMatch(s, i + 1, m)
  }

  /** The search fails exactly when no start position matches, and a hit is the one
      at the earliest matching position. */
  lemma {:induction false} FirstMatchSpec<T>(s: string, i: nat, m: (string, nat) -> Option<T>)
    requires i <= |s|
    ensures FirstMatch(s, i, m).None? <==> forall j :: i <= j <= |s| ==> m(s, j).None?
    ensures FirstMatch(s, i, m).Some? ==>
              exists j :: i <= j <= |s| && m(s, j) == FirstMatch(s, i, m)
                && forall k :: i <= k < j ==> m(s, k).None?
    decreases |s| - i
  {
    if m(s, i).None? && i < |s| {
      FirstMatchSpec(s, i + 1, m);
      if FirstMatch(s, i, m).Some? {
        var j :| i + 1 <= j <= |s| && m(s, j) == FirstMatch(s, i + 1, m)
                 && forall k :: i + 1 <= k < j ==> m(s, k).None?;
        assert forall k :: i <= k < j ==> m(s, k).None?;
      }
    }
  }

  /** `\b` before position `i` when `s[i]` is a word character: the character before
      is not one. */
  predicate WordStart(s: string, i: nat) {
    i < |s| && IsWordChar(s[i]) && (i == 0 || !IsWordChar(s[i - 1]))
  }

  /** `\b` at position `q` right after a word character. */
  predicate WordEnd(s: string, q: nat) {
    q == |s| || (q < |s| && !IsWordChar(s[q]))
  }

  /**
   * `\d{lo,hi}` at `p` when what follows it in the expression can never match a
   * digit (a separator, a space, a comma, `\b` or the end): greedy matching and
   * backtracking then succeed only with the whole run of digits, so the run must
   * have between `lo` and `hi` digits. The result is where the field ends.
   */
  function DigitField(s: string, p: nat, lo: nat, hi: nat): (r: Option<nat>)
    requires 1 <= lo <= hi
    ensures r.Some? <==> lo <= Run(s, p, IsDigit) <= hi
    ensures r.Some? ==> p + lo <= r.value <= p + hi && r.value <= |s|
    ensures r.Some? ==> forall k :: p <= k < r.value ==> IsDigit(s[k])
    ensures r.Some? ==> r.value == |s| || !IsDigit(s[r.value])
  {
    var n := Run(s, p, IsDigit);
    if lo <= n <= hi then Some(p + n) else None
  }

  /** The hit at `j` is the search result when no earlier start position matches. */
  lemma {:induction false} FirstMatchAt<T>(s: string, i: nat, j: nat, m: (string, nat) -> Option<T>)
    requires i <= j <= |s| && m(s, j).Some?
    requires forall k :: i <= k < j ==> m(s, k).None?
    ensures FirstMatch(s, i, m) == m(s, j)
    decreases j - i
  {
    if i < j {
      FirstMatchAt(s, i + 1, j, m);
    }
  }
}
