/**
 * The calculator list on the home page: the calculators in named groups, narrowed by the search
 * text to those whose name or description contains it, ignoring case. With a search, groups left
 * with no calculator are dropped; when none is left the page says "No calculators found".
 */
module CalculatorGroups {
  import opened Strings

  datatype Calculator = Calculator(name: string, description: string, href: string)

  datatype Group = Group(group: string, calculators: seq<Calculator>)

  /** Whether `a` is `b` with some items left out, the rest in their order. */
  predicate Subsequence<T(==)>(a: seq<T>, b: seq<T>)
    decreases |b|
  {
    |a| == 0 || (|b| > 0 && ((a[0] == b[0] && Subsequence(a[1..], b[1..])) || Subsequence(a, b[1..])))
  }

  /** The calculator's name or description contains the search text, both lowered. */
  predicate Matches(c: Calculator, search: string)
  {
    Contains(ToLower(c.name), ToLower(search)) || Contains(ToLower(c.description), ToLower(search))
  }

  /** The filter on a group's calculators: exactly the matching ones, in their order. */
  function FilterCalculators(calculators: seq<Calculator>, search: string): (r: seq<Calculator>)
    ensures Subsequence(r, calculators)
    ensures forall c :: c in r ==> c in calculators && Matches(c, search)
    ensures forall c :: c in calculators && Matches(c, search) ==> c in r
    ensures forall c :: multiset(r)[c] == if Matches(c, search) then multiset(calculators)[c] else 0
  {
    if |calculators| == 0 then []
    else
      assert calculators == [calculators[0]] + calculators[1..];
      var rest := FilterCalculators(calculators[1..], search);
      assert forall c :: c in calculators ==> c == calculators[0] || c in calculators[1..];
      if Matches(calculators[0], search) then
        assert ([calculators[0]] + rest)[1..] == rest;
        [calculators[0]] + rest
      else rest
  }

  /** The map step: each group with its calculators filtered. */
  function NarrowGroups(groups: seq<Group>, search: string): (r: seq<Group>)
    ensures |r| == |groups|
    ensures forall i :: 0 <= i < |groups| ==>
      r[i].group == groups[i].group && r[i].calculators == FilterCalculators(groups[i].calculators, search)
  {
    seq(|groups|, i requires 0 <= i < |groups| =>
      groups[i].(calculators := FilterCalculators(groups[i].calculators, search)))
  }

  /** Whether a narrowed group is shown: it has a calculator left, or there is no search. */
  predicate Shown(g: Group, search: string)
  {
    |g.calculators| > 0 || search == ""
  }

  /** The filter step on groups: exactly the shown ones, in their order. */
  function KeepGroups(groups: seq<Group>, search: string): (r: seq<Group>)
    ensures Subsequence(r, groups)
    ensures forall g :: g in r ==> g in groups && Shown(g, search)
    ensures forall g :: g in groups && Shown(g, search) ==> g in r
    ensures forall g :: multiset(r)[g] == if Shown(g, search) then multiset(groups)[g] else 0
  {
    if |groups| == 0 then []
    else
      assert groups == [groups[0]] + groups[1..];
      var rest := KeepGroups(groups[1..], search);
      assert forall g :: g in groups ==> g == groups[0] || g in groups[1..];
      if Shown(groups[0], search) then
        assert ([groups[0]] + rest)[1..] == rest;
        [groups[0]] + rest
      else rest
  }

  /** filteredGroups: the groups with their calculators filtered, then the groups to show. */
  function FilteredGroups(groups: seq<Group>, search: string): (r: seq<Group>)
    ensures forall g :: g in r ==> Shown(g, search)
    ensures forall g, c :: g in r && c in g.calculators ==> Matches(c, search)
  {
    var narrowed := NarrowGroups(groups, search);
    var kept := KeepGroups(narrowed, search);
    assert forall g :: g in kept ==> g in narrowed;
    kept
  }

  /** "No calculators found" is shown when no group is left and the search is not empty. */
  predicate NothingFound(groups: seq<Group>, search: string)
  {
    |FilteredGroups(groups, search)| == 0 && search != ""
  }

  /** Every text contains the empty text. */
  lemma ContainsEmpty(s: string)
    ensures Contains(s, "")
  {
    assert "" <= s[0..];
  }

  /** Every calculator matches the empty search. */
  lemma EverythingMatchesEmpty(c: Calculator)
    ensures Matches(c, "")
  {
    ContainsEmpty(ToLower(c.name));
  }

  lemma {:induction false} FilterEmptySearch(calculators: seq<Calculator>)
    ensures FilterCalculators(calculators, "") == calculators
  {
    if |calculators| > 0 {
      EverythingMatchesEmpty(calculators[0]);
      FilterEmptySearch(calculators[1..]);
    }
  }

  lemma {:induction false} KeepEmptySearch(groups: seq<Group>)
    ensures KeepGroups(groups, "") == groups
  {
    if |groups| > 0 {
      KeepEmptySearch(groups[1..]);
    }
  }

  /** An empty search keeps every group and every calculator, in their order. */
  lemma EmptySearchKeepsAll(groups: seq<Group>)
    ensures FilteredGroups(groups, "") == groups
  {
    forall i | 0 <= i < |groups|
      ensures NarrowGroups(groups, "")[i] == groups[i]
    {
      FilterEmptySearch(groups[i].calculators);
    }
    assert NarrowGroups(groups, "") == groups;
    KeepEmptySearch(groups);
  }

  /**
   * The groups shown are input groups in their order, each with a subsequence of its calculators,
   * and every calculator shown matches the search.
   */
  lemma FilterPreservesOrder(groups: seq<Group>, search: string)
    ensures Subsequence(FilteredGroups(groups, search), NarrowGroups(groups, search))
    ensures forall i :: 0 <= i < |groups| ==>
      Subsequence(NarrowGroups(groups, search)[i].calculators, groups[i].calculators)
    ensures forall g, c :: g in FilteredGroups(groups, search) && c in g.calculators ==> Matches(c, search)
  {
    forall g, c | g in FilteredGroups(groups, search) && c in g.calculators
      ensures Matches(c, search)
    {
      assert g in NarrowGroups(groups, search);
    }
  }

  /** With a search, no group shown is empty. */
  lemma SearchDropsEmptyGroups(groups: seq<Group>, search: string)
    requires search != ""
    ensures forall g :: g in FilteredGroups(groups, search) ==> |g.calculators| > 0
  {
  }

  /** Every calculator that matches is shown, in a group of the same name. */
  lemma MatchesAreShown(groups: seq<Group>, search: string, i: int, c: Calculator)
    requires 0 <= i < |groups| && c in groups[i].calculators && Matches(c, search)
    ensures exists g :: g in FilteredGroups(groups, search) && g.group == groups[i].group && c in g.calculators
  {
    var g := NarrowGroups(groups, search)[i];
    assert g in NarrowGroups(groups, search);
    assert g in FilteredGroups(groups, search);
  }

  /**
   * "No calculators found" appears exactly when there is a search and no calculator in any group
   * matches it.
   */
  lemma NothingFoundIffNoMatch(groups: seq<Group>, search: string)
    ensures NothingFound(groups, search) <==>
      search != "" && forall i, c :: 0 <= i < |groups| && c in groups[i].calculators ==> !Matches(c, search)
  {
    if search != "" {
      if |FilteredGroups(groups, search)| == 0 {
        forall i, c | 0 <= i < |groups| && c in groups[i].calculators
          ensures !Matches(c, search)
        {
          if Matches(c, search) {
            MatchesAreShown(groups, search, i, c);
          }
        }
      } else {
        var g := FilteredGroups(groups, search)[0];
        assert g in FilteredGroups(groups, search);
        var n := NarrowGroups(groups, search);
        assert g in n;
        var i :| 0 <= i < |n| && n[i] == g;
        var c := g.calculators[0];
        assert c in g.calculators;
        assert c in groups[i].calculators && Matches(c, search);
      }
    }
  }
}
