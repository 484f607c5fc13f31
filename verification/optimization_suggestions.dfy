/** The optimization suggestions panel: suggestions are split into three
    category groups by order-preserving filters and shown by severity. */
module OptimizationSuggestions {
  import opened Common

  /** `Suggestion.category`, listed from most to least severe. */
  datatype Category = Critical | Important | Recommendation

  datatype Suggestion = Suggestion(category: Category, text: string, rationale: string)

  /** Display position of a category: critical first, recommendations last. */
  function Severity(c: Category): nat
  {
    match c
    case Critical => 0
    case Important => 1
    case Recommendation => 2
  }

  /** The heading of a category's group. */
  function Title(c: Category): string
  {
    match c
    case Critical => "Critical Improvements"
    case Important => "Important Enhancements"
    case Recommendation => "Recommendations"
  }

  /** `a` can be obtained from `b` by deleting elements, so `a` keeps the
      relative order `b` gives its elements. */
  predicate IsSubsequence<T(==)>(a: seq<T>, b: seq<T>)
    decreases |b|
  {
    || |a| == 0
    || (&& |b| > 0
        && ((a[0] == b[0] && IsSubsequence(a[1..], b[1..])) || IsSubsequence(a, b[1..])))
  }

  /** `suggestions.filter(s => s.category === c)`: suggestions of category
      `c` only, and never more than the input holds. */
  function OfCategory(s: seq<Suggestion>, c: Category): (g: seq<Suggestion>)
    ensures forall i :: 0 <= i < |g| ==> g[i].category == c
    ensures |g| <= |s|
    decreases |s|
  {
    if |s| == 0 then []
    else if s[0].category == c then [s[0]] + OfCategory(s[1..], c)
    else OfCategory(s[1..], c)
  }

  /** The group keeps the relative input order of its suggestions. */
  lemma {:induction false} OfCategoryKeepsOrder(s: seq<Suggestion>, c: Category)
    ensures IsSubsequence(OfCategory(s, c), s)
    decreases |s|
  {
    if |s| > 0 {
      OfCategoryKeepsOrder(s[1..], c);
      if s[0].category == c {
        assert OfCategory(s, c)[1..] == OfCategory(s[1..], c);
      }
    }
  }

  /** The group of category `c` holds each suggestion of that category as
      often as the input does, and nothing else. */
  lemma {:induction false} OfCategoryCount(s: seq<Suggestion>, c: Category, x: Suggestion)
    ensures multiset(OfCategory(s, c))[x] == if x.category == c then multiset(s)[x] else 0
    decreases |s|
  {
    if |s| > 0 {
      var t := s[1..];
      OfCategoryCount(t, c, x);
      assert s == [s[0]] + t;
      if s[0].category == c {
        assert OfCategory(s, c) == [s[0]] + OfCategory(t, c);
      }
    }
  }

  /** A suggestion is in the group of `c` exactly when it is in the input
      and has category `c`. */
  lemma OfCategoryMembers(s: seq<Suggestion>, c: Category, x: Suggestion)
    ensures x in OfCategory(s, c) <==> x in s && x.category == c
  {
    OfCategoryCount(s, c, x);
    assert x in OfCategory(s, c) <==> multiset(OfCategory(s, c))[x] > 0;
    assert x in s <==> multiset(s)[x] > 0;
  }

  /** The three groups together hold every suggestion exactly once, as
      often as the input holds it, so their lengths sum to the input's. */
  lemma GroupsPartition(s: seq<Suggestion>)
    ensures multiset(OfCategory(s, Critical)) + multiset(OfCategory(s, Important))
      + multiset(OfCategory(s, Recommendation)) == multiset(s)
    ensures |OfCategory(s, Critical)| + |OfCategory(s, Important)| + |OfCategory(s, Recommendation)| == |s|
  {
    var a, b, d := multiset(OfCategory(s, Critical)), multiset(OfCategory(s, Important)), multiset(OfCategory(s, Recommendation));
    forall x
      ensures (a + b + d)[x] == multiset(s)[x]
    {
      OfCategoryCount(s, Critical, x);
      OfCategoryCount(s, Important, x);
      OfCategoryCount(s, Recommendation, x);
    }
    assert a + b + d == multiset(s);
    assert |a + b + d| == |a| + |b| + |d|;
  }

  /** A rendered group: its category (the badge), title and suggestions. */
  datatype Group = Group(category: Category, title: string, items: seq<Suggestion>)

  /** The group of one category, omitted when it is empty. */
  function GroupOf(s: seq<Suggestion>, c: Category): (gs: seq<Group>)
    ensures |gs| <= 1
    ensures |gs| == 1 ==> gs[0] == Group(c, Title(c), OfCategory(s, c)) && |OfCategory(s, c)| > 0
  {
    var g := OfCategory(s, c);
    if |g| > 0 then [Group(c, Title(c), g)] else []
  }

  /** The groups in display order: critical, important, recommendation, each
      present exactly when it has a suggestion. */
  function Grouped(s: seq<Suggestion>): (gs: seq<Group>)
    ensures forall i :: 0 <= i < |gs| ==>
      gs[i].items == OfCategory(s, gs[i].category) && |gs[i].items| > 0 && gs[i].title == Title(gs[i].category)
    ensures forall i, j :: 0 <= i < j < |gs| ==> Severity(gs[i].category) < Severity(gs[j].category)
  {
    var a, b, d := GroupOf(s, Critical), GroupOf(s, Important), GroupOf(s, Recommendation);
    var gs := a + b + d;
    assert forall i :: 0 <= i < |gs| ==>
      gs[i] == if i < |a| then a[0] else if i < |a| + |b| then b[0] else d[0];
    gs
  }

  /** Some group of `gs` has category `c`. */
  predicate Shows(gs: seq<Group>, c: Category)
  {
    exists i :: 0 <= i < |gs| && gs[i].category == c
  }

  lemma ShowsAppend(x: seq<Group>, y: seq<Group>, c: Category)
    ensures Shows(x + y, c) <==> Shows(x, c) || Shows(y, c)
  {
    if Shows(x + y, c) {
      var i :| 0 <= i < |x + y| && (x + y)[i].category == c;
      if i < |x| {
        assert x[i] == (x + y)[i];
      } else {
        assert y[i - |x|] == (x + y)[i];
      }
    }
    if Shows(x, c) {
      var i :| 0 <= i < |x| && x[i].category == c;
      assert (x + y)[i] == x[i];
    }
    if Shows(y, c) {
      var i :| 0 <= i < |y| && y[i].category == c;
      assert (x + y)[|x| + i] == y[i];
    }
  }

  lemma ShowsGroupOf(s: seq<Suggestion>, g: Category, c: Category)
    ensures Shows(GroupOf(s, g), c) <==> g == c && |OfCategory(s, c)| > 0
  {
    if g == c && |OfCategory(s, c)| > 0 {
      assert GroupOf(s, g)[0].category == c;
    }
  }

  /** A category's filter result is non-empty exactly when the input has a
      suggestion of that category. */
  lemma NonEmptyIffPresent(s: seq<Suggestion>, c: Category)
    ensures |OfCategory(s, c)| > 0 <==> exists x :: x in s && x.category == c
  {
    if |OfCategory(s, c)| > 0 {
      var x := OfCategory(s, c)[0];
      OfCategoryMembers(s, c, x);
    }
    if exists x :: x in s && x.category == c {
      var x :| x in s && x.category == c;
      OfCategoryMembers(s, c, x);
    }
  }

  /** A category's group is displayed exactly when the input has a
      suggestion of that category. */
  lemma GroupShownIffPresent(s: seq<Suggestion>, c: Category)
    ensures Shows(Grouped(s), c) <==> exists x :: x in s && x.category == c
  {
    var a, b, d := GroupOf(s, Critical), GroupOf(s, Important), GroupOf(s, Recommendation);
    ShowsAppend(a + b, d, c);
    ShowsAppend(a, b, c);
    ShowsGroupOf(s, Critical, c);
    ShowsGroupOf(s, Important, c);
    ShowsGroupOf(s, Recommendation, c);
    NonEmptyIffPresent(s, c);
  }

  /** The suggestions of the groups read top to bottom. */
  function Flatten(gs: seq<Group>): seq<Suggestion>
    decreases |gs|
  {
    if |gs| == 0 then [] else gs[0].items + Flatten(gs[1..])
  }

  /** Every suggestion's category is no more severe than the next one's. */
  predicate BySeverity(s: seq<Suggestion>)
  {
    forall i, j :: 0 <= i < j < |s| ==> Severity(s[i].category) <= Severity(s[j].category)
  }

  lemma FlattenAppend(a: seq<Group>, b: seq<Group>)
    ensures Flatten(a + b) == Flatten(a) + Flatten(b)
    decreases |a|
  {
    if |a| > 0 {
      assert (a + b)[0] == a[0];
      assert (a + b)[1..] == a[1..] + b;
      FlattenAppend(a[1..], b);
    } else {
      assert a + b == b;
    }
  }

  lemma FlattenGroupOf(s: seq<Suggestion>, c: Category)
    ensures Flatten(GroupOf(s, c)) == OfCategory(s, c)
  {
  }

  /** Three runs of critical, important and recommendation suggestions, in
      that order, are ordered by severity. */
  lemma RunsBySeverity(a: seq<Suggestion>, b: seq<Suggestion>, d: seq<Suggestion>)
    requires forall i :: 0 <= i < |a| ==> a[i].category == Critical
    requires forall i :: 0 <= i < |b| ==> b[i].category == Important
    requires forall i :: 0 <= i < |d| ==> d[i].category == Recommendation
    ensures BySeverity(a + b + d)
  {
  }

  /** The panel read top to bottom lists the critical, then the important,
      then the recommendation filter results. */
  lemma {:induction false} FlattenGrouped(s: seq<Suggestion>)
    ensures Flatten(Grouped(s)) == OfCategory(s, Critical) + OfCategory(s, Important) + OfCategory(s, Recommendation)
  {
    FlattenAppend(GroupOf(s, Critical) + GroupOf(s, Important), GroupOf(s, Recommendation));
    FlattenAppend(GroupOf(s, Critical), GroupOf(s, Important));
    FlattenGroupOf(s, Critical);
    FlattenGroupOf(s, Important);
    FlattenGroupOf(s, Recommendation);
  }

  lemma {:induction false} OfCategoryAppend(x: seq<Suggestion>, y: seq<Suggestion>, c: Category)
    ensures OfCategory(x + y, c) == OfCategory(x, c) + OfCategory(y, c)
    decreases |x|
  {
    if |x| == 0 {
      assert x + y == y;
    } else {
      assert (x + y)[1..] == x[1..] + y;
      OfCategoryAppend(x[1..], y, c);
    }
  }

  /** Filtering a list by the one category all its suggestions have keeps
      it whole; by any other category, empties it. */
  lemma {:induction false} OfCategoryUniform(x: seq<Suggestion>, k: Category, c: Category)
    requires forall i :: 0 <= i < |x| ==> x[i].category == k
    ensures OfCategory(x, c) == if k == c then x else []
    decreases |x|
  {
    if |x| > 0 {
      OfCategoryUniform(x[1..], k, c);
      assert x == [x[0]] + x[1..];
    }
  }

  /** Reading the panel top to bottom is a stable sort of the input by
      severity: the same suggestions, most severe first, and the
      suggestions of each category in the same order as in the input. */
  lemma {:induction false} DisplayIsStableSort(s: seq<Suggestion>)
    ensures multiset(Flatten(Grouped(s))) == multiset(s)
    ensures BySeverity(Flatten(Grouped(s)))
    ensures forall c :: OfCategory(Flatten(Grouped(s)), c) == OfCategory(s, c)
  {
    var a, b, d := OfCategory(s, Critical), OfCategory(s, Important), OfCategory(s, Recommendation);
    FlattenGrouped(s);
    GroupsPartition(s);
    RunsBySeverity(a, b, d);
    forall c
      ensures OfCategory(Flatten(Grouped(s)), c) == OfCategory(s, c)
    {
      OfCategoryAppend(a + b, d, c);
      OfCategoryAppend(a, b, c);
      OfCategoryUniform(a, Critical, c);
      OfCategoryUniform(b, Important, c);
      OfCategoryUniform(d, Recommendation, c);
      match c
      case Critical => assert a + [] + [] == a;
      case Important => assert [] + b + [] == b;
      case Recommendation => assert [] + [] + d == d;
    }
  }

  /** What the component renders. */
  datatype SuggestionsView = SuggestionsLoading | SuggestionsHidden | SuggestionsShown(groups: seq<Group>)

  /** The component: loading beats everything; a missing or empty list
      renders nothing; otherwise at least one group is shown. */
  function Render(suggestions: Option<seq<Suggestion>>, isLoading: bool): (v: SuggestionsView)
    ensures isLoading <==> v == SuggestionsLoading
    ensures v == SuggestionsHidden <==> !isLoading && (suggestions.None? || |suggestions.value| == 0)
    ensures v.SuggestionsShown? ==> suggestions.Some? && v.groups == Grouped(suggestions.value) && |v.groups| > 0
  {
    if isLoading then SuggestionsLoading
    else if suggestions.None? || |suggestions.value| == 0 then SuggestionsHidden
    else
      assert suggestions.value[0] in suggestions.value;
      SuggestionsShown(Grouped(suggestions.value))
  }
}
