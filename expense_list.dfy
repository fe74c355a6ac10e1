/** groupByCategory (components/ExpenseList.tsx): the expense list groups
    expenses by category, the known categories first in a fixed order, then
    any other category in order of first appearance. */
module ExpenseList {
  import opened OrderedMaps
  import JsBuiltins

  /** An expense as the list sees it; only its category matters here. */
  datatype Expense = Expense(id: string, title: string, category: string)

  /** The display order of the known categories. */
  const CategoryOrder: seq<string> := ["lodging", "food", "alcohol", "transport", "activities", "general"]

  /** The group an expense goes in: its category, `general` when it has none. */
  function CategoryOf(e: Expense): string
  {
    JsBuiltins.OrElse(e.category, "general")
  }

  /** The category of each expense, in input order. */
  function Categories(es: seq<Expense>): (r: seq<string>)
    ensures |r| == |es|
  {
    if es == [] then [] else Categories(es[..|es| - 1]) + [CategoryOf(es[|es| - 1])]
  }

  /** The expenses of category `c`, in input order. */
  function InCategory(es: seq<Expense>, c: string): seq<Expense>
  {
    if es == [] then []
    else InCategory(es[..|es| - 1], c) + (if CategoryOf(es[|es| - 1]) == c then [es[|es| - 1]] else [])
  }

  /** The entries of `order` that occur in `present`, in the order of `order`. */
  function KnownPresent(order: seq<string>, present: seq<string>): seq<string>
  {
    if order == [] then []
    else KnownPresent(order[..|order| - 1], present)
           + (if order[|order| - 1] in present then [order[|order| - 1]] else [])
  }

  /** The entries of `ks` that are not known categories, in order. */
  function Unknown(ks: seq<string>): seq<string>
  {
    if ks == [] then []
    else Unknown(ks[..|ks| - 1]) + (if ks[|ks| - 1] in CategoryOrder then [] else [ks[|ks| - 1]])
  }

  /** The known categories placed are exactly those of `order` that occur. */
  lemma {:induction false} KnownPresentMembers(order: seq<string>, present: seq<string>)
    ensures forall x :: x in KnownPresent(order, present) <==> x in order && x in present
  {
    if order != [] {
      var init := order[..|order| - 1];
      KnownPresentMembers(init, present);
      assert order == init + [order[|order| - 1]];
    }
  }

  /** The categories appended are exactly the entries of `ks` outside the
      fixed order. */
  lemma {:induction false} UnknownMembers(ks: seq<string>)
    ensures forall x :: x in Unknown(ks) <==> x in ks && x !in CategoryOrder
  {
    if ks != [] {
      var init := ks[..|ks| - 1];
      UnknownMembers(init);
      assert ks == init + [ks[|ks| - 1]];
    }
  }

  /** The order the groups are shown in, for the categories `cats` of the
      expenses: known categories that occur, in the fixed order, then the
      others in order of first appearance. */
  function GroupOrder(cats: seq<string>): seq<string>
  {
    KnownPresent(CategoryOrder, Dedup(cats)) + Unknown(Dedup(cats))
  }

  // ------------------------------------------------------------ one step of each loop

  lemma CategoriesStep(es: seq<Expense>, i: nat)
    requires i < |es|
    ensures Categories(es[..i + 1]) == Categories(es[..i]) + [CategoryOf(es[i])]
  {
    assert es[..i + 1][..i] == es[..i];
  }

  lemma InCategoryStep(es: seq<Expense>, i: nat, c: string)
    requires i < |es|
    ensures InCategory(es[..i + 1], c) == InCategory(es[..i], c) + (if CategoryOf(es[i]) == c then [es[i]] else [])
  {
    assert es[..i + 1][..i] == es[..i];
  }

  /** A category that no expense has has no expenses. */
  lemma {:induction false} AbsentCategoryIsEmpty(es: seq<Expense>, c: string)
    requires c !in Categories(es)
    ensures InCategory(es, c) == []
  {
    if es != [] {
      AbsentCategoryIsEmpty(es[..|es| - 1], c);
    }
  }

  lemma KnownPresentStep(k: nat, present: seq<string>)
    requires k < |CategoryOrder|
    ensures KnownPresent(CategoryOrder[..k + 1], present)
         == KnownPresent(CategoryOrder[..k], present)
            + (if CategoryOrder[k] in present then [CategoryOrder[k]] else [])
    ensures CategoryOrder[k] !in KnownPresent(CategoryOrder[..k], present)
  {
    KnownPresentMembers(CategoryOrder[..k], present);
    assert CategoryOrder[..k + 1][..k] == CategoryOrder[..k];
  }

  /** Placing a key that is not a known category extends the unknown part. */
  lemma UnknownStep(ks: seq<string>, known: seq<string>, placed: seq<string>, m: nat)
    requires m < |ks| && placed == known + Unknown(ks[..m])
    ensures (if ks[m] in CategoryOrder then placed else placed + [ks[m]]) == known + Unknown(ks[..m + 1])
  {
    assert ks[..m + 1][..m] == ks[..m];
    var u := Unknown(ks[..m]);
    assert Unknown(ks[..m + 1]) == u + (if ks[m] in CategoryOrder then [] else [ks[m]]);
    if ks[m] !in CategoryOrder {
      assert known + u + [ks[m]] == known + (u + [ks[m]]);
    } else {
      assert u + [] == u;
    }
  }

  /** A key of the first-appearance order is already placed exactly when it
      is a known category. */
  lemma PlacedIffKnown(ks: seq<string>, known: seq<string>, placed: seq<string>, m: nat)
    requires Distinct(ks) && m < |ks|
    requires known == KnownPresent(CategoryOrder, ks) && placed == known + Unknown(ks[..m])
    ensures ks[m] in placed <==> ks[m] in CategoryOrder
  {
    KnownPresentMembers(CategoryOrder, ks);
    UnknownMembers(ks[..m]);
  }

  // ------------------------------------------------------------ the method

  /** Opening an empty group for a category that has no expenses yet keeps
      every group equal to its category's expenses. */
  lemma OpenGroup(groups: map<string, seq<Expense>>, es: seq<Expense>, category: string)
    requires forall c :: c in groups ==> groups[c] == InCategory(es, c)
    requires InCategory(es, category) == []
    ensures forall c :: c in groups[category := []] ==> groups[category := []][c] == InCategory(es, c)
  {
  }

  /** Pushing expense `i` onto its category's group extends the grouping of
      the first `i` expenses to the first `i + 1`. */
  lemma PushToGroup(groups: map<string, seq<Expense>>, es: seq<Expense>, i: nat)
    requires i < |es| && CategoryOf(es[i]) in groups
    requires forall c :: c in groups ==> groups[c] == InCategory(es[..i], c)
    ensures var pushed := groups[CategoryOf(es[i]) := groups[CategoryOf(es[i])] + [es[i]]];
      forall c :: c in pushed ==> pushed[c] == InCategory(es[..i + 1], c)
  {
    var pushed := groups[CategoryOf(es[i]) := groups[CategoryOf(es[i])] + [es[i]]];
    forall c | c in pushed
      ensures pushed[c] == InCategory(es[..i + 1], c)
    {
      InCategoryStep(es, i, c);
    }
  }

  /** One pass of the first loop: open the expense's group if needed, then
      push the expense onto it. */
  method AddToGroup(groups: OrderedMap<string, seq<Expense>>, expenses: seq<Expense>, i: nat)
    returns (next: OrderedMap<string, seq<Expense>>)
    requires i < |expenses|
    requires groups.Valid() && groups.keys == Dedup(Categories(expenses[..i]))
    requires forall c :: c in groups.values ==> groups.values[c] == InCategory(expenses[..i], c)
    ensures next.Valid() && next.keys == Dedup(Categories(expenses[..i + 1]))
    ensures forall c :: c in next.values ==> next.values[c] == InCategory(expenses[..i + 1], c)
  {
    var category := CategoryOf(expenses[i]);
    CategoriesStep(expenses, i);
    SetFollowsDedup(groups, Categories(expenses[..i]), category, []);
    next := groups;
    if !next.Has(category) {
      AbsentCategoryIsEmpty(expenses[..i], category);
      OpenGroup(groups.values, expenses[..i], category);
      next := next.Set(category, []);
    } else {
      DedupSnoc(Categories(expenses[..i]), category);
    }
    PushToGroup(next.values, expenses, i);
    next := next.Set(category, next.values[category] + [expenses[i]]);
  }

  /** Collect the expenses of each category, in input order, keyed in order
      of first appearance. */
  method CollectGroups(expenses: seq<Expense>) returns (groups: OrderedMap<string, seq<Expense>>)
    ensures groups.Valid() && groups.keys == Dedup(Categories(expenses))
    ensures forall c :: c in groups.values ==> groups.values[c] == InCategory(expenses, c)
  {
    groups := Empty();
    for i := 0 to |expenses|
      invariant groups.Valid() && groups.keys == Dedup(Categories(expenses[..i]))
      invariant forall c :: c in groups.values ==> groups.values[c] == InCategory(expenses[..i], c)
    {
      groups := AddToGroup(groups, expenses, i);
    }
    assert expenses[..|expenses|] == expenses;
  }

  /** The known categories that have a group, in the fixed order, each with
      its group. */
  method KnownGroups(groups: OrderedMap<string, seq<Expense>>) returns (sorted: OrderedMap<string, seq<Expense>>)
    requires groups.Valid()
    ensures sorted.Valid() && sorted.keys == KnownPresent(CategoryOrder, groups.keys)
    ensures forall c :: c in sorted.values ==> c in groups.values && sorted.values[c] == groups.values[c]
  {
    sorted := Empty();
    for k := 0 to |CategoryOrder|
      invariant sorted.Valid() && sorted.keys == KnownPresent(CategoryOrder[..k], groups.keys)
      invariant forall c :: c in sorted.values ==> c in groups.values && sorted.values[c] == groups.values[c]
    {
      var category := CategoryOrder[k];
      KnownPresentStep(k, groups.keys);
      if groups.Has(category) {
        sorted := sorted.Set(category, groups.values[category]);
      }
    }
    assert CategoryOrder[..|CategoryOrder|] == CategoryOrder;
  }

  /** One pass of the second loop: a group not placed yet goes last. */
  method PlaceGroup(groups: OrderedMap<string, seq<Expense>>, known: OrderedMap<string, seq<Expense>>,
                    sorted: OrderedMap<string, seq<Expense>>, m: nat)
    returns (next: OrderedMap<string, seq<Expense>>)
    requires groups.Valid() && known.keys == KnownPresent(CategoryOrder, groups.keys) && m < |groups.keys|
    requires sorted.Valid() && sorted.keys == known.keys + Unknown(groups.keys[..m])
    requires forall c :: c in sorted.values ==> c in groups.values && sorted.values[c] == groups.values[c]
    ensures next.Valid() && next.keys == known.keys + Unknown(groups.keys[..m + 1])
    ensures forall c :: c in next.values ==> c in groups.values && next.values[c] == groups.values[c]
  {
    var category := groups.keys[m];
    UnknownStep(groups.keys, known.keys, sorted.keys, m);
    PlacedIffKnown(groups.keys, known.keys, sorted.keys, m);
    next := sorted;
    if !sorted.Has(category) {
      next := sorted.Set(category, groups.values[category]);
    }
  }

  /** The groups not placed yet, appended in their own order. */
  method AppendUnknownGroups(groups: OrderedMap<string, seq<Expense>>, known: OrderedMap<string, seq<Expense>>)
    returns (sorted: OrderedMap<string, seq<Expense>>)
    requires groups.Valid() && known.Valid() && known.keys == KnownPresent(CategoryOrder, groups.keys)
    requires forall c :: c in known.values ==> c in groups.values && known.values[c] == groups.values[c]
    ensures sorted.Valid() && sorted.keys == known.keys + Unknown(groups.keys)
    ensures forall c :: c in sorted.values ==> c in groups.values && sorted.values[c] == groups.values[c]
  {
    sorted := known;
    for m := 0 to |groups.keys|
      invariant sorted.Valid() && sorted.keys == known.keys + Unknown(groups.keys[..m])
      invariant forall c :: c in sorted.values ==> c in groups.values && sorted.values[c] == groups.values[c]
    {
      sorted := PlaceGroup(groups, known, sorted, m);
    }
    assert groups.keys[..|groups.keys|] == groups.keys;
  }

  /** groupByCategory: the groups of the expenses, known categories first in
      the fixed order, then the other categories in order of first
      appearance; each group holds exactly the expenses of its category, in
      input order. */
  method GroupByCategory(expenses: seq<Expense>) returns (sorted: OrderedMap<string, seq<Expense>>)
    ensures sorted.Valid()
    ensures sorted.keys == GroupOrder(Categories(expenses))
    ensures forall c :: c in sorted.values <==> c in Categories(expenses)
    ensures forall c :: c in sorted.values ==> sorted.values[c] == InCategory(expenses, c)
  {
    var groups := CollectGroups(expenses);
    var known := KnownGroups(groups);
    sorted := AppendUnknownGroups(groups, known);
    KnownPresentMembers(CategoryOrder, groups.keys);
    UnknownMembers(groups.keys);
  }

  // ------------------------------------------------------------ properties

  /** A category has an empty group exactly when no expense has it: no group
      of the result is empty. */
  lemma {:induction false} EmptyGroupIffAbsent(es: seq<Expense>, c: string)
    ensures InCategory(es, c) == [] <==> c !in Categories(es)
  {
    if es != [] {
      EmptyGroupIffAbsent(es[..|es| - 1], c);
    }
  }

  /** A group holds expenses of its category only, each taken from the input;
      so an expense lies in the group of its own category and in no other. */
  lemma {:induction false} GroupMembers(es: seq<Expense>, c: string)
    ensures forall e :: e in InCategory(es, c) ==> e in es && CategoryOf(e) == c
    ensures forall e :: e in es && CategoryOf(e) == c ==> e in InCategory(es, c)
  {
    if es != [] {
      var init := es[..|es| - 1];
      GroupMembers(init, c);
      assert es == init + [es[|es| - 1]];
    }
  }

  /** The groups listed one after the other, as the list renders them. */
  function Concat(keys: seq<string>, groups: map<string, seq<Expense>>): seq<Expense>
    requires forall k :: k in keys ==> k in groups
  {
    if keys == [] then [] else groups[keys[0]] + Concat(keys[1..], groups)
  }

  /** The groups of `keys`, each the expenses of its category, one after
      the other. */
  function ConcatGroups(keys: seq<string>, es: seq<Expense>): seq<Expense>
  {
    if keys == [] then [] else InCategory(es, keys[0]) + ConcatGroups(keys[1..], es)
  }

  lemma {:induction false} ConcatMatches(keys: seq<string>, groups: map<string, seq<Expense>>, es: seq<Expense>)
    requires forall k :: k in keys ==> k in groups && groups[k] == InCategory(es, k)
    ensures Concat(keys, groups) == ConcatGroups(keys, es)
  {
    if keys != [] {
      ConcatMatches(keys[1..], groups, es);
    }
  }

  lemma {:induction false} ConcatGroupsSnoc(keys: seq<string>, es: seq<Expense>, e: Expense)
    requires Distinct(keys)
    ensures multiset(ConcatGroups(keys, es + [e]))
         == multiset(ConcatGroups(keys, es)) + (if CategoryOf(e) in keys then multiset{e} else multiset{})
  {
    if keys != [] {
      assert (es + [e])[..|es|] == es;
      assert Distinct(keys[1..]);
      ConcatGroupsSnoc(keys[1..], es, e);
    }
  }

  lemma {:induction false} ConcatGroupsOfNothing(keys: seq<string>)
    ensures ConcatGroups(keys, []) == []
  {
    if keys != [] {
      ConcatGroupsOfNothing(keys[1..]);
    }
  }

  /** Listing, in any order without repeats, the groups of categories that
      cover every category of the input gives back the input, rearranged:
      each expense appears exactly once. */
  lemma {:induction false} ConcatIsPermutation(keys: seq<string>, es: seq<Expense>)
    requires Distinct(keys) && forall c :: c in Categories(es) ==> c in keys
    ensures multiset(ConcatGroups(keys, es)) == multiset(es)
  {
    if es == [] {
      ConcatGroupsOfNothing(keys);
    } else {
      var init, e := es[..|es| - 1], es[|es| - 1];
      assert es == init + [e];
      ConcatIsPermutation(keys, init);
      ConcatGroupsSnoc(keys, init, e);
    }
  }

  /** The rendered list of groupByCategory shows every expense exactly once. */
  lemma GroupedIsPermutation(expenses: seq<Expense>, sorted: OrderedMap<string, seq<Expense>>)
    requires sorted.Valid()
    requires forall c :: c in sorted.values <==> c in Categories(expenses)
    requires forall c :: c in sorted.values ==> sorted.values[c] == InCategory(expenses, c)
    ensures multiset(Concat(sorted.keys, sorted.values)) == multiset(expenses)
  {
    ConcatMatches(sorted.keys, sorted.values, expenses);
    ConcatIsPermutation(sorted.keys, expenses);
  }
}
