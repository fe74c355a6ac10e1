/** The ordering and labelling of grocery categories
    (components/GroceryCategoryHeader.tsx). */
module GroceryCategories {
  import JsBuiltins

  /** The display order of the known categories. */
  const CategoryOrder: seq<string> := ["produce", "protein", "dairy", "drinks", "snacks", "alcohol", "other"]

  /** The rank of a category: its place in the display order, and one past
      the last place for a category that is not in it. */
  function GetCategoryOrder(category: string): (r: nat)
    ensures r <= |CategoryOrder|
    ensures r < |CategoryOrder| ==> CategoryOrder[r] == category
    ensures r == |CategoryOrder| <==> category !in CategoryOrder
  {
    var index := JsBuiltins.IndexOf(CategoryOrder, category);
    if index == -1 then |CategoryOrder| else index
  }

  /** No category is listed twice. */
  lemma OrderDistinct()
    ensures forall i, j :: 0 <= i < j < |CategoryOrder| ==> CategoryOrder[i] != CategoryOrder[j]
  {
    forall i, j | 0 <= i < j < |CategoryOrder|
      ensures CategoryOrder[i] != CategoryOrder[j]
    {
      if i == 0 && j == 1 {
        assert CategoryOrder[i][3] != CategoryOrder[j][3];
      } else if |CategoryOrder[i]| == |CategoryOrder[j]| {
        assert CategoryOrder[i][0] != CategoryOrder[j][0];
      }
    }
  }

  /** Each known category ranks at its place in the display order. */
  lemma RankIsPlace(k: nat)
    requires k < |CategoryOrder|
    ensures GetCategoryOrder(CategoryOrder[k]) == k
  {
    OrderDistinct();
  }

  /** Known categories rank from 0 (`produce`) to 6 (`other`). */
  lemma KnownRanks()
    ensures GetCategoryOrder("produce") == 0 && GetCategoryOrder("protein") == 1
    ensures GetCategoryOrder("dairy") == 2 && GetCategoryOrder("drinks") == 3
    ensures GetCategoryOrder("snacks") == 4 && GetCategoryOrder("alcohol") == 5
    ensures GetCategoryOrder("other") == 6
  {
    RankIsPlace(0);
    RankIsPlace(1);
    RankIsPlace(2);
    RankIsPlace(3);
    RankIsPlace(4);
    RankIsPlace(5);
    RankIsPlace(6);
  }

  /** Distinct known categories get distinct ranks; unknown categories all
      rank 7, after `other`, and tie with each other. */
  lemma RanksOrderCategories(a: string, b: string)
    ensures a in CategoryOrder && b in CategoryOrder && a != b ==> GetCategoryOrder(a) != GetCategoryOrder(b)
    ensures a !in CategoryOrder ==> GetCategoryOrder(a) == 7 > GetCategoryOrder("other")
    ensures a !in CategoryOrder && b !in CategoryOrder ==> GetCategoryOrder(a) == GetCategoryOrder(b)
  {
    RankIsPlace(6);
  }

  /** The look of a category header. */
  datatype CategoryConfig = CategoryConfig(caption: string, color: string)

  /** The configuration of each known category. */
  const Configs: map<string, CategoryConfig> := map[
    "produce" := CategoryConfig("Produce", "var(--accent-primary)"),
    "protein" := CategoryConfig("Protein", "var(--accent-warm)"),
    "dairy" := CategoryConfig("Dairy", "var(--accent-secondary)"),
    "drinks" := CategoryConfig("Drinks", "var(--accent-gold)"),
    "snacks" := CategoryConfig("Snacks", "var(--text-muted)"),
    "alcohol" := CategoryConfig("Alcohol", "var(--accent-gold)"),
    "other" := CategoryConfig("Other", "var(--text-muted)")
  ]

  /** The header configuration: the category's own, or `other`'s for a
      category without one. */
  function ConfigFor(category: string): (r: CategoryConfig)
    ensures category in Configs ==> r == Configs[category]
    ensures category !in Configs ==> r == CategoryConfig("Other", "var(--text-muted)")
  {
    if category in Configs then Configs[category] else Configs["other"]
  }

  /** The configured categories are exactly the ranked ones, so every known
      category has its own label and every unknown one is labelled `Other`. */
  lemma ConfigsMatchOrder(category: string)
    ensures category in Configs <==> category in CategoryOrder
    ensures category !in CategoryOrder ==> ConfigFor(category).caption == "Other"
  {
  }
}
