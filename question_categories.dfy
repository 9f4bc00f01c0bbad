/**
 * The question categories (config/question_categories.py): the category table,
 * the active categories sorted by their order index, and the lookup and
 * role-compatibility check.
 */
module QuestionCategories {
  import opened Wrappers
  import opened Tables
  import RolesConfig

  /** An entry of `QUESTION_CATEGORIES`. */
  datatype CategoryConfig = CategoryConfig(name: string, description: string, orderIndex: int, isActive: bool)

  /** The `(code, name, description)` triple `get_active_question_categories` lists. */
  datatype CategoryEntry = CategoryEntry(code: string, name: string, description: string)

  const QuestionCategoryTable: seq<(string, CategoryConfig)> := [
    ("professional_experience", CategoryConfig(
      "Mesleki Deneyim Soruları",
      "Adayın geçmiş deneyimlerine, projelerine, ekip içi görevlerine ve sektördeki aktifliğine dair sorular.",
      1, true)),
    ("theoretical_knowledge", CategoryConfig(
      "Teorik Bilgi Soruları",
      "Pozisyonla ilgili kavramlar, protokoller, standartlar, mimariler veya güvenlik yaklaşımları gibi teorik konularda bilgi ölçen sorular.",
      2, true)),
    ("practical_application", CategoryConfig(
      "Pratik Uygulama Soruları",
      "Gerçek dünya senaryolarında çözüm üretmeyi gerektiren, uygulama temelli sorular. Problem durumu, vaka analizi veya sistem yapılandırma senaryosu içerebilir.",
      3, true))
  ]

  type Item = (string, CategoryConfig)

  /** The entries whose `is_active` is set, in table order. */
  function ActiveItems(table: seq<Item>): (r: seq<Item>)
    ensures forall i :: 0 <= i < |r| ==> r[i].1.isActive
    ensures multiset(r) <= multiset(table)
    ensures forall x :: x in table && x.1.isActive ==> x in r
  {
    if |table| == 0 then []
    else
      var rest := ActiveItems(table[..|table| - 1]);
      assert table == table[..|table| - 1] + [table[|table| - 1]];
      if table[|table| - 1].1.isActive then rest + [table[|table| - 1]] else rest
  }

  predicate SortedByOrder(s: seq<Item>) {
    forall i, j :: 0 <= i < j < |s| ==> s[i].1.orderIndex <= s[j].1.orderIndex
  }

  /** Places `x` after every element whose order index is not larger: the step of a stable sort. */
  function InsertByOrder(s: seq<Item>, x: Item): (r: seq<Item>)
    requires SortedByOrder(s)
    ensures SortedByOrder(r)
    ensures multiset(r) == multiset(s) + multiset{x}
  {
    if |s| == 0 then [x]
    else if s[|s| - 1].1.orderIndex <= x.1.orderIndex then s + [x]
    else
      var init := InsertByOrder(s[..|s| - 1], x);
      assert s == s[..|s| - 1] + [s[|s| - 1]];
      forall i | 0 <= i < |init| ensures init[i].1.orderIndex <= s[|s| - 1].1.orderIndex {
        assert init[i] in multiset(s[..|s| - 1]) + multiset{x};
        if init[i] != x {
          assert init[i] in s[..|s| - 1];
        }
      }
      init + [s[|s| - 1]]
  }

  /** `sorted(items, key=order_index)`: an insertion sort, which like Python's `sorted` is stable. */
  function SortByOrder(s: seq<Item>): (r: seq<Item>)
    ensures SortedByOrder(r)
    ensures multiset(r) == multiset(s)
  {
    if |s| == 0 then []
    else
      assert s == s[..|s| - 1] + [s[|s| - 1]];
      InsertByOrder(SortByOrder(s[..|s| - 1]), s[|s| - 1])
  }

  function Entry(x: Item): CategoryEntry {
    CategoryEntry(x.0, x.1.name, x.1.description)
  }

  /**
   * `get_active_question_categories` over a table: the active entries as
   * triples, ascending by order index. (The source looks the index up by code;
   * with distinct codes that is the entry's own index.)
   */
  function ActiveCategories(table: seq<Item>): (r: seq<CategoryEntry>)
  {
    var sorted := SortByOrder(ActiveItems(table));
    seq(|sorted|, i requires 0 <= i < |sorted| => Entry(sorted[i]))
  }

  /**
   * The active categories are exactly the active entries, each once per
   * occurrence, listed by non-decreasing order index.
   */
  lemma ActiveCategoriesAreSortedActiveEntries(table: seq<Item>)
    ensures var sorted := SortByOrder(ActiveItems(table));
            ActiveCategories(table) == seq(|sorted|, i requires 0 <= i < |sorted| => Entry(sorted[i]))
            && SortedByOrder(sorted)
            && (forall x :: x in sorted <==> x in table && x.1.isActive)
  {
    var sorted := SortByOrder(ActiveItems(table));
    forall x | x in sorted ensures x in table && x.1.isActive {
      assert x in multiset(sorted);
      assert x in multiset(ActiveItems(table));
    }
    forall x | x in table && x.1.isActive ensures x in sorted {
      assert x in multiset(ActiveItems(table));
      assert x in multiset(sorted);
    }
  }

  /** `get_active_question_categories()`. */
  function GetActiveQuestionCategories(): seq<CategoryEntry>
  {
    ActiveCategories(QuestionCategoryTable)
  }

  /** A table whose entries are all active keeps all of them, in order. */
  lemma {:induction false} AllActiveKept(table: seq<Item>)
    requires forall i :: 0 <= i < |table| ==> table[i].1.isActive
    ensures ActiveItems(table) == table
  {
    if |table| > 0 {
      AllActiveKept(table[..|table| - 1]);
      assert table == table[..|table| - 1] + [table[|table| - 1]];
    }
  }

  /** Sorting a list already in order changes nothing. */
  lemma {:induction false} SortKeepsSorted(s: seq<Item>)
    requires SortedByOrder(s)
    ensures SortByOrder(s) == s
  {
    if |s| > 0 {
      SortKeepsSorted(s[..|s| - 1]);
      assert s == s[..|s| - 1] + [s[|s| - 1]];
    }
  }

  /** The table lists its categories with order indexes 1, 2, 3, all active. */
  lemma TableOrderIndexes(i: int)
    requires 0 <= i < |QuestionCategoryTable|
    ensures QuestionCategoryTable[i].1.isActive
    ensures QuestionCategoryTable[i].1.orderIndex == i + 1
  {
  }

  /** A table that is already in order and all active lists every entry. */
  lemma ActiveInOrderTable(t: seq<Item>)
    requires forall i :: 0 <= i < |t| ==> t[i].1.isActive && t[i].1.orderIndex == i + 1
    ensures ActiveCategories(t) == seq(|t|, i requires 0 <= i < |t| => Entry(t[i]))
  {
    AllActiveKept(t);
    SortKeepsSorted(t);
  }

  /** All three categories are active, and the table is already in order. */
  lemma ActiveCategoriesInTableOrder()
    ensures GetActiveQuestionCategories() == seq(3, i requires 0 <= i < 3 => Entry(QuestionCategoryTable[i]))
  {
    forall i | 0 <= i < |QuestionCategoryTable|
      ensures QuestionCategoryTable[i].1.isActive && QuestionCategoryTable[i].1.orderIndex == i + 1
    {
      TableOrderIndexes(i);
    }
    ActiveInOrderTable(QuestionCategoryTable);
  }

  /** `get_category_config`: the table entry, or `None` for the `KeyError` of an unknown code. */
  function GetCategoryConfig(code: string): (r: Option<CategoryConfig>)
    ensures r.Some? <==> code in Codes(QuestionCategoryTable)
    ensures r.Some? ==> (code, r.value) in QuestionCategoryTable
  {
    Lookup(QuestionCategoryTable, code)
  }

  /**
   * `validate_category_for_role`: the category is listed for the role; an
   * unknown role gives false rather than an error.
   */
  function ValidateCategoryForRole(roleCode: string, categoryCode: string): (r: bool)
    ensures r ==> RolesConfig.GetRoleConfig(roleCode).Some?
  {
    match RolesConfig.GetRoleConfig(roleCode)
    case None => false
    case Some(cfg) => categoryCode in cfg.categories
  }

  /** For a known role, exactly the table's three categories are valid. */
  lemma ValidCategoriesAreTheTable(roleCode: string, categoryCode: string)
    requires RolesConfig.GetRoleConfig(roleCode).Some?
    ensures ValidateCategoryForRole(roleCode, categoryCode) <==> categoryCode in Codes(QuestionCategoryTable)
  {
    RolesConfig.EveryRoleUsesAllCategories(roleCode);
    assert Codes(QuestionCategoryTable) == RolesConfig.AllCategories;
  }

  /** A category triple as the Python tuple it is: its items in order. */
  function AsTuple(e: CategoryEntry): (r: seq<string>)
    ensures |r| == 3
  {
    [e.code, e.name, e.description]
  }

  /**
   * Python's `a, b = t`: succeeds only on a tuple of exactly two items; `None`
   * stands for the `ValueError` ("too many values to unpack") otherwise.
   */
  function UnpackPair(t: seq<string>): (r: Option<(string, string)>)
    ensures r.Some? <==> |t| == 2
  {
    if |t| == 2 then Some((t[0], t[1])) else None
  }

  /** Python's `a, b, c = t`. */
  function UnpackTriple(t: seq<string>): (r: Option<(string, string, string)>)
    ensures r.Some? <==> |t| == 3
  {
    if |t| == 3 then Some((t[0], t[1], t[2])) else None
  }

  /**
   * Unpacking an active category as a pair always fails, and as a triple
   * always gives back its code, name and description.
   */
  lemma CategoryTuplesAreTriples(e: CategoryEntry)
    ensures UnpackPair(AsTuple(e)).None?
    ensures UnpackTriple(AsTuple(e)) == Some((e.code, e.name, e.description))
  {
  }

  /** The message of the `ValueError` a pair unpacking of a triple raises. */
  const PairUnpackError: string := "too many values to unpack (expected 2)"
}
