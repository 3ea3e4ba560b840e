/** The fixed reference data: the 14 expense categories, their chart colours and default monthly budgets. */
module Constants {
  import opened Wrappers
  import opened OrderedMap
  import Seqs

  /** A category: its stable key (`value` in the source) and its display label (`label` in the source; `label` is a Dafny keyword). */
  datatype Category = Category(key: string, caption: string)

  const Categories: seq<Category> := [
    Category("housing", "Housing"),
    Category("transportation", "Transportation"),
    Category("food", "Food & Dining"),
    Category("utilities", "Utilities"),
    Category("entertainment", "Entertainment"),
    Category("healthcare", "Healthcare"),
    Category("shopping", "Shopping"),
    Category("education", "Education"),
    Category("personal", "Personal Care"),
    Category("travel", "Travel"),
    Category("debt", "Debt Payments"),
    Category("savings", "Savings & Investments"),
    Category("gifts", "Gifts & Donations"),
    Category("other", "Other")
  ]

  const CategoryColors: OMap<string, string> := [
    ("housing", "#FF8042"),
    ("transportation", "#0088FE"),
    ("food", "#00C49F"),
    ("utilities", "#FFBB28"),
    ("entertainment", "#FF8042"),
    ("healthcare", "#8884d8"),
    ("shopping", "#82ca9d"),
    ("education", "#8dd1e1"),
    ("personal", "#a4de6c"),
    ("travel", "#d0ed57"),
    ("debt", "#ffc658"),
    ("savings", "#8884d8"),
    ("gifts", "#83a6ed"),
    ("other", "#CBD5E0")
  ]

  const DefaultBudgets: OMap<string, real> := [
    ("housing", 1000.0),
    ("transportation", 300.0),
    ("food", 400.0),
    ("utilities", 200.0),
    ("entertainment", 150.0),
    ("healthcare", 100.0),
    ("shopping", 200.0),
    ("education", 100.0),
    ("personal", 100.0),
    ("travel", 200.0),
    ("debt", 300.0),
    ("savings", 400.0),
    ("gifts", 100.0),
    ("other", 100.0)
  ]

  /** The colour used for a key that has none. */
  const FallbackColor: string := "#CBD5E0"

  function CategoryKeys(): (ks: seq<string>)
    ensures |ks| == |Categories|
    ensures forall i :: 0 <= i < |Categories| ==> ks[i] == Categories[i].key
  {
    seq(|Categories|, i requires 0 <= i < |Categories| => Categories[i].key)
  }

  /** `CATEGORIES.find(c => c.value === key)`. */
  function FindByKey(key: string): (r: Option<Category>)
    ensures r.Some? <==> key in CategoryKeys()
    ensures r.Some? ==> r.value in Categories && r.value.key == key
  {
    FindByKeyIn(Categories, key)
  }

  function FindByKeyIn(cs: seq<Category>, key: string): (r: Option<Category>)
    ensures r.Some? <==> exists i :: 0 <= i < |cs| && cs[i].key == key
    ensures r.Some? ==> r.value in cs && r.value.key == key
  {
    if |cs| == 0 then None
    else if cs[0].key == key then Some(cs[0])
    else FindByKeyIn(cs[1..], key)
  }

  /** `CATEGORIES.find(c => c.label === label)`. */
  function FindByLabel(caption: string): (r: Option<Category>)
    ensures r.Some? ==> r.value in Categories && r.value.caption == caption
    ensures r.None? ==> forall i :: 0 <= i < |Categories| ==> Categories[i].caption != caption
  {
    FindByLabelIn(Categories, caption)
  }

  function FindByLabelIn(cs: seq<Category>, caption: string): (r: Option<Category>)
    ensures r.Some? ==> r.value in cs && r.value.caption == caption
    ensures r.None? ==> forall i :: 0 <= i < |cs| ==> cs[i].caption != caption
  {
    if |cs| == 0 then None
    else if cs[0].caption == caption then Some(cs[0])
    else FindByLabelIn(cs[1..], caption)
  }

  predicate IsKnown(key: string) {
    FindByKey(key).Some?
  }

  /**
   * `CATEGORIES.find(c => c.value === key)?.label || key`: the display label of a known key,
   * and the raw key itself otherwise.
   */
  function LabelOf(key: string): (caption: string)
    ensures forall i :: 0 <= i < |Categories| && Categories[i].key == key ==> caption == Categories[i].caption
    ensures !IsKnown(key) ==> caption == key
  {
    match FindByKey(key)
    case Some(c) => (LabelsOfKnownKeys(key); c.caption)
    case None => key
  }

  lemma LabelsOfKnownKeys(key: string)
    requires FindByKey(key).Some?
    ensures forall i :: 0 <= i < |Categories| && Categories[i].key == key ==> FindByKey(key).value == Categories[i]
  {
    CategoriesDistinct();
  }

  /** `CATEGORY_COLORS[key] || '#CBD5E0'`. */
  function ColorOf(key: string): (color: string)
    ensures forall i :: 0 <= i < |Categories| && Categories[i].key == key ==> color == CategoryColors[i].1
    ensures !IsKnown(key) ==> color == FallbackColor
  {
    ColorLookup(key);
    Get(CategoryColors, key).GetOr(FallbackColor)
  }

  /** Every catalogue key is a known key. */
  lemma CatalogueKeysKnown()
    ensures forall i :: 0 <= i < |Categories| ==> IsKnown(Categories[i].key)
  {
    forall i | 0 <= i < |Categories|
      ensures IsKnown(Categories[i].key)
    {
      assert CategoryKeys()[i] == Categories[i].key;
    }
  }

  /** There are exactly 14 categories, with pairwise distinct keys and pairwise distinct labels. */
  lemma CategoriesDistinct()
    ensures |Categories| == 14
    ensures forall i, j :: 0 <= i < j < |Categories| ==> Categories[i].key != Categories[j].key
    ensures forall i, j :: 0 <= i < j < |Categories| ==> Categories[i].caption != Categories[j].caption
  {
    KeysDistinct();
    CaptionsDistinct();
  }

  lemma KeysDistinct()
    ensures forall i, j :: 0 <= i < j < |Categories| ==> Categories[i].key != Categories[j].key
  {
  }

  lemma CaptionsDistinct()
    ensures forall i, j :: 0 <= i < j < |Categories| ==> Categories[i].caption != Categories[j].caption
  {
  }

  /** No key and no label is empty, so `?.label || key` always yields the label of a known key. */
  lemma CategoriesNonEmpty()
    ensures forall i :: 0 <= i < |Categories| ==> Categories[i].key != "" && Categories[i].caption != ""
  {
  }

  /** Since labels are distinct, looking a known key's label up again finds that same category. */
  lemma LabelLookupRoundTrip(key: string)
    requires IsKnown(key)
    ensures FindByLabel(LabelOf(key)) == FindByKey(key)
  {
    CategoriesDistinct();
    var c := FindByKey(key).value;
    var i :| 0 <= i < |Categories| && Categories[i] == c;
    FindByLabelAt(Categories, i);
  }

  lemma {:induction false} FindByLabelAt(cs: seq<Category>, i: nat)
    requires i < |cs|
    requires forall a, b :: 0 <= a < b < |cs| ==> cs[a].caption != cs[b].caption
    ensures FindByLabelIn(cs, cs[i].caption) == Some(cs[i])
  {
    if i > 0 {
      FindByLabelAt(cs[1..], i - 1);
    }
  }

  /** The default budget map has exactly the category keys, in category order, every default is positive, and together they come to 3650. */
  lemma DefaultBudgetsCoverCategories()
    ensures Keys(DefaultBudgets) == CategoryKeys()
    ensures DistinctKeys(DefaultBudgets)
    ensures forall i :: 0 <= i < |DefaultBudgets| ==> DefaultBudgets[i].1 > 0.0
    ensures SumValues(DefaultBudgets) == 3650.0
  {
    DefaultBudgetsKeys();
    DefaultBudgetsTotal();
  }

  lemma DefaultBudgetsKeys()
    ensures Keys(DefaultBudgets) == CategoryKeys()
    ensures DistinctKeys(DefaultBudgets)
    ensures forall i :: 0 <= i < |DefaultBudgets| ==> DefaultBudgets[i].1 > 0.0
  {
    KeysDistinct();
    assert Keys(DefaultBudgets) == CategoryKeys();
  }

  lemma DefaultBudgetsTotal()
    ensures SumValues(DefaultBudgets) == 3650.0
  {
    var f := (e: (string, real)) => e.1;
    var d := DefaultBudgets;
    var partial := [0.0, 1000.0, 1300.0, 1700.0, 1900.0, 2050.0, 2150.0, 2350.0, 2450.0, 2550.0, 2750.0, 3050.0, 3450.0, 3550.0, 3650.0];
    assert d[..0] == [];
    for n := 0 to 14
      invariant Seqs.SumOf(d[..n], f) == partial[n]
    {
      assert d[..n + 1][..n] == d[..n];
    }
    assert d[..14] == d;
  }

  lemma ColorLookup(key: string)
    ensures forall i :: 0 <= i < |Categories| && Categories[i].key == key ==> Get(CategoryColors, key) == Some(CategoryColors[i].1)
    ensures !IsKnown(key) ==> Get(CategoryColors, key) == None
  {
    ColorsCoverCategories();
    GetSomeIff(CategoryColors, key);
  }

  /** Every category key has a colour. */
  lemma ColorsCoverCategories()
    ensures Keys(CategoryColors) == CategoryKeys()
    ensures DistinctKeys(CategoryColors)
    ensures forall i :: 0 <= i < |Categories| ==> CategoryColors[i].0 == Categories[i].key
    ensures forall i :: 0 <= i < |CategoryColors| ==> Get(CategoryColors, CategoryColors[i].0) == Some(CategoryColors[i].1)
  {
    CategoriesDistinct();
    assert Keys(CategoryColors) == CategoryKeys();
    forall i | 0 <= i < |Categories|
      ensures CategoryColors[i].0 == Categories[i].key
    {
      assert Keys(CategoryColors)[i] == CategoryKeys()[i];
    }
    forall i | 0 <= i < |CategoryColors|
      ensures Get(CategoryColors, CategoryColors[i].0) == Some(CategoryColors[i].1)
    {
      GetAt(CategoryColors, i);
    }
  }

  /** `key => CATEGORIES.find(c => c.value === key)?.label === name`: `key` is a catalogue key labelled `name`. */
  function HasLabel(name: string): string -> bool {
    key => FindByKey(key).Some? && FindByKey(key).value.caption == name
  }

  /** Labels are distinct, so a known key's label picks out that key and no other. */
  lemma LabelIdentifiesKey(k: string, key: string)
    requires IsKnown(k)
    ensures HasLabel(LabelOf(k))(key) <==> key == k
  {
    if HasLabel(LabelOf(k))(key) {
      var c, d := FindByKey(key).value, FindByKey(k).value;
      assert LabelOf(k) == d.caption;
      CaptionDetermines(c, d);
    }
  }

  /** Two catalogue categories with the same label are the same category. */
  lemma CaptionDetermines(c: Category, d: Category)
    requires c in Categories && d in Categories
    requires c.caption == d.caption
    ensures c == d
  {
    var i :| 0 <= i < |Categories| && Categories[i] == c;
    var j :| 0 <= j < |Categories| && Categories[j] == d;
    CaptionsDistinct();
  }
}
