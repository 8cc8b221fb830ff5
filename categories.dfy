/**
  The fixed category registry (src/lib/constants.ts, seeded by
  scripts/setup-database-complete.js): nine categories, each with a colour
  and an icon key, and the records the charts and the list look up by id.
*/
module Categories {
  import opened Wrappers
  import opened ExpenseModel

  /** EXPENSE_CATEGORIES: the category names, in registry order. */
  const ExpenseCategories: seq<string> :=
    ["食費", "日用品", "交通費", "娯楽", "衣服・美容", "医療・健康", "住居費", "通信費", "その他"]

  /** CATEGORY_COLORS: category name to chart colour. */
  const CategoryColors: map<string, string> := map[
    "食費" := "#3B82F6",
    "日用品" := "#10B981",
    "交通費" := "#F59E0B",
    "娯楽" := "#EF4444",
    "衣服・美容" := "#8B5CF6",
    "医療・健康" := "#EC4899",
    "住居費" := "#6B7280",
    "通信費" := "#06B6D4",
    "その他" := "#71717A"]

  /** CATEGORY_ICONS: category name to icon key. */
  const CategoryIcons: map<string, string> := map[
    "食費" := "utensils",
    "日用品" := "shopping-bag",
    "交通費" := "train",
    "娯楽" := "gamepad-2",
    "衣服・美容" := "shirt",
    "医療・健康" := "heart-pulse",
    "住居費" := "home",
    "通信費" := "wifi",
    "その他" := "more-horizontal"]

  /** The category records, in seed order; a record's id is its position plus one. */
  const Registry: seq<Category> := [
    Category(1, "食費", "food", "🍔"),
    Category(2, "日用品", "daily-needs", "🛍️"),
    Category(3, "交通費", "transportation", "🚗"),
    Category(4, "娯楽", "entertainment", "🎉"),
    Category(5, "衣服・美容", "clothing-beauty", "👔"),
    Category(6, "医療・健康", "health", "🏥"),
    Category(7, "住居費", "housing", "🏠"),
    Category(8, "通信費", "communication", "📱"),
    Category(9, "その他", "other", "💡")]

  /** `cats.find(c => c.id === id)`: the first record with the id. */
  function FindById(cats: seq<Category>, id: int): (r: Option<Category>)
    ensures r.Some? ==> r.value in cats && r.value.id == id
    ensures r.Some? ==> exists k :: 0 <= k < |cats| && cats[k] == r.value && forall j :: 0 <= j < k ==> cats[j].id != id
    ensures r.None? ==> forall i :: 0 <= i < |cats| ==> cats[i].id != id
  {
    if |cats| == 0 then None
    else if cats[0].id == id then Some(cats[0])
    else
      var r := FindById(cats[1..], id);
      if r.Some? then
        var k :| 0 <= k < |cats[1..]| && cats[1..][k] == r.value && forall j :: 0 <= j < k ==> cats[1..][j].id != id;
        assert cats[k + 1] == r.value;
        assert forall j :: 1 <= j < k + 1 ==> cats[j].id == cats[1..][j - 1].id;
        r
      else r
  }

  /** In a list whose ids count up from `base`, the id alone locates the record. */
  lemma {:induction false} FindByConsecutiveId(cats: seq<Category>, base: int, id: int)
    requires forall i :: 0 <= i < |cats| ==> cats[i].id == base + i
    ensures FindById(cats, id) == if base <= id < base + |cats| then Some(cats[id - base]) else None
  {
    if |cats| > 0 && cats[0].id != id {
      FindByConsecutiveId(cats[1..], base + 1, id);
    }
  }

  /** getCategoryById: the registry record with that id, if there is one. */
  function GetCategoryById(id: int): (r: Option<Category>)
    ensures r.Some? <==> 1 <= id <= 9
    ensures r.Some? ==> r.value == Registry[id - 1] && r.value.id == id
  {
    FindByConsecutiveId(Registry, 1, id);
    FindById(Registry, id)
  }

  /** The registry has exactly nine records, numbered by position, named as EXPENSE_CATEGORIES. */
  lemma RegistryShape()
    ensures |Registry| == |ExpenseCategories| == 9
    ensures forall i :: 0 <= i < 9 ==> Registry[i].id == i + 1 && Registry[i].name == ExpenseCategories[i]
  {
  }

  /** No two categories share a name. */
  lemma CategoryNamesDistinct()
    ensures forall i, j :: 0 <= i < j < |ExpenseCategories| ==> ExpenseCategories[i] != ExpenseCategories[j]
  {
  }

  /** CATEGORY_COLORS and CATEGORY_ICONS are defined for exactly the registry's names. */
  lemma ColorsAndIconsTotal()
    ensures CategoryColors.Keys == set n | n in ExpenseCategories
    ensures CategoryIcons.Keys == set n | n in ExpenseCategories
  {
  }
}
