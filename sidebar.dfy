/**
 * The sidebar's navigation state (src/components/Sidebar.tsx): which
 * categories are open, which one is selected, the product lists fetched per
 * category, and the product whose page is shown. Backend answers are
 * parameters: `None` stands for a call that returned an error or no data.
 */
module Sidebar {
  import opened Wrappers

  /** A row of the categories table (lines 12-16). */
  datatype Category = Category(id: string, name: string, slug: string)

  /** A row of the products table as the sidebar selects it (lines 18-23). */
  datatype Product = Product(id: string, name: string, slug: string, categoryId: string)

  const ProductPrefix := "/product/"
  const NewSuffix := "/new"

  predicate StartsWith(s: string, p: string) {
    |p| <= |s| && s[..|p|] == p
  }

  predicate EndsWith(s: string, p: string) {
    |p| <= |s| && s[|s| - |p|..] == p
  }

  predicate OccursAt(s: string, p: string, i: int) {
    0 <= i && i + |p| <= |s| && s[i..i + |p|] == p
  }

  // ---------------------------------------------------------------------------
  // From the URL to the product slug (lines 49-52)

  /** `s.indexOf(p, from)` for a non-empty `p`: the first occurrence at or
      after `from`. */
  function IndexOfFrom(s: string, p: string, from: nat): (r: Option<nat>)
    requires p != []
    ensures r.Some? ==> from <= r.value && OccursAt(s, p, r.value)
    ensures forall j :: from <= j && (r.None? || j < r.value) ==> !OccursAt(s, p, j)
    decreases |s| - from
  {
    if from + |p| > |s| then None
    else if s[from..from + |p|] == p then Some(from)
    else IndexOfFrom(s, p, from + 1)
  }

  /** `path.split("/product/")[1]` for a path that starts with "/product/":
      the text after the leading "/product/" up to its next occurrence, or to
      the end when there is none. */
  function SecondPiece(path: string): (piece: string)
    requires StartsWith(path, ProductPrefix)
    ensures |ProductPrefix| + |piece| <= |path|
    ensures piece == path[|ProductPrefix|..|ProductPrefix| + |piece|]
    ensures |ProductPrefix| + |piece| == |path| || OccursAt(path, ProductPrefix, |ProductPrefix| + |piece|)
    ensures forall j :: |ProductPrefix| <= j < |ProductPrefix| + |piece| ==> !OccursAt(path, ProductPrefix, j)
  {
    var n := |ProductPrefix|;
    match IndexOfFrom(path, ProductPrefix, n)
    case None => path[n..]
    case Some(k) => path[n..k]
  }

  /** Index of the first `c` in `s`, or `|s|` when there is none. */
  function FirstIndexOf(s: string, c: char): (i: nat)
    ensures i <= |s|
    ensures i < |s| ==> s[i] == c
    ensures forall j :: 0 <= j < i ==> s[j] != c
  {
    if s == [] || s[0] == c then 0 else 1 + FirstIndexOf(s[1..], c)
  }

  /** `s.replace("/", "")`: a string pattern replaces its first occurrence
      only, so only the first '/' is removed. */
  function RemoveFirstSlash(s: string): (r: string)
    ensures '/' !in s ==> r == s
    ensures '/' in s ==> |r| == |s| - 1 && multiset(r) == multiset(s) - multiset{'/'}
    ensures '/' in s ==>
      exists i :: 0 <= i < |s| && s[i] == '/' && '/' !in s[..i] && r == s[..i] + s[i + 1..]
  {
    var i := FirstIndexOf(s, '/');
    if i < |s| then
      assert s == s[..i] + [s[i]] + s[i + 1..];
      assert '/' !in s[..i] by {
        forall j | 0 <= j < i ensures s[..i][j] != '/' {
          assert s[..i][j] == s[j];
        }
      }
      s[..i] + s[i + 1..]
    else
      assert '/' !in s by {
        forall j | 0 <= j < |s| ensures s[j] != '/' {
        }
      }
      s
  }

  /** The piece of a nested product path keeps its characters in order and
      loses only its first '/': "a/b/" becomes "ab/". */
  lemma RemoveFirstSlashExample(s: string)
    requires s == "a/b/"
    ensures RemoveFirstSlash(s) == "ab/"
  {
    assert s[1] == '/' && s[0] != '/';
  }

  /** The slug the URL task goes on with (lines 50-52), or `None` when it
      returns at once: the path is not under "/product/", ends with "/new", or
      leaves an empty slug. */
  function PathSlug(path: string): (slug: Option<string>)
    ensures slug.Some? ==> StartsWith(path, ProductPrefix) && !EndsWith(path, NewSuffix)
    ensures slug.Some? ==> slug.value != [] && |slug.value| < |path|
  {
    if StartsWith(path, ProductPrefix) && !EndsWith(path, NewSuffix) then
      var slug := RemoveFirstSlash(SecondPiece(path));
      if slug == [] then None else Some(slug)
    else None
  }

  /** A page of the product `w` navigated to as "/product/" + w + "/" is
      picked up again with slug `w`, as long as `w` is not empty and holds no
      '/'. */
  lemma {:induction false} ProductPathRoundTrip(w: string)
    requires w != [] && '/' !in w
    ensures PathSlug(ProductPrefix + w + "/") == Some(w)
  {
    var path := ProductPrefix + w + "/";
    var n := |ProductPrefix|;
    assert path[..n] == ProductPrefix;
    assert path[|path| - 1] == '/' != NewSuffix[|NewSuffix| - 1];
    forall j | n <= j < |path| ensures path[j] == '/' ==> j == |path| - 1 {
      if j < |path| - 1 {
        assert path[j] == w[j - n];
      }
    }
    assert IndexOfFrom(path, ProductPrefix, n).None? by {
      forall j | n <= j ensures !OccursAt(path, ProductPrefix, j) {
        if j + n <= |path| {
          assert path[j..j + n][0] == path[j];
        }
      }
    }
    var piece := w + "/";
    assert SecondPiece(path) == piece;
    assert FirstIndexOf(piece, '/') == |w| by {
      assert piece[|w|] == '/';
      forall j | 0 <= j < |w| ensures piece[j] != '/' {
        assert piece[j] == w[j];
      }
    }
    assert piece[..|w|] + piece[|w| + 1..] == w;
  }

  /** The "add a product" page "/product/new" is filtered out. */
  lemma NewProductPageIgnored(path: string)
    requires path == "/product/new"
    ensures PathSlug(path) == None
  {
    assert path[|path| - 4..] == NewSuffix;
  }

  /** "/product//", where a product with an empty slug is shown, leaves an
      empty slug, so the task returns without a change. */
  lemma EmptySlugIgnored()
    ensures PathSlug(ProductPrefix + "" + "/") == None
  {
    var path := ProductPrefix + "" + "/";
    assert path[..|ProductPrefix|] == ProductPrefix;
    assert SecondPiece(path) == "/";
  }

  /** "/product/chair/" yields "chair". */
  lemma ChairExample(path: string)
    requires path == "/product/chair/"
    ensures PathSlug(path) == Some("chair")
  {
    assert path == ProductPrefix + "chair" + "/";
    ProductPathRoundTrip("chair");
  }

  /** "/product/new/" yields "new": the filter looks only at the text "/new"
      at the very end. */
  lemma NewWithSlashExample(path: string)
    requires path == "/product/new/"
    ensures PathSlug(path) == Some("new")
  {
    assert path == ProductPrefix + "new" + "/";
    ProductPathRoundTrip("new");
  }

  /** The slug is the text between the first and the second "/product/",
      without its first '/': "/product/a/product/b" yields "a". */
  lemma NestedPathExample(path: string)
    requires path == "/product/a/product/b"
    ensures PathSlug(path) == Some("a")
  {
    assert path[..|ProductPrefix|] == ProductPrefix;
    assert path[|path| - 4..] != NewSuffix;
    assert OccursAt(path, ProductPrefix, 10);
    assert !OccursAt(path, ProductPrefix, 9) by { assert path[9] == 'a'; }
    assert IndexOfFrom(path, ProductPrefix, 9) == Some(10);
    assert path[9..10] == "a";
    assert SecondPiece(path) == "a";
    assert FirstIndexOf("a", '/') == 1;
  }

  // ---------------------------------------------------------------------------
  // The render guard and the product panel (lines 125-165)

  /** `isCategoryOpen.value[c]`: a missing key reads as false. */
  predicate IsOpen(open: map<string, bool>, c: string) {
    c in open && open[c]
  }

  /** The guard of lines 137-138: a category's products are shown only when it
      is open and selected. */
  predicate Expanded(open: map<string, bool>, selected: Option<string>, c: string) {
    IsOpen(open, c) && selected == Some(c)
  }

  /** The ids of the categories whose products are shown, in list order:
      panels are drawn only for listed categories (lines 125-138). */
  function ExpandedIds(cs: seq<Category>, open: map<string, bool>, selected: Option<string>): (ids: seq<string>)
    ensures |ids| <= |cs|
    ensures forall i :: 0 <= i < |ids| ==> Expanded(open, selected, ids[i])
    ensures forall i :: 0 <= i < |ids| ==> exists j :: 0 <= j < |cs| && cs[j].id == ids[i]
    ensures forall i :: 0 <= i < |cs| && Expanded(open, selected, cs[i].id) ==> cs[i].id in ids
  {
    if cs == [] then []
    else
      var rest := ExpandedIds(cs[1..], open, selected);
      assert forall i :: 1 <= i < |cs| ==> cs[i] == cs[1..][i - 1];
      assert forall i :: 0 <= i < |rest| ==> exists j :: 0 <= j < |cs| && cs[j].id == rest[i] by {
        forall i | 0 <= i < |rest| ensures exists j :: 0 <= j < |cs| && cs[j].id == rest[i] {
          var k :| 0 <= k < |cs[1..]| && cs[1..][k].id == rest[i];
          assert cs[k + 1].id == rest[i];
        }
      }
      if Expanded(open, selected, cs[0].id) then
        assert forall i :: 1 <= i < |rest| + 1 ==> ([cs[0].id] + rest)[i] == rest[i - 1];
        [cs[0].id] + rest
      else rest
  }

  /** A selected category that is not in the list (the URL task selects the
      product's category even when the list failed to load) expands nothing. */
  lemma {:induction false} UnlistedSelectionExpandsNothing(cs: seq<Category>, open: map<string, bool>, c: string)
    requires forall j :: 0 <= j < |cs| ==> cs[j].id != c
    ensures ExpandedIds(cs, open, Some(c)) == []
  {
    if cs != [] {
      assert forall j :: 0 <= j < |cs[1..]| ==> cs[1..][j] == cs[j + 1];
      UnlistedSelectionExpandsNothing(cs[1..], open, c);
    }
  }

  /** At most one category is expanded at a time: every shown panel belongs to
      the selected id. */
  lemma AtMostOneExpanded(cs: seq<Category>, open: map<string, bool>, selected: Option<string>)
    ensures var ids := ExpandedIds(cs, open, selected);
      forall i, j :: 0 <= i < |ids| && 0 <= j < |ids| ==> ids[i] == ids[j]
  {
  }

  /** With no category selected, nothing is expanded, whatever is open. */
  lemma {:induction false} NothingExpandedWithoutSelection(cs: seq<Category>, open: map<string, bool>)
    ensures ExpandedIds(cs, open, None) == []
  {
    if cs != [] {
      NothingExpandedWithoutSelection(cs[1..], open);
    }
  }

  /** In every state the sidebar reaches (the selected category is open), a
      listed category is expanded exactly when it is the selected one. */
  lemma ExpandedIsSelected(s: SidebarState)
    requires s.Valid()
    ensures forall i :: 0 <= i < |s.categories| ==>
      (s.categories[i].id in ExpandedIds(s.categories, s.open, s.selected) <==> s.selected == Some(s.categories[i].id))
  {
    var cs, ids := s.categories, ExpandedIds(s.categories, s.open, s.selected);
    forall i | 0 <= i < |cs| ensures cs[i].id in ids <==> s.selected == Some(cs[i].id) {
      if cs[i].id in ids {
        var j :| 0 <= j < |ids| && ids[j] == cs[i].id;
        assert Expanded(s.open, s.selected, ids[j]);
      }
    }
  }

  /** What an expanded category shows under its name. */
  datatype Panel = NoProducts | ProductList(items: seq<Product>)

  /** `products.value[c]`, `None` standing for undefined. */
  function Entry(products: map<string, seq<Product>>, c: string): Option<seq<Product>> {
    if c in products then Some(products[c]) else None
  }

  /** The panel as written (lines 140-161): `products[c]?.length === 0`
      chooses the empty message; otherwise `products[c].map` runs, and throws
      a TypeError when the entry is undefined. `None` stands for that error. */
  function PanelAsWritten(entry: Option<seq<Product>>): (r: Option<Panel>)
    ensures r.None? <==> entry.None?
    ensures r == Some(NoProducts) <==> entry == Some([])
    ensures r.Some? && r.value.ProductList? ==> entry == Some(r.value.items)
  {
    match entry
    case None => None
    case Some(items) => if |items| == 0 then Some(NoProducts) else Some(ProductList(items))
  }

  /** The panel with a missing entry read as an empty list: the empty
      message until products arrive. */
  function ShownPanel(entry: Option<seq<Product>>): (r: Panel)
    ensures r == NoProducts <==> entry.None? || entry == Some([])
    ensures r.ProductList? ==> entry == Some(r.items)
  {
    match entry
    case None => NoProducts
    case Some(items) => if |items| == 0 then NoProducts else ProductList(items)
  }

  /** The corrected panel is defined for every entry and agrees with the
      panel as written wherever that one does not throw. */
  lemma ShownPanelAgrees(entry: Option<seq<Product>>)
    ensures PanelAsWritten(entry).Some? ==> PanelAsWritten(entry).value == ShownPanel(entry)
    ensures PanelAsWritten(entry).None? ==> ShownPanel(entry) == NoProducts
  {
  }

  /** The render of the expanded panels as written: `None` when one of them
      throws. */
  function RenderAsWritten(ids: seq<string>, products: map<string, seq<Product>>): (r: Option<seq<Panel>>)
    ensures r.None? <==> exists i :: 0 <= i < |ids| && ids[i] !in products
    ensures r.Some? ==> |r.value| == |ids|
    ensures r.Some? ==> forall i :: 0 <= i < |ids| ==> Some(r.value[i]) == PanelAsWritten(Entry(products, ids[i]))
  {
    if ids == [] then Some([])
    else
      match (PanelAsWritten(Entry(products, ids[0])), RenderAsWritten(ids[1..], products))
      case (Some(p), Some(ps)) =>
        assert forall i :: 1 <= i < |ids| ==> ids[i] == ids[1..][i - 1];
        Some([p] + ps)
      case (None, _) => None
      case (_, None) =>
        var i :| 0 <= i < |ids[1..]| && ids[1..][i] !in products;
        assert ids[i + 1] !in products;
        None
  }

  /** The render with the corrected panel: always defined. */
  function Render(ids: seq<string>, products: map<string, seq<Product>>): (r: seq<Panel>)
    ensures |r| == |ids|
    ensures forall i :: 0 <= i < |ids| ==> r[i] == ShownPanel(Entry(products, ids[i]))
  {
    seq(|ids|, i requires 0 <= i < |ids| => ShownPanel(Entry(products, ids[i])))
  }

  /** Where the render as written succeeds it shows what the corrected one
      shows. */
  lemma {:induction false} RenderAgrees(ids: seq<string>, products: map<string, seq<Product>>)
    ensures RenderAsWritten(ids, products).Some? ==> RenderAsWritten(ids, products).value == Render(ids, products)
  {
    var r := RenderAsWritten(ids, products);
    if r.Some? {
      forall i | 0 <= i < |ids| ensures r.value[i] == Render(ids, products)[i] {
        ShownPanelAgrees(Entry(products, ids[i]));
      }
    }
  }

  // ---------------------------------------------------------------------------
  // The component's signals and the code that writes them

  class SidebarState {
    var categories: seq<Category>
    var selected: Option<string>
    var products: map<string, seq<Product>>
    var open: map<string, bool>
    var activeProductSlug: Option<string>

    /** The selected category is always open. */
    predicate Valid()
      reads this
    {
      selected.Some? ==> IsOpen(open, selected.value)
    }

    /** The signals' initial values (lines 26-30). */
    constructor ()
      ensures Valid()
      ensures categories == [] && selected == None && products == map[] && open == map[]
      ensures activeProductSlug == None
    {
      categories := [];
      selected := None;
      products := map[];
      open := map[];
      activeProductSlug := None;
    }

    /** The mount task (lines 37-43): the list is replaced when the query
        returns data. */
    method LoadCategories(fetched: Option<seq<Category>>)
      requires Valid()
      modifies this
      ensures Valid()
      ensures categories == if fetched.Some? then fetched.value else old(categories)
      ensures selected == old(selected) && products == old(products) && open == old(open)
      ensures activeProductSlug == old(activeProductSlug)
    {
      if fetched.None? {
        return;
      }
      categories := fetched.value;
    }

    /** `toggleCategory` (lines 103-111) as written: it tests `open[c]` alone. */
    method ToggleCategory(c: string)
      requires Valid()
      modifies this
      ensures Valid()
      ensures open == old(open)[c := !IsOpen(old(open), c)]
      ensures forall k :: k != c ==> (k in open <==> k in old(open)) && (k in open ==> open[k] == old(open)[k])
      ensures selected == if IsOpen(old(open), c) then None else Some(c)
      ensures categories == old(categories) && products == old(products)
      ensures activeProductSlug == old(activeProductSlug)
    {
      if IsOpen(open, c) {
        open := open[c := false];
        selected := None;
      } else {
        open := open[c := true];
        selected := Some(c);
      }
    }

    /** `toggleCategory` testing the render guard instead of `open[c]`: a
        click flips whether `c` is expanded. */
    method ToggleCategoryCorrected(c: string)
      requires Valid()
      modifies this
      ensures Valid()
      ensures Expanded(open, selected, c) == !old(Expanded(open, selected, c))
      ensures open == old(open)[c := !old(Expanded(open, selected, c))]
      ensures selected == if old(Expanded(open, selected, c)) then None else Some(c)
      ensures forall k :: k != c ==> (k in open <==> k in old(open)) && (k in open ==> open[k] == old(open)[k])
      ensures forall k :: k != c ==> !Expanded(open, selected, k)
      ensures categories == old(categories) && products == old(products)
      ensures activeProductSlug == old(activeProductSlug)
    {
      if Expanded(open, selected, c) {
        open := open[c := false];
        selected := None;
      } else {
        open := open[c := true];
        selected := Some(c);
      }
    }

    /** The URL task (lines 46-84), given the path and the answers of the
        product lookup by slug and of the product list of its category. */
    method OnPathChange(path: string, lookup: Option<Product>, categoryProducts: Option<seq<Product>>)
      requires Valid()
      modifies this
      ensures Valid()
      ensures categories == old(categories)
      ensures activeProductSlug == if PathSlug(path).Some? then PathSlug(path) else old(activeProductSlug)
      ensures PathSlug(path).None? || lookup.None? ==>
        selected == old(selected) && open == old(open) && products == old(products)
      ensures PathSlug(path).Some? && lookup.Some? ==>
        var c := lookup.value.categoryId;
        && selected == Some(c)
        && open == old(open)[c := true]
        && products == if categoryProducts.Some? then old(products)[c := categoryProducts.value] else old(products)
    {
      var slug := PathSlug(path);
      if slug.None? {
        return;
      }
      activeProductSlug := slug;
      if lookup.None? {
        return;
      }
      var categoryId := lookup.value.categoryId;
      selected := Some(categoryId);
      open := open[categoryId := true];
      if categoryProducts.Some? {
        products := products[categoryId := categoryProducts.value];
      }
    }

    /** The selection task (lines 86-101): when a category id is selected
        (not null, not empty), its entry alone is replaced by the list
        fetched, if the query returned one. */
    method OnSelectionChange(fetched: Option<seq<Product>>)
      requires Valid()
      modifies this
      ensures Valid()
      ensures products == if selected.Some? && selected.value != "" && fetched.Some?
        then old(products)[selected.value := fetched.value] else old(products)
      ensures forall k :: selected != Some(k) ==> Entry(products, k) == Entry(old(products), k)
      ensures selected == old(selected) && open == old(open) && categories == old(categories)
      ensures activeProductSlug == old(activeProductSlug)
    {
      if selected.None? || selected.value == "" {
        return;
      }
      if fetched.None? {
        return;
      }
      products := products[selected.value := fetched.value];
    }
  }

  // ---------------------------------------------------------------------------
  // Two runs of the component

  /** A category is expanded and its product query fails: the panel as
      written throws, the corrected one shows the empty message. */
  method ExpandAfterFailedFetch(cat: Category) returns (asWritten: Option<seq<Panel>>, corrected: seq<Panel>)
    ensures asWritten.None?
    ensures corrected == [NoProducts]
  {
    var sidebar := new SidebarState();
    sidebar.LoadCategories(Some([cat]));
    sidebar.ToggleCategory(cat.id);
    sidebar.OnSelectionChange(None);
    var ids := ExpandedIds(sidebar.categories, sidebar.open, sidebar.selected);
    assert ids == [cat.id] by {
      assert Expanded(sidebar.open, sidebar.selected, sidebar.categories[0].id);
    }
    asWritten := RenderAsWritten(ids, sidebar.products);
    corrected := Render(ids, sidebar.products);
  }

  /** Open `a`, then `b`, then click `a` again: `a` still reads as open, so
      the click closes it and clears the selection, and nothing is expanded.
      With the corrected toggle the same clicks expand `a`. */
  method ReopenAfterSwitch(a: Category, b: Category)
    returns (asWritten: seq<string>, corrected: seq<string>)
    requires a.id != b.id
    ensures asWritten == []
    ensures corrected == [a.id]
  {
    var s1 := new SidebarState();
    s1.LoadCategories(Some([a, b]));
    s1.ToggleCategory(a.id);
    s1.ToggleCategory(b.id);
    s1.ToggleCategory(a.id);
    assert s1.selected == None;
    asWritten := ExpandedIds(s1.categories, s1.open, s1.selected);
    NothingExpandedWithoutSelection(s1.categories, s1.open);
    var s2 := new SidebarState();
    s2.LoadCategories(Some([a, b]));
    s2.ToggleCategoryCorrected(a.id);
    s2.ToggleCategoryCorrected(b.id);
    s2.ToggleCategoryCorrected(a.id);
    corrected := ExpandedIds(s2.categories, s2.open, s2.selected);
    assert Expanded(s2.open, s2.selected, s2.categories[0].id);
    assert !Expanded(s2.open, s2.selected, s2.categories[1].id);
    assert corrected == [a.id] by {
      assert ExpandedIds(s2.categories[1..], s2.open, s2.selected) == [];
    }
  }
}
