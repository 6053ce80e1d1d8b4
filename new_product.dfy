/**
 * The "new product" form's submit handler, `onSubmit`
 * (src/routes/product/new/index.tsx:65-173).
 *
 * The hosted backend is abstract: the store is the set of category slugs and
 * the set of product slugs, and every call the handler makes is appended to an
 * effect trace (uploads, lookups, inserts, the upsert and the final
 * navigation). Whether each backend call fails, and with what message, is
 * decided by a `Backend` oracle value. `Run` is the try block as a function of
 * the form, the store and the oracle; `NewProductPage.Submit` is the handler
 * itself, proved to produce exactly what `Run` describes.
 */
module NewProduct {
  import opened Wrappers
  import opened Slug
  import opened UniqueSlug

  /** Value of the category selector that asks for a new category (line 91). */
  const NewCategoryOption := "new"

  const UploadPrefix := "Ошибка загрузки: "
  const BlankCategoryMessage := "Введите название новой категории"
  const CategoryPrefix := "Ошибка категории: "

  /** The form's signals (lines 26-36). `image` is the name of the chosen
      file, if any; `price` is the raw text of the price input. */
  datatype Form = Form(
    name: string,
    description: string,
    price: string,
    currency: string,
    image: Option<string>,
    selectedCategory: string,
    newCategoryName: string)

  /** The part of the backend the handler reads: existing slugs per table. */
  datatype Store = Store(categorySlugs: set<string>, productSlugs: set<string>)

  /** What each backend call returns. The category lookup's error is never
      read by the source, so only which candidates fail matters there. */
  datatype Backend = Backend(
    uploadError: Option<string>,
    publicUrl: string,
    categoryLookupErrors: set<string>,
    categoryInsert: Result<string, string>,
    productLookupErrors: map<string, string>,
    productUpsertError: Option<string>)

  /** The row sent to the products table (lines 150-158). */
  datatype ProductRow = ProductRow(
    name: string,
    slug: string,
    description: string,
    imageUrl: string,
    price: string,
    currency: string,
    categoryId: string)

  datatype Table = Categories | Products

  datatype Effect =
    | Upload(fileName: string)
    | Lookup(table: Table, slug: string)
    | InsertCategory(categoryName: string, categorySlug: string)
    | UpsertProduct(row: ProductRow)
    | Navigate(path: string)

  /** Result of the try block: the calls made, the store afterwards, and the
      message of the error thrown, if one was. */
  datatype Attempt = Attempt(effects: seq<Effect>, store: Store, failure: Option<string>)

  // ---------------------------------------------------------------------------
  // Pieces of the handler

  /** Index just after the last '.' among the first `j` characters of
      `name`, or 0 when there is none. */
  function AfterLastDot(name: string, j: nat): (i: nat)
    requires j <= |name|
    ensures i <= j
    decreases j
  {
    if j == 0 || name[j - 1] == '.' then j else AfterLastDot(name, j - 1)
  }

  lemma {:induction false} AfterLastDotSpec(name: string, j: nat)
    requires j <= |name|
    ensures var i := AfterLastDot(name, j);
      && (forall k :: i <= k < j ==> name[k] != '.')
      && (i > 0 ==> name[i - 1] == '.')
    decreases j
  {
    if j > 0 && name[j - 1] != '.' {
      AfterLastDotSpec(name, j - 1);
    }
  }

  /** `name.split(".").pop()`: the text after the last '.', or the whole name
      when it has none. */
  function Extension(name: string): string {
    name[AfterLastDot(name, |name|)..]
  }

  /** The extension is the last '.'-separated piece of the name: a suffix with
      no '.', preceded by a '.' unless it is the whole name. */
  lemma ExtensionIsLastPiece(name: string)
    ensures var ext := Extension(name);
      && '.' !in ext
      && |ext| <= |name| && ext == name[|name| - |ext|..]
      && (|ext| < |name| ==> name[|name| - |ext| - 1] == '.')
  {
    var i := AfterLastDot(name, |name|);
    AfterLastDotSpec(name, |name|);
    var ext := name[i..];
    forall k | 0 <= k < |ext| ensures ext[k] != '.' {
      assert ext[k] == name[i + k];
    }
  }

  /** `${Date.now()}.${ext}` (lines 75-76), with the clock reading `now`. */
  function FileName(now: nat, image: string): string {
    Decimal(now) + "." + Extension(image)
  }

  /** JavaScript's WhiteSpace and LineTerminator characters, which `trim` removes. */
  predicate IsJsSpace(c: char) {
    || c == '\t' || c == '\n' || c == '\U{000B}' || c == '\U{000C}' || c == '\r' || c == ' '
    || c == '\U{00A0}' || c == '\U{1680}' || '\U{2000}' <= c <= '\U{200A}'
    || c == '\U{2028}' || c == '\U{2029}' || c == '\U{202F}' || c == '\U{205F}'
    || c == '\U{3000}' || c == '\U{FEFF}'
  }

  function TrimStart(s: string): (t: string)
    ensures |t| <= |s| && t == s[|s| - |t|..]
    ensures forall i :: 0 <= i < |s| - |t| ==> IsJsSpace(s[i])
    ensures t != [] ==> !IsJsSpace(t[0])
  {
    if s != [] && IsJsSpace(s[0]) then TrimStart(s[1..]) else s
  }

  function TrimEnd(s: string): (t: string)
    ensures |t| <= |s| && t == s[..|t|]
    ensures forall i :: |t| <= i < |s| ==> IsJsSpace(s[i])
    ensures t != [] ==> !IsJsSpace(t[|t| - 1])
  {
    if s != [] && IsJsSpace(s[|s| - 1]) then TrimEnd(s[..|s| - 1]) else s
  }

  /** `String.prototype.trim`. */
  function Trim(s: string): string {
    TrimEnd(TrimStart(s))
  }

  /** `!name.trim()` holds exactly when every character is white space. */
  lemma TrimEmptyIffBlank(s: string)
    ensures Trim(s) == [] <==> forall i :: 0 <= i < |s| ==> IsJsSpace(s[i])
  {
  }

  /** One lookup call per slug, in order. */
  function LookupEffects(table: Table, slugs: seq<string>): (es: seq<Effect>)
    ensures |es| == |slugs|
  {
    if slugs == [] then [] else LookupEffects(table, slugs[..|slugs| - 1]) + [Lookup(table, slugs[|slugs| - 1])]
  }

  /** The i-th lookup call looks up the i-th slug. */
  lemma {:induction false} LookupEffectsAt(table: Table, slugs: seq<string>)
    ensures forall i :: 0 <= i < |slugs| ==> LookupEffects(table, slugs)[i] == Lookup(table, slugs[i])
    decreases |slugs|
  {
    if slugs != [] {
      var init := slugs[..|slugs| - 1];
      LookupEffectsAt(table, init);
      forall i | 0 <= i < |slugs| ensures LookupEffects(table, slugs)[i] == Lookup(table, slugs[i]) {
        if i < |init| {
          assert slugs[i] == init[i];
        }
      }
    }
  }

  function ProductPath(slug: string): string {
    "/product/" + slug + "/"
  }

  function UploadEffects(f: Form, now: nat): seq<Effect> {
    if f.image.Some? then [Upload(FileName(now, f.image.value))] else []
  }

  function ImageUrl(f: Form, b: Backend): string {
    if f.image.Some? then b.publicUrl else ""
  }

  /** Index of the category slug candidate the category loop settles on. */
  function CategoryStop(f: Form, s: Store, b: Backend): nat {
    FirstStop(GenerateSlug(f.newCategoryName), s.categorySlugs, b.categoryLookupErrors)
  }

  function CategorySlug(f: Form, s: Store, b: Backend): string {
    Candidate(GenerateSlug(f.newCategoryName), CategoryStop(f, s, b))
  }

  /** Index of the product slug candidate the product loop settles on. */
  function ProductStop(f: Form, s: Store, b: Backend): nat {
    FirstStop(GenerateSlug(f.name), s.productSlugs, b.productLookupErrors.Keys)
  }

  function ProductSlug(f: Form, s: Store, b: Backend): string {
    Candidate(GenerateSlug(f.name), ProductStop(f, s, b))
  }

  /** `categoryId` after the category step: the id the insert returned, or
      the selected option unchanged. */
  function CategoryId(f: Form, b: Backend): string
    requires f.selectedCategory == NewCategoryOption ==> b.categoryInsert.Success?
  {
    if f.selectedCategory == NewCategoryOption then b.categoryInsert.value else f.selectedCategory
  }

  function Row(f: Form, s: Store, b: Backend): ProductRow
    requires f.selectedCategory == NewCategoryOption ==> b.categoryInsert.Success?
  {
    ProductRow(f.name, ProductSlug(f, s, b), f.description, ImageUrl(f, b), f.price, f.currency, CategoryId(f, b))
  }

  // ---------------------------------------------------------------------------
  // The try block (lines 70-167)

  function Run(f: Form, s: Store, b: Backend, now: nat): Attempt {
    var upload := UploadEffects(f, now);
    if f.image.Some? && b.uploadError.Some? then
      Attempt(upload, s, Some(UploadPrefix + b.uploadError.value))
    else
      var r := AfterUpload(f, s, b);
      Attempt(upload + r.effects, r.store, r.failure)
  }

  /** Lines 90-167: the category step, then the product steps. */
  function AfterUpload(f: Form, s: Store, b: Backend): Attempt {
    if f.selectedCategory == NewCategoryOption then
      if Trim(f.newCategoryName) == [] then
        Attempt([], s, Some(BlankCategoryMessage))
      else if b.categoryInsert.Failure? then
        Attempt(CategoryEffects(f, s, b), s, Some(CategoryPrefix + b.categoryInsert.error))
      else
        var p := ProductSteps(f, s.(categorySlugs := s.categorySlugs + {CategorySlug(f, s, b)}), b);
        Attempt(CategoryEffects(f, s, b) + p.effects, p.store, p.failure)
    else
      ProductSteps(f, s, b)
  }

  /** Lines 96-121 for a new category: the slug search, then the insert. */
  function CategoryEffects(f: Form, s: Store, b: Backend): seq<Effect> {
    var categorySlug := GenerateSlug(f.newCategoryName);
    LookupEffects(Categories, Candidates(categorySlug, CategoryStop(f, s, b) + 1))
      + [InsertCategory(f.newCategoryName, CategorySlug(f, s, b))]
  }

  /** Lines 128-167: the product slug search, the upsert and the navigation. */
  function ProductSteps(f: Form, s: Store, b: Backend): Attempt
    requires f.selectedCategory == NewCategoryOption ==> b.categoryInsert.Success?
  {
    var baseSlug := GenerateSlug(f.name);
    var slug := ProductSlug(f, s, b);
    var checked := LookupEffects(Products, Candidates(baseSlug, ProductStop(f, s, b) + 1));
    if slug in b.productLookupErrors then
      Attempt(checked, s, Some(SlugCheckPrefix + b.productLookupErrors[slug]))
    else if b.productUpsertError.Some? then
      Attempt(checked + [UpsertProduct(Row(f, s, b))], s, Some(b.productUpsertError.value))
    else
      Attempt(checked + [UpsertProduct(Row(f, s, b))] + [Navigate(ProductPath(slug))],
              s.(productSlugs := s.productSlugs + {slug}), None)
  }

  /** Appending to a trace in two steps appends the concatenation. */
  lemma AppendAssoc<T>(a: seq<T>, b: seq<T>, c: seq<T>)
    ensures a + b + c == a + (b + c)
  {
  }

  // ---------------------------------------------------------------------------
  // The page

  class NewProductPage {
    var form: Form
    var loading: bool
    var error: string
    var store: Store
    var backend: Backend
    var effects: seq<Effect>

    /** The signals' initial values (lines 26-36). */
    constructor (store: Store, backend: Backend)
      ensures form == Form("", "", "", "BYN", None, NewCategoryOption, "")
      ensures !loading && error == ""
      ensures this.store == store && this.backend == backend && effects == []
    {
      form := Form("", "", "", "BYN", None, NewCategoryOption, "");
      loading := false;
      error := "";
      this.store := store;
      this.backend := backend;
      effects := [];
    }

    /** The try block: every `throw` is a return with the error's message. */
    method TrySubmit(now: nat) returns (failure: Option<string>)
      modifies this
      ensures form == old(form) && backend == old(backend)
      ensures loading == old(loading) && error == old(error)
      ensures var a := Run(old(form), old(store), old(backend), now);
        effects == old(effects) + a.effects && store == a.store && failure == a.failure
    {
      ghost var r := AfterUpload(form, store, backend);
      var imageUrl;
      failure, imageUrl := UploadImage(now);
      if failure.Some? {
        return;
      }
      failure := SaveWithCategory(imageUrl);
      AppendAssoc(old(effects), UploadEffects(form, now), r.effects);
    }

    /** Lines 73-88 of the try block: upload the chosen file, if any, under a
        name made of the current time and the file's extension. */
    method UploadImage(now: nat) returns (failure: Option<string>, imageUrl: string)
      modifies this
      ensures form == old(form) && backend == old(backend) && store == old(store)
      ensures loading == old(loading) && error == old(error)
      ensures effects == old(effects) + UploadEffects(form, now)
      ensures failure == if form.image.Some? && backend.uploadError.Some?
        then Some(UploadPrefix + backend.uploadError.value) else None
      ensures failure.None? ==> imageUrl == ImageUrl(form, backend)
    {
      imageUrl := "";
      failure := None;
      if form.image.Some? {
        var fileName := FileName(now, form.image.value);
        effects := effects + [Upload(fileName)];
        if backend.uploadError.Some? {
          failure := Some(UploadPrefix + backend.uploadError.value);
          return;
        }
        imageUrl := backend.publicUrl;
      }
    }

    /** Lines 90-167 of the try block. */
    method SaveWithCategory(imageUrl: string) returns (failure: Option<string>)
      requires imageUrl == ImageUrl(form, backend)
      modifies this
      ensures form == old(form) && backend == old(backend)
      ensures loading == old(loading) && error == old(error)
      ensures var r := AfterUpload(old(form), old(store), old(backend));
        effects == old(effects) + r.effects && store == r.store && failure == r.failure
    {
      var categoryId := "";
      if form.selectedCategory == NewCategoryOption {
        if Trim(form.newCategoryName) == [] {
          return Some(BlankCategoryMessage);
        }
        failure, categoryId := CreateCategory();
        if failure.Some? {
          return;
        }
        ghost var p := ProductSteps(form, store, backend);
        failure := SaveProduct(imageUrl, categoryId);
        AppendAssoc(old(effects), CategoryEffects(old(form), old(store), old(backend)), p.effects);
      } else {
        categoryId := form.selectedCategory;
        failure := SaveProduct(imageUrl, categoryId);
      }
    }

    /** Lines 96-123 of the try block. */
    method CreateCategory() returns (failure: Option<string>, categoryId: string)
      modifies this
      ensures form == old(form) && backend == old(backend)
      ensures loading == old(loading) && error == old(error)
      ensures effects == old(effects) + CategoryEffects(old(form), old(store), old(backend))
      ensures backend.categoryInsert.Failure? ==>
        store == old(store) && failure == Some(CategoryPrefix + backend.categoryInsert.error)
      ensures backend.categoryInsert.Success? ==>
        && store == old(store).(categorySlugs := old(store).categorySlugs + {CategorySlug(old(form), old(store), old(backend))})
        && failure.None? && categoryId == backend.categoryInsert.value
    {
      var categorySlug := GenerateSlug(form.newCategoryName);
      var uniqueSlug, lookups :=
        ResolveCategorySlug(categorySlug, store.categorySlugs, backend.categoryLookupErrors);
      effects := effects + LookupEffects(Categories, lookups);
      effects := effects + [InsertCategory(form.newCategoryName, uniqueSlug)];
      if backend.categoryInsert.Failure? {
        return Some(CategoryPrefix + backend.categoryInsert.error), "";
      }
      store := store.(categorySlugs := store.categorySlugs + {uniqueSlug});
      return None, backend.categoryInsert.value;
    }

    /** Lines 128-167 of the try block. */
    method SaveProduct(imageUrl: string, categoryId: string) returns (failure: Option<string>)
      requires form.selectedCategory == NewCategoryOption ==> backend.categoryInsert.Success?
      requires imageUrl == ImageUrl(form, backend) && categoryId == CategoryId(form, backend)
      modifies this
      ensures form == old(form) && backend == old(backend)
      ensures loading == old(loading) && error == old(error)
      ensures var p := ProductSteps(old(form), old(store), old(backend));
        effects == old(effects) + p.effects && store == p.store && failure == p.failure
    {
      var baseSlug := GenerateSlug(form.name);
      var resolved, lookups := ResolveProductSlug(baseSlug, store.productSlugs, backend.productLookupErrors);
      var checked := LookupEffects(Products, lookups);
      effects := effects + checked;
      if resolved.Failure? {
        return Some(resolved.error);
      }
      var slug := resolved.value;
      var row := ProductRow(form.name, slug, form.description, imageUrl, form.price, form.currency, categoryId);
      effects := effects + [UpsertProduct(row)];
      AppendAssoc(old(effects), checked, [UpsertProduct(row)]);
      if backend.productUpsertError.Some? {
        return Some(backend.productUpsertError.value);
      }
      store := store.(productSlugs := store.productSlugs + {slug});
      effects := effects + [Navigate(ProductPath(slug))];
      AppendAssoc(old(effects), checked + [UpsertProduct(row)], [Navigate(ProductPath(slug))]);
      return None;
    }

    /** `onSubmit`: clears `error`, raises `loading`, runs the try block,
        stores the thrown message in `error`, and lowers `loading` in `finally`. */
    method Submit(now: nat)
      modifies this
      ensures form == old(form) && backend == old(backend)
      ensures var a := Run(old(form), old(store), old(backend), now);
        && effects == old(effects) + a.effects
        && store == a.store
        && error == (if a.failure.Some? then a.failure.value else "")
      ensures !loading
    {
      error := "";
      loading := true;
      var failure := TrySubmit(now);
      if failure.Some? {
        error := failure.value;
      }
      loading := false;
    }
  }
}
