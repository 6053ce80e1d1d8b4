/**
 * What the try block of `onSubmit` (src/routes/product/new/index.tsx:70-167)
 * guarantees, stated over `NewProduct.Run`: which backend calls happen, in
 * what order, what the store holds afterwards and which message is thrown.
 */
module NewProductLaws {
  import opened Wrappers
  import opened Slug
  import opened UniqueSlug
  import opened NewProduct

  /** A call made before the product is written: the upload, a slug lookup or
      the category insert. */
  predicate Preparatory(e: Effect) {
    e.Upload? || e.Lookup? || e.InsertCategory?
  }

  predicate AllPreparatory(es: seq<Effect>) {
    forall i :: 0 <= i < |es| ==> Preparatory(es[i])
  }

  /** A call that touches the categories table. */
  predicate TouchesCategories(e: Effect) {
    (e.Lookup? && e.table == Categories) || e.InsertCategory?
  }

  /** Whether the try block runs to the navigation without throwing. */
  predicate Succeeds(f: Form, s: Store, b: Backend) {
    && !(f.image.Some? && b.uploadError.Some?)
    && (f.selectedCategory == NewCategoryOption ==>
          Trim(f.newCategoryName) != [] && b.categoryInsert.Success?)
    && ProductSlug(f, s, b) !in b.productLookupErrors
    && b.productUpsertError.None?
  }

  lemma PreparatoryConcat(a: seq<Effect>, b: seq<Effect>)
    requires AllPreparatory(a) && AllPreparatory(b)
    ensures AllPreparatory(a + b)
  {
    forall i | 0 <= i < |a + b| ensures Preparatory((a + b)[i]) {
      if i >= |a| {
        assert (a + b)[i] == b[i - |a|];
      }
    }
  }

  lemma LookupsArePreparatory(t: Table, slugs: seq<string>)
    ensures AllPreparatory(LookupEffects(t, slugs))
  {
    LookupEffectsAt(t, slugs);
  }

  /** The category step only looks up category slugs and inserts the
      category. */
  lemma CategoryEffectsArePreparatory(f: Form, s: Store, b: Backend)
    ensures AllPreparatory(CategoryEffects(f, s, b))
    ensures forall i :: 0 <= i < |CategoryEffects(f, s, b)| ==> TouchesCategories(CategoryEffects(f, s, b)[i])
  {
    var base := GenerateSlug(f.newCategoryName);
    LookupEffectsAt(Categories, Candidates(base, CategoryStop(f, s, b) + 1));
    LookupsArePreparatory(Categories, Candidates(base, CategoryStop(f, s, b) + 1));
    PreparatoryConcat(LookupEffects(Categories, Candidates(base, CategoryStop(f, s, b) + 1)),
                      [InsertCategory(f.newCategoryName, CategorySlug(f, s, b))]);
  }

  /** The product steps change only the product slugs, and only the category
      id of the row depends on the category step. */
  lemma ProductStepsIgnoreCategories(f: Form, s: Store, b: Backend, t: set<string>)
    requires f.selectedCategory == NewCategoryOption ==> b.categoryInsert.Success?
    ensures ProductSlug(f, s.(categorySlugs := t), b) == ProductSlug(f, s, b)
    ensures Row(f, s.(categorySlugs := t), b) == Row(f, s, b)
    ensures var p := ProductSteps(f, s, b);
      ProductSteps(f, s.(categorySlugs := t), b) == p.(store := p.store.(categorySlugs := t))
  {
  }

  /** A trace that ends by upserting `row` and then navigating to `path`, with
      only preparatory calls before. */
  predicate EndsWithSave(es: seq<Effect>, row: ProductRow, path: string) {
    && |es| >= 2
    && AllPreparatory(es[..|es| - 2])
    && es[|es| - 2] == UpsertProduct(row)
    && es[|es| - 1] == Navigate(path)
  }

  /** Lines 128-167 on their own: the slug lookups, then at most the upsert
      and the navigation, which come only when nothing failed. */
  lemma ProductStepsShape(f: Form, s: Store, b: Backend)
    requires f.selectedCategory == NewCategoryOption ==> b.categoryInsert.Success?
    ensures var p := ProductSteps(f, s, b);
      var n := |p.effects|;
      var slug := ProductSlug(f, s, b);
      && p.store.categorySlugs == s.categorySlugs
      && (p.failure.None? <==> slug !in b.productLookupErrors && b.productUpsertError.None?)
      && (p.failure.None? ==>
            && EndsWithSave(p.effects, Row(f, s, b), ProductPath(slug))
            && p.effects[..n - 2] == LookupEffects(Products, Candidates(GenerateSlug(f.name), ProductStop(f, s, b) + 1))
            && p.store.productSlugs == s.productSlugs + {slug})
      && (p.failure.Some? ==>
            && p.store == s
            && NoNavigation(p.effects))
  {
    var base := GenerateSlug(f.name);
    var checked := LookupEffects(Products, Candidates(base, ProductStop(f, s, b) + 1));
    LookupsArePreparatory(Products, Candidates(base, ProductStop(f, s, b) + 1));
    var p := ProductSteps(f, s, b);
    if p.failure.None? {
      assert p.effects[..|p.effects| - 2] == checked;
    }
  }

  /** An upload failure aborts with "Ошибка загрузки: " and the message, after
      the upload and before any lookup or write. */
  lemma UploadFailureAborts(f: Form, s: Store, b: Backend, now: nat)
    requires f.image.Some? && b.uploadError.Some?
    ensures var a := Run(f, s, b, now);
      && a.effects == [Upload(FileName(now, f.image.value))]
      && a.store == s
      && a.failure == Some(UploadPrefix + b.uploadError.value)
  {
  }

  /** A new category whose name is white space only aborts before any lookup
      or write, but after the image, if any, was uploaded. */
  lemma BlankCategoryAborts(f: Form, s: Store, b: Backend, now: nat)
    requires !(f.image.Some? && b.uploadError.Some?)
    requires f.selectedCategory == NewCategoryOption
    requires forall i :: 0 <= i < |f.newCategoryName| ==> IsJsSpace(f.newCategoryName[i])
    ensures var a := Run(f, s, b, now);
      && a.effects == UploadEffects(f, now)
      && a.store == s
      && a.failure == Some(BlankCategoryMessage)
  {
    TrimEmptyIffBlank(f.newCategoryName);
  }

  /** A failed category insert aborts with "Ошибка категории: " and the
      message; the upload, the category lookups and the insert were made,
      and nothing of the product was. */
  lemma CategoryInsertFailureAborts(f: Form, s: Store, b: Backend, now: nat)
    requires !(f.image.Some? && b.uploadError.Some?)
    requires f.selectedCategory == NewCategoryOption && Trim(f.newCategoryName) != []
    requires b.categoryInsert.Failure?
    ensures var a := Run(f, s, b, now);
      && a.effects == UploadEffects(f, now) + CategoryEffects(f, s, b)
      && |a.effects| >= 1
      && AllPreparatory(a.effects)
      && a.effects[|a.effects| - 1] == InsertCategory(f.newCategoryName, CategorySlug(f, s, b))
      && a.store == s
      && a.failure == Some(CategoryPrefix + b.categoryInsert.error)
  {
    CategoryEffectsArePreparatory(f, s, b);
    PreparatoryConcat(UploadEffects(f, now), CategoryEffects(f, s, b));
  }

  /** The try block completes exactly when the upload, the category step, the
      product slug lookups and the upsert all succeed. */
  lemma SucceedsIff(f: Form, s: Store, b: Backend, now: nat)
    ensures Run(f, s, b, now).failure.None? <==> Succeeds(f, s, b)
  {
    if !(f.image.Some? && b.uploadError.Some?) && f.selectedCategory == NewCategoryOption
       && Trim(f.newCategoryName) != [] && b.categoryInsert.Success? {
      ProductStepsIgnoreCategories(f, s, b, s.categorySlugs + {CategorySlug(f, s, b)});
      ProductStepsShape(f, s, b);
    } else if f.selectedCategory != NewCategoryOption && !(f.image.Some? && b.uploadError.Some?) {
      ProductStepsShape(f, s, b);
    }
  }

  /** The calls made before the product steps: the upload and, for a new
      category, its slug lookups and insert. */
  function PrefixEffects(f: Form, s: Store, b: Backend, now: nat): seq<Effect> {
    if f.selectedCategory == NewCategoryOption
    then UploadEffects(f, now) + CategoryEffects(f, s, b)
    else UploadEffects(f, now)
  }

  /** The try block with an existing category: the upload, then the product
      steps. */
  lemma RunExisting(f: Form, s: Store, b: Backend, now: nat)
    requires !(f.image.Some? && b.uploadError.Some?)
    requires f.selectedCategory != NewCategoryOption
    ensures var p := ProductSteps(f, s, b);
      Run(f, s, b, now) == Attempt(UploadEffects(f, now) + p.effects, p.store, p.failure)
  {
  }

  /** The try block with a new category that was inserted: the upload, the
      category step, then the product steps against the grown store. */
  lemma RunNewCategory(f: Form, s: Store, b: Backend, now: nat)
    requires !(f.image.Some? && b.uploadError.Some?)
    requires f.selectedCategory == NewCategoryOption
    requires Trim(f.newCategoryName) != [] && b.categoryInsert.Success?
    ensures var p := ProductSteps(f, s.(categorySlugs := s.categorySlugs + {CategorySlug(f, s, b)}), b);
      Run(f, s, b, now) == Attempt(UploadEffects(f, now) + (CategoryEffects(f, s, b) + p.effects), p.store, p.failure)
  {
  }

  /** Once the upload and the category step have passed, the try block is the
      product steps after the preparatory calls. */
  lemma RunDecomposes(f: Form, s: Store, b: Backend, now: nat)
    requires !(f.image.Some? && b.uploadError.Some?)
    requires f.selectedCategory == NewCategoryOption ==>
      Trim(f.newCategoryName) != [] && b.categoryInsert.Success?
    ensures var a, p := Run(f, s, b, now), ProductSteps(f, s, b);
      && AllPreparatory(PrefixEffects(f, s, b, now))
      && a.effects == PrefixEffects(f, s, b, now) + p.effects
      && a.failure == p.failure
      && a.store.productSlugs == p.store.productSlugs
      && a.store.categorySlugs == if f.selectedCategory == NewCategoryOption
           then s.categorySlugs + {CategorySlug(f, s, b)} else s.categorySlugs
  {
    if f.selectedCategory == NewCategoryOption {
      RunDecomposesNew(f, s, b, now);
    } else {
      RunExisting(f, s, b, now);
      ProductStepsShape(f, s, b);
    }
  }

  lemma RunDecomposesNew(f: Form, s: Store, b: Backend, now: nat)
    requires !(f.image.Some? && b.uploadError.Some?)
    requires f.selectedCategory == NewCategoryOption
    requires Trim(f.newCategoryName) != [] && b.categoryInsert.Success?
    ensures var a, p := Run(f, s, b, now), ProductSteps(f, s, b);
      && AllPreparatory(UploadEffects(f, now) + CategoryEffects(f, s, b))
      && a.effects == UploadEffects(f, now) + CategoryEffects(f, s, b) + p.effects
      && a.failure == p.failure
      && a.store.productSlugs == p.store.productSlugs
      && a.store.categorySlugs == s.categorySlugs + {CategorySlug(f, s, b)}
  {
    var t := s.categorySlugs + {CategorySlug(f, s, b)};
    var u, c, p := UploadEffects(f, now), CategoryEffects(f, s, b), ProductSteps(f, s, b);
    RunNewCategory(f, s, b, now);
    ProductStepsIgnoreCategories(f, s, b, t);
    CategoryEffectsArePreparatory(f, s, b);
    PreparatoryConcat(u, c);
    AppendAssoc(u, c, p.effects);
  }

  /** When the lookup of the chosen candidate did not fail, the chosen product
      slug is free and every product slug candidate before it is taken. */
  lemma ProductSlugIsFirstFree(f: Form, s: Store, b: Backend)
    requires ProductSlug(f, s, b) !in b.productLookupErrors
    ensures ProductSlug(f, s, b) !in s.productSlugs
    ensures forall i :: 0 <= i < ProductStop(f, s, b) ==> Candidate(GenerateSlug(f.name), i) in s.productSlugs
  {
    var base := GenerateSlug(f.name);
    FirstStopSpec(base, s.productSlugs, b.productLookupErrors.Keys);
    forall i | 0 <= i < ProductStop(f, s, b) ensures Candidate(base, i) in s.productSlugs {
      assert Collides(base, s.productSlugs, b.productLookupErrors.Keys, i);
    }
  }

  /** A successful run makes exactly one product upsert, carrying the slug the
      search settled on, as the second last call, and then navigates to
      "/product/" + slug + "/". The slug was free and every earlier candidate
      was taken; the product slugs gain it and nothing else. */
  lemma SuccessfulRun(f: Form, s: Store, b: Backend, now: nat)
    requires Succeeds(f, s, b)
    ensures var a := Run(f, s, b, now);
      var n := |a.effects|;
      var slug := ProductSlug(f, s, b);
      && a.failure.None?
      && n >= 2
      && AllPreparatory(a.effects[..n - 2])
      && a.effects[n - 2] == UpsertProduct(Row(f, s, b))
      && Row(f, s, b).slug == slug
      && a.effects[n - 1] == Navigate("/product/" + slug + "/")
      && slug !in s.productSlugs
      && (forall i :: 0 <= i < ProductStop(f, s, b) ==> Candidate(GenerateSlug(f.name), i) in s.productSlugs)
      && a.store.productSlugs == s.productSlugs + {slug}
      && a.store.categorySlugs == if f.selectedCategory == NewCategoryOption
           then s.categorySlugs + {CategorySlug(f, s, b)} else s.categorySlugs
  {
    ProductSlugIsFirstFree(f, s, b);
    SuccessfulTrace(f, s, b, now);
  }

  lemma SuccessfulTrace(f: Form, s: Store, b: Backend, now: nat)
    requires Succeeds(f, s, b)
    ensures var a := Run(f, s, b, now);
      && a.failure.None?
      && EndsWithSave(a.effects, Row(f, s, b), ProductPath(ProductSlug(f, s, b)))
      && a.store.productSlugs == s.productSlugs + {ProductSlug(f, s, b)}
      && a.store.categorySlugs == if f.selectedCategory == NewCategoryOption
           then s.categorySlugs + {CategorySlug(f, s, b)} else s.categorySlugs
  {
    var x, p := PrefixEffects(f, s, b, now), ProductSteps(f, s, b);
    RunDecomposes(f, s, b, now);
    ProductStepsShape(f, s, b);
    SaveAfterPreparatory(x, p.effects, Row(f, s, b), ProductPath(ProductSlug(f, s, b)));
  }

  /** Preparatory calls in front of a trace that ends with the save keep it
      ending with the save. */
  lemma SaveAfterPreparatory(x: seq<Effect>, y: seq<Effect>, row: ProductRow, path: string)
    requires AllPreparatory(x) && EndsWithSave(y, row, path)
    ensures EndsWithSave(x + y, row, path)
  {
    var z := x + y;
    var w := z[..|z| - 2];
    forall i | 0 <= i < |w| ensures Preparatory(w[i]) {
      if i >= |x| {
        assert w[i] == y[..|y| - 2][i - |x|];
      }
    }
  }

  /** No navigation in the trace. */
  predicate NoNavigation(es: seq<Effect>) {
    forall i :: 0 <= i < |es| ==> !es[i].Navigate?
  }

  /** The attempt navigated nowhere and left the product slugs of `s` as they were. */
  predicate AddsNoProduct(a: Attempt, s: Store) {
    a.store.productSlugs == s.productSlugs && NoNavigation(a.effects)
  }

  /** Whatever fails, no navigation happens and no product slug is added. */
  lemma FailedRunAddsNoProduct(f: Form, s: Store, b: Backend, now: nat)
    requires Run(f, s, b, now).failure.Some?
    ensures AddsNoProduct(Run(f, s, b, now), s)
  {
    if f.image.Some? && b.uploadError.Some? {
      UploadFailureAborts(f, s, b, now);
      NoNavigationInPreparatory(Run(f, s, b, now).effects);
    } else if f.selectedCategory == NewCategoryOption && (Trim(f.newCategoryName) == [] || b.categoryInsert.Failure?) {
      CategoryFailureAddsNoProduct(f, s, b, now);
    } else {
      ProductFailureAddsNoProduct(f, s, b, now);
    }
  }

  lemma NoNavigationInPreparatory(es: seq<Effect>)
    requires AllPreparatory(es)
    ensures NoNavigation(es)
  {
  }

  lemma CategoryFailureAddsNoProduct(f: Form, s: Store, b: Backend, now: nat)
    requires !(f.image.Some? && b.uploadError.Some?)
    requires f.selectedCategory == NewCategoryOption
    requires Trim(f.newCategoryName) == [] || b.categoryInsert.Failure?
    ensures AddsNoProduct(Run(f, s, b, now), s)
  {
    if Trim(f.newCategoryName) == [] {
      TrimEmptyIffBlank(f.newCategoryName);
      BlankCategoryAborts(f, s, b, now);
      assert AllPreparatory(UploadEffects(f, now));
    } else {
      CategoryInsertFailureAborts(f, s, b, now);
    }
    NoNavigationInPreparatory(Run(f, s, b, now).effects);
  }

  lemma ProductFailureAddsNoProduct(f: Form, s: Store, b: Backend, now: nat)
    requires !(f.image.Some? && b.uploadError.Some?)
    requires f.selectedCategory == NewCategoryOption ==>
      Trim(f.newCategoryName) != [] && b.categoryInsert.Success?
    requires Run(f, s, b, now).failure.Some?
    ensures AddsNoProduct(Run(f, s, b, now), s)
  {
    RunDecomposes(f, s, b, now);
    ProductStepsShape(f, s, b);
    NoNavigationConcat(PrefixEffects(f, s, b, now), ProductSteps(f, s, b).effects);
  }

  lemma NoNavigationConcat(a: seq<Effect>, b: seq<Effect>)
    requires AllPreparatory(a)
    requires NoNavigation(b)
    ensures NoNavigation(a + b)
  {
    forall i | 0 <= i < |a + b| ensures !(a + b)[i].Navigate? {
      if i >= |a| {
        assert (a + b)[i] == b[i - |a|];
      }
    }
  }

  /** A category created before the product step failed stays in the store:
      nothing rolls the insert back. */
  lemma CreatedCategoryIsNotRolledBack(f: Form, s: Store, b: Backend, now: nat)
    requires !(f.image.Some? && b.uploadError.Some?)
    requires f.selectedCategory == NewCategoryOption && Trim(f.newCategoryName) != []
    requires b.categoryInsert.Success?
    requires ProductSlug(f, s, b) in b.productLookupErrors || b.productUpsertError.Some?
    ensures var a := Run(f, s, b, now);
      && a.failure.Some?
      && a.store.categorySlugs == s.categorySlugs + {CategorySlug(f, s, b)}
      && a.store.productSlugs == s.productSlugs
  {
    var t := s.categorySlugs + {CategorySlug(f, s, b)};
    ProductStepsIgnoreCategories(f, s, b, t);
    ProductStepsShape(f, s.(categorySlugs := t), b);
  }

  /** A call that could come from the product steps with category `id`: it
      does not touch the categories table, and an upsert carries `id`. */
  predicate OutsideCategories(e: Effect, id: string) {
    !TouchesCategories(e) && (e.UpsertProduct? ==> e.row.categoryId == id)
  }

  predicate AllOutsideCategories(es: seq<Effect>, id: string) {
    forall i :: 0 <= i < |es| ==> OutsideCategories(es[i], id)
  }

  lemma OutsideCategoriesConcat(a: seq<Effect>, b: seq<Effect>, id: string)
    requires AllOutsideCategories(a, id) && AllOutsideCategories(b, id)
    ensures AllOutsideCategories(a + b, id)
  {
    forall i | 0 <= i < |a + b| ensures OutsideCategories((a + b)[i], id) {
      if i >= |a| {
        assert (a + b)[i] == b[i - |a|];
      }
    }
  }

  lemma ProductStepsOutsideCategories(f: Form, s: Store, b: Backend)
    requires f.selectedCategory != NewCategoryOption
    ensures AllOutsideCategories(ProductSteps(f, s, b).effects, f.selectedCategory)
  {
    var base := GenerateSlug(f.name);
    var checked := LookupEffects(Products, Candidates(base, ProductStop(f, s, b) + 1));
    LookupEffectsAt(Products, Candidates(base, ProductStop(f, s, b) + 1));
    assert AllOutsideCategories(checked, f.selectedCategory);
    var row := Row(f, s, b);
    OutsideCategoriesConcat(checked, [UpsertProduct(row)], f.selectedCategory);
    OutsideCategoriesConcat(checked + [UpsertProduct(row)], [Navigate(ProductPath(ProductSlug(f, s, b)))], f.selectedCategory);
  }

  /** With an existing category the categories table is never touched, and
      the upserted row carries the selected id unchanged. */
  lemma ExistingCategoryPassedThrough(f: Form, s: Store, b: Backend, now: nat)
    requires f.selectedCategory != NewCategoryOption
    ensures var a := Run(f, s, b, now);
      && a.store.categorySlugs == s.categorySlugs
      && (forall i :: 0 <= i < |a.effects| ==> !TouchesCategories(a.effects[i]))
      && (forall i :: 0 <= i < |a.effects| && a.effects[i].UpsertProduct? ==>
            a.effects[i].row.categoryId == f.selectedCategory)
  {
    var a := Run(f, s, b, now);
    var id := f.selectedCategory;
    if f.image.Some? && b.uploadError.Some? {
      UploadFailureAborts(f, s, b, now);
      assert AllOutsideCategories(a.effects, id);
    } else {
      var p := ProductSteps(f, s, b);
      RunExisting(f, s, b, now);
      ProductStepsShape(f, s, b);
      ProductStepsOutsideCategories(f, s, b);
      assert AllOutsideCategories(UploadEffects(f, now), id);
      OutsideCategoriesConcat(UploadEffects(f, now), p.effects, id);
    }
    OutsideMeansUntouched(a.effects, id);
  }

  lemma OutsideMeansUntouched(es: seq<Effect>, id: string)
    requires AllOutsideCategories(es, id)
    ensures forall i :: 0 <= i < |es| ==> !TouchesCategories(es[i])
    ensures forall i :: 0 <= i < |es| && es[i].UpsertProduct? ==> es[i].row.categoryId == id
  {
  }

  lemma CategoryEffectsLength(f: Form, s: Store, b: Backend)
    ensures |CategoryEffects(f, s, b)| <= |s.categorySlugs| + 2
  {
    FirstStopSpec(GenerateSlug(f.newCategoryName), s.categorySlugs, b.categoryLookupErrors);
  }

  lemma ProductStepsLength(f: Form, s: Store, b: Backend)
    requires f.selectedCategory == NewCategoryOption ==> b.categoryInsert.Success?
    ensures |ProductSteps(f, s, b).effects| <= |s.productSlugs| + 3
  {
    FirstStopSpec(GenerateSlug(f.name), s.productSlugs, b.productLookupErrors.Keys);
  }

  /** The number of backend calls and navigations of one submission is
      bounded by the sizes of the two tables: each slug search makes at most
      one lookup more than its table has rows. */
  lemma EffectsBounded(f: Form, s: Store, b: Backend, now: nat)
    ensures |Run(f, s, b, now).effects| <= |s.categorySlugs| + |s.productSlugs| + 6
  {
    AfterUploadLength(f, s, b);
  }

  lemma AfterUploadLength(f: Form, s: Store, b: Backend)
    ensures |AfterUpload(f, s, b).effects| <= |s.categorySlugs| + |s.productSlugs| + 5
  {
    CategoryEffectsLength(f, s, b);
    if f.selectedCategory == NewCategoryOption && b.categoryInsert.Success? {
      var t := s.categorySlugs + {CategorySlug(f, s, b)};
      ProductStepsIgnoreCategories(f, s, b, t);
      ProductStepsLength(f, s, b);
    } else if f.selectedCategory != NewCategoryOption {
      ProductStepsLength(f, s, b);
    }
  }

}
