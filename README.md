# Catalogue admin: new-product submission and sidebar navigation

A Dafny model of the logic in a small Qwik shop catalogue backed by a hosted
Supabase database. The model covers two parts.

The "add a new product" form (`src/routes/product/new/index.tsx`):

- `generateSlug`: lowercase, collapse every run of characters outside
  `[a-z0-9]` into one `-`, and strip a leading and a trailing `-`.
- The two unique-slug searches. They try `base`, `base-1`, `base-2`, … and
  stop at the first candidate whose lookup reports no row.
- `onSubmit`, which runs five steps in order:
  1. an optional image upload;
  2. a new category (blank-name check, unique slug, insert) or the selected
     one;
  3. a unique product slug;
  4. one product upsert;
  5. the navigation to the product page.

  Every failure throws, except a failed category slug lookup, which counts
  as a free slug. The thrown message lands in the `error` signal, and
  `loading` is lowered in `finally`.

The sidebar (`src/components/Sidebar.tsx`):

- the filter that extracts a product slug from the URL;
- `toggleCategory`;
- the single-key updates of the `isCategoryOpen` and `products` maps;
- the guard that shows a category's product list only when it is open and
  selected.

Files:

- `wrappers.dfy`: `Option` and `Result`.
- `slug.dfy`: `generateSlug` as three string transforms. A reference
  definition (the maximal `[a-z0-9]` runs joined by `-`) is proved equal to
  it. Idempotence and the shape of a slug are proved from there.
- `unique_slug.dfy`: the candidates and the search as a specification
  function (`FirstStop`). The two `while (true)` loops are methods proved
  against it. Termination comes from a pigeonhole argument over the finite
  set of taken slugs.
- `new_product.dfy`:
  - The backend is the set of category slugs and the set of product slugs.
    Oracle values give the result of each call.
  - Every call and the final navigation are recorded in an effect trace.
  - `Run` is the try block as a function.
  - The class `NewProductPage` holds the page's signals. Its methods are
    proved to do exactly what `Run` says.
- `new_product_laws.dfy`: what the try block guarantees (which calls happen,
  in what order, what the store holds and which message is thrown).
- `sidebar.dfy`: the URL filter, the render guard and the product panel. The
  class `SidebarState` holds the sidebar's signals, and its methods are the
  tasks and `toggleCategory`.
- `navigation.dfy`: how the navigation at the end of a successful submission
  meets the sidebar's URL filter.

## Model

| member | source | states |
|---|---|---|
| NewProduct.Run | src/routes/product/new/index.tsx:70-167 | definition of the try block (calls made, store afterwards, message thrown); characterised by SucceedsIff, SuccessfulRun, FailedRunAddsNoProduct and the abort lemmas, and TrySubmit is proved to do what it says |
| NewProduct.AfterUpload | src/routes/product/new/index.tsx:90-167 | definition of the category step followed by the product steps; characterised by RunDecomposes, and SaveWithCategory is proved to do what it says |
| NewProduct.CategoryEffects | src/routes/product/new/index.tsx:96-121 | definition of the category step's calls; characterised by CategoryEffectsArePreparatory and CategoryEffectsLength, and CreateCategory is proved to make them |
| NewProduct.ProductSteps | src/routes/product/new/index.tsx:128-167 | definition of the product steps; characterised by ProductStepsShape and ProductStepsLength, and SaveProduct is proved to do what it says |
| NewProduct.Row | src/routes/product/new/index.tsx:150-158 | definition of the upserted row; characterised by SuccessfulRun (it carries the resolved slug) and ExistingCategoryPassedThrough (it carries the selected id) |
| NewProduct.Extension | src/routes/product/new/index.tsx:75 | definition of `split(".").pop()`; characterised by ExtensionIsLastPiece |
| NewProduct.FileName | src/routes/product/new/index.tsx:76 | definition of `${Date.now()}.${ext}`, with the clock reading as a parameter |
| NewProduct.Trim | src/routes/product/new/index.tsx:92 | definition of `trim`; characterised by TrimStart, TrimEnd and TrimEmptyIffBlank |
| Slug.Lower | src/routes/product/new/index.tsx:14 | definition of ASCII lowercasing; characterised by LowerOfSlug and SlugIsJoinedRuns |
| Slug.CollapseRuns | src/routes/product/new/index.tsx:15 | definition of the first replacement; characterised by CollapseFromRun and CollapseThenStrip |
| Slug.StripDashes | src/routes/product/new/index.tsx:16 | definition of the second replacement; characterised by StripAround and CollapseThenStrip |
| UniqueSlug.Decimal | src/routes/product/new/index.tsx:112 | the decimal text of a counter is at least one character; characterised by DecimalInjective and DecimalDigits |
| UniqueSlug.Candidate | src/routes/product/new/index.tsx:112 | definition of the k-th slug tried; characterised by CandidateInjective |
| UniqueSlug.FirstStop | src/routes/product/new/index.tsx:101-113 | definition of where the search stops; characterised by FirstStopSpec, FirstStopUnique and SearchFindsSmallestFree |
| Sidebar.IsOpen | src/components/Sidebar.tsx:104 | definition of `isCategoryOpen.value[c]`, a missing key reading as false; used by ToggleCategory and the guard |
| Sidebar.Expanded | src/components/Sidebar.tsx:137-138 | definition of the render guard; characterised by ExpandedIds, AtMostOneExpanded and ExpandedIsSelected |
| Sidebar.StartsWith | src/components/Sidebar.tsx:50 | definition of `startsWith`; used by PathSlug |
| Sidebar.EndsWith | src/components/Sidebar.tsx:50 | definition of `endsWith`; used by PathSlug |
| Slug.RunLength | src/routes/product/new/index.tsx:15 | the length of the longest prefix whose characters are all inside [a-z0-9] (or all outside): each of them is in the class and the next one is not |
| Slug.GenerateSlug | src/routes/product/new/index.tsx:12-16 | the result is a well-formed slug: only [a-z0-9] and '-', no leading or trailing '-', never two '-' in a row |
| Slug.Runs | src/routes/product/new/index.tsx:15 | every maximal run it lists is a non-empty word of [a-z0-9] characters |
| Slug.JoinedRunsIsSlug | src/routes/product/new/index.tsx:12-16 | words of [a-z0-9] joined by '-' form a well-formed slug, empty exactly when there are no words, starting with the first word's first character |
| Slug.CollapseFromRun | src/routes/product/new/index.tsx:15 | on text that starts inside [a-z0-9], the regex replacement gives the runs joined by '-', plus one '-' when the text ends outside [a-z0-9] |
| Slug.StripAround | src/routes/product/new/index.tsx:16 | the second replacement removes exactly one optional leading '-' and one optional trailing '-' around text that neither starts nor ends with '-' |
| Slug.CollapseThenStrip | src/routes/product/new/index.tsx:15-16 | the two regex replacements together equal the maximal [a-z0-9] runs joined by '-' |
| Slug.SlugIsJoinedRuns | src/routes/product/new/index.tsx:12-16 | generateSlug(text) is the maximal [a-z0-9] runs of the lowercased text joined by '-' |
| Slug.RunsOfSlug | src/routes/product/new/index.tsx:15-16 | a well-formed slug is its own list of runs, joined |
| Slug.LowerOfSlug | src/routes/product/new/index.tsx:14 | lowercasing leaves a well-formed slug unchanged |
| Slug.SlugFixpoint | src/routes/product/new/index.tsx:12-16 | every well-formed slug is a fixed point of generateSlug |
| Slug.GenerateSlugIdempotent | src/routes/product/new/index.tsx:12-16 | generateSlug(generateSlug(t)) == generateSlug(t) for every text |
| Slug.NoRunsWithoutAlnum | src/routes/product/new/index.tsx:15 | text with no [a-z0-9] character has no runs |
| Slug.NoAsciiAlnumGivesEmptySlug | src/routes/product/new/index.tsx:12-16 | a name with no ASCII letter or digit slugs to "" |
| Slug.CyrillicNameGivesEmptySlug | src/routes/product/new/index.tsx:12-16 | a name made only of Cyrillic letters (U+0400..U+04FF) slugs to "" |
| Slug.SlugExampleChair | src/routes/product/new/index.tsx:12-16 | "Chair" slugs to "chair" |
| Slug.SlugExampleDashes | src/routes/product/new/index.tsx:12-16 | "---" slugs to "" |
| Slug.SlugExampleCyrillic | src/routes/product/new/index.tsx:12-16 | "Стул" slugs to "" |
| Slug.SlugExampleHelloWorld | src/routes/product/new/index.tsx:12-16 | "Hello World!" slugs to "hello-world" |
| UniqueSlug.DecimalInjective | src/routes/product/new/index.tsx:112 | two counters with the same decimal text are equal |
| UniqueSlug.DecimalDigits | src/routes/product/new/index.tsx:112 | a counter renders as decimal digits only |
| UniqueSlug.CandidateInjective | src/routes/product/new/index.tsx:112 | base, base-1, base-2, … are pairwise distinct, because each suffix goes on the original base |
| UniqueSlug.TriedSize | src/routes/product/new/index.tsx:98-113 | the first k candidates are k different slugs |
| UniqueSlug.Pigeonhole | src/routes/product/new/index.tsx:101-113 | if the first k candidates all report a row, the collection has at least k members, so the loop cannot run forever |
| UniqueSlug.FirstStopSpec | src/routes/product/new/index.tsx:101-113 | the search stops at an index no larger than the collection's size, at a candidate that does not report a row, after candidates that all do |
| UniqueSlug.FirstStopUnique | src/routes/product/new/index.tsx:101-113 | the stopping index is the only index with nothing but collisions before it |
| UniqueSlug.SearchFindsSmallestFree | src/routes/product/new/index.tsx:98-113 | without failing lookups, the result is base when base is free, and otherwise base + "-" + k for the smallest k >= 1 that is free |
| UniqueSlug.ResolveCategorySlug | src/routes/product/new/index.tsx:98-113 | the category loop returns the candidate at the stopping index, after looking up exactly the candidates up to it in order (at most the collection's size plus one); a failed lookup counts as "not found" |
| UniqueSlug.ResolveProductSlug | src/routes/product/new/index.tsx:128-144 | the product loop looks up the same candidates; it aborts with "Проверка slug: " and the message if the stopping candidate's lookup failed, and otherwise returns that candidate, which is not taken |
| UniqueSlug.SearchExample | src/routes/product/new/index.tsx:98-113 | with "a", "a-1" and "a-2" taken, the search for "a" ends at "a-3" |
| NewProduct.ExtensionIsLastPiece | src/routes/product/new/index.tsx:75 | `name.split(".").pop()` is a suffix of the name with no '.', and a '.' comes right before it unless it is the whole name |
| NewProduct.TrimStart | src/routes/product/new/index.tsx:92 | the result is a suffix of the input after white space only, and does not start with white space |
| NewProduct.TrimEnd | src/routes/product/new/index.tsx:92 | the result is a prefix of the input followed by white space only, and does not end with white space |
| NewProduct.TrimEmptyIffBlank | src/routes/product/new/index.tsx:92-94 | the trimmed name is empty exactly when every character is JavaScript white space |
| NewProduct.NewProductPage.constructor | src/routes/product/new/index.tsx:26-36 | the signals start with an empty form, currency "BYN", category "new", no image, loading false and error "" |
| NewProduct.NewProductPage.UploadImage | src/routes/product/new/index.tsx:74-88 | with an image, one upload under `${now}.${ext}`; an upload error returns "Ошибка загрузки: " and the message; otherwise the image URL is the public URL ("" without an image); nothing else changes |
| NewProduct.NewProductPage.CreateCategory | src/routes/product/new/index.tsx:96-123 | the category slug lookups and the insert are appended; a failed insert returns "Ошибка категории: " and the message with the store unchanged; a successful one adds the unique slug and returns the new id |
| NewProduct.NewProductPage.SaveProduct | src/routes/product/new/index.tsx:128-167 | the calls, the store and the failure are those of the product steps: the lookups, then the upsert of the row with the resolved slug, then the navigation to "/product/" + slug + "/" |
| NewProduct.NewProductPage.SaveWithCategory | src/routes/product/new/index.tsx:90-167 | the calls, the store and the failure are those of the category step followed by the product steps |
| NewProduct.NewProductPage.TrySubmit | src/routes/product/new/index.tsx:70-167 | the try block appends exactly the calls of `Run`, leaves the store `Run` describes and returns its thrown message |
| NewProduct.NewProductPage.Submit | src/routes/product/new/index.tsx:65-173 | after onSubmit, error is "" on success or the thrown message, loading is false, and the calls and the store are those of `Run` |
| NewProductLaws.CategoryEffectsArePreparatory | src/routes/product/new/index.tsx:96-121 | every call of the category step touches the categories table: it only looks up category slugs and inserts the category |
| NewProductLaws.ProductStepsIgnoreCategories | src/routes/product/new/index.tsx:128-167 | the product steps do not read the category slugs and leave them as they were |
| NewProductLaws.ProductStepsShape | src/routes/product/new/index.tsx:128-167 | the product steps succeed exactly when the chosen candidate's lookup and the upsert do not fail; on success they are exactly the product-slug lookups up to the chosen candidate, then the upsert, then the navigation, and they add the slug; on failure they change nothing and navigate nowhere |
| NewProductLaws.UploadFailureAborts | src/routes/product/new/index.tsx:74-83 | an upload failure aborts with "Ошибка загрузки: " and the message, after the upload alone, with no lookup or write |
| NewProductLaws.BlankCategoryAborts | src/routes/product/new/index.tsx:91-94 | a white-space-only new category name aborts with "Введите название новой категории", with no lookup or write, but after the image upload, if any |
| NewProductLaws.CategoryInsertFailureAborts | src/routes/product/new/index.tsx:96-121 | a failed category insert aborts with "Ошибка категории: " and the message; the trace is exactly the upload (if any), the category slug lookups and the insert, ending with the insert, and the store is unchanged |
| NewProductLaws.SucceedsIff | src/routes/product/new/index.tsx:70-167 | the try block completes exactly when the upload, the category step, the chosen product slug's lookup and the upsert all succeed |
| NewProductLaws.RunDecomposes | src/routes/product/new/index.tsx:70-167 | past the upload and the category step, the try block is the preparatory calls followed by the product steps, with the new category's slug added when one was created |
| NewProductLaws.ProductSlugIsFirstFree | src/routes/product/new/index.tsx:128-144 | when its lookup did not fail, the chosen product slug is not taken and every earlier candidate is |
| NewProductLaws.SuccessfulRun | src/routes/product/new/index.tsx:128-166 | a successful run makes exactly one upsert, carrying the resolved slug, as its second-to-last call after only preparatory calls, then navigates to "/product/" + slug + "/"; the product slugs gain that slug only |
| NewProductLaws.FailedRunAddsNoProduct | src/routes/product/new/index.tsx:70-169 | whatever fails, no navigation happens and no product slug is added |
| NewProductLaws.CreatedCategoryIsNotRolledBack | src/routes/product/new/index.tsx:115-167 | a category inserted before a failing product step stays in the store |
| NewProductLaws.ExistingCategoryPassedThrough | src/routes/product/new/index.tsx:124-157 | with an existing category, the categories table is never touched and every upserted row's category_id is the selected id unchanged |
| NewProductLaws.CategoryEffectsLength | src/routes/product/new/index.tsx:98-121 | the category step makes at most the category count plus two calls |
| NewProductLaws.ProductStepsLength | src/routes/product/new/index.tsx:128-167 | the product steps make at most the product count plus three calls |
| NewProductLaws.EffectsBounded | src/routes/product/new/index.tsx:70-167 | one submission makes at most the size of both tables plus six calls |
| Sidebar.IndexOfFrom | src/components/Sidebar.tsx:51 | the first occurrence of the pattern at or after the start index, and none before it |
| Sidebar.SecondPiece | src/components/Sidebar.tsx:51 | `split("/product/")[1]` is the text after the leading "/product/" up to its next occurrence, or to the end when there is none |
| Sidebar.FirstIndexOf | src/components/Sidebar.tsx:51 | the index of the first occurrence of the character, or the length when there is none |
| Sidebar.RemoveFirstSlash | src/components/Sidebar.tsx:51 | `replace("/", "")` removes the first '/' when there is one, keeping every other character in order, and otherwise changes nothing |
| Sidebar.RemoveFirstSlashExample | src/components/Sidebar.tsx:51 | "a/b/" becomes "ab/": only the first '/' goes |
| Sidebar.PathSlug | src/components/Sidebar.tsx:50-52 | a slug is produced only for a path that starts with "/product/" and does not end with "/new", and it is non-empty |
| Sidebar.ProductPathRoundTrip | src/components/Sidebar.tsx:50-52 | "/product/" + w + "/" yields slug w for every non-empty w without '/' |
| Sidebar.NewProductPageIgnored | src/components/Sidebar.tsx:50 | "/product/new" is filtered out |
| Sidebar.EmptySlugIgnored | src/components/Sidebar.tsx:52 | "/product//" leaves an empty slug and the task returns |
| Sidebar.ChairExample | src/components/Sidebar.tsx:50-52 | "/product/chair/" yields "chair" |
| Sidebar.NewWithSlashExample | src/components/Sidebar.tsx:50-51 | "/product/new/" yields "new" |
| Sidebar.NestedPathExample | src/components/Sidebar.tsx:51 | "/product/a/product/b" yields "a", the text before the second "/product/" |
| Sidebar.ExpandedIds | src/components/Sidebar.tsx:125-138 | a listed category's products are shown exactly when it is open and selected, and every expanded id is the id of a listed category |
| Sidebar.UnlistedSelectionExpandsNothing | src/components/Sidebar.tsx:125-138 | a selected category that is not in the list (the URL task can select one before the list loads) expands nothing |
| Sidebar.AtMostOneExpanded | src/components/Sidebar.tsx:137-138 | all categories shown expanded have the same id |
| Sidebar.NothingExpandedWithoutSelection | src/components/Sidebar.tsx:137-138 | with no selected category nothing is expanded, whatever is open |
| Sidebar.ExpandedIsSelected | src/components/Sidebar.tsx:137-138 | in every sidebar state that keeps the invariant (the selected category is open), a listed category is expanded exactly when it is the selected one |
| Sidebar.PanelAsWritten | src/components/Sidebar.tsx:140-146 | the panel throws exactly when the category has no entry; it shows the empty message exactly for an empty list, and otherwise the entry's products |
| Sidebar.ShownPanel | src/components/Sidebar.tsx:140-146 | the corrected panel shows the empty message for a missing or empty entry, and otherwise the entry's products |
| Sidebar.ShownPanelAgrees | src/components/Sidebar.tsx:140-146 | the corrected panel equals the panel as written wherever the latter does not throw, and shows the empty message where it does |
| Sidebar.RenderAsWritten | src/components/Sidebar.tsx:137-146 | the render throws exactly when an expanded category has no products entry, and otherwise shows each one's panel as written |
| Sidebar.Render | src/components/Sidebar.tsx:137-146 | the corrected render shows each expanded category's corrected panel, for every products map |
| Sidebar.RenderAgrees | src/components/Sidebar.tsx:137-146 | wherever the render as written succeeds, it equals the corrected render |
| Sidebar.SidebarState.constructor | src/components/Sidebar.tsx:26-30 | no categories, no selection, no products, nothing open, no active product |
| Sidebar.SidebarState.LoadCategories | src/components/Sidebar.tsx:37-43 | the category list is replaced when the query returned data, and is left alone otherwise; nothing else changes |
| Sidebar.SidebarState.ToggleCategory | src/components/Sidebar.tsx:103-111 | when open[c] holds it becomes false and the selection null, otherwise it becomes true and c is selected; every other key of the open map and every other signal is unchanged; the selected category stays open |
| Sidebar.SidebarState.ToggleCategoryCorrected | src/components/Sidebar.tsx:103-111 | a click flips whether c is expanded and leaves every other category collapsed; open[c] becomes the negation of whether c was expanded, the selection becomes c or null accordingly, and other keys of the open map are unchanged |
| Sidebar.SidebarState.OnPathChange | src/components/Sidebar.tsx:46-84 | a filtered-out path changes nothing; otherwise the slug becomes active; a failed lookup stops there; a found product selects and opens its category and replaces that category's products entry alone, if the list came back |
| Sidebar.SidebarState.OnSelectionChange | src/components/Sidebar.tsx:86-101 | with a non-empty selected id and fetched data, only that id's products entry is replaced; every other entry and every other signal is unchanged |
| Sidebar.ExpandAfterFailedFetch | src/components/Sidebar.tsx:137-146 | opening a category whose product query failed makes the render as written throw, while the corrected one shows the empty message |
| Sidebar.ReopenAfterSwitch | src/components/Sidebar.tsx:103-111 | clicking a, then b, then a leaves nothing expanded; with the corrected toggle, a is expanded |
| Navigation.CandidateHasNoSlash | src/routes/product/new/index.tsx:129-143 | no product or category slug candidate contains '/' |
| Navigation.NewProductIsActiveInSidebar | src/routes/product/new/index.tsx:165-166 | after a successful submission with a non-empty slug, the trace ends with the navigation to "/product/" + slug + "/", and the sidebar reads back exactly that slug from this path |
| Navigation.ProductPathIsRead | src/components/Sidebar.tsx:50-54 | the sidebar reads every non-empty product slug back from its page path |
| Navigation.CyrillicProductIsNotActive | src/routes/product/new/index.tsx:129-166 | a product named only in Cyrillic, with "" still free, navigates to "/product//", which the sidebar ignores |

## Left out

- Supabase (select, insert, upsert, storage upload, getPublicUrl) is foreign
  code. Each call is an oracle value of `NewProduct.Backend`, or an `Option`
  parameter of the sidebar methods.
- The multi-row cases of `maybeSingle` and `single` are left out. A lookup
  either reports a row, reports none, or fails.
- `parseFloat(price.value)` is floating-point parsing. The price stays the raw
  text of the input.
- `Date.now()` becomes the `now` parameter. The public URL becomes
  `Backend.publicUrl`.
- Slug.Lower: models `toLowerCase` on ASCII letters only. Other
  case mappings (such as the Kelvin sign) are not modelled.
- NewProduct.NewProductPage.SaveProduct: assumes the upsert returns its row
  whenever it reports no error (the `if (inserted)` test at line 165). It
  also navigates with the slug it sent, not a slug read back from the row.
- NewProduct.NewProductPage.Submit: states the final `loading` (false) and
  `error`. The transient `loading == true` seen by the view during the call
  is not observable in the model.
- The category lookup's error message is never read by the source, so only
  which candidates fail is modelled.
- Concurrency is out of scope: two submissions at once, the interleaving of
  the sidebar's async tasks, and the resulting lack of uniqueness between
  lookup and insert.
- The JSX is left out, except the expand guard and the product panel. Also
  left out: the `nav` calls of the sidebar buttons, the form's own category
  fetch (index.tsx:38-47), the input handlers and `onFileChange`.
- `src/components/ProductDetail.tsx`, the layout, the `[slug]` page and
  `src/context/product-context.ts` are not part of this model. The `refresh`
  counter that re-runs the selection task is never incremented in these
  files. Each run of that task is a call of `OnSelectionChange`.

## Findings

| source | as written | input that shows it | evidently intended | confidence | as-written member | corrected member |
|---|---|---|---|---|---|---|
| src/components/Sidebar.tsx:140-146 | `products.value[c]?.length === 0` is false for a missing entry, so `products.value[c].map` runs on undefined and throws | a category is opened and its product query returns an error, so it has no entry | show the empty message (or nothing) until products arrive | medium, not executed | Sidebar.RenderAsWritten, Sidebar.ExpandAfterFailedFetch | Sidebar.Render, Sidebar.RenderAgrees |
| src/components/Sidebar.tsx:103-111 | `toggleCategory` tests `isCategoryOpen[c]` alone, but a category stays marked open after another one is selected | click category a, then b, then a: the third click closes a and clears the selection, so nothing is expanded | the third click expands a again, as the render guard shows | medium, not executed | Sidebar.SidebarState.ToggleCategory, Sidebar.ReopenAfterSwitch | Sidebar.SidebarState.ToggleCategoryCorrected |
