/**
 * How the end of a successful submission (the navigation to
 * "/product/" + slug + "/", src/routes/product/new/index.tsx:164-166) meets
 * the sidebar's URL task (src/components/Sidebar.tsx:49-54).
 */
module Navigation {
  import opened Wrappers
  import opened Slug
  import opened UniqueSlug
  import opened NewProduct
  import opened NewProductLaws
  import Sidebar

  /** Every candidate of a slug holds no '/': the base is made of [a-z0-9-]
      and the counter of digits. */
  lemma CandidateHasNoSlash(text: string, k: nat)
    ensures '/' !in Candidate(GenerateSlug(text), k)
  {
    var base := GenerateSlug(text);
    DecimalDigits(k);
    var c := Candidate(base, k);
    forall i | 0 <= i < |c| ensures c[i] != '/' {
      if k != 0 && i > |base| {
        assert c[i] == Decimal(k)[i - |base| - 1];
      }
    }
  }

  /** The path of the navigation that ends a trace, if it ends with one. */
  function NavigatedTo(es: seq<Effect>): (path: Option<string>)
    ensures path.Some? <==> es != [] && es[|es| - 1].Navigate?
  {
    if es != [] && es[|es| - 1].Navigate? then Some(es[|es| - 1].path) else None
  }

  /** After a successful submission whose slug is not empty, the sidebar picks
      up exactly the new product's slug from the page navigated to. */
  lemma NewProductIsActiveInSidebar(f: Form, s: Store, b: Backend, now: nat)
    requires Succeeds(f, s, b) && ProductSlug(f, s, b) != []
    ensures var path := ProductPath(ProductSlug(f, s, b));
      && NavigatedTo(Run(f, s, b, now).effects) == Some(path)
      && Sidebar.PathSlug(path) == Some(ProductSlug(f, s, b))
  {
    SuccessfulTrace(f, s, b, now);
    ProductPathIsRead(f, s, b);
  }

  /** The sidebar reads a product slug back from the path navigated to. */
  lemma ProductPathIsRead(f: Form, s: Store, b: Backend)
    requires ProductSlug(f, s, b) != []
    ensures Sidebar.PathSlug(ProductPath(ProductSlug(f, s, b))) == Some(ProductSlug(f, s, b))
  {
    CandidateHasNoSlash(f.name, ProductStop(f, s, b));
    Sidebar.ProductPathRoundTrip(ProductSlug(f, s, b));
  }

  /** A product named in Cyrillic only gets the empty slug when no product has
      it yet, the page navigated to is "/product//", and the sidebar ignores
      that path. */
  lemma CyrillicProductIsNotActive(f: Form, s: Store, b: Backend, now: nat)
    requires forall i :: 0 <= i < |f.name| ==> '\U{0400}' <= f.name[i] <= '\U{04FF}'
    requires "" !in s.productSlugs
    requires Succeeds(f, s, b)
    ensures NavigatedTo(Run(f, s, b, now).effects) == Some("/product//")
    ensures Sidebar.PathSlug("/product//") == None
  {
    assert ProductSlug(f, s, b) == "" by {
      CyrillicNameGivesEmptySlug(f.name);
      FirstStopUnique("", s.productSlugs, b.productLookupErrors.Keys, 0);
    }
    SuccessfulTrace(f, s, b, now);
    assert ProductPath("") == Sidebar.ProductPrefix + "" + "/" == "/product//";
    Sidebar.EmptySlugIgnored();
  }
}
