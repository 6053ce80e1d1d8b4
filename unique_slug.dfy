/**
 * The unique-slug search of the "new product" form, written twice in the
 * source: once for categories (src/routes/product/new/index.tsx:98-113) and
 * once for products (lines 128-144). Both try `base`, then `base-1`,
 * `base-2`, ..., always appending the counter to the original base, and stop
 * at the first candidate whose lookup does not report a row. The collection
 * is a finite set of slugs that does not change during the search.
 */
module UniqueSlug {
  import opened Wrappers

  /** Message prefix of a failed product slug lookup (line 140). */
  const SlugCheckPrefix := "Проверка slug: "

  function Digit(d: nat): char
    requires d < 10
  {
    (48 + d) as char
  }

  /** The decimal text of a counter, as a template literal `${count}` renders it. */
  function Decimal(n: nat): (s: string)
    ensures |s| >= 1
    ensures n >= 10 ==> |s| >= 2
    decreases n
  {
    if n < 10 then [Digit(n)] else Decimal(n / 10) + [Digit(n % 10)]
  }

  /** Different counters render differently. */
  lemma {:induction false} DecimalInjective(m: nat, n: nat)
    requires Decimal(m) == Decimal(n)
    ensures m == n
    decreases m
  {
    var dm, dn := Decimal(m), Decimal(n);
    if m < 10 && n < 10 {
    } else if m >= 10 && n >= 10 {
      assert dm[..|dm| - 1] == Decimal(m / 10) && dn[..|dn| - 1] == Decimal(n / 10);
      DecimalInjective(m / 10, n / 10);
      assert Digit(m % 10) == dm[|dm| - 1] == dn[|dn| - 1] == Digit(n % 10);
    }
  }

  /** A counter renders as decimal digits only. */
  lemma {:induction false} DecimalDigits(n: nat)
    ensures forall i :: 0 <= i < |Decimal(n)| ==> '0' <= Decimal(n)[i] <= '9'
    decreases n
  {
    if n >= 10 {
      DecimalDigits(n / 10);
      var d := Decimal(n);
      forall i | 0 <= i < |d| ensures '0' <= d[i] <= '9' {
        if i < |d| - 1 {
          assert d[i] == Decimal(n / 10)[i];
        }
      }
    }
  }

  /** The k-th slug tried: `base` first, then `${base}-${k}`. */
  function Candidate(base: string, k: nat): string {
    if k == 0 then base else base + "-" + Decimal(k)
  }

  /** The first n candidates, in the order they are tried. */
  function Candidates(base: string, n: nat): (cs: seq<string>)
    ensures |cs| == n
  {
    if n == 0 then [] else Candidates(base, n - 1) + [Candidate(base, n - 1)]
  }

  /** The candidates are pairwise distinct. */
  lemma CandidateInjective(base: string, i: nat, j: nat)
    requires Candidate(base, i) == Candidate(base, j)
    ensures i == j
  {
    if i != 0 && j != 0 {
      var ci, cj := Candidate(base, i), Candidate(base, j);
      assert ci[|base| + 1..] == Decimal(i);
      assert cj[|base| + 1..] == Decimal(j);
      DecimalInjective(i, j);
    }
  }

  /** The set of the first k candidates. */
  function Tried(base: string, k: nat): set<string> {
    set i | 0 <= i < k :: Candidate(base, i)
  }

  lemma {:induction false} TriedSize(base: string, k: nat)
    ensures |Tried(base, k)| == k
  {
    if k > 0 {
      TriedSize(base, k - 1);
      assert Tried(base, k) == Tried(base, k - 1) + {Candidate(base, k - 1)};
      if Candidate(base, k - 1) in Tried(base, k - 1) {
        var i :| 0 <= i < k - 1 && Candidate(base, i) == Candidate(base, k - 1);
        CandidateInjective(base, i, k - 1);
      }
    }
  }

  lemma {:induction false} SubsetSize<T>(a: set<T>, b: set<T>)
    requires a <= b
    ensures |a| <= |b|
  {
    if a != {} {
      var x :| x in a;
      SubsetSize(a - {x}, b - {x});
    }
  }

  /** Each collision uses up a distinct member of the collection: if the first
      k candidates are all taken, the collection has at least k members. */
  lemma Pigeonhole(base: string, taken: set<string>, failing: set<string>, k: nat)
    requires forall i :: 0 <= i < k ==> Collides(base, taken, failing, i)
    ensures k <= |taken|
  {
    TriedSize(base, k);
    forall c | c in Tried(base, k) ensures c in taken {
      var i :| 0 <= i < k && c == Candidate(base, i);
      assert Collides(base, taken, failing, i);
    }
    SubsetSize(Tried(base, k), taken);
  }

  /** The lookup of candidate i reports a row: the slug is taken and the lookup
      call itself did not fail. */
  predicate Collides(base: string, taken: set<string>, failing: set<string>, i: nat) {
    Candidate(base, i) in taken && Candidate(base, i) !in failing
  }

  /** Index of the candidate at which the search stops: the first one whose
      lookup does not report a row (see `FirstStopSpec`). */
  function FirstStop(base: string, taken: set<string>, failing: set<string>): nat {
    FirstStopFrom(base, taken, failing, 0)
  }

  function FirstStopFrom(base: string, taken: set<string>, failing: set<string>, i: nat): (k: nat)
    requires forall j :: 0 <= j < i ==> Collides(base, taken, failing, j)
    ensures i <= k
    decreases |taken| - i
  {
    Pigeonhole(base, taken, failing, i);
    if !Collides(base, taken, failing, i) then i
    else
      Pigeonhole(base, taken, failing, i + 1);
      FirstStopFrom(base, taken, failing, i + 1)
  }

  lemma {:induction false} FirstStopFromSpec(base: string, taken: set<string>, failing: set<string>, i: nat)
    requires forall j :: 0 <= j < i ==> Collides(base, taken, failing, j)
    ensures var k := FirstStopFrom(base, taken, failing, i);
      && k <= |taken|
      && !Collides(base, taken, failing, k)
      && forall j :: 0 <= j < k ==> Collides(base, taken, failing, j)
    decreases |taken| - i
  {
    Pigeonhole(base, taken, failing, i);
    if Collides(base, taken, failing, i) {
      Pigeonhole(base, taken, failing, i + 1);
      FirstStopFromSpec(base, taken, failing, i + 1);
    }
  }

  /** The search stops within one lookup more than the collection has
      members, at a candidate that does not collide, after candidates that
      all do. */
  lemma FirstStopSpec(base: string, taken: set<string>, failing: set<string>)
    ensures var k := FirstStop(base, taken, failing);
      && k <= |taken|
      && !Collides(base, taken, failing, k)
      && forall i :: 0 <= i < k ==> Collides(base, taken, failing, i)
  {
    FirstStopFromSpec(base, taken, failing, 0);
  }

  /** The stopping index is the only one with nothing but collisions before it. */
  lemma FirstStopUnique(base: string, taken: set<string>, failing: set<string>, k: nat)
    requires !Collides(base, taken, failing, k)
    requires forall i :: 0 <= i < k ==> Collides(base, taken, failing, i)
    ensures FirstStop(base, taken, failing) == k
  {
    FirstStopSpec(base, taken, failing);
  }

  /** Without failing lookups, the search returns `base` when it is free, and
      otherwise `${base}-${k}` for the smallest k >= 1 that is free. */
  lemma SearchFindsSmallestFree(base: string, taken: set<string>)
    ensures var k := FirstStop(base, taken, {});
      && Candidate(base, k) !in taken
      && (base !in taken ==> k == 0)
      && (base in taken ==> k >= 1 && Candidate(base, k) == base + "-" + Decimal(k))
      && forall i :: 0 <= i < k ==> Candidate(base, i) in taken
  {
    var k := FirstStop(base, taken, {});
    FirstStopSpec(base, taken, {});
    if base !in taken {
      FirstStopUnique(base, taken, {}, 0);
    }
    forall i | 0 <= i < k ensures Candidate(base, i) in taken {
      assert Collides(base, taken, {}, i);
    }
  }

  /** The category loop (lines 98-113). A lookup whose call fails returns no
      row, so the loop breaks on it as if the slug were free. Returns the slug
      and the slugs looked up, in order. */
  method ResolveCategorySlug(categorySlug: string, taken: set<string>, failing: set<string>)
    returns (uniqueSlug: string, lookups: seq<string>)
    ensures var k := FirstStop(categorySlug, taken, failing);
      uniqueSlug == Candidate(categorySlug, k) && lookups == Candidates(categorySlug, k + 1)
    ensures uniqueSlug !in taken || uniqueSlug in failing
    ensures |lookups| <= |taken| + 1
  {
    uniqueSlug := categorySlug;
    var count := 1;
    lookups := [];
    while true
      invariant 1 <= count <= |taken| + 1
      invariant uniqueSlug == Candidate(categorySlug, count - 1)
      invariant lookups == Candidates(categorySlug, count - 1)
      invariant forall i :: 0 <= i < count - 1 ==> Collides(categorySlug, taken, failing, i)
      decreases |taken| + 1 - count
    {
      lookups := lookups + [uniqueSlug];
      var existingCategory := uniqueSlug in taken && uniqueSlug !in failing;
      if !existingCategory {
        break;
      }
      Pigeonhole(categorySlug, taken, failing, count);
      uniqueSlug := categorySlug + "-" + Decimal(count);
      count := count + 1;
    }
    FirstStopUnique(categorySlug, taken, failing, count - 1);
  }

  /** The product loop (lines 128-144). A lookup whose call fails aborts the
      search with "Проверка slug: " and the error's message; a free slug ends
      it. Returns the outcome and the slugs looked up, in order. */
  method ResolveProductSlug(baseSlug: string, taken: set<string>, failing: map<string, string>)
    returns (slug: Result<string, string>, lookups: seq<string>)
    ensures var k := FirstStop(baseSlug, taken, failing.Keys);
      var c := Candidate(baseSlug, k);
      && lookups == Candidates(baseSlug, k + 1)
      && slug == if c in failing then Failure(SlugCheckPrefix + failing[c]) else Success(c)
    ensures slug.Success? ==> slug.value !in taken
    ensures |lookups| <= |taken| + 1
  {
    var s := baseSlug;
    var count := 1;
    lookups := [];
    while true
      invariant 1 <= count <= |taken| + 1
      invariant s == Candidate(baseSlug, count - 1)
      invariant lookups == Candidates(baseSlug, count - 1)
      invariant forall i :: 0 <= i < count - 1 ==> Collides(baseSlug, taken, failing.Keys, i)
      decreases |taken| + 1 - count
    {
      lookups := lookups + [s];
      if s in failing {
        FirstStopUnique(baseSlug, taken, failing.Keys, count - 1);
        return Failure(SlugCheckPrefix + failing[s]), lookups;
      }
      var data := s in taken;
      if !data {
        break;
      }
      Pigeonhole(baseSlug, taken, failing.Keys, count);
      s := baseSlug + "-" + Decimal(count);
      count := count + 1;
    }
    FirstStopUnique(baseSlug, taken, failing.Keys, count - 1);
    slug := Success(s);
  }

  /** The example of a collection holding "a", "a-1" and "a-2": the search
      for "a" ends at "a-3" after four lookups. */
  lemma SearchExample()
    ensures FirstStop("a", {"a", "a-1", "a-2"}, {}) == 3
    ensures Candidate("a", 3) == "a-3"
  {
    var taken := {"a", "a-1", "a-2"};
    assert Candidate("a", 1) == "a-1" by { assert Decimal(1) == "1"; }
    assert Candidate("a", 2) == "a-2" by { assert Decimal(2) == "2"; }
    assert Candidate("a", 3) == "a-3" by { assert Decimal(3) == "3"; }
    assert Collides("a", taken, {}, 0) && Collides("a", taken, {}, 1) && Collides("a", taken, {}, 2);
    FirstStopUnique("a", taken, {}, 3);
  }
}
