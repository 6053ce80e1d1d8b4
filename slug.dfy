/**
 * The slug generator of the "new product" form:
 *
 *   text.toLowerCase().replace(/[^a-z0-9]+/g, "-").replace(/(^-|-$)+/g, "")
 *
 * modelled as three string transforms over `seq<char>`. Lowercasing is the
 * ASCII part of `toLowerCase` (A-Z to a-z, every other character unchanged).
 */
module Slug {

  predicate IsAlnum(c: char) {
    'a' <= c <= 'z' || '0' <= c <= '9'
  }

  /** A well-formed slug: `^[a-z0-9]+(-[a-z0-9]+)*$`, or empty. */
  predicate IsSlug(s: string) {
    && (forall i :: 0 <= i < |s| ==> IsAlnum(s[i]) || s[i] == '-')
    && (|s| > 0 ==> s[0] != '-' && s[|s| - 1] != '-')
    && (forall i, j :: 0 <= i < |s| && 0 <= j < |s| && j == i + 1 ==> s[i] != '-' || s[j] != '-')
  }

  /** A non-empty word of [a-z0-9] characters. */
  predicate IsRun(w: string) {
    w != [] && forall i :: 0 <= i < |w| ==> IsAlnum(w[i])
  }

  function LowerChar(c: char): char {
    if 'A' <= c <= 'Z' then (c as int + 32) as char else c
  }

  /** `toLowerCase`, restricted to ASCII letters. */
  function Lower(s: string): string {
    seq(|s|, i requires 0 <= i < |s| => LowerChar(s[i]))
  }

  /** Length of the longest prefix of `s` whose characters are all in [a-z0-9]
      (when `alnum`) or all outside it (when not). */
  function RunLength(s: string, alnum: bool): (n: nat)
    ensures n <= |s|
    ensures forall i :: 0 <= i < n ==> IsAlnum(s[i]) == alnum
    ensures n < |s| ==> IsAlnum(s[n]) != alnum
  {
    if s == [] || IsAlnum(s[0]) != alnum then 0 else 1 + RunLength(s[1..], alnum)
  }

  /** `replace(/[^a-z0-9]+/g, "-")`: every maximal run of characters outside
      [a-z0-9] becomes a single '-'; the greedy `+` takes the whole run. */
  function CollapseRuns(s: string): string
    decreases |s|
  {
    if s == [] then []
    else if IsAlnum(s[0]) then
      var n := RunLength(s, true);
      s[..n] + CollapseRuns(s[n..])
    else
      "-" + CollapseRuns(s[RunLength(s, false)..])
  }

  /** `replace(/(^-|-$)+/g, "")`: removes a leading '-' and a trailing '-'
      (a lone "-" is both, and goes in one match). */
  function StripDashes(s: string): string {
    var t := if |s| > 0 && s[0] == '-' then s[1..] else s;
    if |t| > 0 && t[|t| - 1] == '-' then t[..|t| - 1] else t
  }

  /** `generateSlug` (src/routes/product/new/index.tsx:12-16). */
  function GenerateSlug(text: string): (slug: string)
    ensures IsSlug(slug)
  {
    CollapseThenStrip(Lower(text));
    JoinedRunsIsSlug(Runs(Lower(text)));
    StripDashes(CollapseRuns(Lower(text)))
  }

  // ---------------------------------------------------------------------------
  // Reference definition: the maximal [a-z0-9] runs, joined by '-'

  /** The maximal runs of [a-z0-9] characters of `s`, left to right. */
  function Runs(s: string): (rs: seq<string>)
    ensures forall k :: 0 <= k < |rs| ==> IsRun(rs[k])
    decreases |s|
  {
    if s == [] then []
    else if IsAlnum(s[0]) then
      var n := RunLength(s, true);
      [s[..n]] + Runs(s[n..])
    else
      Runs(s[RunLength(s, false)..])
  }

  function JoinRuns(rs: seq<string>): string {
    if |rs| == 0 then []
    else if |rs| == 1 then rs[0]
    else rs[0] + "-" + JoinRuns(rs[1..])
  }

  /** Joining non-empty alphanumeric words with '-' gives a well-formed slug,
      empty exactly when there are no words, and starting with the first word. */
  lemma {:induction false} JoinedRunsIsSlug(rs: seq<string>)
    requires forall k :: 0 <= k < |rs| ==> IsRun(rs[k])
    ensures IsSlug(JoinRuns(rs))
    ensures JoinRuns(rs) == [] <==> rs == []
    ensures rs != [] ==> JoinRuns(rs)[0] == rs[0][0]
  {
    if |rs| > 1 {
      JoinedRunsIsSlug(rs[1..]);
      var a, b := rs[0], JoinRuns(rs[1..]);
      var j := a + "-" + b;
      assert IsRun(a);
      forall i | 0 <= i < |j| ensures IsAlnum(j[i]) || j[i] == '-' {
        if i > |a| { assert j[i] == b[i - |a| - 1]; }
      }
      forall i, k | 0 <= i && k == i + 1 && k < |j| ensures j[i] != '-' || j[k] != '-' {
        if i < |a| - 1 {
        } else if i == |a| - 1 {
          assert j[k] == '-' && j[i] == a[|a| - 1];
        } else if i == |a| {
          assert j[k] == b[0];
        } else {
          assert j[i] == b[i - |a| - 1] && j[k] == b[i - |a|];
        }
      }
      assert j[|j| - 1] == b[|b| - 1];
    }
  }

  /** Trailing '-' contributed by a final run of non-[a-z0-9] characters. */
  function TrailingDash(s: string): string {
    if s != [] && !IsAlnum(s[|s| - 1]) then "-" else ""
  }

  /** One step of both definitions on input that starts with [a-z0-9]. */
  lemma UnfoldRun(s: string)
    requires s != [] && IsAlnum(s[0])
    ensures var n := RunLength(s, true);
      && 0 < n
      && CollapseRuns(s) == s[..n] + CollapseRuns(s[n..])
      && Runs(s) == [s[..n]] + Runs(s[n..])
      && (s[n..] == [] ==> IsAlnum(s[|s| - 1]))
      && (s[n..] != [] ==> !IsAlnum(s[n..][0]) && s[|s| - 1] == s[n..][|s[n..]| - 1])
  {
  }

  /** One step of both definitions on input that starts outside [a-z0-9]. */
  lemma UnfoldGap(s: string)
    requires s != [] && !IsAlnum(s[0])
    ensures var m := RunLength(s, false);
      && 0 < m
      && CollapseRuns(s) == "-" + CollapseRuns(s[m..])
      && Runs(s) == Runs(s[m..])
      && (s[m..] == [] ==> !IsAlnum(s[|s| - 1]))
      && (s[m..] != [] ==> IsAlnum(s[m..][0]) && s[|s| - 1] == s[m..][|s[m..]| - 1])
  {
  }

  lemma JoinCons(a: string, rs: seq<string>)
    requires rs != []
    ensures JoinRuns([a] + rs) == a + "-" + JoinRuns(rs)
  {
    assert ([a] + rs)[1..] == rs;
  }

  /** On input that starts in a run of [a-z0-9] (or is empty), collapsing gives
      the joined runs followed by one '-' when the input ends outside [a-z0-9]. */
  lemma {:induction false} CollapseFromRun(s: string)
    requires s == [] || IsAlnum(s[0])
    ensures CollapseRuns(s) == JoinRuns(Runs(s)) + TrailingDash(s)
    decreases |s|
  {
    if s != [] {
      UnfoldRun(s);
      var n := RunLength(s, true);
      var a, r := s[..n], s[n..];
      if r == [] {
        assert Runs(s) == [a];
      } else {
        UnfoldGap(r);
        var r' := r[RunLength(r, false)..];
        if r' == [] {
          assert Runs(s) == [a];
        } else {
          CollapseFromRun(r');
          var rs' := Runs(r');
          assert rs' != [] by { UnfoldRun(r'); }
          JoinCons(a, rs');
          assert TrailingDash(s) == TrailingDash(r');
          StringAssoc("-", JoinRuns(rs'), TrailingDash(r'));
          StringAssoc(a, "-" + JoinRuns(rs'), TrailingDash(r'));
          StringAssoc(a, "-", JoinRuns(rs'));
        }
      }
    }
  }

  /** The joined runs of a string that has at least one, end in [a-z0-9]. */
  lemma JoinedRunsShape(s: string)
    requires s != [] && IsAlnum(s[0])
    ensures var j := JoinRuns(Runs(s)); j != [] && j[0] == s[0] && IsAlnum(j[|j| - 1])
  {
    UnfoldRun(s);
    JoinedRunsIsSlug(Runs(s));
  }

  /** Stripping removes exactly an optional leading and trailing '-' around a
      word that neither starts nor ends with '-'. */
  lemma StripAround(j: string, lead: string, trail: string)
    requires j != [] && j[0] != '-' && j[|j| - 1] != '-'
    requires lead in {"", "-"} && trail in {"", "-"}
    ensures StripDashes(lead + j + trail) == j
  {
    var s := lead + j + trail;
    var t := if |s| > 0 && s[0] == '-' then s[1..] else s;
    assert t == j + trail by {
      if lead == "-" { assert s[1..] == j + trail; } else { assert s == j + trail; }
    }
    if trail == "-" { assert t[..|t| - 1] == j; } else { assert t == j; }
  }

  lemma CollapseThenStripFromRun(s: string)
    requires s != [] && IsAlnum(s[0])
    ensures StripDashes(CollapseRuns(s)) == JoinRuns(Runs(s))
  {
    var j := JoinRuns(Runs(s));
    CollapseFromRun(s);
    JoinedRunsShape(s);
    StripAround(j, "", TrailingDash(s));
    assert CollapseRuns(s) == "" + j + TrailingDash(s);
  }

  lemma CollapseThenStripFromGap(s: string)
    requires s != [] && !IsAlnum(s[0])
    ensures StripDashes(CollapseRuns(s)) == JoinRuns(Runs(s))
  {
    UnfoldGap(s);
    var s' := s[RunLength(s, false)..];
    if s' == [] {
      assert CollapseRuns(s) == "-";
    } else {
      var j := JoinRuns(Runs(s'));
      CollapseFromRun(s');
      JoinedRunsShape(s');
      StripAround(j, "-", TrailingDash(s'));
      StringAssoc("-", j, TrailingDash(s'));
    }
  }

  lemma StringAssoc(a: string, b: string, c: string)
    ensures a + (b + c) == a + b + c
  {
  }

  /** The two replacements equal the maximal [a-z0-9] runs joined by '-'. */
  lemma CollapseThenStrip(s: string)
    ensures StripDashes(CollapseRuns(s)) == JoinRuns(Runs(s))
  {
    if s == [] {
    } else if IsAlnum(s[0]) {
      CollapseThenStripFromRun(s);
    } else {
      CollapseThenStripFromGap(s);
    }
  }

  /** `generateSlug(text)` is the list of maximal [a-z0-9] runs of the
      lowercased text, joined by '-'. */
  lemma SlugIsJoinedRuns(text: string)
    ensures GenerateSlug(text) == JoinRuns(Runs(Lower(text)))
  {
    CollapseThenStrip(Lower(text));
  }

  // ---------------------------------------------------------------------------
  // Idempotence

  /** After its first run, a slug that goes on has one '-' and then another
      slug. */
  lemma SlugStep(w: string)
    requires IsSlug(w) && w != [] && RunLength(w, true) < |w|
    ensures var n := RunLength(w, true);
      && n + 2 <= |w| && w[n] == '-'
      && IsSlug(w[n + 1..])
      && Runs(w) == [w[..n]] + Runs(w[n + 1..])
      && w == w[..n] + "-" + w[n + 1..]
  {
    var n := RunLength(w, true);
    DashAfterFirstRun(w);
    RunsAfterDash(w, n);
    SlugTail(w, n);
    assert w == w[..n] + "-" + w[n + 1..];
  }

  lemma DashAfterFirstRun(w: string)
    requires IsSlug(w) && w != [] && RunLength(w, true) < |w|
    ensures var n := RunLength(w, true);
      0 < n && n + 2 <= |w| && w[n] == '-' && IsAlnum(w[n + 1])
  {
    var n := RunLength(w, true);
    assert IsAlnum(w[0]);
    assert !IsAlnum(w[n]);
    assert w[n] == '-';
    assert n != |w| - 1;
    assert w[n] != '-' || w[n + 1] != '-';
  }

  lemma RunsAfterDash(w: string, n: nat)
    requires 0 < n && n + 2 <= |w| && n == RunLength(w, true)
    requires w[n] == '-' && IsAlnum(w[n + 1])
    ensures Runs(w) == [w[..n]] + Runs(w[n + 1..])
  {
    UnfoldRun(w);
    var r := w[n..];
    assert r[0] == '-' && r[1] == w[n + 1];
    assert RunLength(r, false) == 1;
    UnfoldGap(r);
    assert r[1..] == w[n + 1..];
  }

  lemma SlugTail(w: string, n: nat)
    requires IsSlug(w) && n < |w| && w[n] == '-'
    ensures IsSlug(w[n + 1..])
  {
    var w' := w[n + 1..];
    forall i, k | 0 <= i && k == i + 1 && k < |w'| ensures w'[i] != '-' || w'[k] != '-' {
      assert w'[i] == w[n + 1 + i] && w'[k] == w[n + 2 + i];
    }
    if w' != [] {
      assert w'[|w'| - 1] == w[|w| - 1];
    }
  }

  /** A well-formed slug is its own list of runs, joined. */
  lemma {:induction false} RunsOfSlug(w: string)
    requires IsSlug(w)
    ensures JoinRuns(Runs(w)) == w
    decreases |w|
  {
    if w != [] {
      var n := RunLength(w, true);
      assert IsAlnum(w[0]);
      if n < |w| {
        SlugStep(w);
        var w' := w[n + 1..];
        RunsOfSlug(w');
        JoinedRunsIsSlug(Runs(w'));
        JoinCons(w[..n], Runs(w'));
      } else {
        UnfoldRun(w);
        assert w[n..] == [] && w[..n] == w;
      }
    }
  }

  lemma LowerOfSlug(w: string)
    requires IsSlug(w)
    ensures Lower(w) == w
  {
  }

  /** Every well-formed slug is a fixed point of `generateSlug`. */
  lemma SlugFixpoint(w: string)
    requires IsSlug(w)
    ensures GenerateSlug(w) == w
  {
    LowerOfSlug(w);
    SlugIsJoinedRuns(w);
    RunsOfSlug(w);
  }

  /** `generateSlug` is idempotent. */
  lemma GenerateSlugIdempotent(text: string)
    ensures GenerateSlug(GenerateSlug(text)) == GenerateSlug(text)
  {
    SlugFixpoint(GenerateSlug(text));
  }

  // ---------------------------------------------------------------------------
  // Inputs with no ASCII letter or digit

  lemma {:induction false} NoRunsWithoutAlnum(s: string)
    requires forall i :: 0 <= i < |s| ==> !IsAlnum(s[i])
    ensures Runs(s) == []
    decreases |s|
  {
    if s != [] {
      NoRunsWithoutAlnum(s[RunLength(s, false)..]);
    }
  }

  /** A name with no ASCII letter or digit (punctuation, spaces, Cyrillic,
      ...) has the empty slug. */
  lemma NoAsciiAlnumGivesEmptySlug(text: string)
    requires forall i :: 0 <= i < |text| ==> !IsAlnum(LowerChar(text[i]))
    ensures GenerateSlug(text) == ""
  {
    SlugIsJoinedRuns(text);
    NoRunsWithoutAlnum(Lower(text));
  }

  /** A purely Cyrillic name (U+0400..U+04FF) slugs to "". */
  lemma CyrillicNameGivesEmptySlug(text: string)
    requires forall i :: 0 <= i < |text| ==> '\U{0400}' <= text[i] <= '\U{04FF}'
    ensures GenerateSlug(text) == ""
  {
    NoAsciiAlnumGivesEmptySlug(text);
  }

  // ---------------------------------------------------------------------------
  // Worked examples

  lemma SlugExampleChair()
    ensures GenerateSlug("Chair") == "chair"
  {
    assert Lower("Chair") == Lower("chair") == "chair";
    SlugFixpoint("chair");
  }

  lemma SlugExampleDashes()
    ensures GenerateSlug("---") == ""
  {
    NoAsciiAlnumGivesEmptySlug("---");
  }

  /** "Стул" ("chair" in Russian). */
  lemma SlugExampleCyrillic()
    ensures GenerateSlug("\U{0421}\U{0442}\U{0443}\U{043B}") == ""
  {
    CyrillicNameGivesEmptySlug("\U{0421}\U{0442}\U{0443}\U{043B}");
  }

  lemma {:induction false} RunLengthOfPrefix(a: string, x: string, alnum: bool)
    requires forall i :: 0 <= i < |a| ==> IsAlnum(a[i]) == alnum
    requires x == [] || IsAlnum(x[0]) != alnum
    ensures RunLength(a + x, alnum) == |a|
  {
    if a != [] {
      assert (a + x)[1..] == a[1..] + x;
      RunLengthOfPrefix(a[1..], x, alnum);
    }
  }

  /** A run, then a gap of non-[a-z0-9] characters, then the rest: the run is
      the first of the runs. */
  lemma RunsAfterGap(a: string, g: string, rest: string)
    requires IsRun(a) && g != [] && forall i :: 0 <= i < |g| ==> !IsAlnum(g[i])
    requires rest == [] || IsAlnum(rest[0])
    ensures Runs(a + g + rest) == [a] + Runs(rest)
  {
    var s := a + g + rest;
    RunLengthOfPrefix(a, g + rest, true);
    assert s == a + (g + rest);
    UnfoldRun(s);
    assert s[|a|..] == g + rest;
    RunLengthOfPrefix(g, rest, false);
    UnfoldGap(g + rest);
    assert (g + rest)[|g|..] == rest;
  }

  lemma RunsOfHelloWorld(hello: string, world: string, tail: string)
    requires hello == "hello" && world == "world" && tail == world + "!"
    ensures Runs(hello + " " + tail) == [hello, world]
  {
    assert IsRun(world) && IsRun(hello);
    RunsAfterGap(world, "!", "");
    assert world + "!" + "" == tail;
    assert tail[0] == 'w';
    RunsAfterGap(hello, " ", tail);
  }

  lemma SlugExampleHelloWorld()
    ensures GenerateSlug("Hello World!") == "hello-world"
  {
    HelloWorldSlug("Hello World!");
  }

  lemma HelloWorldSlug(text: string)
    requires text == "Hello World!"
    ensures GenerateSlug(text) == "hello-world"
  {
    var hello, world := "hello", "world";
    var tail := world + "!";
    LowerHelloWorld(text, hello + " " + tail);
    SlugIsJoinedRuns(text);
    RunsOfHelloWorld(hello, world, tail);
    JoinCons(hello, [world]);
    assert [hello] + [world] == [hello, world];
    HelloWorldJoined(hello, world);
  }

  lemma LowerHelloWorld(text: string, lower: string)
    requires text == "Hello World!" && lower == "hello" + " " + ("world" + "!")
    ensures Lower(text) == lower
  {
    var s := Lower(text);
    forall i | 0 <= i < 12 ensures s[i] == lower[i] {
    }
  }

  lemma HelloWorldJoined(hello: string, world: string)
    requires hello == "hello" && world == "world"
    ensures hello + "-" + world == "hello-world"
  {
    var j := hello + "-" + world;
    forall i | 0 <= i < 11 ensures j[i] == "hello-world"[i] {
    }
  }
}
