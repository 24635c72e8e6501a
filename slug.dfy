/** The RateYourMusic link of src/lib/utils.ts: `generateRymLink` and its
    inner `slugify`, a chain of four string rewrites. */
module Slug {
  import opened Text

  predicate SlugChar(c: char) { IsLowerOrDigit(c) || c == '-' }

  /** No two hyphens in a row. */
  predicate NoDoubleHyphen(s: string) {
    forall i :: 0 <= i < |s| - 1 ==> !(s[i] == '-' && s[i + 1] == '-')
  }

  /** `.replace(/&/g, "and")`. */
  function ReplaceAmpersands(s: string): (r: string)
    ensures forall i :: 0 <= i < |r| ==> r[i] != '&'
    ensures (forall i :: 0 <= i < |s| ==> s[i] != '&') ==> r == s
  {
    if s == [] then []
    else (if s[0] == '&' then "and" else [s[0]]) + ReplaceAmpersands(s[1..])
  }

  /** The letters and digits of `s`, in order. */
  function Alnums(s: string): (r: string)
    ensures |r| <= |s|
    ensures forall i :: 0 <= i < |r| ==> IsLowerOrDigit(r[i])
  {
    if s == [] then []
    else if IsLowerOrDigit(s[0]) then [s[0]] + Alnums(s[1..])
    else Alnums(s[1..])
  }

  lemma {:induction false} AlnumsAppend(a: string, b: string)
    ensures Alnums(a + b) == Alnums(a) + Alnums(b)
  {
    if a == [] {
      assert a + b == b;
    } else {
      assert (a + b)[0] == a[0] && (a + b)[1..] == a[1..] + b;
      AlnumsAppend(a[1..], b);
    }
  }

  /** Drop the characters outside `[a-z0-9]` at the front. */
  function SkipRun(s: string): (r: string)
    ensures |r| <= |s| && r == s[|s| - |r|..]
    ensures r == [] || IsLowerOrDigit(r[0])
    ensures (s == [] || IsLowerOrDigit(s[0])) ==> r == s
    ensures Alnums(r) == Alnums(s)
  {
    if s != [] && !IsLowerOrDigit(s[0]) then SkipRun(s[1..]) else s
  }

  /** `.replace(/[^a-z0-9]+/g, "-")`: each maximal run of other characters
      becomes one hyphen. */
  function CollapseRuns(s: string): (r: string)
    decreases |s|
    ensures forall i :: 0 <= i < |r| ==> SlugChar(r[i])
    ensures NoDoubleHyphen(r)
    ensures r == [] <==> s == []
    ensures s != [] ==> (r[0] == '-' <==> !IsLowerOrDigit(s[0]))
    ensures Alnums(r) == Alnums(s)
  {
    if s == [] then []
    else if IsLowerOrDigit(s[0]) then
      var t := CollapseRuns(s[1..]);
      assert ([s[0]] + t)[0] == s[0] && ([s[0]] + t)[1..] == t;
      [s[0]] + t
    else
      var t := CollapseRuns(SkipRun(s[1..]));
      assert (['-'] + t)[0] == '-' && (['-'] + t)[1..] == t;
      ['-'] + t
  }

  /** A maximal run of characters outside `[a-z0-9]` becomes one hyphen. */
  lemma CollapseRun(run: string, b: string)
    requires run != [] && forall i :: 0 <= i < |run| ==> !IsLowerOrDigit(run[i])
    requires b == [] || IsLowerOrDigit(b[0])
    ensures CollapseRuns(run + b) == ['-'] + CollapseRuns(b)
  {
    var x := run + b;
    HeadTail(run, b);
    SkipRunOfRun(run[1..], b);
    assert !IsLowerOrDigit(x[0]) && SkipRun(x[1..]) == b;
  }

  lemma HeadTail(a: string, b: string)
    requires a != []
    ensures (a + b)[0] == a[0] && (a + b)[1..] == a[1..] + b
  {
  }

  /** A run of letters and digits is kept as it is. */
  lemma {:induction false} AlnumRunKept(a: string, b: string)
    requires forall i :: 0 <= i < |a| ==> IsLowerOrDigit(a[i])
    ensures CollapseRuns(a + b) == a + CollapseRuns(b)
  {
    if a == [] {
      assert a + b == b;
    } else {
      HeadTail(a, b);
      assert CollapseRuns(a + b) == [a[0]] + CollapseRuns(a[1..] + b);
      AlnumRunKept(a[1..], b);
      ConsAppend(a, CollapseRuns(b));
    }
  }

  lemma ConsAppend(a: string, c: string)
    requires a != []
    ensures [a[0]] + (a[1..] + c) == a + c
  {
    assert a == [a[0]] + a[1..];
  }

  lemma {:induction false} SkipRunOfRun(run: string, b: string)
    requires forall i :: 0 <= i < |run| ==> !IsLowerOrDigit(run[i])
    requires b == [] || IsLowerOrDigit(b[0])
    ensures SkipRun(run + b) == b
  {
    if run == [] {
      assert run + b == b;
    } else {
      assert (run + b)[0] == run[0] && (run + b)[1..] == run[1..] + b;
      SkipRunOfRun(run[1..], b);
    }
  }

  /** Drop hyphens at the front. */
  function DropLeadingHyphens(s: string): (r: string)
    ensures |r| <= |s| && r == s[|s| - |r|..]
    ensures r == [] || r[0] != '-'
    ensures forall i :: 0 <= i < |s| - |r| ==> s[i] == '-'
    ensures Alnums(r) == Alnums(s)
  {
    if s != [] && s[0] == '-' then DropLeadingHyphens(s[1..]) else s
  }

  /** Drop hyphens at the back. */
  function DropTrailingHyphens(s: string): (r: string)
    ensures |r| <= |s| && r == s[..|r|]
    ensures r == [] || r[|r| - 1] != '-'
    ensures forall i :: |r| <= i < |s| ==> s[i] == '-'
    ensures Alnums(r) == Alnums(s)
  {
    if s != [] && s[|s| - 1] == '-' then
      var t := s[..|s| - 1];
      assert s == t + ['-'];
      AlnumsAppend(t, ['-']);
      var r := DropTrailingHyphens(t);
      assert forall i :: |r| <= i < |t| ==> s[i] == t[i];
      r
    else s
  }

  /** `.replace(/^-+|-+$/g, "")`. */
  function StripHyphens(s: string): string {
    DropTrailingHyphens(DropLeadingHyphens(s))
  }

  /** `slugify`. */
  function Slugify(s: string): string {
    StripHyphens(CollapseRuns(ReplaceAmpersands(Lower(s))))
  }

  /** Made of `[a-z0-9-]`, with no two hyphens in a row. */
  predicate SlugShaped(s: string) {
    (forall i :: 0 <= i < |s| ==> SlugChar(s[i])) && NoDoubleHyphen(s)
  }

  lemma SliceKeepsShape(s: string, lo: nat, hi: nat)
    requires SlugShaped(s) && lo <= hi <= |s|
    ensures SlugShaped(s[lo..hi])
  {
    var t := s[lo..hi];
    forall i | 0 <= i < |t| ensures SlugChar(t[i]) {
      assert t[i] == s[lo + i];
    }
    forall i | 0 <= i < |t| - 1 ensures !(t[i] == '-' && t[i + 1] == '-') {
      assert t[i] == s[lo + i] && t[i + 1] == s[lo + i + 1];
    }
  }

  /** A slug is made of `[a-z0-9-]`, has no hyphen at either end and no
      two hyphens in a row. */
  lemma SlugShape(s: string)
    ensures var r := Slugify(s);
      && SlugShaped(r)
      && (r == [] || (r[0] != '-' && r[|r| - 1] != '-'))
  {
    var c := CollapseRuns(ReplaceAmpersands(Lower(s)));
    StripKeepsShape(c);
    assert Slugify(s) == StripHyphens(c);
  }

  lemma StripKeepsShape(c: string)
    requires SlugShaped(c)
    ensures var r := StripHyphens(c);
      && SlugShaped(r)
      && (r == [] || (r[0] != '-' && r[|r| - 1] != '-'))
  {
    var d := DropLeadingHyphens(c);
    var r := DropTrailingHyphens(d);
    LeadKeepsShape(c);
    SliceKeepsShape(d, 0, |r|);
    if r != [] {
      assert r == d[..|r|];
      assert r[0] == d[0];
    }
  }

  lemma LeadKeepsShape(c: string)
    requires SlugShaped(c)
    ensures SlugShaped(DropLeadingHyphens(c))
  {
    var d := DropLeadingHyphens(c);
    SliceKeepsShape(c, |c| - |d|, |c|);
  }

  /** Slugging keeps every letter and digit, in order, once ampersands are
      spelled out and capitals lowered; it drops only the characters outside
      `[a-z0-9]`. */
  lemma SlugKeepsAlnums(s: string)
    ensures Alnums(Slugify(s)) == Alnums(ReplaceAmpersands(Lower(s)))
  {
  }

  /** A string of lower-case letters and digits is its own slug. */
  lemma SlugOfAlnums(s: string)
    requires forall i :: 0 <= i < |s| ==> IsLowerOrDigit(s[i])
    ensures Slugify(s) == s
  {
    LowerOfSlugChars(s);
    assert ReplaceAmpersands(s) == s;
    assert NoDoubleHyphen(s);
    CollapseOfSlug(s);
  }

  /** Two words of lower-case letters and digits, with a separator of
      other characters (no capital, no `&`) between them, slug to the
      words joined by one hyphen: "pink floyd" gives "pink-floyd". */
  lemma SlugOfWords(a: string, sep: string, b: string)
    requires a != [] && forall i :: 0 <= i < |a| ==> IsLowerOrDigit(a[i])
    requires b != [] && forall i :: 0 <= i < |b| ==> IsLowerOrDigit(b[i])
    requires sep != [] && forall i :: 0 <= i < |sep| ==> !IsLowerOrDigit(sep[i]) && !IsUpper(sep[i]) && sep[i] != '&'
    ensures Slugify(a + sep + b) == a + ['-'] + b
  {
    var x := a + (sep + b);
    Regroup3(a, sep, b);
    PlainAppend(sep, b);
    PlainAppend(a, sep + b);
    PlainUnchanged(x);
    WordsCollapse(a, sep, b);
    StripKeepsEnds(a + ['-'] + b);
  }

  lemma Regroup3(a: string, b: string, c: string)
    ensures a + b + c == a + (b + c)
  {
  }

  lemma WordsCollapse(a: string, sep: string, b: string)
    requires a != [] && forall i :: 0 <= i < |a| ==> IsLowerOrDigit(a[i])
    requires b != [] && forall i :: 0 <= i < |b| ==> IsLowerOrDigit(b[i])
    requires sep != [] && forall i :: 0 <= i < |sep| ==> !IsLowerOrDigit(sep[i])
    ensures var c := a + ['-'] + b;
      && CollapseRuns(a + (sep + b)) == c
      && c[0] == a[0] && c[|c| - 1] == b[|b| - 1]
  {
    AlnumRunKept(a, sep + b);
    CollapseRun(sep, b);
    CollapseOfAlnums(b);
    assert CollapseRuns(a + (sep + b)) == a + (['-'] + b);
    Regroup3(a, ['-'], b);
    JoinedEnds(a, b);
  }

  lemma CollapseOfAlnums(b: string)
    requires forall i :: 0 <= i < |b| ==> IsLowerOrDigit(b[i])
    ensures CollapseRuns(b) == b
  {
    AlnumRunKept(b, []);
    assert b + [] == b;
  }

  lemma JoinedEnds(a: string, b: string)
    requires a != [] && b != []
    ensures var c := a + ['-'] + b; c[0] == a[0] && c[|c| - 1] == b[|b| - 1]
  {
  }

  /** No capital and no `&`: text that lower-casing and the ampersand
      rewrite leave alone. */
  predicate Plain(s: string) {
    forall i :: 0 <= i < |s| ==> !IsUpper(s[i]) && s[i] != '&'
  }

  lemma PlainAppend(s: string, t: string)
    requires Plain(s) && Plain(t)
    ensures Plain(s + t)
  {
    forall i | 0 <= i < |s + t|
      ensures !IsUpper((s + t)[i]) && (s + t)[i] != '&'
    {
      if i >= |s| {
        assert (s + t)[i] == t[i - |s|];
      }
    }
  }

  lemma PlainUnchanged(s: string)
    requires Plain(s)
    ensures Lower(s) == s && ReplaceAmpersands(s) == s
  {
  }

  lemma StripKeepsEnds(c: string)
    requires c != [] && c[0] != '-' && c[|c| - 1] != '-'
    ensures StripHyphens(c) == c
  {
  }

  /** Slugs ignore ASCII case. */
  lemma SlugIgnoresCase(s: string, t: string)
    requires Lower(s) == Lower(t)
    ensures Slugify(s) == Slugify(t)
  {
  }

  lemma LowerOfSlugChars(s: string)
    requires forall i :: 0 <= i < |s| ==> SlugChar(s[i])
    ensures Lower(s) == s
  {
    assert forall i :: 0 <= i < |s| ==> !IsUpper(s[i]);
  }

  /** A string already in slug form is its own collapse. */
  lemma {:induction false} CollapseOfSlug(s: string)
    requires SlugShaped(s) && CollapseReady(s)
    ensures CollapseRuns(s) == s
    decreases |s|
  {
    if s != [] {
      var t := s[1..];
      TailReady(s);
      CollapseOfSlug(t);
      assert s == [s[0]] + t;
    }
  }

  /** A hyphen at the front is followed by a letter or digit. */
  predicate CollapseReady(s: string) {
    s == [] || s[0] != '-' || |s| == 1 || IsLowerOrDigit(s[1])
  }

  lemma TailReady(s: string)
    requires SlugShaped(s) && CollapseReady(s) && s != []
    ensures SlugShaped(s[1..]) && CollapseReady(s[1..])
    ensures !IsLowerOrDigit(s[0]) ==> s[0] == '-' && SkipRun(s[1..]) == s[1..]
  {
    var t := s[1..];
    SliceKeepsShape(s, 1, |s|);
    if |t| > 1 && t[0] == '-' {
      assert s[1] == '-' && s[2] == t[1] && SlugChar(s[2]);
      assert !(s[1] == '-' && s[2] == '-');
    }
    assert SlugChar(s[0]);
  }

  /** `slugify` is idempotent. */
  lemma SlugifyIdempotent(s: string)
    ensures Slugify(Slugify(s)) == Slugify(s)
  {
    var r := Slugify(s);
    SlugShape(s);
    LowerOfSlugChars(r);
    assert forall i :: 0 <= i < |r| ==> r[i] != '&';
    assert ReplaceAmpersands(r) == r;
    if |r| > 1 {
      assert r[0] != '-';
    }
    CollapseOfSlug(r);
    assert DropLeadingHyphens(r) == r;
    assert DropTrailingHyphens(r) == r;
  }

  /** The ampersand rewrite works piece by piece. */
  lemma {:induction false} ReplaceAmpersandsAppend(a: string, b: string)
    ensures ReplaceAmpersands(a + b) == ReplaceAmpersands(a) + ReplaceAmpersands(b)
  {
    if a == [] {
      assert a + b == b;
    } else {
      assert (a + b)[0] == a[0] && (a + b)[1..] == a[1..] + b;
      ReplaceAmpersandsAppend(a[1..], b);
    }
  }

  /** Each `&` is spelled out as "and", and the text around it is
      rewritten on its own. */
  lemma AmpersandSpelledOut(a: string, b: string)
    ensures ReplaceAmpersands(a + "&" + b) == ReplaceAmpersands(a) + "and" + ReplaceAmpersands(b)
  {
    ReplaceAmpersandsAppend(a + "&", b);
    ReplaceAmpersandsAppend(a, "&");
    assert ReplaceAmpersands("&") == "and" by {
      assert "&"[1..] == [];
    }
  }

  const RymPrefix: string := "https://rateyourmusic.com/release/album/"

  /** `generateRymLink(artist, title)`. */
  function RymLink(artist: string, title: string): string {
    RymPrefix + Slugify(artist) + "/" + Slugify(title) + "/"
  }

  /** Cutting at the first `/` is unambiguous when the heads hold none. */
  lemma SplitAtSlash(s1: string, u1: string, s2: string, u2: string)
    requires forall i :: 0 <= i < |s1| ==> s1[i] != '/'
    requires forall i :: 0 <= i < |s2| ==> s2[i] != '/'
    requires s1 + "/" + u1 == s2 + "/" + u2
    ensures s1 == s2 && u1 == u2
  {
    var x, y := s1 + "/" + u1, s2 + "/" + u2;
    assert x[|s1|] == '/' && y[|s2|] == '/';
    assert forall i :: 0 <= i < |s1| ==> x[i] == s1[i];
    assert forall i :: 0 <= i < |s2| ==> y[i] == s2[i];
    if |s1| < |s2| {
      assert false;
    } else if |s2| < |s1| {
      assert false;
    }
    assert s1 == x[..|s1|] && s2 == y[..|s2|];
    assert u1 == x[|s1| + 1..] && u2 == y[|s2| + 1..];
  }

  lemma SlugHasNoSlash(s: string)
    ensures forall i :: 0 <= i < |Slugify(s)| ==> Slugify(s)[i] != '/'
  {
    SlugShape(s);
  }

  /** The link with both slugs cut out at their slashes. */
  lemma LinkDeterminesParts(s1: string, u1: string, s2: string, u2: string)
    requires forall i :: 0 <= i < |s1| ==> s1[i] != '/'
    requires forall i :: 0 <= i < |s2| ==> s2[i] != '/'
    requires RymPrefix + s1 + "/" + u1 + "/" == RymPrefix + s2 + "/" + u2 + "/"
    ensures s1 == s2 && u1 == u2
  {
    var l1, l2 := RymPrefix + s1 + "/" + u1 + "/", RymPrefix + s2 + "/" + u2 + "/";
    assert s1 + "/" + (u1 + "/") == l1[|RymPrefix|..];
    assert s2 + "/" + (u2 + "/") == l2[|RymPrefix|..];
    SplitAtSlash(s1, u1 + "/", s2, u2 + "/");
    assert u1 == (u1 + "/")[..|u1|] && u2 == (u2 + "/")[..|u2|];
  }

  /** Slugs hold no `/`, so the link names both slugs. */
  lemma RymLinkDeterminesSlugs(a1: string, t1: string, a2: string, t2: string)
    requires RymLink(a1, t1) == RymLink(a2, t2)
    ensures Slugify(a1) == Slugify(a2) && Slugify(t1) == Slugify(t2)
  {
    SlugHasNoSlash(a1);
    SlugHasNoSlash(a2);
    LinkDeterminesParts(Slugify(a1), Slugify(t1), Slugify(a2), Slugify(t2));
  }
}
