/** The MusicBrainz client of src/lib/musicbrainz.ts: the ranking of
    search results, sorted in place, and the Cover Art Archive lookup.
    The HTTP requests are parameters that say how each one ends. */
module MusicBrainz {
  import opened Wrappers
  import opened CoverArt
  import Albums
  import Images

  /** The fields of a release group the ranking reads. */
  datatype ReleaseGroup = ReleaseGroup(id: string, title: string, primaryType: string, score: int, count: Option<int>)

  /** How the search request ends: a response with `ok` and the parsed
      `release-groups` field (possibly missing), a response without `ok`,
      or a thrown error. */
  datatype SearchResponse = SearchOk(releaseGroups: Option<seq<ReleaseGroup>>) | SearchNotOk | SearchThrows

  /** How the `HEAD` request for a cover ends: `ok` with the final URL
      after redirects, not `ok`, or a thrown error. */
  datatype HeadResponse = HeadOk(url: string) | HeadNotOk | HeadThrows

  /** `typePriority[type] || 0`. */
  function TypePriority(primaryType: string): (p: int)
    ensures 0 <= p <= 3
    ensures p == 3 <==> primaryType == "Album"
    ensures p == 2 <==> primaryType == "EP"
    ensures p == 1 <==> primaryType == "Single"
  {
    if primaryType == "Album" then 3
    else if primaryType == "EP" then 2
    else if primaryType == "Single" then 1
    else 0
  }

  /** `count || 0`. */
  function CountOrZero(g: ReleaseGroup): int {
    if g.count.Some? then g.count.value else 0
  }

  /** The comparator passed to `results.sort`: negative when `a` goes first. */
  function Compare(a: ReleaseGroup, b: ReleaseGroup): int {
    if a.score != b.score then b.score - a.score
    else
      var aType := TypePriority(a.primaryType);
      var bType := TypePriority(b.primaryType);
      if aType != bType then bType - aType
      else CountOrZero(b) - CountOrZero(a)
  }

  /** The comparator is the descending lexicographic order on (score,
      type priority, count). */
  lemma CompareIsLexicographic(a: ReleaseGroup, b: ReleaseGroup)
    ensures Compare(a, b) < 0 <==>
      || a.score > b.score
      || (a.score == b.score && TypePriority(a.primaryType) > TypePriority(b.primaryType))
      || (a.score == b.score && TypePriority(a.primaryType) == TypePriority(b.primaryType)
          && CountOrZero(a) > CountOrZero(b))
    ensures Compare(a, b) == 0 <==>
      a.score == b.score && TypePriority(a.primaryType) == TypePriority(b.primaryType) && CountOrZero(a) == CountOrZero(b)
    ensures Tied(Compare, a, b) <==> Compare(a, b) == 0
  {
  }

  /** Swapping the arguments flips the sign. */
  lemma CompareAntisymmetric(a: ReleaseGroup, b: ReleaseGroup)
    ensures Compare(a, b) == -Compare(b, a)
  {
  }

  lemma CompareTransitive(a: ReleaseGroup, b: ReleaseGroup, c: ReleaseGroup)
    requires Compare(a, b) <= 0 && Compare(b, c) <= 0
    ensures Compare(a, c) <= 0
  {
  }

  /** At equal score an album beats an EP, an EP a single, and a single
      any other type. */
  lemma TypeOrderAtEqualScore(a: ReleaseGroup, b: ReleaseGroup)
    requires a.score == b.score
    ensures a.primaryType == "Album" && b.primaryType != "Album" ==> Compare(a, b) < 0
    ensures a.primaryType == "EP" && b.primaryType != "Album" && b.primaryType != "EP" ==> Compare(a, b) < 0
    ensures a.primaryType == "Single" && TypePriority(b.primaryType) == 0 ==> Compare(a, b) < 0
  {
  }

  predicate Sorted(s: seq<ReleaseGroup>) {
    SortedBy(s, Compare)
  }

  /** `s` is in an order `cmp` accepts: no later element goes first. */
  predicate SortedBy<T>(s: seq<T>, cmp: (T, T) -> int) {
    forall i, j :: 0 <= i < j < |s| ==> cmp(s[i], s[j]) <= 0
  }

  /** `cmp` is a total preorder: every pair is ordered one way or the
      other, and the order is transitive. */
  ghost predicate TotalPreorder<T(!new)>(cmp: (T, T) -> int) {
    && (forall x, y :: cmp(x, y) <= 0 || cmp(y, x) <= 0)
    && (forall x, y, z :: cmp(x, y) <= 0 && cmp(y, z) <= 0 ==> cmp(x, z) <= 0)
  }

  /** Neither of `x` and `y` goes before the other. */
  predicate Tied<T>(cmp: (T, T) -> int, x: T, y: T) {
    cmp(x, y) <= 0 && cmp(y, x) <= 0
  }

  /** The elements of `s` tied with `v`, in their order in `s`. */
  function TiesWith<T>(s: seq<T>, v: T, cmp: (T, T) -> int): (r: seq<T>)
    ensures |r| <= |s|
    ensures forall i :: 0 <= i < |r| ==> Tied(cmp, r[i], v)
  {
    if s == [] then []
    else (if Tied(cmp, s[0], v) then [s[0]] else []) + TiesWith(s[1..], v, cmp)
  }

  /** Tied elements come in the same order in `s` as in `t`: the promise of
      a stable sort, which ECMA-262 requires of `Array.prototype.sort`
      since its 2019 edition. */
  ghost predicate SameTieOrder<T(!new)>(s: seq<T>, t: seq<T>, cmp: (T, T) -> int) {
    forall v :: TiesWith(s, v, cmp) == TiesWith(t, v, cmp)
  }

  lemma {:induction false} TiesWithAppend<T>(s: seq<T>, t: seq<T>, v: T, cmp: (T, T) -> int)
    ensures TiesWith(s + t, v, cmp) == TiesWith(s, v, cmp) + TiesWith(t, v, cmp)
  {
    if s == [] {
      assert s + t == t;
    } else {
      var h := if Tied(cmp, s[0], v) then [s[0]] else [];
      assert (s + t)[0] == s[0] && (s + t)[1..] == s[1..] + t;
      assert TiesWith(s + t, v, cmp) == h + TiesWith(s[1..] + t, v, cmp);
      TiesWithAppend(s[1..], t, v, cmp);
      assert TiesWith(s, v, cmp) == h + TiesWith(s[1..], v, cmp);
    }
  }

  /** Exchanging two neighbours that are in the wrong order keeps every
      class of tied elements in order: under a total preorder two elements
      tied with the same `v` are tied with each other. */
  lemma SwapKeepsTieOrder<T(!new)>(s: seq<T>, j: nat, cmp: (T, T) -> int)
    requires TotalPreorder(cmp)
    requires 0 < j < |s| && cmp(s[j - 1], s[j]) > 0
    ensures SameTieOrder(s[j - 1 := s[j]][j := s[j - 1]], s, cmp)
  {
    var t := s[j - 1 := s[j]][j := s[j - 1]];
    var x, y := s[j - 1], s[j];
    var front, back := s[..j - 1], s[j + 1..];
    assert s == front + [x, y] + back;
    assert t == front + [y, x] + back;
    forall v
      ensures TiesWith(t, v, cmp) == TiesWith(s, v, cmp)
    {
      TiesWithThree(front, [x, y], back, v, cmp);
      TiesWithThree(front, [y, x], back, v, cmp);
      PairTies(x, y, v, cmp);
    }
  }

  lemma TiesWithThree<T>(s: seq<T>, m: seq<T>, t: seq<T>, v: T, cmp: (T, T) -> int)
    ensures TiesWith(s + m + t, v, cmp) == TiesWith(s, v, cmp) + TiesWith(m, v, cmp) + TiesWith(t, v, cmp)
  {
    TiesWithAppend(s + m, t, v, cmp);
    TiesWithAppend(s, m, v, cmp);
  }

  lemma PairTies<T(!new)>(x: T, y: T, v: T, cmp: (T, T) -> int)
    requires TotalPreorder(cmp) && cmp(x, y) > 0
    ensures TiesWith([x, y], v, cmp) == TiesWith([y, x], v, cmp)
  {
    TiesWithAppend([x], [y], v, cmp);
    TiesWithAppend([y], [x], v, cmp);
    assert [x] + [y] == [x, y] && [y] + [x] == [y, x];
    assert !(Tied(cmp, x, v) && Tied(cmp, y, v));
  }

  lemma CompareTotalPreorder()
    ensures TotalPreorder(Compare)
  {
    forall x, y, z | Compare(x, y) <= 0 && Compare(y, z) <= 0
      ensures Compare(x, z) <= 0
    {
      CompareTransitive(x, y, z);
    }
  }

  /** A sorted list puts a higher score first. */
  lemma SortedScoresDescend(s: seq<ReleaseGroup>, i: int, j: int)
    requires Sorted(s) && 0 <= i < j < |s|
    ensures s[i].score >= s[j].score
  {
    assert Compare(s[i], s[j]) <= 0;
  }

  /** `results.sort(compare)` in place. */
  method SortResults(a: array<ReleaseGroup>)
    modifies a
    ensures Sorted(a[..])
    ensures multiset(a[..]) == multiset(old(a[..]))
    ensures SameTieOrder(a[..], old(a[..]), Compare)
  {
    CompareTotalPreorder();
    SortBy(a, Compare);
  }

  /** Insertion sort of `a` by a comparator that is a total preorder. */
  method SortBy<T(!new)>(a: array<T>, cmp: (T, T) -> int)
    requires TotalPreorder(cmp)
    modifies a
    ensures SortedBy(a[..], cmp)
    ensures multiset(a[..]) == multiset(old(a[..]))
    ensures SameTieOrder(a[..], old(a[..]), cmp)
  {
    var i := 0;
    while i < a.Length
      invariant 0 <= i <= a.Length
      invariant SortedBy(a[..i], cmp)
      invariant multiset(a[..]) == multiset(old(a[..]))
      invariant SameTieOrder(a[..], old(a[..]), cmp)
    {
      InsertLast(a, i, cmp);
      i := i + 1;
    }
  }

  /** One pass of insertion: `a[i]` sinks into the sorted prefix `a[..i]`. */
  method InsertLast<T(!new)>(a: array<T>, i: nat, cmp: (T, T) -> int)
    requires TotalPreorder(cmp)
    requires i < a.Length && SortedBy(a[..i], cmp)
    modifies a
    ensures SortedBy(a[..i + 1], cmp)
    ensures multiset(a[..]) == multiset(old(a[..]))
    ensures SameTieOrder(a[..], old(a[..]), cmp)
  {
    var j := i;
    SinkStart(a[..], i, cmp);
    while j > 0 && cmp(a[j - 1], a[j]) > 0
      invariant 0 <= j <= i
      invariant multiset(a[..]) == multiset(old(a[..]))
      invariant SameTieOrder(a[..], old(a[..]), cmp)
      invariant Sinking(a[..], i, j, cmp)
    {
      SinkStep(a[..], i, j, cmp);
      SwapKeepsTieOrder(a[..], j, cmp);
      SwapDown(a, j);
      j := j - 1;
    }
    SinkDone(a[..], i, j, cmp);
  }

  /** Exchange `a[j - 1]` and `a[j]`. */
  method SwapDown<T>(a: array<T>, j: nat)
    requires 0 < j < a.Length
    modifies a
    ensures a[..] == old(a[..])[j - 1 := old(a[j])][j := old(a[j - 1])]
    ensures multiset(a[..]) == multiset(old(a[..]))
  {
    a[j - 1], a[j] := a[j], a[j - 1];
  }

  /** During a pass: the prefix `s[..i + 1]` is sorted apart from the
      element at `j`, which goes no later than anything after it. */
  ghost predicate Sinking<T>(s: seq<T>, i: nat, j: nat, cmp: (T, T) -> int) {
    && j <= i < |s|
    && (forall k, l :: 0 <= k < l <= i && k != j && l != j ==> cmp(s[k], s[l]) <= 0)
    && (forall l :: j < l <= i ==> cmp(s[j], s[l]) <= 0)
  }

  lemma SinkStart<T>(s: seq<T>, i: nat, cmp: (T, T) -> int)
    requires i < |s| && SortedBy(s[..i], cmp)
    ensures Sinking(s, i, i, cmp)
  {
    forall k, l | 0 <= k < l < i
      ensures cmp(s[k], s[l]) <= 0
    {
      assert s[..i][k] == s[k] && s[..i][l] == s[l];
    }
  }

  lemma SinkStep<T(!new)>(s: seq<T>, i: nat, j: nat, cmp: (T, T) -> int)
    requires TotalPreorder(cmp) && Sinking(s, i, j, cmp)
    requires 0 < j && cmp(s[j - 1], s[j]) > 0
    ensures Sinking(s[j - 1 := s[j]][j := s[j - 1]], i, j - 1, cmp)
  {
    var t := s[j - 1 := s[j]][j := s[j - 1]];
    forall l | j - 1 < l <= i
      ensures cmp(t[j - 1], t[l]) <= 0
    {
      if l > j {
        assert t[l] == s[l];
      }
    }
  }

  lemma SinkDone<T(!new)>(s: seq<T>, i: nat, j: nat, cmp: (T, T) -> int)
    requires TotalPreorder(cmp) && Sinking(s, i, j, cmp)
    requires j == 0 || cmp(s[j - 1], s[j]) <= 0
    ensures SortedBy(s[..i + 1], cmp)
  {
    forall k, l | 0 <= k < l <= i
      ensures cmp(s[k], s[l]) <= 0
    {
      if l == j {
        assert cmp(s[k], s[j - 1]) <= 0 || k == j - 1;
      }
    }
  }

  /** `searchAlbums(query)`: nothing, and no request, for an empty query;
      otherwise the response's release groups ranked by `Compare`, or
      nothing when the request fails. */
  method SearchAlbums(query: string, respond: string -> SearchResponse) returns (results: seq<ReleaseGroup>, requested: bool)
    ensures requested <==> query != ""
    ensures requested && respond(query).SearchOk? ==>
              var groups := if respond(query).releaseGroups.Some? then respond(query).releaseGroups.value else [];
              Sorted(results) && multiset(results) == multiset(groups) && SameTieOrder(results, groups, Compare)
    ensures requested && !respond(query).SearchOk? ==> results == []
    ensures !requested ==> results == []
  {
    if query == "" {
      return [], false;
    }
    requested := true;
    var response := respond(query);
    if !response.SearchOk? {
      return [], true;
    }
    var groups := if response.releaseGroups.Some? then response.releaseGroups.value else [];
    var a := new ReleaseGroup[|groups|](i requires 0 <= i < |groups| => groups[i]);
    assert a[..] == groups;
    SortResults(a);
    results := a[..];
  }

  /** `getAlbumCover(mbid)`: probe the Cover Art Archive address and
      return the URL it settles on, or `null`. */
  function GetAlbumCover(mbid: string, head: string -> HeadResponse): (r: Option<string>)
    ensures r.Some? <==> head(CoverArtUrl(mbid)).HeadOk?
    ensures r.Some? ==> r.value == head(CoverArtUrl(mbid)).url
  {
    match head(CoverArtUrl(mbid))
    case HeadOk(url) => Some(url)
    case _ => None
  }

  /** The address the client probes is the one the server backfill
      downloads for a job with a MusicBrainz id and no cover URL. */
  lemma SameTemplateAsBackfill(albumId: Albums.Schema.DocId, mbid: string)
    requires mbid != ""
    ensures Images.SourceUrl(Albums.CoverJob(albumId, None, Some(mbid))) == Some(CoverArtUrl(mbid))
  {
  }
}
