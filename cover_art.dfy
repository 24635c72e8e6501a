/** The Cover Art Archive address of a release group's front cover, the
    template shared by the cover backfill (convex/images.ts) and the client
    cover lookup (src/lib/musicbrainz.ts). */
module CoverArt {
  const Prefix: string := "https://coverartarchive.org/release-group/"
  const Suffix: string := "/front"

  function CoverArtUrl(mbid: string): (url: string)
    ensures |url| == |Prefix| + |mbid| + |Suffix|
    ensures url[..|Prefix|] == Prefix && url[|url| - |Suffix|..] == Suffix
    ensures url[|Prefix|..|url| - |Suffix|] == mbid
  {
    Prefix + mbid + Suffix
  }

  /** Distinct ids give distinct addresses, so the address names the id. */
  lemma CoverArtUrlInjective(a: string, b: string)
    requires CoverArtUrl(a) == CoverArtUrl(b)
    ensures a == b
  {
    var u := CoverArtUrl(a);
    assert a == u[|Prefix|..|u| - |Suffix|];
  }
}
