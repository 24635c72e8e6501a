/** The album form schema of src/lib/validations.ts as a validity
    predicate on the submitted values.  The current year (read from the
    clock when the schema is built) is a parameter. */
module Validations {
  import opened Wrappers
  import opened Schema
  import opened NumberInput
  import RatingInput

  /** The values the form submits; `acquisition` and `progress` are the
      raw strings the enums check. */
  datatype AlbumForm = AlbumForm(
    title: string,
    artist: string,
    releaseYear: Nullable<int>,
    acquisition: string,
    progress: Option<string>,
    isArchived: bool,
    rating: Nullable<int>,
    rymLink: Option<string>,
    notes: Option<string>,
    musicBrainzId: Option<string>,
    genres: Option<seq<string>>,
    coverUrl: Option<string>)

  predicate SchemeChar(c: char) {
    ('a' <= c <= 'z') || ('A' <= c <= 'Z') || ('0' <= c <= '9') || c == '+' || c == '-' || c == '.'
  }

  /** What zod's `url()` accepts, approximated by the WHATWG rule that a
      URL begins with a scheme: a letter, then scheme characters, then `:`. */
  predicate IsUrl(s: string) {
    exists p :: 0 < p < |s| && HasSchemeBefore(s, p)
  }

  predicate HasSchemeBefore(s: string, p: int)
    requires 0 < p < |s|
  {
    && (('a' <= s[0] <= 'z') || ('A' <= s[0] <= 'Z'))
    && (forall i :: 0 < i < p ==> SchemeChar(s[i]))
    && s[p] == ':'
  }

  /** `z.string().min(1)`: at least one character, white space included. */
  predicate Required(s: string) { |s| >= 1 }

  /** `z.number().min(1900).max(currentYear + 1).optional()`; `null` is
      not a number and fails. */
  predicate ValidYear(y: Nullable<int>, currentYear: int) {
    y.Undefined? || (y.Value? && 1900 <= y.value <= currentYear + 1)
  }

  predicate ValidAcquisition(a: string) { a == "wishlist" || a == "library" }

  predicate ValidProgress(p: Option<string>) {
    p.None? || p.value == "backlog" || p.value == "active" || p.value == "completed"
  }

  /** `z.number().min(1).max(10).nullable().optional()`. */
  predicate ValidRating(r: Nullable<int>) {
    !r.Value? || 1 <= r.value <= 10
  }

  /** `z.string().url().optional().or(z.literal(""))`. */
  predicate ValidRymLink(l: Option<string>) {
    l.None? || l.value == "" || IsUrl(l.value)
  }

  /** `z.string().url().optional()`: the empty string is not a URL. */
  predicate ValidCoverUrl(u: Option<string>) {
    u.None? || IsUrl(u.value)
  }

  /** `albumSchema` accepts the form. */
  predicate ValidAlbumForm(f: AlbumForm, currentYear: int) {
    && Required(f.title)
    && Required(f.artist)
    && ValidYear(f.releaseYear, currentYear)
    && ValidAcquisition(f.acquisition)
    && ValidProgress(f.progress)
    && ValidRating(f.rating)
    && ValidRymLink(f.rymLink)
    && ValidCoverUrl(f.coverUrl)
  }

  /** Every accepted form has a non-empty title and artist, a year in
      range, a known acquisition and progress, and a rating in [1, 10]. */
  lemma AcceptedFormBounds(f: AlbumForm, currentYear: int)
    requires ValidAlbumForm(f, currentYear)
    ensures |f.title| >= 1 && |f.artist| >= 1
    ensures f.releaseYear.Value? ==> 1900 <= f.releaseYear.value <= currentYear + 1
    ensures !f.releaseYear.Null?
    ensures f.acquisition in {"wishlist", "library"}
    ensures f.progress.Some? ==> f.progress.value in {"backlog", "active", "completed"}
    ensures f.rating.Value? ==> 1 <= f.rating.value <= 10
  {
  }

  /** The title check does not trim: a title of one space passes when the
      rest of the form does. */
  lemma BlankTitleAccepted(f: AlbumForm, currentYear: int)
    requires ValidAlbumForm(f, currentYear)
    ensures ValidAlbumForm(f.(title := " "), currentYear)
    ensures !ValidAlbumForm(f.(title := ""), currentYear)
  {
  }

  /** `rymLink` may be the empty string; `coverUrl` may not. */
  lemma EmptyLinkRules(f: AlbumForm, currentYear: int)
    requires ValidAlbumForm(f, currentYear)
    ensures ValidAlbumForm(f.(rymLink := Some("")), currentYear)
    ensures !ValidAlbumForm(f.(coverUrl := Some("")), currentYear)
  {
  }

  /** A Rate Your Music address is a URL. */
  lemma RymAddressIsUrl(rest: string)
    ensures IsUrl("https://rateyourmusic.com/release/album/" + rest)
  {
    var s := "https://rateyourmusic.com/release/album/" + rest;
    assert HasSchemeBefore(s, 5);
  }

  /** After the rating widget loses focus, the rating passes the schema,
      whatever was typed into it. */
  lemma BlurredRatingValid(v: Nullable<int>)
    ensures ValidRating(Next(v, RatingInput.Blur(v)))
  {
  }

  /** The rating buttons keep a valid rating valid. */
  lemma RatingStepsKeepValid(v: Nullable<int>)
    requires ValidRating(v)
    ensures ValidRating(Next(v, RatingInput.Increment(v)))
    ensures ValidRating(Next(v, RatingInput.Decrement(v)))
  {
  }
}
