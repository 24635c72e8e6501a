/** The two tables of convex/schema.ts: the shared catalog `albums` and the
    per-user links `user_albums`.  Optional fields are `Option`s; a field
    that may also be explicitly `null` is a `Nullable`. */
module Schema {
  import opened Wrappers

  datatype Acquisition = Wishlist | Library

  datatype Progress = Backlog | Active | Completed

  /** A value that may be left out (`undefined`), set to `null`, or set. */
  datatype Nullable<+T> = Undefined | Null | Value(value: T)

  /** Ids of `_storage` blobs. */
  type StorageId = nat

  /** Ids of the two tables.  A Convex id names its table, which
      `normalizeId("user_albums", id)` tests; here that is the tag. */
  datatype DocId = AlbumRef(n: nat) | UserAlbumRef(n: nat)

  /** A row of `albums`, the shared catalog. */
  datatype GlobalAlbum = GlobalAlbum(
    title: string,
    artist: string,
    releaseYear: Option<int>,
    coverImageId: Option<StorageId>,
    coverUrl: Option<string>,
    musicBrainzId: Option<string>,
    genres: Option<seq<string>>)

  /** A row of `user_albums`; `albumId` references a row of `albums`. */
  datatype UserAlbum = UserAlbum(
    userId: string,
    albumId: nat,
    acquisition: Acquisition,
    progress: Option<Progress>,
    isArchived: bool,
    rating: Nullable<int>,
    rymLink: Option<string>,
    notes: Option<string>,
    addedAt: int,
    completedAt: Option<int>)
}
