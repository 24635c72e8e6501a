/** The catalog resolver and the per-user link store of convex/albums.ts.
    The two tables are maps from ids to rows inside one `Database` object;
    each Convex mutation is one method on it.  Row ids are handed out in
    creation order, which is also the order in which an index lookup with
    `.first()` or `.collect().find(...)` meets equal keys. */
module Albums {
  import opened Wrappers
  import opened Schema
  import opened Text

  /** The errors the mutations throw. */
  datatype Failure =
    | Unauthenticated(operation: string)
    | AlreadyInLibrary
    | NotFoundOrUnauthorized
    | SomeNotFoundOrUnauthorized

  function Message(f: Failure): string {
    match f
    case Unauthenticated(op) => "Called " + op + " without authentication"
    case AlreadyInLibrary => "Album already exists in your library"
    case NotFoundOrUnauthorized => "Album not found or unauthorized"
    case SomeNotFoundOrUnauthorized => "Some albums not found or unauthorized"
  }

  /** The arguments of `create`. */
  datatype CreateArgs = CreateArgs(
    title: string,
    artist: string,
    releaseYear: Option<int>,
    coverImageId: Option<StorageId>,
    coverUrl: Option<string>,
    acquisition: Acquisition,
    progress: Option<Progress>,
    isArchived: bool,
    rating: Nullable<int>,
    rymLink: Option<string>,
    notes: Option<string>,
    musicBrainzId: Option<string>,
    genres: Option<seq<string>>)

  /** The arguments of `update` besides the id: the user fields, then the
      global fields that `update` accepts and ignores. */
  datatype UpdateArgs = UpdateArgs(
    acquisition: Option<Acquisition>,
    progress: Option<Progress>,
    isArchived: Option<bool>,
    rating: Nullable<int>,
    rymLink: Option<string>,
    notes: Option<string>,
    completedAt: Option<int>,
    title: Option<string>,
    artist: Option<string>,
    releaseYear: Option<int>,
    coverImageId: Option<StorageId>,
    coverUrl: Option<string>,
    musicBrainzId: Option<string>,
    genres: Option<seq<string>>)

  /** The `updates` object of `batchUpdate`; an absent field is not written. */
  datatype BatchPatch = BatchPatch(
    acquisition: Option<Acquisition>,
    progress: Option<Progress>,
    isArchived: Option<bool>)

  /** The arguments of a scheduled `storeCoverArt` run. */
  datatype CoverJob = CoverJob(albumId: DocId, coverUrl: Option<string>, musicBrainzId: Option<string>)

  /** A row of the `get` join: the link's id (`_id`), the global id, and
      the fields of both rows. */
  datatype LibraryEntry = LibraryEntry(id: nat, globalAlbumId: nat, album: GlobalAlbum, link: UserAlbum)

  /** How `updateCoverImageId` ends: it patches, it returns early because
      the target is still a link id, or `patch` throws on a missing album. */
  datatype CoverPatch = Patched | Aborted | PatchFailed

  /** JavaScript truthiness of an optional string: `undefined` and `""` are false. */
  predicate Truthy(s: Option<string>) {
    s.Some? && s.value != ""
  }

  // ---------------------------------------------------------------------
  // Resolution of the global album
  // ---------------------------------------------------------------------

  /** The three catalog lookups of `create`: an exact index lookup on one
      field, then a case-insensitive comparison of a second field. */
  datatype Lookup =
    | ByMusicBrainzId(mbid: string)
    | ByArtistThenTitle(artist: string, title: string)
    | ByTitleThenArtist(title: string, artist: string)

  predicate Matches(a: GlobalAlbum, l: Lookup) {
    match l
    case ByMusicBrainzId(m) => a.musicBrainzId == Some(m)
    case ByArtistThenTitle(artist, title) => a.artist == artist && Lower(a.title) == Lower(title)
    case ByTitleThenArtist(title, artist) => a.title == title && Lower(a.artist) == Lower(artist)
  }

  /** The first album, in creation order among the ids in [lo, hi), that a
      lookup meets. */
  function FirstMatch(albums: map<nat, GlobalAlbum>, lo: nat, hi: nat, l: Lookup): (r: Option<nat>)
    decreases hi - lo
    ensures r.Some? ==> lo <= r.value < hi && r.value in albums && Matches(albums[r.value], l)
    ensures r.Some? ==> forall j :: lo <= j < r.value && j in albums ==> !Matches(albums[j], l)
    ensures r.None? ==> forall j :: lo <= j < hi && j in albums ==> !Matches(albums[j], l)
  {
    if lo >= hi then None
    else if lo in albums && Matches(albums[lo], l) then Some(lo)
    else FirstMatch(albums, lo + 1, hi, l)
  }

  /** The lookups `create` tries, in order: the MusicBrainz id when it is
      truthy, then exact trimmed artist, then exact trimmed title. */
  function Strategies(args: CreateArgs): seq<Lookup> {
    var title := Trim(args.title);
    var artist := Trim(args.artist);
    (if Truthy(args.musicBrainzId) then [ByMusicBrainzId(args.musicBrainzId.value)] else [])
    + [ByArtistThenTitle(artist, title), ByTitleThenArtist(title, artist)]
  }

  /** Album `k` is what lookup number `i` finds, and every earlier lookup
      finds nothing. */
  ghost predicate WinsAt(albums: map<nat, GlobalAlbum>, bound: nat, ls: seq<Lookup>, i: nat, k: nat) {
    && i < |ls| && k < bound && k in albums && Matches(albums[k], ls[i])
    && (forall j :: j < k && j in albums ==> !Matches(albums[j], ls[i]))
    && (forall p, j :: 0 <= p < i && j < bound && j in albums ==> !Matches(albums[j], ls[p]))
  }

  /** First match wins: the first lookup that finds anything decides. */
  function ResolveBy(albums: map<nat, GlobalAlbum>, bound: nat, ls: seq<Lookup>): (r: Option<nat>)
    ensures r.Some? ==> exists i :: WinsAt(albums, bound, ls, i, r.value)
    ensures r.None? ==> forall p, j :: 0 <= p < |ls| && j < bound && j in albums ==> !Matches(albums[j], ls[p])
  {
    if ls == [] then None
    else
      var m := FirstMatch(albums, 0, bound, ls[0]);
      if m.Some? then
        assert WinsAt(albums, bound, ls, 0, m.value);
        m
      else
        var rest := ResolveBy(albums, bound, ls[1..]);
        if rest.Some? then
          assert exists i :: WinsAt(albums, bound, ls, i, rest.value) by {
            var i: nat :| WinsAt(albums, bound, ls[1..], i, rest.value);
            assert WinsAt(albums, bound, ls, i + 1, rest.value);
          }
          rest
        else
          assert forall p :: 1 <= p < |ls| ==> ls[p] == ls[1..][p - 1];
          rest
  }

  /** The existing global album `create` links to, if any. */
  function Resolve(albums: map<nat, GlobalAlbum>, bound: nat, args: CreateArgs): Option<nat> {
    ResolveBy(albums, bound, Strategies(args))
  }

  /** The global album `create` links to: the resolved one, or the id its
      insert takes. */
  function Target(albums: map<nat, GlobalAlbum>, nextAlbum: nat, args: CreateArgs): nat {
    var found := Resolve(albums, nextAlbum, args);
    if found.Some? then found.value else nextAlbum
  }

  /** The row `create` inserts when nothing matches. */
  function NewAlbum(args: CreateArgs): GlobalAlbum {
    GlobalAlbum(Trim(args.title), Trim(args.artist), args.releaseYear, args.coverImageId,
                args.coverUrl, args.musicBrainzId, args.genres)
  }

  /** The link `create` inserts. */
  function NewLink(userId: string, albumId: nat, args: CreateArgs, now: int): UserAlbum {
    UserAlbum(userId, albumId, args.acquisition, args.progress, args.isArchived, args.rating,
              args.rymLink, args.notes, now, None)
  }

  /** The download condition of `create`: a truthy `coverUrl`, no
      `coverImageId`, and a global album inserted by this call. */
  predicate ShouldScheduleCover(args: CreateArgs, inserted: bool) {
    Truthy(args.coverUrl) && args.coverImageId.None? && inserted
  }

  predicate HasLink(userAlbums: map<nat, UserAlbum>, userId: string, albumId: nat) {
    exists k :: k in userAlbums && userAlbums[k].userId == userId && userAlbums[k].albumId == albumId
  }

  // ---------------------------------------------------------------------
  // Patches
  // ---------------------------------------------------------------------

  /** The patch `update` applies: only the user fields that are defined;
      the global fields among the arguments are never looked at. */
  function ApplyUpdate(row: UserAlbum, u: UpdateArgs): (r: UserAlbum)
    ensures r.userId == row.userId && r.albumId == row.albumId && r.addedAt == row.addedAt
  {
    row.(acquisition := if u.acquisition.Some? then u.acquisition.value else row.acquisition,
         progress := if u.progress.Some? then u.progress else row.progress,
         isArchived := if u.isArchived.Some? then u.isArchived.value else row.isArchived,
         rating := if u.rating.Undefined? then row.rating else u.rating,
         rymLink := if u.rymLink.Some? then u.rymLink else row.rymLink,
         notes := if u.notes.Some? then u.notes else row.notes,
         completedAt := if u.completedAt.Some? then u.completedAt else row.completedAt)
  }

  /** The patch `batchUpdate` applies to each listed row. */
  function ApplyPatch(row: UserAlbum, p: BatchPatch): (r: UserAlbum)
    ensures r.userId == row.userId && r.albumId == row.albumId
  {
    row.(acquisition := if p.acquisition.Some? then p.acquisition.value else row.acquisition,
         progress := if p.progress.Some? then p.progress else row.progress,
         isArchived := if p.isArchived.Some? then p.isArchived.value else row.isArchived)
  }

  /** `update` reads only the user fields of its arguments: the title,
      artist and cover arguments it accepts never reach the row. */
  lemma ApplyUpdateIgnoresGlobalFields(row: UserAlbum, u: UpdateArgs, v: UpdateArgs)
    requires u.(title := v.title, artist := v.artist, releaseYear := v.releaseYear, coverImageId := v.coverImageId,
                coverUrl := v.coverUrl, musicBrainzId := v.musicBrainzId, genres := v.genres) == v
    ensures ApplyUpdate(row, u) == ApplyUpdate(row, v)
  {
  }

  /** Sending the same update twice is the same as sending it once. */
  lemma ApplyUpdateIdempotent(row: UserAlbum, u: UpdateArgs)
    ensures ApplyUpdate(ApplyUpdate(row, u), u) == ApplyUpdate(row, u)
  {
  }

  /** An update that defines no user field leaves the row as it was. */
  lemma ApplyUpdateEmpty(row: UserAlbum, u: UpdateArgs)
    requires u.acquisition.None? && u.progress.None? && u.isArchived.None? && u.rating.Undefined?
    requires u.rymLink.None? && u.notes.None? && u.completedAt.None?
    ensures ApplyUpdate(row, u) == row
  {
  }

  predicate OwnedBy(userAlbums: map<nat, UserAlbum>, userId: string, id: nat) {
    id in userAlbums && userAlbums[id].userId == userId
  }

  predicate AllOwnedBy(userAlbums: map<nat, UserAlbum>, userId: string, ids: seq<nat>) {
    forall i :: 0 <= i < |ids| ==> OwnedBy(userAlbums, userId, ids[i])
  }

  function IdSet(ids: seq<nat>): set<nat> {
    set i | 0 <= i < |ids| :: ids[i]
  }

  // ---------------------------------------------------------------------
  // Cover status and cover patch
  // ---------------------------------------------------------------------

  /** The `normalizeId("user_albums", id)` step: a link id that names an
      existing link is replaced by the global id it references. */
  function ResolveTarget(userAlbums: map<nat, UserAlbum>, id: DocId): (t: DocId)
    ensures t.UserAlbumRef? ==> t == id && id.n !in userAlbums
    ensures id.AlbumRef? ==> t == id
  {
    if id.UserAlbumRef? && id.n in userAlbums then AlbumRef(userAlbums[id.n].albumId) else id
  }

  /** `!!(coverImageId || coverUrl)`. */
  predicate CoverPresent(a: GlobalAlbum) {
    a.coverImageId.Some? || Truthy(a.coverUrl)
  }

  /** `getAlbumCoverStatus(id).hasCover`. */
  function CoverStatus(albums: map<nat, GlobalAlbum>, userAlbums: map<nat, UserAlbum>, id: DocId): (hasCover: bool)
    ensures id.AlbumRef? ==> (hasCover <==> id.n in albums && CoverPresent(albums[id.n]))
    ensures id.UserAlbumRef? && id.n in userAlbums ==>
              (hasCover <==> userAlbums[id.n].albumId in albums && CoverPresent(albums[userAlbums[id.n].albumId]))
    ensures id.UserAlbumRef? && id.n !in userAlbums ==> !hasCover
  {
    match ResolveTarget(userAlbums, id)
    case UserAlbumRef(_) => false
    case AlbumRef(g) => g in albums && CoverPresent(albums[g])
  }

  /** The outcome of `updateCoverImageId(id, storageId, coverUrl)`. */
  function CoverPatchOutcome(albums: map<nat, GlobalAlbum>, userAlbums: map<nat, UserAlbum>, id: DocId): CoverPatch {
    match ResolveTarget(userAlbums, id)
    case UserAlbumRef(_) => Aborted
    case AlbumRef(g) => if g in albums then Patched else PatchFailed
  }

  /** The `albums` table after `updateCoverImageId(id, storageId, coverUrl)`:
      only the cover fields of the resolved global album change. */
  function CoverPatched(albums: map<nat, GlobalAlbum>, userAlbums: map<nat, UserAlbum>, id: DocId,
                        storageId: StorageId, coverUrl: Option<string>): (r: map<nat, GlobalAlbum>)
    ensures r.Keys == albums.Keys
    ensures CoverPatchOutcome(albums, userAlbums, id) != Patched ==> r == albums
    ensures CoverPatchOutcome(albums, userAlbums, id) == Patched ==>
              var g := ResolveTarget(userAlbums, id).n;
              && r[g] == albums[g].(coverImageId := Some(storageId), coverUrl := coverUrl)
              && forall k :: k in albums && k != g ==> r[k] == albums[k]
  {
    match ResolveTarget(userAlbums, id)
    case UserAlbumRef(_) => albums
    case AlbumRef(g) =>
      if g in albums then albums[g := albums[g].(coverImageId := Some(storageId), coverUrl := coverUrl)]
      else albums
  }

  /** After a patch, the album the id resolves to has a cover. */
  lemma PatchedAlbumHasCover(albums: map<nat, GlobalAlbum>, userAlbums: map<nat, UserAlbum>, id: DocId,
                             storageId: StorageId, coverUrl: Option<string>)
    requires CoverPatchOutcome(albums, userAlbums, id) == Patched
    ensures CoverStatus(CoverPatched(albums, userAlbums, id, storageId, coverUrl), userAlbums, id)
  {
  }

  // ---------------------------------------------------------------------
  // The database
  // ---------------------------------------------------------------------

  ghost predicate LinksUnique(userAlbums: map<nat, UserAlbum>) {
    forall k1, k2 :: k1 in userAlbums && k2 in userAlbums && k1 != k2 ==>
      userAlbums[k1].userId != userAlbums[k2].userId || userAlbums[k1].albumId != userAlbums[k2].albumId
  }

  ghost predicate TablesValid(albums: map<nat, GlobalAlbum>, userAlbums: map<nat, UserAlbum>, nextAlbum: nat, nextUserAlbum: nat) {
    && (forall k :: k in albums ==> k < nextAlbum)
    && (forall k :: k in userAlbums ==> k < nextUserAlbum)
    && (forall k :: k in userAlbums ==> userAlbums[k].albumId in albums)
    && LinksUnique(userAlbums)
  }

  lemma IdSetStep(ids: seq<nat>, i: nat)
    requires i < |ids|
    ensures IdSet(ids[..i + 1]) == IdSet(ids[..i]) + {ids[i]}
  {
    var longer, shorter := ids[..i + 1], ids[..i];
    forall x | x in IdSet(longer) ensures x in IdSet(shorter) + {ids[i]} {
      var j :| 0 <= j < |longer| && longer[j] == x;
      if j < i {
        assert shorter[j] == x;
      }
    }
    forall x | x in IdSet(shorter) ensures x in IdSet(longer) {
      var j :| 0 <= j < |shorter| && shorter[j] == x;
      assert longer[j] == x;
    }
    assert longer[i] == ids[i];
  }

  /** The links after `patch` is applied to those whose id is in `ids`. */
  function PatchRows(rows: map<nat, UserAlbum>, ids: set<nat>, patch: BatchPatch): (r: map<nat, UserAlbum>)
    ensures r.Keys == rows.Keys
    ensures forall k :: k in r ==> r[k] == if k in ids then ApplyPatch(rows[k], patch) else rows[k]
  {
    map k | k in rows :: if k in ids then ApplyPatch(rows[k], patch) else rows[k]
  }

  /** Patching one more link extends the patched table by that link; a
      link patched twice is patched once. */
  lemma PatchRowsStep(rows: map<nat, UserAlbum>, ids: set<nat>, x: nat, patch: BatchPatch)
    requires x in rows
    ensures PatchRows(rows, ids + {x}, patch) ==
            PatchRows(rows, ids, patch)[x := ApplyPatch(PatchRows(rows, ids, patch)[x], patch)]
  {
    var before := PatchRows(rows, ids, patch);
    assert ApplyPatch(ApplyPatch(rows[x], patch), patch) == ApplyPatch(rows[x], patch);
    assert before[x] == if x in ids then ApplyPatch(rows[x], patch) else rows[x];
  }

  /** Rewriting a link's user fields keeps the tables valid. */
  lemma RewriteLinkKeepsValid(albums: map<nat, GlobalAlbum>, userAlbums: map<nat, UserAlbum>, nextAlbum: nat,
                              nextUserAlbum: nat, k: nat, row: UserAlbum)
    requires TablesValid(albums, userAlbums, nextAlbum, nextUserAlbum)
    requires k in userAlbums && row.userId == userAlbums[k].userId && row.albumId == userAlbums[k].albumId
    ensures TablesValid(albums, userAlbums[k := row], nextAlbum, nextUserAlbum)
  {
    var ua := userAlbums[k := row];
    forall k1, k2 | k1 in ua && k2 in ua && k1 != k2
      ensures ua[k1].userId != ua[k2].userId || ua[k1].albumId != ua[k2].albumId
    {
      assert ua[k1].userId == userAlbums[k1].userId && ua[k1].albumId == userAlbums[k1].albumId;
      assert ua[k2].userId == userAlbums[k2].userId && ua[k2].albumId == userAlbums[k2].albumId;
    }
  }

  /** Inserting a new global album keeps the tables valid. */
  lemma InsertAlbumKeepsValid(albums: map<nat, GlobalAlbum>, userAlbums: map<nat, UserAlbum>, nextAlbum: nat,
                              nextUserAlbum: nat, a: GlobalAlbum)
    requires TablesValid(albums, userAlbums, nextAlbum, nextUserAlbum)
    ensures TablesValid(albums[nextAlbum := a], userAlbums, nextAlbum + 1, nextUserAlbum)
    ensures forall u :: !HasLink(userAlbums, u, nextAlbum)
  {
  }

  /** Inserting a link for an album the user does not hold yet keeps the
      tables valid: this is where `create` upholds one link per (user, album). */
  lemma InsertLinkKeepsValid(albums: map<nat, GlobalAlbum>, userAlbums: map<nat, UserAlbum>, nextAlbum: nat,
                             nextUserAlbum: nat, link: UserAlbum)
    requires TablesValid(albums, userAlbums, nextAlbum, nextUserAlbum)
    requires link.albumId in albums && !HasLink(userAlbums, link.userId, link.albumId)
    ensures TablesValid(albums, userAlbums[nextUserAlbum := link], nextAlbum, nextUserAlbum + 1)
  {
    var ua := userAlbums[nextUserAlbum := link];
    forall k1, k2 | k1 in ua && k2 in ua && k1 != k2
      ensures ua[k1].userId != ua[k2].userId || ua[k1].albumId != ua[k2].albumId
    {
      if k1 == nextUserAlbum {
        assert k2 in userAlbums;
      } else if k2 == nextUserAlbum {
        assert k1 in userAlbums;
      }
    }
  }

  class Database {
    var albums: map<nat, GlobalAlbum>
    var userAlbums: map<nat, UserAlbum>
    var nextAlbum: nat
    var nextUserAlbum: nat
    /** Jobs handed to `scheduler.runAfter(0, storeCoverArt, ...)`, in order. */
    var scheduled: seq<CoverJob>

    /** Ids are below their counters; every link references an existing
        album; and no user links the same album twice (the
        `by_userId_albumId` intent). */
    ghost predicate Valid()
      reads this
    {
      TablesValid(albums, userAlbums, nextAlbum, nextUserAlbum)
    }

    /** Nothing but the `user_albums` table changed. */
    twostate predicate CatalogUntouched()
      reads this
    {
      albums == old(albums) && nextAlbum == old(nextAlbum) && nextUserAlbum == old(nextUserAlbum)
      && scheduled == old(scheduled)
    }

    constructor ()
      ensures Valid()
      ensures albums == map[] && userAlbums == map[] && scheduled == []
    {
      albums, userAlbums := map[], map[];
      nextAlbum, nextUserAlbum := 0, 0;
      scheduled := [];
    }

    // ---- queries ----

    /** The index filter of `get`: acquisition if given, else progress if
        given, else every row of the user. */
    static predicate IndexSelects(link: UserAlbum, acquisition: Option<Acquisition>, progress: Option<Progress>) {
      if acquisition.Some? then link.acquisition == acquisition.value
      else if progress.Some? then link.progress == progress
      else true
    }

    predicate Selected(k: nat, userId: string, acquisition: Option<Acquisition>, progress: Option<Progress>)
      reads this
    {
      && k in userAlbums && userAlbums[k].userId == userId
      && IndexSelects(userAlbums[k], acquisition, progress)
      && userAlbums[k].albumId in albums
    }

    /** `e` is the join of link `e.id` with its global album. */
    predicate Joins(e: LibraryEntry)
      reads this
    {
      && e.id in userAlbums && e.link == userAlbums[e.id]
      && e.globalAlbumId == e.link.albumId
      && e.link.albumId in albums && e.album == albums[e.link.albumId]
    }

    function JoinFrom(userId: string, acquisition: Option<Acquisition>, progress: Option<Progress>, lo: nat): (r: seq<LibraryEntry>)
      reads this
      decreases nextUserAlbum - lo
      ensures forall e :: e in r ==> lo <= e.id < nextUserAlbum && Joins(e) && Selected(e.id, userId, acquisition, progress)
      ensures forall k :: lo <= k < nextUserAlbum && Selected(k, userId, acquisition, progress) ==>
                exists e :: e in r && e.id == k
      ensures forall i, j :: 0 <= i < j < |r| ==> r[i].id < r[j].id
    {
      if lo >= nextUserAlbum then []
      else
        var rest := JoinFrom(userId, acquisition, progress, lo + 1);
        if Selected(lo, userId, acquisition, progress) then
          var link := userAlbums[lo];
          var e := LibraryEntry(lo, link.albumId, albums[link.albumId], link);
          assert Joins(e);
          [e] + rest
        else rest
    }

    /** `get`: the caller's links in creation order, each joined with its
        global album; links whose album is missing are dropped. */
    function Get(caller: Option<string>, acquisition: Option<Acquisition>, progress: Option<Progress>): (r: seq<LibraryEntry>)
      reads this
      requires Valid()
      ensures caller.None? ==> r == []
      ensures forall e :: e in r ==> caller.Some? && e.link.userId == caller.value && Joins(e)
                                      && IndexSelects(e.link, acquisition, progress)
      ensures caller.Some? ==> forall k :: Selected(k, caller.value, acquisition, progress) ==>
                exists e :: e in r && e.id == k
      ensures forall i, j :: 0 <= i < j < |r| ==> r[i].id < r[j].id
    {
      if caller.None? then [] else JoinFrom(caller.value, acquisition, progress, 0)
    }

    /** `getById`: the join for one link id, for any caller. */
    function GetById(id: nat): (r: Option<LibraryEntry>)
      reads this
      ensures r.Some? <==> id in userAlbums && userAlbums[id].albumId in albums
      ensures r.Some? ==> r.value.id == id && Joins(r.value)
    {
      if id in userAlbums && userAlbums[id].albumId in albums then
        Some(LibraryEntry(id, userAlbums[id].albumId, albums[userAlbums[id].albumId], userAlbums[id]))
      else None
    }

    /** The ownership test of the batch mutations:
        `albums.some((a) => !a || a.userId !== userId)` negated. */
    method CheckOwnership(userId: string, ids: seq<nat>) returns (ok: bool)
      ensures ok <==> AllOwnedBy(userAlbums, userId, ids)
    {
      ok := true;
      var i := 0;
      while i < |ids|
        invariant 0 <= i <= |ids|
        invariant ok <==> forall j :: 0 <= j < i ==> OwnedBy(userAlbums, userId, ids[j])
      {
        if !(ids[i] in userAlbums && userAlbums[ids[i]].userId == userId) {
          ok := false;
        }
        i := i + 1;
      }
    }

    // ---- mutations ----

    /** `create`: resolve or insert the global album, refuse a second link
        to it, insert the link, and schedule a cover download for a new
        album that came with a cover URL and no uploaded image. */
    method Create(caller: Option<string>, args: CreateArgs, now: int) returns (r: Result<nat, Failure>)
      requires Valid()
      modifies this
      ensures Valid()
      ensures caller.None? ==> r == Failure(Unauthenticated("create")) && unchanged(this)
      ensures caller.Some? && HasLink(old(userAlbums), caller.value, Target(old(albums), old(nextAlbum), args)) ==>
                r == Failure(AlreadyInLibrary) && unchanged(this)
      ensures caller.Some? && !HasLink(old(userAlbums), caller.value, Target(old(albums), old(nextAlbum), args)) ==>
                var found := Resolve(old(albums), old(nextAlbum), args);
                var gid := Target(old(albums), old(nextAlbum), args);
                && r == Success(old(nextUserAlbum))
                && albums == (if found.Some? then old(albums) else old(albums)[gid := NewAlbum(args)])
                && nextAlbum == (if found.Some? then old(nextAlbum) else old(nextAlbum) + 1)
                && userAlbums == old(userAlbums)[old(nextUserAlbum) := NewLink(caller.value, gid, args, now)]
                && nextUserAlbum == old(nextUserAlbum) + 1
                && scheduled == old(scheduled) +
                     (if ShouldScheduleCover(args, found.None?) then [CoverJob(AlbumRef(gid), args.coverUrl, None)] else [])
    {
      if caller.None? {
        return Failure(Unauthenticated("create"));
      }
      r := CreateFor(caller.value, args, now);
    }

    /** `create` past its identity check. */
    method CreateFor(userId: string, args: CreateArgs, now: int) returns (r: Result<nat, Failure>)
      requires Valid()
      modifies this
      ensures Valid()
      ensures HasLink(old(userAlbums), userId, Target(old(albums), old(nextAlbum), args)) ==>
                r == Failure(AlreadyInLibrary) && unchanged(this)
      ensures !HasLink(old(userAlbums), userId, Target(old(albums), old(nextAlbum), args)) ==>
                var found := Resolve(old(albums), old(nextAlbum), args);
                var gid := Target(old(albums), old(nextAlbum), args);
                && r == Success(old(nextUserAlbum))
                && albums == (if found.Some? then old(albums) else old(albums)[gid := NewAlbum(args)])
                && nextAlbum == (if found.Some? then old(nextAlbum) else old(nextAlbum) + 1)
                && userAlbums == old(userAlbums)[old(nextUserAlbum) := NewLink(userId, gid, args, now)]
                && nextUserAlbum == old(nextUserAlbum) + 1
                && scheduled == old(scheduled) +
                     (if ShouldScheduleCover(args, found.None?) then [CoverJob(AlbumRef(gid), args.coverUrl, None)] else [])
    {
      var globalAlbumId := FindGlobalAlbum(args);
      var isNewAlbum := globalAlbumId.None?;

      // A thrown error rolls the whole mutation back, the insert included.
      var savedAlbums, savedNextAlbum := albums, nextAlbum;
      var gid: nat;
      if globalAlbumId.None? {
        gid := InsertAlbum(NewAlbum(args));
      } else {
        gid := globalAlbumId.value;
      }

      if HasLink(userAlbums, userId, gid) {
        albums, nextAlbum := savedAlbums, savedNextAlbum;
        assert gid == Target(old(albums), old(nextAlbum), args);
        return Failure(AlreadyInLibrary);
      }

      assert gid == Target(old(albums), old(nextAlbum), args);
      var newUserAlbumId := InsertLink(NewLink(userId, gid, args, now));

      // the re-fetched link is the one just inserted, so its albumId is gid
      ScheduleCover(args, isNewAlbum, userAlbums[newUserAlbumId].albumId);
      r := Success(newUserAlbumId);
    }

    /** The tail of `create`: queue `storeCoverArt` for a new album that
        came with a truthy cover URL and no uploaded image. */
    method ScheduleCover(args: CreateArgs, isNewAlbum: bool, albumId: nat)
      modifies this
      ensures scheduled == old(scheduled) +
                (if ShouldScheduleCover(args, isNewAlbum) then [CoverJob(AlbumRef(albumId), args.coverUrl, None)] else [])
      ensures albums == old(albums) && nextAlbum == old(nextAlbum)
      ensures userAlbums == old(userAlbums) && nextUserAlbum == old(nextUserAlbum)
    {
      if Truthy(args.coverUrl) && args.coverImageId.None? && isNewAlbum {
        scheduled := scheduled + [CoverJob(AlbumRef(albumId), args.coverUrl, None)];
      }
    }

    /** `ctx.db.insert("albums", ...)`: a fresh id, no links to it yet. */
    method InsertAlbum(a: GlobalAlbum) returns (id: nat)
      requires Valid()
      modifies this
      ensures Valid()
      ensures id == old(nextAlbum) && albums == old(albums)[id := a] && nextAlbum == id + 1
      ensures userAlbums == old(userAlbums) && nextUserAlbum == old(nextUserAlbum) && scheduled == old(scheduled)
      ensures forall u :: !HasLink(userAlbums, u, id)
    {
      InsertAlbumKeepsValid(albums, userAlbums, nextAlbum, nextUserAlbum, a);
      id := nextAlbum;
      albums := albums[id := a];
      nextAlbum := nextAlbum + 1;
    }

    /** `ctx.db.insert("user_albums", ...)` for a link the user does not
        hold yet. */
    method InsertLink(link: UserAlbum) returns (id: nat)
      requires Valid()
      requires link.albumId in albums && !HasLink(userAlbums, link.userId, link.albumId)
      modifies this
      ensures Valid()
      ensures id == old(nextUserAlbum) && userAlbums == old(userAlbums)[id := link] && nextUserAlbum == id + 1
      ensures albums == old(albums) && nextAlbum == old(nextAlbum) && scheduled == old(scheduled)
    {
      InsertLinkKeepsValid(albums, userAlbums, nextAlbum, nextUserAlbum, link);
      id := nextUserAlbum;
      userAlbums := userAlbums[id := link];
      nextUserAlbum := nextUserAlbum + 1;
    }

    /** The catalog search of `create`: by MusicBrainz id when one is
        given, then exact artist with case-insensitive title, then exact
        title with case-insensitive artist. */
    method FindGlobalAlbum(args: CreateArgs) returns (globalAlbumId: Option<nat>)
      ensures globalAlbumId == Resolve(albums, nextAlbum, args)
    {
      globalAlbumId := None;
      var cleanTitle := Trim(args.title);
      var cleanArtist := Trim(args.artist);

      if Truthy(args.musicBrainzId) {
        var existingByMbid := FirstMatch(albums, 0, nextAlbum, ByMusicBrainzId(args.musicBrainzId.value));
        if existingByMbid.Some? {
          globalAlbumId := existingByMbid;
        }
      }
      if globalAlbumId.None? {
        var found := FirstMatch(albums, 0, nextAlbum, ByArtistThenTitle(cleanArtist, cleanTitle));
        if found.None? {
          found := FirstMatch(albums, 0, nextAlbum, ByTitleThenArtist(cleanTitle, cleanArtist));
        }
        globalAlbumId := found;
      }
      ResolveUnfolds(albums, nextAlbum, args);
    }

    /** `updateCoverImageId`: map a link id to its global album, give up if
        the target is still a link id, then patch only the cover fields. */
    method UpdateCoverImageId(id: DocId, storageId: StorageId, coverUrl: Option<string>) returns (outcome: CoverPatch)
      requires Valid()
      modifies this
      ensures Valid()
      ensures outcome == CoverPatchOutcome(old(albums), old(userAlbums), id)
      ensures albums == CoverPatched(old(albums), old(userAlbums), id, storageId, coverUrl)
      ensures userAlbums == old(userAlbums) && nextAlbum == old(nextAlbum) && nextUserAlbum == old(nextUserAlbum)
      ensures scheduled == old(scheduled)
    {
      var targetId := id;
      if id.UserAlbumRef? && id.n in userAlbums {
        targetId := AlbumRef(userAlbums[id.n].albumId);
      }
      if targetId.UserAlbumRef? {
        return Aborted;
      }
      if targetId.n !in albums {
        return PatchFailed;
      }
      albums := albums[targetId.n := albums[targetId.n].(coverImageId := Some(storageId), coverUrl := coverUrl)];
      outcome := Patched;
    }

    /** `update`: write the defined user fields of the caller's own link. */
    method Update(caller: Option<string>, id: nat, u: UpdateArgs) returns (r: Result<(), Failure>)
      requires Valid()
      modifies this
      ensures Valid() && CatalogUntouched()
      ensures caller.None? ==> r == Failure(Unauthenticated("update")) && unchanged(this)
      ensures caller.Some? && !OwnedBy(old(userAlbums), caller.value, id) ==>
                r == Failure(NotFoundOrUnauthorized) && unchanged(this)
      ensures caller.Some? && OwnedBy(old(userAlbums), caller.value, id) ==>
                r == Success(()) && userAlbums == old(userAlbums)[id := ApplyUpdate(old(userAlbums)[id], u)]
    {
      if caller.None? {
        return Failure(Unauthenticated("update"));
      }
      var userId := caller.value;
      if !(id in userAlbums && userAlbums[id].userId == userId) {
        return Failure(NotFoundOrUnauthorized);
      }
      userAlbums := userAlbums[id := ApplyUpdate(userAlbums[id], u)];
      r := Success(());
    }

    /** `remove`: delete the caller's own link; the global album stays. */
    method Remove(caller: Option<string>, id: nat) returns (r: Result<(), Failure>)
      requires Valid()
      modifies this
      ensures Valid() && CatalogUntouched()
      ensures caller.None? ==> r == Failure(Unauthenticated("remove")) && unchanged(this)
      ensures caller.Some? && !OwnedBy(old(userAlbums), caller.value, id) ==>
                r == Failure(NotFoundOrUnauthorized) && unchanged(this)
      ensures caller.Some? && OwnedBy(old(userAlbums), caller.value, id) ==>
                r == Success(()) && userAlbums == old(userAlbums) - {id}
    {
      if caller.None? {
        return Failure(Unauthenticated("remove"));
      }
      var userId := caller.value;
      if !(id in userAlbums && userAlbums[id].userId == userId) {
        return Failure(NotFoundOrUnauthorized);
      }
      userAlbums := userAlbums - {id};
      r := Success(());
    }

    /** `batchDelete`: all or nothing; every id must name a link of the caller. */
    method BatchDelete(caller: Option<string>, ids: seq<nat>) returns (r: Result<(), Failure>)
      requires Valid()
      modifies this
      ensures Valid() && CatalogUntouched()
      ensures caller.None? ==> r == Failure(Unauthenticated("batchDelete")) && unchanged(this)
      ensures caller.Some? && !AllOwnedBy(old(userAlbums), caller.value, ids) ==>
                r == Failure(SomeNotFoundOrUnauthorized) && unchanged(this)
      ensures caller.Some? && AllOwnedBy(old(userAlbums), caller.value, ids) ==>
                r == Success(()) && userAlbums == old(userAlbums) - IdSet(ids)
    {
      if caller.None? {
        return Failure(Unauthenticated("batchDelete"));
      }
      var ok := CheckOwnership(caller.value, ids);
      if !ok {
        return Failure(SomeNotFoundOrUnauthorized);
      }
      var i := 0;
      while i < |ids|
        invariant 0 <= i <= |ids|
        invariant Valid() && CatalogUntouched()
        invariant userAlbums == old(userAlbums) - IdSet(ids[..i])
      {
        IdSetStep(ids, i);
        userAlbums := userAlbums - {ids[i]};
        i := i + 1;
      }
      assert ids[..i] == ids;
      r := Success(());
    }

    /** `batchUpdate`: all or nothing; every listed link gets the same patch. */
    method BatchUpdate(caller: Option<string>, ids: seq<nat>, patch: BatchPatch) returns (r: Result<(), Failure>)
      requires Valid()
      modifies this
      ensures Valid() && CatalogUntouched()
      ensures caller.None? ==> r == Failure(Unauthenticated("batchUpdate")) && unchanged(this)
      ensures caller.Some? && !AllOwnedBy(old(userAlbums), caller.value, ids) ==>
                r == Failure(SomeNotFoundOrUnauthorized) && unchanged(this)
      ensures caller.Some? && AllOwnedBy(old(userAlbums), caller.value, ids) ==>
                && r == Success(())
                && userAlbums.Keys == old(userAlbums).Keys
                && forall k :: k in userAlbums ==>
                     userAlbums[k] == if k in IdSet(ids) then ApplyPatch(old(userAlbums)[k], patch) else old(userAlbums)[k]
    {
      if caller.None? {
        return Failure(Unauthenticated("batchUpdate"));
      }
      var ok := CheckOwnership(caller.value, ids);
      if !ok {
        return Failure(SomeNotFoundOrUnauthorized);
      }
      PatchLinks(ids, patch);
      r := Success(());
    }

    /** The writes of `batchUpdate`, once every id is known to exist. */
    method PatchLinks(ids: seq<nat>, patch: BatchPatch)
      requires Valid() && forall i :: 0 <= i < |ids| ==> ids[i] in userAlbums
      modifies this
      ensures Valid() && CatalogUntouched()
      ensures userAlbums == PatchRows(old(userAlbums), IdSet(ids), patch)
    {
      var i := 0;
      while i < |ids|
        invariant 0 <= i <= |ids|
        invariant Valid() && CatalogUntouched()
        invariant userAlbums == PatchRows(old(userAlbums), IdSet(ids[..i]), patch)
      {
        IdSetStep(ids, i);
        PatchRowsStep(old(userAlbums), IdSet(ids[..i]), ids[i], patch);
        var row := ApplyPatch(userAlbums[ids[i]], patch);
        RewriteLinkKeepsValid(albums, userAlbums, nextAlbum, nextUserAlbum, ids[i], row);
        userAlbums := userAlbums[ids[i] := row];
        i := i + 1;
      }
      assert ids[..i] == ids;
    }
  }

  lemma ResolveByPair(albums: map<nat, GlobalAlbum>, bound: nat, a: Lookup, t: Lookup)
    ensures ResolveBy(albums, bound, [a, t]) ==
      var m := FirstMatch(albums, 0, bound, a);
      if m.Some? then m else FirstMatch(albums, 0, bound, t)
  {
    assert [a, t][1..] == [t];
    assert [t][1..] == [];
  }

  /** The step-by-step search of `create` computes `Resolve`. */
  lemma ResolveUnfolds(albums: map<nat, GlobalAlbum>, bound: nat, args: CreateArgs)
    ensures
      var byMbid := if Truthy(args.musicBrainzId) then FirstMatch(albums, 0, bound, ByMusicBrainzId(args.musicBrainzId.value)) else None;
      var byArtist := FirstMatch(albums, 0, bound, ByArtistThenTitle(Trim(args.artist), Trim(args.title)));
      var byTitle := FirstMatch(albums, 0, bound, ByTitleThenArtist(Trim(args.title), Trim(args.artist)));
      Resolve(albums, bound, args) ==
        if byMbid.Some? then byMbid else if byArtist.Some? then byArtist else byTitle
  {
    var title, artist := Trim(args.title), Trim(args.artist);
    var a, t := ByArtistThenTitle(artist, title), ByTitleThenArtist(title, artist);
    ResolveByPair(albums, bound, a, t);
    var ls := Strategies(args);
    if Truthy(args.musicBrainzId) {
      assert ls == [ByMusicBrainzId(args.musicBrainzId.value)] + [a, t];
      assert ls[1..] == [a, t];
    } else {
      assert ls == [a, t];
    }
  }

  /** Appending one album past every existing id changes what a lookup
      finds only if nothing before it matched. */
  lemma FirstMatchAppend(albums: map<nat, GlobalAlbum>, n: nat, a: GlobalAlbum, l: Lookup)
    requires forall k :: k in albums ==> k < n
    requires FirstMatch(albums, 0, n, l).None?
    ensures FirstMatch(albums[n := a], 0, n + 1, l) == if Matches(a, l) then Some(n) else None
  {
    var after := albums[n := a];
    assert n in after && after[n] == a;
  }

  /** Creating the same album again finds the row the first `create`
      inserted: the catalog does not grow twice for one album. */
  lemma ResolveFindsInserted(albums: map<nat, GlobalAlbum>, n: nat, args: CreateArgs)
    requires forall k :: k in albums ==> k < n
    requires Resolve(albums, n, args).None?
    ensures Resolve(albums[n := NewAlbum(args)], n + 1, args) == Some(n)
  {
    var a := NewAlbum(args);
    var title, artist := Trim(args.title), Trim(args.artist);
    var ls := Strategies(args);
    ResolveUnfolds(albums, n, args);
    ResolveUnfolds(albums[n := a], n + 1, args);
    assert Matches(a, ByArtistThenTitle(artist, title));
    FirstMatchAppend(albums, n, a, ByArtistThenTitle(artist, title));
    if Truthy(args.musicBrainzId) {
      FirstMatchAppend(albums, n, a, ByMusicBrainzId(args.musicBrainzId.value));
    }
  }

  /** A truthy MusicBrainz id that some album carries always wins, and
      what it finds is the oldest album with that id. */
  lemma ResolveByMusicBrainzId(albums: map<nat, GlobalAlbum>, bound: nat, args: CreateArgs, k: nat)
    requires Truthy(args.musicBrainzId)
    requires k < bound && k in albums && albums[k].musicBrainzId == args.musicBrainzId
    ensures var r := Resolve(albums, bound, args);
      && r.Some? && r.value <= k && albums[r.value].musicBrainzId == args.musicBrainzId
      && forall j :: j < r.value && j in albums ==> albums[j].musicBrainzId != args.musicBrainzId
  {
    ResolveUnfolds(albums, bound, args);
    var m := FirstMatch(albums, 0, bound, ByMusicBrainzId(args.musicBrainzId.value));
    assert Matches(albums[k], ByMusicBrainzId(args.musicBrainzId.value));
    assert m.Some?;
  }

  /** Case-insensitivity covers one field per lookup: an album entered
      with both its title and its artist recased (say "ABBEY ROAD" by "the
      beatles" against the stored "Abbey Road" by "The Beatles") does not
      find the stored album, because each lookup wants one of the two
      fields exactly; `create` then inserts a second catalog row for it. */
  lemma BothFieldsRecasedFindsNothing(stored: GlobalAlbum, args: CreateArgs)
    requires args.musicBrainzId.None?
    requires Lower(Trim(args.title)) == Lower(stored.title) && Trim(args.title) != stored.title
    requires Lower(Trim(args.artist)) == Lower(stored.artist) && Trim(args.artist) != stored.artist
    ensures Resolve(map[0 := stored], 1, args).None?
  {
    var albums := map[0 := stored];
    ResolveNeedsOneExactField(albums, 1, args);
    OnlyRowDiffers(albums, stored, Resolve(albums, 1, args), Trim(args.artist), Trim(args.title));
  }

  lemma OnlyRowDiffers(albums: map<nat, GlobalAlbum>, stored: GlobalAlbum, r: Option<nat>, artist: string, title: string)
    requires albums == map[0 := stored] && stored.artist != artist && stored.title != title
    requires r.Some? ==> r.value in albums && (albums[r.value].artist == artist || albums[r.value].title == title)
    ensures r.None?
  {
  }

  /** Without a MusicBrainz id, what `create` finds agrees exactly with
      the trimmed artist or with the trimmed title. */
  lemma ResolveNeedsOneExactField(albums: map<nat, GlobalAlbum>, bound: nat, args: CreateArgs)
    requires !Truthy(args.musicBrainzId)
    ensures var r := Resolve(albums, bound, args);
      r.Some? ==> r.value < bound && r.value in albums
                  && (albums[r.value].artist == Trim(args.artist) || albums[r.value].title == Trim(args.title))
  {
    ResolveUnfolds(albums, bound, args);
  }

  /** Under the exact trimmed artist, the title is compared without case:
      the oldest such album is found when no MusicBrainz id decides. */
  lemma ResolveIgnoresTitleCase(albums: map<nat, GlobalAlbum>, bound: nat, args: CreateArgs, k: nat)
    requires !Truthy(args.musicBrainzId)
    requires k < bound && k in albums
    requires albums[k].artist == Trim(args.artist) && Lower(albums[k].title) == Lower(Trim(args.title))
    ensures var r := Resolve(albums, bound, args);
      && r.Some? && r.value <= k
      && albums[r.value].artist == Trim(args.artist) && Lower(albums[r.value].title) == Lower(Trim(args.title))
  {
    ResolveUnfolds(albums, bound, args);
    assert Matches(albums[k], ByArtistThenTitle(Trim(args.artist), Trim(args.title)));
  }
}
