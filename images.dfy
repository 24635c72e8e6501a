/** The cover-art backfill of convex/images.ts: `storeCoverArt` as a
    sequence of steps over the `Database` of convex/albums.ts and a blob
    store.  `fetch` is a parameter that says how the request to each URL
    ends; the store hands out fresh ids from a call counter. */
module Images {
  import opened Wrappers
  import opened Schema
  import opened CoverArt
  import opened Albums

  /** How `fetch(url)` ends: a response with `ok` and its body, a response
      without `ok`, or a thrown error (network failure, unreadable body). */
  datatype FetchOutcome = FetchOk(bytes: seq<bv8>) | FetchNotOk(status: int) | FetchThrows

  /** How one `storeCoverArt` run ends. */
  datatype Backfill =
    | AlreadyHasCover
    | NoSource
    | FetchFailed(url: string)
    | Stored(url: string, storageId: StorageId, patch: CoverPatch)

  /** `ctx.storage`: blobs under ids handed out in call order. */
  class BlobStore {
    var blobs: map<StorageId, seq<bv8>>
    var calls: nat

    ghost predicate Valid()
      reads this
    {
      forall k :: k in blobs ==> k < calls
    }

    constructor ()
      ensures Valid() && blobs == map[] && calls == 0
    {
      blobs, calls := map[], 0;
    }

    /** `storage.store(blob)`: a fresh id; no stored blob is touched. */
    method Store(bytes: seq<bv8>) returns (id: StorageId)
      requires Valid()
      modifies this
      ensures Valid()
      ensures id == old(calls) && id !in old(blobs)
      ensures blobs == old(blobs)[id := bytes] && calls == old(calls) + 1
    {
      id := calls;
      blobs := blobs[id := bytes];
      calls := calls + 1;
    }

    /** `getUrl`: a serving URL for a stored blob, `null` otherwise; the
        URL scheme of the store is the parameter `urlOf`. */
    function GetUrl(storageId: StorageId, urlOf: StorageId -> string): (r: Option<string>)
      reads this
      ensures r.Some? <==> storageId in blobs
      ensures r.Some? ==> r.value == urlOf(storageId)
    {
      if storageId in blobs then Some(urlOf(storageId)) else None
    }
  }

  /** The URL `storeCoverArt` downloads: the given cover URL when truthy,
      else the Cover Art Archive address of a truthy MusicBrainz id. */
  function SourceUrl(job: CoverJob): (r: Option<string>)
    ensures r.None? <==> !Truthy(job.coverUrl) && !Truthy(job.musicBrainzId)
    ensures r.Some? ==> Truthy(r)
    ensures Truthy(job.coverUrl) ==> r == job.coverUrl
    ensures !Truthy(job.coverUrl) && Truthy(job.musicBrainzId) ==>
              r == Some(CoverArtUrl(job.musicBrainzId.value))
  {
    if Truthy(job.coverUrl) then job.coverUrl
    else if Truthy(job.musicBrainzId) then Some(CoverArtUrl(job.musicBrainzId.value))
    else None
  }

  /** What the download and attach steps leave behind: nothing at all
      without a URL or after a failed fetch; otherwise one new blob under
      the next id and the cover fields of the resolved global album set
      to that id and the fetched URL. */
  twostate predicate Attached(db: Database, store: BlobStore, job: CoverJob, fetch: string -> FetchOutcome, b: Backfill)
    reads db, store
  {
    && (SourceUrl(job).None? ==> b == NoSource && unchanged(db) && unchanged(store))
    && (SourceUrl(job).Some? && !fetch(SourceUrl(job).value).FetchOk? ==>
          b == FetchFailed(SourceUrl(job).value) && unchanged(db) && unchanged(store))
    && (SourceUrl(job).Some? && fetch(SourceUrl(job).value).FetchOk? ==>
          var url := SourceUrl(job).value;
          var sid := old(store.calls);
          && b == Stored(url, sid, CoverPatchOutcome(old(db.albums), old(db.userAlbums), job.albumId))
          && store.blobs == old(store.blobs)[sid := fetch(url).bytes] && store.calls == sid + 1
          && db.albums == CoverPatched(old(db.albums), old(db.userAlbums), job.albumId, sid, Some(url))
          && db.userAlbums == old(db.userAlbums) && db.nextAlbum == old(db.nextAlbum)
          && db.nextUserAlbum == old(db.nextUserAlbum) && db.scheduled == old(db.scheduled))
  }

  /** The download and attach steps taken once the status check has let
      the run through: pick the URL, fetch it, store the body, and patch
      the global album.  A failed fetch returns without effect; a failed
      patch is caught, after the blob was stored. */
  method FetchAndAttach(db: Database, store: BlobStore, job: CoverJob, fetch: string -> FetchOutcome)
    returns (b: Backfill)
    requires db.Valid() && store.Valid()
    modifies db, store
    ensures db.Valid() && store.Valid()
    ensures Attached(db, store, job, fetch, b)
  {
    var coverUrl := job.coverUrl;
    if !Truthy(coverUrl) && Truthy(job.musicBrainzId) {
      coverUrl := Some(CoverArtUrl(job.musicBrainzId.value));
    }
    if !Truthy(coverUrl) {
      return NoSource;
    }
    var response := fetch(coverUrl.value);
    if !response.FetchOk? {
      return FetchFailed(coverUrl.value);
    }
    var storageId := store.Store(response.bytes);
    var patch := db.UpdateCoverImageId(job.albumId, storageId, coverUrl);
    b := Stored(coverUrl.value, storageId, patch);
  }

  /** `storeCoverArt` as written: skip when `getAlbumCoverStatus` reports
      a cover, by `coverImageId` or by `coverUrl`. */
  method StoreCoverArt(db: Database, store: BlobStore, job: CoverJob, fetch: string -> FetchOutcome)
    returns (b: Backfill)
    requires db.Valid() && store.Valid()
    modifies db, store
    ensures db.Valid() && store.Valid()
    ensures old(CoverStatus(db.albums, db.userAlbums, job.albumId)) ==>
              b == AlreadyHasCover && unchanged(db) && unchanged(store)
    ensures !old(CoverStatus(db.albums, db.userAlbums, job.albumId)) ==> Attached(db, store, job, fetch, b)
  {
    if CoverStatus(db.albums, db.userAlbums, job.albumId) {
      return AlreadyHasCover;
    }
    b := FetchAndAttach(db, store, job, fetch);
  }

  /** The status check the download evidently wants: has an image been
      stored for this album?  Only `coverImageId` says so; the `coverUrl`
      that `create` copies into the new row does not. */
  function StoredCoverStatus(albums: map<nat, GlobalAlbum>, userAlbums: map<nat, UserAlbum>, id: DocId): (hasImage: bool)
    ensures hasImage ==> CoverStatus(albums, userAlbums, id)
    ensures hasImage <==> ResolveTarget(userAlbums, id).AlbumRef? && ResolveTarget(userAlbums, id).n in albums
                          && albums[ResolveTarget(userAlbums, id).n].coverImageId.Some?
  {
    match ResolveTarget(userAlbums, id)
    case UserAlbumRef(_) => false
    case AlbumRef(g) => g in albums && albums[g].coverImageId.Some?
  }

  /** `storeCoverArt` with the corrected status check. */
  method StoreCoverArtFixed(db: Database, store: BlobStore, job: CoverJob, fetch: string -> FetchOutcome)
    returns (b: Backfill)
    requires db.Valid() && store.Valid()
    modifies db, store
    ensures db.Valid() && store.Valid()
    ensures old(StoredCoverStatus(db.albums, db.userAlbums, job.albumId)) ==>
              b == AlreadyHasCover && unchanged(db) && unchanged(store)
    ensures !old(StoredCoverStatus(db.albums, db.userAlbums, job.albumId)) ==> Attached(db, store, job, fetch, b)
  {
    if StoredCoverStatus(db.albums, db.userAlbums, job.albumId) {
      return AlreadyHasCover;
    }
    b := FetchAndAttach(db, store, job, fetch);
  }

  // ---------------------------------------------------------------------
  // Properties of the backfill
  // ---------------------------------------------------------------------

  /** A successful patch makes the album report a stored image, so a
      second run of the corrected backfill stops at its status check. */
  lemma PatchedAlbumHasStoredImage(albums: map<nat, GlobalAlbum>, userAlbums: map<nat, UserAlbum>, id: DocId,
                                   storageId: StorageId, coverUrl: Option<string>)
    requires CoverPatchOutcome(albums, userAlbums, id) == Patched
    ensures StoredCoverStatus(CoverPatched(albums, userAlbums, id, storageId, coverUrl), userAlbums, id)
  {
  }

  /** Running the same job again after it stored and patched is a no-op:
      exactly one blob is stored over both runs. */
  method BackfillTwice(db: Database, store: BlobStore, job: CoverJob, fetch: string -> FetchOutcome)
    returns (first: Backfill, second: Backfill)
    requires db.Valid() && store.Valid()
    modifies db, store
    ensures db.Valid() && store.Valid()
    ensures first.Stored? && first.patch == Patched ==>
              second == AlreadyHasCover && store.calls == old(store.calls) + 1
  {
    first := StoreCoverArt(db, store, job, fetch);
    if first.Stored? && first.patch == Patched {
      PatchedAlbumHasCover(old(db.albums), old(db.userAlbums), job.albumId, first.storageId, Some(first.url));
    }
    second := StoreCoverArt(db, store, job, fetch);
  }

  /** The album `create` inserts for a job it schedules already carries the
      job's cover URL, so the as-written status check reports a cover. */
  lemma ScheduledAlbumReportsCover(albums: map<nat, GlobalAlbum>, userAlbums: map<nat, UserAlbum>, n: nat,
                                   args: CreateArgs)
    requires ShouldScheduleCover(args, true)
    ensures CoverStatus(albums[n := NewAlbum(args)], userAlbums, AlbumRef(n))
    ensures !StoredCoverStatus(albums[n := NewAlbum(args)], userAlbums, AlbumRef(n))
  {
    var a := NewAlbum(args);
    assert a.coverUrl == args.coverUrl && a.coverImageId.None?;
    var after := albums[n := a];
    assert n in after && after[n] == a;
  }

  /** `create` followed by the download it scheduled, as written: the
      download never stores anything, whatever `fetch` would return. */
  method CreateThenBackfill(db: Database, store: BlobStore, caller: Option<string>, args: CreateArgs, now: int,
                            fetch: string -> FetchOutcome)
    returns (r: Result<nat, Failure>, b: Option<Backfill>)
    requires db.Valid() && store.Valid()
    modifies db, store
    ensures db.Valid() && store.Valid()
    ensures b.Some? <==> r.Success? && ShouldScheduleCover(args, Resolve(old(db.albums), old(db.nextAlbum), args).None?)
    ensures b.Some? ==> b.value == AlreadyHasCover
    ensures unchanged(store)
  {
    var jobs := |db.scheduled|;
    r := db.Create(caller, args, now);
    b := None;
    if |db.scheduled| > jobs {
      var job := db.scheduled[jobs];
      ScheduledAlbumReportsCover(old(db.albums), db.userAlbums, old(db.nextAlbum), args);
      var backfill := StoreCoverArt(db, store, job, fetch);
      b := Some(backfill);
    }
  }

  /** `create` followed by the download it scheduled, with the corrected
      status check: a successful fetch stores one blob and attaches it to
      the new global album. */
  method CreateThenBackfillFixed(db: Database, store: BlobStore, caller: Option<string>, args: CreateArgs, now: int,
                                 fetch: string -> FetchOutcome)
    returns (r: Result<nat, Failure>, b: Option<Backfill>)
    requires db.Valid() && store.Valid()
    modifies db, store
    ensures db.Valid() && store.Valid()
    ensures b.Some? <==> r.Success? && ShouldScheduleCover(args, Resolve(old(db.albums), old(db.nextAlbum), args).None?)
    ensures b.Some? && fetch(args.coverUrl.value).FetchOk? ==>
              var gid := old(db.nextAlbum);
              && b.value == Stored(args.coverUrl.value, old(store.calls), Patched)
              && store.calls == old(store.calls) + 1
              && gid in db.albums && db.albums[gid].coverImageId == Some(old(store.calls))
  {
    var jobs := |db.scheduled|;
    r := db.Create(caller, args, now);
    b := None;
    if |db.scheduled| > jobs {
      var job := db.scheduled[jobs];
      var backfill := StoreCoverArtFixed(db, store, job, fetch);
      b := Some(backfill);
    }
  }
}
