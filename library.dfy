/** The client-side library logic of src/hooks/use-album-library.ts, which
    src/components/album-library.tsx repeats line for line: the filter over
    the rows `get` returns, shift-click range selection, select-all, batch
    mode, and the column count.  React state becomes the fields of one
    `LibraryView` object; each handler is a method on it. */
module Library {
  import opened Wrappers
  import opened Schema
  import opened Text
  import opened Albums

  /** The acquisition dropdown: "all", "archived", or one acquisition. */
  datatype AcquisitionFilter = AllAcquisitions | ArchivedOnly | AcquisitionIs(acquisition: Acquisition)

  /** The progress dropdown: "all" or one progress value. */
  datatype ProgressFilter = AllProgress | ProgressIs(progress: Progress)

  /** A mutation a batch handler sends, with the selected ids. */
  datatype BatchCall = DeleteCall(ids: set<nat>) | UpdateCall(ids: set<nat>, patch: BatchPatch)

  /** `album.progress || (album.acquisition === "library" ? "backlog" : undefined)`. */
  function EffectiveProgress(link: UserAlbum): (p: Option<Progress>)
    ensures link.progress.Some? ==> p == link.progress
    ensures link.progress.None? ==> (p.Some? <==> link.acquisition == Library) && (p.Some? ==> p.value == Backlog)
  {
    if link.progress.Some? then link.progress
    else if link.acquisition == Library then Some(Backlog)
    else None
  }

  /** The text search: a case-insensitive substring of the title or the artist. */
  predicate MatchesSearch(e: LibraryEntry, query: string) {
    query == "" || Contains(Lower(e.album.title), Lower(query)) || Contains(Lower(e.album.artist), Lower(query))
  }

  /** The archived filter keeps only archived rows; every other one hides
      them and, unless it is "all", wants the acquisition. */
  predicate MatchesAcquisition(e: LibraryEntry, af: AcquisitionFilter) {
    match af
    case ArchivedOnly => e.link.isArchived
    case AllAcquisitions => !e.link.isArchived
    case AcquisitionIs(a) => !e.link.isArchived && e.link.acquisition == a
  }

  predicate MatchesProgress(e: LibraryEntry, pf: ProgressFilter) {
    pf.ProgressIs? ==> EffectiveProgress(e.link) == Some(pf.progress)
  }

  /** The predicate `filteredAlbums` applies to each row. */
  predicate Keep(e: LibraryEntry, query: string, af: AcquisitionFilter, pf: ProgressFilter) {
    MatchesSearch(e, query) && MatchesAcquisition(e, af) && MatchesProgress(e, pf)
  }

  /** `r` is `s` with some elements left out, the rest in their order. */
  predicate Subsequence<T(==)>(r: seq<T>, s: seq<T>)
    decreases |s|
  {
    r == [] || (s != [] && ((r[0] == s[0] && Subsequence(r[1..], s[1..])) || Subsequence(r, s[1..])))
  }

  /** `allAlbums.filter(...)`. */
  function FilterRows(s: seq<LibraryEntry>, query: string, af: AcquisitionFilter, pf: ProgressFilter)
    : (r: seq<LibraryEntry>)
    ensures Subsequence(r, s)
    ensures forall i :: 0 <= i < |r| ==> Keep(r[i], query, af, pf)
    ensures forall e :: e in s && Keep(e, query, af, pf) ==> e in r
    ensures forall e :: e in r ==> e in s
  {
    if s == [] then []
    else if Keep(s[0], query, af, pf) then [s[0]] + FilterRows(s[1..], query, af, pf)
    else FilterRows(s[1..], query, af, pf)
  }

  /** `filteredAlbums`: nothing while the query is loading. */
  function FilteredAlbums(all: Option<seq<LibraryEntry>>, query: string, af: AcquisitionFilter, pf: ProgressFilter)
    : (r: seq<LibraryEntry>)
    ensures all.None? ==> r == []
    ensures all.Some? ==> Subsequence(r, all.value)
    ensures all.Some? ==> forall e :: e in r <==> e in all.value && Keep(e, query, af, pf)
  {
    if all.None? then [] else FilterRows(all.value, query, af, pf)
  }

  /** The search ignores case in the query too. */
  lemma SearchIgnoresQueryCase(e: LibraryEntry, query: string)
    ensures MatchesSearch(e, Lower(query)) <==> MatchesSearch(e, query)
  {
    LowerIdempotent(query);
    if query != [] {
      assert |Lower(query)| == |query|;
    }
  }

  /** A wishlist row without progress never matches a progress filter. */
  lemma WishlistWithoutProgressNeverMatches(e: LibraryEntry, query: string, af: AcquisitionFilter, p: Progress)
    requires e.link.acquisition == Wishlist && e.link.progress.None?
    ensures !Keep(e, query, af, ProgressIs(p))
  {
  }

  /** Ids a sequence of rows shows, as a set. */
  function IdsOf(s: seq<LibraryEntry>): set<nat> {
    set i | 0 <= i < |s| :: s[i].id
  }

  predicate IdsIncreasing(s: seq<LibraryEntry>) {
    forall i, j :: 0 <= i < j < |s| ==> s[i].id < s[j].id
  }

  /** Rows listed in increasing id order give a set of ids as large as the list. */
  lemma {:induction false} IdsOfSize(s: seq<LibraryEntry>)
    requires IdsIncreasing(s)
    ensures |IdsOf(s)| == |s|
  {
    if s != [] {
      var rest := s[1..];
      IdsOfSize(rest);
      IdsOfCons(s);
      assert s[0].id !in IdsOf(rest) by {
        forall i | 0 <= i < |rest| ensures rest[i].id != s[0].id {
          assert rest[i] == s[i + 1];
        }
      }
    }
  }

  lemma IdsOfCons(s: seq<LibraryEntry>)
    requires s != []
    ensures IdsOf(s) == {s[0].id} + IdsOf(s[1..])
  {
    var rest := s[1..];
    forall id | id in IdsOf(s) ensures id in {s[0].id} + IdsOf(rest) {
      var i :| 0 <= i < |s| && s[i].id == id;
      if i > 0 { assert rest[i - 1] == s[i]; }
    }
    forall id | id in IdsOf(rest) ensures id in IdsOf(s) {
      var i :| 0 <= i < |rest| && rest[i].id == id;
      assert s[i + 1] == rest[i];
    }
  }

  /** Adding the ids of a range one row at a time, as `range.forEach`
      does, adds exactly the range's ids. */
  method AddIds(selection: set<nat>, range: seq<LibraryEntry>) returns (r: set<nat>)
    ensures r == selection + IdsOf(range)
  {
    r := selection;
    var i := 0;
    while i < |range|
      invariant 0 <= i <= |range|
      invariant r == selection + IdsOf(range[..i])
    {
      assert IdsOf(range[..i + 1]) == IdsOf(range[..i]) + {range[i].id} by {
        assert range[..i + 1] == range[..i] + [range[i]];
      }
      r := r + {range[i].id};
      i := i + 1;
    }
    assert range[..i] == range;
  }

  /** The filter keeps rows in order, so ids that increase in `get`'s
      result still increase after filtering. */
  lemma {:induction false} SubsequenceKeepsIncreasing(r: seq<LibraryEntry>, s: seq<LibraryEntry>)
    requires Subsequence(r, s) && IdsIncreasing(s)
    ensures IdsIncreasing(r)
    decreases |s|
  {
    if r != [] {
      if r[0] == s[0] && Subsequence(r[1..], s[1..]) {
        SubsequenceKeepsIncreasing(r[1..], s[1..]);
        SubsequenceElements(r[1..], s[1..]);
        forall j | 1 <= j < |r| ensures r[0].id < r[j].id {
          assert r[j] == r[1..][j - 1];
          var k :| 0 <= k < |s[1..]| && s[1..][k] == r[j];
          assert s[k + 1] == r[j];
        }
      } else {
        SubsequenceKeepsIncreasing(r, s[1..]);
      }
    }
  }

  lemma {:induction false} SubsequenceElements<T>(r: seq<T>, s: seq<T>)
    requires Subsequence(r, s)
    ensures forall i :: 0 <= i < |r| ==> exists k :: 0 <= k < |s| && s[k] == r[i]
    decreases |s|
  {
    if r != [] {
      if r[0] == s[0] && Subsequence(r[1..], s[1..]) {
        SubsequenceElements(r[1..], s[1..]);
        forall i | 1 <= i < |r| ensures exists k :: 0 <= k < |s| && s[k] == r[i] {
          assert r[i] == r[1..][i - 1];
          var k :| 0 <= k < |s[1..]| && s[1..][k] == r[1..][i - 1];
          assert s[k + 1] == r[i];
        }
        assert s[0] == r[0];
      } else {
        SubsequenceElements(r, s[1..]);
        forall i | 0 <= i < |r| ensures exists k :: 0 <= k < |s| && s[k] == r[i] {
          var k :| 0 <= k < |s[1..]| && s[1..][k] == r[i];
          assert s[k + 1] == r[i];
        }
      }
    }
  }

  /** `findIndex((a) => a._id === id)`: the first position, or -1. */
  function IndexOf(s: seq<LibraryEntry>, id: nat): (r: int)
    ensures -1 <= r < |s|
    ensures r >= 0 ==> s[r].id == id && forall j :: 0 <= j < r ==> s[j].id != id
    ensures r == -1 <==> forall j :: 0 <= j < |s| ==> s[j].id != id
  {
    if s == [] then -1
    else if s[0].id == id then 0
    else
      var r := IndexOf(s[1..], id);
      if r == -1 then -1 else r + 1
  }

  /** The ids a shift-click adds: every row between the anchor's position
      and the clicked row's, both included, when both are shown. */
  function ShiftRange(s: seq<LibraryEntry>, anchor: nat, id: nat): set<nat> {
    var lastIndex := IndexOf(s, anchor);
    var currentIndex := IndexOf(s, id);
    if lastIndex == -1 || currentIndex == -1 then {} else Span(s, lastIndex, currentIndex)
  }

  /** The ids of the rows from position `i` to position `j`, in either order. */
  function Span(s: seq<LibraryEntry>, i: nat, j: nat): set<nat>
    requires i < |s| && j < |s|
  {
    var start := if i < j then i else j;
    var end := if i < j then j else i;
    IdsOf(s[start..end + 1])
  }

  lemma SpanCovers(s: seq<LibraryEntry>, i: nat, j: nat)
    requires i < |s| && j < |s|
    ensures forall k :: i <= k <= j || j <= k <= i ==> s[k].id in Span(s, i, j)
  {
    var start := if i < j then i else j;
    var end := if i < j then j else i;
    var range := s[start..end + 1];
    forall k | start <= k <= end ensures s[k].id in IdsOf(range) {
      assert range[k - start] == s[k];
    }
  }

  /** Both ends of a shift range are in it, and so is everything shown
      between them. */
  lemma ShiftRangeCovers(s: seq<LibraryEntry>, anchor: nat, id: nat)
    requires IndexOf(s, anchor) != -1 && IndexOf(s, id) != -1
    ensures anchor in ShiftRange(s, anchor, id) && id in ShiftRange(s, anchor, id)
    ensures forall k :: IndexOf(s, anchor) <= k <= IndexOf(s, id) || IndexOf(s, id) <= k <= IndexOf(s, anchor) ==>
              s[k].id in ShiftRange(s, anchor, id)
  {
    var a, c := IndexOf(s, anchor), IndexOf(s, id);
    assert ShiftRange(s, anchor, id) == Span(s, a, c);
    SpanCovers(s, a, c);
    assert s[a].id == anchor && s[c].id == id;
  }

  /** A shift-click adds only rows that are shown, and nothing at all when
      either id is not shown. */
  lemma ShiftRangeWithinShown(s: seq<LibraryEntry>, anchor: nat, id: nat)
    ensures ShiftRange(s, anchor, id) <= IdsOf(s)
    ensures IndexOf(s, anchor) == -1 || IndexOf(s, id) == -1 ==> ShiftRange(s, anchor, id) == {}
  {
    var a, c := IndexOf(s, anchor), IndexOf(s, id);
    if a != -1 && c != -1 {
      SpanWithin(s, a, c);
    }
  }

  lemma SpanWithin(s: seq<LibraryEntry>, i: nat, j: nat)
    requires i < |s| && j < |s|
    ensures Span(s, i, j) <= IdsOf(s)
  {
    var start := if i < j then i else j;
    var end := if i < j then j else i;
    var range := s[start..end + 1];
    forall x | x in IdsOf(range) ensures x in IdsOf(s) {
      var k :| 0 <= k < |range| && range[k].id == x;
      assert s[start + k] == range[k];
    }
  }

  /** The shift-click branch of `toggleSelection`: look both ids up in
      the rows shown and add the slice between them. */
  method ShiftSelect(selection: set<nat>, filtered: seq<LibraryEntry>, anchor: nat, id: nat) returns (r: set<nat>)
    ensures r == selection + ShiftRange(filtered, anchor, id)
  {
    r := selection;
    var lastIndex := IndexOf(filtered, anchor);
    var currentIndex := IndexOf(filtered, id);
    if lastIndex != -1 && currentIndex != -1 {
      var start := if lastIndex < currentIndex then lastIndex else currentIndex;
      var end := if lastIndex < currentIndex then currentIndex else lastIndex;
      r := AddIds(r, filtered[start..end + 1]);
    }
  }

  /** The responsive column count for a window width. */
  function ColumnsForWidth(width: int): (n: int)
    ensures 2 <= n <= 6
  {
    if width < 640 then 2
    else if width < 768 then 3
    else if width < 1024 then 4
    else if width < 1280 then 5
    else 6
  }

  /** A wider window never has fewer columns. */
  lemma ColumnsMonotone(w1: int, w2: int)
    requires w1 <= w2
    ensures ColumnsForWidth(w1) <= ColumnsForWidth(w2)
  {
  }

  /** The state of the library view. */
  class LibraryView {
    /** The `get` query's result; `None` while it loads. */
    var allAlbums: Option<seq<LibraryEntry>>
    var searchQuery: string
    var acquisitionFilter: AcquisitionFilter
    var progressFilter: ProgressFilter
    var isBatchMode: bool
    var selectedAlbumIds: set<nat>
    var lastSelectedId: Option<nat>
    var columnCount: int

    /** The stepper and the width effect keep the column count in [2, 10]. */
    ghost predicate Valid()
      reads this
    {
      2 <= columnCount <= 10
    }

    constructor (all: Option<seq<LibraryEntry>>)
      ensures Valid()
      ensures allAlbums == all && searchQuery == "" && acquisitionFilter == AllAcquisitions
      ensures progressFilter == AllProgress && !isBatchMode && selectedAlbumIds == {}
      ensures lastSelectedId.None? && columnCount == 5
    {
      allAlbums := all;
      searchQuery, acquisitionFilter, progressFilter := "", AllAcquisitions, AllProgress;
      isBatchMode, selectedAlbumIds, lastSelectedId := false, {}, None;
      columnCount := 5;
    }

    /** The rows from `get`, the search and both filters are as they were. */
    twostate predicate QueryKept()
      reads this
    {
      && allAlbums == old(allAlbums) && searchQuery == old(searchQuery)
      && acquisitionFilter == old(acquisitionFilter) && progressFilter == old(progressFilter)
    }

    /** The state a batch handler leaves: when it sent its mutation and the
        mutation succeeded, batch mode is off and nothing is selected;
        when it sent nothing or the mutation threw, the mode and the
        selection are as they were; the anchor, the column count, the
        rows and the filters never change. */
    twostate predicate AfterBatch(sent: bool, succeeded: bool)
      reads this
    {
      && (sent && succeeded ==> !isBatchMode && selectedAlbumIds == {})
      && (!sent || !succeeded ==> isBatchMode == old(isBatchMode) && selectedAlbumIds == old(selectedAlbumIds))
      && lastSelectedId == old(lastSelectedId) && columnCount == old(columnCount)
      && QueryKept()
    }

    function Filtered(): seq<LibraryEntry>
      reads this`allAlbums, this`searchQuery, this`acquisitionFilter, this`progressFilter
    {
      FilteredAlbums(allAlbums, searchQuery, acquisitionFilter, progressFilter)
    }

    /** `getTitle`: "All Albums" with no search and both filters on
        "all", otherwise the number of rows shown. */
    function GetTitle(): (title: string)
      reads this
      ensures title == "All Albums" <==>
                searchQuery == "" && acquisitionFilter == AllAcquisitions && progressFilter == AllProgress
      ensures title != "All Albums" ==>
                title == "Albums (" + ShowNat(|Filtered()|) + ")"
    {
      if searchQuery != "" || acquisitionFilter != AllAcquisitions || progressFilter != AllProgress then
        var t := "Albums (" + ShowNat(|Filtered()|) + ")";
        assert t[2] != "All Albums"[2];
        t
      else "All Albums"
    }

    /** `toggleSelection(id, isShiftPressed)`. */
    method ToggleSelection(id: nat, isShiftPressed: bool)
      modifies this
      ensures allAlbums == old(allAlbums) && searchQuery == old(searchQuery)
      ensures acquisitionFilter == old(acquisitionFilter) && progressFilter == old(progressFilter)
      ensures isBatchMode == old(isBatchMode) && columnCount == old(columnCount)
      ensures isShiftPressed && old(lastSelectedId).Some? && old(lastSelectedId).value != id ==>
                && selectedAlbumIds == old(selectedAlbumIds) + ShiftRange(Filtered(), old(lastSelectedId).value, id)
                && lastSelectedId == old(lastSelectedId)
      ensures !(isShiftPressed && old(lastSelectedId).Some? && old(lastSelectedId).value != id) ==>
                && (id in selectedAlbumIds <==> id !in old(selectedAlbumIds))
                && (forall k :: k != id ==> (k in selectedAlbumIds <==> k in old(selectedAlbumIds)))
                && lastSelectedId == Some(id)
    {
      var newSelection := selectedAlbumIds;
      if isShiftPressed && lastSelectedId.Some? && lastSelectedId.value != id {
        newSelection := ShiftSelect(newSelection, Filtered(), lastSelectedId.value, id);
      } else {
        if id in newSelection {
          newSelection := newSelection - {id};
        } else {
          newSelection := newSelection + {id};
        }
        lastSelectedId := Some(id);
      }
      selectedAlbumIds := newSelection;
    }

    /** `handleSelectAll`: clear when the sizes agree, otherwise select
        exactly the rows shown. */
    method SelectAll()
      modifies this
      ensures selectedAlbumIds == if |old(selectedAlbumIds)| == |Filtered()| then {} else IdsOf(Filtered())
      ensures allAlbums == old(allAlbums) && searchQuery == old(searchQuery)
      ensures acquisitionFilter == old(acquisitionFilter) && progressFilter == old(progressFilter)
      ensures isBatchMode == old(isBatchMode) && lastSelectedId == old(lastSelectedId)
      ensures columnCount == old(columnCount)
    {
      var filtered := Filtered();
      if |selectedAlbumIds| == |filtered| {
        selectedAlbumIds := {};
      } else {
        selectedAlbumIds := IdsOf(filtered);
      }
    }

    /** A second press of "select all" on rows from `get`, whose ids are
        distinct, undoes a first press that selected everything. */
    method SelectAllTwice()
      requires IdsIncreasing(Filtered()) && |selectedAlbumIds| != |Filtered()|
      modifies this
      ensures selectedAlbumIds == {}
    {
      SelectAll();
      IdsOfSize(Filtered());
      SelectAll();
    }

    /** `toggleBatchMode`: flip the mode and forget the selection. */
    method ToggleBatchMode()
      modifies this
      ensures isBatchMode == !old(isBatchMode) && selectedAlbumIds == {} && lastSelectedId.None?
      ensures allAlbums == old(allAlbums) && searchQuery == old(searchQuery)
      ensures acquisitionFilter == old(acquisitionFilter) && progressFilter == old(progressFilter)
      ensures columnCount == old(columnCount)
    {
      isBatchMode := !isBatchMode;
      selectedAlbumIds := {};
      lastSelectedId := None;
    }

    /** The column-count effect: a falsy width (absent or 0) changes nothing. */
    method OnWidth(width: Option<int>)
      requires Valid()
      modifies this
      ensures Valid()
      ensures width.None? || width.value == 0 ==> columnCount == old(columnCount)
      ensures width.Some? && width.value != 0 ==> columnCount == ColumnsForWidth(width.value)
      ensures QueryKept() && selectedAlbumIds == old(selectedAlbumIds)
      ensures isBatchMode == old(isBatchMode) && lastSelectedId == old(lastSelectedId)
    {
      if width.None? || width.value == 0 {
        return;
      }
      var newCount := 5;
      if width.value < 640 {
        newCount := 2;
      } else if width.value < 768 {
        newCount := 3;
      } else if width.value < 1024 {
        newCount := 4;
      } else if width.value < 1280 {
        newCount := 5;
      } else {
        newCount := 6;
      }
      columnCount := newCount;
    }

    /** The "-" button: `Math.max(2, columnCount - 1)`. */
    method DecreaseColumns()
      requires Valid()
      modifies this
      ensures Valid()
      ensures columnCount == if old(columnCount) > 2 then old(columnCount) - 1 else 2
      ensures old(columnCount) - 1 <= columnCount <= old(columnCount)
      ensures QueryKept() && selectedAlbumIds == old(selectedAlbumIds) && isBatchMode == old(isBatchMode)
      ensures lastSelectedId == old(lastSelectedId)
    {
      columnCount := if 2 > columnCount - 1 then 2 else columnCount - 1;
    }

    /** The "+" button: `Math.min(10, columnCount + 1)`. */
    method IncreaseColumns()
      requires Valid()
      modifies this
      ensures Valid()
      ensures columnCount == if old(columnCount) < 10 then old(columnCount) + 1 else 10
      ensures old(columnCount) <= columnCount <= old(columnCount) + 1
      ensures QueryKept() && selectedAlbumIds == old(selectedAlbumIds) && isBatchMode == old(isBatchMode)
      ensures lastSelectedId == old(lastSelectedId)
    {
      columnCount := if 10 < columnCount + 1 then 10 else columnCount + 1;
    }

    /** What every batch handler does after its mutation: on success leave
        batch mode with nothing selected; a thrown error keeps the state. */
    method FinishBatch(succeeded: bool)
      modifies this
      ensures AfterBatch(true, succeeded)
    {
      if succeeded {
        isBatchMode := false;
        selectedAlbumIds := {};
      }
    }

    /** `handleBatchDelete`: nothing without a selection or without the
        user's confirmation; `succeeded` is how the mutation ended. */
    method BatchDelete(confirmed: bool, succeeded: bool) returns (call: Option<BatchCall>)
      modifies this
      ensures call.Some? <==> old(selectedAlbumIds) != {} && confirmed
      ensures call.Some? ==> call.value == DeleteCall(old(selectedAlbumIds))
      ensures AfterBatch(call.Some?, succeeded)
    {
      if |selectedAlbumIds| == 0 {
        return None;
      }
      if !confirmed {
        return None;
      }
      call := Some(DeleteCall(selectedAlbumIds));
      FinishBatch(succeeded);
    }

    /** The common body of the three batch-update handlers. */
    method BatchUpdate(patch: BatchPatch, succeeded: bool) returns (call: Option<BatchCall>)
      modifies this
      ensures call.Some? <==> old(selectedAlbumIds) != {}
      ensures call.Some? ==> call.value == UpdateCall(old(selectedAlbumIds), patch)
      ensures AfterBatch(call.Some?, succeeded)
    {
      if |selectedAlbumIds| == 0 {
        return None;
      }
      call := Some(UpdateCall(selectedAlbumIds, patch));
      FinishBatch(succeeded);
    }

    /** `handleBatchArchive`: archive every selected row. */
    method BatchArchive(succeeded: bool) returns (call: Option<BatchCall>)
      modifies this
      ensures call.Some? <==> old(selectedAlbumIds) != {}
      ensures call.Some? ==> call.value == UpdateCall(old(selectedAlbumIds), BatchPatch(None, None, Some(true)))
      ensures AfterBatch(call.Some?, succeeded)
    {
      call := BatchUpdate(BatchPatch(None, None, Some(true)), succeeded);
    }

    /** `handleBatchStatusChange(status)`. */
    method BatchStatusChange(status: Acquisition, succeeded: bool) returns (call: Option<BatchCall>)
      modifies this
      ensures call.Some? <==> old(selectedAlbumIds) != {}
      ensures call.Some? ==> call.value == UpdateCall(old(selectedAlbumIds), BatchPatch(Some(status), None, None))
      ensures AfterBatch(call.Some?, succeeded)
    {
      call := BatchUpdate(BatchPatch(Some(status), None, None), succeeded);
    }

    /** `handleBatchProgressChange(progress)`. */
    method BatchProgressChange(progress: Progress, succeeded: bool) returns (call: Option<BatchCall>)
      modifies this
      ensures call.Some? <==> old(selectedAlbumIds) != {}
      ensures call.Some? ==> call.value == UpdateCall(old(selectedAlbumIds), BatchPatch(None, Some(progress), None))
      ensures AfterBatch(call.Some?, succeeded)
    {
      call := BatchUpdate(BatchPatch(None, Some(progress), None), succeeded);
    }
  }
}
