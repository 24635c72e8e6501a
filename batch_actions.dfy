/** The batch-edit bar of src/components/batch-actions.tsx: defaults
    derived from the selected rows, the user's overrides on top of them,
    and the patch the Apply button sends. */
module BatchActions {
  import opened Wrappers
  import opened Schema
  import opened Albums

  /** `defaultStatus`: the acquisition all selected rows share, if any. */
  function DefaultStatus(selected: seq<LibraryEntry>): (r: Option<Acquisition>)
    ensures r.Some? ==> selected != [] && forall i :: 0 <= i < |selected| ==> selected[i].link.acquisition == r.value
    ensures r.None? ==> selected == [] || exists i :: 0 <= i < |selected| && selected[i].link.acquisition != selected[0].link.acquisition
  {
    if |selected| > 0 && forall i :: 0 <= i < |selected| ==> selected[i].link.acquisition == selected[0].link.acquisition
    then Some(selected[0].link.acquisition)
    else None
  }

  /** `defaultProgress`: the progress all selected rows share (which may
      itself be absent). */
  function DefaultProgress(selected: seq<LibraryEntry>): (r: Option<Progress>)
    ensures r.Some? ==> selected != [] && forall i :: 0 <= i < |selected| ==> selected[i].link.progress == r
    ensures (selected == [] || exists i :: 0 <= i < |selected| && selected[i].link.progress != selected[0].link.progress)
              ==> r.None?
    ensures (selected != [] && forall i :: 0 <= i < |selected| ==> selected[i].link.progress == selected[0].link.progress)
              ==> r == selected[0].link.progress
  {
    if |selected| > 0 && forall i :: 0 <= i < |selected| ==> selected[i].link.progress == selected[0].link.progress
    then selected[0].link.progress
    else None
  }

  /** `defaultArchived`: true when every selected row is archived, false
      when none is, and undefined for an empty or mixed selection. */
  function DefaultArchived(selected: seq<LibraryEntry>): (r: Option<bool>)
    ensures r == Some(true) <==> selected != [] && forall i :: 0 <= i < |selected| ==> selected[i].link.isArchived
    ensures r == Some(false) <==> selected != [] && forall i :: 0 <= i < |selected| ==> !selected[i].link.isArchived
    ensures r.None? <==> (selected == [] ||
              ((exists i :: 0 <= i < |selected| && selected[i].link.isArchived) &&
               (exists i :: 0 <= i < |selected| && !selected[i].link.isArchived)))
  {
    var allArchived := |selected| > 0 && forall i :: 0 <= i < |selected| ==> selected[i].link.isArchived;
    var allUnarchived := |selected| > 0 && forall i :: 0 <= i < |selected| ==> !selected[i].link.isArchived;
    if allArchived then
      assert selected[0].link.isArchived;
      Some(true)
    else if allUnarchived then Some(false)
    else None
  }

  /** `override ?? fallback`. */
  function Coalesce<T>(override: Option<T>, fallback: Option<T>): (r: Option<T>)
    ensures override.Some? ==> r == override
    ensures override.None? ==> r == fallback
  {
    if override.Some? then override else fallback
  }

  /** The three overrides the user has picked; `None` means "no change". */
  class BatchForm {
    var userStatus: Option<Acquisition>
    var userProgress: Option<Progress>
    var userArchived: Option<bool>

    constructor ()
      ensures userStatus.None? && userProgress.None? && userArchived.None?
    {
      userStatus, userProgress, userArchived := None, None, None;
    }

    function EffectiveStatus(selected: seq<LibraryEntry>): Option<Acquisition>
      reads this
    {
      Coalesce(userStatus, DefaultStatus(selected))
    }

    function EffectiveProgress(selected: seq<LibraryEntry>): Option<Progress>
      reads this
    {
      Coalesce(userProgress, DefaultProgress(selected))
    }

    function EffectiveArchived(selected: seq<LibraryEntry>): Option<bool>
      reads this
    {
      Coalesce(userArchived, DefaultArchived(selected))
    }

    /** `handleApply`: the overrides only, never the derived defaults. */
    function Apply(): (patch: BatchPatch)
      reads this
      ensures patch.acquisition == userStatus && patch.progress == userProgress && patch.isArchived == userArchived
    {
      BatchPatch(userStatus, userProgress, userArchived)
    }

    /** `hasChanges`: some override is set. */
    predicate HasChanges()
      reads this
    {
      userStatus.Some? || userProgress.Some? || userArchived.Some?
    }

    /** The Apply button is enabled with a selection and some change. */
    predicate ApplyEnabled(selectedCount: int)
      reads this
    {
      selectedCount != 0 && HasChanges()
    }

    /** The status select. */
    method SetStatus(v: Acquisition)
      modifies this
      ensures userStatus == Some(v) && userProgress == old(userProgress) && userArchived == old(userArchived)
    {
      userStatus := Some(v);
    }

    /** The progress select. */
    method SetProgress(v: Progress)
      modifies this
      ensures userProgress == Some(v) && userStatus == old(userStatus) && userArchived == old(userArchived)
    {
      userProgress := Some(v);
    }

    /** The archived checkbox: uncheck when it shows checked, else check. */
    method ToggleArchived(selected: seq<LibraryEntry>)
      modifies this
      ensures userArchived == Some(old(EffectiveArchived(selected)) != Some(true))
      ensures (EffectiveArchived(selected) == Some(true)) <==> !(old(EffectiveArchived(selected)) == Some(true))
      ensures userStatus == old(userStatus) && userProgress == old(userProgress)
    {
      if EffectiveArchived(selected) == Some(true) {
        userArchived := Some(false);
      } else {
        userArchived := Some(true);
      }
    }
  }

  /** Without changes the patch is empty and rewrites no row. */
  lemma NoChangesPatchesNothing(form: BatchForm, row: UserAlbum)
    requires !form.HasChanges()
    ensures ApplyPatch(row, form.Apply()) == row
  {
  }

  /** Apply sends something exactly when the form has changes. */
  lemma ApplySendsIffChanges(form: BatchForm)
    ensures form.HasChanges() <==> form.Apply() != BatchPatch(None, None, None)
  {
  }

  /** The effective archived value shows the default until the user
      touches the checkbox, and the user's choice afterwards. */
  lemma EffectiveArchivedFollowsOverride(form: BatchForm, selected: seq<LibraryEntry>)
    ensures form.userArchived.None? ==> form.EffectiveArchived(selected) == DefaultArchived(selected)
    ensures form.userArchived.Some? ==> form.EffectiveArchived(selected) == form.userArchived
  {
  }
}
