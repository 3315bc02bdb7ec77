/** The settings page: the profile list with one create/edit form, the auto-open of
    the create form when there are no profiles, and the dark-mode switch. Backend
    calls succeed or fail by parameter, as in the profile manager. */
module Settings {
  import opened Wrappers
  import ProfileService
  import ProfileSwitcher
  import opened ProfileForm
  import AppTheme

  const CreateFailed: string := "Failed to create profile"
  const UpdateFailed: string := "Failed to update profile"
  const DeleteFailed: string := "Failed to delete profile"

  class SettingsPage {
    var profiles: seq<ProfileService.ProfileWithAge>
    var showCreateForm: bool
    var editingId: Option<string>
    var loading: bool
    var error: Option<string>
    var form: Form

    /** The page before its effects run. */
    constructor(profiles0: seq<ProfileService.ProfileWithAge>)
      ensures profiles == profiles0 && !showCreateForm && editingId.None? && !loading && error.None?
      ensures form == EmptyForm
    {
      profiles := profiles0;
      showCreateForm := false;
      editingId := None;
      loading := false;
      error := None;
      form := EmptyForm;
    }

    /** The form is on screen while creating or while an id is being edited. */
    predicate FormShown()
      reads this
    {
      showCreateForm || Truthy(editingId)
    }

    /** The auto-open effect: with no profiles the create form opens. */
    method AutoOpen()
      modifies this
      ensures showCreateForm == (old(showCreateForm) || |profiles| == 0)
      ensures profiles == old(profiles) && editingId == old(editingId) && loading == old(loading)
      ensures error == old(error) && form == old(form)
    {
      if |profiles| == 0 && !showCreateForm {
        showCreateForm := true;
      }
    }

    /** A finished submit: as in the profile manager, success refreshes the list and
        clears the error (and resets the form when `resets`, hiding the create form
        when `hides`), failure sets the error and keeps everything else. */
    twostate predicate Finished(outcome: Outcome, refetched: seq<ProfileService.ProfileWithAge>,
                                fallback: string, resets: bool, hides: bool)
      reads this
    {
      && !loading
      && (outcome.Succeeded? ==>
            && profiles == refetched && error.None?
            && (resets ==> form == EmptyForm && editingId.None?)
            && (!resets ==> form == old(form) && editingId == old(editingId))
            && showCreateForm == (if hides then false else old(showCreateForm)))
      && (outcome.Failed? ==>
            && profiles == old(profiles) && error == Some(MessageOr(outcome.message, fallback))
            && form == old(form) && editingId == old(editingId) && showCreateForm == old(showCreateForm))
    }

    method ResetForm()
      modifies this
      ensures form == EmptyForm && editingId.None?
      ensures profiles == old(profiles) && showCreateForm == old(showCreateForm)
      ensures loading == old(loading) && error == old(error)
    {
      form := EmptyForm;
      editingId := None;
    }

    /** `handleCreate`: on success the form is reset and hidden. */
    method HandleCreate(outcome: Outcome, refetched: seq<ProfileService.ProfileWithAge>)
      returns (sent: ProfileService.CreateProfileData)
      modifies this
      ensures sent == CreateData(old(form))
      ensures Finished(outcome, refetched, CreateFailed, true, true)
    {
      sent := CreateData(form);
      loading := true;
      error := None;
      if outcome.Succeeded? {
        profiles := refetched;
        ResetForm();
        showCreateForm := false;
      } else {
        error := Some(MessageOr(outcome.message, CreateFailed));
      }
      loading := false;
    }

    /** `handleEdit`: a listed id loads that profile and hides the create form; an
        unknown id changes nothing. */
    method HandleEdit(id: string)
      modifies this
      ensures var found := ProfileSwitcher.FindById(old(profiles), id);
        && (found.Some? ==>
              editingId == Some(id) && form == FormOf(found.value.profile) && !showCreateForm)
        && (found.None? ==>
              editingId == old(editingId) && form == old(form) && showCreateForm == old(showCreateForm))
      ensures profiles == old(profiles) && loading == old(loading) && error == old(error)
    {
      var profile := ProfileSwitcher.FindById(profiles, id);
      if profile.Some? {
        editingId := Some(id);
        form := FormOf(profile.value.profile);
        showCreateForm := false;
      }
    }

    /** `handleUpdate`: nothing without an id being edited; on success the form is
        reset, so nothing is being edited any more. */
    method HandleUpdate(outcome: Outcome, refetched: seq<ProfileService.ProfileWithAge>)
      returns (sent: Option<(string, ProfileService.ProfileUpdates)>)
      modifies this
      ensures !Truthy(old(editingId)) ==> sent.None? && unchanged(this)
      ensures Truthy(old(editingId)) ==>
        sent == Some((old(editingId).value, UpdatesOf(old(form))))
        && Finished(outcome, refetched, UpdateFailed, true, false)
    {
      if !Truthy(editingId) {
        return None;
      }
      sent := Some((editingId.value, UpdatesOf(form)));
      loading := true;
      error := None;
      if outcome.Succeeded? {
        profiles := refetched;
        ResetForm();
      } else {
        error := Some(MessageOr(outcome.message, UpdateFailed));
      }
      loading := false;
    }

    /** `handleDelete`: nothing unless confirmed. */
    method HandleDelete(id: string, confirmed: bool, outcome: Outcome,
                        refetched: seq<ProfileService.ProfileWithAge>)
      returns (sent: Option<string>)
      modifies this
      ensures !confirmed ==> sent.None? && unchanged(this)
      ensures confirmed ==> sent == Some(id) && Finished(outcome, refetched, DeleteFailed, false, false)
    {
      if !confirmed {
        return None;
      }
      sent := Some(id);
      loading := true;
      error := None;
      if outcome.Succeeded? {
        profiles := refetched;
      } else {
        error := Some(MessageOr(outcome.message, DeleteFailed));
      }
      loading := false;
    }

    /** The form's submit: an update while an id is being edited, a create otherwise. */
    method Submit(outcome: Outcome, refetched: seq<ProfileService.ProfileWithAge>)
      returns (created: Option<ProfileService.CreateProfileData>,
               updated: Option<(string, ProfileService.ProfileUpdates)>)
      requires FormShown()
      modifies this
      ensures Truthy(old(editingId)) ==>
        created.None? && updated == Some((old(editingId).value, UpdatesOf(old(form))))
        && Finished(outcome, refetched, UpdateFailed, true, false)
      ensures !Truthy(old(editingId)) ==>
        updated.None? && created == Some(CreateData(old(form)))
        && Finished(outcome, refetched, CreateFailed, true, true)
    {
      if Truthy(editingId) {
        created := None;
        updated := HandleUpdate(outcome, refetched);
      } else {
        var data := HandleCreate(outcome, refetched);
        created, updated := Some(data), None;
      }
    }

    /** "Add Profile", shown while the form is hidden. */
    method OpenCreateForm()
      requires !FormShown()
      modifies this
      ensures showCreateForm && FormShown()
      ensures profiles == old(profiles) && editingId == old(editingId) && loading == old(loading)
      ensures error == old(error) && form == old(form)
    {
      showCreateForm := true;
    }

    /** Cancel: reset the form and hide it. */
    method Cancel()
      modifies this
      ensures form == EmptyForm && editingId.None? && !showCreateForm && !FormShown()
      ensures profiles == old(profiles) && loading == old(loading) && error == old(error)
    {
      ResetForm();
      showCreateForm := false;
    }
  }

  /** The dark-mode switch negates the app's flag, which is then persisted. */
  method ToggleDarkMode(theme: AppTheme.Theme)
    modifies theme
    ensures theme.darkMode == !old(theme.darkMode) && theme.Persisted()
    ensures theme.storage == old(theme.storage)[AppTheme.ThemeKey := AppTheme.ThemeValue(theme.darkMode)]
    ensures theme.renders == old(theme.renders) + [theme.darkMode]
  {
    theme.SetDarkMode(!theme.darkMode);
  }
}
