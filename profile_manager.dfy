/** The profile-management dialog: a list / create / edit mode machine over one form.
    Each backend call (the service call followed by the list refresh) succeeds or
    fails by parameter; `refetched` is the list the refresh returns. */
module ProfileManager {
  import opened Wrappers
  import ProfileService
  import ProfileSwitcher
  import opened ProfileForm

  datatype Mode = List | Create | Edit

  const CreateFailed: string := "Failed to create profile"
  const UpdateFailed: string := "Failed to update profile"
  const DeleteFailed: string := "Failed to delete profile"

  class Manager {
    var profiles: seq<ProfileService.ProfileWithAge>
    var mode: Mode
    var editingId: Option<string>
    var loading: bool
    var error: Option<string>
    var form: Form

    /** The dialog opens on the list with an empty form. */
    constructor(profiles0: seq<ProfileService.ProfileWithAge>)
      ensures profiles == profiles0 && mode == List && editingId.None? && !loading && error.None?
      ensures form == EmptyForm
      ensures Valid()
    {
      profiles := profiles0;
      mode := List;
      editingId := None;
      loading := false;
      error := None;
      form := EmptyForm;
    }

    /** Exactly the edit mode has a profile being edited. */
    predicate Valid()
      reads this
    {
      mode == Edit <==> editingId.Some?
    }

    /** A finished submit: `loading` is false again, and either the action succeeded
        (the list is refreshed, the error cleared, and the form reset to the list when
        `resets`) or it failed with `error` set and everything else kept. */
    twostate predicate Finished(outcome: Outcome, refetched: seq<ProfileService.ProfileWithAge>,
                                fallback: string, resets: bool)
      reads this
    {
      && !loading
      && (outcome.Succeeded? ==>
            && profiles == refetched && error.None?
            && (resets ==> form == EmptyForm && editingId.None? && mode == List)
            && (!resets ==> form == old(form) && editingId == old(editingId) && mode == old(mode)))
      && (outcome.Failed? ==>
            && profiles == old(profiles) && error == Some(MessageOr(outcome.message, fallback))
            && form == old(form) && editingId == old(editingId) && mode == old(mode))
    }

    /** "Add New Profile", shown on the list. */
    method AddNew()
      requires mode == List && Valid()
      modifies this
      ensures mode == Create && Valid()
      ensures profiles == old(profiles) && editingId == old(editingId) && loading == old(loading)
      ensures error == old(error) && form == old(form)
    {
      mode := Create;
    }

    method ResetForm()
      modifies this
      ensures form == EmptyForm && editingId.None?
      ensures profiles == old(profiles) && mode == old(mode) && loading == old(loading) && error == old(error)
    {
      form := EmptyForm;
      editingId := None;
    }

    /** `handleCreate`: sends the form, and on success resets it and returns to the list. */
    method HandleCreate(outcome: Outcome, refetched: seq<ProfileService.ProfileWithAge>)
      returns (sent: ProfileService.CreateProfileData)
      requires Valid()
      modifies this
      ensures sent == CreateData(old(form))
      ensures Finished(outcome, refetched, CreateFailed, true)
      ensures Valid()
    {
      sent := CreateData(form);
      loading := true;
      error := None;
      if outcome.Succeeded? {
        profiles := refetched;
        ResetForm();
        mode := List;
      } else {
        error := Some(MessageOr(outcome.message, CreateFailed));
      }
      loading := false;
    }

    /** `handleEdit`, from the list: a listed id loads that profile into the form and
        enters edit mode; an unknown id changes nothing. */
    method HandleEdit(id: string)
      requires mode == List && Valid()
      modifies this
      ensures var found := ProfileSwitcher.FindById(old(profiles), id);
        && (found.Some? ==>
              mode == Edit && editingId == Some(id) && form == FormOf(found.value.profile))
        && (found.None? ==> mode == old(mode) && editingId == old(editingId) && form == old(form))
      ensures profiles == old(profiles) && loading == old(loading) && error == old(error)
      ensures Valid()
    {
      var profile := ProfileSwitcher.FindById(profiles, id);
      if profile.Some? {
        editingId := Some(id);
        form := FormOf(profile.value.profile);
        mode := Edit;
      }
    }

    /** `handleUpdate`: nothing without an id being edited; otherwise sends the form for
        that id and on success resets it and returns to the list. */
    method HandleUpdate(outcome: Outcome, refetched: seq<ProfileService.ProfileWithAge>)
      returns (sent: Option<(string, ProfileService.ProfileUpdates)>)
      requires Valid()
      modifies this
      ensures !Truthy(old(editingId)) ==> sent.None? && unchanged(this)
      ensures Truthy(old(editingId)) ==>
        sent == Some((old(editingId).value, UpdatesOf(old(form))))
        && Finished(outcome, refetched, UpdateFailed, true)
      ensures Valid()
    {
      if !Truthy(editingId) {
        return None;
      }
      sent := Some((editingId.value, UpdatesOf(form)));
      loading := true;
      error := None;
      if outcome.Succeeded? {
        profiles := refetched;
        ResetForm();
        mode := List;
      } else {
        error := Some(MessageOr(outcome.message, UpdateFailed));
      }
      loading := false;
    }

    /** `handleDelete`, from the list: nothing unless confirmed; never changes the mode
        or the form. */
    method HandleDelete(id: string, confirmed: bool, outcome: Outcome,
                        refetched: seq<ProfileService.ProfileWithAge>)
      returns (sent: Option<string>)
      requires mode == List && Valid()
      modifies this
      ensures !confirmed ==> sent.None? && unchanged(this)
      ensures confirmed ==> sent == Some(id) && Finished(outcome, refetched, DeleteFailed, false)
      ensures Valid()
    {
      if !confirmed {
        return None;
      }
      sent := Some(id);
      loading := true;
      error := None;
      if outcome.Succeeded? {
        profiles := refetched;
      } else {
        error := Some(MessageOr(outcome.message, DeleteFailed));
      }
      loading := false;
    }

    /** Cancel, on the form: reset and back to the list. */
    method Cancel()
      requires mode != List && Valid()
      modifies this
      ensures form == EmptyForm && editingId.None? && mode == List
      ensures profiles == old(profiles) && loading == old(loading) && error == old(error)
      ensures Valid()
    {
      ResetForm();
      mode := List;
    }
  }
}
