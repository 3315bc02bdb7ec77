/** The app-wide selected profile and its persistence in the browser's local storage
    under the key "selectedProfileId". */
module ProfileContext {
  import opened Wrappers
  import ProfileService

  const SelectedKey: string := "selectedProfileId"

  /** The browser's local storage. */
  type Storage = map<string, string>

  /** `localStorage.getItem(SelectedKey)`. */
  function SavedId(storage: Storage): (r: Option<string>)
    ensures r.Some? <==> SelectedKey in storage
    ensures r.Some? ==> r.value == storage[SelectedKey]
  {
    if SelectedKey in storage then Some(storage[SelectedKey]) else None
  }

  /** The sync effect: the selected id is written under the key, or the key is
      removed when nothing is selected; no other key is touched. */
  function Persist(selected: Option<ProfileService.ProfileWithAge>, storage: Storage): (r: Storage)
    ensures selected.Some? ==> SavedId(r) == Some(selected.value.profile.id)
    ensures selected.None? ==> SavedId(r).None?
    ensures forall k :: k != SelectedKey ==> (k in r <==> k in storage)
    ensures forall k :: k != SelectedKey && k in r ==> r[k] == storage[k]
  {
    if selected.Some? then storage[SelectedKey := selected.value.profile.id]
    else map k | k in storage && k != SelectedKey :: storage[k]
  }

  /** The storage after the provider mounts, as written: the sync effect also runs on
      mount, with nothing selected yet, and removes the saved id. */
  function MountStorageAsWritten(storage0: Storage): (r: Storage)
    ensures SavedId(r).None?
  {
    Persist(None, storage0)
  }

  /** The storage after the provider mounts, as intended: the mount only reads the
      saved id, so it is still there when the profile list arrives. */
  function MountStorage(storage0: Storage): (r: Storage)
    ensures SavedId(r) == SavedId(storage0)
  {
    storage0
  }

  class ProfileProvider {
    var selected: Option<ProfileService.ProfileWithAge>
    var storage: Storage

    /** The selection starts empty; mounting does not change it. */
    constructor(storage0: Storage)
      ensures selected.None? && storage == MountStorage(storage0)
    {
      selected := None;
      storage := MountStorage(storage0);
    }

    /** Between changes the saved id is the selected profile's id. */
    predicate InSync()
      reads this
    {
      selected.Some? ==> SavedId(storage) == Some(selected.value.profile.id)
    }

    /** `setSelectedProfile`, followed by the sync effect. */
    method SetSelectedProfile(p: Option<ProfileService.ProfileWithAge>)
      modifies this
      ensures selected == p && storage == Persist(p, old(storage))
      ensures InSync()
      ensures p.None? ==> SavedId(storage).None?
    {
      selected := p;
      storage := Persist(p, storage);
    }
  }

  /** `useProfile`: the context, or the error thrown outside a provider. */
  function UseProfile(context: Option<ProfileProvider>): (r: Result<ProfileProvider>)
    ensures r.Ok? <==> context.Some?
    ensures r.Ok? ==> r.value == context.value
    ensures r.Err? ==> r.error == "useProfile must be used within ProfileProvider"
  {
    match context
    case Some(c) => Ok(c)
    case None => Err("useProfile must be used within ProfileProvider")
  }

  /** Persisting twice is persisting once. */
  lemma PersistIdempotent(selected: Option<ProfileService.ProfileWithAge>, storage: Storage)
    ensures Persist(selected, Persist(selected, storage)) == Persist(selected, storage)
  {
  }
}
