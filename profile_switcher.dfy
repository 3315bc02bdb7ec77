/** The header's profile switcher: the auto-select (restore) effect and cyclic
    previous/next navigation over the profile list. */
module ProfileSwitcher {
  import opened Wrappers
  import ProfileService
  import ProfileContext

  type ProfileWithAge = ProfileService.ProfileWithAge

  /** No two profiles of the list share an id (ids are database keys). */
  predicate DistinctIds(profiles: seq<ProfileWithAge>) {
    forall i, j :: 0 <= i < j < |profiles| ==> profiles[i].profile.id != profiles[j].profile.id
  }

  /** `profiles.findIndex(p => p.id === id)`: the first position with the id, or -1. */
  function FindIndex(profiles: seq<ProfileWithAge>, id: string): (i: int)
    ensures -1 <= i < |profiles|
    ensures i >= 0 ==> profiles[i].profile.id == id
    ensures i >= 0 ==> forall k :: 0 <= k < i ==> profiles[k].profile.id != id
    ensures i == -1 <==> forall k :: 0 <= k < |profiles| ==> profiles[k].profile.id != id
  {
    if profiles == [] then -1
    else if profiles[0].profile.id == id then 0
    else
      var j := FindIndex(profiles[1..], id);
      if j == -1 then -1 else j + 1
  }

  /** `profiles.find(p => p.id === id)`. */
  function FindById(profiles: seq<ProfileWithAge>, id: string): (r: Option<ProfileWithAge>)
    ensures r.Some? ==> r.value in profiles && r.value.profile.id == id
    ensures r.None? <==> forall k :: 0 <= k < |profiles| ==> profiles[k].profile.id != id
  {
    var i := FindIndex(profiles, id);
    if i == -1 then None else Some(profiles[i])
  }

  /** With distinct ids, a profile of the list is found at its own position. */
  lemma FindIndexOfMember(profiles: seq<ProfileWithAge>, k: int)
    requires DistinctIds(profiles) && 0 <= k < |profiles|
    ensures FindIndex(profiles, profiles[k].profile.id) == k
    ensures FindById(profiles, profiles[k].profile.id) == Some(profiles[k])
  {
  }

  /** The profile the auto-select effect picks: the saved one when a saved id is set
      and found in the list, the first profile otherwise. */
  function RestoreTarget(profiles: seq<ProfileWithAge>, saved: Option<string>): (r: ProfileWithAge)
    requires |profiles| > 0
    ensures r in profiles
    ensures saved.Some? && saved.value != "" && FindById(profiles, saved.value).Some? ==>
      r.profile.id == saved.value
    ensures saved.None? || saved.value == "" || FindById(profiles, saved.value).None? ==>
      r == profiles[0]
  {
    var found := if saved.Some? && saved.value != "" then FindById(profiles, saved.value) else Some(profiles[0]);
    if found.Some? then found.value else profiles[0]
  }

  /** The auto-select effect: it acts only when the list is non-empty and nothing is
      selected, and then selects a member of the list. */
  method AutoSelect(provider: ProfileContext.ProfileProvider, profiles: seq<ProfileWithAge>)
    modifies provider
    ensures |profiles| > 0 && old(provider.selected).None? ==>
      var target := RestoreTarget(profiles, ProfileContext.SavedId(old(provider.storage)));
      && provider.selected == Some(target)
      && provider.storage == ProfileContext.Persist(Some(target), old(provider.storage))
      && provider.selected.value in profiles
    ensures |profiles| == 0 || old(provider.selected).Some? ==>
      provider.selected == old(provider.selected) && provider.storage == old(provider.storage)
  {
    if |profiles| > 0 && provider.selected.None? {
      var target := RestoreTarget(profiles, ProfileContext.SavedId(provider.storage));
      provider.SetSelectedProfile(Some(target));
    }
  }

  /** The position of the selected profile, -1 when nothing (or an unlisted profile)
      is selected. */
  function CurrentIndex(profiles: seq<ProfileWithAge>, selected: Option<ProfileWithAge>): (i: int)
    ensures -1 <= i < |profiles|
    ensures selected.None? ==> i == -1
    ensures selected.Some? ==> i == FindIndex(profiles, selected.value.profile.id)
  {
    if selected.None? then -1 else FindIndex(profiles, selected.value.profile.id)
  }

  function PrevIndex(current: int, n: nat): (i: int)
    requires n > 0 && -1 <= current < n
    ensures 0 <= i < n
  {
    if current > 0 then current - 1 else n - 1
  }

  function NextIndex(current: int, n: nat): (i: int)
    requires n > 0 && -1 <= current < n
    ensures 0 <= i < n
  {
    if current < n - 1 then current + 1 else 0
  }

  /** Previous steps back one place and wraps from the first to the last; next
      steps forward and wraps from the last to the first; with no current position
      previous picks the last and next the first. */
  lemma NavigationSteps(current: int, n: nat)
    requires n > 0 && -1 <= current < n
    ensures 0 < current ==> PrevIndex(current, n) == current - 1
    ensures current == 0 || current == -1 ==> PrevIndex(current, n) == n - 1
    ensures current < n - 1 && current != -1 ==> NextIndex(current, n) == current + 1
    ensures current == n - 1 || current == -1 ==> NextIndex(current, n) == 0
  {
  }

  /** For a valid position, next then previous (and previous then next) come back. */
  lemma NavigationRoundTrip(current: int, n: nat)
    requires 0 <= current < n
    ensures PrevIndex(NextIndex(current, n), n) == current
    ensures NextIndex(PrevIndex(current, n), n) == current
  {
  }

  /** The arrows appear only with more than one profile. */
  predicate ShowArrows(profiles: seq<ProfileWithAge>) {
    |profiles| > 1
  }

  /** The arrows are shown exactly when pressing one selects a different profile. */
  lemma ArrowsShownIffTheyMove(current: int, n: nat)
    requires 0 <= current < n
    ensures n > 1 <==> NextIndex(current, n) != current
    ensures n > 1 <==> PrevIndex(current, n) != current
  {
  }

  /** `handlePrevious`; the handlers exist only while the list is non-empty. */
  method HandlePrevious(provider: ProfileContext.ProfileProvider, profiles: seq<ProfileWithAge>)
    requires |profiles| > 0
    modifies provider
    ensures var i := PrevIndex(CurrentIndex(profiles, old(provider.selected)), |profiles|);
      && provider.selected == Some(profiles[i])
      && provider.storage == ProfileContext.Persist(Some(profiles[i]), old(provider.storage))
  {
    var newIndex := PrevIndex(CurrentIndex(profiles, provider.selected), |profiles|);
    provider.SetSelectedProfile(Some(profiles[newIndex]));
  }

  method HandleNext(provider: ProfileContext.ProfileProvider, profiles: seq<ProfileWithAge>)
    requires |profiles| > 0
    modifies provider
    ensures var i := NextIndex(CurrentIndex(profiles, old(provider.selected)), |profiles|);
      && provider.selected == Some(profiles[i])
      && provider.storage == ProfileContext.Persist(Some(profiles[i]), old(provider.storage))
  {
    var newIndex := NextIndex(CurrentIndex(profiles, provider.selected), |profiles|);
    provider.SetSelectedProfile(Some(profiles[newIndex]));
  }

  /** Selecting with next and then with previous brings back the profile that was
      selected, when the ids are distinct. */
  lemma NextThenPreviousSelection(profiles: seq<ProfileWithAge>, k: int)
    requires DistinctIds(profiles) && 0 <= k < |profiles|
    ensures var j := NextIndex(CurrentIndex(profiles, Some(profiles[k])), |profiles|);
      profiles[PrevIndex(CurrentIndex(profiles, Some(profiles[j])), |profiles|)] == profiles[k]
  {
    FindIndexOfMember(profiles, k);
    var j := NextIndex(k, |profiles|);
    FindIndexOfMember(profiles, j);
    NavigationRoundTrip(k, |profiles|);
  }

  /** As written, the provider's mount removes the saved id before the list arrives,
      so the auto-select picks the first profile even when the second one was saved. */
  lemma RestoreAfterMountAsWritten(profiles: seq<ProfileWithAge>, storage0: ProfileContext.Storage)
    requires |profiles| >= 2 && DistinctIds(profiles)
    requires ProfileContext.SavedId(storage0) == Some(profiles[1].profile.id)
    ensures var target := RestoreTarget(profiles, ProfileContext.SavedId(ProfileContext.MountStorageAsWritten(storage0)));
      target == profiles[0] && target.profile.id != ProfileContext.SavedId(storage0).value
  {
  }

  /** With the intended mount, a saved id of a listed profile is restored. */
  lemma RestoreAfterMount(profiles: seq<ProfileWithAge>, storage0: ProfileContext.Storage)
    requires |profiles| > 0
    requires ProfileContext.SavedId(storage0).Some?
    requires FindById(profiles, ProfileContext.SavedId(storage0).value).Some?
    requires ProfileContext.SavedId(storage0).value != ""
    ensures RestoreTarget(profiles, ProfileContext.SavedId(ProfileContext.MountStorage(storage0))).profile.id
         == ProfileContext.SavedId(storage0).value
  {
  }
}
