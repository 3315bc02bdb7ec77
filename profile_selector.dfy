/** The drop-down profile selector: the same auto-select effect as the switcher,
    selection by id, and one option per profile. */
module ProfileSelector {
  import opened Wrappers
  import ProfileService
  import ProfileContext
  import ProfileSwitcher

  type ProfileWithAge = ProfileService.ProfileWithAge

  /** An `<option>`: its value is the profile id; name and age make up its label. */
  datatype SelectOption = SelectOption(value: string, name: string, age: Option<int>)

  /** The options in list order, one per profile. */
  function Options(profiles: seq<ProfileWithAge>): (r: seq<SelectOption>)
    ensures |r| == |profiles|
    ensures forall k :: 0 <= k < |profiles| ==>
      r[k] == SelectOption(profiles[k].profile.id, profiles[k].profile.name, profiles[k].age)
  {
    seq(|profiles|, k requires 0 <= k < |profiles| =>
      SelectOption(profiles[k].profile.id, profiles[k].profile.name, profiles[k].age))
  }

  /** The `<select>` value: the selected id, or "" with nothing selected. */
  function SelectedValue(selected: Option<ProfileWithAge>): (v: string)
    ensures selected.Some? ==> v == selected.value.profile.id
    ensures selected.None? ==> v == ""
  {
    if selected.Some? then selected.value.profile.id else ""
  }

  /** `onChange`: select the listed profile with the chosen id; an id not in the list
      leaves the selection (and storage) unchanged. */
  method OnChange(provider: ProfileContext.ProfileProvider, profiles: seq<ProfileWithAge>, id: string)
    modifies provider
    ensures var found := ProfileSwitcher.FindById(profiles, id);
      && (found.Some? ==>
            provider.selected == found && provider.storage == ProfileContext.Persist(found, old(provider.storage)))
      && (found.None? ==>
            provider.selected == old(provider.selected) && provider.storage == old(provider.storage))
  {
    var profile := ProfileSwitcher.FindById(profiles, id);
    if profile.Some? {
      provider.SetSelectedProfile(profile);
    }
  }

  /** Choosing an option selects the profile it was made from, and the select then
      shows that option's value. */
  lemma ChoosingAnOptionSelectsItsProfile(profiles: seq<ProfileWithAge>, k: int)
    requires ProfileSwitcher.DistinctIds(profiles) && 0 <= k < |profiles|
    ensures var chosen := ProfileSwitcher.FindById(profiles, Options(profiles)[k].value);
      chosen == Some(profiles[k]) && SelectedValue(chosen) == Options(profiles)[k].value
  {
    ProfileSwitcher.FindIndexOfMember(profiles, k);
  }
}
