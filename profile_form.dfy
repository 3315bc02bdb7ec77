/** The name / gender / date-of-birth form shared by the profile manager and the
    settings page, and what a submit sends to the profile service. */
module ProfileForm {
  import opened Wrappers
  import ProfileService

  datatype Form = Form(name: string, gender: ProfileService.Gender, dateOfBirth: string)

  /** The reset form: empty name and date, gender "M". */
  const EmptyForm: Form := Form("", ProfileService.M, "")

  /** The form loaded with a profile's fields. */
  function FormOf(p: ProfileService.Profile): Form {
    Form(p.name, p.gender, p.dateOfBirth)
  }

  function CreateData(form: Form): ProfileService.CreateProfileData {
    ProfileService.CreateProfileData(form.name, form.gender, form.dateOfBirth)
  }

  /** An update sends all three fields. */
  function UpdatesOf(form: Form): ProfileService.ProfileUpdates {
    ProfileService.ProfileUpdates(Some(form.name), Some(form.gender), Some(form.dateOfBirth))
  }

  /** JavaScript truthiness of a nullable id. */
  predicate Truthy(id: Option<string>) {
    id.Some? && id.value != ""
  }

  /** Saving the form gives the row exactly the form's fields, so loading the saved
      row shows the same form; saving an unedited form leaves the row as it was. */
  lemma SavedFormRoundTrip(p: ProfileService.Profile, form: Form)
    ensures FormOf(ProfileService.Updated(p, UpdatesOf(form))) == form
    ensures ProfileService.Updated(p, UpdatesOf(FormOf(p))) == p
  {
  }
}
