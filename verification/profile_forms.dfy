/** The profile form's visibility field. */
module ProfileForms {
  import opened Wrappers

  const InvalidProfileType := "Invalid profile type: must be 'PUBLIC' or 'PRIVATE'"

  /** `ProfileForm.clean_profile_type`: "public" and "private" pass unchanged;
      every other value, upper-case spellings included, is rejected. */
  function CleanProfileType(profileType: string): (r: Result<string, string>)
    ensures r.Success? <==> profileType == "public" || profileType == "private"
    ensures r.Success? ==> r.value == profileType
    ensures r.Failure? ==> r.error == InvalidProfileType
  {
    if profileType != "public" && profileType != "private" then Failure(InvalidProfileType)
    else Success(profileType)
  }

  /** The check is case-sensitive: the spellings its own message suggests are
      rejected. */
  lemma UpperCaseRejected()
    ensures CleanProfileType("PUBLIC").Failure? && CleanProfileType("PRIVATE").Failure?
  {
  }
}
