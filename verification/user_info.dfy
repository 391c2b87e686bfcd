/** The first onboarding screen: first name, last name and birthdate. */
module UserInfo {
  import opened Common

  const FillAllFields: string := "Please fill in all fields."

  /** Route parameters of the username screen. */
  datatype UsernameParams = UsernameParams(firstName: string, lastName: string, birthdate: string)

  /** `handleContinue`: every field must be non-empty; nothing else is checked. */
  function HandleContinue(firstName: string, lastName: string, birthdate: string): (r: Continue<UsernameParams>)
    ensures r.Alerted? <==> firstName == "" || lastName == "" || birthdate == ""
    ensures r.Alerted? ==> r.message == FillAllFields
    ensures r.Navigated? ==>
              && r.params.firstName == firstName
              && r.params.lastName == lastName
              && r.params.birthdate == birthdate
  {
    if firstName == "" || lastName == "" || birthdate == "" then Alerted(FillAllFields)
    else Navigated(UsernameParams(firstName, lastName, birthdate))
  }

  /** Only emptiness is tested: a whitespace-only name and a birthdate in no
      date format both pass. */
  lemma BlankAndMalformedValuesPass()
    ensures HandleContinue(" ", "\t", "not a date").Navigated?
  {
  }
}
