/** The profile page: loading the signed-in user's profile row into the form
    (`fetchProfile`) and the change-password form (`handlePasswordChange`).
    The two Supabase calls are parameters: what the profile query returned,
    and whether `auth.updateUser` reported an error. */
module ProfilePage {
  import opened Wrappers

  // ---------------------------------------------------------------- profile

  /** The form's profile state; every field is a string, `''` when unknown. */
  datatype Profile = Profile(displayName: string, firstName: string, lastName: string, phone: string,
                             location: string, bio: string, avatarUrl: string)

  /** The form before anything is loaded. */
  function EmptyProfile(): (p: Profile)
    ensures p.displayName == p.firstName == p.lastName == p.phone == p.location == p.bio == p.avatarUrl == ""
  {
    Profile("", "", "", "", "", "", "")
  }

  /** A `profiles` row as the query returns it: any column may be `null`. */
  datatype Row = Row(displayName: Option<string>, firstName: Option<string>, lastName: Option<string>,
                     phone: Option<string>, location: Option<string>, bio: Option<string>,
                     avatarUrl: Option<string>)

  /** What `.single()` answered: the row (if any) and the error code (if any).
      PostgREST reports "no row" as the code `PGRST116`. */
  datatype Query = Query(data: Option<Row>, errorCode: Option<string>)

  const NoRowCode: string := "PGRST116"

  /** `column || ''`: a null column (and an empty one) becomes the empty string. */
  function Field(v: Option<string>): (s: string)
    ensures v.Some? ==> s == v.value
    ensures v.None? ==> s == ""
  {
    v.GetOr("")
  }

  function FromRow(r: Row): Profile {
    Profile(Field(r.displayName), Field(r.firstName), Field(r.lastName), Field(r.phone),
            Field(r.location), Field(r.bio), Field(r.avatarUrl))
  }

  /** The page's state after a fetch, and whether the "Failed to load profile data" toast was raised. */
  datatype Loaded = Loaded(profile: Profile, loadFailed: bool)

  /** `fetchProfile`: any error other than `PGRST116` is thrown and caught (the
      form is left alone and a toast is shown); otherwise a returned row
      replaces the form, and no row leaves it as it was. */
  function FetchProfile(current: Profile, q: Query): (r: Loaded)
    ensures r.loadFailed <==> q.errorCode.Some? && q.errorCode.value != NoRowCode
    ensures r.loadFailed || q.data.None? ==> r.profile == current
    ensures !r.loadFailed && q.data.Some? ==>
              && r.profile.displayName == Field(q.data.value.displayName)
              && r.profile.firstName == Field(q.data.value.firstName)
              && r.profile.lastName == Field(q.data.value.lastName)
              && r.profile.phone == Field(q.data.value.phone)
              && r.profile.location == Field(q.data.value.location)
              && r.profile.bio == Field(q.data.value.bio)
              && r.profile.avatarUrl == Field(q.data.value.avatarUrl)
  {
    if q.errorCode.Some? && q.errorCode.value != NoRowCode then
      Loaded(current, true)
    else if q.data.Some? then
      Loaded(FromRow(q.data.value), false)
    else
      Loaded(current, false)
  }

  /** The column a form field came from: the form field is the column when
      that is set, and `''` when it is null. */
  predicate Mirrors(p: Profile, r: Row) {
    && (r.displayName.Some? ==> p.displayName == r.displayName.value)
    && (r.displayName.None? ==> p.displayName == "")
    && (r.firstName.Some? ==> p.firstName == r.firstName.value)
    && (r.firstName.None? ==> p.firstName == "")
    && (r.lastName.Some? ==> p.lastName == r.lastName.value)
    && (r.lastName.None? ==> p.lastName == "")
    && (r.phone.Some? ==> p.phone == r.phone.value)
    && (r.phone.None? ==> p.phone == "")
    && (r.location.Some? ==> p.location == r.location.value)
    && (r.location.None? ==> p.location == "")
    && (r.bio.Some? ==> p.bio == r.bio.value)
    && (r.bio.None? ==> p.bio == "")
    && (r.avatarUrl.Some? ==> p.avatarUrl == r.avatarUrl.value)
    && (r.avatarUrl.None? ==> p.avatarUrl == "")
  }

  /** A successful load of a row mirrors it exactly, whatever the form held before. */
  lemma LoadMirrorsRow(current: Profile, r: Row, code: Option<string>)
    requires code.None? || code == Some(NoRowCode)
    ensures var l := FetchProfile(current, Query(Some(r), code));
            !l.loadFailed && Mirrors(l.profile, r)
  {
  }

  /** An all-null row clears every field of the form. */
  lemma NullRowClears(current: Profile)
    ensures var nulls := Row(None, None, None, None, None, None, None);
            FetchProfile(current, Query(Some(nulls), None)) == Loaded(EmptyProfile(), false)
  {
  }

  /** A user without a profile row (`PGRST116`) is not an error: no toast, the form unchanged. */
  lemma MissingRowIsNotAnError(current: Profile)
    ensures FetchProfile(current, Query(None, Some(NoRowCode))) == Loaded(current, false)
  {
  }

  /** Loading is idempotent: fetching the same answer again changes nothing more. */
  lemma FetchIdempotent(current: Profile, q: Query)
    ensures FetchProfile(FetchProfile(current, q).profile, q).profile == FetchProfile(current, q).profile
  {
  }

  // ---------------------------------------------------------------- password

  /** The change-password form. */
  datatype Passwords = Passwords(currentPassword: string, newPassword: string, confirmPassword: string)

  const MinPasswordLength: nat := 6

  /** The toasts the form raises. */
  datatype Notice = Mismatch | TooShort | PasswordUpdated | UpdateFailed

  function Description(n: Notice): string {
    match n
    case Mismatch => "New passwords don't match"
    case TooShort => "Password must be at least 6 characters long"
    case PasswordUpdated => "Password updated successfully"
    case UpdateFailed => "Failed to update password"
  }

  /** Everything but the success toast is titled "Error" and shown as destructive. */
  predicate Destructive(n: Notice) { n != PasswordUpdated }

  /** The effects of one submission: the form afterwards, the toast, the
      password passed to `auth.updateUser` (if it was called) and the values
      written to `isLoading`, in order. */
  datatype Submission = Submission(form: Passwords, notice: Notice, update: Option<string>,
                                   loadingWrites: seq<bool>)

  /** `handlePasswordChange`: the mismatch check comes first, then the length
      check; only then is the loading flag raised and the update requested
      with the new password alone. `updateFails` is whether the update
      answered with an error. The `finally` lowers the flag on every path
      past validation. */
  function HandlePasswordChange(pw: Passwords, updateFails: bool): (s: Submission)
    ensures s.update.Some? <==> pw.newPassword == pw.confirmPassword && |pw.newPassword| >= MinPasswordLength
    ensures s.update.Some? ==> s.update.value == pw.newPassword
    ensures s.update.None? ==> s.loadingWrites == [] && s.form == pw
    ensures s.update.Some? ==> s.loadingWrites == [true, false]
    ensures pw.newPassword != pw.confirmPassword ==> s.notice == Mismatch
    ensures pw.newPassword == pw.confirmPassword && |pw.newPassword| < MinPasswordLength ==>
              s.notice == TooShort && s.update.None?
    ensures s.notice == PasswordUpdated <==> s.update.Some? && !updateFails
    ensures s.form != pw ==> s.notice == PasswordUpdated
    ensures s.notice == PasswordUpdated ==> s.form == Passwords("", "", "")
  {
    if pw.newPassword != pw.confirmPassword then
      Submission(pw, Mismatch, None, [])
    else if |pw.newPassword| < MinPasswordLength then
      Submission(pw, TooShort, None, [])
    else if updateFails then
      Submission(pw, UpdateFailed, Some(pw.newPassword), [true, false])
    else
      Submission(Passwords("", "", ""), PasswordUpdated, Some(pw.newPassword), [true, false])
  }

  /** The loading flag ends where it started: lowered. */
  predicate EndsIdle(writes: seq<bool>) { |writes| == 0 || !writes[|writes| - 1] }

  /** Which error a rejected submission reports, as a reference: a mismatch
      whatever the lengths, otherwise a short password. */
  function Rejection(pw: Passwords): Option<Notice> {
    if pw.newPassword != pw.confirmPassword then Some(Mismatch)
    else if |pw.newPassword| < MinPasswordLength then Some(TooShort)
    else None
  }

  /** Validation is exactly the reference: a rejection is reported as such,
      with no update call, and an accepted form reaches the update. */
  lemma ValidationMatchesRejection(pw: Passwords, updateFails: bool)
    ensures var s := HandlePasswordChange(pw, updateFails);
            && (Rejection(pw).Some? <==> s.update.None?)
            && (Rejection(pw).Some? ==> s.notice == Rejection(pw).value)
            && (Rejection(pw).None? ==> s.notice in {PasswordUpdated, UpdateFailed})
  {
  }

  /** A mismatch is reported even when the new password is also too short. */
  lemma MismatchCheckedFirst(pw: Passwords, updateFails: bool)
    requires pw.newPassword != pw.confirmPassword && |pw.newPassword| < MinPasswordLength
    ensures HandlePasswordChange(pw, updateFails).notice == Mismatch
  {
  }

  /** The current password plays no part: neither the outcome nor the update depends on it. */
  lemma IgnoresCurrentPassword(pw: Passwords, other: string, updateFails: bool)
    ensures var s := HandlePasswordChange(pw, updateFails);
            var t := HandlePasswordChange(pw.(currentPassword := other), updateFails);
            && s.notice == t.notice && s.update == t.update && s.loadingWrites == t.loadingWrites
  {
  }

  /** Every path leaves the loading flag lowered. */
  lemma LoadingAlwaysReset(pw: Passwords, updateFails: bool)
    ensures EndsIdle(HandlePasswordChange(pw, updateFails).loadingWrites)
  {
  }

  /** A failed update keeps what the user typed; a successful one clears the
      form, so submitting the cleared form again is rejected as too short
      without another update. */
  lemma ResubmitAfterSuccess(pw: Passwords)
    requires HandlePasswordChange(pw, false).notice == PasswordUpdated
    ensures HandlePasswordChange(pw, true).form == pw
    ensures var again := HandlePasswordChange(HandlePasswordChange(pw, false).form, false);
            again.notice == TooShort && again.update.None?
  {
  }
}
