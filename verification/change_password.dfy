/**
  The password dialog (src/components/ChangePasswordModal.tsx): client-side
  validation, the calls made to the authentication service and to the
  profile store, and the dialog state afterwards.
*/
module ChangePassword {
  import opened Types
  import opened Strings
  import opened FirebaseService

  datatype ModalState = ModalState(
    newPassword: string,
    confirmPassword: string,
    loading: bool,
    error: Option<string>,
    success: bool)

  /** A call the dialog makes: set the new password, then (forced mode only)
      clear the profile's forced-change flag. */
  datatype BackendCall = UpdatePassword(password: string) | ClearForcedFlag(uid: string)

  datatype Submission = Submission(state: ModalState, calls: seq<BackendCall>)

  const MinPasswordLength := 6
  const TooShortError := "Паролата трябва да бъде поне 6 символа."
  const MismatchError := "Паролите не съвпадат."
  const RecentLoginMessage := "Моля, излезте и влезте отново, за да смените паролата си."
  const UnexpectedError := "Възникна неочаквана грешка."

  /** The client-side checks, in order: length (in UTF-16 code units) first,
      then the confirmation. */
  function ValidationError(newPassword: string, confirmPassword: string): (e: Option<string>)
    ensures Utf16Length(newPassword) < MinPasswordLength ==> e == Some(TooShortError)
    ensures Utf16Length(newPassword) >= MinPasswordLength ==>
              (e.None? <==> newPassword == confirmPassword)
    ensures Utf16Length(newPassword) >= MinPasswordLength && newPassword != confirmPassword ==>
              e == Some(MismatchError)
  {
    if Utf16Length(newPassword) < MinPasswordLength then Some(TooShortError)
    else if newPassword != confirmPassword then Some(MismatchError)
    else None
  }

  /** The message for a rejected password update. */
  function FailureMessage(code: string): (m: string)
    ensures code == "auth/requires-recent-login" ==> m == RecentLoginMessage
    ensures code == "auth/weak-password" ==> m == TooShortError
    ensures code !in {"auth/requires-recent-login", "auth/weak-password"} ==> m == UnexpectedError
  {
    if code == "auth/requires-recent-login" then RecentLoginMessage
    else if code == "auth/weak-password" then TooShortError
    else UnexpectedError
  }

  /** `handleSubmit`. The profile update never throws (it reports failure as
      false, which the dialog ignores), so only the password update's outcome
      decides success. */
  function Submit(st: ModalState, isForced: bool, uid: string, update: CallOutcome): (r: Submission)
    ensures ValidationError(st.newPassword, st.confirmPassword).Some? ==>
              && r.calls == []
              && r.state == st.(error := ValidationError(st.newPassword, st.confirmPassword), success := false)
    ensures ValidationError(st.newPassword, st.confirmPassword).None? ==>
              && |r.calls| >= 1 && r.calls[0] == UpdatePassword(st.newPassword)
              && !r.state.loading
    ensures ValidationError(st.newPassword, st.confirmPassword).None? ==>
              r.calls == [UpdatePassword(st.newPassword)]
                         + (if isForced && update.Succeeded? then [ClearForcedFlag(uid)] else [])
    ensures ClearForcedFlag(uid) in r.calls <==>
              isForced && ValidationError(st.newPassword, st.confirmPassword).None? && update.Succeeded?
    ensures r.state.success <==> ValidationError(st.newPassword, st.confirmPassword).None? && update.Succeeded?
    ensures r.state.success ==> r.state == ModalState("", "", false, None, true)
    ensures ValidationError(st.newPassword, st.confirmPassword).None? && update.Failed? ==>
              r.state == st.(loading := false, error := Some(FailureMessage(update.error.code)), success := false)
  {
    var cleared := st.(error := None, success := false);
    match ValidationError(st.newPassword, st.confirmPassword)
    case Some(msg) => Submission(cleared.(error := Some(msg)), [])
    case None =>
      var first := [UpdatePassword(st.newPassword)];
      match update
      case Succeeded =>
        var calls := if isForced then first + [ClearForcedFlag(uid)] else first;
        Submission(ModalState("", "", false, None, true), calls)
      case Failed(e) =>
        Submission(cleared.(loading := false, error := Some(FailureMessage(e.code))), first)
  }

  /** A password shorter than six units is rejected for its length, whatever
      the confirmation says, and nothing is called. */
  lemma ShortPasswordRejectedFirst(st: ModalState, isForced: bool, uid: string, update: CallOutcome)
    requires Utf16Length(st.newPassword) < MinPasswordLength
    ensures var r := Submit(st, isForced, uid, update);
            r.calls == [] && r.state.error == Some(TooShortError) && !r.state.success
  {
  }

  /** A mismatched confirmation of an acceptable password is rejected and
      nothing is called. */
  lemma MismatchRejected(st: ModalState, isForced: bool, uid: string, update: CallOutcome)
    requires Utf16Length(st.newPassword) >= MinPasswordLength && st.newPassword != st.confirmPassword
    ensures var r := Submit(st, isForced, uid, update);
            r.calls == [] && r.state.error == Some(MismatchError)
  {
  }

  /** Three emoji are three characters but six UTF-16 units, so they pass
      the length check. */
  lemma AstralCharactersCountTwice()
    ensures |"\U{1F600}\U{1F600}\U{1F600}"| < MinPasswordLength
    ensures ValidationError("\U{1F600}\U{1F600}\U{1F600}", "\U{1F600}\U{1F600}\U{1F600}").None?
  {
  }

  /** The forced flag is cleared only after the password update, never
      before it. */
  lemma FlagClearedAfterUpdate(st: ModalState, isForced: bool, uid: string, update: CallOutcome, i: nat)
    requires var r := Submit(st, isForced, uid, update); i < |r.calls| && r.calls[i].ClearForcedFlag?
    ensures var r := Submit(st, isForced, uid, update); i > 0 && r.calls[0] == UpdatePassword(st.newPassword)
  {
  }

  /** Which ways out of the dialog are offered. */
  datatype Controls = Controls(closeButton: bool, cancelButton: bool, cancelEnabled: bool, inputsEnabled: bool)

  /** A forced dialog offers no close or cancel control; while a change is in
      flight or has just succeeded, cancel and the inputs are disabled. */
  function ControlsOf(st: ModalState, isForced: bool): (c: Controls)
    ensures isForced ==> !c.closeButton && !c.cancelButton
    ensures !isForced ==> c.closeButton && c.cancelButton
    ensures c.inputsEnabled <==> !st.loading && !st.success
    ensures c.cancelEnabled == c.inputsEnabled
  {
    var idle := !(st.loading || st.success);
    Controls(!isForced, !isForced, idle, idle)
  }
}
