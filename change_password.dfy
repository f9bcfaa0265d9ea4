/** The profile form (pages/admin/ChangePassword.tsx): an optional new password, checked for
    length and confirmation, then `updateAdminProfile`, whose reply is passed in. */
module ChangePassword {
  import opened Text
  import opened Types
  import opened AuthService

  const MIN_PASSWORD_LENGTH := 4

  datatype Outcome =
    | TooShort
    | Mismatch
      /** `getCurrentUser()` was null, so reading its username throws. */
    | Crashed
    | Called(currentUsername: string, username: string, newPassword: string, success: bool)

  /** The two guards of handleSubmit, in their order; None when both pass. */
  function Rejection(newPass: string, confirmPass: string): (r: Option<Outcome>)
    ensures newPass == "" ==> r == None
    ensures r == None <==> newPass == "" || (Utf16Length(newPass) >= MIN_PASSWORD_LENGTH && newPass == confirmPass)
    ensures newPass != "" && Utf16Length(newPass) < MIN_PASSWORD_LENGTH ==> r == Some(TooShort)
    ensures newPass != "" && Utf16Length(newPass) >= MIN_PASSWORD_LENGTH && newPass != confirmPass ==> r == Some(Mismatch)
  {
    if newPass != "" && Utf16Length(newPass) < MIN_PASSWORD_LENGTH then Some(TooShort)
    else if newPass != "" && newPass != confirmPass then Some(Mismatch)
    else None
  }

  class ChangePasswordPage {
    var username: string
    var newPass: string
    var confirmPass: string
    var isSaving: bool

    constructor ()
      ensures username == "" && newPass == "" && confirmPass == "" && !isSaving
    {
      username, newPass, confirmPass := "", "", "";
      isSaving := false;
    }

    /** The mount effect: prefill the username from the session, or leave for /admin. */
    method Init(authenticated: bool, user: Option<UserInfo>) returns (toAdmin: bool)
      modifies this
      ensures toAdmin == !authenticated
      ensures username == if authenticated && user.Some? then user.value.username else old(username)
      ensures newPass == old(newPass) && confirmPass == old(confirmPass) && isSaving == old(isSaving)
    {
      if !authenticated {
        return true;
      }
      if user.Some? {
        username := user.value.username;
      }
      toAdmin := false;
    }

    /** handleSubmit with the session's user and the update's reply: a rejected password makes
        no call; with no session user the handler throws with `isSaving` still set; otherwise the
        profile is updated and success leads to /admin. */
    method HandleSubmit(current: Option<UserInfo>, success: bool) returns (outcome: Outcome, toAdmin: bool)
      modifies this
      ensures username == old(username) && newPass == old(newPass) && confirmPass == old(confirmPass)
      ensures Rejection(newPass, confirmPass).Some? ==>
                outcome == Rejection(newPass, confirmPass).value && !toAdmin && isSaving == old(isSaving)
      ensures Rejection(newPass, confirmPass).None? && current.None? ==> outcome == Crashed && !toAdmin && isSaving
      ensures Rejection(newPass, confirmPass).None? && current.Some? ==>
                outcome == Called(current.value.username, username, newPass, success)
                && toAdmin == success && !isSaving
    {
      var rejected := Rejection(newPass, confirmPass);
      if rejected.Some? {
        return rejected.value, false;
      }
      isSaving := true;
      if current.None? {
        return Crashed, false;
      }
      outcome := Called(current.value.username, username, newPass, success);
      isSaving := false;
      toAdmin := success;
    }
  }
}
