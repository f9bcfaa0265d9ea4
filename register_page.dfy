/** The public sign-up form (pages/auth/RegisterPage.tsx): a honeypot field, a password length
    guard and the sign-up call, whose reply is passed in. */
module RegisterPage {
  import opened Types
  import opened Text

  const MSG_SHORT_PASSWORD := "Şifre en az 6 karakter olmalıdır."
  const MSG_REGISTER_FAILED := "Kayıt sırasında bir hata oluştu."
  const MIN_PASSWORD_LENGTH := 6

  /** The `name` attributes of the form's inputs. */
  datatype Field = Username | FullName | Email | Password | Website

  datatype FormData = FormData(username: string, fullName: string, email: string, password: string, website: string)

  function Get(f: FormData, name: Field): string {
    match name
    case Username => f.username
    case FullName => f.fullName
    case Email => f.email
    case Password => f.password
    case Website => f.website
  }

  /** `{ ...formData, [name]: value }`: only the named field changes. */
  function WithField(f: FormData, name: Field, value: string): (r: FormData)
    ensures Get(r, name) == value
    ensures forall other: Field :: other != name ==> Get(r, other) == Get(f, other)
  {
    match name
    case Username => f.(username := value)
    case FullName => f.(fullName := value)
    case Email => f.(email := value)
    case Password => f.(password := value)
    case Website => f.(website := value)
  }

  /** The arguments of `signUpPublic(email, password, fullName, username)`. */
  datatype SignUpCall = SignUpCall(email: string, password: string, fullName: string, username: string)

  datatype SignUpReply = SignUpReply(success: bool, message: Option<string>)

  class RegisterPage {
    var formData: FormData
    var isLoading: bool
    var error: string

    constructor ()
      ensures formData == FormData("", "", "", "", "") && !isLoading && error == ""
    {
      formData := FormData("", "", "", "", "");
      isLoading := false;
      error := "";
    }

    method HandleChange(name: Field, value: string)
      modifies this
      ensures formData == WithField(old(formData), name, value)
      ensures isLoading == old(isLoading) && error == old(error)
    {
      formData := WithField(formData, name, value);
    }

    /** handleRegister, with `reply` the answer of signUpPublic: a filled honeypot aborts silently,
        before the password is looked at; a password under 6 UTF-16 units sets the error; otherwise
        the error is cleared, the sign-up call made, and success leads to /login. */
    method HandleRegister(reply: SignUpReply) returns (call: Option<SignUpCall>, toLogin: bool)
      modifies this
      ensures formData == old(formData)
      ensures formData.website != "" ==>
                call == None && !toLogin && error == old(error) && isLoading == old(isLoading)
      ensures formData.website == "" && Utf16Length(formData.password) < MIN_PASSWORD_LENGTH ==>
                call == None && !toLogin && error == MSG_SHORT_PASSWORD && isLoading == old(isLoading)
      ensures call.Some? <==> formData.website == "" && Utf16Length(formData.password) >= MIN_PASSWORD_LENGTH
      ensures call.Some? ==>
                call.value == SignUpCall(formData.email, formData.password, formData.fullName, formData.username)
                && !isLoading && toLogin == reply.success
                && error == (if reply.success then "" else OrDefault(reply.message, MSG_REGISTER_FAILED))
    {
      if formData.website != "" {
        return None, false;
      }
      if Utf16Length(formData.password) < MIN_PASSWORD_LENGTH {
        error := MSG_SHORT_PASSWORD;
        return None, false;
      }
      isLoading := true;
      error := "";
      call := Some(SignUpCall(formData.email, formData.password, formData.fullName, formData.username));
      isLoading := false;
      if reply.success {
        toLogin := true;
      } else {
        error := OrDefault(reply.message, MSG_REGISTER_FAILED);
        toLogin := false;
      }
    }
  }
}
