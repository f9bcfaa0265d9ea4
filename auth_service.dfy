/** The admin session and the `admin_users` table (services/authService.ts). The session is the
    browser's local storage under two keys: the flag `beyazbulut_auth_token` and the signed-in
    admin `beyazbulut_admin_user`, held here already decoded from its JSON text. */
module AuthService {
  import opened Types

  const AUTH_FLAG := "true"
  const MSG_WRONG_PASSWORD := "Şifre hatalı."
  const MSG_DB_ERROR := "Veritabanı bağlantı hatası."
  const MSG_USER_NOT_FOUND := "Kullanıcı bulunamadı veya erişim engellendi."
  const DEBUG_RLS := "Eğer kullanıcı adından eminseniz, Supabase panelinden 'admin_users' tablosunun RLS ayarını kapattığınızdan (Disable RLS) emin olun."
  const MSG_UNEXPECTED := "Beklenmeyen bir hata oluştu."

  /** A row of `admin_users` as far as the client can see it. */
  datatype AdminRow = AdminRow(id: int, username: string, password: string)

  /** The stored admin `{ username, id }`; an absent username is stored as "". */
  datatype UserInfo = UserInfo(username: string, id: int)

  datatype LoginResult = LoginResult(success: bool, message: Option<string>, debugInfo: Option<string>)

  /** The reply of the `login_admin` procedure: an error, or data that may be null. */
  datatype RpcReply = RpcError(message: string) | RpcData(data: Option<RpcAnswer>)
  datatype RpcAnswer = RpcAnswer(success: bool, username: string, id: int)

  /** What the backend does during login besides holding the table: the procedure's reply, the
      error of the table query (if any), whether the username-only query succeeds, and an
      exception thrown by a call (if any). */
  datatype LoginReplies = LoginReplies(
    rpc: RpcReply, selectError: Option<string>, existsQueryOk: bool, thrown: Option<string>)

  /** A login's reply and the admin it stores in the session (None: the session is not written). */
  datatype LoginStep = LoginStep(result: LoginResult, session: Option<UserInfo>)

  /** Usernames are unique in `admin_users`. */
  ghost predicate UniqueUsernames(rows: seq<AdminRow>) {
    forall i, j :: 0 <= i < j < |rows| ==> rows[i].username != rows[j].username
  }

  /** `select('*').eq('username', u).eq('password', p).maybeSingle()`. */
  function MatchingAdmin(rows: seq<AdminRow>, username: string, password: string): (r: Option<AdminRow>)
    ensures r.Some? ==> r.value in rows && r.value.username == username && r.value.password == password
    ensures r.None? ==> forall a :: a in rows ==> a.username != username || a.password != password
  {
    if rows == [] then None
    else if rows[0].username == username && rows[0].password == password then Some(rows[0])
    else MatchingAdmin(rows[1..], username, password)
  }

  /** `select('id').eq('username', u).maybeSingle()` found a row. */
  predicate UserExists(rows: seq<AdminRow>, username: string) {
    exists a :: a in rows && a.username == username
  }

  /** The decision tree of login over the procedure's reply and the fallback table query. */
  function LoginDecision(rows: seq<AdminRow>, username: string, password: string, replies: LoginReplies)
    : (d: LoginStep)
    ensures d.result.success <==> d.session.Some?
    ensures d.result.success <==> d.result.message.None?
    // an exception anywhere: the unexpected-error reply
    ensures replies.thrown.Some? ==> !d.result.success && d.result.message == Some(MSG_UNEXPECTED)
    // the procedure answers with success: its admin is stored
    ensures replies.thrown.None? && replies.rpc.RpcData? && replies.rpc.data.Some? && replies.rpc.data.value.success
            ==> d.session == Some(UserInfo(replies.rpc.data.value.username, replies.rpc.data.value.id))
    // the procedure answers without success: wrong password, the table is not consulted
    ensures replies.thrown.None? && replies.rpc.RpcData? && !(replies.rpc.data.Some? && replies.rpc.data.value.success)
            ==> d.result == LoginResult(false, Some(MSG_WRONG_PASSWORD), None)
    // the procedure fails and the table query fails
    ensures replies.thrown.None? && replies.rpc.RpcError? && replies.selectError.Some?
            ==> d.result == LoginResult(false, Some(MSG_DB_ERROR), replies.selectError)
    // the procedure fails: success exactly when a row has both username and password
    ensures replies.thrown.None? && replies.rpc.RpcError? && replies.selectError.None?
            ==> (d.result.success <==> exists a :: a in rows && a.username == username && a.password == password)
    ensures replies.thrown.None? && replies.rpc.RpcError? && d.session.Some?
            ==> d.session.value.username == username
                && exists a :: a in rows && a.username == username && a.id == d.session.value.id
    // the procedure fails and nothing matches: unknown user, or wrong password
    ensures replies.thrown.None? && replies.rpc.RpcError? && replies.selectError.None? && !d.result.success
            ==> d.result.message == if replies.existsQueryOk && UserExists(rows, username)
                                    then Some(MSG_WRONG_PASSWORD) else Some(MSG_USER_NOT_FOUND)
  {
    if replies.thrown.Some? then
      LoginStep(LoginResult(false, Some(MSG_UNEXPECTED), replies.thrown), None)
    else match replies.rpc
      case RpcData(data) =>
        if data.Some? && data.value.success
        then LoginStep(LoginResult(true, None, None), Some(UserInfo(data.value.username, data.value.id)))
        else LoginStep(LoginResult(false, Some(MSG_WRONG_PASSWORD), None), None)
      case RpcError(_) =>
        if replies.selectError.Some? then
          LoginStep(LoginResult(false, Some(MSG_DB_ERROR), replies.selectError), None)
        else match MatchingAdmin(rows, username, password)
          case Some(a) => LoginStep(LoginResult(true, None, None), Some(UserInfo(a.username, a.id)))
          case None =>
            if replies.existsQueryOk && UserExists(rows, username)
            then LoginStep(LoginResult(false, Some(MSG_WRONG_PASSWORD), None), None)
            else LoginStep(LoginResult(false, Some(MSG_USER_NOT_FOUND), Some(DEBUG_RLS)), None)
  }

  /** When the procedure answers, the table does not matter: no fallback query is made. */
  lemma RpcAnswerSkipsTable(rows: seq<AdminRow>, other: seq<AdminRow>, username: string, password: string,
                            replies: LoginReplies)
    requires replies.rpc.RpcData?
    ensures LoginDecision(rows, username, password, replies) == LoginDecision(other, username, password, replies)
  {
  }

  /** `update({ password }).eq('username', u)`. */
  function SetPassword(rows: seq<AdminRow>, username: string, password: string): (r: seq<AdminRow>)
    ensures |r| == |rows|
    ensures forall i :: 0 <= i < |rows| ==>
              r[i] == if rows[i].username == username then rows[i].(password := password) else rows[i]
  {
    seq(|rows|, i requires 0 <= i < |rows| =>
      if rows[i].username == username then rows[i].(password := password) else rows[i])
  }

  class AdminAuth {
    /** The stored flag, whatever text it holds. */
    var authToken: Option<string>
    /** The stored admin. */
    var userInfo: Option<UserInfo>
    /** The `admin_users` table. */
    var admins: seq<AdminRow>

    ghost predicate Valid()
      reads this
    {
      UniqueUsernames(admins)
    }

    constructor (admins: seq<AdminRow>)
      requires UniqueUsernames(admins)
      ensures Valid() && this.admins == admins && authToken == None && userInfo == None
    {
      this.admins := admins;
      authToken := None;
      userInfo := None;
    }

    /** isAuthenticated: the flag holds exactly 'true'. */
    predicate IsAuthenticated()
      reads this
    {
      authToken == Some(AUTH_FLAG)
    }

    /** getCurrentUser: the stored admin, or null. */
    function GetCurrentUser(): Option<UserInfo>
      reads this
    {
      userInfo
    }

    /** login: only the two success branches write the session. */
    method Login(username: string, password: string, replies: LoginReplies) returns (r: LoginResult)
      requires Valid()
      modifies this
      ensures Valid() && admins == old(admins)
      ensures r == LoginDecision(admins, username, password, replies).result
      ensures r.success ==> IsAuthenticated() && GetCurrentUser() == LoginDecision(admins, username, password, replies).session
      ensures !r.success ==> authToken == old(authToken) && userInfo == old(userInfo)
    {
      var step := LoginDecision(admins, username, password, replies);
      if step.session.Some? {
        authToken := Some(AUTH_FLAG);
        userInfo := step.session;
      }
      r := step.result;
    }

    /** logout: removes both keys. */
    method Logout()
      modifies this
      ensures !IsAuthenticated() && GetCurrentUser() == None
      ensures admins == old(admins)
    {
      authToken := None;
      userInfo := None;
    }

    /** changePassword: refuses without a stored admin or username; otherwise sets the password of
        that username's row and reports whether the update succeeded. */
    method ChangePassword(newPassword: string, updateOk: bool) returns (ok: bool)
      requires Valid()
      modifies this
      ensures Valid() && authToken == old(authToken) && userInfo == old(userInfo)
      ensures userInfo.None? || userInfo.value.username == "" ==> !ok && admins == old(admins)
      ensures userInfo.Some? && userInfo.value.username != "" ==>
                ok == updateOk
                && admins == if updateOk then SetPassword(old(admins), userInfo.value.username, newPassword)
                             else old(admins)
    {
      var user := GetCurrentUser();
      if user.None? || user.value.username == "" {
        return false;
      }
      if updateOk {
        admins := SetPassword(admins, user.value.username, newPassword);
      }
      ok := updateOk;
    }
  }
}
