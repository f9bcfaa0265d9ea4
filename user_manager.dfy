/** The admin list page (pages/admin/UserManager.tsx): adding an admin with length guards and
    deleting any admin but the signed-in one. The admin calls are opaque; their replies are
    passed in. */
module UserManager {
  import opened Types
  import opened Text
  import opened Seqs
  import opened AuthService

  const MIN_USERNAME_LENGTH := 3
  const MIN_PASSWORD_LENGTH := 4
  const MSG_TOO_SHORT := "Kullanıcı adı en az 3, şifre en az 4 karakter olmalıdır."
  const MSG_ADDED := "Yeni yönetici eklendi!"

  datatype AdminUser = AdminUser(id: int, username: string)

  datatype AddReply = AddReply(success: bool, message: string)

  /** The rows that get a delete button: every admin except the signed-in one. */
  function OfferedDeletions(admins: seq<AdminUser>, current: Option<UserInfo>): (r: seq<AdminUser>)
    ensures current.Some? ==> forall a :: a in r ==> a.id != current.value.id
    ensures forall a :: a in admins ==> (a in r <==> current.None? || a.id != current.value.id)
    ensures current.None? ==> r == admins
  {
    if current.None? then admins
    else Filter(admins, (a: AdminUser) => a.id != current.value.id)
  }

  /** When the signed-in admin is listed, at least their own row has no delete button. */
  lemma OwnRowHidden(admins: seq<AdminUser>, current: UserInfo)
    requires exists a :: a in admins && a.id == current.id
    ensures |OfferedDeletions(admins, Some(current))| < |admins|
  {
    var a :| a in admins && a.id == current.id;
    FilterDrops(admins, (u: AdminUser) => u.id != current.id, a);
  }

  class UserManager {
    var admins: seq<AdminUser>
    var currentUser: Option<UserInfo>
    var newUsername: string
    var newPassword: string
    var isAdding: bool

    constructor ()
      ensures admins == [] && currentUser == None && newUsername == "" && newPassword == "" && !isAdding
    {
      admins := [];
      currentUser := None;
      newUsername, newPassword := "", "";
      isAdding := false;
    }

    /** handleAdd, with the reply of addAdmin and the list the reload would fetch. */
    method HandleAdd(reply: AddReply, reloaded: seq<AdminUser>) returns (called: bool, alert: string)
      modifies this
      ensures called <==> (Utf16Length(old(newUsername)) >= MIN_USERNAME_LENGTH
                           && Utf16Length(old(newPassword)) >= MIN_PASSWORD_LENGTH)
      ensures !called ==>
                alert == MSG_TOO_SHORT && admins == old(admins) && isAdding == old(isAdding)
                && newUsername == old(newUsername) && newPassword == old(newPassword)
      ensures called && reply.success ==>
                newUsername == "" && newPassword == "" && admins == reloaded && alert == MSG_ADDED && !isAdding
      ensures called && !reply.success ==>
                newUsername == old(newUsername) && newPassword == old(newPassword) && admins == old(admins)
                && alert == "Hata: " + reply.message && !isAdding
      ensures currentUser == old(currentUser)
    {
      if Utf16Length(newUsername) < MIN_USERNAME_LENGTH || Utf16Length(newPassword) < MIN_PASSWORD_LENGTH {
        return false, MSG_TOO_SHORT;
      }
      isAdding := true;
      called := true;
      isAdding := false;
      if reply.success {
        newUsername, newPassword := "", "";
        admins := reloaded;
        alert := MSG_ADDED;
      } else {
        alert := "Hata: " + reply.message;
      }
    }

    /** handleDelete: the call is made only once confirmed, and the list reloaded only on success. */
    method HandleDelete(id: int, confirmed: bool, success: bool, reloaded: seq<AdminUser>) returns (called: bool)
      modifies this
      ensures called == confirmed
      ensures admins == if confirmed && success then reloaded else old(admins)
      ensures currentUser == old(currentUser) && newUsername == old(newUsername)
      ensures newPassword == old(newPassword) && isAdding == old(isAdding)
    {
      called := confirmed;
      if confirmed && success {
        admins := reloaded;
      }
    }
  }
}
