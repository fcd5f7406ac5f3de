/** The staff-account page: the roles an account may be given, the create / change-password
    modal with its validation, the reset of the modal, and the badge shown for each role. */
module UserRoles {
  import opened Common

  /** The roles the page can assign; ADMIN is not among them. */
  datatype UserRole = Hr | Counsellor | Accounts
  {
    /** The role's wire name. */
    function Name(): (n: string)
      ensures n in {HR, COUNSELLOR, ACCOUNTS}
    {
      match this
      case Hr => HR
      case Counsellor => COUNSELLOR
      case Accounts => ACCOUNTS
    }
  }

  /** The options of the role select, in display order. */
  const RoleOptions: seq<UserRole> := [Hr, Counsellor, Accounts]

  datatype User = User(id: string, name: string, email: string, role: UserRole)

  datatype UserForm = UserForm(name: string, email: string, password: string, role: UserRole)

  /** The blank form: empty fields, role HR. */
  const EmptyForm: UserForm := UserForm("", "", "", Hr)

  const NEED_PASSWORD: string := "Please provide a new password"
  const NEED_ALL_FIELDS: string := "Please fill in all required fields"

  /** The saveUser guard: changing a password needs only the password; creating an account
      needs name, email and password. The error shown, or `None` when the save may proceed. */
  function ValidateSave(editing: bool, form: UserForm): (r: Option<string>)
    ensures editing ==> (r.Some? <==> form.password == "")
    ensures !editing ==> (r.Some? <==> form.name == "" || form.email == "" || form.password == "")
    ensures r.Some? ==> r.value == (if editing then NEED_PASSWORD else NEED_ALL_FIELDS)
  {
    if editing then
      if form.password == "" then Some(NEED_PASSWORD) else None
    else if form.name == "" || form.email == "" || form.password == "" then Some(NEED_ALL_FIELDS)
    else None
  }

  /** `POST /api/users/change-password` or `POST /api/users`. */
  datatype UserRequest =
    | ChangePassword(id: string, newPassword: string)
    | CreateUser(name: string, email: string, role: string, password: string)

  /** The request an accepted save sends. */
  function SaveRequest(editingUser: Option<User>, form: UserForm): (r: UserRequest)
    ensures r.ChangePassword? <==> editingUser.Some?
    ensures r.ChangePassword? ==> r.id == editingUser.value.id && r.newPassword == form.password
    ensures r.CreateUser? ==> r.role != ADMIN && r.password == form.password
  {
    match editingUser
    case Some(u) => ChangePassword(u.id, form.password)
    case None => CreateUser(form.name, form.email, form.role.Name(), form.password)
  }

  /** getRoleBadgeColor. The default branch of the source cannot be reached from a `UserRole`. */
  function RoleBadgeColor(role: UserRole): (r: string)
    ensures |r| > 0
  {
    match role
    case Hr => "bg-blue-100 text-blue-700"
    case Counsellor => "bg-green-100 text-green-700"
    case Accounts => "bg-purple-100 text-purple-700"
  }

  /** The page's state. */
  class UserRolesPage {
    var users: seq<User>
    var isModalOpen: bool
    var editingUser: Option<User>
    var loading: bool
    var error: Option<string>
    var userForm: UserForm

    constructor ()
      ensures users == [] && !isModalOpen && editingUser.None? && !loading && error.None?
      ensures userForm == EmptyForm
    {
      users := [];
      isModalOpen := false;
      editingUser := None;
      loading := false;
      error := None;
      userForm := EmptyForm;
    }

    /** fetchUsers, with `response` the outcome of `GET /api/users` and `data` its list. */
    method FetchUsers(response: Outcome, data: seq<User>)
      modifies this
      ensures users == (if response.Ok? then data else old(users))
      ensures error == (if response.Ok? then None else Some(response.message))
      ensures !loading
      ensures isModalOpen == old(isModalOpen) && editingUser == old(editingUser) && userForm == old(userForm)
    {
      loading := true;
      error := None;
      if response.Ok? {
        users := data;
      } else {
        error := Some(response.message);
      }
      loading := false;
    }

    /** openModal(user?): copy name, email and role of the account and blank the password, or
        start a blank form. The error is left as it was. */
    method OpenModal(user: Option<User>)
      modifies this
      ensures editingUser == user && isModalOpen
      ensures userForm == (if user.Some? then UserForm(user.value.name, user.value.email, "", user.value.role) else EmptyForm)
      ensures users == old(users) && loading == old(loading) && error == old(error)
    {
      if user.Some? {
        editingUser := user;
        userForm := UserForm(user.value.name, user.value.email, "", user.value.role);
      } else {
        editingUser := None;
        userForm := EmptyForm;
      }
      isModalOpen := true;
    }

    /** closeModal: close, forget the account, blank the form and clear the error. */
    method CloseModal()
      modifies this
      ensures !isModalOpen && editingUser.None? && userForm == EmptyForm && error.None?
      ensures users == old(users) && loading == old(loading)
    {
      isModalOpen := false;
      editingUser := None;
      userForm := EmptyForm;
      error := None;
    }

    /** saveUser. `write` is the outcome of the save request; `refetch` and `data` those of the
        following fetchUsers. A rejected form sends nothing and only sets the error. An accepted
        save that succeeds closes the modal with no error, even when the refresh fails; one that
        fails keeps the modal and shows the failure. */
    method SaveUser(write: Outcome, refetch: Outcome, data: seq<User>) returns (sent: Option<UserRequest>)
      modifies this
      ensures var v := ValidateSave(old(editingUser).Some?, old(userForm));
        v.Some? ==>
          && sent.None? && error == v && loading == old(loading) && users == old(users)
          && isModalOpen == old(isModalOpen) && editingUser == old(editingUser) && userForm == old(userForm)
      ensures var v := ValidateSave(old(editingUser).Some?, old(userForm));
        v.None? ==> sent == Some(SaveRequest(old(editingUser), old(userForm))) && !loading
      ensures var v := ValidateSave(old(editingUser).Some?, old(userForm));
        v.None? && write.Ok? ==>
          && error.None? && !isModalOpen && editingUser.None? && userForm == EmptyForm
          && users == (if refetch.Ok? then data else old(users))
      ensures var v := ValidateSave(old(editingUser).Some?, old(userForm));
        v.None? && write.Failed? ==>
          && error == Some(write.message) && users == old(users)
          && isModalOpen == old(isModalOpen) && editingUser == old(editingUser) && userForm == old(userForm)
    {
      var rejection := ValidateSave(editingUser.Some?, userForm);
      if rejection.Some? {
        error := rejection;
        return None;
      }
      loading := true;
      error := None;
      sent := Some(SaveRequest(editingUser, userForm));
      if write.Ok? {
        FetchUsers(refetch, data);
        CloseModal();
      } else {
        error := Some(write.message);
      }
      loading := false;
    }
  }

  // ----- Properties -----

  /** The role select offers exactly the three assignable roles, each once, and never ADMIN. */
  lemma RoleOptionsExcludeAdmin()
    ensures forall r: UserRole :: r in RoleOptions
    ensures |RoleOptions| == 3 && RoleOptions[0] != RoleOptions[1] && RoleOptions[1] != RoleOptions[2] && RoleOptions[0] != RoleOptions[2]
    ensures forall r: UserRole :: r.Name() != ADMIN
    ensures forall r: UserRole, q: UserRole :: r != q ==> r.Name() != q.Name()
  {
    forall r: UserRole ensures r in RoleOptions {
      match r
      case Hr => assert RoleOptions[0] == r;
      case Counsellor => assert RoleOptions[1] == r;
      case Accounts => assert RoleOptions[2] == r;
    }
  }

  /** Every role has its own badge. */
  lemma BadgeColorsDistinct(r: UserRole, q: UserRole)
    ensures r != q ==> RoleBadgeColor(r) != RoleBadgeColor(q)
  {
  }

  /** Changing a password checks only the password, so an account with empty name or email
      can still have its password changed; creation insists on all three. */
  lemma ValidationByMode(form: UserForm)
    ensures form.password != "" ==> ValidateSave(true, form).None?
    ensures ValidateSave(false, form).None? ==> ValidateSave(true, form).None?
    ensures ValidateSave(false, form.(password := "")) == Some(NEED_ALL_FIELDS)
    ensures ValidateSave(true, form.(password := "")) == Some(NEED_PASSWORD)
  {
  }

  /** A blank form, as left by opening an account or closing the modal, is always refused. */
  lemma BlankFormRefused(u: User, editing: bool)
    ensures ValidateSave(editing, EmptyForm).Some?
    ensures ValidateSave(true, UserForm(u.name, u.email, "", u.role)) == Some(NEED_PASSWORD)
  {
  }
}
