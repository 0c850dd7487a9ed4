/** The add-user form and the listing request of
    p-1/frontend/src/pages/admin/AdminUsers.jsx. The Previous / Next /
    numbered buttons are the Pager module. */
module AdminUsers {
  import opened Wrappers
  import opened JsValues
  import opened Notices
  import opened AdminController

  datatype NewUserForm = NewUserForm(name: string, email: string, password: string)

  const EmptyForm := NewUserForm("", "", "")

  /** The two checks made before any request; None lets the request go. */
  function CreateUserError(form: NewUserForm): (r: Option<string>)
    ensures r == Some("Please fill in all fields") <==> form.name == "" || form.email == "" || form.password == ""
    ensures r == Some("Password must be at least 6 characters long") <==>
      form.name != "" && form.email != "" && form.password != "" && Utf16Length(form.password) < 6
    ensures r.None? <==> form.name != "" && form.email != "" && Utf16Length(form.password) >= 6
  {
    if form.name == "" || form.email == "" || form.password == "" then Some("Please fill in all fields")
    else if Utf16Length(form.password) < 6 then Some("Password must be at least 6 characters long")
    else None
  }

  /** The length check counts UTF-16 code units: three emoji pass it. */
  lemma EmojiPasswordLongEnough(name: string, email: string)
    requires name != "" && email != ""
    ensures CreateUserError(NewUserForm(name, email, "\U{1F600}\U{1F600}\U{1F600}")).None?
  {
    Utf16LengthEmoji();
  }

  /** The answer to the register request: accepted, or refused / failed with
      the server's message ("" when it sent none). */
  datatype Registration = Registered | NotRegistered(message: string)

  class AddUserDialog {
    var form: NewUserForm
    var showAddModal: bool
    var creating: bool

    constructor ()
      ensures form == EmptyForm && !showAddModal && !creating
    {
      form := EmptyForm;
      showAddModal := false;
      creating := false;
    }

    /** handleCreateUser. `outcome` is the register request's answer; the
        method returns the body it posts (None when it posts nothing) and
        the toast. The list reload after a success is not modelled. */
    method HandleCreateUser(outcome: Registration) returns (sent: Option<NewUserForm>, notice: Notice)
      modifies this
      ensures sent.None? <==> CreateUserError(old(form)).Some?
      ensures sent.None? ==> notice == Failure(CreateUserError(old(form)).value)
      ensures sent.None? ==> form == old(form) && showAddModal == old(showAddModal) && creating == old(creating)
      ensures sent.Some? ==> sent.value == old(form) && !creating
      ensures sent.Some? && outcome.Registered? ==>
        notice == Success("User created successfully") && form == EmptyForm && !showAddModal
      ensures sent.Some? && outcome.NotRegistered? ==>
        notice == Failure(MessageOr(outcome.message, "Failed to create user"))
          && form == old(form) && showAddModal == old(showAddModal)
    {
      var error := CreateUserError(form);
      if error.Some? {
        return None, Failure(error.value);
      }
      creating := true;
      sent := Some(form);
      match outcome {
        case Registered =>
          notice := Success("User created successfully");
          showAddModal := false;
          form := EmptyForm;
        case NotRegistered(message) =>
          notice := Failure(MessageOr(message, "Failed to create user"));
      }
      creating := false;
    }
  }

  /** The query string of `adminAPI.getUsers({ page, limit: 10, search,
      sortBy, sortOrder })`: axios writes each value as text, "" included. */
  function UsersQuery(page: int, search: string, sortBy: string, sortOrder: string): (q: ListQuery)
    ensures q.limit == Some("10") && q.search == Some(search)
    ensures q.sortBy == Some(sortBy) && q.sortOrder == Some(sortOrder)
  {
    ListQuery(Some(IntString(page)), Some("10"), Some(search), Some(sortBy), Some(sortOrder))
  }

  /** The server reads back the page the client asked for (any page but 0,
      which it reads as 1) and a limit of 10. */
  lemma UsersQueryRead(page: int, search: string, sortBy: string, sortOrder: string)
    ensures page != 0 ==> PageParam(UsersQuery(page, search, sortBy, sortOrder).page, 1) == page
    ensures PageParam(UsersQuery(page, search, sortBy, sortOrder).limit, 10) == 10
  {
    ParseIntIntString(page);
    ParseIntIntString(10);
    assert IntString(10) == "10";
  }
}
