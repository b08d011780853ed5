/**
 * The admin dashboard: the same name-and-role filter and delete as the user
 * page, plus the create-user form, which is closed and emptied after a
 * successful registration. The outcome of each request is a parameter.
 */
module AdminDashboard {
  import opened Wrappers
  import opened Entities
  import opened UsersPage

  /** `createData` */
  datatype CreateForm = CreateForm(name: string, email: string, password: string)

  const EmptyForm: CreateForm := CreateForm("", "", "")
  const CreateError: string := "Ошибка создания пользователя"

  class AdminView {
    var users: seq<User>
    var error: string
    var loading: bool
    var showCreateModal: bool
    var createData: CreateForm

    constructor ()
      ensures users == [] && error == "" && !loading && !showCreateModal && createData == EmptyForm
    {
      users := [];
      error := "";
      loading := false;
      showCreateModal := false;
      createData := EmptyForm;
    }

    /** `handleDeleteUser`, as on the user page. */
    method HandleDeleteUser(userId: string, confirmed: bool, ok: bool)
      modifies this
      ensures !confirmed ==> users == old(users) && error == old(error) && loading == old(loading)
      ensures confirmed ==> !loading
      ensures confirmed && ok ==> users == WithoutUser(old(users), userId) && error == old(error)
      ensures confirmed && !ok ==> users == old(users) && error == DeleteError
      ensures showCreateModal == old(showCreateModal) && createData == old(createData)
    {
      if !confirmed {
        return;
      }
      loading := true;
      if ok {
        users := WithoutUser(users, userId);
      } else {
        error := DeleteError;
      }
      loading := false;
    }

    /** The form inputs. */
    method EditForm(form: CreateForm)
      modifies this
      ensures createData == form
      ensures users == old(users) && error == old(error) && loading == old(loading) && showCreateModal == old(showCreateModal)
    {
      createData := form;
    }

    /**
     * `handleCreateUser`: registers `createData`; on success closes the
     * modal and empties the form (a refetch follows), on failure shows the
     * error and keeps the form as typed.
     */
    method HandleCreateUser(ok: bool) returns (sent: CreateForm)
      modifies this
      ensures sent == old(createData)
      ensures ok ==> !showCreateModal && createData == EmptyForm && error == old(error)
      ensures !ok ==> showCreateModal == old(showCreateModal) && createData == old(createData) && error == CreateError
      ensures users == old(users) && !loading
    {
      loading := true;
      sent := createData;
      if ok {
        showCreateModal := false;
        createData := EmptyForm;
      } else {
        error := CreateError;
      }
      loading := false;
    }
  }
}
