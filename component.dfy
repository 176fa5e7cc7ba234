/** The App component: its four `useState` slots as fields, and each
    handler as a method that calls the setters in the order the component
    does. Every method leaves exactly the state that the corresponding
    Controller transition describes. */
module Component {
  import opened Validation
  import opened Controller

  class App {
    var users: seq<User>
    var form: Form
    var isEditing: bool
    var error: string

    /** The component state as a value. */
    function Snapshot(): State
      reads this
    {
      State(users, form, isEditing, error)
    }

    ghost predicate Valid()
      reads this
    {
      Inv(Snapshot())
    }

    /** The initial `useState` values: no users, an empty draft with the
        first avatar, Create mode, no error. */
    constructor ()
      ensures Snapshot() == Initial && Valid()
    {
      users := [];
      form := EmptyForm;
      isEditing := false;
      error := "";
    }

    method FetchUsers(resp: Response<seq<StoredUser>>)
      modifies this
      ensures Snapshot() == Controller.FetchUsers(old(Snapshot()), resp)
      ensures old(Valid()) ==> Valid()
    {
      match resp {
        case Ok(data) =>
          users := WithIds(data);
        case Err(_) =>
          error := FetchFailed;
      }
    }

    method HandleChange(field: Field, value: string)
      modifies this
      ensures Snapshot() == Controller.HandleChange(old(Snapshot()), field, value)
      ensures old(Valid()) ==> Valid()
    {
      if field == NameInput && !NameAllowed(value) {
        return;
      }
      form := SetField(form, field, value);
    }

    /** The avatar radio buttons' change handler. */
    method SelectAvatar(value: string)
      modifies this
      ensures Snapshot() == Controller.SelectAvatar(old(Snapshot()), value)
      ensures old(Valid()) ==> Valid()
    {
      form := form.(avatar := value);
    }

    method ValidateForm() returns (ok: bool)
      modifies this
      ensures ok == Controller.ValidateForm(old(Snapshot())).ok
      ensures Snapshot() == Controller.ValidateForm(old(Snapshot())).next
      ensures old(Valid()) ==> Valid()
    {
      if form.name == "" {
        error := NameRequired;
        return false;
      }
      if form.email == "" || !ValidEmail(form.email) {
        error := InvalidEmail;
        return false;
      }
      if form.number == "" || !ValidNumber(form.number) {
        error := InvalidNumber;
        return false;
      }
      error := "";
      return true;
    }

    method ResetForm()
      modifies this
      ensures Snapshot() == Controller.ResetForm(old(Snapshot()))
      ensures Valid()
    {
      form := EmptyForm;
      isEditing := false;
      error := "";
    }

    method EditUser(user: User)
      modifies this
      ensures Snapshot() == Controller.EditUser(old(Snapshot()), user)
      ensures Valid()
    {
      form := FormOf(user);
      isEditing := true;
      error := "";
    }

    /** `resp` is the outcome of the POST, `fetched` that of the refetch;
        `sent` lists the requests issued, in order. */
    method AddUser(resp: Response<()>, fetched: Response<seq<StoredUser>>) returns (sent: seq<Request>)
      modifies this
      ensures Snapshot() == Controller.AddUser(old(Snapshot()), resp, fetched).next
      ensures sent == Controller.AddUser(old(Snapshot()), resp, fetched).sent
      ensures old(Valid()) ==> Valid()
    {
      var ok := ValidateForm();
      if !ok {
        return [];
      }
      var newUser := PayloadOf(form);
      sent := [Post(newUser)];
      match resp {
        case Ok(_) =>
          FetchUsers(fetched);
          sent := sent + [Get];
          ResetForm();
        case Err(m) =>
          error := ErrorText(m, AddFailed);
      }
    }

    /** `resp` is the outcome of the PUT to `form.id`, `fetched` that of
        the refetch; `sent` lists the requests issued, in order. */
    method UpdateUser(resp: Response<()>, fetched: Response<seq<StoredUser>>) returns (sent: seq<Request>)
      modifies this
      ensures Snapshot() == Controller.UpdateUser(old(Snapshot()), resp, fetched).next
      ensures sent == Controller.UpdateUser(old(Snapshot()), resp, fetched).sent
      ensures old(Valid()) ==> Valid()
    {
      var ok := ValidateForm();
      if !ok {
        return [];
      }
      var updatedUser := PayloadOf(form);
      sent := [Put(form.id, updatedUser)];
      match resp {
        case Ok(_) =>
          FetchUsers(fetched);
          sent := sent + [Get];
          ResetForm();
        case Err(m) =>
          error := ErrorText(m, UpdateFailed);
      }
    }

    /** `confirmed` is the operator's answer to the confirmation dialog,
        `resp` the outcome of the DELETE, `fetched` that of the refetch. */
    method DeleteUser(id: string, confirmed: bool, resp: Response<()>,
                      fetched: Response<seq<StoredUser>>) returns (sent: seq<Request>)
      modifies this
      ensures Snapshot() == Controller.DeleteUser(old(Snapshot()), id, confirmed, resp, fetched).next
      ensures sent == Controller.DeleteUser(old(Snapshot()), id, confirmed, resp, fetched).sent
      ensures old(Valid()) ==> Valid()
    {
      sent := [];
      if confirmed {
        sent := [Delete(id)];
        match resp {
          case Ok(_) =>
            FetchUsers(fetched);
            sent := sent + [Get];
          case Err(m) =>
            error := ErrorText(m, DeleteFailed);
        }
      }
    }
  }

  /** A session as the operator drives it: pick a record, change its
      email, submit, and see the form return to Create mode. */
  method EditSession(u: User, email: string, listed: seq<StoredUser>)
    requires u.name != "" && ValidNumber(u.number) && ValidEmail(email)
  {
    var app := new App();
    app.FetchUsers(Ok(listed));
    assert app.users == WithIds(listed);
    app.EditUser(u);
    assert app.isEditing && app.form.id == Some(u.id);
    app.HandleChange(EmailInput, email);
    assert app.form.email == email && app.form.name == u.name;
    var sent := app.UpdateUser(Ok(()), Ok(listed));
    assert sent == [Put(Some(u.id), Payload(u.name, email, u.number, u.avatar)), Get];
    assert app.form == EmptyForm && !app.isEditing && app.error == "";
  }
}
