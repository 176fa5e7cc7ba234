/** The user-profile form controller as a state machine over the four
    pieces of component state (the fetched list, the draft form, the
    Create/Edit mode flag and the visible error message). Every handler
    is a function from the old state, plus the abstract outcome of any
    HTTP request it issues, to the new state and the requests issued. */
module Controller {
  import opened Validation

  datatype Option<T> = None | Some(value: T)

  // ---------------------------------------------------------------------
  // Data model

  /** The four predefined avatar images the radio buttons offer. */
  const AvatarOptions: seq<string> := [
    "/images/avatar-1.jpg",
    "/images/avatar-2.jpg",
    "/images/avatar-3.jpg",
    "/images/avatar-4.jpg"
  ]

  /** The draft record; `id` is None (JavaScript `null`) in a fresh form. */
  datatype Form = Form(id: Option<string>, name: string, email: string, number: string, avatar: string)

  /** A record as the list endpoint returns it, keyed by the store's `_id`. */
  datatype StoredUser = StoredUser(storeId: string, name: string, email: string, number: string, avatar: string)

  /** A record in the client's list, with `id` copied from `_id`. */
  datatype User = User(id: string, name: string, email: string, number: string, avatar: string)

  /** The body of a create or update request: no identifier. */
  datatype Payload = Payload(name: string, email: string, number: string, avatar: string)

  /** The text inputs wired to handleChange, by their `name` attribute. */
  datatype Field = NameInput | EmailInput | NumberInput

  /** The HTTP requests the controller issues against the users endpoint. */
  datatype Request =
    | Get
    | Post(body: Payload)
    | Put(target: Option<string>, body: Payload)
    | Delete(recordId: string)

  /** The abstract outcome of a request: its data, or a failure carrying
      the server's `message` when the response body had one. */
  datatype Response<T> = Ok(data: T) | Err(message: Option<string>)

  datatype State = State(users: seq<User>, form: Form, isEditing: bool, error: string)

  datatype Mode = Create | Edit

  /** The outcome of validateForm: its boolean and the state it leaves. */
  datatype Checked = Checked(ok: bool, next: State)

  /** The outcome of a handler that may issue requests. */
  datatype Step = Step(next: State, sent: seq<Request>)

  const EmptyForm: Form := Form(None, "", "", "", AvatarOptions[0])

  /** The state the component starts in (before the mount-time fetch). */
  const Initial: State := State([], EmptyForm, false, "")

  const NameRequired := "Name is required and must only contain letters."
  const InvalidEmail := "Please enter a valid email address."
  const InvalidNumber := "Please enter a valid 10-digit number."
  const FetchFailed := "Could not fetch users. Please try again later."
  const AddFailed := "Failed to add user."
  const UpdateFailed := "Failed to update user."
  const DeleteFailed := "Failed to delete user."

  /** The initial draft is empty with the first of four distinct avatar
      images, and the initial state is Create mode with no error. */
  lemma InitialState()
    ensures |AvatarOptions| == 4
    ensures forall i, j :: 0 <= i < j < |AvatarOptions| ==> AvatarOptions[i] != AvatarOptions[j]
    ensures EmptyForm.id == None && EmptyForm.name == "" && EmptyForm.email == ""
    ensures EmptyForm.number == "" && EmptyForm.avatar == "/images/avatar-1.jpg"
    ensures Initial.users == [] && Initial.form == EmptyForm && ModeOf(Initial) == Create
    ensures Initial.error == "" && Inv(Initial)
  {
  }

  function ModeOf(s: State): (m: Mode) {
    if s.isEditing then Edit else Create
  }

  /** The mode flag and the draft's identifier agree: a draft carries an
      identifier exactly when it is an existing record being edited. */
  ghost predicate Inv(s: State) {
    s.isEditing <==> s.form.id.Some?
  }

  function FieldValue(f: Form, field: Field): (v: string) {
    match field
    case NameInput => f.name
    case EmailInput => f.email
    case NumberInput => f.number
  }

  /** `{ ...form, [name]: value }` for one of the three text inputs. */
  function SetField(f: Form, field: Field, v: string): (r: Form)
    ensures FieldValue(r, field) == v
    ensures forall g :: g != field ==> FieldValue(r, g) == FieldValue(f, g)
    ensures r.id == f.id && r.avatar == f.avatar
  {
    match field
    case NameInput => f.(name := v)
    case EmailInput => f.(email := v)
    case NumberInput => f.(number := v)
  }

  /** `{ ...user, id: user._id }` applied to every element, in order. */
  function WithIds(data: seq<StoredUser>): (r: seq<User>)
    ensures |r| == |data|
    ensures forall i :: 0 <= i < |data| ==>
      r[i].id == data[i].storeId && r[i].name == data[i].name && r[i].email == data[i].email
      && r[i].number == data[i].number && r[i].avatar == data[i].avatar
    decreases |data|
  {
    if data == [] then []
    else
      var u := data[0];
      [User(u.storeId, u.name, u.email, u.number, u.avatar)] + WithIds(data[1..])
  }

  /** The record a draft with an identifier stands for. */
  function UserOf(f: Form): (u: User)
    requires f.id.Some?
  {
    User(f.id.value, f.name, f.email, f.number, f.avatar)
  }

  /** The draft that editUser installs: the record itself, with nothing
      lost, since reading the record back from it gives the record. */
  function FormOf(u: User): (f: Form)
    ensures f.id.Some? && UserOf(f) == u
  {
    Form(Some(u.id), u.name, u.email, u.number, u.avatar)
  }

  /** The other direction: a draft with an identifier is the draft of the
      record it stands for. */
  lemma FormOfUserOf(f: Form)
    requires f.id.Some?
    ensures FormOf(UserOf(f)) == f
  {
  }

  /** The object literal built from the draft before posting it: the four
      data fields, and never the identifier. */
  function PayloadOf(f: Form): (p: Payload) {
    Payload(f.name, f.email, f.number, f.avatar)
  }

  /** The payload forgets exactly the draft's identifier: two drafts give
      the same payload precisely when they agree on everything but `id`. */
  lemma PayloadLosesOnlyId(f: Form, g: Form)
    ensures PayloadOf(f) == PayloadOf(g) <==> f.(id := None) == g.(id := None)
  {
  }

  /** `err.response?.data?.message || fallback`: the server's message
      unless it is missing or empty. */
  function ErrorText(m: Option<string>, fallback: string): (r: string)
    ensures m.Some? && m.value != "" ==> r == m.value
    ensures m.None? || m.value == "" ==> r == fallback
    ensures fallback != "" ==> r != ""
  {
    match m
    case Some(text) => if text != "" then text else fallback
    case None => fallback
  }

  // ---------------------------------------------------------------------
  // Validation before submission

  /** The message of the first failing check, in the order name, email,
      number; None when all three pass. */
  function FirstFailure(f: Form): (m: Option<string>)
    ensures m == None <==> f.name != "" && ValidEmail(f.email) && ValidNumber(f.number)
    ensures m == Some(NameRequired) <==> f.name == ""
    ensures m == Some(InvalidEmail) <==> f.name != "" && !ValidEmail(f.email)
    ensures m == Some(InvalidNumber) <==> f.name != "" && ValidEmail(f.email) && !ValidNumber(f.number)
  {
    if f.name == "" then Some(NameRequired)
    else if f.email == "" || !ValidEmail(f.email) then Some(InvalidEmail)
    else if f.number == "" || !ValidNumber(f.number) then Some(InvalidNumber)
    else None
  }

  /** validateForm: reports the first failure in `error`, or clears it;
      the list, the draft and the mode are never touched. */
  function ValidateForm(s: State): (r: Checked)
    ensures r.ok <==> FirstFailure(s.form) == None
    ensures r.next.users == s.users && r.next.form == s.form && r.next.isEditing == s.isEditing
    ensures r.ok ==> r.next.error == ""
    ensures !r.ok ==> r.next.error == FirstFailure(s.form).value && r.next.error != ""
  {
    match FirstFailure(s.form)
    case None => Checked(true, s.(error := ""))
    case Some(msg) => Checked(false, s.(error := msg))
  }

  /** A non-empty name made only of whitespace gets through the keystroke
      filter and is not reported as missing, in any state; with a valid
      email and number the whole form passes. */
  lemma BlankNamePasses(s: State)
    requires |s.form.name| > 0 && forall i :: 0 <= i < |s.form.name| ==> IsWs(s.form.name[i])
    ensures NameAllowed(s.form.name)
    ensures FirstFailure(s.form) != Some(NameRequired)
    ensures ValidEmail(s.form.email) && ValidNumber(s.form.number) ==> ValidateForm(s).ok
  {
    NameAllowedIff(s.form.name);
  }

  // ---------------------------------------------------------------------
  // Transitions

  /** fetchUsers: on success the list is replaced by the response with
      identifiers copied; on failure the list stays and the fixed message
      is shown. The draft and the mode never change. */
  function FetchUsers(s: State, resp: Response<seq<StoredUser>>): (r: State)
    ensures r.form == s.form && r.isEditing == s.isEditing
    ensures resp.Ok? ==> r.users == WithIds(resp.data) && r.error == s.error
    ensures resp.Err? ==> r.users == s.users && r.error == FetchFailed
    ensures Inv(s) ==> Inv(r)
  {
    match resp
    case Ok(data) => s.(users := WithIds(data))
    case Err(_) => s.(error := FetchFailed)
  }

  /** handleChange: a value for the name input that is not all letters
      and whitespace is dropped; any other value is stored unfiltered in
      its own field. Nothing else changes. */
  function HandleChange(s: State, field: Field, v: string): (r: State)
    ensures r.users == s.users && r.isEditing == s.isEditing && r.error == s.error
    ensures r.form.id == s.form.id && r.form.avatar == s.form.avatar
    ensures forall g :: g != field ==> FieldValue(r.form, g) == FieldValue(s.form, g)
    ensures field == NameInput ==> (r.form.name == if NameAllowed(v) then v else s.form.name)
    ensures field != NameInput ==> FieldValue(r.form, field) == v
    ensures field == NameInput && !NameAllowed(v) ==> r == s
    ensures Inv(s) ==> Inv(r)
  {
    if field == NameInput && !NameAllowed(v) then s
    else s.(form := SetField(s.form, field, v))
  }

  /** The avatar radio handler: only the draft's avatar changes. */
  function SelectAvatar(s: State, v: string): (r: State)
    ensures r.users == s.users && r.isEditing == s.isEditing && r.error == s.error
    ensures r.form.avatar == v
    ensures forall g :: FieldValue(r.form, g) == FieldValue(s.form, g)
    ensures r.form.id == s.form.id
    ensures Inv(s) ==> Inv(r)
  {
    s.(form := s.form.(avatar := v))
  }

  /** resetForm: an empty draft with the first avatar, Create mode, no
      error; the list is kept. */
  function ResetForm(s: State): (r: State)
    ensures r.form == EmptyForm && ModeOf(r) == Create && r.error == ""
    ensures r.users == s.users
    ensures Inv(r)
  {
    s.(form := EmptyForm, isEditing := false, error := "")
  }

  /** editUser: the draft becomes the chosen record, Edit mode, no error. */
  function EditUser(s: State, u: User): (r: State)
    ensures r.form == FormOf(u) && ModeOf(r) == Edit && r.error == ""
    ensures r.users == s.users
    ensures Inv(r)
  {
    s.(form := FormOf(u), isEditing := true, error := "")
  }

  /** The common shape of addUser and updateUser: validate; if that
      fails stop; else issue `request`; on success refetch and reset; on
      failure show the server's message or `fallback`. */
  function Submit(s: State, request: Request, resp: Response<()>,
                  fetched: Response<seq<StoredUser>>, fallback: string): (r: Step)
    ensures FirstFailure(s.form).Some? ==>
      r.sent == [] && r.next == s.(error := FirstFailure(s.form).value)
    ensures FirstFailure(s.form) == None && resp.Ok? ==>
      r.sent == [request, Get] && r.next == ResetForm(FetchUsers(s, fetched))
    ensures FirstFailure(s.form) == None && resp.Err? ==>
      r.sent == [request] && r.next == s.(error := ErrorText(resp.message, fallback))
  {
    var v := ValidateForm(s);
    if !v.ok then Step(v.next, [])
    else match resp
      case Ok(_) => Step(ResetForm(FetchUsers(v.next, fetched)), [request, Get])
      case Err(m) => Step(v.next.(error := ErrorText(m, fallback)), [request])
  }

  /** addUser: posts the draft's four fields once validation passes. */
  function AddUser(s: State, resp: Response<()>, fetched: Response<seq<StoredUser>>): (r: Step)
    ensures FirstFailure(s.form).Some? ==>
      r.sent == [] && r.next == s.(error := FirstFailure(s.form).value)
    ensures FirstFailure(s.form) == None && resp.Ok? ==>
      r.sent == [Post(PayloadOf(s.form)), Get]
      && r.next == State(FetchUsers(s, fetched).users, EmptyForm, false, "")
    ensures FirstFailure(s.form) == None && resp.Err? ==>
      r.sent == [Post(PayloadOf(s.form))]
      && r.next == s.(error := ErrorText(resp.message, AddFailed))
    ensures Inv(s) ==> Inv(r.next)
  {
    Submit(s, Post(PayloadOf(s.form)), resp, fetched, AddFailed)
  }

  /** updateUser: puts the draft's four fields to the draft's identifier
      once validation passes. */
  function UpdateUser(s: State, resp: Response<()>, fetched: Response<seq<StoredUser>>): (r: Step)
    ensures FirstFailure(s.form).Some? ==>
      r.sent == [] && r.next == s.(error := FirstFailure(s.form).value)
    ensures FirstFailure(s.form) == None && resp.Ok? ==>
      r.sent == [Put(s.form.id, PayloadOf(s.form)), Get]
      && r.next == State(FetchUsers(s, fetched).users, EmptyForm, false, "")
    ensures FirstFailure(s.form) == None && resp.Err? ==>
      r.sent == [Put(s.form.id, PayloadOf(s.form))]
      && r.next == s.(error := ErrorText(resp.message, UpdateFailed))
    ensures Inv(s) ==> Inv(r.next)
  {
    Submit(s, Put(s.form.id, PayloadOf(s.form)), resp, fetched, UpdateFailed)
  }

  /** deleteUser: nothing happens unless the operator confirmed; then the
      record is deleted and the list refetched, or the failure shown. The
      draft and the mode never change. */
  function DeleteUser(s: State, id: string, confirmed: bool, resp: Response<()>,
                      fetched: Response<seq<StoredUser>>): (r: Step)
    ensures !confirmed ==> r.next == s && r.sent == []
    ensures confirmed && resp.Ok? ==> r.sent == [Delete(id), Get] && r.next == FetchUsers(s, fetched)
    ensures confirmed && resp.Err? ==>
      r.sent == [Delete(id)] && r.next == s.(error := ErrorText(resp.message, DeleteFailed))
    ensures r.next.form == s.form && r.next.isEditing == s.isEditing
    ensures Inv(s) ==> Inv(r.next)
  {
    if !confirmed then Step(s, [])
    else match resp
      case Ok(_) => Step(FetchUsers(s, fetched), [Delete(id), Get])
      case Err(m) => Step(s.(error := ErrorText(m, DeleteFailed)), [Delete(id)])
  }

  // ---------------------------------------------------------------------
  // Properties across transitions

  /** Whatever the controller posts or puts has passed every field check:
      a well-formed name, email and ten-digit number. */
  lemma SubmittedPayloadsValid(s: State, resp: Response<()>, fetched: Response<seq<StoredUser>>)
    ensures forall q :: q in AddUser(s, resp, fetched).sent && q.Post? ==>
      q.body.name != "" && ValidEmail(q.body.email) && ValidNumber(q.body.number)
    ensures forall q :: q in UpdateUser(s, resp, fetched).sent && q.Put? ==>
      q.body.name != "" && ValidEmail(q.body.email) && ValidNumber(q.body.number)
  {
  }

  /** In Edit mode the update is never sent to `null`: it targets the
      identifier of the record being edited. */
  lemma UpdateTargetsEditedRecord(s: State, resp: Response<()>, fetched: Response<seq<StoredUser>>)
    requires Inv(s) && ModeOf(s) == Edit && FirstFailure(s.form) == None
    ensures UpdateUser(s, resp, fetched).sent[0].target.Some?
    ensures UpdateUser(s, resp, fetched).sent[0].target == s.form.id
  {
  }

  /** Selecting a record, editing its text fields and submitting puts the
      edited fields to that record's identifier. */
  lemma {:induction false} EditThenUpdate(s: State, u: User, edits: seq<(Field, string)>,
                                          resp: Response<()>, fetched: Response<seq<StoredUser>>)
    requires FirstFailure(ApplyEdits(EditUser(s, u), edits).form) == None
    ensures var e := ApplyEdits(EditUser(s, u), edits);
      UpdateUser(e, resp, fetched).sent[0] == Put(Some(u.id), PayloadOf(e.form))
  {
    ApplyEditsKeepsId(EditUser(s, u), edits);
  }

  /** A sequence of keystrokes in the text inputs, in order. */
  function ApplyEdits(s: State, edits: seq<(Field, string)>): (r: State)
    decreases |edits|
  {
    if edits == [] then s
    else ApplyEdits(HandleChange(s, edits[0].0, edits[0].1), edits[1..])
  }

  lemma {:induction false} ApplyEditsKeepsId(s: State, edits: seq<(Field, string)>)
    ensures ApplyEdits(s, edits).form.id == s.form.id
    ensures ApplyEdits(s, edits).isEditing == s.isEditing
    ensures ApplyEdits(s, edits).users == s.users
    decreases |edits|
  {
    if edits != [] {
      ApplyEditsKeepsId(HandleChange(s, edits[0].0, edits[0].1), edits[1..]);
    }
  }

  /** The name input takes a value exactly when all its characters are
      ASCII letters or whitespace; otherwise the whole state stays. */
  lemma NameInputFilter(s: State, v: string)
    ensures (forall i :: 0 <= i < |v| ==> NameChar(v[i])) ==>
      HandleChange(s, NameInput, v) == s.(form := s.form.(name := v))
    ensures (exists i :: 0 <= i < |v| && !NameChar(v[i])) ==>
      HandleChange(s, NameInput, v) == s
  {
    NameAllowedIff(v);
  }

  /** A successful submission from either mode ends in the same place as
      a reset after the refetch. */
  lemma SubmitSuccessResets(s: State, fetched: Response<seq<StoredUser>>)
    requires FirstFailure(s.form) == None
    ensures AddUser(s, Ok(()), fetched).next == ResetForm(FetchUsers(s, fetched))
    ensures UpdateUser(s, Ok(()), fetched).next == ResetForm(FetchUsers(s, fetched))
    ensures ModeOf(UpdateUser(s, Ok(()), fetched).next) == Create
  {
  }
}
