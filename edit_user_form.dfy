/** The administrator's "edit user" page (`AdminEditarUsuarios.jsx`): loading a
    stored user into the form, the validation chain with an optional new
    password, the role selector and the payload of the PUT request. */
module EditUserForm {
  import opened Values
  import opened Text
  import opened Checks
  import CreateUserForm

  /** The form's fields. `specialties` is `None` where the form holds
      `undefined` there, which `validate` reads as "". */
  datatype Form = Form(
    userId: Value,
    role: string,
    isAdmin: bool,
    name: string,
    email: string,
    phone: string,
    address: string,
    password: string,
    confirmPassword: string,
    photoUrl: string,
    bio: string,
    specialties: Option<string>)

  datatype Page = Page(form: Form, showSpecialties: bool, showOptional: bool)

  const InitialPage :=
    Page(Form(Null, "cliente", false, "", "", "", "", "", "", "", "", Some("")), false, false)

  /** The page reports the same texts as the create page. */
  const NameMessage := CreateUserForm.NameMessage
  const EmailMessage := CreateUserForm.EmailMessage
  const PasswordMessage := CreateUserForm.PasswordMessage
  const MismatchMessage := CreateUserForm.MismatchMessage
  const SpecialtiesMessage := CreateUserForm.SpecialtiesMessage

  predicate WillBeBarber(p: Page)
  {
    p.form.role == "barbero" || p.showSpecialties
  }

  /** `(formData.specialties || "")`. */
  function SpecialtiesText(f: Form): string
  {
    match f.specialties
    case None => ""
    case Some(s) => s
  }

  /** `validate`: as on the create page, except that the password is checked
      only when one was typed. */
  function Validate(p: Page): (err: Option<string>)
    ensures err.None? <==>
              && Utf16Length(Trim(p.form.name)) >= 2
              && Trim(p.form.email) != ""
              && (p.form.password != "" ==> Utf16Length(p.form.password) >= 6 && p.form.password == p.form.confirmPassword)
              && (WillBeBarber(p) ==> Utf16Length(Trim(SpecialtiesText(p.form))) >= 2)
  {
    var f := p.form;
    if Utf16Length(Trim(f.name)) < 2 then Some(NameMessage)
    else if Trim(f.email) == "" then Some(EmailMessage)
    else if f.password != "" && Utf16Length(f.password) < 6 then Some(PasswordMessage)
    else if f.password != "" && f.password != f.confirmPassword then Some(MismatchMessage)
    else if WillBeBarber(p) && Utf16Length(Trim(SpecialtiesText(f))) < 2 then Some(SpecialtiesMessage)
    else None
  }

  function EditChecks(p: Page): (cs: seq<Check>)
    ensures |cs| == 5
  {
    var f := p.form;
    [ Check(Utf16Length(Trim(f.name)) >= 2, NameMessage),
      Check(Trim(f.email) != "", EmailMessage),
      Check(f.password == "" || Utf16Length(f.password) >= 6, PasswordMessage),
      Check(f.password == "" || f.password == f.confirmPassword, MismatchMessage),
      Check(!WillBeBarber(p) || Utf16Length(Trim(SpecialtiesText(f))) >= 2, SpecialtiesMessage) ]
  }

  /** `validate` reports the first failing check of the ordered list. */
  lemma ValidateIsFirstFailure(p: Page)
    ensures Validate(p) == FirstFailure(EditChecks(p))
  {
    var cs := EditChecks(p);
    FirstFailureCons(cs[4], []);
    FirstFailureCons(cs[3], [cs[4]]);
    FirstFailureCons(cs[2], cs[3..]);
    FirstFailureCons(cs[1], cs[2..]);
    FirstFailureCons(cs[0], cs[1..]);
    assert cs == [cs[0]] + cs[1..] && cs[1..] == [cs[1]] + cs[2..] && cs[2..] == [cs[2]] + cs[3..];
    assert cs[3..] == [cs[3]] + [cs[4]];
  }

  /** Leaving the password empty skips both password checks: the verdict is that
      of the same form with any confirmation. */
  lemma EmptyPasswordSkipsPasswordChecks(p: Page, confirm: string)
    requires p.form.password == ""
    ensures Validate(p) != Some(PasswordMessage) && Validate(p) != Some(MismatchMessage)
    ensures Validate(p) == Validate(p.(form := p.form.(confirmPassword := confirm)))
  {
  }

  /** A missing specialties entry counts as the empty text, so a barber's form
      with it is refused, and any other form is judged as if it were "". */
  lemma UndefinedSpecialtiesIsEmpty(p: Page)
    requires p.form.specialties.None?
    ensures Validate(p) == Validate(p.(form := p.form.(specialties := Some(""))))
    ensures WillBeBarber(p) ==> Validate(p).Some?
  {
    assert Trim("") == "";
  }

  function ChangeRole(p: Page, role: string): (q: Page)
    ensures q.form == p.form.(role := role) && q.showOptional == p.showOptional
    ensures q.showSpecialties == (p.showSpecialties && role != "cliente")
  {
    p.(form := p.form.(role := role), showSpecialties := if role == "cliente" then false else p.showSpecialties)
  }

  /** Switching the role never touches the specialties text. */
  lemma ChangeRoleKeepsSpecialties(p: Page, role: string)
    ensures ChangeRole(p, role).form.specialties == p.form.specialties
    ensures ChangeRole(p, role).form.role == role
  {
  }

  /** The user record the page loads, as the API serialises it; a text field is
      `None` where it is `null` or absent. */
  datatype LoadedUser = LoadedUser(
    userId: Value,
    name: Option<string>,
    email: Option<string>,
    role: Option<string>,
    isAdmin: Value,
    phone: Option<string>,
    address: Option<string>,
    photoUrl: Option<string>,
    bio: Option<string>,
    specialties: Option<string>)

  /** `v || d` on a text field that is a string or missing. */
  function TextOr(v: Option<string>, d: string): (s: string)
    ensures v.Some? && v.value != "" ==> s == v.value
    ensures v.None? || v == Some("") ==> s == d
  {
    match v
    case None => d
    case Some(t) => if t == "" then d else t
  }

  /** The `loadUsuario` update of the page: the form keeps nothing of what was
      typed before. */
  function Load(p: Page, u: LoadedUser): (q: Page)
    ensures q.form.name == TextOr(u.name, "") && q.form.email == TextOr(u.email, "")
    ensures q.form.role == TextOr(u.role, "cliente")
    ensures q.form.isAdmin == JsTruthy(u.isAdmin)
    ensures q.form.password == "" && q.form.confirmPassword == ""
    ensures q.form.specialties == Some(TextOr(u.specialties, ""))
    ensures q.form.phone == TextOr(u.phone, "") && q.form.address == TextOr(u.address, "")
    ensures q.form.photoUrl == TextOr(u.photoUrl, "") && q.form.bio == TextOr(u.bio, "")
    ensures q.form.userId == u.userId
    ensures q.showSpecialties <==> q.form.role == "barbero"
    ensures q.showOptional <==> TextOr(u.photoUrl, "") != "" || TextOr(u.bio, "") != ""
  {
    var role := TextOr(u.role, "cliente");
    var form := Form(u.userId, role, JsTruthy(u.isAdmin), TextOr(u.name, ""), TextOr(u.email, ""),
                     TextOr(u.phone, ""), TextOr(u.address, ""), "", "",
                     TextOr(u.photoUrl, ""), TextOr(u.bio, ""), Some(TextOr(u.specialties, "")));
    Page(form, role == "barbero", TextOr(u.photoUrl, "") != "" || TextOr(u.bio, "") != "")
  }

  /** A loaded page depends only on the loaded user, and a user without a role
      is edited as a client. */
  lemma LoadForgetsPreviousForm(p: Page, q: Page, u: LoadedUser)
    ensures Load(p, u) == Load(q, u)
    ensures u.role.None? || u.role == Some("") ==> Load(p, u).form.role == "cliente" && !Load(p, u).showSpecialties
  {
  }

  /** Right after loading, the password checks are skipped. */
  lemma LoadedPasswordIsOptional(p: Page, u: LoadedUser)
    ensures Validate(Load(p, u)) != Some(PasswordMessage)
    ensures Validate(Load(p, u)) != Some(MismatchMessage)
  {
  }

  /** The body of the PUT request; `password` is `None` where the key is absent. */
  datatype Payload = Payload(
    name: string,
    email: string,
    role: string,
    isAdmin: bool,
    phone: string,
    address: string,
    photoUrl: string,
    bio: string,
    specialties: string,
    password: Option<string>)

  /** The object literal of `handleSubmit`, before the password is added: every
      text trimmed (a blank one is sent as ""), the role as it stands. */
  function BasePayload(f: Form, specialties: string): (r: Payload)
    ensures r.name == Trim(f.name) && r.email == Trim(f.email)
    ensures r.role == f.role && r.isAdmin == f.isAdmin
    ensures r.phone == Trim(f.phone) && r.address == Trim(f.address)
    ensures r.photoUrl == Trim(f.photoUrl) && r.bio == Trim(f.bio)
    ensures r.specialties == Trim(specialties)
    ensures r.password.None?
  {
    Payload(Trim(f.name), Trim(f.email), f.role, f.isAdmin, Trim(f.phone) ,
            Trim(f.address), Trim(f.photoUrl), Trim(f.bio), Trim(specialties), None)
  }

  /** `handleSubmit`'s payload: `None` where `formData.specialties.trim()` throws
      on a missing entry; otherwise the literal, to which the password is added
      only when one was typed. */
  method BuildPayload(p: Page) returns (r: Option<Payload>)
    ensures r.None? <==> p.form.specialties.None?
    ensures r.Some? ==> r.value.(password := None) == BasePayload(p.form, p.form.specialties.value)
    ensures r.Some? ==> (r.value.password.Some? <==> p.form.password != "")
    ensures r.Some? && r.value.password.Some? ==> r.value.password.value == p.form.password
  {
    if p.form.specialties.None? {
      return None;
    }
    var payload := BasePayload(p.form, p.form.specialties.value);
    if p.form.password != "" {
      payload := payload.(password := Some(p.form.password));
    }
    return Some(payload);
  }

  /** A blank optional field is sent as the empty string, never as `null`. */
  lemma BlankFieldsSentEmpty(f: Form, specialties: string)
    requires AllSpace(f.phone) && AllSpace(f.bio)
    ensures BasePayload(f, specialties).phone == "" && BasePayload(f, specialties).bio == ""
  {
    TrimSpec(f.phone);
    TrimSpec(f.bio);
  }

  /** A page just loaded from the API always yields a payload, without a
      password, whose role is the stored one (or "cliente"). */
  lemma LoadedPageHasPayload(p: Page, u: LoadedUser)
    ensures var q := Load(p, u);
            q.form.specialties.Some? && q.form.password == ""
            && BasePayload(q.form, q.form.specialties.value).role == TextOr(u.role, "cliente")
  {
  }
}
