/** The administrator's "create user" page (`AdminCreatedUser.jsx`): the form's
    validation chain, the role selector and the payload it posts. */
module CreateUserForm {
  import opened Values
  import opened Text
  import opened Checks

  /** The form's fields; every text input holds a string. */
  datatype Form = Form(
    role: string,
    isAdmin: bool,
    name: string,
    email: string,
    phone: string,
    address: string,
    password: string,
    confirmPassword: string,
    photoUrl: string,
    bio: string,
    specialties: string)

  /** The form together with the "show specialties" toggle the page keeps beside it. */
  datatype Page = Page(form: Form, showSpecialties: bool)

  const InitialPage := Page(Form("cliente", false, "", "", "", "", "", "", "", "", ""), false)

  const NameMessage := "Nombre inválido (mínimo 2)."
  const EmailMessage := "Email obligatorio."
  const PasswordMessage := "Contraseña mínimo 6 caracteres."
  const MismatchMessage := "Las contraseñas no coinciden."
  const SpecialtiesMessage := "Indica especialidades (ej: fade, barba)."

  /** The user will attend appointments: the role is "barbero" or the
      specialties box is shown. */
  predicate WillBeBarber(p: Page)
  {
    p.form.role == "barbero" || p.showSpecialties
  }

  /** `validate`: the message of the first check that fails, `None` when the
      form may be sent. */
  function Validate(p: Page): (err: Option<string>)
    ensures err.None? <==>
              && Utf16Length(Trim(p.form.name)) >= 2
              && Trim(p.form.email) != ""
              && Utf16Length(p.form.password) >= 6
              && p.form.password == p.form.confirmPassword
              && (WillBeBarber(p) ==> Utf16Length(Trim(p.form.specialties)) >= 2)
  {
    var f := p.form;
    if Utf16Length(Trim(f.name)) < 2 then Some(NameMessage)
    else if Trim(f.email) == "" then Some(EmailMessage)
    else if Utf16Length(f.password) < 6 then Some(PasswordMessage)
    else if f.password != f.confirmPassword then Some(MismatchMessage)
    else if WillBeBarber(p) && Utf16Length(Trim(f.specialties)) < 2 then Some(SpecialtiesMessage)
    else None
  }

  /** The checks of `validate`, in the order the page makes them. */
  function CreateChecks(p: Page): (cs: seq<Check>)
    ensures |cs| == 5
  {
    var f := p.form;
    [ Check(Utf16Length(Trim(f.name)) >= 2, NameMessage),
      Check(Trim(f.email) != "", EmailMessage),
      Check(Utf16Length(f.password) >= 6, PasswordMessage),
      Check(f.password == f.confirmPassword, MismatchMessage),
      Check(!WillBeBarber(p) || Utf16Length(Trim(f.specialties)) >= 2, SpecialtiesMessage) ]
  }

  /** `validate` reports the first failing check of the ordered list, so a later
      check's message is only ever seen when every earlier check passed. */
  lemma ValidateIsFirstFailure(p: Page)
    ensures Validate(p) == FirstFailure(CreateChecks(p))
  {
    var cs := CreateChecks(p);
    FirstFailureCons(cs[4], []);
    FirstFailureCons(cs[3], [cs[4]]);
    FirstFailureCons(cs[2], cs[3..]);
    FirstFailureCons(cs[1], cs[2..]);
    FirstFailureCons(cs[0], cs[1..]);
    assert cs == [cs[0]] + cs[1..] && cs[1..] == [cs[1]] + cs[2..] && cs[2..] == [cs[2]] + cs[3..];
    assert cs[3..] == [cs[3]] + [cs[4]];
  }

  /** Specialties are demanded exactly when the user will be a barber: with the
      other fields valid, the form is refused for its specialties iff it will be
      a barber's and the trimmed specialties are shorter than two characters. */
  lemma SpecialtiesRequiredIffBarber(p: Page)
    requires Utf16Length(Trim(p.form.name)) >= 2 && Trim(p.form.email) != ""
    requires Utf16Length(p.form.password) >= 6 && p.form.password == p.form.confirmPassword
    ensures Validate(p) == Some(SpecialtiesMessage) <==> WillBeBarber(p) && Utf16Length(Trim(p.form.specialties)) < 2
    ensures Validate(p).None? <==> !(WillBeBarber(p) && Utf16Length(Trim(p.form.specialties)) < 2)
  {
  }

  /** `handleRoleChange`: the role is replaced, and choosing "cliente" hides the
      specialties box without clearing what was typed in it. */
  function ChangeRole(p: Page, role: string): (q: Page)
    ensures q.form == p.form.(role := role)
    ensures q.showSpecialties == (p.showSpecialties && role != "cliente")
  {
    Page(p.form.(role := role), if role == "cliente" then false else p.showSpecialties)
  }

  /** Going to "cliente" and back to "barbero" leaves the specialties text as it
      was, and the form is again a barber's, validated on that same text. */
  lemma RoleRoundTripKeepsSpecialties(p: Page)
    ensures var q := ChangeRole(ChangeRole(p, "cliente"), "barbero");
            && q.form.specialties == p.form.specialties
            && WillBeBarber(q)
            && q.form == p.form.(role := "barbero")
  {
  }

  /** The body of the POST request. */
  datatype Payload = Payload(
    name: string,
    email: string,
    password: string,
    role: string,
    isAdmin: bool,
    phone: Value,
    address: Value,
    photoUrl: Value,
    bio: Value,
    specialties: Value)

  /** `s.trim() || null`. */
  function BlankToNull(s: string): (v: Value)
  {
    JsOr(Str(Trim(s)), Null)
  }

  /** A blank field is sent as `null`, anything else trimmed and never empty. */
  lemma BlankToNullSpec(s: string)
    ensures BlankToNull(s) == Null <==> AllSpace(s)
    ensures BlankToNull(s) != Null ==> BlankToNull(s) == Str(Trim(s)) && Trim(s) != ""
  {
    TrimSpec(s);
  }

  /** The payload `handleSubmit` builds. */
  function CreatePayload(p: Page): (r: Payload)
    ensures r.role == (if WillBeBarber(p) then "barbero" else "cliente")
    ensures r.role != "admin"
    ensures !WillBeBarber(p) ==> r.specialties == Null
    ensures WillBeBarber(p) ==> r.specialties == BlankToNull(p.form.specialties)
    ensures r.password == p.form.password && r.isAdmin == p.form.isAdmin
    ensures r.name == Trim(p.form.name) && r.email == Trim(p.form.email)
    ensures r.phone == BlankToNull(p.form.phone) && r.address == BlankToNull(p.form.address)
    ensures r.photoUrl == BlankToNull(p.form.photoUrl) && r.bio == BlankToNull(p.form.bio)
  {
    var f := p.form;
    var barber := WillBeBarber(p);
    Payload(Trim(f.name), Trim(f.email), f.password, if barber then "barbero" else "cliente",
            f.isAdmin, BlankToNull(f.phone), BlankToNull(f.address), BlankToNull(f.photoUrl),
            BlankToNull(f.bio), if barber then BlankToNull(f.specialties) else Null)
  }

  /** What a form that passed `validate` sends: a trimmed name of at least two
      characters, a non-empty trimmed email, the confirmed password of at least
      six characters, and for a barber specialties of at least two characters with
      no surrounding blanks; each optional field is `null` or its trimmed text. */
  lemma ValidatedPayload(p: Page)
    requires Validate(p).None?
    ensures var r := CreatePayload(p);
            && Utf16Length(r.name) >= 2 && Trim(r.name) == r.name
            && r.email != "" && Trim(r.email) == r.email
            && Utf16Length(r.password) >= 6 && r.password == p.form.confirmPassword
            && (WillBeBarber(p) ==>
                  (r.specialties.Str? && Utf16Length(r.specialties.s) >= 2 && Trim(r.specialties.s) == r.specialties.s))
            && r.name == Trim(p.form.name) && r.email == Trim(p.form.email)
            && (r.phone == Null || r.phone == Str(Trim(p.form.phone)))
            && (r.address == Null || r.address == Str(Trim(p.form.address)))
            && (r.photoUrl == Null || r.photoUrl == Str(Trim(p.form.photoUrl)))
            && (r.bio == Null || r.bio == Str(Trim(p.form.bio)))
  {
    var f := p.form;
    TrimIdempotent(f.name);
    TrimIdempotent(f.email);
    BlankToNullSpec(f.phone);
    BlankToNullSpec(f.address);
    BlankToNullSpec(f.photoUrl);
    BlankToNullSpec(f.bio);
    if WillBeBarber(p) {
      TrimIdempotent(f.specialties);
      BlankToNullSpec(f.specialties);
    }
  }

  /** The page counts `length` in UTF-16 units: a name made of one emoji is
      two units long and passes the name check. */
  lemma EmojiNamePasses(p: Page)
    requires p.form.name == "\U{1F600}"
    ensures Validate(p) != Some(NameMessage)
  {
    assert TrimStart(p.form.name) == p.form.name;
    assert Trim(p.form.name) == p.form.name;
  }
}
