/** The client's sign-up form (`Registrarse.jsx`): the checks made before the
    request and the body it posts to the client registration endpoint. */
module SignUp {
  import opened Values
  import opened Text
  import opened Checks

  datatype Form = Form(name: string, email: string, phone: string, address: string,
                       password: string, confirmPassword: string)

  const InitialForm := Form("", "", "", "", "", "")

  const FieldsMessage := "Completa los campos obligatorios correctamente."
  const PasswordMessage := "La contraseña debe tener al menos 6 caracteres."
  const MismatchMessage := "Las contraseñas no coinciden."

  /** The four field checks `handleSubmit` makes in one condition. */
  predicate FieldsOk(f: Form)
  {
    && Utf16Length(Trim(f.name)) >= 2
    && Trim(f.email) != ""
    && Utf16Length(Trim(f.phone)) >= 7
    && Utf16Length(Trim(f.address)) >= 4
  }

  /** The checks of `handleSubmit`: one message for any bad field, then the
      password length, then the confirmation. */
  function Validate(f: Form): (err: Option<string>)
    ensures err.None? <==> FieldsOk(f) && Utf16Length(f.password) >= 6 && f.password == f.confirmPassword
    ensures !FieldsOk(f) ==> err == Some(FieldsMessage)
  {
    if !FieldsOk(f) then Some(FieldsMessage)
    else if Utf16Length(f.password) < 6 then Some(PasswordMessage)
    else if f.password != f.confirmPassword then Some(MismatchMessage)
    else None
  }

  function SignUpChecks(f: Form): seq<Check>
  {
    [ Check(FieldsOk(f), FieldsMessage),
      Check(Utf16Length(f.password) >= 6, PasswordMessage),
      Check(f.password == f.confirmPassword, MismatchMessage) ]
  }

  /** The checks run in order and the first failing one is reported. */
  lemma ValidateIsFirstFailure(f: Form)
    ensures Validate(f) == FirstFailure(SignUpChecks(f))
  {
    var cs := SignUpChecks(f);
    FirstFailureCons(cs[2], []);
    FirstFailureCons(cs[1], [cs[2]]);
    FirstFailureCons(cs[0], cs[1..]);
    assert cs == [cs[0]] + cs[1..] && cs[1..] == [cs[1]] + [cs[2]];
  }

  /** A short password is reported only once the four fields are right, and a
      mismatch only once the password is long enough as well. */
  lemma PasswordChecksComeLater(f: Form)
    ensures Validate(f) == Some(PasswordMessage) <==> FieldsOk(f) && Utf16Length(f.password) < 6
    ensures Validate(f) == Some(MismatchMessage)
            <==> FieldsOk(f) && Utf16Length(f.password) >= 6 && f.password != f.confirmPassword
  {
  }

  /** The JSON body of the registration request. */
  datatype Body = Body(name: string, email: string, phone: string, address: string, password: string)

  /** `{ name: name.trim(), ..., password }`: trimmed fields, the password as typed. */
  function RequestBody(f: Form): (b: Body)
    ensures b.name == Trim(f.name) && b.email == Trim(f.email)
    ensures b.phone == Trim(f.phone) && b.address == Trim(f.address)
    ensures b.password == f.password
  {
    Body(Trim(f.name), Trim(f.email), Trim(f.phone), Trim(f.address), f.password)
  }

  /** What an accepted form posts: every text field trimmed and long enough, and
      the password untouched, so its surrounding blanks are kept. */
  lemma AcceptedBody(f: Form)
    requires Validate(f).None?
    ensures var b := RequestBody(f);
            && b.name == Trim(f.name) && b.email == Trim(f.email)
            && b.phone == Trim(f.phone) && b.address == Trim(f.address)
            && Utf16Length(b.name) >= 2 && b.email != "" && Utf16Length(b.phone) >= 7 && Utf16Length(b.address) >= 4
            && Trim(b.name) == b.name && Trim(b.email) == b.email
            && Trim(b.phone) == b.phone && Trim(b.address) == b.address
            && Utf16Length(b.password) >= 6 && b.password == f.confirmPassword
  {
    TrimIdempotent(f.name);
    TrimIdempotent(f.email);
    TrimIdempotent(f.phone);
    TrimIdempotent(f.address);
  }
}
