/** Creating a user: the role-dependent form fields, the schema's issue rules
    and field clearing, `sanitizePassword`, and the CPF availability check. */
module UserCreation {
  import opened Common
  import opened JsText
  import opened Documents
  import opened Users
  import opened Session

  /** Only ADMIN and USER pass the schema's role enum; API is rejected. */
  function ParseFormRole(value: string): (r: Option<Role>)
    ensures r.Some? <==> value in {"ADMIN", "USER"}
    ensures r.Some? ==> r.value != Api && RoleName(r.value) == value
  {
    if value == "ADMIN" then Some(Admin)
    else if value == "USER" then Some(User)
    else None
  }

  lemma FormRoleRejectsApi()
    ensures ParseFormRole(RoleName(Api)).None?
  {
  }

  datatype Issue = Issue(path: string, message: string)

  const CpfRequired := Issue("taxpayerId", "CPF é obrigatório")
  const CpfNotElevenDigits := Issue("taxpayerId", "CPF deve conter 11 dígitos numéricos")
  const CpfInvalid := Issue("taxpayerId", "CPF inválido")
  const AdminPasswordRequired := Issue("password", "A senha é obrigatória para administradores")
  const PasswordComposition :=
    Issue("password", "A senha deve conter ao menos uma letra maiúscula, um número e um caractere especial")
  const PasswordTooShort := Issue("password", "A senha deve ter no mínimo 24 caracteres")
  const PasswordOnlyForAdmins := Issue("password", "Somente administradores podem definir senha")

  /** `/^[0-9]{11}$/` */
  predicate ElevenDigits(s: string) { |s| == 11 && AllDigits(s) }

  /** The CPF rule: at most one issue, by priority missing, then not eleven
      digits, then failing the check digits. Roles other than ADMIN/USER get none. */
  function CpfIssues(role: Role, taxpayerId: Option<string>): (r: seq<Issue>)
    ensures |r| <= 1
    ensures r == [] <==> role == Api || (Truthy(taxpayerId) && ElevenDigits(taxpayerId.value) && IsValidCpf(taxpayerId.value))
    ensures r == [CpfRequired] <==> role != Api && !Truthy(taxpayerId)
    ensures r == [CpfNotElevenDigits] <==> role != Api && Truthy(taxpayerId) && !ElevenDigits(taxpayerId.value)
    ensures r == [CpfInvalid] <==>
      role != Api && Truthy(taxpayerId) && ElevenDigits(taxpayerId.value) && !IsValidCpf(taxpayerId.value)
  {
    if role == Api then []
    else if !Truthy(taxpayerId) then [CpfRequired]
    else if !ElevenDigits(taxpayerId.value) then [CpfNotElevenDigits]
    else if !IsValidCpf(taxpayerId.value) then [CpfInvalid]
    else []
  }

  /** A line terminator, which the regular expression's `.` does not match. */
  predicate IsLineTerminator(c: char) { c in {'\n', '\r', '\U{2028}', '\U{2029}'} }

  /** The text before the first line terminator: the part `^(?=.*…)` can see. */
  function FirstLine(s: string): (r: string)
    ensures |r| <= |s| && r == s[..|r|]
    ensures forall i :: 0 <= i < |r| ==> !IsLineTerminator(r[i])
    ensures |r| < |s| ==> IsLineTerminator(s[|r|])
  {
    if s == [] || IsLineTerminator(s[0]) then [] else [s[0]] + FirstLine(s[1..])
  }

  const PasswordSpecials := "!@#$%^&*(),.?\":{}|<>_-\\/[]~`+=;'"

  predicate HasUpper(s: string) { exists i :: 0 <= i < |s| && IsUpperAscii(s[i]) }
  predicate HasDigit(s: string) { exists i :: 0 <= i < |s| && IsDigit(s[i]) }
  predicate HasSpecial(s: string) { exists i :: 0 <= i < |s| && s[i] in PasswordSpecials }

  /** `^(?=.*[A-Z])(?=.*\d)(?=.*[specials]).+` tested against the password. */
  predicate PasswordPatternHolds(password: string) {
    var line := FirstLine(password);
    HasUpper(line) && HasDigit(line) && HasSpecial(line) && |line| >= 1
  }

  /** The password rule. ADMIN: a missing password is one issue; otherwise the
      composition and the length issues are independent and may both appear.
      Other roles: a non-empty password is refused. */
  function PasswordIssues(role: Role, password: Option<string>): (r: seq<Issue>)
    ensures role == Admin && !Truthy(password) ==> r == [AdminPasswordRequired]
    ensures role == Admin && Truthy(password) ==>
      (PasswordComposition in r <==> !PasswordPatternHolds(password.value))
      && (PasswordTooShort in r <==> JsLength(password.value) < 24)
      && AdminPasswordRequired !in r
    ensures role != Admin ==> (r == [PasswordOnlyForAdmins] <==> Truthy(password)) && (r == [] <==> !Truthy(password))
    ensures r == [] <==> if role == Admin then Truthy(password) && PasswordPatternHolds(password.value) && JsLength(password.value) >= 24
                         else !Truthy(password)
  {
    if role == Admin then
      if !Truthy(password) then [AdminPasswordRequired]
      else
        (if PasswordPatternHolds(password.value) then [] else [PasswordComposition])
        + (if JsLength(password.value) < 24 then [PasswordTooShort] else [])
    else if Truthy(password) then [PasswordOnlyForAdmins]
    else []
  }

  /** All issues of the `.check` step, CPF first. */
  function CheckIssues(role: Role, taxpayerId: Option<string>, password: Option<string>): seq<Issue> {
    CpfIssues(role, taxpayerId) + PasswordIssues(role, password)
  }

  datatype UserFormValues = UserFormValues(name: string, email: string, role: Role,
                                           status: ActivationStatus, taxpayerId: string, password: string)

  /** `.transform`: the CPF is kept for ADMIN/USER and the password for ADMIN
      only; everything not kept becomes ''. */
  function Transform(name: string, email: string, role: Role, status: ActivationStatus,
                     taxpayerId: Option<string>, password: Option<string>): (v: UserFormValues)
    ensures v.name == name && v.email == email && v.role == role && v.status == status
    ensures v.taxpayerId == (if role != Api then taxpayerId.GetOr("") else "")
    ensures role != Admin ==> v.password == ""
    ensures role == Admin ==> v.password == password.GetOr("")
  {
    UserFormValues(name, email, role, status,
                   if role == Admin || role == User then taxpayerId.GetOr("") else "",
                   if role == Admin then password.GetOr("") else "")
  }

  /** A form the check lets through transforms into values whose CPF is valid
      and, for an ADMIN, whose password is at least 24 long and has the three
      required character kinds; a USER has no password. */
  lemma AcceptedFormIsWellFormed(name: string, email: string, role: Role, status: ActivationStatus,
                                 taxpayerId: Option<string>, password: Option<string>)
    requires role != Api
    requires CheckIssues(role, taxpayerId, password) == []
    ensures var v := Transform(name, email, role, status, taxpayerId, password);
      IsValidCpf(v.taxpayerId) && |v.taxpayerId| == 11
      && (role == Admin ==> JsLength(v.password) >= 24 && PasswordPatternHolds(v.password))
      && (role == User ==> v.password == "")
  {
    assert CpfIssues(role, taxpayerId) == [];
    assert PasswordIssues(role, password) == [];
  }

  /** sanitizePassword. */
  function SanitizePassword(role: Role, password: Option<string>): (r: Option<string>)
    ensures role != Admin ==> r.None?
    ensures role == Admin && !Truthy(password) ==> r.None?
    ensures role == Admin && Truthy(password) ==> r == password
    ensures r != Some("")
  {
    if role != Admin then None
    else if !Truthy(password) then None
    else password
  }

  lemma SanitizePasswordIdempotent(role: Role, password: Option<string>)
    ensures SanitizePassword(role, SanitizePassword(role, password)) == SanitizePassword(role, password)
  {
  }

  datatype FormField = NameField | EmailField | PasswordField | RoleField | StatusField | TaxpayerIdField

  /** The role selector offers all three roles, API included. */
  const RoleOptions: seq<Role> := [Admin, User, Api]

  /** The schema rejects one of the roles the form offers. */
  lemma FormOffersRoleSchemaRejects()
    ensures Api in RoleOptions && ParseFormRole(RoleName(Api)).None?
  {
  }

  /** The `fields` memo: the four base fields, the password spliced in at
      index 2 for ADMIN, and the CPF pushed at the end for ADMIN and USER. */
  method FormFields(currentRole: Role) returns (fields: seq<FormField>)
    ensures currentRole == Admin ==> fields == [NameField, EmailField, PasswordField, RoleField, StatusField, TaxpayerIdField]
    ensures currentRole == User ==> fields == [NameField, EmailField, RoleField, StatusField, TaxpayerIdField]
    ensures currentRole == Api ==> fields == [NameField, EmailField, RoleField, StatusField]
  {
    fields := [NameField, EmailField, RoleField, StatusField];
    if currentRole == Admin {
      fields := fields[..2] + [PasswordField] + fields[2..];
    }
    if currentRole == Admin || currentRole == User {
      fields := fields + [TaxpayerIdField];
    }
  }

  /** The form asks for a password exactly when the schema demands one, and
      for a CPF exactly when the schema checks it. */
  lemma FormFieldsMatchSchema(role: Role, fields: seq<FormField>, taxpayerId: Option<string>, password: Option<string>)
    requires role == Admin ==> fields == [NameField, EmailField, PasswordField, RoleField, StatusField, TaxpayerIdField]
    requires role == User ==> fields == [NameField, EmailField, RoleField, StatusField, TaxpayerIdField]
    requires role == Api ==> fields == [NameField, EmailField, RoleField, StatusField]
    ensures (PasswordField in fields) <==> role == Admin
    ensures (TaxpayerIdField !in fields) ==> CpfIssues(role, taxpayerId) == []
    ensures role == Admin && !Truthy(password) ==> AdminPasswordRequired in PasswordIssues(role, password)
  {
  }

  /** A row of the user table as the availability query sees it. */
  datatype PersonRow = PersonRow(id: int, taxpayerId: string)

  datatype Availability = Availability(available: bool, message: Option<string>)

  /** `findFirst({ taxpayerId, id: { not: excludeUserId } })`: the exclusion
      applies only when excludeUserId is truthy (present and not 0). */
  predicate CpfTakenBy(row: PersonRow, cpf: string, excludeUserId: Option<int>) {
    row.taxpayerId == cpf && (excludeUserId.Some? && excludeUserId.value != 0 ==> row.id != excludeUserId.value)
  }

  function CpfTaken(rows: seq<PersonRow>, cpf: string, excludeUserId: Option<int>): (r: bool)
    ensures r <==> exists i :: 0 <= i < |rows| && CpfTakenBy(rows[i], cpf, excludeUserId)
  {
    if rows == [] then false
    else
      assert forall i :: 1 <= i < |rows| ==> rows[i] == rows[1..][i - 1];
      CpfTakenBy(rows[0], cpf, excludeUserId) || CpfTaken(rows[1..], cpf, excludeUserId)
  }

  const AvailabilityBadCpf := "CPF deve conter 11 dígitos numéricos"
  const AvailabilityInUse := "CPF já está em uso"

  /** checkTaxpayerIdAvailability: an ADMIN session is required; the input is
      normalised before the role is looked at, and anything that is not a valid
      eleven-digit CPF is unavailable; a missing role or one that needs no CPF
      is available without a lookup; otherwise the CPF is available exactly
      when no other user holds it. */
  function CheckTaxpayerIdAvailability(session: Option<SessionUser>, taxpayerId: string, role: Option<Role>,
                                       excludeUserId: Option<int>, rows: seq<PersonRow>): (r: Outcome<Availability>)
    ensures RequireSession(session, [Admin]).Threw? ==> r == Threw(RequireSession(session, [Admin]).status)
    ensures r.Returned? ==> RequireSession(session, [Admin]).Returned?
    ensures r.Returned? && !(IsValidCpf(DigitsOnly(taxpayerId)) && |DigitsOnly(taxpayerId)| == 11) ==>
      r.value == Availability(false, Some(AvailabilityBadCpf))
    ensures r.Returned? && IsValidCpf(DigitsOnly(taxpayerId)) && |DigitsOnly(taxpayerId)| == 11 ==>
      r.value == if role.None? || role.value == Api then Availability(true, None)
                 else if CpfTaken(rows, DigitsOnly(taxpayerId), excludeUserId) then Availability(false, Some(AvailabilityInUse))
                 else Availability(true, None)
  {
    match RequireSession(session, [Admin])
    case Threw(status) => Threw(status)
    case Returned(_) =>
      var clean := NormalizeDocument(taxpayerId);
      if clean.None? || |clean.value| != 11 then Returned(Availability(false, Some(AvailabilityBadCpf)))
      else if role.None? || role.value == Api then Returned(Availability(true, None))
      else if CpfTaken(rows, clean.value, excludeUserId) then Returned(Availability(false, Some(AvailabilityInUse)))
      else Returned(Availability(true, None))
  }

  /** A valid CNPJ normalises, yet the availability check still refuses it. */
  lemma AvailabilityRefusesCnpj(session: Option<SessionUser>, taxpayerId: string, role: Option<Role>,
                                excludeUserId: Option<int>, rows: seq<PersonRow>)
    requires RequireSession(session, [Admin]).Returned?
    requires |DigitsOnly(taxpayerId)| == 14 && IsValidCnpj(DigitsOnly(taxpayerId))
    ensures NormalizeDocument(taxpayerId).Some?
    ensures CheckTaxpayerIdAvailability(session, taxpayerId, role, excludeUserId, rows)
      == Returned(Availability(false, Some(AvailabilityBadCpf)))
  {
    CpfOrCnpjDispatch(taxpayerId);
  }
}
