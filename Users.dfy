/** The versioned user table (`userHistory`) and the two lookups made of it:
    by row id for the payment ceremony, and by e-mail for sign-in. Only the
    TOTP columns are ever updated by the modelled code, so only they are `var`. */
module Users {
  import opened Common
  import opened JsText

  datatype Role = Admin | User | Api
  datatype ActivationStatus = Active | Inactive

  /** The enum value as stored in a JWT claim. */
  function RoleName(r: Role): string {
    match r
    case Admin => "ADMIN"
    case User => "USER"
    case Api => "API"
  }

  /** isRecognizedRole as a parser: a claim names a role exactly when it is one
      of the three enum values. */
  function ParseRole(claim: Option<string>): (r: Option<Role>)
    ensures r.Some? <==> (claim.Some? && claim.value in {"ADMIN", "USER", "API"})
    ensures r.Some? ==> RoleName(r.value) == claim.value
  {
    if claim == Some("ADMIN") then Some(Admin)
    else if claim == Some("USER") then Some(User)
    else if claim == Some("API") then Some(Api)
    else None
  }

  lemma ParseRoleName(r: Role)
    ensures ParseRole(Some(RoleName(r))) == Some(r)
  {
  }

  class UserHistory {
    const id: int
    const email: string
    const name: string
    const role: Role
    const status: ActivationStatus
    const version: int
    const passwordHash: Option<string>
    var totpSecret: Option<string>
    var totpEnabled: bool
    var totpVerifiedAt: Option<int>

    constructor (id: int, email: string, name: string, role: Role, status: ActivationStatus,
                 version: int, passwordHash: Option<string>)
      ensures this.id == id && this.email == email && this.name == name && this.role == role
      ensures this.status == status && this.version == version && this.passwordHash == passwordHash
      ensures totpSecret.None? && !totpEnabled && totpVerifiedAt.None?
    {
      this.id := id;
      this.email := email;
      this.name := name;
      this.role := role;
      this.status := status;
      this.version := version;
      this.passwordHash := passwordHash;
      totpSecret := None;
      totpEnabled := false;
      totpVerifiedAt := None;
    }
  }

  /** isAdmin: a row is present and its role is ADMIN. */
  predicate IsAdmin(history: Option<UserHistory>) {
    history.Some? && history.value.role == Admin
  }

  /** Whoever fetchHistoryById reports as an admin has a non-zero id, the
      query succeeded, and the table holds an ACTIVE ADMIN row with that id;
      no history at all is never an admin. */
  lemma AdminHasActiveAdminRow(table: seq<UserHistory>, id: int, queryFails: bool)
    ensures !IsAdmin(None)
    ensures IsAdmin(FetchHistoryById(table, id, queryFails)) ==>
      id != 0 && !queryFails
      && exists i :: 0 <= i < |table| && table[i].id == id && table[i].status == Active && table[i].role == Admin
  {
    var h := FetchHistoryById(table, id, queryFails);
    if IsAdmin(h) {
      var i :| 0 <= i < |table| && table[i] == h.value;
    }
  }

  /** fetchHistoryById: a falsy id (0) yields null without a query, a failing
      query yields null, otherwise the first ACTIVE row with that id. */
  function FetchHistoryById(table: seq<UserHistory>, id: int, queryFails: bool): (r: Option<UserHistory>)
    ensures id == 0 || queryFails ==> r.None?
    ensures r.Some? ==> r.value in table && r.value.id == id && r.value.status == Active
    ensures r.None? && id != 0 && !queryFails ==>
      forall i :: 0 <= i < |table| ==> !(table[i].id == id && table[i].status == Active)
  {
    if id == 0 || queryFails then None else FirstActiveWithId(table, id)
  }

  function FirstActiveWithId(table: seq<UserHistory>, id: int): (r: Option<UserHistory>)
    ensures r.Some? ==> r.value in table && r.value.id == id && r.value.status == Active
    ensures r.None? ==> forall i :: 0 <= i < |table| ==> !(table[i].id == id && table[i].status == Active)
  {
    if table == [] then None
    else if table[0].id == id && table[0].status == Active then Some(table[0])
    else FirstActiveWithId(table[1..], id)
  }

  predicate ActiveWithEmail(h: UserHistory, email: string) {
    h.email == email && h.status == Active
  }

  /** `findFirst({ email, status: 'ACTIVE' }, orderBy version desc)`: the ACTIVE
      row of that e-mail with the highest version (the first such on ties). */
  function LatestActiveByEmail(table: seq<UserHistory>, email: string): (r: Option<UserHistory>)
    ensures r.Some? ==> r.value in table && ActiveWithEmail(r.value, email)
    ensures r.Some? ==> forall i :: 0 <= i < |table| && ActiveWithEmail(table[i], email) ==> table[i].version <= r.value.version
    ensures r.None? <==> forall i :: 0 <= i < |table| ==> !ActiveWithEmail(table[i], email)
  {
    if table == [] then None
    else
      var rest := LatestActiveByEmail(table[1..], email);
      assert forall i :: 1 <= i < |table| ==> table[i] == table[1..][i - 1];
      if !ActiveWithEmail(table[0], email) then rest
      else if rest.Some? && rest.value.version > table[0].version then rest
      else Some(table[0])
  }

  /** A form value is missing when absent or blank once trimmed. */
  predicate MissingValue(value: Option<string>) {
    value.None? || IsBlank(value.value)
  }

  /** `${key} é obrigatório` */
  function RequiredMessage(key: string): string { key + " é obrigatório" }

  /** The position, from `from` on, of the first missing value. */
  function FirstMissing(fields: seq<(string, Option<string>)>, from: nat): (r: Option<nat>)
    requires from <= |fields|
    ensures r.Some? ==> from <= r.value < |fields| && MissingValue(fields[r.value].1)
                        && forall j :: from <= j < r.value ==> !MissingValue(fields[j].1)
    ensures r.None? <==> forall i :: from <= i < |fields| ==> !MissingValue(fields[i].1)
    decreases |fields| - from
  {
    if from == |fields| then None
    else if MissingValue(fields[from].1) then Some(from)
    else FirstMissing(fields, from + 1)
  }

  /** validateRequired: no message when every value is present and not blank;
      otherwise the message names the first missing key in entry order. */
  function ValidateRequired(fields: seq<(string, Option<string>)>): (r: Option<string>)
    ensures r.None? <==> forall i :: 0 <= i < |fields| ==> !MissingValue(fields[i].1)
    ensures r.Some? ==>
      exists i :: 0 <= i < |fields| && MissingValue(fields[i].1)
        && (forall j :: 0 <= j < i ==> !MissingValue(fields[j].1))
        && r.value == RequiredMessage(fields[i].0)
  {
    match FirstMissing(fields, 0)
    case None => None
    case Some(i) => Some(RequiredMessage(fields[i].0))
  }

  /** The two-entry form every server action uses. */
  lemma ValidateRequiredPair(k1: string, v1: Option<string>, k2: string, v2: Option<string>)
    ensures ValidateRequired([(k1, v1), (k2, v2)]) ==
      if MissingValue(v1) then Some(RequiredMessage(k1))
      else if MissingValue(v2) then Some(RequiredMessage(k2))
      else None
  {
    var fields := [(k1, v1), (k2, v2)];
    assert FirstMissing(fields, 2) == None;
    assert FirstMissing(fields, 1) == if MissingValue(v2) then Some(1) else None;
    assert FirstMissing(fields, 0) == if MissingValue(v1) then Some(0) else FirstMissing(fields, 1);
  }

  /** A whitespace-only value counts as missing, whatever whitespace it uses. */
  lemma ValidateRequiredRejectsWhitespace(key: string, value: string)
    requires AllSpaces(value)
    ensures ValidateRequired([(key, Some(value))]) == Some(RequiredMessage(key))
  {
    BlankIffAllSpaces(value);
  }
}
