/** Managing API tokens (app/settings/tokens): creating one, switching it on
    and off, and the status badge of the token list. The random secret and
    its bcrypt hash come from outside the model (parameters), and so does the
    verdict of lib/highSecurityAuthenticator.ts, which is not part of this
    model: an `Err` there is thrown on with its message. */
module Tokens {
  import opened Common
  import opened JsText
  import opened ApiAuth

  const NameRequired := "Nome é obrigatório"
  const NameTooLong := "Nome deve ter no máximo 25 caracteres"
  const InvalidTokenId := "ID do token inválido"
  const TokenNotFound := "Token não encontrado"

  /** validateTokenName; `None` is a form value that is not a string. */
  function ValidateTokenName(name: Option<string>): (r: Result<string>)
    ensures r.Ok? <==> name.Some? && !IsBlank(name.value) && JsLength(Trim(name.value)) <= 25
    ensures r.Ok? ==> r.value == Trim(name.value) && 1 <= |r.value| <= JsLength(r.value) <= 25
    ensures (name.None? || IsBlank(name.value)) ==> r == Err(NameRequired)
    ensures (name.Some? && !IsBlank(name.value) && JsLength(Trim(name.value)) > 25) ==> r == Err(NameTooLong)
  {
    if name.None? || IsBlank(name.value) then Err(NameRequired)
    else if JsLength(Trim(name.value)) > 25 then Err(NameTooLong)
    else Ok(Trim(name.value))
  }

  /** validateTokenId: `parseInt`, refusing NaN. */
  function ValidateTokenId(tokenId: string): (r: Result<int>)
    ensures r.Ok? <==> ParseInt(tokenId).Some?
    ensures r.Ok? ==> r.value == ParseInt(tokenId).value
    ensures r.Err? ==> r.message == InvalidTokenId
  {
    match ParseInt(tokenId)
    case None => Err(InvalidTokenId)
    case Some(id) => Ok(id)
  }

  /** `crypto.randomBytes(32).toString('hex')`: 64 lower-case hex digits. */
  predicate IsHexSecret(secret: string) {
    |secret| == 64 && forall i :: 0 <= i < |secret| ==> IsDigit(secret[i]) || 'a' <= secret[i] <= 'f'
  }

  /** The row with that id, whether active or not (findUnique by id). */
  function FindToken(rows: seq<ApiTokenRow>, id: int): (r: Option<nat>)
    ensures r.Some? ==> r.value < |rows| && rows[r.value].id == id
    ensures r.None? ==> forall k :: 0 <= k < |rows| ==> rows[k].id != id
  {
    if rows == [] then None
    else if rows[0].id == id then Some(0)
    else match FindToken(rows[1..], id)
      case None => None
      case Some(k) => Some(k + 1)
  }

  /** The table after flipping `active` of every row with that id. */
  function Toggled(rows: seq<ApiTokenRow>, id: int): (r: seq<ApiTokenRow>)
    ensures |r| == |rows|
    ensures forall k :: 0 <= k < |rows| ==>
      r[k] == if rows[k].id == id then rows[k].(active := !rows[k].active) else rows[k]
  {
    if rows == [] then []
    else [if rows[0].id == id then rows[0].(active := !rows[0].active) else rows[0]] + Toggled(rows[1..], id)
  }

  /** Toggling twice restores the table. */
  lemma ToggledTwice(rows: seq<ApiTokenRow>, id: int)
    ensures Toggled(Toggled(rows, id), id) == rows
  {
    var r := Toggled(Toggled(rows, id), id);
    assert |r| == |rows|;
    forall k | 0 <= k < |rows| ensures r[k] == rows[k] {
    }
  }

  /** Ids are distinct and below the next id the table hands out. */
  predicate IdsFresh(rows: seq<ApiTokenRow>, nextId: nat) {
    forall k :: 0 <= k < |rows| ==> rows[k].id < nextId
  }

  predicate IdsDistinct(rows: seq<ApiTokenRow>) {
    forall j, k :: 0 <= j < k < |rows| ==> rows[j].id != rows[k].id
  }

  lemma AppendFreshKeepsValid(rows: seq<ApiTokenRow>, nextId: nat, row: ApiTokenRow)
    requires IdsFresh(rows, nextId) && IdsDistinct(rows) && row.id == nextId
    ensures IdsFresh(rows + [row], nextId + 1) && IdsDistinct(rows + [row])
  {
  }

  /** A hex secret holds no '.', so the issued `<id>.<secret>` parses back. */
  lemma HexSecretParses(id: nat, secret: string)
    requires IsHexSecret(secret)
    ensures ParseToken(NatToString(id) + "." + secret) == Some(ParsedToken(id, secret))
  {
    assert '.' !in secret by {
      assert forall i :: 0 <= i < |secret| ==> secret[i] != '.';
    }
    ParseFormattedToken(id, secret);
  }

  class TokenTable {
    var rows: seq<ApiTokenRow>
    var nextId: nat

    predicate Valid()
      reads this
    {
      IdsFresh(rows, nextId) && IdsDistinct(rows)
    }

    constructor ()
      ensures Valid() && rows == [] && nextId == 1
    {
      rows := [];
      nextId := 1;
    }

    /** createApiToken: only the hash is stored, the new token is active and
        never expires, and the caller gets `<id>.<secret>`, which parseToken
        reads back as this row's id and the secret. */
    method CreateApiToken(authentication: Result<()>, name: Option<string>, secret: string, hash: string -> string)
      returns (r: Result<string>)
      requires Valid() && IsHexSecret(secret)
      modifies this
      ensures Valid()
      ensures authentication.Err? ==> r == Err(authentication.message) && rows == old(rows) && nextId == old(nextId)
      ensures authentication.Ok? && ValidateTokenName(name).Err? ==>
        r == Err(ValidateTokenName(name).message) && rows == old(rows) && nextId == old(nextId)
      ensures authentication.Ok? && ValidateTokenName(name).Ok? ==>
        rows == old(rows) + [ApiTokenRow(old(nextId), ValidateTokenName(name).value, hash(secret), None, true)]
        && nextId == old(nextId) + 1
        && r == Ok(NatToString(old(nextId)) + "." + secret)
        && ParseToken(r.value) == Some(ParsedToken(old(nextId), secret))
    {
      if authentication.Err? { return Err(authentication.message); }
      var validated := ValidateTokenName(name);
      if validated.Err? { return Err(validated.message); }
      var id := nextId;
      var row := ApiTokenRow(id, validated.value, hash(secret), None, true);
      AppendFreshKeepsValid(rows, nextId, row);
      rows := rows + [row];
      nextId := nextId + 1;
      HexSecretParses(id, secret);
      r := Ok(NatToString(id) + "." + secret);
    }

    /** toggleApiToken: a NaN id and a missing row throw; otherwise `active` of
        that row is flipped and nothing else changes. */
    method ToggleApiToken(authentication: Result<()>, tokenId: string) returns (r: Result<()>)
      requires Valid()
      modifies this`rows
      ensures Valid()
      ensures authentication.Err? ==> r == Err(authentication.message) && rows == old(rows)
      ensures authentication.Ok? && ParseInt(tokenId).None? ==> r == Err(InvalidTokenId) && rows == old(rows)
      ensures (authentication.Ok? && ParseInt(tokenId).Some?
               && FindToken(old(rows), ParseInt(tokenId).value).None?) ==>
        r == Err(TokenNotFound) && rows == old(rows)
      ensures r.Ok? <==>
        authentication.Ok? && ParseInt(tokenId).Some? && FindToken(old(rows), ParseInt(tokenId).value).Some?
      ensures r.Ok? ==> rows == Toggled(old(rows), ParseInt(tokenId).value)
    {
      if authentication.Err? { return Err(authentication.message); }
      var id := ValidateTokenId(tokenId);
      if id.Err? { return Err(id.message); }
      if FindToken(rows, id.value).None? { return Err(TokenNotFound); }
      rows := Toggled(rows, id.value);
      r := Ok(());
    }
  }

  datatype BadgeVariant = Default | Secondary | Destructive | Outline

  /** getStatusColor. `active` is `None` when the row has no value; only an
      explicit `false` is inactive. */
  function StatusColor(active: Option<bool>, expiresAt: Option<int>, now: int): (v: BadgeVariant)
    ensures v != Outline
    ensures v == Destructive <==> StatusText(active, expiresAt, now) == "Inativo"
    ensures v == Secondary <==> StatusText(active, expiresAt, now) == "Expirado"
  {
    if active == Some(false) then Destructive
    else if expiresAt.Some? && expiresAt.value < now then Secondary
    else Default
  }

  /** getStatusText: "Expirado" is shown for a token that verification had
      already refused a millisecond earlier; a token with no expiry is never
      shown as expired. */
  function StatusText(active: Option<bool>, expiresAt: Option<int>, now: int): (text: string)
    ensures text in ["Inativo", "Expirado", "Ativo"]
    ensures text == "Inativo" <==> active == Some(false)
    ensures text == "Expirado" <==> active != Some(false) && IsTokenExpired(expiresAt, now - 1)
    ensures expiresAt.None? ==> text != "Expirado"
  {
    if active == Some(false) then "Inativo"
    else if expiresAt.Some? && expiresAt.value < now then "Expirado"
    else "Ativo"
  }

  /** The badge colour and its text always agree, and each is decided by the
      same conditions: inactive first, then strictly past its expiry. */
  lemma StatusColorMatchesText(active: Option<bool>, expiresAt: Option<int>, now: int)
    ensures StatusColor(active, expiresAt, now) == Destructive <==> StatusText(active, expiresAt, now) == "Inativo"
    ensures StatusColor(active, expiresAt, now) == Secondary <==> StatusText(active, expiresAt, now) == "Expirado"
    ensures StatusColor(active, expiresAt, now) == Default <==> StatusText(active, expiresAt, now) == "Ativo"
    ensures StatusColor(active, expiresAt, now) != Outline
    ensures StatusColor(active, expiresAt, now) == Destructive <==> active == Some(false)
    ensures StatusColor(active, expiresAt, now) == Secondary <==>
      active != Some(false) && expiresAt.Some? && expiresAt.value < now
  {
  }

  /** At the exact instant of expiry the list still shows the token as active
      while verification already refuses it. */
  lemma StatusAndVerificationDisagreeAtExpiry(t: int)
    ensures StatusText(Some(true), Some(t), t) == "Ativo"
    ensures IsTokenExpired(Some(t), t)
  {
  }
}
