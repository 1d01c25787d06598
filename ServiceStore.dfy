/** The service catalogue and its server actions
    (app/settings/tariffs/service/actions/service-actions.ts). A service's
    code is unique in the store: looking one up by code is a unique lookup,
    and the table keeps that key. */
module ServiceStore {
  import opened Common
  import opened JsText
  import opened Users
  import opened Session
  import opened TariffStore

  const CodeAndNameRequired := "Código e nome são obrigatórios"
  const CodeTaken := "Já existe um serviço com esse código"
  const CodeTakenOnUpdate := "There is already a service with this code."
  const EmptyServiceList := "Lista de serviços vazia"

  /** The create form; a field is `None` when absent or not text. */
  datatype ServiceForm = ServiceForm(name: Option<string>, code: Option<string>)

  /** validateServiceFormData: both fields present and non-empty (blank text
      passes). */
  function ValidateServiceForm(form: ServiceForm): (r: Result<(string, string)>)
    ensures r.Ok? <==> Truthy(form.name) && Truthy(form.code)
    ensures r.Ok? ==> r.value == (form.name.value, form.code.value)
    ensures r.Err? ==> r.message == CodeAndNameRequired
  {
    if !Truthy(form.name) || !Truthy(form.code) then Err(CodeAndNameRequired)
    else Ok((form.name.value, form.code.value))
  }

  datatype UpdateServiceForm = UpdateServiceForm(name: Option<string>, code: Option<string>,
                                                 description: Option<string>, active: Option<string>)

  datatype ServiceUpdate = ServiceUpdate(name: string, code: string, description: Option<string>, active: bool)

  /** parseUpdateServiceFormData: an empty description is stored as none, and
      only the exact text `true` keeps a service active. */
  function ParseUpdateServiceForm(form: UpdateServiceForm): (r: Result<ServiceUpdate>)
    ensures r.Ok? <==> Truthy(form.name) && Truthy(form.code)
    ensures r.Err? ==> r.message == "Campos obrigatórios não preenchidos"
    ensures r.Ok? ==>
      r.value.name == form.name.value && r.value.code == form.code.value
      && (r.value.description.Some? <==> Truthy(form.description))
      && (r.value.description.Some? ==> r.value.description == form.description)
      && (r.value.active <==> form.active == Some("true"))
  {
    if !Truthy(form.name) || !Truthy(form.code) then Err("Campos obrigatórios não preenchidos")
    else Ok(ServiceUpdate(form.name.value, form.code.value,
                          if Truthy(form.description) then form.description else None,
                          form.active == Some("true")))
  }

  /** The position of the row with that code. */
  function FindCode(rows: seq<Service>, code: string): (r: Option<nat>)
    ensures r.Some? ==> r.value < |rows| && rows[r.value].code == code
    ensures r.None? <==> forall k :: 0 <= k < |rows| ==> rows[k].code != code
  {
    if rows == [] then None
    else if rows[0].code == code then Some(0)
    else match FindCode(rows[1..], code)
      case None => None
      case Some(k) => Some(k + 1)
  }

  function FindService(rows: seq<Service>, id: int): (r: Option<nat>)
    ensures r.Some? ==> r.value < |rows| && rows[r.value].id == id
    ensures r.None? <==> forall k :: 0 <= k < |rows| ==> rows[k].id != id
  {
    if rows == [] then None
    else if rows[0].id == id then Some(0)
    else match FindService(rows[1..], id)
      case None => None
      case Some(k) => Some(k + 1)
  }

  /** Another service than `id` already uses the code. */
  predicate CodeUsedByOther(rows: seq<Service>, code: string, id: int) {
    exists k :: 0 <= k < |rows| && rows[k].code == code && rows[k].id != id
  }

  /** One entry of bulkCreateServices; `None` for a missing field. */
  datatype BulkServiceInput = BulkServiceInput(code: Option<string>, name: Option<string>)

  /** `!s.code?.trim()`: missing, or nothing but white space. */
  predicate BlankField(value: Option<string>) { value.None? || IsBlank(value.value) }

  /** An entry with both a code and a name. */
  predicate Filled(item: BulkServiceInput) { !BlankField(item.code) && !BlankField(item.name) }

  /** The position, from `from` on, of the first entry without a code or a
      name. */
  function FirstBlankItem(items: seq<BulkServiceInput>, from: nat): (r: Option<nat>)
    requires from <= |items|
    ensures r.Some? ==> from <= r.value < |items| && !Filled(items[r.value])
                        && forall j :: from <= j < r.value ==> Filled(items[j])
    ensures r.None? <==> forall i :: from <= i < |items| ==> Filled(items[i])
  {
    FirstFailing(items, from, Filled)
  }

  /** The message for a blank entry, counted from one. */
  function BlankItemMessage(n: nat): string {
    "Serviço " + NatToString(n) + ": código e nome são obrigatórios"
  }

  /** validateBulkServiceInput from entry `from` on. */
  function ValidateBulkServiceInput(items: seq<BulkServiceInput>, from: nat): (err: Option<string>)
    requires from <= |items|
    ensures err.None? <==>
      (from > 0 || items != [])
      && forall i :: from <= i < |items| ==> Filled(items[i])
    ensures from == 0 && items == [] ==> err == Some(EmptyServiceList)
    ensures err.Some? && (from > 0 || items != []) ==>
      exists i :: from <= i < |items| && !Filled(items[i]) && (forall j :: from <= j < i ==> Filled(items[j]))
                  && err == Some(BlankItemMessage(i + 1))
  {
    if from == 0 && items == [] then Some(EmptyServiceList)
    else
      var first := FirstBlankItem(items, from);
      if first.None? then None
      else
        var err := Some(BlankItemMessage(first.value + 1));
        BlankWitness(items, from, first.value, err);
        err
  }

  lemma BlankWitness(items: seq<BulkServiceInput>, from: nat, i: nat, err: Option<string>)
    requires from <= i < |items| && !Filled(items[i]) && (forall j :: from <= j < i ==> Filled(items[j]))
    requires err == Some(BlankItemMessage(i + 1))
    ensures exists k :: from <= k < |items| && !Filled(items[k]) && (forall j :: from <= j < k ==> Filled(items[j]))
                        && err == Some(BlankItemMessage(k + 1))
  {
  }

  /** `services.map((s) => s.code.trim())`; validation has already refused a
      missing code. */
  function TrimmedCodes(items: seq<BulkServiceInput>): (codes: seq<string>)
    ensures |codes| == |items| && forall i :: 0 <= i < |items| ==> codes[i] == Trim(items[i].code.GetOr(""))
  {
    seq(|items|, i requires 0 <= i < |items| => Trim(items[i].code.GetOr("")))
  }

  /** findExistingServiceCodes: the stored services, in table order, whose code
      is one of `codes`. */
  function ExistingCodes(rows: seq<Service>, codes: seq<string>): (r: seq<Service>)
    ensures forall s :: s in r <==> s in rows && s.code in codes
  {
    if rows == [] then []
    else
      var rest := ExistingCodes(rows[1..], codes);
      assert forall s :: s in rows <==> s == rows[0] || s in rows[1..];
      if rows[0].code in codes then [rows[0]] + rest else rest
  }

  function Codes(services: seq<Service>): (codes: seq<string>)
    ensures |codes| == |services| && forall i :: 0 <= i < |services| ==> codes[i] == services[i].code
  {
    if services == [] then [] else [services[0].code] + Codes(services[1..])
  }

  datatype BulkServicesResult =
    | ServicesCreated
    | CodeConflicts(conflicts: seq<(string, string)>, message: string)

  /** The answer for codes already stored: each one's code and name, and a
      message listing the codes. */
  function ConflictReport(existing: seq<Service>): (r: BulkServicesResult)
    ensures r.CodeConflicts? && |r.conflicts| == |existing|
    ensures forall i :: 0 <= i < |existing| ==> r.conflicts[i] == (existing[i].code, existing[i].name)
    ensures r.message == "Códigos já existem: " + JoinWith(Codes(existing), ", ")
  {
    CodeConflicts(seq(|existing|, i requires 0 <= i < |existing| => (existing[i].code, existing[i].name)),
                  "Códigos já existem: " + JoinWith(Codes(existing), ", "))
  }

  /** Codes are distinct within the table. */
  predicate CodesDistinct(rows: seq<Service>) {
    forall j, k :: 0 <= j < k < |rows| ==> rows[j].code != rows[k].code
  }

  predicate ServiceIdsValid(rows: seq<Service>, nextId: nat) {
    (forall k :: 0 <= k < |rows| ==> 1 <= rows[k].id < nextId)
    && forall j, k :: 0 <= j < k < |rows| ==> rows[j].id != rows[k].id
  }

  /** A batch whose own entries repeat a code passes validateBulkServiceInput
      and the existing-code check: nothing before the insert compares the
      entries with each other. */
  lemma BatchDuplicatesPassChecks(code: string, name: string)
    requires !IsBlank(code) && !IsBlank(name)
    ensures
      var items := [BulkServiceInput(Some(code), Some(name)), BulkServiceInput(Some(code), Some(name))];
      ValidateBulkServiceInput(items, 0).None? && ExistingCodes([], TrimmedCodes(items)) == []
      && TrimmedCodes(items)[0] == TrimmedCodes(items)[1]
  {
    var item := BulkServiceInput(Some(code), Some(name));
    var items := [item, item];
    assert Filled(item);
    assert FirstBlankItem(items, 2) == None;
    assert FirstBlankItem(items, 1) == None;
    assert FirstBlankItem(items, 0) == None;
  }

  /** Trimmed codes of a batch with no repeated trimmed code. */
  predicate BatchCodesDistinct(codes: seq<string>) {
    forall i, j :: 0 <= i < j < |codes| ==> codes[i] != codes[j]
  }

  /** The trimmed names of a batch. */
  function TrimmedNames(items: seq<BulkServiceInput>): (names: seq<string>)
    ensures |names| == |items| && forall i :: 0 <= i < |items| ==> names[i] == Trim(items[i].name.GetOr(""))
  {
    seq(|items|, i requires 0 <= i < |items| => Trim(items[i].name.GetOr("")))
  }

  /** The rows a batch adds, with fresh ids from `nextId` and active. */
  function NewServices(codes: seq<string>, names: seq<string>, nextId: nat): (r: seq<Service>)
    requires |codes| == |names|
    ensures |r| == |codes|
    ensures forall i :: 0 <= i < |codes| ==> r[i] == Service(nextId + i, names[i], codes[i], None, true)
  {
    seq(|codes|, i requires 0 <= i < |codes| => Service(nextId + i, names[i], codes[i], None, true))
  }

  /** Appending a batch of fresh, distinct codes keeps ids and codes valid. */
  lemma AppendBatchKeepsValid(rows: seq<Service>, codes: seq<string>, names: seq<string>, nextId: nat)
    requires nextId >= 1 && ServiceIdsValid(rows, nextId) && CodesDistinct(rows)
    requires |codes| == |names| && BatchCodesDistinct(codes)
    requires forall k :: 0 <= k < |rows| ==> rows[k].code !in codes
    ensures ServiceIdsValid(rows + NewServices(codes, names, nextId), nextId + |codes|)
    ensures CodesDistinct(rows + NewServices(codes, names, nextId))
  {
    var added := NewServices(codes, names, nextId);
    var all := rows + added;
    forall j, k | 0 <= j < k < |all| ensures all[j].code != all[k].code && all[j].id != all[k].id {
      if j >= |rows| {
        assert all[j] == added[j - |rows|] && all[k] == added[k - |rows|];
      } else if k >= |rows| {
        assert all[k] == added[k - |rows|] && all[j] == rows[j];
        assert all[k].code == codes[k - |rows|];
      }
    }
    forall k | 0 <= k < |all| ensures 1 <= all[k].id < nextId + |codes| {
      if k >= |rows| { assert all[k] == added[k - |rows|]; }
    }
  }

  /** No stored service has a code of the batch when none was reported. */
  lemma NoneExisting(rows: seq<Service>, codes: seq<string>)
    requires ExistingCodes(rows, codes) == []
    ensures forall k :: 0 <= k < |rows| ==> rows[k].code !in codes
  {
    forall k | 0 <= k < |rows| ensures rows[k].code !in codes {
      assert rows[k] in rows;
    }
  }

  /** What the creates of a batch leave behind: the rows, the next id, and
      whether one of them failed. */
  datatype ServiceCreation = ServiceCreation(rows: seq<Service>, nextId: nat, failed: bool)

  /** The creates of a batch in list order, each stored active with the next
      id unless its code is already stored, which the unique code refuses; no
      transaction undoes the others. */
  function CreateEachService(rows: seq<Service>, nextId: nat, codes: seq<string>, names: seq<string>,
                             failed: bool): ServiceCreation
    requires |codes| == |names|
    decreases |codes|
  {
    if codes == [] then ServiceCreation(rows, nextId, failed)
    else if FindCode(rows, codes[0]).Some? then CreateEachService(rows, nextId, codes[1..], names[1..], true)
    else
      CreateEachService(rows + [Service(nextId, names[0], codes[0], None, true)], nextId + 1, codes[1..], names[1..], failed)
  }

  /** Appending one active service under a code not stored keeps ids fresh
      and codes unique. */
  lemma AppendOneKeepsValid(rows: seq<Service>, nextId: nat, code: string, name: string)
    requires nextId >= 1 && ServiceIdsValid(rows, nextId) && CodesDistinct(rows) && FindCode(rows, code).None?
    ensures ServiceIdsValid(rows + [Service(nextId, name, code, None, true)], nextId + 1)
    ensures CodesDistinct(rows + [Service(nextId, name, code, None, true)])
  {
    AppendBatchKeepsValid(rows, [code], [name], nextId);
    assert NewServices([code], [name], nextId) == [Service(nextId, name, code, None, true)];
  }

  /** A recorded failure stays recorded. */
  lemma {:induction false} ServiceFailureStays(rows: seq<Service>, nextId: nat, codes: seq<string>, names: seq<string>)
    requires |codes| == |names|
    ensures CreateEachService(rows, nextId, codes, names, true).failed
    decreases |codes|
  {
    if codes != [] {
      if FindCode(rows, codes[0]).Some? {
        ServiceFailureStays(rows, nextId, codes[1..], names[1..]);
      } else {
        ServiceFailureStays(rows + [Service(nextId, names[0], codes[0], None, true)], nextId + 1, codes[1..], names[1..]);
      }
    }
  }

  /** The creates only append, and keep ids fresh and codes unique. */
  lemma {:induction false} CreateEachServiceAppends(rows: seq<Service>, nextId: nat, codes: seq<string>, names: seq<string>,
                                                    failed: bool)
    requires nextId >= 1 && ServiceIdsValid(rows, nextId) && CodesDistinct(rows) && |codes| == |names|
    ensures var c := CreateEachService(rows, nextId, codes, names, failed);
      |c.rows| >= |rows| && c.rows[..|rows|] == rows && c.nextId == nextId + (|c.rows| - |rows|)
      && ServiceIdsValid(c.rows, c.nextId) && CodesDistinct(c.rows)
    decreases |codes|
  {
    if codes != [] {
      var whole := CreateEachService(rows, nextId, codes, names, failed);
      if FindCode(rows, codes[0]).Some? {
        SkipServiceStep(rows, nextId, codes, names, failed);
        CreateEachServiceAppends(rows, nextId, codes[1..], names[1..], true);
        assert whole == CreateEachService(rows, nextId, codes[1..], names[1..], true);
      } else {
        var t := Service(nextId, names[0], codes[0], None, true);
        CreateServiceStep(rows, nextId, codes, names, failed);
        AppendOneKeepsValid(rows, nextId, codes[0], names[0]);
        CreateEachServiceAppends(rows + [t], nextId + 1, codes[1..], names[1..], failed);
        PrefixOfLonger(whole.rows, rows, t);
      }
    }
  }

  /** A code stored before stays stored after appending. */
  lemma CodeStaysFound(rows: seq<Service>, t: Service, code: string)
    requires FindCode(rows, code).Some?
    ensures FindCode(rows + [t], code).Some?
  {
    var k := FindCode(rows, code).value;
    assert (rows + [t])[k] == rows[k];
  }

  /** A batch repeating a code, or naming one already stored, reports a
      failure: the second entry with a code finds it taken by the first. */
  lemma {:induction false} CreateEachServiceFails(rows: seq<Service>, nextId: nat, codes: seq<string>, names: seq<string>,
                                                  failed: bool)
    requires |codes| == |names|
    requires !BatchCodesDistinct(codes) || exists i :: 0 <= i < |codes| && FindCode(rows, codes[i]).Some?
    ensures CreateEachService(rows, nextId, codes, names, failed).failed
    decreases |codes|
  {
    if FindCode(rows, codes[0]).Some? {
      ServiceFailureStays(rows, nextId, codes[1..], names[1..]);
    } else {
      var t := Service(nextId, names[0], codes[0], None, true);
      var rows' := rows + [t];
      if i :| 0 <= i < |codes| && FindCode(rows, codes[i]).Some? {
        CodeStaysFound(rows, t, codes[i]);
        assert codes[1..][i - 1] == codes[i];
      } else {
        var i, j :| 0 <= i < j < |codes| && codes[i] == codes[j];
        if i == 0 {
          assert rows'[|rows|].code == codes[j];
          assert FindCode(rows', codes[j]).Some?;
          assert codes[1..][j - 1] == codes[j];
        } else {
          assert codes[1..][i - 1] == codes[i] && codes[1..][j - 1] == codes[j];
        }
      }
      CreateEachServiceFails(rows', nextId + 1, codes[1..], names[1..], failed);
    }
  }

  lemma NewServicesCons(codes: seq<string>, names: seq<string>, nextId: nat)
    requires |codes| == |names| && codes != []
    ensures NewServices(codes, names, nextId)
            == [Service(nextId, names[0], codes[0], None, true)] + NewServices(codes[1..], names[1..], nextId + 1)
  {
    var a := NewServices(codes, names, nextId);
    var b := [Service(nextId, names[0], codes[0], None, true)] + NewServices(codes[1..], names[1..], nextId + 1);
    forall i | 0 <= i < |a| ensures a[i] == b[i] {
      if i > 0 { assert b[i] == NewServices(codes[1..], names[1..], nextId + 1)[i - 1]; }
    }
  }

  /** Distinct codes none of which is stored are all stored, in order, with
      consecutive ids, and no failure is reported. */
  lemma {:induction false} CreateEachServiceStoresAll(rows: seq<Service>, nextId: nat, codes: seq<string>, names: seq<string>)
    requires |codes| == |names| && BatchCodesDistinct(codes)
    requires forall k :: 0 <= k < |rows| ==> rows[k].code !in codes
    ensures CreateEachService(rows, nextId, codes, names, false)
            == ServiceCreation(rows + NewServices(codes, names, nextId), nextId + |codes|, false)
    decreases |codes|
  {
    if codes != [] {
      var t := Service(nextId, names[0], codes[0], None, true);
      var rows' := rows + [t];
      assert FindCode(rows, codes[0]).None? by { assert codes[0] in codes; }
      CreateServiceStep(rows, nextId, codes, names, false);
      RestStayFresh(rows, t, codes);
      CreateEachServiceStoresAll(rows', nextId + 1, codes[1..], names[1..]);
      NewServicesCons(codes, names, nextId);
      AppendShift(rows, t, NewServices(codes[1..], names[1..], nextId + 1));
    }
  }

  /** A create whose code is not stored appends its service. */
  lemma CreateServiceStep(rows: seq<Service>, nextId: nat, codes: seq<string>, names: seq<string>, failed: bool)
    requires |codes| == |names| && codes != [] && FindCode(rows, codes[0]).None?
    ensures CreateEachService(rows, nextId, codes, names, failed)
            == CreateEachService(rows + [Service(nextId, names[0], codes[0], None, true)], nextId + 1, codes[1..], names[1..], failed)
  {
  }

  /** A create whose code is stored fails and stores nothing. */
  lemma SkipServiceStep(rows: seq<Service>, nextId: nat, codes: seq<string>, names: seq<string>, failed: bool)
    requires |codes| == |names| && codes != [] && FindCode(rows, codes[0]).Some?
    ensures CreateEachService(rows, nextId, codes, names, failed)
            == CreateEachService(rows, nextId, codes[1..], names[1..], true)
  {
  }

  lemma AppendShift<T>(a: seq<T>, x: T, b: seq<T>)
    ensures (a + [x]) + b == a + ([x] + b)
  {
  }

  /** Storing the first of distinct unstored codes leaves the others
      distinct and unstored. */
  lemma RestStayFresh(rows: seq<Service>, t: Service, codes: seq<string>)
    requires codes != [] && BatchCodesDistinct(codes) && t.code == codes[0]
    requires forall k :: 0 <= k < |rows| ==> rows[k].code !in codes
    ensures BatchCodesDistinct(codes[1..])
    ensures forall k :: 0 <= k < |rows + [t]| ==> (rows + [t])[k].code !in codes[1..]
  {
    var rows' := rows + [t];
    assert codes[0] !in codes[1..] by {
      forall j | 0 <= j < |codes[1..]| ensures codes[1..][j] != codes[0] { assert codes[1..][j] == codes[j + 1]; }
    }
    forall k | 0 <= k < |rows'| ensures rows'[k].code !in codes[1..] {
      if k < |rows| {
        assert rows'[k] == rows[k];
        assert forall c :: c in codes[1..] ==> c in codes;
      }
    }
  }

  class ServiceTable {
    var rows: seq<Service>
    var nextId: nat

    predicate Valid()
      reads this
    {
      nextId >= 1 && ServiceIdsValid(rows, nextId) && CodesDistinct(rows)
    }

    constructor ()
      ensures Valid() && rows == [] && nextId == 1
    {
      rows := [];
      nextId := 1;
    }

    /** createService: a taken code is refused; the new service is active. */
    method CreateService(session: Option<SessionUser>, form: ServiceForm) returns (r: Completion<Service>)
      requires Valid()
      modifies this
      ensures Valid()
      ensures r.Raised? ==> rows == old(rows) && nextId == old(nextId)
      ensures RequireSession(session, [Admin]).Threw? ==> r == Raised(Status(RequireSession(session, [Admin]).status))
      ensures RequireSession(session, [Admin]).Returned? && ValidateServiceForm(form).Err? ==>
        r == Raised(Message(CodeAndNameRequired))
      ensures (RequireSession(session, [Admin]).Returned? && ValidateServiceForm(form).Ok?
               && FindCode(old(rows), form.code.value).Some?) ==>
        r == Raised(Message(CodeTaken))
      ensures r.Completed? <==>
        RequireSession(session, [Admin]).Returned? && ValidateServiceForm(form).Ok?
        && FindCode(old(rows), form.code.value).None?
      ensures r.Completed? ==>
        r.value == Service(old(nextId), form.name.value, form.code.value, None, true)
        && rows == old(rows) + [r.value] && nextId == old(nextId) + 1
    {
      var gate := RequireSession(session, [Admin]);
      if gate.Threw? { return Raised(Status(gate.status)); }
      var fields := ValidateServiceForm(form);
      if fields.Err? { return Raised(Message(fields.message)); }
      if FindCode(rows, fields.value.1).Some? { return Raised(Message(CodeTaken)); }
      var s := Service(nextId, fields.value.0, fields.value.1, None, true);
      rows := rows + [s];
      nextId := nextId + 1;
      r := Completed(s);
    }

    /** updateService: a code used by another service is refused, an unknown
        id fails in the store; otherwise name, code, description and `active`
        of that row are replaced. */
    method UpdateService(session: Option<SessionUser>, id: int, form: UpdateServiceForm)
      returns (r: Completion<Service>)
      requires Valid()
      modifies this`rows
      ensures Valid()
      ensures r.Raised? ==> rows == old(rows)
      ensures RequireSession(session, [Admin]).Threw? ==> r == Raised(Status(RequireSession(session, [Admin]).status))
      ensures RequireSession(session, [Admin]).Returned? && ParseUpdateServiceForm(form).Err? ==>
        r == Raised(Message(ParseUpdateServiceForm(form).message))
      ensures (RequireSession(session, [Admin]).Returned? && ParseUpdateServiceForm(form).Ok?
               && CodeUsedByOther(old(rows), form.code.value, id)) ==>
        r == Raised(Message(CodeTakenOnUpdate))
      ensures (RequireSession(session, [Admin]).Returned? && ParseUpdateServiceForm(form).Ok?
               && !CodeUsedByOther(old(rows), form.code.value, id) && FindService(old(rows), id).None?) ==>
        r == Raised(StoreError) && rows == old(rows)
      ensures r.Completed? <==>
        RequireSession(session, [Admin]).Returned? && ParseUpdateServiceForm(form).Ok?
        && !CodeUsedByOther(old(rows), form.code.value, id) && FindService(old(rows), id).Some?
      ensures r.Completed? ==>
        var u := ParseUpdateServiceForm(form).value;
        var k := FindService(old(rows), id).value;
        r.value == old(rows)[k].(name := u.name, code := u.code, description := u.description, active := u.active)
        && rows == old(rows)[k := r.value]
    {
      var gate := RequireSession(session, [Admin]);
      if gate.Threw? { return Raised(Status(gate.status)); }
      var parsed := ParseUpdateServiceForm(form);
      if parsed.Err? { return Raised(Message(parsed.message)); }
      var u := parsed.value;
      if CodeUsedByOther(rows, u.code, id) { return Raised(Message(CodeTakenOnUpdate)); }
      var found := FindService(rows, id);
      if found.None? { return Raised(StoreError); }
      var k := found.value;
      var s := rows[k].(name := u.name, code := u.code, description := u.description, active := u.active);
      ghost var before := rows;
      rows := rows[k := s];
      forall j, l | 0 <= j < l < |rows| ensures rows[j].code != rows[l].code {
        if j == k { assert before[l].id != id; } else if l == k { assert before[j].id != id; }
      }
      r := Completed(s);
    }

    /** deleteService: a soft delete; the row stays and is marked inactive. */
    method DeleteService(session: Option<SessionUser>, id: int) returns (r: Completion<()>)
      requires Valid()
      modifies this`rows
      ensures Valid()
      ensures r.Raised? ==> rows == old(rows)
      ensures RequireSession(session, [Admin]).Threw? ==> r == Raised(Status(RequireSession(session, [Admin]).status))
      ensures RequireSession(session, [Admin]).Returned? && FindService(old(rows), id).None? ==> r == Raised(StoreError)
      ensures r.Completed? <==> RequireSession(session, [Admin]).Returned? && FindService(old(rows), id).Some?
      ensures r.Completed? ==>
        var k := FindService(old(rows), id).value;
        rows == old(rows)[k := old(rows)[k].(active := false)] && |rows| == |old(rows)|
    {
      var gate := RequireSession(session, [Admin]);
      if gate.Threw? { return Raised(Status(gate.status)); }
      var found := FindService(rows, id);
      if found.None? { return Raised(StoreError); }
      var k := found.value;
      rows := rows[k := rows[k].(active := false)];
      r := Completed(());
    }

    /** bulkCreateServices: after validation, codes already stored stop the
        batch and are reported; otherwise every entry is created on its own,
        trimmed and active, with no transaction: a code the batch repeats is
        refused by the unique code after its first entry is stored, and the
        action then throws with the other rows kept. */
    method BulkCreateServices(session: Option<SessionUser>, items: seq<BulkServiceInput>)
      returns (r: Completion<BulkServicesResult>)
      requires Valid()
      modifies this
      ensures Valid()
      ensures |rows| >= |old(rows)| && rows[..|old(rows)|] == old(rows)
      ensures RequireSession(session, [Admin]).Threw? ==>
        r == Raised(Status(RequireSession(session, [Admin]).status)) && rows == old(rows) && nextId == old(nextId)
      ensures RequireSession(session, [Admin]).Returned? && ValidateBulkServiceInput(items, 0).Some? ==>
        r == Raised(Message(ValidateBulkServiceInput(items, 0).value)) && rows == old(rows) && nextId == old(nextId)
      ensures r.Completed? && r.value.CodeConflicts? ==>
        ExistingCodes(old(rows), TrimmedCodes(items)) != []
        && r.value == ConflictReport(ExistingCodes(old(rows), TrimmedCodes(items)))
        && rows == old(rows) && nextId == old(nextId)
      ensures (RequireSession(session, [Admin]).Returned? && ValidateBulkServiceInput(items, 0).None?
               && ExistingCodes(old(rows), TrimmedCodes(items)) == []) ==>
        var c := CreateEachService(old(rows), old(nextId), TrimmedCodes(items), TrimmedNames(items), false);
        rows == c.rows && nextId == c.nextId
        && r == (if c.failed then Raised(StoreError) else Completed(ServicesCreated))
        && (r == Completed(ServicesCreated) <==> BatchCodesDistinct(TrimmedCodes(items)))
      ensures r.Completed? && r.value.ServicesCreated? ==>
        ExistingCodes(old(rows), TrimmedCodes(items)) == [] && BatchCodesDistinct(TrimmedCodes(items))
        && rows == old(rows) + NewServices(TrimmedCodes(items), TrimmedNames(items), old(nextId)) && nextId == old(nextId) + |items|
    {
      var gate := RequireSession(session, [Admin]);
      if gate.Threw? { return Raised(Status(gate.status)); }
      var err := ValidateBulkServiceInput(items, 0);
      if err.Some? { return Raised(Message(err.value)); }
      var codes := TrimmedCodes(items);
      var names := TrimmedNames(items);
      var existing := ExistingCodes(rows, codes);
      if existing != [] {
        return Completed(ConflictReport(existing));
      }
      NoneExisting(rows, codes);
      if BatchCodesDistinct(codes) {
        CreateEachServiceStoresAll(rows, nextId, codes, names);
      } else {
        CreateEachServiceFails(rows, nextId, codes, names, false);
      }
      var failed := CreateEntries(codes, names);
      r := if failed then Raised(StoreError) else Completed(ServicesCreated);
    }

    /** The concurrent creates of bulkCreateServices, in list order. */
    method CreateEntries(codes: seq<string>, names: seq<string>) returns (failed: bool)
      requires Valid() && |codes| == |names|
      modifies this
      ensures Valid()
      ensures var c := CreateEachService(old(rows), old(nextId), codes, names, false);
        rows == c.rows && nextId == c.nextId && failed == c.failed
      ensures |rows| >= |old(rows)| && rows[..|old(rows)|] == old(rows)
    {
      ghost var c := CreateEachService(rows, nextId, codes, names, false);
      failed := false;
      var i := 0;
      while i < |codes|
        invariant 0 <= i <= |codes|
        invariant Valid()
        invariant CreateEachService(rows, nextId, codes[i..], names[i..], failed) == c
        invariant |rows| >= |old(rows)| && rows[..|old(rows)|] == old(rows)
      {
        assert codes[i..][1..] == codes[i + 1..] && names[i..][1..] == names[i + 1..];
        if FindCode(rows, codes[i]).Some? {
          failed := true;
        } else {
          var s := Service(nextId, names[i], codes[i], None, true);
          AppendOneKeepsValid(rows, nextId, codes[i], names[i]);
          assert (rows + [s])[..|old(rows)|] == rows[..|old(rows)|];
          rows := rows + [s];
          nextId := nextId + 1;
        }
        i := i + 1;
      }
      assert codes[i..] == [] && names[i..] == [];
    }
  }
}
