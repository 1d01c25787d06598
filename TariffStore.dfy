/** The service-tariff table and the server actions that change it
    (app/settings/tariffs/utils/validators.ts, utils/tariff-helpers.ts and
    service-tariff/actions/tariff-actions.ts). A tariff is valid from
    `validFrom` and, when it has one, up to `validTo` (instants in
    milliseconds). Prices are integer cents. Parsing a price or a date from
    form text is an oracle (`None` for NaN or an invalid date). The table is a
    sequence in storage order; a query without `orderBy` returns rows in that
    order. */
module TariffStore {
  import opened Common
  import opened JsText
  import opened Users
  import opened Session

  const MsPerDay := 86400000

  /** `new Date('2099-12-31')`: UTC midnight of that day. */
  const FarFuture := 4102358400000

  datatype Tariff = Tariff(id: nat, serviceId: int, unitPrice: int, validFrom: int, validTo: Option<int>,
                           adjustmentPercent: Option<real>, previousTariffId: Option<nat>)

  datatype Service = Service(id: nat, name: string, code: string, description: Option<string>, active: bool)

  /** Why an action stopped: a thrown response with a status, an `Error` with
      a message, or a failure inside the database call. */
  datatype Failure = Status(code: int) | Message(text: string) | StoreError

  datatype Completion<T> = Completed(value: T) | Raised(failure: Failure)

  /** calculatePreviousDayEnd: 23:59:59.999 of the UTC day before `t`'s. */
  function PreviousDayEnd(t: int): (r: int)
    ensures r < t && t - r <= MsPerDay
    ensures (r + 1) % MsPerDay == 0
    ensures r + 1 <= t < r + 1 + MsPerDay
  {
    (t / MsPerDay) * MsPerDay - 1
  }

  /** A tariff that started earlier on the same UTC day as the new one ends,
      once closed, before it began. */
  lemma ClosingSameDayInvertsInterval(validFrom: int, newFrom: int)
    requires validFrom < newFrom && validFrom / MsPerDay == newFrom / MsPerDay
    ensures PreviousDayEnd(newFrom) < validFrom
  {
  }

  /** buildOverlappingQuery: same service, started before the new start, and
      not ended before it. */
  predicate Overlaps(t: Tariff, serviceId: int, newFrom: int) {
    t.serviceId == serviceId && t.validFrom < newFrom && (t.validTo.None? || t.validTo.value >= newFrom)
  }

  /** The row after closing it for a tariff starting at `newFrom`. */
  function Close(t: Tariff, serviceId: int, newFrom: int): Tariff {
    if Overlaps(t, serviceId, newFrom) then t.(validTo := Some(PreviousDayEnd(newFrom))) else t
  }

  /** The table after closing every overlapping tariff: those end at the end of
      the previous UTC day, every other row is unchanged, and afterwards no
      row overlaps the new start. */
  function ClosedOverlaps(rows: seq<Tariff>, serviceId: int, newFrom: int): (r: seq<Tariff>)
    ensures |r| == |rows|
    ensures forall k :: 0 <= k < |rows| && Overlaps(rows[k], serviceId, newFrom) ==>
      r[k] == rows[k].(validTo := Some(PreviousDayEnd(newFrom)))
    ensures forall k :: 0 <= k < |rows| && !Overlaps(rows[k], serviceId, newFrom) ==> r[k] == rows[k]
    ensures forall k :: 0 <= k < |r| ==> !Overlaps(r[k], serviceId, newFrom)
  {
    if rows == [] then [] else [Close(rows[0], serviceId, newFrom)] + ClosedOverlaps(rows[1..], serviceId, newFrom)
  }

  /** The position of the first overlapping tariff. */
  function FirstOverlap(rows: seq<Tariff>, serviceId: int, newFrom: int): (r: Option<nat>)
    ensures r.Some? ==> r.value < |rows| && Overlaps(rows[r.value], serviceId, newFrom)
    ensures r.Some? ==> forall k :: 0 <= k < r.value ==> !Overlaps(rows[k], serviceId, newFrom)
    ensures r.None? <==> forall k :: 0 <= k < |rows| ==> !Overlaps(rows[k], serviceId, newFrom)
  {
    if rows == [] then None
    else if Overlaps(rows[0], serviceId, newFrom) then Some(0)
    else match FirstOverlap(rows[1..], serviceId, newFrom)
      case None => None
      case Some(k) => Some(k + 1)
  }

  /** `overlappingTariffs[0]?.id || null`: an id of 0 would read as none. */
  function FirstOverlapId(rows: seq<Tariff>, serviceId: int, newFrom: int): Option<nat> {
    match FirstOverlap(rows, serviceId, newFrom)
    case None => None
    case Some(k) => if rows[k].id == 0 then None else Some(rows[k].id)
  }

  /** The unique key the duplicate-start error reports: one tariff per
      service and start. */
  predicate StartTaken(rows: seq<Tariff>, serviceId: int, validFrom: int) {
    exists k :: 0 <= k < |rows| && rows[k].serviceId == serviceId && rows[k].validFrom == validFrom
  }

  /** The form of createServiceTariff, each field `None` when absent or not text. */
  datatype TariffForm = TariffForm(serviceId: Option<string>, unitPrice: Option<string>, validFrom: Option<string>,
                                   validTo: Option<string>)

  /** A parsed form. `validTo` is `None` when absent and `Some(None)` when the
      text is not a date, which the parser does not check. */
  datatype ParsedTariff = ParsedTariff(serviceId: int, unitPrice: int, validFrom: int, validTo: Option<Option<int>>)

  const RequiredFieldsMissing := "Campos obrigatórios não preenchidos"
  const InvalidServiceId := "ID do serviço inválido"
  const NegativeUnitPrice := "Preço unitário deve ser um valor não negativo"
  const InvalidStartDate := "Data de início inválida"

  /** parseServiceTariffFormData */
  function ParseServiceTariffForm(form: TariffForm, parseCents: string -> Option<int>,
                                  parseDate: string -> Option<int>): (r: Result<ParsedTariff>)
    ensures !Truthy(form.serviceId) || !Truthy(form.unitPrice) || !Truthy(form.validFrom) ==>
      r == Err(RequiredFieldsMissing)
    ensures r.Ok? <==>
      Truthy(form.serviceId) && Truthy(form.unitPrice) && Truthy(form.validFrom)
      && ParseInt(form.serviceId.value).Some? && ParseInt(form.serviceId.value).value > 0
      && parseCents(form.unitPrice.value).Some? && parseCents(form.unitPrice.value).value >= 0
      && parseDate(form.validFrom.value).Some?
    ensures r.Ok? ==>
      r.value.serviceId == ParseInt(form.serviceId.value).value && r.value.serviceId > 0
      && r.value.unitPrice == parseCents(form.unitPrice.value).value && r.value.unitPrice >= 0
      && r.value.validFrom == parseDate(form.validFrom.value).value
      && (r.value.validTo.None? <==> !Truthy(form.validTo))
      && (r.value.validTo.Some? ==> r.value.validTo.value == parseDate(form.validTo.value))
  {
    if !Truthy(form.serviceId) || !Truthy(form.unitPrice) || !Truthy(form.validFrom) then Err(RequiredFieldsMissing)
    else
      var serviceId := ParseInt(form.serviceId.value);
      var unitPrice := parseCents(form.unitPrice.value);
      var validFrom := parseDate(form.validFrom.value);
      var validTo := if Truthy(form.validTo) then Some(parseDate(form.validTo.value)) else None;
      if serviceId.None? || serviceId.value <= 0 then Err(InvalidServiceId)
      else if unitPrice.None? || unitPrice.value < 0 then Err(NegativeUnitPrice)
      else if validFrom.None? then Err(InvalidStartDate)
      else Ok(ParsedTariff(serviceId.value, unitPrice.value, validFrom.value, validTo))
  }

  const DuplicateStart := "Já existe uma tarifa para este serviço com a mesma data de início"
  const FillRequiredFields := "Preencha todos os campos obrigatórios"
  const CreateTariffFailed := "Erro ao criar tarifa. Tente novamente."

  /** The message createServiceTariff returns for a parse error: only the
      missing-fields error names "Campos obrigatórios". */
  function CreateErrorFor(parseError: string): string {
    if parseError == RequiredFieldsMissing then FillRequiredFields else CreateTariffFailed
  }

  /** The update form: price, start and end. */
  datatype UpdateForm = UpdateForm(unitPrice: Option<string>, validFrom: Option<string>, validTo: Option<string>)

  datatype ParsedUpdate = ParsedUpdate(unitPrice: int, validFrom: int, validTo: Option<Option<int>>)

  /** parseUpdateTariffFormData: only NaN is refused, so a negative price
      passes. */
  function ParseUpdateTariffForm(form: UpdateForm, parseCents: string -> Option<int>,
                                 parseDate: string -> Option<int>): (r: Result<ParsedUpdate>)
    ensures r.Ok? <==>
      Truthy(form.unitPrice) && Truthy(form.validFrom)
      && parseCents(form.unitPrice.value).Some? && parseDate(form.validFrom.value).Some?
    ensures r.Ok? ==>
      r.value.unitPrice == parseCents(form.unitPrice.value).value
      && r.value.validFrom == parseDate(form.validFrom.value).value
      && (r.value.validTo.None? <==> !Truthy(form.validTo))
      && (r.value.validTo.Some? ==> r.value.validTo.value == parseDate(form.validTo.value))
    ensures !Truthy(form.unitPrice) || !Truthy(form.validFrom) ==> r == Err("Required fields missing")
    ensures Truthy(form.unitPrice) && Truthy(form.validFrom) && r.Err? ==> r == Err("Invalid field values")
  {
    if !Truthy(form.unitPrice) || !Truthy(form.validFrom) then Err("Required fields missing")
    else
      var unitPrice := parseCents(form.unitPrice.value);
      var validFrom := parseDate(form.validFrom.value);
      var validTo := if Truthy(form.validTo) then Some(parseDate(form.validTo.value)) else None;
      if unitPrice.None? || validFrom.None? then Err("Invalid field values")
      else Ok(ParsedUpdate(unitPrice.value, validFrom.value, validTo))
  }

  /** A negative price is accepted on update (the create form refuses it). */
  lemma UpdateAcceptsNegativePrice(form: UpdateForm, parseCents: string -> Option<int>,
                                   parseDate: string -> Option<int>)
    requires Truthy(form.unitPrice) && Truthy(form.validFrom) && parseDate(form.validFrom.value).Some?
    requires parseCents(form.unitPrice.value) == Some(-100)
    ensures ParseUpdateTariffForm(form, parseCents, parseDate).Ok?
    ensures ParseServiceTariffForm(TariffForm(Some("1"), form.unitPrice, form.validFrom, form.validTo),
                                   parseCents, parseDate) == Err(NegativeUnitPrice)
  {
    ParseIntNatToString(1);
  }

  /** checkTariffConflict: another tariff of the service whose closed validity
      interval meets `[validFrom, validTo]`, an open end reaching 2099-12-31. */
  predicate Conflicts(t: Tariff, serviceId: int, id: int, validFrom: int, validTo: Option<int>) {
    t.serviceId == serviceId && t.id != id
    && t.validFrom <= (if validTo.Some? then validTo.value else FarFuture)
    && (t.validTo.None? || t.validTo.value >= validFrom)
  }

  predicate HasConflict(rows: seq<Tariff>, serviceId: int, id: int, validFrom: int, validTo: Option<int>) {
    exists k :: 0 <= k < |rows| && Conflicts(rows[k], serviceId, id, validFrom, validTo)
  }

  /** The position of the row with that id. */
  function FindTariff(rows: seq<Tariff>, id: int): (r: Option<nat>)
    ensures r.Some? ==> r.value < |rows| && rows[r.value].id == id
    ensures r.None? <==> forall k :: 0 <= k < |rows| ==> rows[k].id != id
  {
    if rows == [] then None
    else if rows[0].id == id then Some(0)
    else match FindTariff(rows[1..], id)
      case None => None
      case Some(k) => Some(k + 1)
  }

  /** `findMany` under getAvailableServices: some tariff whose span meets
      `[validFrom, validTo ?? 2099-12-31]`. */
  predicate Priced(rows: seq<Tariff>, serviceId: int, validFrom: int, validTo: Option<int>) {
    exists k :: 0 <= k < |rows| && rows[k].serviceId == serviceId
      && rows[k].validFrom <= (if validTo.Some? then validTo.value else FarFuture)
      && (rows[k].validTo.None? || rows[k].validTo.value >= validFrom)
  }

  function NameOf(s: Service): string { s.name }

  /** The services of `xs`, in their order, that are active and that no
      tariff covers during the requested span; a list sorted by name stays
      sorted. */
  function Offered(xs: seq<Service>, rows: seq<Tariff>, validFrom: int, validTo: Option<int>,
                   nameLe: (string, string) -> bool): (r: seq<Service>)
    ensures forall s :: s in r <==> s in xs && s.active && !Priced(rows, s.id, validFrom, validTo)
    ensures |r| <= |xs|
    ensures SortedOn(xs, NameOf, nameLe) ==> SortedOn(r, NameOf, nameLe)
    ensures Subsequence(r, xs)
  {
    if xs == [] then []
    else
      var rest := Offered(xs[1..], rows, validFrom, validTo, nameLe);
      assert forall s :: s in xs <==> s == xs[0] || s in xs[1..];
      if xs[0].active && !Priced(rows, xs[0].id, validFrom, validTo) then
        assert SortedOn(xs, NameOf, nameLe) ==> SortedOn([xs[0]] + rest, NameOf, nameLe) by {
          if SortedOn(xs, NameOf, nameLe) {
            assert SortedOn(xs[1..], NameOf, nameLe);
            SortedKeepHead(xs, rest, NameOf, nameLe);
          }
        }
        assert ([xs[0]] + rest)[1..] == rest;
        [xs[0]] + rest
      else
        assert rest != [] ==> rest[0] in rest && rest[0] != xs[0];
        rest
  }

  /** Each offered service comes back as many times as the list holds it. */
  lemma {:induction false} OfferedCount(xs: seq<Service>, rows: seq<Tariff>, validFrom: int, validTo: Option<int>,
                                        nameLe: (string, string) -> bool, x: Service)
    ensures multiset(Offered(xs, rows, validFrom, validTo, nameLe))[x]
      == if x.active && !Priced(rows, x.id, validFrom, validTo) then multiset(xs)[x] else 0
  {
    if xs != [] {
      OfferedCount(xs[1..], rows, validFrom, validTo, nameLe, x);
      var rest := Offered(xs[1..], rows, validFrom, validTo, nameLe);
      assert Offered(xs, rows, validFrom, validTo, nameLe)
        == if xs[0].active && !Priced(rows, xs[0].id, validFrom, validTo) then [xs[0]] + rest else rest;
      assert multiset(xs) == multiset{xs[0]} + multiset(xs[1..]) by {
        assert xs == [xs[0]] + xs[1..];
      }
    }
  }

  /** getAvailableServices: only an ADMIN session; then the active services
      in name order (`orderBy: { name: 'asc' }`, the database's collation
      being `nameLe`) without those a tariff covers during the requested
      span. */
  function AvailableServices(session: Option<SessionUser>, services: seq<Service>, rows: seq<Tariff>, validFrom: int,
                             validTo: Option<int>, nameLe: (string, string) -> bool): (r: Completion<seq<Service>>)
    ensures r.Raised? <==> RequireSession(session, [Admin]).Threw?
    ensures r.Raised? ==> r == Raised(Status(RequireSession(session, [Admin]).status))
    ensures r.Completed? ==>
      (forall s :: s in r.value <==> s in services && s.active && !Priced(rows, s.id, validFrom, validTo))
      && |r.value| <= |services|
      && (TotalPreorder(nameLe) ==> SortedOn(r.value, NameOf, nameLe))
  {
    var gate := RequireSession(session, [Admin]);
    if gate.Threw? then Raised(Status(gate.status))
    else
      var sorted := SortOn(services, NameOf, nameLe);
      SortOnMembers(services, NameOf, nameLe);
      assert |sorted| == |multiset(sorted)| == |services|;
      Completed(Offered(sorted, rows, validFrom, validTo, nameLe))
  }

  /** One entry of a bulk update. `unitPrice` is `None` when it is not a
      number. */
  datatype BulkUpdate = BulkUpdate(serviceId: int, unitPrice: Option<int>, validFrom: string, validTo: Option<string>,
                                   adjustmentPercent: Option<real>, previousTariffId: Option<nat>)

  function ItemError(index: nat, text: string): string { "Item " + NatToString(index + 1) + ": " + text }

  /** validateBulkUpdateItem, for the entry at `index` (messages count from 1). */
  function BulkItemError(u: BulkUpdate, index: nat, parseDate: string -> Option<int>): (err: Option<string>)
    ensures err.None? <==>
      u.serviceId > 0 && u.unitPrice.Some? && u.unitPrice.value >= 0 && parseDate(u.validFrom).Some?
      && (Truthy(u.validTo) ==> parseDate(u.validTo.value).Some?
                                && parseDate(u.validTo.value).value > parseDate(u.validFrom).value)
  {
    if u.serviceId <= 0 then Some(ItemError(index, "ID do serviço inválido"))
    else if u.unitPrice.None? || u.unitPrice.value < 0 then Some(ItemError(index, "Preço unitário deve ser não negativo"))
    else if parseDate(u.validFrom).None? then Some(ItemError(index, "Data de início inválida"))
    else if Truthy(u.validTo) then
      if parseDate(u.validTo.value).None? then Some(ItemError(index, "Data de término inválida"))
      else if parseDate(u.validTo.value).value <= parseDate(u.validFrom).value then
        Some(ItemError(index, "Data de término deve ser posterior"))
      else None
    else None
  }

  /** The first failing entry from `from` on, in list order. */
  function FirstBulkError(updates: seq<BulkUpdate>, from: nat, parseDate: string -> Option<int>): (err: Option<string>)
    requires from <= |updates|
    ensures err.None? <==> forall i :: from <= i < |updates| ==> BulkItemError(updates[i], i, parseDate).None?
    ensures err.Some? ==>
      exists i :: from <= i < |updates| && err == BulkItemError(updates[i], i, parseDate)
                  && forall j :: from <= j < i ==> BulkItemError(updates[j], j, parseDate).None?
    decreases |updates| - from
  {
    if from == |updates| then None
    else if BulkItemError(updates[from], from, parseDate).Some? then BulkItemError(updates[from], from, parseDate)
    else FirstBulkError(updates, from + 1, parseDate)
  }

  const NoUpdates := "Nenhuma atualização fornecida"

  /** validateBulkUpdates: an empty list, or the first failing entry. */
  function ValidateBulkUpdates(updates: seq<BulkUpdate>, parseDate: string -> Option<int>): (err: Option<string>)
    ensures updates == [] ==> err == Some(NoUpdates)
    ensures err.None? <==>
      updates != [] && forall i :: 0 <= i < |updates| ==> BulkItemError(updates[i], i, parseDate).None?
  {
    if updates == [] then Some(NoUpdates) else FirstBulkError(updates, 0, parseDate)
  }

  /** Every entry of a validated batch has a price. */
  lemma ValidUpdatesPriced(updates: seq<BulkUpdate>, parseDate: string -> Option<int>)
    requires ValidateBulkUpdates(updates, parseDate).None?
    ensures forall i :: 0 <= i < |updates| ==> updates[i].unitPrice.Some?
  {
    assert forall i :: 0 <= i < |updates| ==> BulkItemError(updates[i], i, parseDate).None?;
  }

  /** parseBulkDates: the first entry's dates serve the whole batch. */
  datatype BulkDates = BulkDates(validFrom: int, validTo: Option<int>, closeAt: int)

  function ParseBulkDates(updates: seq<BulkUpdate>, parseDate: string -> Option<int>): (d: BulkDates)
    requires ValidateBulkUpdates(updates, parseDate).None?
    ensures d.validFrom == parseDate(updates[0].validFrom).value && d.closeAt == PreviousDayEnd(d.validFrom)
    ensures d.validTo.Some? <==> Truthy(updates[0].validTo)
    ensures d.validTo.Some? ==> d.validTo.value == parseDate(updates[0].validTo.value).value && d.validTo.value > d.validFrom
  {
    assert BulkItemError(updates[0], 0, parseDate).None?;
    var validFrom := parseDate(updates[0].validFrom).value;
    var validTo := if Truthy(updates[0].validTo) then Some(parseDate(updates[0].validTo.value).value) else None;
    BulkDates(validFrom, validTo, PreviousDayEnd(validFrom))
  }

  function ServiceIds(updates: seq<BulkUpdate>): (ids: set<int>)
    ensures forall i :: 0 <= i < |updates| ==> updates[i].serviceId in ids
    ensures forall s :: s in ids ==> exists i :: 0 <= i < |updates| && updates[i].serviceId == s
  {
    set i | 0 <= i < |updates| :: updates[i].serviceId
  }

  /** closeExistingTariffs: every row of a listed service that overlaps the
      batch start ends at `closeAt`. */
  function CloseForBatch(rows: seq<Tariff>, serviceIds: set<int>, dates: BulkDates): (r: seq<Tariff>)
    ensures |r| == |rows|
    ensures forall k :: 0 <= k < |rows| ==>
      r[k] == if rows[k].serviceId in serviceIds && Overlaps(rows[k], rows[k].serviceId, dates.validFrom)
              then rows[k].(validTo := Some(dates.closeAt)) else rows[k]
  {
    if rows == [] then []
    else
      var t := rows[0];
      [if t.serviceId in serviceIds && Overlaps(t, t.serviceId, dates.validFrom) then t.(validTo := Some(dates.closeAt)) else t]
      + CloseForBatch(rows[1..], serviceIds, dates)
  }

  /** The rows createNewTariff adds, one per entry in order, with fresh ids
      from `nextId` and the batch's dates. */
  function BatchRows(updates: seq<BulkUpdate>, nextId: nat, dates: BulkDates): (r: seq<Tariff>)
    requires forall i :: 0 <= i < |updates| ==> updates[i].unitPrice.Some?
    ensures |r| == |updates|
    ensures forall i :: 0 <= i < |updates| ==>
      r[i] == Tariff(nextId + i, updates[i].serviceId, updates[i].unitPrice.value, dates.validFrom, dates.validTo,
                     updates[i].adjustmentPercent, updates[i].previousTariffId)
  {
    if updates == [] then []
    else
      [Tariff(nextId, updates[0].serviceId, updates[0].unitPrice.value, dates.validFrom, dates.validTo,
              updates[0].adjustmentPercent, updates[0].previousTariffId)]
      + BatchRows(updates[1..], nextId + 1, dates)
  }

  /** After a batch, no tariff of a listed service that began before the
      batch start is still open at it. */
  lemma BatchLeavesNoOverlap(rows: seq<Tariff>, updates: seq<BulkUpdate>, dates: BulkDates, s: int)
    requires s in ServiceIds(updates) && dates.closeAt == PreviousDayEnd(dates.validFrom)
    ensures forall k :: 0 <= k < |rows| ==> !Overlaps(CloseForBatch(rows, ServiceIds(updates), dates)[k], s, dates.validFrom)
  {
  }

  /** The batch's inserts would break the unique key: an entry's service
      already has a row starting at the batch start, or two entries name the
      same service (all of them start at the batch start). */
  predicate BatchKeyClash(rows: seq<Tariff>, updates: seq<BulkUpdate>, validFrom: int) {
    (exists i :: 0 <= i < |updates| && StartTaken(rows, updates[i].serviceId, validFrom))
    || exists i, j :: 0 <= i < j < |updates| && updates[i].serviceId == updates[j].serviceId
  }

  /** The batch rows keep the key unique exactly when there is no clash. */
  lemma BatchKeysUniqueIff(rows: seq<Tariff>, updates: seq<BulkUpdate>, nextId: nat, dates: BulkDates)
    requires forall i :: 0 <= i < |updates| ==> updates[i].unitPrice.Some?
    requires KeysUnique(rows)
    ensures KeysUnique(rows + BatchRows(updates, nextId, dates)) <==> !BatchKeyClash(rows, updates, dates.validFrom)
  {
    if BatchKeyClash(rows, updates, dates.validFrom) {
      ClashBreaksKeys(rows, updates, nextId, dates);
    } else {
      NoClashKeepsKeys(rows, updates, nextId, dates);
    }
  }

  lemma ClashBreaksKeys(rows: seq<Tariff>, updates: seq<BulkUpdate>, nextId: nat, dates: BulkDates)
    requires forall i :: 0 <= i < |updates| ==> updates[i].unitPrice.Some?
    requires BatchKeyClash(rows, updates, dates.validFrom)
    ensures !KeysUnique(rows + BatchRows(updates, nextId, dates))
  {
    if i :| 0 <= i < |updates| && StartTaken(rows, updates[i].serviceId, dates.validFrom) {
      var k :| 0 <= k < |rows| && rows[k].serviceId == updates[i].serviceId && rows[k].validFrom == dates.validFrom;
      BatchRowClashes(rows, updates, nextId, dates, k, i);
    } else {
      var i, j :| 0 <= i < j < |updates| && updates[i].serviceId == updates[j].serviceId;
      BatchRowsClash(rows, updates, nextId, dates, i, j);
    }
  }

  /** Entry `i` starts where row `k` of its service already starts. */
  lemma BatchRowClashes(rows: seq<Tariff>, updates: seq<BulkUpdate>, nextId: nat, dates: BulkDates, k: nat, i: nat)
    requires forall i :: 0 <= i < |updates| ==> updates[i].unitPrice.Some?
    requires k < |rows| && i < |updates| && rows[k].serviceId == updates[i].serviceId && rows[k].validFrom == dates.validFrom
    ensures !KeysUnique(rows + BatchRows(updates, nextId, dates))
  {
    var added := BatchRows(updates, nextId, dates);
    assert (rows + added)[k] == rows[k] && (rows + added)[|rows| + i] == added[i];
    SameKeyBreaksKeys(rows + added, k, |rows| + i);
  }

  /** Entries `i` and `j` name the same service. */
  lemma BatchRowsClash(rows: seq<Tariff>, updates: seq<BulkUpdate>, nextId: nat, dates: BulkDates, i: nat, j: nat)
    requires forall i :: 0 <= i < |updates| ==> updates[i].unitPrice.Some?
    requires i < j < |updates| && updates[i].serviceId == updates[j].serviceId
    ensures !KeysUnique(rows + BatchRows(updates, nextId, dates))
  {
    var added := BatchRows(updates, nextId, dates);
    assert (rows + added)[|rows| + i] == added[i] && (rows + added)[|rows| + j] == added[j];
    SameKeyBreaksKeys(rows + added, |rows| + i, |rows| + j);
  }

  lemma SameKeyBreaksKeys(all: seq<Tariff>, a: nat, b: nat)
    requires a < b < |all| && all[a].serviceId == all[b].serviceId && all[a].validFrom == all[b].validFrom
    ensures !KeysUnique(all)
  {
  }

  lemma NoClashKeepsKeys(rows: seq<Tariff>, updates: seq<BulkUpdate>, nextId: nat, dates: BulkDates)
    requires forall i :: 0 <= i < |updates| ==> updates[i].unitPrice.Some?
    requires KeysUnique(rows) && !BatchKeyClash(rows, updates, dates.validFrom)
    ensures KeysUnique(rows + BatchRows(updates, nextId, dates))
  {
    var added := BatchRows(updates, nextId, dates);
    var all := rows + added;
    forall a, b | 0 <= a < b < |all| ensures all[a].serviceId != all[b].serviceId || all[a].validFrom != all[b].validFrom {
      if b < |rows| {
        assert all[a] == rows[a] && all[b] == rows[b];
      } else if a < |rows| {
        assert all[a] == rows[a] && all[b] == added[b - |rows|];
        assert !StartTaken(rows, updates[b - |rows|].serviceId, dates.validFrom);
      } else {
        assert all[a] == added[a - |rows|] && all[b] == added[b - |rows|];
      }
    }
  }

  /** One entry of bulkCreateServiceTariffs. */
  datatype BulkTariffInput = BulkTariffInput(serviceId: int, unitPrice: int, validFrom: string, validTo: Option<string>)

  function TariffError(index: nat, text: string): string { "Tarifa " + NatToString(index + 1) + ": " + text }

  /** validateBulkTariffInput: an empty list, then per entry in order a zero
      service, a negative price or an empty start. */
  function ValidateBulkTariffInput(items: seq<BulkTariffInput>, from: nat): (err: Option<string>)
    requires from <= |items|
    ensures err.None? <==>
      (from > 0 || items != [])
      && forall i :: from <= i < |items| ==> items[i].serviceId != 0 && items[i].unitPrice >= 0 && items[i].validFrom != ""
    ensures from == 0 && items == [] ==> err == Some("Lista de tarifas vazia")
    decreases |items| - from
  {
    if from == 0 && items == [] then Some("Lista de tarifas vazia")
    else if from == |items| then None
    else if items[from].serviceId == 0 then Some(TariffError(from, "serviço é obrigatório"))
    else if items[from].unitPrice < 0 then Some(TariffError(from, "valor inválido"))
    else if items[from].validFrom == "" then Some(TariffError(from, "data início é obrigatória"))
    else ValidateBulkTariffInput(items, from + 1)
  }

  /** The tariffs of a listed service still in force at `now` or later, in
      storage order. */
  function InForceFrom(rows: seq<Tariff>, serviceIds: set<int>, now: int): (r: seq<Tariff>)
    ensures forall t :: t in r <==> t in rows && t.serviceId in serviceIds && (t.validTo.None? || t.validTo.value >= now)
  {
    if rows == [] then []
    else
      var rest := InForceFrom(rows[1..], serviceIds, now);
      assert forall t :: t in rows <==> t == rows[0] || t in rows[1..];
      var t := rows[0];
      if t.serviceId in serviceIds && (t.validTo.None? || t.validTo.value >= now) then [t] + rest else rest
  }

  function StartOf(t: Tariff): int { t.validFrom }

  /** `orderBy: { validFrom: 'desc' }` */
  function LaterOrSame(a: int, b: int): bool { a >= b }

  lemma LaterOrSameIsPreorder()
    ensures TotalPreorder(LaterOrSame)
  {
  }

  /** findExistingTariffs: the tariffs of a listed service still in force at
      `now` or later, latest start first. */
  function ExistingTariffs(rows: seq<Tariff>, serviceIds: set<int>, now: int): (r: seq<Tariff>)
    ensures forall t :: t in r <==> t in rows && t.serviceId in serviceIds && (t.validTo.None? || t.validTo.value >= now)
    ensures forall i, j :: 0 <= i < j < |r| ==> r[i].validFrom >= r[j].validFrom
  {
    var kept := InForceFrom(rows, serviceIds, now);
    SortOnMembers(kept, StartOf, LaterOrSame);
    LaterOrSameIsPreorder();
    var r := SortOn(kept, StartOf, LaterOrSame);
    assert forall i, j :: 0 <= i < j < |r| ==> LaterOrSame(StartOf(r[i]), StartOf(r[j]));
    r
  }

  function InputIds(items: seq<BulkTariffInput>): set<int> {
    set i | 0 <= i < |items| :: items[i].serviceId
  }

  /** One reported conflict: the tariff's service, that service's code, the
      tariff's price and its validity. */
  datatype TariffConflict = TariffConflict(serviceId: int, serviceCode: string, existingPrice: int,
                                           validFrom: int, validTo: Option<int>)

  datatype BulkCreateResult = BulkCreated | BulkConflicts(conflicts: seq<TariffConflict>, message: string)

  function ConflictCodes(conflicts: seq<TariffConflict>): (codes: seq<string>)
    ensures |codes| == |conflicts| && forall i :: 0 <= i < |conflicts| ==> codes[i] == conflicts[i].serviceCode
  {
    if conflicts == [] then [] else [conflicts[0].serviceCode] + ConflictCodes(conflicts[1..])
  }

  /** The answer for tariffs still in force, in the order found: each one's
      service, the code `codeOf` gives that service (the `service` the query
      includes), its price and dates, and a message listing those codes. */
  function TariffConflictReport(existing: seq<Tariff>, codeOf: int -> string): (r: BulkCreateResult)
    ensures r.BulkConflicts? && |r.conflicts| == |existing|
    ensures forall i :: 0 <= i < |existing| ==>
      r.conflicts[i] == TariffConflict(existing[i].serviceId, codeOf(existing[i].serviceId), existing[i].unitPrice,
                                       existing[i].validFrom, existing[i].validTo)
    ensures r.message == "Tarifas já existem para: " + JoinWith(ConflictCodes(r.conflicts), ", ")
  {
    var conflicts := seq(|existing|, i requires 0 <= i < |existing| =>
      TariffConflict(existing[i].serviceId, codeOf(existing[i].serviceId), existing[i].unitPrice,
                     existing[i].validFrom, existing[i].validTo));
    BulkConflicts(conflicts, "Tarifas já existem para: " + JoinWith(ConflictCodes(conflicts), ", "))
  }

  /** One create of bulkCreateServiceTariffs fails on its own when its start,
      or an end it gives, is not a date, when its service is not stored, or
      when its service and start are already taken. */
  predicate CreateFails(rows: seq<Tariff>, it: BulkTariffInput, services: set<int>, parseDate: string -> Option<int>) {
    parseDate(it.validFrom).None? || (Truthy(it.validTo) && parseDate(it.validTo.value).None?)
    || it.serviceId !in services || StartTaken(rows, it.serviceId, parseDate(it.validFrom).value)
  }

  /** The row a create stores. */
  function CreatedRow(it: BulkTariffInput, id: nat, parseDate: string -> Option<int>): Tariff
    requires parseDate(it.validFrom).Some?
  {
    Tariff(id, it.serviceId, it.unitPrice, parseDate(it.validFrom).value,
           if Truthy(it.validTo) then parseDate(it.validTo.value) else None, None, None)
  }

  /** What the creates leave behind: the rows, the next id, and whether one
      of them failed. */
  datatype Creation = Creation(rows: seq<Tariff>, nextId: nat, failed: bool)

  /** The creates of `items` in list order, each stored with the next id
      unless it fails on its own; no transaction undoes the others. */
  function CreateEach(rows: seq<Tariff>, nextId: nat, items: seq<BulkTariffInput>, services: set<int>,
                      parseDate: string -> Option<int>, failed: bool): Creation
    decreases |items|
  {
    if items == [] then Creation(rows, nextId, failed)
    else if CreateFails(rows, items[0], services, parseDate) then
      CreateEach(rows, nextId, items[1..], services, parseDate, true)
    else
      CreateEach(rows + [CreatedRow(items[0], nextId, parseDate)], nextId + 1, items[1..], services, parseDate, failed)
  }

  /** The creates only append, with fresh ids and without breaking the
      unique key, and a failure stays recorded. */
  lemma {:induction false} CreateEachAppends(rows: seq<Tariff>, nextId: nat, items: seq<BulkTariffInput>, services: set<int>,
                                             parseDate: string -> Option<int>, failed: bool)
    requires nextId >= 1 && IdsValid(rows, nextId) && KeysUnique(rows)
    ensures var c := CreateEach(rows, nextId, items, services, parseDate, failed);
      |c.rows| >= |rows| && c.rows[..|rows|] == rows && c.nextId == nextId + (|c.rows| - |rows|)
      && IdsValid(c.rows, c.nextId) && KeysUnique(c.rows) && (failed ==> c.failed)
    decreases |items|
  {
    if items != [] {
      if CreateFails(rows, items[0], services, parseDate) {
        CreateEachAppends(rows, nextId, items[1..], services, parseDate, true);
      } else {
        var t := CreatedRow(items[0], nextId, parseDate);
        AppendFreshIds(rows, [t], nextId);
        AppendUntaken(rows, t);
        CreateEachAppends(rows + [t], nextId + 1, items[1..], services, parseDate, failed);
        var c := CreateEach(rows + [t], nextId + 1, items[1..], services, parseDate, failed);
        assert c.rows[..|rows|] == c.rows[..|rows| + 1][..|rows|];
      }
    }
  }

  /** Appending rows never frees a taken start. */
  lemma TakenStaysTaken(rows: seq<Tariff>, more: seq<Tariff>, serviceId: int, validFrom: int)
    requires StartTaken(rows, serviceId, validFrom)
    ensures StartTaken(rows + more, serviceId, validFrom)
  {
    var k :| 0 <= k < |rows| && rows[k].serviceId == serviceId && rows[k].validFrom == validFrom;
    assert (rows + more)[k] == rows[k];
  }

  /** Two entries naming the same service and start, when both are dates. */
  predicate SameKey(a: BulkTariffInput, b: BulkTariffInput, parseDate: string -> Option<int>) {
    a.serviceId == b.serviceId && parseDate(a.validFrom).Some? && parseDate(a.validFrom) == parseDate(b.validFrom)
  }

  /** The batch reports a failure when an entry fails against the rows it
      started from, or when two entries share a service and start: the
      second of those finds the key taken by the first. */
  lemma {:induction false} CreateEachFails(rows: seq<Tariff>, nextId: nat, items: seq<BulkTariffInput>, services: set<int>,
                                           parseDate: string -> Option<int>, failed: bool)
    requires nextId >= 1 && IdsValid(rows, nextId) && KeysUnique(rows)
    requires (exists i :: 0 <= i < |items| && CreateFails(rows, items[i], services, parseDate))
             || exists i, j :: 0 <= i < j < |items| && SameKey(items[i], items[j], parseDate)
    ensures CreateEach(rows, nextId, items, services, parseDate, failed).failed
    decreases |items|
  {
    if CreateFails(rows, items[0], services, parseDate) {
      CreateEachAppends(rows, nextId, items[1..], services, parseDate, true);
    } else {
      var t := CreatedRow(items[0], nextId, parseDate);
      var rows' := rows + [t];
      AppendFreshIds(rows, [t], nextId);
      AppendUntaken(rows, t);
      if i :| 0 <= i < |items| && CreateFails(rows, items[i], services, parseDate) {
        FailsAfterStore(rows, t, items[i], services, parseDate);
        assert items[1..][i - 1] == items[i];
      } else {
        var i, j :| 0 <= i < j < |items| && SameKey(items[i], items[j], parseDate);
        if i == 0 {
          SharedKeyFailsAfterStore(rows, nextId, items[0], items[j], services, parseDate);
          assert items[1..][j - 1] == items[j];
        } else {
          assert items[1..][i - 1] == items[i] && items[1..][j - 1] == items[j];
        }
      }
      CreateEachFails(rows', nextId + 1, items[1..], services, parseDate, failed);
    }
  }

  /** A failing entry still fails once another row is stored. */
  lemma FailsAfterStore(rows: seq<Tariff>, t: Tariff, it: BulkTariffInput, services: set<int>,
                        parseDate: string -> Option<int>)
    requires CreateFails(rows, it, services, parseDate)
    ensures CreateFails(rows + [t], it, services, parseDate)
  {
    if parseDate(it.validFrom).Some? && StartTaken(rows, it.serviceId, parseDate(it.validFrom).value) {
      TakenStaysTaken(rows, [t], it.serviceId, parseDate(it.validFrom).value);
    }
  }

  /** Once an entry is stored, a later one with the same service and start
      finds the key taken. */
  lemma SharedKeyFailsAfterStore(rows: seq<Tariff>, nextId: nat, it: BulkTariffInput, other: BulkTariffInput,
                                 services: set<int>, parseDate: string -> Option<int>)
    requires !CreateFails(rows, it, services, parseDate) && SameKey(it, other, parseDate)
    ensures CreateFails(rows + [CreatedRow(it, nextId, parseDate)], other, services, parseDate)
  {
    var rows' := rows + [CreatedRow(it, nextId, parseDate)];
    assert rows'[|rows|] == CreatedRow(it, nextId, parseDate);
    assert StartTaken(rows', other.serviceId, parseDate(other.validFrom).value);
  }

  /** With no failing entry and no shared service and start, every entry is
      stored, in order, with consecutive ids, and no failure is reported. */
  lemma {:induction false} CreateEachStoresAll(rows: seq<Tariff>, nextId: nat, items: seq<BulkTariffInput>, services: set<int>,
                                               parseDate: string -> Option<int>)
    requires forall i :: 0 <= i < |items| ==> !CreateFails(rows, items[i], services, parseDate)
    requires forall i, j :: 0 <= i < j < |items| ==> !SameKey(items[i], items[j], parseDate)
    ensures var c := CreateEach(rows, nextId, items, services, parseDate, false);
      !c.failed && c.nextId == nextId + |items| && |c.rows| == |rows| + |items| && c.rows[..|rows|] == rows
      && forall i :: 0 <= i < |items| ==>
           parseDate(items[i].validFrom).Some? && c.rows[|rows| + i] == CreatedRow(items[i], nextId + i, parseDate)
    decreases |items|
  {
    if items != [] {
      var t := CreatedRow(items[0], nextId, parseDate);
      var rows' := rows + [t];
      assert !CreateFails(rows, items[0], services, parseDate);
      forall i | 0 <= i < |items[1..]| ensures !CreateFails(rows', items[1..][i], services, parseDate) {
        var it := items[i + 1];
        assert items[1..][i] == it && !CreateFails(rows, it, services, parseDate);
        assert !SameKey(items[0], it, parseDate);
        forall k | 0 <= k < |rows'|
          ensures rows'[k].serviceId != it.serviceId || rows'[k].validFrom != parseDate(it.validFrom).value
        {
          if k < |rows| { assert rows'[k] == rows[k]; } else { assert rows'[k] == t; }
        }
      }
      forall i, j | 0 <= i < j < |items[1..]| ensures !SameKey(items[1..][i], items[1..][j], parseDate) {
        assert items[1..][i] == items[i + 1] && items[1..][j] == items[j + 1];
      }
      CreateEachStoresAll(rows', nextId + 1, items[1..], services, parseDate);
      var c := CreateEach(rows', nextId + 1, items[1..], services, parseDate, false);
      assert c.rows[..|rows|] == c.rows[..|rows'|][..|rows|];
      forall i | 0 <= i < |items| ensures parseDate(items[i].validFrom).Some? && c.rows[|rows| + i] == CreatedRow(items[i], nextId + i, parseDate) {
        if i == 0 {
          assert c.rows[|rows|] == c.rows[..|rows'|][|rows|];
        } else {
          assert items[1..][i - 1] == items[i];
          assert c.rows[|rows'| + (i - 1)] == CreatedRow(items[i], nextId + 1 + (i - 1), parseDate);
        }
      }
    }
  }

  /** A start that is a date with an end that is not: that entry fails and
      the batch reports the failure. */
  lemma BadEndFailsBatch(rows: seq<Tariff>, nextId: nat, services: set<int>, parseDate: string -> Option<int>)
    requires nextId >= 1 && IdsValid(rows, nextId) && KeysUnique(rows)
    requires parseDate("2025-01-01").Some? && parseDate("soon").None?
    ensures CreateEach(rows, nextId, [BulkTariffInput(1, 100, "2025-01-01", Some("soon"))], services, parseDate, false)
            == Creation(rows, nextId, true)
  {
    var items := [BulkTariffInput(1, 100, "2025-01-01", Some("soon"))];
    assert CreateFails(rows, items[0], services, parseDate);
    assert items[1..] == [];
  }

  /** With positive ids, a predecessor is returned exactly when some row
      overlaps. */
  lemma FirstOverlapIdFound(rows: seq<Tariff>, serviceId: int, newFrom: int, nextId: nat)
    requires IdsValid(rows, nextId)
    ensures FirstOverlapId(rows, serviceId, newFrom).Some? <==>
            exists k :: 0 <= k < |rows| && Overlaps(rows[k], serviceId, newFrom)
  {
    var f := FirstOverlap(rows, serviceId, newFrom);
    if f.Some? {
      assert 1 <= rows[f.value].id;
    }
  }

  /** Ids are positive, distinct and below the next id handed out. */
  predicate IdsValid(rows: seq<Tariff>, nextId: nat) {
    (forall k :: 0 <= k < |rows| ==> 1 <= rows[k].id < nextId)
    && forall j, k :: 0 <= j < k < |rows| ==> rows[j].id != rows[k].id
  }

  /** Ids stay valid when rows keep their ids position by position. */
  lemma SameIdsStayValid(before: seq<Tariff>, after: seq<Tariff>, nextId: nat)
    requires IdsValid(before, nextId) && |after| == |before|
    requires forall k :: 0 <= k < |before| ==> after[k].id == before[k].id
    ensures IdsValid(after, nextId)
  {
  }

  /** Rows with fresh consecutive ids appended keep ids valid. */
  lemma AppendFreshIds(rows: seq<Tariff>, added: seq<Tariff>, nextId: nat)
    requires IdsValid(rows, nextId) && nextId >= 1
    requires forall i :: 0 <= i < |added| ==> added[i].id == nextId + i
    ensures IdsValid(rows + added, nextId + |added|)
  {
    var all := rows + added;
    forall j, k | 0 <= j < k < |all| ensures all[j].id != all[k].id {
      if k >= |rows| && j >= |rows| {
        assert all[j] == added[j - |rows|] && all[k] == added[k - |rows|];
      } else if k >= |rows| {
        assert all[k] == added[k - |rows|];
      }
    }
    forall k | 0 <= k < |all| ensures 1 <= all[k].id < nextId + |added| {
      if k >= |rows| { assert all[k] == added[k - |rows|]; }
    }
  }

  /** The rows left after removing the one at `k`, position by position. */
  lemma RemovedPositions(rows: seq<Tariff>, k: nat)
    requires k < |rows|
    ensures |rows[..k] + rows[k + 1..]| == |rows| - 1
    ensures forall j :: 0 <= j < k ==> (rows[..k] + rows[k + 1..])[j] == rows[j]
    ensures forall j :: k < j < |rows| ==> (rows[..k] + rows[k + 1..])[j - 1] == rows[j]
  {
  }

  /** Removing the row at `k` keeps ids valid. */
  lemma RemovingKeepsIds(rows: seq<Tariff>, k: nat, nextId: nat)
    requires IdsValid(rows, nextId) && k < |rows|
    ensures IdsValid(rows[..k] + rows[k + 1..], nextId)
  {
    var rest := rows[..k] + rows[k + 1..];
    RemovedPositions(rows, k);
    forall j, l | 0 <= j < l < |rest| ensures rest[j].id != rest[l].id {
      var j' := if j < k then j else j + 1;
      var l' := if l < k then l else l + 1;
      assert rest[j] == rows[j'] && rest[l] == rows[l'];
    }
    forall j | 0 <= j < |rest| ensures 1 <= rest[j].id < nextId {
      if j >= k { assert rest[j] == rows[j + 1]; }
    }
  }

  /** Removing the row at `k` leaves exactly the rows with another id. */
  lemma RemovingKeepsOthers(rows: seq<Tariff>, k: nat, nextId: nat)
    requires IdsValid(rows, nextId) && k < |rows|
    ensures forall t :: t in rows[..k] + rows[k + 1..] <==> t in rows && t.id != rows[k].id
  {
    var rest := rows[..k] + rows[k + 1..];
    RemovedPositions(rows, k);
    forall t | t in rows && t.id != rows[k].id ensures t in rest {
      var j :| 0 <= j < |rows| && rows[j] == t;
      var i := if j < k then j else j - 1;
      assert rest[i] == t;
    }
    forall t | t in rest ensures t in rows && t.id != rows[k].id {
      var j :| 0 <= j < |rest| && rest[j] == t;
      if j >= k { assert rows[j + 1] == t; } else { assert rows[j] == t; }
    }
  }

  /** The table's unique key: no two tariffs of a service share a start. */
  predicate KeysUnique(rows: seq<Tariff>) {
    forall j, k :: 0 <= j < k < |rows| ==> rows[j].serviceId != rows[k].serviceId || rows[j].validFrom != rows[k].validFrom
  }

  /** Rows that keep their service and start position by position keep the
      key unique. */
  lemma SameKeysStayUnique(before: seq<Tariff>, after: seq<Tariff>)
    requires KeysUnique(before) && |after| == |before|
    requires forall k :: 0 <= k < |before| ==>
      after[k].serviceId == before[k].serviceId && after[k].validFrom == before[k].validFrom
    ensures KeysUnique(after)
  {
    forall j, k | 0 <= j < k < |after| ensures after[j].serviceId != after[k].serviceId || after[j].validFrom != after[k].validFrom {
      assert before[j].serviceId != before[k].serviceId || before[j].validFrom != before[k].validFrom;
    }
  }

  /** A row whose key is not taken can be appended. */
  lemma AppendUntaken(rows: seq<Tariff>, t: Tariff)
    requires KeysUnique(rows) && !StartTaken(rows, t.serviceId, t.validFrom)
    ensures KeysUnique(rows + [t])
  {
    var all := rows + [t];
    forall j, k | 0 <= j < k < |all| ensures all[j].serviceId != all[k].serviceId || all[j].validFrom != all[k].validFrom {
      assert all[j] == rows[j];
      if k < |rows| { assert all[k] == rows[k]; }
    }
  }

  /** Some row with another id holds that service and start. */
  predicate StartTakenByOther(rows: seq<Tariff>, serviceId: int, id: int, validFrom: int) {
    exists j :: 0 <= j < |rows| && rows[j].id != id && rows[j].serviceId == serviceId && rows[j].validFrom == validFrom
  }

  /** Giving row `k` (of a table with distinct ids) a start no other row of
      its service holds keeps the key unique. */
  lemma RestartKeepsKeysUnique(rows: seq<Tariff>, nextId: nat, k: nat, t: Tariff)
    requires KeysUnique(rows) && IdsValid(rows, nextId) && k < |rows|
    requires t.serviceId == rows[k].serviceId && !StartTakenByOther(rows, t.serviceId, rows[k].id, t.validFrom)
    ensures KeysUnique(rows[k := t])
  {
    var after := rows[k := t];
    forall a, b | 0 <= a < b < |after| ensures after[a].serviceId != after[b].serviceId || after[a].validFrom != after[b].validFrom {
      if a == k {
        assert rows[b].id != rows[k].id && after[b] == rows[b];
      } else if b == k {
        assert rows[a].id != rows[k].id && after[a] == rows[a];
      } else {
        assert after[a] == rows[a] && after[b] == rows[b];
      }
    }
  }

  /** Removing the row at `k` keeps the key unique. */
  lemma RemovingKeepsKeys(rows: seq<Tariff>, k: nat)
    requires KeysUnique(rows) && k < |rows|
    ensures KeysUnique(rows[..k] + rows[k + 1..])
  {
    var rest := rows[..k] + rows[k + 1..];
    RemovedPositions(rows, k);
    forall j, l | 0 <= j < l < |rest| ensures rest[j].serviceId != rest[l].serviceId || rest[j].validFrom != rest[l].validFrom {
      var j' := if j < k then j else j + 1;
      var l' := if l < k then l else l + 1;
      assert rest[j] == rows[j'] && rest[l] == rows[l'];
    }
  }

  /** Closing rows keeps their keys, so a clash is the same before and
      after. */
  lemma ClosingKeepsClash(rows: seq<Tariff>, closed: seq<Tariff>, updates: seq<BulkUpdate>, validFrom: int)
    requires |closed| == |rows|
    requires forall k :: 0 <= k < |rows| ==> closed[k].serviceId == rows[k].serviceId && closed[k].validFrom == rows[k].validFrom
    ensures BatchKeyClash(closed, updates, validFrom) <==> BatchKeyClash(rows, updates, validFrom)
  {
    forall s | true ensures StartTaken(closed, s, validFrom) <==> StartTaken(rows, s, validFrom) {
      if StartTaken(rows, s, validFrom) {
        var k :| 0 <= k < |rows| && rows[k].serviceId == s && rows[k].validFrom == validFrom;
        assert closed[k].serviceId == s && closed[k].validFrom == validFrom;
      }
    }
  }

  /** Closing overlaps keeps ids and keys, so a valid table stays valid. */
  lemma ClosingKeepsValid(rows: seq<Tariff>, nextId: nat, serviceId: int, newFrom: int)
    requires IdsValid(rows, nextId) && KeysUnique(rows)
    ensures IdsValid(ClosedOverlaps(rows, serviceId, newFrom), nextId)
    ensures KeysUnique(ClosedOverlaps(rows, serviceId, newFrom))
  {
    var closed := ClosedOverlaps(rows, serviceId, newFrom);
    SameIdsStayValid(rows, closed, nextId);
    SameKeysStayUnique(rows, closed);
  }

  /** The updates of closeOverlappingTariffs, one row at a time: each
      overlapping row is given the end of the day before the new start. */
  method CloseEachOverlap(rows: seq<Tariff>, serviceId: int, newFrom: int) returns (closed: seq<Tariff>)
    ensures closed == ClosedOverlaps(rows, serviceId, newFrom)
  {
    closed := rows;
    var i := 0;
    while i < |closed|
      invariant 0 <= i <= |closed| == |rows|
      invariant forall k :: 0 <= k < i ==> closed[k] == Close(rows[k], serviceId, newFrom)
      invariant forall k :: i <= k < |closed| ==> closed[k] == rows[k]
    {
      if Overlaps(closed[i], serviceId, newFrom) {
        closed := closed[i := closed[i].(validTo := Some(PreviousDayEnd(newFrom)))];
      }
      i := i + 1;
    }
  }

  /** Closing the overlaps and adding the batch rows keeps a valid table
      valid exactly when the batch does not clash with the unique key. */
  lemma BatchKeepsValid(rows: seq<Tariff>, updates: seq<BulkUpdate>, nextId: nat, dates: BulkDates)
    requires forall i :: 0 <= i < |updates| ==> updates[i].unitPrice.Some?
    requires nextId >= 1 && IdsValid(rows, nextId) && KeysUnique(rows)
    ensures var all := CloseForBatch(rows, ServiceIds(updates), dates) + BatchRows(updates, nextId, dates);
      IdsValid(all, nextId + |updates|)
      && (KeysUnique(all) <==> !BatchKeyClash(rows, updates, dates.validFrom))
  {
    var closed := CloseForBatch(rows, ServiceIds(updates), dates);
    SameIdsStayValid(rows, closed, nextId);
    SameKeysStayUnique(rows, closed);
    ClosingKeepsClash(rows, closed, updates, dates.validFrom);
    AppendFreshIds(closed, BatchRows(updates, nextId, dates), nextId);
    BatchKeysUniqueIff(closed, updates, nextId, dates);
  }

  /** The creates of bulkCreateServiceTariffs, one entry at a time: an entry
      that fails is recorded and the others are stored with the next id. */
  method CreateEachTariff(rows: seq<Tariff>, nextId: nat, items: seq<BulkTariffInput>, services: set<int>,
                          parseDate: string -> Option<int>) returns (stored: seq<Tariff>, next: nat, failed: bool)
    ensures Creation(stored, next, failed) == CreateEach(rows, nextId, items, services, parseDate, false)
  {
    stored, next, failed := rows, nextId, false;
    var i := 0;
    while i < |items|
      invariant 0 <= i <= |items|
      invariant CreateEach(stored, next, items[i..], services, parseDate, failed)
                == CreateEach(rows, nextId, items, services, parseDate, false)
    {
      assert items[i..][1..] == items[i + 1..];
      var it := items[i];
      var from := parseDate(it.validFrom);
      if from.None? || (Truthy(it.validTo) && parseDate(it.validTo.value).None?) || it.serviceId !in services
         || StartTaken(stored, it.serviceId, from.value) {
        failed := true;
      } else {
        var t := Tariff(next, it.serviceId, it.unitPrice, from.value,
                        if Truthy(it.validTo) then parseDate(it.validTo.value) else None, None, None);
        assert t == CreatedRow(it, next, parseDate);
        stored := stored + [t];
        next := next + 1;
      }
      i := i + 1;
    }
  }

  class TariffTable {
    var rows: seq<Tariff>
    var nextId: nat

    predicate Valid()
      reads this
    {
      nextId >= 1 && IdsValid(rows, nextId) && KeysUnique(rows)
    }

    constructor ()
      ensures Valid() && rows == [] && nextId == 1
    {
      rows := [];
      nextId := 1;
    }

    /** closeOverlappingTariffs: close every overlapping tariff, one row at a
        time, and return the first one's id as the new tariff's predecessor. */
    method CloseOverlappingTariffs(serviceId: int, newFrom: int) returns (previous: Option<nat>)
      requires Valid()
      modifies this`rows
      ensures Valid()
      ensures rows == ClosedOverlaps(old(rows), serviceId, newFrom)
      ensures previous == FirstOverlapId(old(rows), serviceId, newFrom)
      ensures previous.Some? <==> exists k :: 0 <= k < |old(rows)| && Overlaps(old(rows)[k], serviceId, newFrom)
    {
      previous := FirstOverlapId(rows, serviceId, newFrom);
      FirstOverlapIdFound(rows, serviceId, newFrom, nextId);
      ClosingKeepsValid(rows, nextId, serviceId, newFrom);
      rows := CloseEachOverlap(rows, serviceId, newFrom);
    }

    /** createServiceTariff: it never throws. A refused session, a bad form,
        an end date that is not a date, a start already taken for the service
        (the unique key) or a service that is not stored (`services`, the
        foreign key) all become an error message; overlapping tariffs are
        closed before the insert is tried and stay closed when it fails. */
    method CreateServiceTariff(session: Option<SessionUser>, form: TariffForm, services: set<int>,
                               parseCents: string -> Option<int>, parseDate: string -> Option<int>) returns (r: Result<Tariff>)
      requires Valid()
      modifies this
      ensures Valid()
      ensures RequireSession(session, [Admin]).Threw? ==>
        r == Err(CreateTariffFailed) && rows == old(rows) && nextId == old(nextId)
      ensures (RequireSession(session, [Admin]).Returned? && ParseServiceTariffForm(form, parseCents, parseDate).Err?) ==>
        r == Err(CreateErrorFor(ParseServiceTariffForm(form, parseCents, parseDate).message))
        && rows == old(rows) && nextId == old(nextId)
      ensures (RequireSession(session, [Admin]).Returned? && ParseServiceTariffForm(form, parseCents, parseDate).Ok?) ==>
        var p := ParseServiceTariffForm(form, parseCents, parseDate).value;
        var closed := ClosedOverlaps(old(rows), p.serviceId, p.validFrom);
        (r.Ok? <==> p.validTo != Some(None) && !StartTaken(closed, p.serviceId, p.validFrom) && p.serviceId in services)
        && (r.Err? ==> rows == closed && nextId == old(nextId)
                       && r.message == (if p.validTo == Some(None) then CreateTariffFailed
                                        else if StartTaken(closed, p.serviceId, p.validFrom) then DuplicateStart
                                        else CreateTariffFailed))
        && (r.Ok? ==>
              r.value == Tariff(old(nextId), p.serviceId, p.unitPrice, p.validFrom,
                                if p.validTo.Some? then p.validTo.value else None,
                                None, FirstOverlapId(old(rows), p.serviceId, p.validFrom))
              && rows == closed + [r.value] && nextId == old(nextId) + 1)
    {
      if RequireSession(session, [Admin]).Threw? { return Err(CreateTariffFailed); }
      var parsed := ParseServiceTariffForm(form, parseCents, parseDate);
      if parsed.Err? { return Err(CreateErrorFor(parsed.message)); }
      var p := parsed.value;
      var previous := CloseOverlappingTariffs(p.serviceId, p.validFrom);
      if p.validTo == Some(None) { return Err(CreateTariffFailed); }
      if StartTaken(rows, p.serviceId, p.validFrom) { return Err(DuplicateStart); }
      if p.serviceId !in services { return Err(CreateTariffFailed); }
      var t := Tariff(nextId, p.serviceId, p.unitPrice, p.validFrom, if p.validTo.Some? then p.validTo.value else None,
                      None, previous);
      AppendFreshIds(rows, [t], nextId);
      AppendUntaken(rows, t);
      rows := rows + [t];
      nextId := nextId + 1;
      r := Ok(t);
    }

    /** updateServiceTariff: refuses an unknown id and a conflicting span, and
        otherwise changes only the price, start and end of that row. */
    method UpdateServiceTariff(session: Option<SessionUser>, id: int, form: UpdateForm,
                               parseCents: string -> Option<int>, parseDate: string -> Option<int>)
      returns (r: Completion<()>)
      requires Valid()
      modifies this`rows
      ensures Valid()
      ensures r.Raised? ==> rows == old(rows)
      ensures RequireSession(session, [Admin]).Threw? ==> r == Raised(Status(RequireSession(session, [Admin]).status))
      ensures (RequireSession(session, [Admin]).Returned? && ParseUpdateTariffForm(form, parseCents, parseDate).Err?) ==>
        r == Raised(Message(ParseUpdateTariffForm(form, parseCents, parseDate).message))
      ensures (RequireSession(session, [Admin]).Returned? && ParseUpdateTariffForm(form, parseCents, parseDate).Ok?
               && FindTariff(old(rows), id).None?) ==>
        r == Raised(Message("Tarifa não encontrada"))
      ensures r.Completed? <==>
        RequireSession(session, [Admin]).Returned? && ParseUpdateTariffForm(form, parseCents, parseDate).Ok?
        && FindTariff(old(rows), id).Some?
        && ParseUpdateTariffForm(form, parseCents, parseDate).value.validTo != Some(None)
        && var p := ParseUpdateTariffForm(form, parseCents, parseDate).value;
           var serviceId := old(rows)[FindTariff(old(rows), id).value].serviceId;
           !HasConflict(old(rows), serviceId, id, p.validFrom, if p.validTo.Some? then p.validTo.value else None)
           && !StartTakenByOther(old(rows), serviceId, id, p.validFrom)
      ensures r.Completed? ==>
        var p := ParseUpdateTariffForm(form, parseCents, parseDate).value;
        var k := FindTariff(old(rows), id).value;
        rows == old(rows)[k := old(rows)[k].(unitPrice := p.unitPrice, validFrom := p.validFrom,
                                              validTo := if p.validTo.Some? then p.validTo.value else None)]
    {
      var gate := RequireSession(session, [Admin]);
      if gate.Threw? { return Raised(Status(gate.status)); }
      var parsed := ParseUpdateTariffForm(form, parseCents, parseDate);
      if parsed.Err? { return Raised(Message(parsed.message)); }
      var p := parsed.value;
      var found := FindTariff(rows, id);
      if found.None? { return Raised(Message("Tarifa não encontrada")); }
      if p.validTo == Some(None) { return Raised(StoreError); }
      var validTo := if p.validTo.Some? then p.validTo.value else None;
      if HasConflict(rows, rows[found.value].serviceId, id, p.validFrom, validTo) {
        return Raised(Message("Há tarifa para este serviço com vigência conflitante"));
      }
      var k := found.value;
      if StartTakenByOther(rows, rows[k].serviceId, id, p.validFrom) { return Raised(StoreError); }
      ghost var before := rows;
      var t := rows[k].(unitPrice := p.unitPrice, validFrom := p.validFrom, validTo := validTo);
      RestartKeepsKeysUnique(rows, nextId, k, t);
      rows := rows[k := t];
      SameIdsStayValid(before, rows, nextId);
      r := Completed(());
    }

    /** deleteServiceTariff: the row with that id goes; a missing id makes the
        delete fail. */
    method DeleteServiceTariff(session: Option<SessionUser>, id: int) returns (r: Completion<()>)
      requires Valid()
      modifies this`rows
      ensures Valid()
      ensures r.Raised? ==> rows == old(rows)
      ensures RequireSession(session, [Admin]).Threw? ==> r == Raised(Status(RequireSession(session, [Admin]).status))
      ensures RequireSession(session, [Admin]).Returned? && FindTariff(old(rows), id).None? ==> r == Raised(StoreError)
      ensures r.Completed? <==> RequireSession(session, [Admin]).Returned? && FindTariff(old(rows), id).Some?
      ensures r.Completed? ==>
        var k := FindTariff(old(rows), id).value;
        rows == old(rows)[..k] + old(rows)[k + 1..]
        && forall t :: t in rows <==> t in old(rows) && t.id != id
    {
      var gate := RequireSession(session, [Admin]);
      if gate.Threw? { return Raised(Status(gate.status)); }
      var found := FindTariff(rows, id);
      if found.None? { return Raised(StoreError); }
      var k := found.value;
      RemovingKeepsIds(rows, k, nextId);
      RemovingKeepsOthers(rows, k, nextId);
      RemovingKeepsKeys(rows, k);
      rows := rows[..k] + rows[k + 1..];
      r := Completed(());
    }

    /** bulkUpdateServiceTariffs: validate every entry, then in one
        transaction close what overlaps the first entry's start for every
        listed service and add one tariff per entry, all with the first
        entry's dates. An insert that names a service that is not stored
        (`services`) or breaks the unique key fails the transaction, which
        undoes the closes too. */
    method BulkUpdateServiceTariffs(session: Option<SessionUser>, updates: seq<BulkUpdate>, services: set<int>,
                                    parseDate: string -> Option<int>) returns (r: Completion<()>)
      requires Valid()
      modifies this
      ensures Valid()
      ensures r.Raised? ==> rows == old(rows) && nextId == old(nextId)
      ensures RequireSession(session, [Admin]).Threw? ==> r == Raised(Status(RequireSession(session, [Admin]).status))
      ensures RequireSession(session, [Admin]).Returned? && ValidateBulkUpdates(updates, parseDate).Some? ==>
        r == Raised(Message(ValidateBulkUpdates(updates, parseDate).value))
      ensures RequireSession(session, [Admin]).Returned? && ValidateBulkUpdates(updates, parseDate).None?
              && (!(ServiceIds(updates) <= services)
                  || BatchKeyClash(old(rows), updates, ParseBulkDates(updates, parseDate).validFrom)) ==>
        r == Raised(StoreError)
      ensures r.Completed? <==>
        RequireSession(session, [Admin]).Returned? && ValidateBulkUpdates(updates, parseDate).None?
        && ServiceIds(updates) <= services
        && !BatchKeyClash(old(rows), updates, ParseBulkDates(updates, parseDate).validFrom)
      ensures r.Completed? ==>
        var dates := ParseBulkDates(updates, parseDate);
        rows == CloseForBatch(old(rows), ServiceIds(updates), dates) + BatchRows(updates, old(nextId), dates)
        && nextId == old(nextId) + |updates|
    {
      var gate := RequireSession(session, [Admin]);
      if gate.Threw? { return Raised(Status(gate.status)); }
      var err := ValidateBulkUpdates(updates, parseDate);
      if err.Some? { return Raised(Message(err.value)); }
      var dates := ParseBulkDates(updates, parseDate);
      ValidUpdatesPriced(updates, parseDate);
      var closed := CloseForBatch(rows, ServiceIds(updates), dates);
      BatchKeepsValid(rows, updates, nextId, dates);
      if !(ServiceIds(updates) <= services) || BatchKeyClash(rows, updates, dates.validFrom) {
        return Raised(StoreError);
      }
      var added := BatchRows(updates, nextId, dates);
      rows := closed + added;
      nextId := nextId + |updates|;
      r := Completed(());
    }

    /** bulkCreateServiceTariffs: after validation, any tariff of a listed
        service still in force at `now` stops the whole batch and is reported,
        latest start first, with its service's code from `codeOf`.
        Otherwise every entry is created on its own, with
        no transaction: the entries that succeed stay stored, and when one
        fails (CreateFails) the action then throws. */
    method BulkCreateServiceTariffs(session: Option<SessionUser>, items: seq<BulkTariffInput>, services: set<int>,
                                    codeOf: int -> string, now: int, parseDate: string -> Option<int>) returns (r: Completion<BulkCreateResult>)
      requires Valid()
      modifies this
      ensures Valid()
      ensures |rows| >= |old(rows)| && rows[..|old(rows)|] == old(rows)
      ensures RequireSession(session, [Admin]).Threw? ==>
        r == Raised(Status(RequireSession(session, [Admin]).status)) && rows == old(rows) && nextId == old(nextId)
      ensures RequireSession(session, [Admin]).Returned? && ValidateBulkTariffInput(items, 0).Some? ==>
        r == Raised(Message(ValidateBulkTariffInput(items, 0).value)) && rows == old(rows) && nextId == old(nextId)
      ensures (RequireSession(session, [Admin]).Returned? && ValidateBulkTariffInput(items, 0).None?
               && ExistingTariffs(old(rows), InputIds(items), now) != []) ==>
        r == Completed(TariffConflictReport(ExistingTariffs(old(rows), InputIds(items), now), codeOf))
        && rows == old(rows) && nextId == old(nextId)
      ensures (RequireSession(session, [Admin]).Returned? && ValidateBulkTariffInput(items, 0).None?
               && ExistingTariffs(old(rows), InputIds(items), now) == []) ==>
        var c := CreateEach(old(rows), old(nextId), items, services, parseDate, false);
        rows == c.rows && nextId == c.nextId && r == (if c.failed then Raised(StoreError) else Completed(BulkCreated))
    {
      var gate := RequireSession(session, [Admin]);
      if gate.Threw? { return Raised(Status(gate.status)); }
      var err := ValidateBulkTariffInput(items, 0);
      if err.Some? { return Raised(Message(err.value)); }
      var existing := ExistingTariffs(rows, InputIds(items), now);
      if existing != [] { return Completed(TariffConflictReport(existing, codeOf)); }
      CreateEachAppends(rows, nextId, items, services, parseDate, false);
      var failed;
      rows, nextId, failed := CreateEachTariff(rows, nextId, items, services, parseDate);
      r := if failed then Raised(StoreError) else Completed(BulkCreated);
    }
  }
}
