/** The editing state of the service modal
    (components/modal/serviceState.tsx): the service's own fields, the list
    of its tariffs as editable rows, and the handlers that send them to the
    server actions. A handler returns the request it sends (`None` when a
    guard stops it); the server's answer is a parameter. `priceText` renders
    a price (`String(number)`), `toIso` an instant. Reloading the page after
    a success is not modelled. */
module ServiceModal {
  import opened Common
  import opened JsText
  import opened Catalog
  import TariffStore
  import ServiceStore

  /** One editable tariff row; `id` is absent for a row not yet saved. */
  datatype TariffRow = TariffRow(id: Option<nat>, unitPrice: string, validFrom: Option<int>, validTo: Option<int>,
                                 isNew: bool, isEditing: bool)

  /** The row shown for a stored tariff. */
  function RowOf(t: TariffView, priceText: int -> string): (r: TariffRow)
    ensures r.id == Some(t.id) && r.unitPrice == priceText(t.unitPrice)
    ensures r.validFrom == Some(t.validFrom) && r.validTo == t.validTo && !r.isEditing && !r.isNew
  {
    TariffRow(Some(t.id), priceText(t.unitPrice), Some(t.validFrom), t.validTo, false, false)
  }

  /** The rows the modal opens with: one per tariff, same order and ids. */
  function InitialRows(ts: seq<TariffView>, priceText: int -> string): (rows: seq<TariffRow>)
    ensures |rows| == |ts|
    ensures forall i :: 0 <= i < |ts| ==> rows[i] == RowOf(ts[i], priceText)
  {
    seq(|ts|, i requires 0 <= i < |ts| => RowOf(ts[i], priceText))
  }

  /** `service.serviceTariffs.find((t) => t.id === id)` */
  function FindOriginal(ts: seq<TariffView>, id: Option<nat>): (r: Option<TariffView>)
    ensures r.Some? ==> id.Some? && r.value in ts && r.value.id == id.value
    ensures r.None? <==> id.None? || forall k :: 0 <= k < |ts| ==> ts[k].id != id.value
  {
    if id.None? || ts == [] then None
    else if ts[0].id == id.value then Some(ts[0])
    else FindOriginal(ts[1..], id)
  }

  /** The field updateTariffField writes, with its new value. */
  datatype FieldValue = UnitPriceText(text: string) | ValidFromDate(date: Option<int>) | ValidToDate(date: Option<int>)

  function WithField(row: TariffRow, value: FieldValue): TariffRow {
    match value
    case UnitPriceText(text) => row.(unitPrice := text)
    case ValidFromDate(date) => row.(validFrom := date)
    case ValidToDate(date) => row.(validTo := date)
  }

  /** A fresh new-tariff form: no price, starting now, no end. */
  function BlankTariff(now: int): TariffRow { TariffRow(None, "", Some(now), None, true, false) }

  datatype Notice = Success(text: string) | Failure(text: string)

  const AddedNotice := "Tarifa adicionada com sucesso!"
  const AddFailedNotice := "Não foi possível adicionar a tarifa. Verifique se já existe tarifa neste período."

  /** What handleAddTariff does after createServiceTariff answers, as written:
      that action reports a refusal in its answer instead of throwing, so the
      success branch runs for every answer. */
  function AddNoticeAsWritten(reply: Result<TariffStore.Tariff>): (n: Notice)
    ensures n == Success(AddedNotice)
  {
    Success(AddedNotice)
  }

  /** A start already taken is announced as added. */
  lemma RefusedTariffAnnouncedAsAdded()
    ensures AddNoticeAsWritten(Err(TariffStore.DuplicateStart)) == Success(AddedNotice)
    ensures AddNotice(Err(TariffStore.DuplicateStart)) == Failure(AddFailedNotice)
  {
  }

  /** handleAddTariff reading the answer: success only for a created tariff. */
  function AddNotice(reply: Result<TariffStore.Tariff>): (n: Notice)
    ensures n.Success? <==> reply.Ok?
    ensures n == (if reply.Ok? then Success(AddedNotice) else Failure(AddFailedNotice))
  {
    if reply.Ok? then Success(AddedNotice) else Failure(AddFailedNotice)
  }

  class ServiceModalState {
    const serviceId: nat
    const original: seq<TariffView>
    var loading: bool
    var name: string
    var code: string
    var active: bool
    var tariffs: seq<TariffRow>
    var showNewTariffForm: bool
    var newTariff: TariffRow

    constructor (service: ServiceView, priceText: int -> string, now: int)
      ensures serviceId == service.id && original == service.tariffs
      ensures name == service.name && code == service.code && active == service.active
      ensures tariffs == InitialRows(service.tariffs, priceText)
      ensures !loading && !showNewTariffForm && newTariff == BlankTariff(now)
    {
      serviceId := service.id;
      original := service.tariffs;
      loading := false;
      name := service.name;
      code := service.code;
      active := service.active;
      tariffs := InitialRows(service.tariffs, priceText);
      showNewTariffForm := false;
      newTariff := BlankTariff(now);
    }

    /** handleServiceUpdate: an empty name or code stops it; otherwise the
        name, code and `active` as text are sent (and no description). */
    method HandleServiceUpdate() returns (sent: Option<ServiceStore.UpdateServiceForm>)
      modifies this`loading
      ensures name == "" || code == "" ==> sent.None? && loading == old(loading)
      ensures name != "" && code != "" ==>
        sent == Some(ServiceStore.UpdateServiceForm(Some(name), Some(code), None,
                                                    Some(if active then "true" else "false")))
        && !loading
    {
      if name == "" || code == "" { return None; }
      loading := true;
      sent := Some(ServiceStore.UpdateServiceForm(Some(name), Some(code), None, Some(if active then "true" else "false")));
      loading := false;
    }

    /** handleAddTariff: a missing price or start stops it; otherwise the form
        is sent and, since createServiceTariff answers instead of throwing,
        the new-tariff form is cleared and hidden and success announced
        whatever the answer (`AddNoticeAsWritten`; `AddNotice` is what the
        answer means). */
    method HandleAddTariff(toIso: int -> string, now: int, reply: Result<TariffStore.Tariff>)
      returns (sent: Option<TariffStore.TariffForm>, notice: Option<Notice>)
      modifies this`loading, this`newTariff, this`showNewTariffForm
      ensures old(newTariff).unitPrice == "" || old(newTariff).validFrom.None? ==>
        sent.None? && notice.None? && newTariff == old(newTariff) && showNewTariffForm == old(showNewTariffForm)
        && loading == old(loading)
      ensures old(newTariff).unitPrice != "" && old(newTariff).validFrom.Some? ==>
        sent == Some(TariffStore.TariffForm(Some(NatToString(serviceId)), Some(old(newTariff).unitPrice),
                                            Some(toIso(old(newTariff).validFrom.value)),
                                            if old(newTariff).validTo.Some? then Some(toIso(old(newTariff).validTo.value)) else None))
        && notice == Some(Success(AddedNotice)) && !loading
        && newTariff == BlankTariff(now) && !showNewTariffForm
    {
      if newTariff.unitPrice == "" || newTariff.validFrom.None? { return None, None; }
      loading := true;
      sent := Some(TariffStore.TariffForm(Some(NatToString(serviceId)), Some(newTariff.unitPrice),
                                          Some(toIso(newTariff.validFrom.value)),
                                          if newTariff.validTo.Some? then Some(toIso(newTariff.validTo.value)) else None));
      notice := Some(AddNoticeAsWritten(reply));
      newTariff := BlankTariff(now);
      showNewTariffForm := false;
      loading := false;
    }

    /** handleUpdateTariff: the row needs a price, a start and an id (0 reads
        as none); after a successful update it leaves editing. An index with
        no row reads a field of `undefined`, so a TypeError escapes the
        handler (`threw`) before anything changes. */
    method HandleUpdateTariff(index: int, toIso: int -> string, succeeded: bool)
      returns (sent: Option<(int, TariffStore.UpdateForm)>, threw: bool)
      modifies this`loading, this`tariffs
      ensures threw <==> !(0 <= index < |old(tariffs)|)
      ensures !(0 <= index < |old(tariffs)|) ==> sent.None? && tariffs == old(tariffs) && loading == old(loading)
      ensures 0 <= index < |old(tariffs)| ==>
        var row := old(tariffs)[index];
        (sent.Some? <==> row.unitPrice != "" && row.validFrom.Some? && row.id.Some? && row.id.value != 0)
        && (sent.Some? ==>
              sent.value == (row.id.value, TariffStore.UpdateForm(Some(row.unitPrice), Some(toIso(row.validFrom.value)),
                                                                  if row.validTo.Some? then Some(toIso(row.validTo.value)) else None))
              && !loading
              && tariffs == (if succeeded then old(tariffs)[index := row.(isEditing := false)] else old(tariffs)))
        && (sent.None? ==> tariffs == old(tariffs) && loading == old(loading))
    {
      if !(0 <= index < |tariffs|) { return None, true; }
      threw := false;
      var row := tariffs[index];
      if row.unitPrice == "" || row.validFrom.None? || row.id.None? || row.id.value == 0 { return None, false; }
      loading := true;
      sent := Some((row.id.value, TariffStore.UpdateForm(Some(row.unitPrice), Some(toIso(row.validFrom.value)),
                                                         if row.validTo.Some? then Some(toIso(row.validTo.value)) else None)));
      if succeeded {
        tariffs := tariffs[index := row.(isEditing := false)];
      }
      loading := false;
    }

    /** handleDeleteTariff: after a successful delete every row with that id
        leaves the list, the others keep their order. */
    method HandleDeleteTariff(tariffId: nat, succeeded: bool)
      modifies this`loading, this`tariffs
      ensures !loading
      ensures !succeeded ==> tariffs == old(tariffs)
      ensures succeeded ==>
        (forall r :: r in tariffs <==> r in old(tariffs) && r.id != Some(tariffId))
        && |tariffs| <= |old(tariffs)| && Subsequence(tariffs, old(tariffs))
      ensures succeeded ==> tariffs == WithoutId(old(tariffs), tariffId)
    {
      loading := true;
      if succeeded {
        tariffs := WithoutId(tariffs, tariffId);
      }
      loading := false;
    }

    /** startEditingTariff: only that row enters editing; an index with no
        row throws a TypeError when `isEditing` is set on `undefined`, and
        the list stays as it was. */
    method StartEditingTariff(index: int) returns (threw: bool)
      modifies this`tariffs
      ensures threw <==> !(0 <= index < |old(tariffs)|)
      ensures 0 <= index < |old(tariffs)| ==> tariffs == old(tariffs)[index := old(tariffs)[index].(isEditing := true)]
      ensures !(0 <= index < |old(tariffs)|) ==> tariffs == old(tariffs)
    {
      threw := !(0 <= index < |tariffs|);
      if !threw {
        tariffs := tariffs[index := tariffs[index].(isEditing := true)];
      }
    }

    /** cancelEditingTariff: the row is rebuilt from the stored tariff with
        its id; a row with no stored tariff keeps its edits and leaves
        editing. An index with no row throws a TypeError when `isEditing` is
        set on `undefined`, and the list stays as it was. */
    method CancelEditingTariff(index: int, priceText: int -> string) returns (threw: bool)
      modifies this`tariffs
      ensures threw <==> !(0 <= index < |old(tariffs)|)
      ensures !(0 <= index < |old(tariffs)|) ==> tariffs == old(tariffs)
      ensures 0 <= index < |old(tariffs)| ==>
        var found := FindOriginal(original, old(tariffs)[index].id);
        tariffs == old(tariffs)[index := if found.Some? then RowOf(found.value, priceText)
                                         else old(tariffs)[index].(isEditing := false)]
    {
      if !(0 <= index < |tariffs|) { return true; }
      threw := false;
      var found := FindOriginal(original, tariffs[index].id);
      if found.Some? {
        tariffs := tariffs[index := RowOf(found.value, priceText)];
      } else {
        tariffs := tariffs[index := tariffs[index].(isEditing := false)];
      }
    }

    /** updateTariffField: one field of that row changes, nothing else. The
        source does not throw past the end: it writes a new element there and
        leaves holes before it, which no sequence represents, so the index is
        one of an existing row, as at every call site. */
    method UpdateTariffField(index: int, value: FieldValue)
      requires 0 <= index < |tariffs|
      modifies this`tariffs
      ensures tariffs == old(tariffs)[index := WithField(old(tariffs)[index], value)]
    {
      tariffs := tariffs[index := WithField(tariffs[index], value)];
    }
  }

  /** `tariffs.filter((t) => t.id !== tariffId)` */
  function WithoutId(rows: seq<TariffRow>, id: nat): (r: seq<TariffRow>)
    ensures forall x :: x in r <==> x in rows && x.id != Some(id)
    ensures |r| <= |rows|
    ensures Subsequence(r, rows)
  {
    if rows == [] then []
    else
      var rest := WithoutId(rows[1..], id);
      assert forall x :: x in rows <==> x == rows[0] || x in rows[1..];
      if rows[0].id != Some(id) then
        assert ([rows[0]] + rest)[1..] == rest;
        [rows[0]] + rest
      else
        assert rest != [] ==> rest[0] in rest && rest[0] != rows[0];
        rest
  }

  /** Each row without that id stays as many times as it was listed. */
  lemma {:induction false} WithoutIdCount(rows: seq<TariffRow>, id: nat, x: TariffRow)
    ensures multiset(WithoutId(rows, id))[x] == if x.id != Some(id) then multiset(rows)[x] else 0
  {
    if rows != [] {
      WithoutIdCount(rows[1..], id, x);
      var rest := WithoutId(rows[1..], id);
      assert WithoutId(rows, id) == if rows[0].id != Some(id) then [rows[0]] + rest else rest;
      assert multiset(rows) == multiset{rows[0]} + multiset(rows[1..]) by {
        assert rows == [rows[0]] + rows[1..];
      }
    }
  }

  /** Cancelling right after starting to edit an unchanged stored row gives
      back the row the modal opened with. */
  lemma CancelRestoresOpenedRow(ts: seq<TariffView>, i: nat, priceText: int -> string)
    requires i < |ts|
    requires forall j, k :: 0 <= j < k < |ts| ==> ts[j].id != ts[k].id
    ensures FindOriginal(ts, InitialRows(ts, priceText)[i].id) == Some(ts[i])
  {
    FirstWithId(ts, i);
  }

  lemma {:induction false} FirstWithId(ts: seq<TariffView>, i: nat)
    requires i < |ts|
    requires forall j, k :: 0 <= j < k < |ts| ==> ts[j].id != ts[k].id
    ensures FindOriginal(ts, Some(ts[i].id)) == Some(ts[i])
  {
    if i > 0 {
      assert ts[0].id != ts[i].id;
      FirstWithId(ts[1..], i - 1);
    }
  }

  /** Saving the service from the modal sends no description, and the server
      then stores none: the modal's update clears a description. */
  lemma ModalUpdateClearsDescription(name: string, code: string, active: bool)
    requires name != "" && code != ""
    ensures
      var form := ServiceStore.UpdateServiceForm(Some(name), Some(code), None, Some(if active then "true" else "false"));
      ServiceStore.ParseUpdateServiceForm(form).Ok?
      && ServiceStore.ParseUpdateServiceForm(form).value.description.None?
      && ServiceStore.ParseUpdateServiceForm(form).value.active == active
  {
  }
}
