/** The tariff creation page (service-tariff/create/page/Form.tsx and
    TariffBulkList.tsx): a form validated by its schema, and a list of
    tariffs to create together, at most one per service. Money is in
    cents. `toIso` renders an instant as `toISOString()` does. */
module TariffCreateForm {
  import opened Common
  import opened JsText
  import opened PtBrNumber
  import BulkAdjust
  import TariffStore

  /** A service the page offers. */
  datatype ServiceOption = ServiceOption(id: nat, code: string, name: string)

  /** The form's values: the chosen code, the price as typed and the range. */
  datatype FormData = FormData(serviceCode: string, price: string, from: int, to: int)

  /** createServiceTariffSchema: a code, and a price in the pt-BR pattern. */
  predicate SchemaValid(data: FormData) {
    JsLength(data.serviceCode) >= 1 && PtBrPrice(data.price)
  }

  /** `services.find((s) => s.code === code)` */
  function FindByCode(services: seq<ServiceOption>, code: string): (r: Option<ServiceOption>)
    ensures r.Some? ==> r.value in services && r.value.code == code
    ensures r.None? <==> forall k :: 0 <= k < |services| ==> services[k].code != code
  {
    if services == [] then None
    else if services[0].code == code then Some(services[0])
    else FindByCode(services[1..], code)
  }

  /** getService: the first service with that id. */
  function GetService(id: int, services: seq<ServiceOption>): (r: Option<nat>)
    ensures r.Some? ==> r.value < |services| && services[r.value].id == id
    ensures r.Some? ==> forall k :: 0 <= k < r.value ==> services[k].id != id
    ensures r.None? <==> forall k :: 0 <= k < |services| ==> services[k].id != id
  {
    if services == [] then None
    else if services[0].id == id then Some(0)
    else match GetService(id, services[1..])
      case None => None
      case Some(k) => Some(k + 1)
  }

  /** isTariffInList */
  predicate IsTariffInList(serviceId: int, items: seq<TariffStore.BulkTariffInput>) {
    exists i :: 0 <= i < |items| && items[i].serviceId == serviceId
  }

  lemma InListAfterAppend(serviceId: int, items: seq<TariffStore.BulkTariffInput>, item: TariffStore.BulkTariffInput)
    requires item.serviceId == serviceId
    ensures !IsTariffInList(serviceId, [])
    ensures IsTariffInList(serviceId, items + [item])
  {
    assert (items + [item])[|items|] == item;
  }

  /** buildTariffInput: nothing when no service has the chosen code;
      otherwise that service's id, the price read as cents, and the range
      (an end rendering as empty text reads as none). */
  function BuildTariffInput(services: seq<ServiceOption>, data: FormData, toIso: int -> string)
    : (r: Option<TariffStore.BulkTariffInput>)
    ensures r.None? <==> forall k :: 0 <= k < |services| ==> services[k].code != data.serviceCode
    ensures r.Some? ==>
      FindByCode(services, data.serviceCode).Some? && r.value.serviceId == FindByCode(services, data.serviceCode).value.id
      && r.value.unitPrice == PriceCents(data.price) && r.value.validFrom == toIso(data.from)
      && r.value.validTo == (if toIso(data.to) == "" then None else Some(toIso(data.to)))
  {
    match FindByCode(services, data.serviceCode)
    case None => None
    case Some(service) =>
      Some(TariffStore.BulkTariffInput(service.id, PriceCents(data.price), toIso(data.from),
                                       if toIso(data.to) == "" then None else Some(toIso(data.to))))
  }

  /** The price a valid form carries is exactly what `parsePrice` reads from
      its text, in cents. */
  lemma BuiltPriceIsParsedPrice(services: seq<ServiceOption>, data: FormData, toIso: int -> string)
    requires SchemaValid(data) && BuildTariffInput(services, data, toIso).Some?
    ensures ParseFloat(Normalized(data.price)) == Finite(BuildTariffInput(services, data, toIso).value.unitPrice as real / 100.0)
  {
    assert BuildTariffInput(services, data, toIso).value.unitPrice == PriceCents(data.price);
    assert PtBrPrice(data.price);
    PriceReadsAsCents(data.price);
  }

  /** The default range: 1 January to 31 December of the current year. */
  function DefaultFrom(currentYear: int): BulkAdjust.LocalDateTime { BulkAdjust.LocalDateTime(currentYear, 0, 1, 0, 0, 0, 0) }
  function DefaultTo(currentYear: int): BulkAdjust.LocalDateTime { BulkAdjust.LocalDateTime(currentYear, 11, 31, 0, 0, 0, 0) }

  lemma DefaultRangeIsCurrentYear(currentYear: int)
    ensures DefaultFrom(currentYear).year == DefaultTo(currentYear).year == currentYear
    ensures BulkAdjust.MsInYear(DefaultFrom(currentYear)) == 0
    ensures BulkAdjust.MsInYear(DefaultTo(currentYear)) == (BulkAdjust.DaysInYear(currentYear) - 1) * 86400000
  {
  }

  /** What adding to the list did. */
  datatype AddOutcome = Invalid | ServiceNotFound | AlreadyListed | Added

  /** Every listed service id appears once. */
  predicate DistinctServices(items: seq<TariffStore.BulkTariffInput>) {
    forall i, j :: 0 <= i < j < |items| ==> items[i].serviceId != items[j].serviceId
  }

  class TariffDraft {
    var services: seq<ServiceOption>
    var items: seq<TariffStore.BulkTariffInput>

    ghost predicate Valid()
      reads this
    {
      DistinctServices(items) && forall i :: 0 <= i < |items| ==> items[i].unitPrice >= 0
    }

    constructor (initialServices: seq<ServiceOption>)
      ensures Valid() && services == initialServices && items == []
    {
      services := initialServices;
      items := [];
    }

    /** The offered services after a date range change. */
    method ShowServices(available: seq<ServiceOption>)
      modifies this`services
      ensures services == available
    {
      services := available;
    }

    /** handleAddToList, behind the schema: an unknown code or a service
        already listed leaves the list alone; otherwise the built tariff is
        appended. */
    method AddToList(data: FormData, toIso: int -> string) returns (outcome: AddOutcome)
      requires Valid()
      modifies this`items
      ensures Valid()
      ensures outcome == (if !SchemaValid(data) then Invalid
                          else match FindByCode(services, data.serviceCode)
                            case None => ServiceNotFound
                            case Some(s) => if IsTariffInList(s.id, old(items)) then AlreadyListed else Added)
      ensures outcome != Added ==> items == old(items)
      ensures outcome == Added ==> items == old(items) + [BuildTariffInput(services, data, toIso).value]
    {
      if !SchemaValid(data) { return Invalid; }
      var service := FindByCode(services, data.serviceCode);
      if service.None? { return ServiceNotFound; }
      if IsTariffInList(service.value.id, items) { return AlreadyListed; }
      var input := BuildTariffInput(services, data, toIso);
      items := items + [input.value];
      outcome := Added;
    }

    /** removeFromBulkList: drop position `index`; any other index keeps
        the list. */
    method RemoveFromBulkList(index: int)
      requires Valid()
      modifies this`items
      ensures Valid()
      ensures 0 <= index < |old(items)| ==> items == old(items)[..index] + old(items)[index + 1..]
      ensures !(0 <= index < |old(items)|) ==> items == old(items)
    {
      if 0 <= index < |items| {
        ghost var before := items;
        items := items[..index] + items[index + 1..];
        assert forall k :: 0 <= k < |items| ==> items[k] == if k < index then before[k] else before[k + 1];
      }
    }

    /** handleSaveBulk with handleBulkSuccess: nothing is sent for an empty
        list; the list empties only when every tariff was created. */
    method SaveBulk(reply: TariffStore.Completion<TariffStore.BulkCreateResult>) returns (sent: Option<seq<TariffStore.BulkTariffInput>>)
      requires Valid()
      modifies this`items
      ensures Valid()
      ensures old(items) == [] ==> sent.None? && items == []
      ensures old(items) != [] ==> sent == Some(old(items))
      ensures old(items) != [] && reply == TariffStore.Completed(TariffStore.BulkCreated) ==> items == []
      ensures !(reply == TariffStore.Completed(TariffStore.BulkCreated)) ==> items == old(items)
    {
      if items == [] { return None; }
      sent := Some(items);
      if reply == TariffStore.Completed(TariffStore.BulkCreated) {
        items := [];
      }
    }
  }

  /** A listed draft meets the server's per-entry checks whenever the
      services have non-zero ids and the start renders as some text. */
  lemma DraftPassesServerCheck(items: seq<TariffStore.BulkTariffInput>)
    requires items != [] && forall i :: 0 <= i < |items| ==> items[i].unitPrice >= 0
    requires forall i :: 0 <= i < |items| ==> items[i].serviceId != 0 && items[i].validFrom != ""
    ensures TariffStore.ValidateBulkTariffInput(items, 0).None?
  {
  }

  /** The count label: "tarifa" alone for one item, "tarifas" otherwise;
      an empty list shows nothing. */
  function ListHeader(items: seq<TariffStore.BulkTariffInput>): (r: Option<string>)
    ensures r.None? <==> items == []
    ensures r.Some? ==> (EndsWith(r.value, "tarifas") <==> |items| != 1)
    ensures r.Some? ==> StartsWith(r.value, NatToString(|items|) + " ")
    ensures r.Some? ==> r.value == NatToString(|items|) + (if |items| == 1 then " tarifa" else " tarifas")
  {
    if items == [] then None
    else
      var count := NatToString(|items|) + " ";
      var word := if |items| == 1 then "tarifa" else "tarifas";
      assert (count + word)[..|count|] == count;
      assert |items| == 1 ==> !EndsWith(count + word, "tarifas") by {
        if |items| == 1 { assert count == "1 "; assert (count + word)[|count + word| - 7..] == " tarifa"; }
      }
      assert (count + word)[|count + word| - |word|..] == word;
      Some(count + word)
  }
}
