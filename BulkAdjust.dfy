/** The bulk price adjustment of the tariff manager
    (components/bulkAdjustment/tariffUtils.ts and useBulkAdjustment.tsx):
    raise every active service's current price by a percentage, preview the
    new prices, edit them one by one and send them as one bulk update.
    Prices are integer cents, so `Math.round(price * 100)` is the price
    itself. `parseFloat` is an oracle (`None` for NaN); turning a local date
    into ISO text is another. */
module BulkAdjust {
  import opened Common
  import opened JsText
  import opened Catalog
  import TariffStore

  /** parsePercentage: the first ',' becomes '.', and NaN (like 0) reads
      as 0. */
  function ParsePercentage(value: string, parseNumber: string -> Option<real>): (p: real)
    ensures parseNumber(ReplaceFirst(value, ',', '.')).None? ==> p == 0.0
    ensures parseNumber(ReplaceFirst(value, ',', '.')).Some? ==> p == parseNumber(ReplaceFirst(value, ',', '.')).value
  {
    parseNumber(ReplaceFirst(value, ',', '.')).GetOr(0.0)
  }

  predicate PercentChar(c: char) { IsDigit(c) || c == ',' || c == '.' }

  /** formatPercentageInput: keep only digits, ',' and '.', in order. */
  function FormatPercentageInput(value: string): (r: string)
    ensures forall i :: 0 <= i < |r| ==> PercentChar(r[i])
    ensures |r| <= |value|
    ensures (forall i :: 0 <= i < |value| ==> PercentChar(value[i])) ==> r == value
  {
    if value == [] then []
    else if PercentChar(value[0]) then [value[0]] + FormatPercentageInput(value[1..])
    else FormatPercentageInput(value[1..])
  }

  /** Formatting an already formatted input changes nothing. */
  lemma {:induction false} FormatPercentageIdempotent(value: string)
    ensures FormatPercentageInput(FormatPercentageInput(value)) == FormatPercentageInput(value)
  {
    if value != [] {
      FormatPercentageIdempotent(value[1..]);
      if PercentChar(value[0]) {
        assert ([value[0]] + FormatPercentageInput(value[1..]))[1..] == FormatPercentageInput(value[1..]);
      }
    }
  }

  /** applyPercentage in cents: `price · (100 + p) / 100`, rounded half up to
      a cent. */
  function ApplyPercentage(cents: int, p: real): (r: int)
    ensures (cents as real) * (100.0 + p) / 100.0 - 1.0 / 2.0 < r as real <= (cents as real) * (100.0 + p) / 100.0 + 1.0 / 2.0
  {
    JsRound((cents as real) * (100.0 + p) / 100.0)
  }

  /** A zero adjustment keeps the price. */
  lemma ApplyZeroPercentage(cents: int)
    ensures ApplyPercentage(cents, 0.0) == cents
  {
  }

  /** A raise never lowers a non-negative price. */
  lemma RaiseNeverLowers(cents: int, p: real)
    requires cents >= 0 && p >= 0.0
    ensures ApplyPercentage(cents, p) >= cents
  {
    var c := cents as real;
    assert c * (100.0 + p) / 100.0 == c + c * p / 100.0;
    assert c * p >= 0.0;
  }

  /** One row of the preview. */
  datatype Item = Item(serviceId: nat, serviceName: string, serviceCode: string, currentPrice: int,
                       currentTariffId: nat, newPrice: int, isEditing: bool)

  /** A service gets a row when it is active and has a tariff at all. */
  predicate Eligible(s: ServiceView) { s.active && s.tariffs != [] }

  /** createItemData, for the tariff getCurrentTariff picks. */
  function ItemFor(s: ServiceView, pct: real, now: int): (item: Item)
    requires Eligible(s)
    ensures var t := GetCurrentTariff(s.tariffs, now).value;
      item.serviceId == s.id && item.serviceName == s.name && item.serviceCode == s.code
      && item.currentPrice == t.unitPrice && item.currentTariffId == t.id
      && item.newPrice == ApplyPercentage(t.unitPrice, pct) && !item.isEditing
  {
    var t := GetCurrentTariff(s.tariffs, now).value;
    Item(s.id, s.name, s.code, t.unitPrice, t.id, ApplyPercentage(t.unitPrice, pct), false)
  }

  /** The positions, from `from` on, of the services that get a row, in
      increasing order. */
  function EligibleFrom(services: seq<ServiceView>, from: nat): (ix: seq<nat>)
    requires from <= |services|
    ensures forall i :: 0 <= i < |ix| ==> from <= ix[i] < |services| && Eligible(services[ix[i]])
    ensures forall i, j :: 0 <= i < j < |ix| ==> ix[i] < ix[j]
    ensures forall k :: from <= k < |services| && Eligible(services[k]) ==> k in ix
    decreases |services| - from
  {
    if from == |services| then []
    else if Eligible(services[from]) then [from] + EligibleFrom(services, from + 1)
    else EligibleFrom(services, from + 1)
  }

  function BuildFrom(services: seq<ServiceView>, from: nat, pct: real, now: int): (items: seq<Item>)
    requires from <= |services|
    ensures |items| == |EligibleFrom(services, from)|
    ensures forall i :: 0 <= i < |items| ==>
      items[i] == ItemFor(services[EligibleFrom(services, from)[i]], pct, now)
    decreases |services| - from
  {
    if from == |services| then []
    else if Eligible(services[from]) then [ItemFor(services[from], pct, now)] + BuildFrom(services, from + 1, pct, now)
    else BuildFrom(services, from + 1, pct, now)
  }

  /** buildBulkItems: one row per active service with a tariff, in the
      services' order, each priced by the adjustment and not being edited. */
  function BuildBulkItems(services: seq<ServiceView>, pct: real, now: int): (items: seq<Item>)
    ensures |items| == |EligibleFrom(services, 0)| <= |services|
    ensures forall i :: 0 <= i < |items| ==> items[i] == ItemFor(services[EligibleFrom(services, 0)[i]], pct, now)
    ensures forall i :: 0 <= i < |items| ==> !items[i].isEditing
  {
    EligibleCount(services, 0);
    BuildFrom(services, 0, pct, now)
  }

  lemma {:induction false} EligibleCount(services: seq<ServiceView>, from: nat)
    requires from <= |services|
    ensures |EligibleFrom(services, from)| <= |services| - from
    decreases |services| - from
  {
    if from < |services| { EligibleCount(services, from + 1); }
  }

  /** transformItemsToUpdates: one update per row, in order, carrying the new
      price, the shared dates, the percentage as a fraction and the replaced
      tariff as predecessor. `validFromIso` and `validToIso` are the ISO
      texts of the chosen dates (`None` for no end). */
  function TransformItemsToUpdates(items: seq<Item>, validFromIso: string, validToIso: Option<string>, pct: real)
    : (updates: seq<TariffStore.BulkUpdate>)
    ensures |updates| == |items|
    ensures forall i :: 0 <= i < |items| ==>
      updates[i] == TariffStore.BulkUpdate(items[i].serviceId, Some(items[i].newPrice), validFromIso, validToIso,
                                           Some(pct / 100.0), Some(items[i].currentTariffId))
  {
    seq(|items|, i requires 0 <= i < |items| =>
      TariffStore.BulkUpdate(items[i].serviceId, Some(items[i].newPrice), validFromIso, validToIso,
                             Some(pct / 100.0), Some(items[i].currentTariffId)))
  }

  /** The updates the screen sends pass the server's validation whenever the
      rows have positive service ids and non-negative prices and the dates
      read back, the end after the start. */
  lemma UpdatesPassServerValidation(items: seq<Item>, validFromIso: string, validToIso: string, pct: real,
                                    parseDate: string -> Option<int>)
    requires items != []
    requires forall i :: 0 <= i < |items| ==> items[i].serviceId > 0 && items[i].newPrice >= 0
    requires parseDate(validFromIso).Some? && parseDate(validToIso).Some?
    requires parseDate(validToIso).value > parseDate(validFromIso).value
    requires validToIso != []
    ensures TariffStore.ValidateBulkUpdates(TransformItemsToUpdates(items, validFromIso, Some(validToIso), pct), parseDate).None?
  {
    var updates := TransformItemsToUpdates(items, validFromIso, Some(validToIso), pct);
    forall i | 0 <= i < |updates| ensures TariffStore.BulkItemError(updates[i], i, parseDate).None? {
      assert updates[i].serviceId == items[i].serviceId && updates[i].unitPrice == Some(items[i].newPrice);
    }
  }

  /** A local calendar date and time (`new Date(y, m, d, ...)`, month from
      0). */
  datatype LocalDateTime = LocalDateTime(year: int, month: nat, day: nat, hour: nat, minute: nat, second: nat, ms: nat)

  /** getDefaultValidFrom: 1 January of next year, at midnight. */
  function DefaultValidFrom(currentYear: int): LocalDateTime { LocalDateTime(currentYear + 1, 0, 1, 0, 0, 0, 0) }

  /** getDefaultValidTo: 31 December of next year, at 23:59:59.999. */
  function DefaultValidTo(currentYear: int): LocalDateTime { LocalDateTime(currentYear + 1, 11, 31, 23, 59, 59, 999) }

  /** The Gregorian leap-year rule of JavaScript's `Date`. */
  predicate IsLeapYear(y: int) { y % 4 == 0 && (y % 100 != 0 || y % 400 == 0) }

  function DaysInYear(y: int): nat { if IsLeapYear(y) then 366 else 365 }

  /** Days of year `y` before the first of month `m` (0 = January). */
  function DaysBeforeMonth(y: int, m: nat): nat
    requires m < 12
  {
    [0, 31, 59, 90, 120, 151, 181, 212, 243, 273, 304, 334][m] + (if m >= 2 && IsLeapYear(y) then 1 else 0)
  }

  /** `(y, m, d, h, min, s, ms)` in milliseconds from the start of its year. */
  function MsInYear(t: LocalDateTime): int
    requires t.month < 12
  {
    ((((DaysBeforeMonth(t.year, t.month) + t.day - 1) * 24 + t.hour) * 60 + t.minute) * 60 + t.second) * 1000 + t.ms
  }

  /** The default range is the whole of next year, leap or not: same year,
      from its first millisecond to its last. */
  lemma DefaultRangeIsNextYear(currentYear: int)
    ensures DefaultValidFrom(currentYear).year == DefaultValidTo(currentYear).year == currentYear + 1
    ensures MsInYear(DefaultValidFrom(currentYear)) == 0
    ensures MsInYear(DefaultValidTo(currentYear)) == DaysInYear(currentYear + 1) * 86400000 - 1
  {
  }

  /** The rows after setting row `index`'s new price (the others unchanged). */
  function PricedAt(items: seq<Item>, index: int, newPrice: int): (r: seq<Item>)
    ensures |r| == |items|
    ensures forall i :: 0 <= i < |items| && i != index ==> r[i] == items[i]
    ensures 0 <= index < |items| ==> r[index] == items[index].(newPrice := newPrice)
  {
    if 0 <= index < |items| then items[index := items[index].(newPrice := newPrice)] else items
  }

  /** The rows after flipping row `index`'s editing flag. */
  function ToggledAt(items: seq<Item>, index: int): (r: seq<Item>)
    ensures |r| == |items|
    ensures forall i :: 0 <= i < |items| && i != index ==> r[i] == items[i]
    ensures 0 <= index < |items| ==> r[index] == items[index].(isEditing := !items[index].isEditing)
  {
    if 0 <= index < |items| then items[index := items[index].(isEditing := !items[index].isEditing)] else items
  }

  /** Toggling the same row twice restores the rows. */
  lemma ToggledTwice(items: seq<Item>, index: int)
    ensures ToggledAt(ToggledAt(items, index), index) == items
  {
  }

  /** The state of the bulk adjustment dialog. */
  class Adjustment {
    var loading: bool
    var percentage: string
    var validFrom: LocalDateTime
    var validTo: Option<LocalDateTime>
    var items: seq<Item>
    var showPreview: bool

    /** The state the dialog starts in and returns to on reset. */
    predicate Initial(currentYear: int)
      reads this
    {
      percentage == "" && items == [] && !showPreview
      && validFrom == DefaultValidFrom(currentYear) && validTo == Some(DefaultValidTo(currentYear))
    }

    constructor (currentYear: int)
      ensures Initial(currentYear) && !loading
    {
      loading := false;
      percentage := "";
      validFrom := DefaultValidFrom(currentYear);
      validTo := Some(DefaultValidTo(currentYear));
      items := [];
      showPreview := false;
    }

    /** validateAndCalculate: a percentage that reads as 0 or less changes
        nothing; otherwise the rows are rebuilt and the preview shown. */
    method Calculate(services: seq<ServiceView>, now: int, parseNumber: string -> Option<real>)
      returns (accepted: bool)
      modifies this`items, this`showPreview
      ensures accepted <==> ParsePercentage(old(percentage), parseNumber) > 0.0
      ensures !accepted ==> items == old(items) && showPreview == old(showPreview)
      ensures accepted ==> items == BuildBulkItems(services, ParsePercentage(percentage, parseNumber), now) && showPreview
    {
      var pct := ParsePercentage(percentage, parseNumber);
      if pct <= 0.0 { return false; }
      items := BuildBulkItems(services, pct, now);
      showPreview := true;
      accepted := true;
    }

    /** handleRecalculate: rebuild the rows with whatever the percentage reads
        as, without the positivity check. */
    method Recalculate(services: seq<ServiceView>, now: int, parseNumber: string -> Option<real>)
      modifies this`items
      ensures items == BuildBulkItems(services, ParsePercentage(percentage, parseNumber), now)
    {
      items := BuildBulkItems(services, ParsePercentage(percentage, parseNumber), now);
    }

    /** updateItemPrice: the typed price (first ',' read as '.', NaN as 0) goes
        to that row only. `parseCents` reads a decimal text as cents. */
    method UpdateItemPrice(index: int, value: string, parseCents: string -> Option<int>)
      modifies this`items
      ensures items == PricedAt(old(items), index, parseCents(ReplaceFirst(value, ',', '.')).GetOr(0))
    {
      var newPrice := parseCents(ReplaceFirst(value, ',', '.')).GetOr(0);
      items := PricedAt(items, index, newPrice);
    }

    /** toggleEditing */
    method ToggleEditing(index: int)
      modifies this`items
      ensures items == ToggledAt(old(items), index)
    {
      items := ToggledAt(items, index);
    }

    /** handleApply: nothing happens without rows; otherwise the updates for
        the chosen dates and percentage are sent and loading ends. `toIso`
        renders a local date as ISO text. */
    method Apply(parseNumber: string -> Option<real>, toIso: LocalDateTime -> string)
      returns (sent: Option<seq<TariffStore.BulkUpdate>>)
      modifies this`loading
      ensures old(items) == [] ==> sent.None? && loading == old(loading)
      ensures old(items) != [] ==>
        !loading
        && sent == Some(TransformItemsToUpdates(items, toIso(validFrom),
                                                if validTo.Some? then Some(toIso(validTo.value)) else None,
                                                ParsePercentage(percentage, parseNumber)))
    {
      if items == [] { return None; }
      loading := true;
      var updates := TransformItemsToUpdates(items, toIso(validFrom),
                                             if validTo.Some? then Some(toIso(validTo.value)) else None,
                                             ParsePercentage(percentage, parseNumber));
      loading := false;
      sent := Some(updates);
    }

    /** resetState: back to the initial state for the current year. */
    method ResetState(currentYear: int)
      modifies this`percentage, this`items, this`showPreview, this`validFrom, this`validTo
      ensures Initial(currentYear)
    {
      percentage := "";
      items := [];
      showPreview := false;
      validFrom := DefaultValidFrom(currentYear);
      validTo := Some(DefaultValidTo(currentYear));
    }
  }
}
