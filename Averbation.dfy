/** The averbation calculator (averb/calculation/calculatePercentage.ts,
    averb/utils/serviceFetcher.ts, averb/calculation/calculateAverbation.ts):
    a declared value picks a band letter; the letter picks three services,
    emoluments (`.E`), CCRCPN (`.C`) and ISS (`.I`); averbation costs 20% of
    each of their current prices. Prices are in cents. Both the ranges query
    and the services query are modelled over the stored services and their
    tariffs. */
module Averbation {
  import opened Common
  import opened JsText
  import opened Catalog
  import opened AverbRanges

  const AverbPercentage := 20

  /** calculatePercentageOf, in cents: `Math.round(cents * p / 100)`. */
  function PercentageOf(cents: int, percentage: int): (r: int)
    ensures (cents * percentage) as real / 100.0 - 1.0 / 2.0 < r as real <= (cents * percentage) as real / 100.0 + 1.0 / 2.0
  {
    JsRound((cents * percentage) as real / 100.0)
  }

  /** A fifth of a non-negative price, rounded, lies between nothing and the
      price. */
  lemma FifthWithinPrice(cents: int)
    ensures cents >= 0 ==> 0 <= PercentageOf(cents, AverbPercentage) <= cents
  {
    var r := PercentageOf(cents, AverbPercentage);
    assert (cents * 20) as real / 100.0 == cents as real / 5.0;
  }

  datatype AverbTariffs = AverbTariffs(emoluments: int, ccrcpn: int, iss: int)

  datatype AverbResult = AverbResult(emoluments: int, ccrcpn: int, iss: int, total: int, appliedLetter: string, baseValue: real)

  /** calculateAverbTariffs: 20% of each part, their sum, and the letter and
      value passed through. */
  function CalculateAverbTariffs(t: AverbTariffs, letter: string, baseValue: real): (r: AverbResult)
    ensures r.emoluments == PercentageOf(t.emoluments, AverbPercentage)
    ensures r.ccrcpn == PercentageOf(t.ccrcpn, AverbPercentage)
    ensures r.iss == PercentageOf(t.iss, AverbPercentage)
    ensures r.total == r.emoluments + r.ccrcpn + r.iss
    ensures r.appliedLetter == letter && r.baseValue == baseValue
    ensures t.emoluments >= 0 && t.ccrcpn >= 0 && t.iss >= 0 ==>
      0 <= r.emoluments <= t.emoluments && 0 <= r.ccrcpn <= t.ccrcpn && 0 <= r.iss <= t.iss
      && r.total <= t.emoluments + t.ccrcpn + t.iss
  {
    var e := PercentageOf(t.emoluments, AverbPercentage);
    var c := PercentageOf(t.ccrcpn, AverbPercentage);
    var i := PercentageOf(t.iss, AverbPercentage);
    FifthWithinPrice(t.emoluments);
    FifthWithinPrice(t.ccrcpn);
    FifthWithinPrice(t.iss);
    AverbResult(e, c, i, e + c + i, letter, baseValue)
  }

  /** buildServiceCodes: the letter's code for each of the three parts. */
  function BuildServiceCodes(letter: string): (codes: seq<string>)
    ensures |codes| == 3
    ensures forall i :: 0 <= i < 3 ==> StartsWith(codes[i], "IV.1." + letter + ".") && |codes[i]| == |letter| + 7
    ensures EndsWith(codes[0], ".E") && EndsWith(codes[1], ".C") && EndsWith(codes[2], ".I")
  {
    var base := "IV.1." + letter;
    var codes := [base + ".E", base + ".C", base + ".I"];
    assert forall i :: 0 <= i < 3 ==> codes[i][..|base| + 1] == base + ".";
    codes
  }

  /** A stored tariff, with the instant of its last update. */
  datatype StoredTariff = StoredTariff(id: nat, unitPrice: int, validFrom: int, validTo: Option<int>, updatedAt: int)

  datatype StoredService = StoredService(id: nat, name: string, code: string, active: bool, tariffs: seq<StoredTariff>)

  function AsView(t: StoredTariff): TariffView { TariffView(t.id, t.unitPrice, t.validFrom, t.validTo) }

  /** The `where` of the included tariffs: started, and not ended before now. */
  predicate StoredInForce(t: StoredTariff, now: int) { InForce(AsView(t), now) }

  function InForceTariffs(ts: seq<StoredTariff>, now: int): (r: seq<StoredTariff>)
    ensures forall t :: t in r <==> t in ts && StoredInForce(t, now)
  {
    if ts == [] then []
    else
      var rest := InForceTariffs(ts[1..], now);
      assert forall t :: t in ts <==> t == ts[0] || t in ts[1..];
      if StoredInForce(ts[0], now) then [ts[0]] + rest else rest
  }

  function Recency(t: StoredTariff): (int, int) { (t.validFrom, t.updatedAt) }

  /** `orderBy: [{ validFrom: 'desc' }, { updatedAt: 'desc' }]` */
  function NewerOrSame(a: (int, int), b: (int, int)): bool { a.0 > b.0 || (a.0 == b.0 && a.1 >= b.1) }

  lemma NewerOrSameIsPreorder()
    ensures TotalPreorder(NewerOrSame)
  {
  }

  /** The included `serviceTariffs`: those in force now, newest start first
      and then latest update, `take: 1`. The one kept is in force and no
      other tariff in force is newer. */
  function NewestInForce(ts: seq<StoredTariff>, now: int): (r: seq<TariffView>)
    ensures |r| <= 1
    ensures r == [] <==> forall k :: 0 <= k < |ts| ==> !StoredInForce(ts[k], now)
    ensures r != [] ==> exists k :: 0 <= k < |ts| && r[0] == AsView(ts[k]) && NewestOf(ts, k, now)
  {
    var kept := InForceTariffs(ts, now);
    var sorted := SortOn(kept, Recency, NewerOrSame);
    SortOnMembers(kept, Recency, NewerOrSame);
    NewerOrSameIsPreorder();
    if sorted == [] then
      assert forall k :: 0 <= k < |ts| ==> !StoredInForce(ts[k], now) by {
        forall k | 0 <= k < |ts| ensures !StoredInForce(ts[k], now) { assert ts[k] in ts && ts[k] !in sorted; }
      }
      []
    else
      assert sorted[0] in ts;
      var k :| 0 <= k < |ts| && ts[k] == sorted[0];
      forall j | 0 <= j < |ts| && StoredInForce(ts[j], now) ensures NewerOrSame(Recency(ts[k]), Recency(ts[j])) {
        assert ts[j] in sorted;
        var m :| 0 <= m < |sorted| && sorted[m] == ts[j];
        if m > 0 { assert NewerOrSame(Recency(sorted[0]), Recency(sorted[m])); }
      }
      assert NewestOf(ts, k, now);
      [AsView(sorted[0])]
  }

  /** Tariff `k` is in force and no tariff in force is newer. */
  predicate NewestOf(ts: seq<StoredTariff>, k: nat, now: int) {
    k < |ts| && StoredInForce(ts[k], now)
    && forall j :: 0 <= j < |ts| && StoredInForce(ts[j], now) ==> NewerOrSame(Recency(ts[k]), Recency(ts[j]))
  }

  /** `OR: codes.map((code) => ({ code: { contains: code } }))` */
  predicate MatchesAny(code: string, codes: seq<string>) {
    exists i :: 0 <= i < |codes| && Contains(code, codes[i])
  }

  function AsServiceView(s: StoredService, now: int): ServiceView {
    ServiceView(s.id, s.name, s.code, s.active, NewestInForce(s.tariffs, now))
  }

  /** The services query of fetchServiceTariffs: every stored service, in
      storage order, whose code contains one of the codes, with its newest
      tariff in force. */
  function QueryServices(stored: seq<StoredService>, codes: seq<string>, now: int): (r: seq<ServiceView>)
    ensures |r| <= |stored|
    ensures forall v :: v in r ==> exists s :: s in stored && MatchesAny(s.code, codes) && v == AsServiceView(s, now)
    ensures forall s :: s in stored && MatchesAny(s.code, codes) ==> AsServiceView(s, now) in r
  {
    if stored == [] then []
    else
      var rest := QueryServices(stored[1..], codes, now);
      var r := if MatchesAny(stored[0].code, codes) then [AsServiceView(stored[0], now)] + rest else rest;
      assert forall v :: v in r ==> exists s :: s in stored && MatchesAny(s.code, codes) && v == AsServiceView(s, now) by {
        forall v | v in r ensures exists s :: s in stored && MatchesAny(s.code, codes) && v == AsServiceView(s, now) {
          if v in rest {
            var s :| s in stored[1..] && MatchesAny(s.code, codes) && v == AsServiceView(s, now);
            assert s in stored;
          } else {
            assert stored[0] in stored;
          }
        }
      }
      assert forall s :: s in stored && MatchesAny(s.code, codes) ==> AsServiceView(s, now) in r by {
        forall s | s in stored && MatchesAny(s.code, codes) ensures AsServiceView(s, now) in r {
          if s != stored[0] {
            assert s in stored[1..];
          }
        }
      }
      r
  }

  /** The stored service `s` matches the query, its trimmed code ends with
      `suffix`, and `price` is that of its newest tariff in force. */
  predicate PricedBy(s: StoredService, codes: seq<string>, suffix: string, now: int, price: int) {
    MatchesAny(s.code, codes) && EndsWith(Trim(s.code), suffix)
    && exists k :: 0 <= k < |s.tariffs| && NewestOf(s.tariffs, k, now) && s.tariffs[k].unitPrice == price
  }

  /** Each service's code, trimmed. */
  function TrimmedCodes(services: seq<ServiceView>): (codes: seq<string>)
    ensures |codes| == |services|
    ensures forall k :: 0 <= k < |services| ==> codes[k] == Trim(services[k].code)
  {
    seq(|services|, k requires 0 <= k < |services| => Trim(services[k].code))
  }

  /** `services.find((s) => s.code.trim().endsWith(suffix))`, over the
      trimmed codes: the first position whose code ends with `suffix`. */
  function FindBySuffix(codes: seq<string>, suffix: string): (r: Option<nat>)
    ensures r.Some? ==> r.value < |codes| && EndsWith(codes[r.value], suffix)
    ensures r.Some? ==> forall k :: 0 <= k < r.value ==> !EndsWith(codes[k], suffix)
    ensures r.None? <==> forall k :: 0 <= k < |codes| ==> !EndsWith(codes[k], suffix)
  {
    if codes == [] then None
    else if EndsWith(codes[0], suffix) then Some(0)
    else match FindBySuffix(codes[1..], suffix)
      case None => None
      case Some(k) => Some(k + 1)
  }

  /** The current price of the first service with that suffix, if both exist. */
  function PartPrice(services: seq<ServiceView>, suffix: string, now: int): (r: Option<int>)
    ensures r.Some? <==> FindBySuffix(TrimmedCodes(services), suffix).Some?
                         && FindCurrentTariff(services[FindBySuffix(TrimmedCodes(services), suffix).value].tariffs, now).Some?
    ensures r.Some? ==>
      var ts := services[FindBySuffix(TrimmedCodes(services), suffix).value].tariffs;
      r.value == ts[FindCurrentTariff(ts, now).value].unitPrice
  {
    var codes := TrimmedCodes(services);
    var found := FindBySuffix(codes, suffix);
    if found.None? then None
    else
      var ts := services[found.value].tariffs;
      var current := FindCurrentTariff(ts, now);
      if current.None? then None else Some(ts[current.value].unitPrice)
  }

  /** fetchServiceTariffs, over the services the query returned: nothing
      unless each part's service exists and has a tariff in force. */
  function FetchServiceTariffs(services: seq<ServiceView>, now: int): (r: Option<AverbTariffs>)
    ensures r.Some? <==> PartPrice(services, ".E", now).Some? && PartPrice(services, ".C", now).Some?
                         && PartPrice(services, ".I", now).Some?
    ensures r.Some? ==> r.value == AverbTariffs(PartPrice(services, ".E", now).value, PartPrice(services, ".C", now).value,
                                                PartPrice(services, ".I", now).value)
  {
    var e := PartPrice(services, ".E", now);
    var c := PartPrice(services, ".C", now);
    var i := PartPrice(services, ".I", now);
    if e.None? || c.None? || i.None? then None else Some(AverbTariffs(e.value, c.value, i.value))
  }

  /** A part's price read from the query is the price of the newest tariff
      in force of a stored service that matches the codes and ends with the
      part's suffix. */
  lemma PartPriceIsNewestInForce(stored: seq<StoredService>, codes: seq<string>, suffix: string, now: int)
    requires PartPrice(QueryServices(stored, codes, now), suffix, now).Some?
    ensures exists s :: s in stored && PricedBy(s, codes, suffix, now, PartPrice(QueryServices(stored, codes, now), suffix, now).value)
  {
    var views := QueryServices(stored, codes, now);
    var price := PartPrice(views, suffix, now).value;
    var i := FindBySuffix(TrimmedCodes(views), suffix).value;
    var v := views[i];
    assert v in views;
    var s :| s in stored && MatchesAny(s.code, codes) && v == AsServiceView(s, now);
    var j := FindCurrentTariff(v.tariffs, now).value;
    assert v.tariffs == NewestInForce(s.tariffs, now) && j == 0;
    var k :| 0 <= k < |s.tariffs| && v.tariffs[0] == AsView(s.tariffs[k]) && NewestOf(s.tariffs, k, now);
    assert PricedBy(s, codes, suffix, now, price);
  }

  /** The stored services as the ranges query selects them: name and code. */
  function RangeRows(stored: seq<StoredService>): (r: seq<ServiceRow>)
    ensures |r| == |stored|
    ensures forall k :: 0 <= k < |stored| ==> r[k] == ServiceRow(stored[k].name, stored[k].code)
  {
    seq(|stored|, k requires 0 <= k < |stored| => ServiceRow(stored[k].name, stored[k].code))
  }

  /** calculateAverbation: no band, or not all three prices, gives nothing;
      otherwise the 20% parts for the band's letter. */
  function CalculateAverbation(stored: seq<StoredService>, baseValue: real, now: int)
    : (r: Option<AverbResult>)
    ensures FindLetterByValue(FetchValueRanges(RangeRows(stored)), baseValue).None? ==> r.None?
    ensures FindLetterByValue(FetchValueRanges(RangeRows(stored)), baseValue).Some? ==>
      var letter := FindLetterByValue(FetchValueRanges(RangeRows(stored)), baseValue).value;
      var tariffs := FetchServiceTariffs(QueryServices(stored, BuildServiceCodes(letter), now), now);
      (tariffs.None? ==> r.None?)
      && (tariffs.Some? ==> r == Some(CalculateAverbTariffs(tariffs.value, letter, baseValue)))
    ensures r.Some? ==>
      r.value.baseValue == baseValue
      && (exists k :: 0 <= k < |FetchValueRanges(RangeRows(stored))| && InRange(baseValue, FetchValueRanges(RangeRows(stored))[k])
                      && FetchValueRanges(RangeRows(stored))[k].letter == r.value.appliedLetter)
    ensures r.Some? ==> exists j :: 0 <= j < |stored| && BandOf(stored[j], baseValue, r.value.appliedLetter)
  {
    var ranges := FetchValueRanges(RangeRows(stored));
    var letter := FindLetterByValue(ranges, baseValue);
    if letter.None? then None
    else
      var tariffs := FetchServiceTariffs(QueryServices(stored, BuildServiceCodes(letter.value), now), now);
      if tariffs.None? then None
      else
        LetterFromStored(stored, baseValue);
        Some(CalculateAverbTariffs(tariffs.value, letter.value, baseValue))
  }

  /** Stored service `s` passes the ranges query and builds a band holding
      `v` with that letter. */
  predicate BandOf(s: StoredService, v: real, letter: string) {
    var row := ServiceRow(s.name, s.code);
    InRangesQuery(row) && RangeOfRow(row).Some? && InRange(v, RangeOfRow(row).value)
    && RangeOfRow(row).value.letter == letter
  }

  /** The letter chosen for `v` is that of a band built by a stored service
      the ranges query admits. */
  lemma LetterFromStored(stored: seq<StoredService>, v: real)
    requires FindLetterByValue(FetchValueRanges(RangeRows(stored)), v).Some?
    ensures var letter := FindLetterByValue(FetchValueRanges(RangeRows(stored)), v).value;
      exists j :: 0 <= j < |stored| && BandOf(stored[j], v, letter)
  {
    var rows := RangeRows(stored);
    var ranges := FetchValueRanges(rows);
    var letter := FindLetterByValue(ranges, v).value;
    var k :| 0 <= k < |ranges| && InRange(v, ranges[k]) && ranges[k].letter == letter;
    assert ranges[k] in ranges;
    var j :| 0 <= j < |rows| && InRangesQuery(rows[j]) && RangeOfRow(rows[j]) == Some(ranges[k]);
    assert rows[j] == ServiceRow(stored[j].name, stored[j].code);
    assert BandOf(stored[j], v, letter);
  }
}
