/** Services and tariffs as the tariff manager screens receive them
    (app/settings/tariffs/service/manager/types.ts): a tariff's price in
    cents, its start and optional end as instants, and a service with its
    tariffs in the order the server sent them. */
module Catalog {
  import opened Common

  datatype TariffView = TariffView(id: nat, unitPrice: int, validFrom: int, validTo: Option<int>)

  datatype ServiceView = ServiceView(id: nat, name: string, code: string, active: bool, tariffs: seq<TariffView>)

  /** In force at `now`: started, and not yet ended (an end of `now` still
      counts). */
  predicate InForce(t: TariffView, now: int) {
    t.validFrom <= now && (t.validTo.None? || t.validTo.value >= now)
  }

  /** findCurrentTariff: the position of the first tariff in force. */
  function FindCurrentTariff(ts: seq<TariffView>, now: int): (r: Option<nat>)
    ensures r.Some? ==> r.value < |ts| && InForce(ts[r.value], now)
    ensures r.Some? ==> forall k :: 0 <= k < r.value ==> !InForce(ts[k], now)
    ensures r.None? <==> forall k :: 0 <= k < |ts| ==> !InForce(ts[k], now)
  {
    if ts == [] then None
    else if InForce(ts[0], now) then Some(0)
    else match FindCurrentTariff(ts[1..], now)
      case None => None
      case Some(k) => Some(k + 1)
  }

  /** findLatestTariff: the `reduce` keeping the later start, and the earlier
      element on a tie, so the first tariff with the greatest start. */
  function FindLatestTariff(ts: seq<TariffView>): (r: Option<nat>)
    ensures r.None? <==> ts == []
    ensures r.Some? ==> r.value < |ts|
    ensures r.Some? ==> forall k :: 0 <= k < |ts| ==> ts[k].validFrom <= ts[r.value].validFrom
    ensures r.Some? ==> forall k :: 0 <= k < r.value ==> ts[k].validFrom < ts[r.value].validFrom
  {
    if ts == [] then None
    else
      var latest := FindLatestTariff(ts[..|ts| - 1]);
      if latest.None? then Some(0)
      else if ts[|ts| - 1].validFrom > ts[latest.value].validFrom then Some(|ts| - 1)
      else latest
  }

  /** getCurrentTariff: the tariff in force, else the latest one. */
  function GetCurrentTariff(ts: seq<TariffView>, now: int): (r: Option<TariffView>)
    ensures r.Some? <==> ts != []
    ensures FindCurrentTariff(ts, now).Some? ==> r == Some(ts[FindCurrentTariff(ts, now).value])
    ensures r.Some? && FindCurrentTariff(ts, now).None? ==>
      r.value in ts && forall k :: 0 <= k < |ts| ==> ts[k].validFrom <= r.value.validFrom
  {
    match FindCurrentTariff(ts, now)
    case Some(k) => Some(ts[k])
    case None =>
      match FindLatestTariff(ts)
      case None => None
      case Some(k) => Some(ts[k])
  }
}
