/** The services list of the tariff manager (components/servicesTable.tsx):
    the search filter, the ordering by code, and the next future tariff.
    `localeCompare` is an abstract ordering `le` on codes: `le(a, b)` when
    `a.localeCompare(b) <= 0`. */
module ServicesTable {
  import opened Common
  import opened JsText
  import opened Catalog

  /** getFutureTariff: the first tariff, in list order, starting after `now`. */
  function FutureTariff(ts: seq<TariffView>, now: int): (r: Option<nat>)
    ensures r.Some? ==> r.value < |ts| && ts[r.value].validFrom > now
    ensures r.Some? ==> forall k :: 0 <= k < r.value ==> ts[k].validFrom <= now
    ensures r.None? <==> forall k :: 0 <= k < |ts| ==> ts[k].validFrom <= now
  {
    if ts == [] then None
    else if ts[0].validFrom > now then Some(0)
    else match FutureTariff(ts[1..], now)
      case None => None
      case Some(k) => Some(k + 1)
  }

  /** The search test: the lowercased name or code contains the lowercased
      search text. */
  predicate Matches(s: ServiceView, search: string) {
    Contains(ToLower(s.name), ToLower(search)) || Contains(ToLower(s.code), ToLower(search))
  }

  function Kept(services: seq<ServiceView>, search: string): (r: seq<ServiceView>)
    ensures forall s :: s in r <==> s in services && Matches(s, search)
    ensures |r| <= |services|
  {
    if services == [] then []
    else
      var rest := Kept(services[1..], search);
      assert forall x :: x in services <==> x == services[0] || x in services[1..];
      if Matches(services[0], search) then [services[0]] + rest else rest
  }

  /** An ordering on codes is total when any two codes compare one way or
      the other. */
  ghost predicate Total(le: (string, string) -> bool) {
    forall a, b :: le(a, b) || le(b, a)
  }

  predicate SortedByCode(xs: seq<ServiceView>, le: (string, string) -> bool) {
    forall i :: 0 <= i < |xs| - 1 ==> le(xs[i].code, xs[i + 1].code)
  }

  /** Puts `x` in front of the first service it does not come after. */
  function Insert(x: ServiceView, ys: seq<ServiceView>, le: (string, string) -> bool): (r: seq<ServiceView>)
    ensures multiset(r) == multiset(ys) + multiset{x}
    ensures r != [] && (r[0] == x || (ys != [] && r[0] == ys[0]))
  {
    if ys == [] || le(x.code, ys[0].code) then [x] + ys
    else
      assert ys == [ys[0]] + ys[1..];
      [ys[0]] + Insert(x, ys[1..], le)
  }

  /** Under a total order, inserting into a sorted list keeps it sorted. */
  lemma {:induction false} InsertSorted(x: ServiceView, ys: seq<ServiceView>, le: (string, string) -> bool)
    requires Total(le) && SortedByCode(ys, le)
    ensures SortedByCode(Insert(x, ys, le), le)
  {
    var r := Insert(x, ys, le);
    if ys == [] || le(x.code, ys[0].code) {
      forall i | 0 < i < |r| - 1 ensures le(r[i].code, r[i + 1].code) {
        assert r[i] == ys[i - 1] && r[i + 1] == ys[i];
      }
    } else {
      var tail := Insert(x, ys[1..], le);
      InsertSorted(x, ys[1..], le);
      assert le(ys[0].code, x.code);
      assert r == [ys[0]] + tail;
      forall i | 0 <= i < |r| - 1 ensures le(r[i].code, r[i + 1].code) {
        if i > 0 {
          assert r[i] == tail[i - 1] && r[i + 1] == tail[i];
        }
      }
    }
  }

  /** `.sort((a, b) => a.code.localeCompare(b.code))` */
  function SortByCode(xs: seq<ServiceView>, le: (string, string) -> bool): (r: seq<ServiceView>)
    ensures multiset(r) == multiset(xs)
    ensures Total(le) ==> SortedByCode(r, le)
  {
    if xs == [] then []
    else
      assert xs == [xs[0]] + xs[1..];
      var sorted := SortByCode(xs[1..], le);
      assert Total(le) ==> SortedByCode(Insert(xs[0], sorted, le), le) by {
        if Total(le) { InsertSorted(xs[0], sorted, le); }
      }
      Insert(xs[0], sorted, le)
  }

  /** filteredServices */
  function FilteredServices(services: seq<ServiceView>, search: string, le: (string, string) -> bool): (r: seq<ServiceView>)
    ensures multiset(r) == multiset(Kept(services, search))
    ensures forall s :: s in r <==> s in services && Matches(s, search)
    ensures Total(le) ==> SortedByCode(r, le)
  {
    var kept := Kept(services, search);
    var r := SortByCode(kept, le);
    assert forall s :: s in r <==> s in multiset(r);
    r
  }

  /** An empty search keeps every service. */
  lemma EmptySearchKeepsAll(services: seq<ServiceView>, le: (string, string) -> bool)
    ensures multiset(FilteredServices(services, "", le)) == multiset(services)
  {
    KeptAllWhenEmpty(services);
  }

  lemma {:induction false} KeptAllWhenEmpty(services: seq<ServiceView>)
    ensures Kept(services, "") == services
  {
    if services != [] {
      assert StartsWith(ToLower(services[0].name), []);
      KeptAllWhenEmpty(services[1..]);
    }
  }
}
