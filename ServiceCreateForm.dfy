/** The service creation page (service/create/page/Form.tsx and
    BulkList.tsx): a code and a name of at least three characters each, and
    a list of services to create together in which no code repeats, case
    ignored. */
module ServiceCreateForm {
  import opened Common
  import opened JsText
  import TariffStore
  import ServiceStore

  datatype ListedService = ListedService(code: string, name: string)

  /** createServiceSchema */
  predicate SchemaValid(code: string, name: string) {
    JsLength(code) >= 3 && JsLength(name) >= 3
  }

  /** isServiceInList: some listed code equals `code` once both are
      lowercased. */
  predicate IsServiceInList(code: string, items: seq<ListedService>) {
    exists i :: 0 <= i < |items| && ToLower(items[i].code) == ToLower(code)
  }

  /** The answer does not depend on the order of the list. */
  lemma InListIgnoresOrder(code: string, a: seq<ListedService>, b: seq<ListedService>)
    requires multiset(a) == multiset(b)
    ensures !IsServiceInList(code, [])
    ensures IsServiceInList(code, a) <==> IsServiceInList(code, b)
  {
    if IsServiceInList(code, a) {
      var i :| 0 <= i < |a| && ToLower(a[i].code) == ToLower(code);
      assert a[i] in multiset(b);
      var j :| 0 <= j < |b| && b[j] == a[i];
    }
    if IsServiceInList(code, b) {
      var i :| 0 <= i < |b| && ToLower(b[i].code) == ToLower(code);
      assert b[i] in multiset(a);
      var j :| 0 <= j < |a| && a[j] == b[i];
    }
  }

  /** No two listed codes are equal once lowercased. */
  predicate CodesDistinctIgnoringCase(items: seq<ListedService>) {
    forall i, j :: 0 <= i < j < |items| ==> ToLower(items[i].code) != ToLower(items[j].code)
  }

  /** The entries bulkCreateServices receives. */
  function AsInput(items: seq<ListedService>): (r: seq<ServiceStore.BulkServiceInput>)
    ensures |r| == |items|
    ensures forall i :: 0 <= i < |items| ==> r[i] == ServiceStore.BulkServiceInput(Some(items[i].code), Some(items[i].name))
  {
    seq(|items|, i requires 0 <= i < |items| => ServiceStore.BulkServiceInput(Some(items[i].code), Some(items[i].name)))
  }

  datatype AddOutcome = Invalid | AlreadyListed | Added

  class ServiceDraft {
    var items: seq<ListedService>

    ghost predicate Valid()
      reads this
    {
      CodesDistinctIgnoringCase(items)
    }

    constructor ()
      ensures Valid() && items == []
    {
      items := [];
    }

    /** handleAddToList, behind the schema. */
    method AddToList(code: string, name: string) returns (outcome: AddOutcome)
      requires Valid()
      modifies this`items
      ensures Valid()
      ensures outcome == (if !SchemaValid(code, name) then Invalid
                          else if IsServiceInList(code, old(items)) then AlreadyListed else Added)
      ensures outcome != Added ==> items == old(items)
      ensures outcome == Added ==> items == old(items) + [ListedService(code, name)]
    {
      if !SchemaValid(code, name) { return Invalid; }
      if IsServiceInList(code, items) { return AlreadyListed; }
      items := items + [ListedService(code, name)];
      outcome := Added;
    }

    /** removeFromBulkList */
    method RemoveFromBulkList(index: int)
      requires Valid()
      modifies this`items
      ensures Valid()
      ensures 0 <= index < |old(items)| ==> items == old(items)[..index] + old(items)[index + 1..]
      ensures !(0 <= index < |old(items)|) ==> items == old(items)
    {
      if 0 <= index < |items| {
        ghost var before := items;
        items := items[..index] + items[index + 1..];
        assert forall k :: 0 <= k < |items| ==> items[k] == if k < index then before[k] else before[k + 1];
      }
    }

    /** handleSaveBulk: nothing is sent for an empty list; the list is
        cleared when the services were created, and kept on a conflict or
        an error. */
    method SaveBulk(reply: TariffStore.Completion<ServiceStore.BulkServicesResult>)
      returns (sent: Option<seq<ServiceStore.BulkServiceInput>>)
      requires Valid()
      modifies this`items
      ensures Valid()
      ensures old(items) == [] ==> sent.None? && items == []
      ensures old(items) != [] ==> sent == Some(AsInput(old(items)))
      ensures old(items) != [] && reply.Completed? && reply.value.ServicesCreated? ==> items == []
      ensures !(reply.Completed? && reply.value.ServicesCreated?) ==> items == old(items)
    {
      if items == [] { return None; }
      sent := Some(AsInput(items));
      if reply.Completed? && reply.value.ServicesCreated? {
        items := [];
      }
    }
  }

  /** Codes that differ ignoring case differ: a list the page builds never
      repeats a code exactly. */
  lemma DistinctIgnoringCaseIsDistinct(items: seq<ListedService>)
    requires CodesDistinctIgnoringCase(items)
    ensures forall i, j :: 0 <= i < j < |items| ==> items[i].code != items[j].code
  {
  }

  /** A listed code of three spaces passes the page's schema, while the
      server rejects the entry as blank. */
  lemma SpacesPassPageNotServer()
    ensures SchemaValid("   ", "abc")
    ensures ServiceStore.ValidateBulkServiceInput([ServiceStore.BulkServiceInput(Some("   "), Some("abc"))], 0).Some?
  {
    assert IsJsSpace(' ');
    BlankIffAllSpaces("   ");
  }

  /** The count label: "serviço" alone for one item, "serviços" otherwise;
      an empty list shows nothing. */
  function ListHeader(items: seq<ListedService>): (r: Option<string>)
    ensures r.None? <==> items == []
    ensures r.Some? ==> (EndsWith(r.value, "serviços") <==> |items| != 1)
    ensures r.Some? ==> StartsWith(r.value, NatToString(|items|) + " ")
    ensures r.Some? ==> r.value == NatToString(|items|) + (if |items| == 1 then " serviço" else " serviços")
  {
    if items == [] then None
    else
      var count := NatToString(|items|) + " ";
      var word := if |items| == 1 then "serviço" else "serviços";
      assert (count + word)[..|count|] == count;
      assert |items| == 1 ==> !EndsWith(count + word, "serviços") by {
        if |items| == 1 { assert count == "1 "; assert (count + word)[|count + word| - 8..] == " serviço"; }
      }
      assert (count + word)[|count + word| - |word|..] == word;
      Some(count + word)
  }
}
