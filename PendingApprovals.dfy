/** The approvals waiting in Slack (api/slack/lib/pending-store.ts): a
    process-wide `Map` from approval id to approval, iterated in insertion
    order, whose entries a timer drops 24 hours after they were stored.
    The timers are kept as a list of pending deletions; firing one is an
    explicit step. */
module PendingApprovals {
  import opened Common
  import opened Kanban

  datatype ApprovalStatus = Pending | Approved | Rejected | Revision

  datatype PendingApproval = PendingApproval(id: string, channelId: string, threadTs: string, userId: string,
                                             saleOrigin: SaleOrigin, cards: seq<GeneratedCard>, originalMessage: string,
                                             createdAt: int, status: ApprovalStatus)

  /** `Partial<PendingApproval>`: each field may be given or left out. */
  datatype ApprovalUpdate = ApprovalUpdate(id: Option<string>, channelId: Option<string>, threadTs: Option<string>,
                                           userId: Option<string>, saleOrigin: Option<SaleOrigin>,
                                           cards: Option<seq<GeneratedCard>>, originalMessage: Option<string>,
                                           createdAt: Option<int>, status: Option<ApprovalStatus>)

  const NoChange := ApprovalUpdate(None, None, None, None, None, None, None, None, None)

  /** `{ ...approval, ...updates }` */
  function Merge(a: PendingApproval, u: ApprovalUpdate): PendingApproval {
    PendingApproval(u.id.GetOr(a.id), u.channelId.GetOr(a.channelId), u.threadTs.GetOr(a.threadTs),
                    u.userId.GetOr(a.userId), u.saleOrigin.GetOr(a.saleOrigin), u.cards.GetOr(a.cards),
                    u.originalMessage.GetOr(a.originalMessage), u.createdAt.GetOr(a.createdAt), u.status.GetOr(a.status))
  }

  /** Merging nothing changes nothing; merging the same update twice is
      merging it once; a status update touches the status alone. */
  lemma MergeLaws(a: PendingApproval, u: ApprovalUpdate, s: ApprovalStatus)
    ensures Merge(a, NoChange) == a
    ensures Merge(Merge(a, u), u) == Merge(a, u)
    ensures Merge(a, NoChange.(status := Some(s))) == a.(status := s)
  {
  }

  /** 24 hours, in milliseconds. */
  const ExpiryMs := 24 * 60 * 60 * 1000

  /** A scheduled `pendingApprovals.delete(id)`. */
  datatype Timer = Timer(id: string, due: int)

  /** The ids in order with `id` taken out. */
  function Without(order: seq<string>, id: string): (r: seq<string>)
    ensures forall x :: x in r <==> x in order && x != id
    ensures (forall i, j :: 0 <= i < j < |order| ==> order[i] != order[j]) ==> forall i, j :: 0 <= i < j < |r| ==> r[i] != r[j]
  {
    if order == [] then []
    else
      var rest := Without(order[1..], id);
      assert forall x :: x in order <==> x == order[0] || x in order[1..];
      if order[0] == id then rest
      else
        assert (forall i, j :: 0 <= i < j < |order| ==> order[i] != order[j]) ==> order[0] !in order[1..];
        [order[0]] + rest
  }

  class PendingStore {
    var entries: map<string, PendingApproval>
    /** The Map's iteration order: keys in the order they were first set. */
    var order: seq<string>
    var timers: seq<Timer>

    ghost predicate Valid()
      reads this
    {
      (forall i, j :: 0 <= i < j < |order| ==> order[i] != order[j])
      && forall id :: id in entries <==> id in order
    }

    constructor ()
      ensures Valid() && entries == map[] && order == [] && timers == []
    {
      entries := map[];
      order := [];
      timers := [];
    }

    /** storePendingApproval: set the entry, which keeps its place when the
        id was there already, and schedule its deletion 24 hours on. */
    method Store(approval: PendingApproval, now: int)
      requires Valid()
      modifies this
      ensures Valid()
      ensures entries == old(entries)[approval.id := approval]
      ensures order == if approval.id in old(entries) then old(order) else old(order) + [approval.id]
      ensures timers == old(timers) + [Timer(approval.id, now + ExpiryMs)]
      ensures Get(approval.id) == Some(approval)
    {
      if approval.id !in entries {
        order := order + [approval.id];
      }
      entries := entries[approval.id := approval];
      timers := timers + [Timer(approval.id, now + ExpiryMs)];
    }

    /** getPendingApproval */
    function Get(id: string): (r: Option<PendingApproval>)
      reads this
      ensures r.Some? <==> id in entries
      ensures r.Some? ==> r.value == entries[id]
    {
      if id in entries then Some(entries[id]) else None
    }

    /** updatePendingApproval: merge into an existing entry, in place; an
        unknown id changes nothing. */
    method Update(id: string, u: ApprovalUpdate)
      requires Valid()
      modifies this`entries
      ensures Valid()
      ensures id in old(entries) ==> entries == old(entries)[id := Merge(old(entries)[id], u)]
      ensures id !in old(entries) ==> entries == old(entries)
    {
      var approval := Get(id);
      if approval.Some? {
        entries := entries[id := Merge(approval.value, u)];
      }
    }

    /** deletePendingApproval: that id goes, every other entry stays in its
        place. */
    method Delete(id: string)
      requires Valid()
      modifies this`entries, this`order
      ensures Valid()
      ensures entries == old(entries) - {id}
      ensures order == Without(old(order), id)
    {
      entries := entries - {id};
      order := Without(order, id);
    }

    /** A timer fires: it deletes its id, even when the entry was stored
        again after the timer was set. */
    method FireTimer(k: nat)
      requires Valid() && k < |timers|
      modifies this
      ensures Valid()
      ensures entries == old(entries) - {old(timers)[k].id}
      ensures order == Without(old(order), old(timers)[k].id)
      ensures timers == old(timers)[..k] + old(timers)[k + 1..]
    {
      var id := timers[k].id;
      timers := timers[..k] + timers[k + 1..];
      Delete(id);
    }

    /** findPendingApprovalByThread: the first entry, in Map order, of that
        channel and thread. */
    method FindByThread(channelId: string, threadTs: string) returns (r: Option<PendingApproval>)
      requires Valid()
      ensures r.Some? ==> exists k :: 0 <= k < |order| && entries[order[k]] == r.value
                                      && r.value.channelId == channelId && r.value.threadTs == threadTs
                                      && forall j :: 0 <= j < k ==> !(entries[order[j]].channelId == channelId
                                                                      && entries[order[j]].threadTs == threadTs)
      ensures r.None? <==> forall k :: 0 <= k < |order| ==> !(entries[order[k]].channelId == channelId
                                                              && entries[order[k]].threadTs == threadTs)
    {
      var k := 0;
      while k < |order|
        invariant 0 <= k <= |order|
        invariant forall j :: 0 <= j < k ==> !(entries[order[j]].channelId == channelId && entries[order[j]].threadTs == threadTs)
      {
        var approval := entries[order[k]];
        if approval.channelId == channelId && approval.threadTs == threadTs {
          return Some(approval);
        }
        k := k + 1;
      }
      return None;
    }
  }
}
