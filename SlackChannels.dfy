/** The Slack channel table (api/slack/config/channel-mapping.ts): which
    business unit a channel stands for and who may ask it for cards. */
module SlackChannels {
  import opened Common
  import opened Kanban

  datatype ChannelMapping = ChannelMapping(channelId: string, saleOrigin: SaleOrigin, allowedUsers: Option<seq<string>>)

  const SharedChannel := "C09AQQJE8BD"

  /** SLACK_CHANNEL_MAPPING: five units, all on one channel. */
  const Mappings: seq<ChannelMapping> := [
    ChannelMapping(SharedChannel, InternationalLaw, Some(["U4DHS9FB6", "U4E889XMF", "U037CL9A8F6"])),
    ChannelMapping(SharedChannel, FamilyLaw, Some(["U02F4F2M9U4", "U04503LN5PH", "UGK9LH1L3"])),
    ChannelMapping(SharedChannel, BankingLaw, Some(["U4CRYQQHF", "U087EGM1WPM", "U0877JN0UNN"])),
    ChannelMapping(SharedChannel, ProceduralLaw, Some(["U07BM6NE61Z", "U084B5C36N6", "U02K2LT5B8D", "U041Q9QQ97F"])),
    ChannelMapping(SharedChannel, Administrative, Some(["U08PJ7QV7SQ", "U09GWADRNVB", "U096DQFF56C"]))
  ]

  /** `mappings.find((m) => m.channelId === channelId)` */
  function FindMapping(mappings: seq<ChannelMapping>, channelId: string): (r: Option<nat>)
    ensures r.Some? ==> r.value < |mappings| && mappings[r.value].channelId == channelId
    ensures r.Some? ==> forall k :: 0 <= k < r.value ==> mappings[k].channelId != channelId
    ensures r.None? <==> forall k :: 0 <= k < |mappings| ==> mappings[k].channelId != channelId
  {
    if mappings == [] then None
    else if mappings[0].channelId == channelId then Some(0)
    else match FindMapping(mappings[1..], channelId)
      case None => None
      case Some(k) => Some(k + 1)
  }

  /** getSaleOriginFromChannel, over any table: the unit of the first
      mapping for the channel. */
  function SaleOriginIn(mappings: seq<ChannelMapping>, channelId: string): (r: Option<SaleOrigin>)
    ensures r.None? <==> forall k :: 0 <= k < |mappings| ==> mappings[k].channelId != channelId
    ensures r.Some? ==> exists k :: 0 <= k < |mappings| && mappings[k].channelId == channelId && mappings[k].saleOrigin == r.value
                                   && forall j :: 0 <= j < k ==> mappings[j].channelId != channelId
  {
    match FindMapping(mappings, channelId)
    case None => None
    case Some(k) => Some(mappings[k].saleOrigin)
  }

  /** isUserAllowedInChannel, over any table: an unknown channel admits no
      one; a mapping without a list, or with an empty one, admits everyone;
      otherwise the list decides. Only the first mapping of a channel is
      consulted. */
  function UserAllowedIn(mappings: seq<ChannelMapping>, channelId: string, userId: string): (r: bool)
    ensures FindMapping(mappings, channelId).None? ==> !r
    ensures FindMapping(mappings, channelId).Some? ==>
      var users := mappings[FindMapping(mappings, channelId).value].allowedUsers;
      (users.None? || users.value == [] ==> r)
      && (users.Some? && users.value != [] ==> (r <==> userId in users.value))
  {
    match FindMapping(mappings, channelId)
    case None => false
    case Some(k) =>
      var users := mappings[k].allowedUsers;
      if users.None? || |users.value| == 0 then true else userId in users.value
  }

  /** getSaleOriginFromChannel: only the shared channel has a unit, and it
      is always international law, the first of its five mappings. */
  function SaleOriginFromChannel(channelId: string): (r: Option<SaleOrigin>)
    ensures r.Some? <==> channelId == SharedChannel
    ensures r.Some? ==> r.value == InternationalLaw
  {
    assert forall k :: 0 <= k < |Mappings| ==> Mappings[k].channelId == SharedChannel;
    assert FindMapping(Mappings, SharedChannel) == Some(0);
    SaleOriginIn(Mappings, channelId)
  }

  /** isUserAllowedInChannel: exactly the three users of the first mapping
      of the shared channel are admitted, and no one anywhere else. */
  function IsUserAllowedInChannel(channelId: string, userId: string): (allowed: bool)
    ensures allowed <==> channelId == SharedChannel && userId in ["U4DHS9FB6", "U4E889XMF", "U037CL9A8F6"]
  {
    assert forall k :: 0 <= k < |Mappings| ==> Mappings[k].channelId == SharedChannel;
    assert FindMapping(Mappings, SharedChannel) == Some(0);
    UserAllowedIn(Mappings, channelId, userId)
  }

  /** The shared channel always resolves to international law, and only
      that unit's three users may use it: the other four mappings are never
      reached. */
  lemma SharedChannelIsInternationalLaw(userId: string)
    ensures SaleOriginFromChannel(SharedChannel) == Some(InternationalLaw)
    ensures IsUserAllowedInChannel(SharedChannel, userId) <==> userId in ["U4DHS9FB6", "U4E889XMF", "U037CL9A8F6"]
    ensures !IsUserAllowedInChannel(SharedChannel, "U02F4F2M9U4")
  {
    assert FindMapping(Mappings, SharedChannel) == Some(0);
  }

  /** Every other channel is unknown: no unit, no user. */
  lemma OtherChannelsUnknown(channelId: string, userId: string)
    requires channelId != SharedChannel
    ensures SaleOriginFromChannel(channelId).None?
    ensures !IsUserAllowedInChannel(channelId, userId)
  {
    assert forall k :: 0 <= k < |Mappings| ==> Mappings[k].channelId == SharedChannel;
  }

  /** No channel resolves to a unit other than international law. */
  lemma OnlyInternationalLawReachable(channelId: string)
    ensures SaleOriginFromChannel(channelId).Some? ==> SaleOriginFromChannel(channelId) == Some(InternationalLaw)
  {
    if channelId == SharedChannel {
      SharedChannelIsInternationalLaw("");
    } else {
      OtherChannelsUnknown(channelId, "");
    }
  }
}
