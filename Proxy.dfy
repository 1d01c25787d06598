/** The request proxy (proxy.ts): classify the route, refuse black-listed
    addresses, apply the route's rate-limit tier, then hand the request to
    the webhook secret check, the API token middleware or the session gate.
    The black-list lookup and the sliding-window limiter (lib/middleware/utils.ts,
    lib/rateLimit.ts) are not part of this model; their answers are
    parameters. */
module Proxy {
  import opened Common
  import opened JsText
  import Gateway

  predicate IsUploadRoute(pathname: string) { StartsWith(pathname, "/file/upload") }

  /** External API: the bank routes and every webhook. */
  predicate IsExternalApiRoute(pathname: string) {
    StartsWith(pathname, "/api/bankBb") || Gateway.IsWebhookRoute(pathname)
  }

  datatype RoutePrefix = WebhookPrefix | UploadPrefix | ExternalApiPrefix | PrivatePrefix

  /** getRoutePrefix: webhook, then upload, then external API, then private. */
  function GetRoutePrefix(isUpload: bool, isExternalApi: bool, isWebhook: bool): (p: RoutePrefix)
    ensures p == WebhookPrefix <==> isWebhook
    ensures p == UploadPrefix <==> !isWebhook && isUpload
    ensures p == ExternalApiPrefix <==> !isWebhook && !isUpload && isExternalApi
    ensures p == PrivatePrefix <==> !isWebhook && !isUpload && !isExternalApi
  {
    if isWebhook then WebhookPrefix
    else if isUpload then UploadPrefix
    else if isExternalApi then ExternalApiPrefix
    else PrivatePrefix
  }

  function PrefixName(p: RoutePrefix): string {
    match p
    case WebhookPrefix => "webhook"
    case UploadPrefix => "upload"
    case ExternalApiPrefix => "external-api"
    case PrivatePrefix => "private"
  }

  /** The requests allowed per 60-second window for each tier. */
  function TierLimit(p: RoutePrefix): nat {
    match p
    case WebhookPrefix => 250
    case UploadPrefix => 200
    case ExternalApiPrefix => 100
    case PrivatePrefix => 120
  }

  const WindowSeconds := 60

  /** getRateLimiter: the limit it builds, decided by the same flags in the
      same order as the prefix. */
  function GetRateLimit(isUpload: bool, isExternalApi: bool, isWebhook: bool): (limit: nat)
    ensures limit == TierLimit(GetRoutePrefix(isUpload, isExternalApi, isWebhook))
    ensures 100 <= limit <= 250
  {
    if isWebhook then 250
    else if isUpload then 200
    else if isExternalApi then 100
    else 120
  }

  /** The limiter built for a request and the prefix its key and log use
      always name the same tier. */
  lemma LimiterMatchesPrefix(isUpload: bool, isExternalApi: bool, isWebhook: bool)
    ensures GetRateLimit(isUpload, isExternalApi, isWebhook) == TierLimit(GetRoutePrefix(isUpload, isExternalApi, isWebhook))
  {
  }

  /** A webhook upload path is still limited as a webhook, and a webhook is
      never limited as the private tier. */
  lemma WebhookTierWins(pathname: string)
    requires Gateway.IsWebhookRoute(pathname)
    ensures GetRoutePrefix(IsUploadRoute(pathname), IsExternalApiRoute(pathname), true) == WebhookPrefix
    ensures GetRateLimit(IsUploadRoute(pathname), IsExternalApiRoute(pathname), true) == 250
    ensures IsExternalApiRoute(pathname)
  {
  }

  datatype BlacklistStatus = NotListed | StaticBlock | DynamicBlock

  /** The limiter key: `<redis prefix><route prefix>:<ip>`. */
  function LimiterKey(redisPrefix: string, p: RoutePrefix, ip: string): string {
    redisPrefix + PrefixName(p) + ":" + ip
  }

  /** What rateLimitMiddleware decides, and whether it blocks the address. */
  datatype RateVerdict = RateVerdict(response: Option<(int, string)>, blocksIp: bool)

  /** rateLimitMiddleware: a static or dynamic black-list hit is 403 before
      the limiter is asked; a limiter refusal blocks the address and is 429. */
  function RateLimitMiddleware(blacklist: BlacklistStatus, withinLimit: bool): (v: RateVerdict)
    ensures blacklist != NotListed ==> v.response.Some? && v.response.value.0 == 403 && !v.blocksIp
    ensures blacklist == NotListed ==> (v.response.None? <==> withinLimit)
    ensures v.blocksIp <==> blacklist == NotListed && !withinLimit
    ensures v.blocksIp ==> v.response == Some((429, "Too Many Requests"))
  {
    match blacklist
    case StaticBlock => RateVerdict(Some((403, "Forbidden - IP blocked (static)")), false)
    case DynamicBlock => RateVerdict(Some((403, "Forbidden - IP blocked (dynamic)")), false)
    case NotListed =>
      if !withinLimit then RateVerdict(Some((429, "Too Many Requests")), true)
      else RateVerdict(None, false)
  }

  /** Where the proxy sends a request. */
  datatype Dispatch =
    | Limited(status: int, text: string)
    | WebhookChecked(response: Gateway.Response)
    | ToApiTokenMiddleware
    | ToSessionAuth

  /** proxy. `blacklist` and `withinLimit` are the answers for this client
      and its tier (the limit being GetRateLimit of the route). */
  function Route(pathname: string, blacklist: BlacklistStatus, withinLimit: bool,
                 secretHeader: Option<string>, expectedSecret: Option<string>): (d: Dispatch)
    ensures RateLimitMiddleware(blacklist, withinLimit).response.Some? <==> d.Limited?
    ensures d.Limited? ==> (d.status, d.text) == RateLimitMiddleware(blacklist, withinLimit).response.value
    ensures !d.Limited? ==> blacklist == NotListed && withinLimit
    ensures !d.Limited? ==>
      (d.WebhookChecked? <==> Gateway.IsWebhookRoute(pathname))
      && (d == ToApiTokenMiddleware <==> !Gateway.IsWebhookRoute(pathname) && Gateway.IsApiRoute(pathname))
      && (d == ToSessionAuth <==> !Gateway.IsApiRoute(pathname))
    ensures d.WebhookChecked? ==> d.response == Gateway.WebhookMiddleware(secretHeader, expectedSecret)
  {
    var verdict := RateLimitMiddleware(blacklist, withinLimit);
    if verdict.response.Some? then Limited(verdict.response.value.0, verdict.response.value.1)
    else if Gateway.IsWebhookRoute(pathname) then
      Gateway.WebhookRouteIsApiRoute(pathname);
      WebhookChecked(Gateway.WebhookMiddleware(secretHeader, expectedSecret))
    else if Gateway.IsApiRoute(pathname) then ToApiTokenMiddleware
    else ToSessionAuth
  }
}
