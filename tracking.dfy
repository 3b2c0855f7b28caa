/** The campaign-tracking helpers that the landing page (`app/page.tsx`) and
    the referrer portal (`app/referidos/app/page.tsx`) each carry an identical
    copy of.  `saveTrackingFromUrl` keeps the campaign parameters of a visit
    in browser storage, but only when the visit has at least one of them;
    `getTrackingPayload` merges the current URL's parameters over the stored
    ones for the create request and adds the current path and referrer. */
module TrackingStore {
  import opened Wrappers
  import opened JsValue

  /** The six campaign parameters, in the order both pages read them. */
  const ParamNames: seq<string> := ["camp", "utm_source", "utm_medium", "utm_campaign", "utm_term", "utm_content"]

  /** What the page sees of `window.location` and `document`: the query
      string's parameters (the first value of each name, as
      `URLSearchParams.get` returns it), the path and the referrer. */
  datatype Location = Location(query: map<string, string>, pathname: string, referrer: string)

  /** `camp` and the five `utm_*` values, each a string or `null`. */
  datatype Campaign = Campaign(
    camp: Option<string>,
    utmSource: Option<string>,
    utmMedium: Option<string>,
    utmCampaign: Option<string>,
    utmTerm: Option<string>,
    utmContent: Option<string>)
  {
    /** The value under one of the six parameter names. */
    function Get(name: string): Option<string> {
      if name == "camp" then camp
      else if name == "utm_source" then utmSource
      else if name == "utm_medium" then utmMedium
      else if name == "utm_campaign" then utmCampaign
      else if name == "utm_term" then utmTerm
      else if name == "utm_content" then utmContent
      else None
    }
  }

  /** The storage entry `saveTrackingFromUrl` writes: the campaign values,
      the first landing path and referrer, and the time of the visit. */
  datatype Stored = Stored(campaign: Campaign, firstLandingPath: string, firstReferer: string, ts: int)

  /** The object `getTrackingPayload` returns. */
  datatype Payload = Payload(
    campaign: Campaign,
    landingPath: string,
    referer: string,
    firstLandingPath: Option<string>,
    firstReferer: Option<string>)

  /** `sp.get(name)`: `null` for a parameter the query does not have. */
  function QueryGet(loc: Location, name: string): Option<string> {
    if name in loc.query then Some(loc.query[name]) else None
  }

  /** The six parameters of the current URL. */
  function FromQuery(loc: Location): Campaign {
    Campaign(
      QueryGet(loc, "camp"), QueryGet(loc, "utm_source"), QueryGet(loc, "utm_medium"),
      QueryGet(loc, "utm_campaign"), QueryGet(loc, "utm_term"), QueryGet(loc, "utm_content"))
  }

  /** `!!value`: present and not the empty string. */
  predicate Filled(v: Option<string>) {
    v.Some? && v.value != ""
  }

  /** `hasAny`. */
  predicate HasAny(c: Campaign) {
    Filled(c.camp) || Filled(c.utmSource) || Filled(c.utmMedium)
    || Filled(c.utmCampaign) || Filled(c.utmTerm) || Filled(c.utmContent)
  }

  /** A visit counts as tracked exactly when one of the six names is in its
      query with a non-empty value. */
  lemma HasAnyIff(loc: Location)
    ensures HasAny(FromQuery(loc)) <==>
      exists i :: 0 <= i < |ParamNames| && ParamNames[i] in loc.query && loc.query[ParamNames[i]] != ""
  {
    var c := FromQuery(loc);
    if HasAny(c) {
      var i: nat :=
        if Filled(c.camp) then 0 else if Filled(c.utmSource) then 1
        else if Filled(c.utmMedium) then 2 else if Filled(c.utmCampaign) then 3
        else if Filled(c.utmTerm) then 4 else 5;
      assert ParamNames[i] in loc.query && loc.query[ParamNames[i]] != "";
    }
  }

  /** The storage entry after `saveTrackingFromUrl` at `now`; `storageFails`
      is `setItem` throwing, which the page ignores. */
  function AfterSave(entry: Option<Stored>, loc: Location, now: int, storageFails: bool): Option<Stored> {
    var c := FromQuery(loc);
    if !HasAny(c) || storageFails then entry else Some(Stored(c, loc.pathname, loc.referrer, now))
  }

  /** `a ?? b` over nullable strings. */
  function Coalesce(a: Option<string>, b: Option<string>): (r: Option<string>)
    ensures a.Some? ==> r == a
    ensures a.None? ==> r == b
  {
    if a.Some? then a else b
  }

  /** `stored?.field ?? null` for a stored campaign value. */
  function StoredValue(stored: Option<Stored>, name: string): Option<string> {
    if stored.Some? then stored.value.campaign.Get(name) else None
  }

  /** `getTrackingPayload`, given what storage held (`None` when it held
      nothing or nothing readable). */
  function TrackingPayload(loc: Location, stored: Option<Stored>): (p: Payload)
    ensures p.landingPath == loc.pathname && p.referer == loc.referrer
    ensures stored.None? ==> p.firstLandingPath.None? && p.firstReferer.None?
    ensures stored.Some? ==>
      p.firstLandingPath == Some(stored.value.firstLandingPath) && p.firstReferer == Some(stored.value.firstReferer)
  {
    var url := FromQuery(loc);
    Payload(
      Campaign(
        Coalesce(url.camp, StoredValue(stored, "camp")),
        Coalesce(url.utmSource, StoredValue(stored, "utm_source")),
        Coalesce(url.utmMedium, StoredValue(stored, "utm_medium")),
        Coalesce(url.utmCampaign, StoredValue(stored, "utm_campaign")),
        Coalesce(url.utmTerm, StoredValue(stored, "utm_term")),
        Coalesce(url.utmContent, StoredValue(stored, "utm_content"))),
      loc.pathname,
      loc.referrer,
      if stored.Some? then Some(stored.value.firstLandingPath) else None,
      if stored.Some? then Some(stored.value.firstReferer) else None)
  }

  /** Each campaign value of the payload comes from the current URL when the
      parameter is there, even empty; else from storage; else it is `null`. */
  lemma PayloadPrecedence(loc: Location, stored: Option<Stored>, i: nat)
    requires i < |ParamNames|
    ensures var name := ParamNames[i]; var v := TrackingPayload(loc, stored).campaign.Get(name);
      && (name in loc.query ==> v == Some(loc.query[name]))
      && (name !in loc.query && stored.Some? ==> v == stored.value.campaign.Get(name))
      && (name !in loc.query && stored.None? ==> v.None?)
  {
  }

  /** The first tracked visit survives later untracked visits: they leave
      storage alone, and the payload built on any of them carries the first
      visit's campaign values, landing path and referrer. */
  lemma FirstTouchKept(entry: Option<Stored>, first: Location, now: int, later: Location, laterNow: int)
    requires HasAny(FromQuery(first))
    requires forall i :: 0 <= i < |ParamNames| ==> ParamNames[i] !in later.query
    ensures var saved := AfterSave(entry, first, now, false);
      && AfterSave(saved, later, laterNow, false) == saved
      && TrackingPayload(later, saved).campaign == FromQuery(first)
      && TrackingPayload(later, saved).firstLandingPath == Some(first.pathname)
      && TrackingPayload(later, saved).firstReferer == Some(first.referrer)
  {
    assert "camp" !in later.query by { assert ParamNames[0] == "camp"; }
    assert "utm_source" !in later.query by { assert ParamNames[1] == "utm_source"; }
    assert "utm_medium" !in later.query by { assert ParamNames[2] == "utm_medium"; }
    assert "utm_campaign" !in later.query by { assert ParamNames[3] == "utm_campaign"; }
    assert "utm_term" !in later.query by { assert ParamNames[4] == "utm_term"; }
    assert "utm_content" !in later.query by { assert ParamNames[5] == "utm_content"; }
  }

  /** A parameter present but empty is not enough to save, yet it still
      hides the stored value in the payload. */
  lemma EmptyParamMasksStored(entry: Stored, loc: Location, now: int)
    requires loc.query == map["utm_source" := ""]
    requires entry.campaign.utmSource == Some("google")
    ensures AfterSave(Some(entry), loc, now, false) == Some(entry)
    ensures TrackingPayload(loc, Some(entry)).campaign.utmSource == Some("")
  {
  }

  /** The payload as the JSON members it spreads into the request body. */
  function PayloadBody(p: Payload): (b: Body)
    ensures forall i :: 0 <= i < |ParamNames| ==> ParamNames[i] in b
    ensures "landing_path" in b && b["landing_path"] == Str(p.landingPath)
    ensures "referer" in b && b["referer"] == Str(p.referer)
  {
    map[
      "camp" := Nullable(p.campaign.camp),
      "utm_source" := Nullable(p.campaign.utmSource),
      "utm_medium" := Nullable(p.campaign.utmMedium),
      "utm_campaign" := Nullable(p.campaign.utmCampaign),
      "utm_term" := Nullable(p.campaign.utmTerm),
      "utm_content" := Nullable(p.campaign.utmContent),
      "landing_path" := Str(p.landingPath),
      "referer" := Str(p.referer),
      "first_landing_path" := Nullable(p.firstLandingPath),
      "first_referer" := Nullable(p.firstReferer)]
  }

  /** A nullable string as a JSON value. */
  function Nullable(v: Option<string>): (r: Value)
    ensures v.None? ==> r == Null
    ensures v.Some? ==> r == Str(v.value)
  {
    if v.Some? then Str(v.value) else Null
  }

  /** The browser storage slot under `ref_tracking_v1`. */
  class TrackingStorage {
    var entry: Option<Stored>

    constructor()
      ensures entry.None?
    {
      entry := None;
    }

    /** `saveTrackingFromUrl` at time `now`. */
    method SaveFromUrl(loc: Location, now: int, storageFails: bool)
      modifies this
      ensures entry == AfterSave(old(entry), loc, now, storageFails)
      ensures !HasAny(FromQuery(loc)) ==> entry == old(entry)
    {
      var tracking := Stored(FromQuery(loc), loc.pathname, loc.referrer, now);
      var hasAny :=
        Filled(tracking.campaign.camp) || Filled(tracking.campaign.utmSource)
        || Filled(tracking.campaign.utmMedium) || Filled(tracking.campaign.utmCampaign)
        || Filled(tracking.campaign.utmTerm) || Filled(tracking.campaign.utmContent);
      if !hasAny {
        return;
      }
      if !storageFails {
        entry := Some(tracking);
      }
    }

  }
}
