/**
 * `GTMManager`, the singleton that owns the Google Tag Manager consent state and gates every
 * analytics push on it. The tag manager and `localStorage` are outside the model: each call
 * into the tag manager appends a `Push` to the `dataLayer` log, and the stored consent is the
 * `savedConsent` field.
 */
module Gtm {
  import opened Wrappers
  import opened JsValues

  datatype ConsentPreferences = ConsentPreferences(analytics: bool, marketing: bool, functional: bool, necessary: bool)

  /** Everything off except the necessary cookies. */
  const DefaultPreferences := ConsentPreferences(false, false, false, true)

  /** `Partial<ConsentPreferences>`: any field may be left out. */
  datatype PartialPreferences = PartialPreferences(analytics: Option<bool>, marketing: Option<bool>,
                                                   functional: Option<bool>, necessary: Option<bool>)

  /** A complete preferences value passed where a partial one is expected. */
  function Full(p: ConsentPreferences): PartialPreferences {
    PartialPreferences(Some(p.analytics), Some(p.marketing), Some(p.functional), Some(p.necessary))
  }

  /** `{ ...base, ...update }`: each field present in `update` wins. */
  function Merge(base: ConsentPreferences, update: PartialPreferences): (r: ConsentPreferences)
    ensures r.analytics == update.analytics.GetOr(base.analytics)
    ensures r.marketing == update.marketing.GetOr(base.marketing)
    ensures r.functional == update.functional.GetOr(base.functional)
    ensures r.necessary == update.necessary.GetOr(base.necessary)
  {
    ConsentPreferences(
      if update.analytics.Some? then update.analytics.value else base.analytics,
      if update.marketing.Some? then update.marketing.value else base.marketing,
      if update.functional.Some? then update.functional.value else base.functional,
      if update.necessary.Some? then update.necessary.value else base.necessary)
  }

  /** A complete update replaces the preferences outright. */
  lemma FullUpdateReplaces(base: ConsentPreferences, p: ConsentPreferences)
    ensures Merge(base, Full(p)) == p
  {
  }

  /** Nothing pins `necessary`: an update can switch it off. */
  lemma NecessaryCanBeWithdrawn()
    ensures !Merge(DefaultPreferences, PartialPreferences(None, None, None, Some(false))).necessary
  {
  }

  datatype Consent = Granted | Denied

  /** The `gtm.consent` object of the tag manager's consent mode. */
  datatype ConsentState = ConsentState(analyticsStorage: Consent, adStorage: Consent, functionalityStorage: Consent,
                                       personalizationStorage: Consent, securityStorage: Consent)

  /** The consent state the tag manager starts with: only security storage is granted. */
  const InitialConsent := ConsentState(Denied, Denied, Denied, Denied, Granted)

  /** `flag ? 'granted' : 'denied'` for a field that may be left out. */
  function Grant(flag: Option<bool>): (c: Consent)
    ensures c == Granted <==> flag == Some(true)
  {
    if flag.Some? && flag.value then Granted else Denied
  }

  /**
   * The consent update pushed by `updateConsent`. It is computed from the argument alone,
   * not from the merged preferences; marketing drives both advertising and personalisation,
   * and security storage is always granted.
   */
  function ConsentPayload(p: PartialPreferences): (r: ConsentState)
    ensures r.securityStorage == Granted
    ensures r.personalizationStorage == r.adStorage
    ensures r.analyticsStorage == Granted <==> p.analytics == Some(true)
    ensures r.adStorage == Granted <==> p.marketing == Some(true)
    ensures r.functionalityStorage == Granted <==> p.functional == Some(true)
  {
    ConsentState(Grant(p.analytics), Grant(p.marketing), Grant(p.functional), Grant(p.marketing), Granted)
  }

  /**
   * A field left out of an update is sent as denied even when the merged preferences keep it
   * granted: the tag manager and the manager then disagree.
   */
  lemma OmittedFieldIsSentDenied()
    ensures var before := ConsentPreferences(true, false, false, true);
      var update := PartialPreferences(None, Some(true), None, None);
      Merge(before, update).analytics && ConsentPayload(update).analyticsStorage == Denied
  {
  }

  /** One call into the tag manager. */
  datatype Push =
    | Init(gtmId: string, consent: ConsentState, debug: bool)   // `TagManager.initialize`
    | ConsentUpdate(consent: ConsentState)                      // `TagManager.dataLayer` with `gtm.consent`
    | DataLayer(fields: map<string, Value>)                     // `TagManager.dataLayer` with an event

  /** How many `Init` calls the log holds. */
  function InitCount(log: seq<Push>): (r: nat)
    ensures r <= |log|
    ensures r == 0 <==> forall i :: 0 <= i < |log| ==> !log[i].Init?
  {
    if log == [] then 0 else InitCount(log[..|log| - 1]) + (if log[|log| - 1].Init? then 1 else 0)
  }

  /** `{ event: name, ...parameters }`: a parameter called `event` overrides the name. */
  function EventFields(name: string, parameters: map<string, Value>): (r: map<string, Value>)
    ensures r.Keys == parameters.Keys + {"event"}
    ensures r["event"] == if "event" in parameters then parameters["event"] else Str(name)
    ensures forall k :: k in parameters ==> r[k] == parameters[k]
  {
    map["event" := Str(name)] + parameters
  }

  /** `s || fallback` for an optional string. */
  function OrElse(s: Option<string>, fallback: string): (r: string)
    ensures s.Some? && s.value != "" ==> r == s.value
    ensures s.None? || s.value == "" ==> r == fallback
  {
    if s.Some? && s.value != "" then s.value else fallback
  }

  /**
   * An optional field. The source pushes the key with the value `undefined`; the model leaves
   * the key out, which is the same object once serialised.
   */
  function Optional(key: string, v: Option<Value>): (r: map<string, Value>)
    ensures v.None? ==> r == map[]
    ensures v.Some? ==> r == map[key := v.value]
  {
    if v.Some? then map[key := v.value] else map[]
  }

  /** The object `trackPageView` pushes; an empty or missing title falls back to the document's. */
  function PageViewFields(pagePath: string, pageTitle: Option<string>, documentTitle: string): (r: map<string, Value>)
    ensures r.Keys == {"event", "page_path", "page_title"}
    ensures r["event"] == Str("page_view") && r["page_path"] == Str(pagePath)
    ensures r["page_title"] == Str(OrElse(pageTitle, documentTitle))
  {
    map["event" := Str("page_view"), "page_path" := Str(pagePath), "page_title" := Str(OrElse(pageTitle, documentTitle))]
  }

  /** The object `trackConversion` pushes; the currency defaults to `ILS`. */
  function ConversionFields(conversionType: string, value: Option<real>, currency: Option<string>, timestamp: string)
    : (r: map<string, Value>)
    ensures r.Keys == {"event", "conversion_type", "currency", "timestamp"} + (if value.Some? then {"value"} else {})
    ensures r["event"] == Str("conversion") && r["conversion_type"] == Str(conversionType)
    ensures r["currency"] == Str(OrElse(currency, "ILS")) && r["timestamp"] == Str(timestamp)
    ensures "value" in r <==> value.Some?
    ensures value.Some? ==> r["value"] == Num(value.value)
  {
    map["event" := Str("conversion"), "conversion_type" := Str(conversionType),
        "currency" := Str(OrElse(currency, "ILS")), "timestamp" := Str(timestamp)]
    + Optional("value", if value.Some? then Some(Num(value.value)) else None)
  }

  class GtmManager {
    var gtmId: Option<string>
    var isInitialized: bool
    var consentGiven: bool
    var consentPreferences: ConsentPreferences
    /** The calls made into the tag manager, oldest first. */
    var dataLayer: seq<Push>
    /** The `gtm-consent` entry of `localStorage`. */
    var savedConsent: Option<ConsentPreferences>

    /**
     * Initialised exactly when the tag manager has been initialised once, and the stored
     * consent is the live one as soon as consent has been given.
     */
    predicate Valid()
      reads this
    {
      && (isInitialized ==> gtmId.Some?)
      && InitCount(dataLayer) == (if isInitialized then 1 else 0)
      && (consentGiven ==> savedConsent == Some(consentPreferences))
    }

    /** Analytics pushes go through only once initialised and with analytics consent. */
    predicate CanTrack()
      reads this
    {
      isInitialized && consentPreferences.analytics
    }

    /** The singleton as the module creates it; `stored` is what `localStorage` already holds. */
    constructor (stored: Option<ConsentPreferences>)
      ensures Valid()
      ensures gtmId == None && !isInitialized && !consentGiven
      ensures consentPreferences == DefaultPreferences && dataLayer == [] && savedConsent == stored
    {
      gtmId := None;
      isInitialized := false;
      consentGiven := false;
      consentPreferences := DefaultPreferences;
      dataLayer := [];
      savedConsent := stored;
    }

    /**
     * `initialize`: does nothing once initialised. Otherwise records the container id and
     * initialises the tag manager with every consent denied but security; `initThrows` says
     * that call fails, in which case the manager stays uninitialised.
     */
    method Initialize(id: string, debug: bool, initThrows: bool)
      requires Valid()
      modifies this
      ensures Valid()
      ensures old(isInitialized) ==> unchanged(this)
      ensures !old(isInitialized) ==> gtmId == Some(id) && isInitialized == !initThrows
      ensures !old(isInitialized) ==> dataLayer == old(dataLayer) + (if initThrows then [] else [Init(id, InitialConsent, debug)])
      ensures consentGiven == old(consentGiven) && consentPreferences == old(consentPreferences)
      ensures savedConsent == old(savedConsent)
    {
      if isInitialized {
        return;
      }
      gtmId := Some(id);
      if !initThrows {
        dataLayer := dataLayer + [Init(id, InitialConsent, debug)];
        assert dataLayer[..|dataLayer| - 1] == old(dataLayer);
        isInitialized := true;
      }
    }

    /**
     * `updateConsent`: merge the update over the preferences, mark consent as given, push the
     * payload derived from the update and store the merged preferences. The push happens
     * whether or not the tag manager was initialised.
     */
    method UpdateConsent(preferences: PartialPreferences)
      requires Valid()
      modifies this
      ensures Valid()
      ensures consentPreferences == Merge(old(consentPreferences), preferences)
      ensures consentGiven
      ensures dataLayer == old(dataLayer) + [ConsentUpdate(ConsentPayload(preferences))]
      ensures savedConsent == Some(consentPreferences)
      ensures gtmId == old(gtmId) && isInitialized == old(isInitialized)
    {
      consentPreferences := Merge(consentPreferences, preferences);
      consentGiven := true;
      dataLayer := dataLayer + [ConsentUpdate(ConsentPayload(preferences))];
      assert dataLayer[..|dataLayer| - 1] == old(dataLayer);
      savedConsent := Some(consentPreferences);
    }

    /** `getConsentPreferences`: a value, so nothing done to it reaches the manager. */
    method GetConsentPreferences() returns (p: ConsentPreferences)
      ensures p == consentPreferences
    {
      p := consentPreferences;
    }

    /** `hasConsent`. */
    method HasConsent() returns (given: bool)
      ensures given == consentGiven
    {
      given := consentGiven;
    }

    /** `loadSavedConsent`: replay the stored preferences, if any, through `updateConsent`. */
    method LoadSavedConsent()
      requires Valid()
      modifies this
      ensures Valid()
      ensures old(savedConsent).None? ==> unchanged(this)
      ensures old(savedConsent).Some? ==> consentPreferences == old(savedConsent).value && consentGiven
      ensures old(savedConsent).Some? ==> dataLayer == old(dataLayer) + [ConsentUpdate(ConsentPayload(Full(old(savedConsent).value)))]
      ensures gtmId == old(gtmId) && isInitialized == old(isInitialized)
    {
      if savedConsent.Some? {
        UpdateConsent(Full(savedConsent.value));
      }
    }

    /** Append one analytics push if tracking is allowed; change nothing else. */
    method PushIfAllowed(fields: map<string, Value>)
      requires Valid()
      modifies this
      ensures Valid()
      ensures dataLayer == old(dataLayer) + (if old(CanTrack()) then [DataLayer(fields)] else [])
      ensures gtmId == old(gtmId) && isInitialized == old(isInitialized) && consentGiven == old(consentGiven)
      ensures consentPreferences == old(consentPreferences) && savedConsent == old(savedConsent)
    {
      if !isInitialized {
        return;
      }
      if !consentPreferences.analytics {
        return;
      }
      dataLayer := dataLayer + [DataLayer(fields)];
      assert dataLayer[..|dataLayer| - 1] == old(dataLayer);
    }

    /** `trackEvent`: push `{ event, ...parameters }` when tracking is allowed. */
    method TrackEvent(name: string, parameters: map<string, Value>)
      requires Valid()
      modifies this
      ensures Valid()
      ensures dataLayer == old(dataLayer) + (if old(CanTrack()) then [DataLayer(EventFields(name, parameters))] else [])
      ensures gtmId == old(gtmId) && isInitialized == old(isInitialized) && consentGiven == old(consentGiven)
      ensures consentPreferences == old(consentPreferences) && savedConsent == old(savedConsent)
    {
      PushIfAllowed(EventFields(name, parameters));
    }

    /** `trackPageView`; `documentTitle` is `document.title`. */
    method TrackPageView(pagePath: string, pageTitle: Option<string>, documentTitle: string)
      requires Valid()
      modifies this
      ensures Valid()
      ensures dataLayer == old(dataLayer) + (if old(CanTrack()) then [DataLayer(PageViewFields(pagePath, pageTitle, documentTitle))] else [])
      ensures gtmId == old(gtmId) && isInitialized == old(isInitialized) && consentGiven == old(consentGiven)
      ensures consentPreferences == old(consentPreferences) && savedConsent == old(savedConsent)
    {
      PushIfAllowed(PageViewFields(pagePath, pageTitle, documentTitle));
    }

    /** `trackConversion`; `timestamp` is the ISO form of the current time. */
    method TrackConversion(conversionType: string, value: Option<real>, currency: Option<string>, timestamp: string)
      requires Valid()
      modifies this
      ensures Valid()
      ensures dataLayer == old(dataLayer)
        + (if old(CanTrack()) then [DataLayer(ConversionFields(conversionType, value, currency, timestamp))] else [])
      ensures gtmId == old(gtmId) && isInitialized == old(isInitialized) && consentGiven == old(consentGiven)
      ensures consentPreferences == old(consentPreferences) && savedConsent == old(savedConsent)
    {
      PushIfAllowed(ConversionFields(conversionType, value, currency, timestamp));
    }

    /** `trackPoolEvent`: a `pool_event` whose details may override `event_type`. */
    method TrackPoolEvent(eventType: string, details: map<string, Value>)
      requires Valid()
      modifies this
      ensures Valid()
      ensures dataLayer == old(dataLayer)
        + (if old(CanTrack()) then [DataLayer(EventFields("pool_event", map["event_type" := Str(eventType)] + details))] else [])
      ensures gtmId == old(gtmId) && isInitialized == old(isInitialized) && consentGiven == old(consentGiven)
      ensures consentPreferences == old(consentPreferences) && savedConsent == old(savedConsent)
    {
      TrackEvent("pool_event", map["event_type" := Str(eventType)] + details);
    }

    /** `trackInteraction`; `pathname` is `window.location.pathname`. */
    method TrackInteraction(interactionType: string, element: Option<string>, page: Option<string>, pathname: string)
      requires Valid()
      modifies this
      ensures Valid()
      ensures var parameters := map["interaction_type" := Str(interactionType), "page" := Str(OrElse(page, pathname))]
                                + Optional("element", if element.Some? then Some(Str(element.value)) else None);
        dataLayer == old(dataLayer) + (if old(CanTrack()) then [DataLayer(EventFields("user_interaction", parameters))] else [])
      ensures gtmId == old(gtmId) && isInitialized == old(isInitialized) && consentGiven == old(consentGiven)
      ensures consentPreferences == old(consentPreferences) && savedConsent == old(savedConsent)
    {
      var parameters := map["interaction_type" := Str(interactionType), "page" := Str(OrElse(page, pathname))]
                        + Optional("element", if element.Some? then Some(Str(element.value)) else None);
      TrackEvent("user_interaction", parameters);
    }

    /** `getStatus`. */
    method GetStatus() returns (initialized: bool, given: bool, preferences: ConsentPreferences)
      ensures initialized == isInitialized && given == consentGiven && preferences == consentPreferences
    {
      initialized, given, preferences := isInitialized, consentGiven, consentPreferences;
    }
  }

  /**
   * A second `initialize` is ignored after a success but retried after a failure; once
   * initialised and told "analytics on", the manager tracks events.
   */
  method InitialiseConsentTrack(initThrows: bool) returns (m: GtmManager)
    ensures fresh(m) && m.Valid()
    ensures m.gtmId == Some(if initThrows then "GTM-1111" else "GTM-0000")
    ensures m.consentGiven && m.consentPreferences.analytics
    ensures |m.dataLayer| == 3 && m.dataLayer[2] == DataLayer(EventFields("page_ready", map[]))
  {
    m := new GtmManager(None);
    m.Initialize("GTM-0000", false, initThrows);
    m.Initialize("GTM-1111", false, false);
    m.UpdateConsent(PartialPreferences(Some(true), None, None, None));
    m.TrackEvent("page_ready", map[]);
  }
}
