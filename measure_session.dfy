/**
 * The backend's session record (measure/session.go): validation of a whole
 * session, the crash predicates and filters, the encode/decode pair that
 * ships symbolicatable strings and frames to the symbolicator and writes the
 * answers back, and the country-code decision of the geo-IP lookup.
 *
 * Go's struct updates through a pointer are modelled as functions from the
 * old session (or event list) to the new one.
 */
module MeasureSession {
  import opened Wrappers
  import opened Text
  import opened MeasureEvent

  /** A parsed `net.IP`; its bytes are not interpreted here. */
  datatype IP = IP(bytes: seq<int>)

  /** A session attachment; its fields and checks are not part of this model. */
  datatype Attachment = Attachment(id: string, name: string, kind: string)

  datatype Session = Session(
    sessionId: string, appId: string, timestamp: Time,
    ipv4: Option<IP>, ipv6: Option<IP>, countryCode: string,
    resource: Resource, events: seq<EventField>, attachments: seq<Attachment>)

  // ---------------------------------------------------------------------
  // Validation

  /**
   * `Session.validate`: the resource first, then every event in order, then
   * every attachment (only when there are any); the first error wins. The
   * resource and attachment checks are not part of this model and are passed in.
   */
  function ValidateSession(s: Session, resourceCheck: Resource -> Option<string>,
                           attachmentCheck: Attachment -> Option<string>): Option<ValidationError>
  {
    if resourceCheck(s.resource).Some? then Some(InvalidResource(resourceCheck(s.resource).value))
    else
      var eventError := FirstEventError(s.events);
      if eventError.Some? then eventError
      else if |s.attachments| > 0 then FirstAttachmentError(s.attachments, attachmentCheck)
      else None
  }

  function FirstEventError(events: seq<EventField>): Option<ValidationError>
  {
    if |events| == 0 then None
    else if Validate(events[0]).Some? then Validate(events[0])
    else FirstEventError(events[1..])
  }

  function FirstAttachmentError(attachments: seq<Attachment>, check: Attachment -> Option<string>)
    : Option<ValidationError>
  {
    if |attachments| == 0 then None
    else if check(attachments[0]).Some? then Some(InvalidAttachment(check(attachments[0]).value))
    else FirstAttachmentError(attachments[1..], check)
  }

  /** The first event error is the error of the earliest rejected event, and there is none iff every event is accepted. */
  lemma {:induction false} FirstEventErrorIsEarliest(events: seq<EventField>)
    ensures FirstEventError(events).None? <==> forall i :: 0 <= i < |events| ==> Validate(events[i]).None?
    ensures FirstEventError(events).Some? ==>
      exists k :: 0 <= k < |events| && FirstEventError(events) == Validate(events[k]) &&
        forall i :: 0 <= i < k ==> Validate(events[i]).None?
  {
    if |events| > 0 {
      FirstEventErrorIsEarliest(events[1..]);
      if Validate(events[0]).None? && FirstEventError(events[1..]).Some? {
        var k :| 0 <= k < |events[1..]| && FirstEventError(events[1..]) == Validate(events[1..][k]) &&
          forall i :: 0 <= i < k ==> Validate(events[1..][i]).None?;
        assert FirstEventError(events) == Validate(events[k + 1]);
        forall i | 0 <= i < k + 1 ensures Validate(events[i]).None? {
          if i > 0 { assert events[i] == events[1..][i - 1]; }
        }
      }
      if FirstEventError(events).None? {
        forall i | 0 <= i < |events| ensures Validate(events[i]).None? {
          if i > 0 { assert events[i] == events[1..][i - 1]; }
        }
      }
    }
  }

  lemma {:induction false} FirstAttachmentErrorNone(attachments: seq<Attachment>, check: Attachment -> Option<string>)
    ensures FirstAttachmentError(attachments, check).None? <==>
      forall i :: 0 <= i < |attachments| ==> check(attachments[i]).None?
  {
    if |attachments| > 0 {
      FirstAttachmentErrorNone(attachments[1..], check);
      assert forall i :: 0 < i < |attachments| ==> attachments[i] == attachments[1..][i - 1];
    }
  }

  /**
   * A session is accepted exactly when its resource, every event and every
   * attachment are; a bad resource is reported before any event.
   */
  lemma ValidateSessionAccepts(s: Session, resourceCheck: Resource -> Option<string>,
                               attachmentCheck: Attachment -> Option<string>)
    ensures ValidateSession(s, resourceCheck, attachmentCheck).None? <==>
      resourceCheck(s.resource).None? &&
      (forall i :: 0 <= i < |s.events| ==> Validate(s.events[i]).None?) &&
      (forall i :: 0 <= i < |s.attachments| ==> attachmentCheck(s.attachments[i]).None?)
    ensures resourceCheck(s.resource).Some? ==>
      ValidateSession(s, resourceCheck, attachmentCheck) == Some(InvalidResource(resourceCheck(s.resource).value))
  {
    FirstEventErrorIsEarliest(s.events);
    FirstAttachmentErrorNone(s.attachments, attachmentCheck);
  }

  // ---------------------------------------------------------------------
  // Predicates and filters

  /** `hasUnhandledExceptions`: scans until the first unhandled exception. */
  method HasUnhandledExceptions(events: seq<EventField>) returns (result: bool)
    ensures result <==> exists i :: 0 <= i < |events| && IsUnhandledException(events[i])
  {
    result := false;
    var i := 0;
    while i < |events|
      invariant 0 <= i <= |events|
      invariant !result
      invariant forall j :: 0 <= j < i ==> !IsUnhandledException(events[j])
    {
      if IsUnhandledException(events[i]) {
        result := true;
        break;
      }
      i := i + 1;
    }
  }

  /** `hasANRs`: scans until the first ANR. */
  method HasANRs(events: seq<EventField>) returns (result: bool)
    ensures result <==> exists i :: 0 <= i < |events| && IsANR(events[i])
  {
    result := false;
    var i := 0;
    while i < |events|
      invariant 0 <= i <= |events|
      invariant !result
      invariant forall j :: 0 <= j < i ==> !IsANR(events[j])
    {
      if IsANR(events[i]) {
        result := true;
        break;
      }
      i := i + 1;
    }
  }

  /** An event that carries something the symbolicator can rewrite. */
  predicate NeedsSymbolication(e: EventField)
  {
    IsException(e) || IsANR(e)
    || (IsAppExit(e) && |e.appExit.trace| > 0)
    || (IsLifecycleActivity(e) && |e.lifecycleActivity.className| > 0)
    || (IsColdLaunch(e) && |e.coldLaunch.launchedActivity| > 0)
    || (IsWarmLaunch(e) && |e.warmLaunch.launchedActivity| > 0)
    || (IsHotLaunch(e) && |e.hotLaunch.launchedActivity| > 0)
    || (IsLifecycleFragment(e) && (|e.lifecycleFragment.className| > 0 || |e.lifecycleFragment.parentActivity| > 0))
  }

  /** `needsSymbolication`: the checks of each event in the source's order, stopping at the first hit. */
  method SessionNeedsSymbolication(events: seq<EventField>) returns (result: bool)
    ensures result <==> exists i :: 0 <= i < |events| && NeedsSymbolication(events[i])
  {
    result := false;
    var i := 0;
    while i < |events|
      invariant 0 <= i <= |events|
      invariant !result
      invariant forall j :: 0 <= j < i ==> !NeedsSymbolication(events[j])
    {
      var e := events[i];
      if IsException(e) { result := true; break; }
      if IsANR(e) { result := true; break; }
      if IsAppExit(e) && |e.appExit.trace| > 0 { result := true; break; }
      if IsLifecycleActivity(e) && |e.lifecycleActivity.className| > 0 { result := true; break; }
      if IsColdLaunch(e) && |e.coldLaunch.launchedActivity| > 0 { result := true; break; }
      if IsWarmLaunch(e) && |e.warmLaunch.launchedActivity| > 0 { result := true; break; }
      if IsHotLaunch(e) && |e.hotLaunch.launchedActivity| > 0 { result := true; break; }
      if IsLifecycleFragment(e) {
        var hasClassName := |e.lifecycleFragment.className| > 0;
        var hasParentActivity := |e.lifecycleFragment.parentActivity| > 0;
        if hasClassName || hasParentActivity { result := true; break; }
      }
      i := i + 1;
    }
  }

  /** The unhandled exception events, in their original order. */
  function UnhandledExceptions(events: seq<EventField>): seq<EventField>
  {
    if |events| == 0 then []
    else UnhandledExceptions(events[..|events| - 1])
         + (if IsUnhandledException(events[|events| - 1]) then [events[|events| - 1]] else [])
  }

  /** The ANR events, in their original order. */
  function ANRs(events: seq<EventField>): seq<EventField>
  {
    if |events| == 0 then []
    else ANRs(events[..|events| - 1]) + (if IsANR(events[|events| - 1]) then [events[|events| - 1]] else [])
  }

  /** `getUnhandledExceptions`: skips handled and non-exception events, appends the rest. */
  method GetUnhandledExceptions(events: seq<EventField>) returns (exceptions: seq<EventField>)
    ensures exceptions == UnhandledExceptions(events)
  {
    exceptions := [];
    var i := 0;
    while i < |events|
      invariant 0 <= i <= |events|
      invariant exceptions == UnhandledExceptions(events[..i])
    {
      assert events[..i + 1][..i] == events[..i];
      var event := events[i];
      i := i + 1;
      if event.eventType != TypeException {
        continue;
      }
      if event.exception.handled {
        continue;
      }
      exceptions := exceptions + [event];
    }
    assert events[..i] == events;
  }

  /** `getANRs`: appends every ANR event. */
  method GetANRs(events: seq<EventField>) returns (anrs: seq<EventField>)
    ensures anrs == ANRs(events)
  {
    anrs := [];
    var i := 0;
    while i < |events|
      invariant 0 <= i <= |events|
      invariant anrs == ANRs(events[..i])
    {
      assert events[..i + 1][..i] == events[..i];
      var event := events[i];
      i := i + 1;
      if event.eventType != TypeANR {
        continue;
      }
      anrs := anrs + [event];
    }
    assert events[..i] == events;
  }

  /**
   * The filter keeps exactly the unhandled exceptions, preserves their
   * relative order (it distributes over concatenation) and is empty exactly
   * when the predicate finds none.
   */
  lemma {:induction false} UnhandledExceptionsExact(events: seq<EventField>)
    ensures forall e :: e in UnhandledExceptions(events) <==> e in events && IsUnhandledException(e)
    ensures UnhandledExceptions(events) != [] <==> exists i :: 0 <= i < |events| && IsUnhandledException(events[i])
  {
    if |events| > 0 {
      var init := events[..|events| - 1];
      UnhandledExceptionsExact(init);
      assert events == init + [events[|events| - 1]];
      if exists i :: 0 <= i < |init| && IsUnhandledException(init[i]) {
        var i :| 0 <= i < |init| && IsUnhandledException(init[i]);
        assert events[i] == init[i];
      }
    }
  }

  lemma {:induction false} UnhandledExceptionsOfConcat(a: seq<EventField>, b: seq<EventField>)
    ensures UnhandledExceptions(a + b) == UnhandledExceptions(a) + UnhandledExceptions(b)
  {
    if |b| > 0 {
      var b' := b[..|b| - 1];
      assert (a + b)[..|a + b| - 1] == a + b';
      UnhandledExceptionsOfConcat(a, b');
    } else {
      assert a + b == a;
    }
  }

  lemma {:induction false} ANRsExact(events: seq<EventField>)
    ensures forall e :: e in ANRs(events) <==> e in events && IsANR(e)
    ensures ANRs(events) != [] <==> exists i :: 0 <= i < |events| && IsANR(events[i])
  {
    if |events| > 0 {
      var init := events[..|events| - 1];
      ANRsExact(init);
      assert events == init + [events[|events| - 1]];
      if exists i :: 0 <= i < |init| && IsANR(init[i]) {
        var i :| 0 <= i < |init| && IsANR(init[i]);
        assert events[i] == init[i];
      }
    }
  }

  lemma {:induction false} ANRsOfConcat(a: seq<EventField>, b: seq<EventField>)
    ensures ANRs(a + b) == ANRs(a) + ANRs(b)
  {
    if |b| > 0 {
      var b' := b[..|b| - 1];
      assert (a + b)[..|a + b| - 1] == a + b';
      ANRsOfConcat(a, b');
    } else {
      assert a + b == a;
    }
  }

  /** The flag predicates agree with the filters: each is true iff its filter is non-empty. */
  method PredicatesAgreeWithFilters(events: seq<EventField>) returns (unhandled: bool, anrs: bool)
    ensures unhandled <==> UnhandledExceptions(events) != []
    ensures anrs <==> ANRs(events) != []
  {
    unhandled := HasUnhandledExceptions(events);
    anrs := HasANRs(events);
    UnhandledExceptionsExact(events);
    ANRsExact(events);
  }

  // ---------------------------------------------------------------------
  // Country decision

  /** The outcome of `lookupCountry`: the updated session and whether an error was returned. */
  datatype CountryLookup = CountryLookup(session: Session, failed: bool)

  /**
   * The decision part of `lookupCountry`. The parsed address, whether it is
   * v4, the geo-IP answer (`None` when the lookup fails) and the bogon flag
   * come from network calls outside this model.
   */
  function LookupCountry(s: Session, ip: Option<IP>, isV4: bool, country: Option<string>, bogon: bool)
    : CountryLookup
  {
    var placed := if isV4 then s.(ipv4 := ip) else s.(ipv6 := ip);
    if country.None? then CountryLookup(placed, true)
    else if bogon then CountryLookup(placed.(countryCode := "bogon"), false)
    else if country.value != "" then CountryLookup(placed.(countryCode := country.value), false)
    else CountryLookup(placed.(countryCode := "not available"), false)
  }

  /**
   * The address goes to the v4 field iff it is v4 and to the v6 field
   * otherwise; a failed lookup leaves the country code as it was; otherwise
   * a bogon address gives "bogon", then a non-empty answer, then
   * "not available". Nothing else changes.
   */
  lemma LookupCountryDecision(s: Session, ip: Option<IP>, isV4: bool, country: Option<string>, bogon: bool)
    ensures var r := LookupCountry(s, ip, isV4, country, bogon);
      (isV4 ==> r.session.ipv4 == ip && r.session.ipv6 == s.ipv6) &&
      (!isV4 ==> r.session.ipv6 == ip && r.session.ipv4 == s.ipv4) &&
      (r.failed <==> country.None?) &&
      (country.None? ==> r.session.countryCode == s.countryCode) &&
      (country.Some? && bogon ==> r.session.countryCode == "bogon") &&
      (country.Some? && !bogon && country.value != "" ==> r.session.countryCode == country.value) &&
      (country.Some? && !bogon && country.value == "" ==> r.session.countryCode == "not available") &&
      r.session.events == s.events && r.session.resource == s.resource && r.session.sessionId == s.sessionId
  {}
}
