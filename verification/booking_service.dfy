/**
  The booking service: validates the user's input, resolves the memoised
  event type, asks the scheduling provider, and maps every outcome (answer,
  client error, unexpected error) to the response envelope the agent shows.

  The provider is an oracle from a client call to what that call returned or
  raised. Each operation returns its envelope, the service state afterwards
  (only the event-type memo ever changes) and the provider calls it made, in
  order, so "no provider call" is an empty trace.
 */
module BookingService {
  import opened Wrappers
  import opened Text
  import opened JsonData
  import opened Clock
  import opened ApiErrors
  import opened Validators
  import CalendlyApi

  // ---------------------------------------------------------------------------
  // The provider, the service state and the envelopes

  /** A call of a client method, with the arguments the service passes. */
  datatype Call =
    | ListEventTypes
    | ListAvailableTimes(eventType: Json, start: string, end: string)
    | CreateInvitee(eventType: Json, start: string, email: string, name: string)
    | ListScheduledEvents(minStart: string)
    | ListInvitees(uuid: string)
    | CancelEvent(uuid: string, reason: string)

  /** What each client call returns (the extracted collection or resource) or raises. */
  type Provider = Call -> Result<Json, Failure>

  /**
    `hasApi` is false in degraded mode (no client could be built);
    `eventTypeCache` starts as `None` (`JNull`).
   */
  datatype Service = Service(hasApi: bool, calendlyUrl: string, eventTypeCache: Json)

  /** One appointment `find_user_bookings` reports. */
  datatype Appointment = Appointment(uri: Json, date: string, time: string, name: Json)

  /** The operation-specific keys of an envelope. */
  datatype Details =
    | NoDetails
    | Slots(date: string, times: seq<string>)
    | Link(bookingUrl: string)
    | Confirmed(name: string, email: string, date: string, time: string, eventUri: Json)
    | Bookings(email: string, appointments: seq<Appointment>, count: Option<nat>)
    | ForEmail(email: string)
    | Cancelled(email: string, date: string, time: string)
    | Rescheduled(email: string, oldCancelled: bool, newDate: string, availableTimes: seq<string>)

  /**
    The response dictionary: `success`, `message` (absent only on a successful
    search), the `validation_error` and `fallback` flags (false when absent),
    `error` when present, and the operation-specific keys.
   */
  datatype Envelope = Envelope(
    success: bool,
    message: Option<string>,
    validationError: bool,
    fallback: bool,
    error: Option<string>,
    details: Details)

  /** An operation's envelope, the service afterwards, and the provider calls made. */
  datatype Step = Step(envelope: Envelope, service: Service, calls: seq<Call>)

  /** The part of an operation inside its `try`: a value or what it raised, the state, the calls. */
  datatype Attempt<T> = Attempt(result: Result<T, Failure>, service: Service, calls: seq<Call>)

  /** The same, for parts that cannot change the service. */
  datatype Traced<T> = Traced(result: Result<T, Failure>, calls: seq<Call>)

  /** A rejected input: no provider call is made. */
  function Rejected(message: string, details: Details): Envelope {
    Envelope(false, Some(message), true, false, None, details)
  }

  /** A failure after validation that is neither a validation error nor an availability fallback. */
  function Failed(message: string, error: Option<string>, details: Details): Envelope {
    Envelope(false, Some(message), false, false, error, details)
  }

  /** The constructor's degraded mode depends only on whether a client exists. */
  predicate SameConfig(s: Service, s': Service) {
    s'.hasApi == s.hasApi && s'.calendlyUrl == s.calendlyUrl
  }

  /** The event-type memo is written only while it is unset (falsy). */
  predicate MemoRespected(s: Service, s': Service) {
    SameConfig(s, s') && (Truthy(s.eventTypeCache) ==> s' == s)
  }

  /**
    `BookingService(api_client)`: a supplied client is used; otherwise a client
    is built from the `CALENDLY_API_TOKEN` environment value, and if that fails
    with an authentication error the service runs without one. `envUrl` is the
    `CALENDLY_URL` environment value.
   */
  function NewService(clientSupplied: bool, envToken: Option<string>, envUrl: Option<string>): (s: Service)
    ensures s.hasApi <==> clientSupplied || (envToken.Some? && envToken.value != "")
    ensures s.calendlyUrl == (if envUrl.Some? then envUrl.value else "")
    ensures !Truthy(s.eventTypeCache)
  {
    var built := CalendlyApi.NewClient(None, envToken, CalendlyApi.DefaultTimeout);
    Service(clientSupplied || built.Ok?, if envUrl.Some? then envUrl.value else "", JNull)
  }

  // ---------------------------------------------------------------------------
  // Python operations on decoded values that raise something other than a client error

  /** `j[key]`. */
  function Lookup(j: Json, key: string): (r: Result<Json, Failure>)
    ensures r.Ok? <==> j.JObj? && key in j.fields
    ensures r.Ok? ==> r.value == j.fields[key]
    ensures r.Err? ==> r.error.Unexpected?
  {
    match Index(j, key)
    case Ok(v) => Ok(v)
    case Err(e) => Err(Unexpected(e))
  }

  /** A value used as a string. */
  function TextOf(j: Json): (r: Result<string, Failure>)
    ensures r.Ok? <==> j.JStr?
    ensures r.Ok? ==> r.value == j.s
    ensures r.Err? ==> r.error.Unexpected?
  {
    match AsText(j)
    case Ok(t) => Ok(t)
    case Err(e) => Err(Unexpected(e))
  }

  /** The elements a `for` loop over a decoded value visits. */
  function Iterate(j: Json): (r: Result<seq<Json>, Failure>)
    ensures j.JArr? ==> r == Ok(j.items)
    ensures r.Err? ==> r.error.Unexpected?
    ensures !j.JArr? && r.Ok? ==> r.value == []
  {
    match Elements(j)
    case Ok(xs) => Ok(xs)
    case Err(e) => Err(Unexpected(e))
  }

  /** `datetime.fromisoformat(text.replace("Z", "+00:00"))`. */
  function ParseInstant(j: Json): (r: Result<DateTime, Failure>)
    ensures r.Ok? <==> j.JStr? && ParseIso(ReplaceChar(j.s, 'Z', "+00:00")).Some?
    ensures r.Ok? ==> r.value == ParseIso(ReplaceChar(j.s, 'Z', "+00:00")).value && ValidDateTime(r.value)
    ensures r.Err? ==> r.error.Unexpected?
  {
    var text :- TextOf(j);
    match ParseIso(ReplaceChar(text, 'Z', "+00:00"))
    case None => Err(Unexpected("ValueError: Invalid isoformat string"))
    case Some(dt) => Ok(dt)
  }

  /** `datetime.fromisoformat(record["start_time"].replace("Z", "+00:00"))`. */
  function StartOf(record: Json): (r: Result<DateTime, Failure>)
    ensures r.Ok? <==> record.JObj? && "start_time" in record.fields && ParseInstant(record.fields["start_time"]).Ok?
    ensures r.Ok? ==> r.value == ParseInstant(record.fields["start_time"]).value && ValidDateTime(r.value)
    ensures r.Err? ==> r.error.Unexpected?
  {
    var start :- Lookup(record, "start_time");
    ParseInstant(start)
  }

  // ---------------------------------------------------------------------------
  // _get_event_type_uri

  /**
    `_get_event_type_uri`: the memo when it is truthy; nothing without a
    client; otherwise the `uri` of the first listed event type, which is
    memoised. A client error while listing is swallowed (`None`, memo
    unchanged); anything else propagates. `JNull` stands for `None`.
   */
  function ResolveEventType(s: Service, p: Provider): (a: Attempt<Json>)
    ensures Truthy(s.eventTypeCache) ==> a == Attempt(Ok(s.eventTypeCache), s, [])
    ensures !Truthy(s.eventTypeCache) && !s.hasApi ==> a == Attempt(Ok(JNull), s, [])
    ensures !Truthy(s.eventTypeCache) && s.hasApi ==> a.calls == [ListEventTypes]
    ensures MemoRespected(s, a.service)
    ensures p(ListEventTypes).Err? && p(ListEventTypes).error.Api? && !Truthy(s.eventTypeCache)
      ==> a == Attempt(Ok(JNull), s, a.calls)
    ensures a.result.Ok? && Truthy(a.result.value) ==> a.service.eventTypeCache == a.result.value
    ensures a.result.Err? ==> a.result.error.Unexpected? && a.service == s
  {
    if Truthy(s.eventTypeCache) then Attempt(Ok(s.eventTypeCache), s, [])
    else if !s.hasApi then Attempt(Ok(JNull), s, [])
    else match p(ListEventTypes)
      case Err(f) => if f.Api? then Attempt(Ok(JNull), s, [ListEventTypes]) else Attempt(Err(f), s, [ListEventTypes])
      case Ok(types) =>
        if !Truthy(types) then Attempt(Ok(JNull), s, [ListEventTypes])
        else if !types.JArr? then Attempt(Err(Unexpected("TypeError: event types are not a list of records")), s, [ListEventTypes])
        else match Lookup(types.items[0], "uri")
          case Err(f) => Attempt(Err(f), s, [ListEventTypes])
          case Ok(uri) => Attempt(Ok(uri), s.(eventTypeCache := uri), [ListEventTypes])
  }

  // ---------------------------------------------------------------------------
  // get_available_times

  const FallbackTimes: seq<string> := ["9:00 AM", "10:00 AM", "11:00 AM", "2:00 PM", "3:00 PM", "4:00 PM"]

  /** The `except` chain of `get_available_times`. */
  const AvailabilityChain := [CatchRateLimit, CatchApiError, CatchException]

  /** The most slots a live answer lists. */
  const MaxSlots := 10

  function FallbackEnvelope(date: string, message: string, error: Option<string>): Envelope {
    Envelope(false, Some(message), false, true, error, Slots(date, FallbackTimes))
  }

  /** The handler of `get_available_times` that catches `f`. */
  function AvailabilityFailure(date: string, f: Failure): (e: Envelope)
    ensures e.fallback && !e.success && !e.validationError && e.details == Slots(date, FallbackTimes)
    ensures f.Api? && f.err.kind == RateLimit <==> e.error.None?
    ensures e.error.Some? ==> e.error.value == Describe(f)
    ensures f.Unexpected? ==> e.message == Some("Unexpected error - using fallback times")
  {
    match AvailabilityClause(f)
    case 0 => FallbackEnvelope(date, "Rate limit exceeded - using fallback times", None)
    case 1 => FallbackEnvelope(date, "API error - using fallback times", Some(Describe(f)))
    case _ => FallbackEnvelope(date, "Unexpected error - using fallback times", Some(Describe(f)))
  }

  /** The clause of the `get_available_times` chain that handles `f`, read off its class. */
  function AvailabilityClause(f: Failure): nat {
    if f.Api? && f.err.kind == RateLimit then 0 else if f.Api? then 1 else 2
  }

  /** Reading the class directly picks the clause Python's `except` chain picks. */
  lemma AvailabilityClauseIsHandler(f: Failure)
    ensures Handler(AvailabilityChain, f) == Some(AvailabilityClause(f))
  {
    var c1: seq<Clause> := [CatchApiError, CatchException];
    var c2: seq<Clause> := [CatchException];
    assert AvailabilityChain[0] == CatchRateLimit && AvailabilityChain[1..] == c1 && c1[1..] == c2;
    assert Handler(c2, f) == Some(0);
    assert Handler(c1, f) == if f.Api? then Some(0) else Some(1);
  }

  /** The `%I:%M %p` rendering of one slot's `start_time`. */
  function SlotTime(slot: Json): (r: Result<string, Failure>)
    ensures r.Ok? <==> StartOf(slot).Ok?
    ensures r.Ok? ==> r.value == Format12(StartOf(slot).value.time)
    ensures r.Err? ==> r.error.Unexpected?
  {
    var dt :- StartOf(slot);
    Ok(Format12(dt.time))
  }

  /** The list comprehension over the slots: every slot rendered, in order, or the first failure. */
  function RenderSlots(slots: seq<Json>): (r: Result<seq<string>, Failure>)
    ensures r.Ok? ==> |r.value| == |slots|
    ensures r.Err? ==> r.error.Unexpected?
  {
    MapAll(SlotTime, slots)
  }

  /** A list comprehension whose body may raise: the first failure, or every result in order. */
  function MapAll<X, Y>(f: X -> Result<Y, Failure>, xs: seq<X>): (r: Result<seq<Y>, Failure>)
    ensures r.Ok? ==> |r.value| == |xs|
    ensures r.Err? ==> exists i :: 0 <= i < |xs| && f(xs[i]) == Err(r.error)
  {
    if xs == [] then Ok([])
    else
      match f(xs[0])
      case Err(e) => Err(e)
      case Ok(head) =>
        match MapAll(f, xs[1..])
        case Err(e) =>
          assert exists i :: 0 <= i < |xs| - 1 && f(xs[1..][i]) == Err(e);
          assert forall i :: 0 <= i < |xs| - 1 ==> xs[1..][i] == xs[i + 1];
          Err(e)
        case Ok(tail) => Ok([head] + tail)
  }

  /** The comprehension succeeds exactly when every element does, and then lists the results in order. */
  lemma {:induction false} MapAllIsMap<X, Y>(f: X -> Result<Y, Failure>, xs: seq<X>)
    ensures MapAll(f, xs).Ok? <==> forall i :: 0 <= i < |xs| ==> f(xs[i]).Ok?
    ensures MapAll(f, xs).Ok? ==> forall i :: 0 <= i < |xs| ==> MapAll(f, xs).value[i] == f(xs[i]).value
    decreases |xs|
  {
    if xs != [] {
      var tail := xs[1..];
      MapAllIsMap(f, tail);
      if MapAll(f, tail).Err? {
        var k :| 0 <= k < |tail| && !f(tail[k]).Ok?;
        assert xs[k + 1] == tail[k];
      }
      if f(xs[0]).Ok? && MapAll(f, tail).Ok? {
        var r := MapAll(f, xs).value;
        assert r == [f(xs[0]).value] + MapAll(f, tail).value;
        forall i | 1 <= i < |xs|
          ensures r[i] == f(xs[i]).value
        {
          assert xs[i] == tail[i - 1];
        }
      }
      if forall i :: 0 <= i < |xs| ==> f(xs[i]).Ok? {
        forall k | 0 <= k < |tail|
          ensures f(tail[k]).Ok?
        {
          assert tail[k] == xs[k + 1];
        }
      }
    }
  }

  /** Rendering the slots succeeds exactly when every slot's start time parses, and lists them in order. */
  lemma RenderSlotsIsMap(slots: seq<Json>)
    ensures RenderSlots(slots).Ok? <==> forall i :: 0 <= i < |slots| ==> SlotTime(slots[i]).Ok?
    ensures RenderSlots(slots).Ok? ==>
      forall i :: 0 <= i < |slots| ==> RenderSlots(slots).value[i] == SlotTime(slots[i]).value
  {
    MapAllIsMap(SlotTime, slots);
  }

  /** `times[:10]` followed by the comprehension; only a list can be sliced into records. */
  function RenderFirstSlots(times: Json): (r: Result<seq<string>, Failure>)
    ensures r.Ok? ==> times.JArr? && |r.value| == Min(|times.items|, MaxSlots)
    ensures times.JArr? ==> r == RenderSlots(times.items[..Min(|times.items|, MaxSlots)])
    ensures r.Err? ==> r.error.Unexpected?
  {
    if times.JArr? then RenderSlots(times.items[..Min(|times.items|, MaxSlots)])
    else Err(Unexpected("TypeError: available times are not a list of records"))
  }

  function Min(a: int, b: int): int {
    if a < b then a else b
  }

  /** `[isoformat() of the day's midnight, isoformat() of the next day's midnight]`. */
  function Window(d: Date): (r: Result<(string, string), Failure>)
    requires ValidDate(d)
    ensures r.Ok? <==> d != Date(9999, 12, 31)
    ensures r.Ok? ==> r.value.0 == DayStart(d) && r.value.1 == DayStart(NextDay(d).value)
    ensures r.Err? ==> r.error.Unexpected?
  {
    match NextDay(d)
    case None => Err(Unexpected("OverflowError: date value out of range"))
    case Some(n) => Ok((DayStart(d), DayStart(n)))
  }

  /** What the `try` block of `get_available_times` finds before it builds an envelope. */
  datatype Availability = NoEventType | Listed(times: seq<string>)

  /** No call lists the event types. */
  predicate SkipsEventTypes(calls: seq<Call>) {
    forall i :: 0 <= i < |calls| ==> !calls[i].ListEventTypes?
  }

  /** The slot lookup once an event type is known: one call for the day's window, then the rendering. */
  function FetchSlots(p: Provider, uri: Json, d: Date): (t: Traced<seq<string>>)
    requires ValidDate(d)
    ensures |t.calls| <= 1 && SkipsEventTypes(t.calls)
    ensures t.result.Ok? ==> |t.result.value| <= MaxSlots && |t.calls| == 1
    ensures t.result.Ok? && t.result.value != [] ==> p(t.calls[0]).Ok? && Truthy(p(t.calls[0]).value)
    ensures Window(d).Err? ==> t == Traced(Err(Window(d).error), [])
    ensures Window(d).Ok? ==> t.calls == [ListAvailableTimes(uri, Window(d).value.0, Window(d).value.1)]
    ensures |t.calls| == 1 && p(t.calls[0]).Err? ==> t.result == Err(p(t.calls[0]).error)
    ensures |t.calls| == 1 && p(t.calls[0]).Ok? && !Truthy(p(t.calls[0]).value) ==> t.result == Ok([])
    ensures |t.calls| == 1 && p(t.calls[0]).Ok? && Truthy(p(t.calls[0]).value) ==>
      t.result == RenderFirstSlots(p(t.calls[0]).value)
  {
    match Window(d)
    case Err(f) => Traced(Err(f), [])
    case Ok(w) =>
      var call := ListAvailableTimes(uri, w.0, w.1);
      match p(call)
      case Err(f) => Traced(Err(f), [call])
      case Ok(times) =>
        if !Truthy(times) then Traced(Ok([]), [call])
        else match RenderFirstSlots(times)
          case Err(f) => Traced(Err(f), [call])
          case Ok(list) => Traced(Ok(list), [call])
  }

  function QueryAvailability(s: Service, p: Provider, d: Date): (a: Attempt<Availability>)
    requires ValidDate(d)
    ensures MemoRespected(s, a.service)
    ensures a.result.Ok? && a.result.value.Listed? ==> |a.result.value.times| <= MaxSlots
    ensures Truthy(s.eventTypeCache) ==> SkipsEventTypes(a.calls)
  {
    var et := ResolveEventType(s, p);
    match et.result
    case Err(f) => Attempt(Err(f), et.service, et.calls)
    case Ok(uri) =>
      if !Truthy(uri) then Attempt(Ok(NoEventType), et.service, et.calls)
      else
        var fetched := FetchSlots(p, uri, d);
        var result := match fetched.result
          case Ok(times) => Ok(Listed(times))
          case Err(f) => Err(f);
        Attempt(result, et.service, et.calls + fetched.calls)
  }

  /**
    `get_available_times(date)`, with `today` standing for the clock the date
    validator reads. Invalid dates are rejected without a call; without a
    client, without an event type, or on any raised error the fixed fallback
    list is offered; otherwise the first ten slots are rendered.
   */
  function GetAvailableTimes(s: Service, p: Provider, date: string, today: Date): (st: Step)
    ensures st.envelope.details.Slots? && st.envelope.details.date == date
    ensures st.envelope.validationError <==> !ValidateDate(date, today).ok
    ensures st.envelope.validationError ==> st == Step(Rejected(ValidateDate(date, today).message, Slots(date, [])), s, [])
    ensures !st.envelope.success && !st.envelope.validationError ==> st.envelope.fallback
    ensures st.envelope.fallback ==> !st.envelope.success && st.envelope.details.times == FallbackTimes
    ensures st.envelope.success ==> |st.envelope.details.times| <= MaxSlots && st.envelope.error.None?
    ensures !s.hasApi ==> st.calls == [] && st.service == s
    ensures MemoRespected(s, st.service)
    ensures Truthy(s.eventTypeCache) ==> SkipsEventTypes(st.calls)
    ensures st.envelope.message.Some?
  {
    var v := ValidateDate(date, today);
    if !v.ok then Step(Rejected(v.message, Slots(date, [])), s, [])
    else if !s.hasApi then Step(FallbackEnvelope(date, "API not available - using fallback times", None), s, [])
    else
      var a := QueryAvailability(s, p, ParseYmd(date).value);
      Step(AvailabilityEnvelope(date, a.result), a.service, a.calls)
  }

  /** The reply `get_available_times` builds from the outcome of its `try` block. */
  function AvailabilityEnvelope(date: string, result: Result<Availability, Failure>): (e: Envelope)
    ensures e.details.Slots? && e.details.date == date
    ensures !e.validationError && e.message.Some?
    ensures e.success <==> result.Ok? && result.value.Listed?
    ensures !e.success ==> e.fallback && e.details.times == FallbackTimes
    ensures e.success ==> !e.fallback && e.error.None? && e.details.times == result.value.times
  {
    match result
    case Err(f) => AvailabilityFailure(date, f)
    case Ok(NoEventType) => FallbackEnvelope(date, "Event type not found - using fallback times", None)
    case Ok(Listed(times)) =>
      var message := if |times| > 0 then "Found " + NatToString(|times|) + " available slots"
                     else "No available slots for " + date;
      Envelope(true, Some(message), false, false, None, Slots(date, times))
  }

  // ---------------------------------------------------------------------------
  // create_booking

  const NameRequired := "Name is required"

  /** The `except` chain of `create_booking`. */
  const BookingChain := [CatchAuth, CatchRateLimit, CatchApiError, CatchException]

  /** The fallback link: the configured URL with the raw inputs spliced in, not URL-encoded. */
  function BookingUrl(base: string, name: string, email: string, date: string): (url: string)
    ensures |url| == |base| + |name| + |email| + |date| + 19
    ensures url[..|base|] == base && url[|base|..|base| + 6] == "?name="
    ensures url[|base| + 6..|base| + 6 + |name|] == name
    ensures url[|url| - |date|..] == date
    ensures url == base + "?name=" + name + "&email=" + email + "&date=" + date
  {
    var tail := "&email=" + email + "&date=" + date;
    var url := base + "?name=" + name + tail;
    assert url == base + ("?name=" + name + tail);
    assert url == (base + "?name=") + (name + tail);
    assert url == base + "?name=" + name + "&email=" + email + "&date=" + date;
    url
  }

  /** The handler of `create_booking` that catches `f`; every failure offers the link. */
  function BookingFailure(url: string, f: Failure): (e: Envelope)
    ensures !e.success && !e.validationError && !e.fallback && e.details == Link(url) && e.error.Some?
    ensures f.Api? && f.err.kind == Auth ==> e.error == Some("Authentication error")
    ensures f.Api? && f.err.kind == RateLimit ==> e.error == Some("Rate limit exceeded")
    ensures !(f.Api? && (f.err.kind == Auth || f.err.kind == RateLimit)) ==> e.error == Some(Describe(f))
  {
    match BookingClause(f)
    case 0 => Failed("Authentication failed - please use booking URL", Some("Authentication error"), Link(url))
    case 1 => Failed("Service busy - please try again or use booking URL", Some("Rate limit exceeded"), Link(url))
    case 2 => Failed("Booking failed - please use booking URL", Some(Describe(f)), Link(url))
    case _ => Failed("Unexpected error - please use booking URL", Some(Describe(f)), Link(url))
  }

  /** The clause of the `create_booking` chain that handles `f`, read off its class. */
  function BookingClause(f: Failure): nat {
    if f.Api? && f.err.kind == Auth then 0
    else if f.Api? && f.err.kind == RateLimit then 1
    else if f.Api? then 2
    else 3
  }

  /** Reading the class directly picks the clause Python's `except` chain picks. */
  lemma BookingClauseIsHandler(f: Failure)
    ensures Handler(BookingChain, f) == Some(BookingClause(f))
  {
    var c1: seq<Clause> := [CatchRateLimit, CatchApiError, CatchException];
    var c2: seq<Clause> := [CatchApiError, CatchException];
    var c3: seq<Clause> := [CatchException];
    assert BookingChain[0] == CatchAuth && BookingChain[1..] == c1 && c1[1..] == c2 && c2[1..] == c3;
    assert Handler(c3, f) == Some(0);
    assert Handler(c2, f) == if f.Api? then Some(0) else Some(1);
    assert Handler(c1, f) == if f.Api? && f.err.kind == RateLimit then Some(0) else if f.Api? then Some(1) else Some(2);
  }

  /**
    The start instant sent to the provider: the 12-hour time re-rendered as
    `%H:%M`, glued to the date as `{date}T{HH:MM}:00`, parsed back with
    `fromisoformat`, re-rendered with `isoformat()`, and suffixed with "Z".
    No timezone conversion happens.
   */
  function StartInstant(date: string, time: string): (r: Result<string, Failure>)
    ensures r.Ok? ==> Parse12(time).Some? && |r.value| == 20 && r.value[19] == 'Z'
    ensures Parse12(time).None? ==> r.Err?
    ensures r.Err? ==> r.error.Unexpected?
  {
    match Parse12(time)
    case None => Err(Unexpected("ValueError: time data does not match format '%I:%M %p'"))
    case Some(t) =>
      match ParseIso(date + "T" + Format24(t) + ":00")
      case None => Err(Unexpected("ValueError: Invalid isoformat string"))
      case Some(dt) => Ok(IsoFormat(dt) + "Z")
  }

  /** The booking once an event type is known and the start instant computed: the invitee creation and its `uri` (default ""). */
  function Book(p: Provider, uri: Json, start: Result<string, Failure>, name: string, email: string): (t: Traced<Json>)
    ensures |t.calls| <= 1 && SkipsEventTypes(t.calls)
    ensures |t.calls| == 1 ==> start.Ok? && t.calls[0] == CreateInvitee(uri, start.value, email, name)
    ensures t.result.Ok? ==> |t.calls| == 1 && t.calls[0].CreateInvitee?
    ensures start.Err? ==> t == Traced(Err(start.error), [])
    ensures start.Ok? ==> |t.calls| == 1
    ensures |t.calls| == 1 && p(t.calls[0]).Err? ==> t.result == Err(p(t.calls[0]).error)
    ensures |t.calls| == 1 && p(t.calls[0]).Ok? ==> t.result == CalendlyApi.Field(p(t.calls[0]).value, "uri", JStr(""))
  {
    match start
    case Err(f) => Traced(Err(f), [])
    case Ok(instant) =>
      var call := CreateInvitee(uri, instant, email, name);
      match p(call)
      case Err(f) => Traced(Err(f), [call])
      case Ok(invitee) =>
        match CalendlyApi.Field(invitee, "uri", JStr(""))
        case Err(f) => Traced(Err(f), [call])
        case Ok(uri') => Traced(Ok(uri'), [call])
  }

  /** The `try` block of `create_booking`: `None` when no event type is found, else the new booking's `uri`. */
  function BookingAttempt(s: Service, p: Provider, start: Result<string, Failure>, name: string, email: string): (a: Attempt<Option<Json>>)
    ensures MemoRespected(s, a.service)
    ensures a.result.Ok? && a.result.value.Some? ==> |a.calls| >= 1 && a.calls[|a.calls| - 1].CreateInvitee?
    ensures Truthy(s.eventTypeCache) ==> SkipsEventTypes(a.calls)
  {
    BookAfter(s, ResolveEventType(s, p), p, start, name, email)
  }

  /**
    The rest of the `try` block once the event type lookup `et` has run;
    `start` is the instant the time and date give, computed only when an
    event type was found (the computation has no effects, so passing it in
    changes nothing).
   */
  function BookAfter(s: Service, et: Attempt<Json>, p: Provider, start: Result<string, Failure>, name: string, email: string): (a: Attempt<Option<Json>>)
    requires MemoRespected(s, et.service)
    requires Truthy(s.eventTypeCache) ==> et.calls == []
    ensures MemoRespected(s, a.service)
    ensures a.result.Ok? && a.result.value.Some? ==> |a.calls| >= 1 && a.calls[|a.calls| - 1].CreateInvitee?
    ensures Truthy(s.eventTypeCache) ==> SkipsEventTypes(a.calls)
  {
    match et.result
    case Err(f) => Attempt(Err(f), et.service, et.calls)
    case Ok(uri) =>
      if !Truthy(uri) then Attempt(Ok(None), et.service, et.calls)
      else JoinBooked(et.service, et.calls, Book(p, uri, start, name, email))
  }

  /** The attempt after the invitee creation `booked` ran on top of the calls made so far. */
  function JoinBooked(service: Service, calls: seq<Call>, booked: Traced<Json>): (a: Attempt<Option<Json>>)
    requires SkipsEventTypes(booked.calls)
    requires booked.result.Ok? ==> |booked.calls| == 1 && booked.calls[0].CreateInvitee?
    ensures a.service == service
    ensures a.result.Ok? ==> a.result.value.Some? && |a.calls| >= 1 && a.calls[|a.calls| - 1].CreateInvitee?
    ensures SkipsEventTypes(calls) ==> SkipsEventTypes(a.calls)
  {
    SkipsConcat(calls, booked.calls);
    match booked.result
    case Ok(u) => Attempt(Ok(Some(u)), service, calls + booked.calls)
    case Err(f) => Attempt(Err(f), service, calls + booked.calls)
  }

  /** Two call sequences that skip the event-type listing concatenate to one that does. */
  lemma SkipsConcat(a: seq<Call>, b: seq<Call>)
    ensures SkipsEventTypes(a) && SkipsEventTypes(b) ==> SkipsEventTypes(a + b)
    ensures |b| >= 1 ==> |a + b| >= 1 && (a + b)[|a + b| - 1] == b[|b| - 1]
  {
    if SkipsEventTypes(a) && SkipsEventTypes(b) {
      forall i | |a| <= i < |a + b|
        ensures !(a + b)[i].ListEventTypes?
      {
        assert (a + b)[i] == b[i - |a|];
      }
    }
  }

  /**
    `create_booking` once its inputs are valid: without a client it only
    offers the link; otherwise the event type and the invitee creation, with
    every failure offering the link and success echoing the inputs.
   */
  function BookValidated(s: Service, p: Provider, name: string, email: string, date: string, time: string): (st: Step)
    ensures !st.envelope.validationError
    ensures !st.envelope.success ==> st.envelope.details == Link(BookingUrl(s.calendlyUrl, name, email, date))
    ensures st.envelope.success ==>
      st.envelope.details.Confirmed? && st.envelope.details == Confirmed(name, email, date, time, st.envelope.details.eventUri)
    ensures st.envelope.success ==> |st.calls| >= 1 && st.calls[|st.calls| - 1].CreateInvitee?
    ensures !s.hasApi ==> st.calls == [] && !st.envelope.success
    ensures MemoRespected(s, st.service)
    ensures Truthy(s.eventTypeCache) ==> SkipsEventTypes(st.calls)
    ensures !st.envelope.fallback && st.envelope.message.Some?
  {
    var url := BookingUrl(s.calendlyUrl, name, email, date);
    if !s.hasApi then Step(Failed("API not available - please use booking URL", None, Link(url)), s, [])
    else
      var a := BookingAttempt(s, p, StartInstant(date, time), name, email);
      Step(BookingEnvelope(url, a.result, name, email, date, time), a.service, a.calls)
  }

  /** The reply `create_booking` builds from the outcome of its `try` block. */
  function BookingEnvelope(url: string, result: Result<Option<Json>, Failure>, name: string, email: string, date: string, time: string): (e: Envelope)
    ensures !e.validationError && !e.fallback && e.message.Some?
    ensures e.success <==> result.Ok? && result.value.Some?
    ensures !e.success ==> e.details == Link(url)
    ensures e.success ==> e.details == Confirmed(name, email, date, time, result.value.value)
  {
    match result
    case Err(f) => BookingFailure(url, f)
    case Ok(None) => Failed("Event type not found - please use booking URL", None, Link(url))
    case Ok(Some(uri)) =>
      Envelope(true, Some("Booking confirmed successfully"), false, false, None, Confirmed(name, email, date, time, uri))
  }

  /**
    `create_booking(name, email, date, time)`: email, then date, then name are
    validated, each failure rejecting the request before any provider call.
   */
  function CreateBooking(s: Service, p: Provider, name: string, email: string, date: string, time: string, today: Date): (st: Step)
    ensures st.envelope.validationError <==>
      !ValidateEmail(email).ok || !ValidateDate(date, today).ok || Strip(name) == ""
    ensures st.envelope.validationError ==> st.calls == [] && st.service == s && !st.envelope.success
    ensures !ValidateEmail(email).ok ==> st.envelope == Rejected(ValidateEmail(email).message, NoDetails)
    ensures ValidateEmail(email).ok && !ValidateDate(date, today).ok ==> st.envelope == Rejected(ValidateDate(date, today).message, NoDetails)
    ensures ValidateEmail(email).ok && ValidateDate(date, today).ok && Strip(name) == "" ==> st.envelope == Rejected(NameRequired, NoDetails)
    ensures !st.envelope.validationError ==> st == BookValidated(s, p, name, email, date, time)
  {
    var ev := ValidateEmail(email);
    if !ev.ok then Step(Rejected(ev.message, NoDetails), s, [])
    else
      var dv := ValidateDate(date, today);
      if !dv.ok then Step(Rejected(dv.message, NoDetails), s, [])
      else if Strip(name) == "" then Step(Rejected(NameRequired, NoDetails), s, [])
      else BookValidated(s, p, name, email, date, time)
  }

  // ---------------------------------------------------------------------------
  // Scanning scheduled events for an invitee (find_user_bookings, cancel_appointment)

  /** `event['uri'].split('/')[-1]`. */
  function EventUuid(event: Json): (r: Result<string, Failure>)
    ensures r.Ok? <==> event.JObj? && "uri" in event.fields && event.fields["uri"].JStr?
    ensures r.Ok? ==> r.value == AfterLast(event.fields["uri"].s, '/')
    ensures r.Err? ==> r.error.Unexpected?
  {
    var uri :- Lookup(event, "uri");
    var text :- TextOf(uri);
    Ok(AfterLast(text, '/'))
  }

  /** `invitee.get("email", "")` used as a string. */
  function InviteeEmail(invitee: Json): (r: Result<string, Failure>)
    ensures r.Err? ==> r.error.Unexpected?
  {
    var e :- CalendlyApi.Field(invitee, "email", JStr(""));
    TextOf(e)
  }

  /** The comparison the loops make: both sides lower-cased, the input not stripped. */
  predicate SameAddress(stored: string, email: string) {
    Lower(stored) == Lower(email)
  }

  /** The invitee is well-formed and its address matches. */
  predicate InviteeMatches(invitee: Json, email: string) {
    InviteeEmail(invitee).Ok? && SameAddress(InviteeEmail(invitee).value, email)
  }

  /** The inner loop over invitees: it stops at the first match, and a malformed invitee before it raises. */
  function HasInvitee(invitees: seq<Json>, email: string): (r: Result<bool, Failure>)
    ensures r.Err? ==> r.error.Unexpected?
  {
    if invitees == [] then Ok(false)
    else
      var stored :- InviteeEmail(invitees[0]);
      if SameAddress(stored, email) then Ok(true)
      else HasInvitee(invitees[1..], email)
  }

  /** Invitee `i` has the address, and every invitee before it is well-formed and does not. */
  predicate FirstMatchAt(invitees: seq<Json>, email: string, i: int) {
    0 <= i < |invitees| && InviteeMatches(invitees[i], email) &&
    forall j :: 0 <= j < i ==> InviteeEmail(invitees[j]).Ok? && !InviteeMatches(invitees[j], email)
  }

  /**
    The inner loop reports a match exactly when some invitee, every one
    before it well-formed and not matching, has the address; it reports none
    exactly when every invitee is well-formed and none matches.
   */
  lemma HasInviteeIsSearch(invitees: seq<Json>, email: string)
    ensures HasInvitee(invitees, email) == Ok(true) <==> exists i :: FirstMatchAt(invitees, email, i)
    ensures HasInvitee(invitees, email) == Ok(false) <==>
      forall i :: 0 <= i < |invitees| ==> InviteeEmail(invitees[i]).Ok? && !InviteeMatches(invitees[i], email)
  {
    HasInviteeFindsFirst(invitees, email);
    HasInviteeNone(invitees, email);
  }

  /** One iteration of the inner loop: a malformed head raises, a matching head answers, any other head moves on. */
  lemma HasInviteeUnfold(invitees: seq<Json>, email: string)
    requires invitees != []
    ensures InviteeEmail(invitees[0]).Err? ==> HasInvitee(invitees, email).Err?
    ensures InviteeMatches(invitees[0], email) ==> HasInvitee(invitees, email) == Ok(true)
    ensures InviteeEmail(invitees[0]).Ok? && !InviteeMatches(invitees[0], email) ==>
      HasInvitee(invitees, email) == HasInvitee(invitees[1..], email)
  {
  }

  lemma {:induction false} HasInviteeFindsFirst(invitees: seq<Json>, email: string)
    ensures HasInvitee(invitees, email) == Ok(true) <==> exists i :: FirstMatchAt(invitees, email, i)
    decreases |invitees|
  {
    if invitees != [] {
      var tail := invitees[1..];
      HasInviteeUnfold(invitees, email);
      if InviteeMatches(invitees[0], email) {
        assert FirstMatchAt(invitees, email, 0);
      } else if InviteeEmail(invitees[0]).Ok? {
        HasInviteeFindsFirst(tail, email);
        if j :| FirstMatchAt(tail, email, j) {
          assert FirstMatchAt(invitees, email, j + 1) by {
            forall k | 1 <= k <= j + 1
              ensures invitees[k] == tail[k - 1]
            {
            }
          }
        }
        if i :| FirstMatchAt(invitees, email, i) {
          assert i > 0;
          assert FirstMatchAt(tail, email, i - 1) by {
            forall k | 1 <= k <= i
              ensures invitees[k] == tail[k - 1]
            {
            }
          }
        }
      } else {
        assert !FirstMatchAt(invitees, email, 0);
      }
    }
  }

  lemma {:induction false} HasInviteeNone(invitees: seq<Json>, email: string)
    ensures HasInvitee(invitees, email) == Ok(false) <==>
      forall i :: 0 <= i < |invitees| ==> InviteeEmail(invitees[i]).Ok? && !InviteeMatches(invitees[i], email)
    decreases |invitees|
  {
    if invitees != [] {
      var tail := invitees[1..];
      HasInviteeUnfold(invitees, email);
      HasInviteeNone(tail, email);
      forall i | 1 <= i < |invitees|
        ensures invitees[i] == tail[i - 1]
      {
      }
    }
  }

  /** What probing one event found: an invitee with the address, none, or the invitee lookup raised a client error. */
  datatype Probe = Attends | Absent | Unreachable

  /** The invitee list an event's lookup returned, scanned for the address. */
  function ScanInvitees(answer: Json, email: string): (r: Result<bool, Failure>)
    ensures answer.JArr? ==> r == HasInvitee(answer.items, email)
    ensures !answer.JArr? ==> r != Ok(true)
    ensures r.Err? ==> r.error.Unexpected?
  {
    var xs :- Iterate(answer);
    HasInvitee(xs, email)
  }

  /**
    One iteration of the outer loop: the event's uuid (outside the inner
    `try`), its invitees, and the scan. Only a client error from the invitee
    lookup is skipped.
   */
  function ProbeEvent(p: Provider, event: Json, email: string): (t: Traced<Probe>)
    ensures EventUuid(event).Err? ==> t == Traced(Err(EventUuid(event).error), [])
    ensures EventUuid(event).Ok? ==> t == ProbeUuid(p, EventUuid(event).value, email)
    ensures t.result.Err? ==> t.result.error.Unexpected?
  {
    match EventUuid(event)
    case Err(f) => Traced(Err(f), [])
    case Ok(uuid) => ProbeUuid(p, uuid, email)
  }

  /** The inner `try` of one iteration: look up the invitees of the event `uuid` and scan them. */
  function ProbeUuid(p: Provider, uuid: string, email: string): (t: Traced<Probe>)
    ensures t.calls == [ListInvitees(uuid)]
    ensures t.result.Err? ==> t.result.error.Unexpected?
  {
    var call := ListInvitees(uuid);
    match p(call)
    case Err(f) => if f.Api? then Traced(Ok(Unreachable), [call]) else Traced(Err(f), [call])
    case Ok(invitees) =>
      match ScanInvitees(invitees, email)
      case Err(f) => Traced(Err(f), [call])
      case Ok(b) => Traced(Ok(if b then Attends else Absent), [call])
  }

  /**
    An event is skipped as unreachable exactly when its invitee lookup raised
    a client error, and attended exactly when the lookup answered and the
    scan of that answer found the address.
   */
  lemma ProbeOutcomes(p: Provider, event: Json, email: string)
    ensures ProbeEvent(p, event, email).result == Ok(Unreachable) <==>
      (EventUuid(event).Ok? && p(ListInvitees(EventUuid(event).value)).Err? && p(ListInvitees(EventUuid(event).value)).error.Api?)
    ensures ProbeEvent(p, event, email).result == Ok(Attends) <==>
      (EventUuid(event).Ok? && p(ListInvitees(EventUuid(event).value)).Ok?
       && ScanInvitees(p(ListInvitees(EventUuid(event).value)).value, email) == Ok(true))
  {
    if EventUuid(event).Ok? {
      ProbeUuidOutcomes(p, EventUuid(event).value, email);
    }
  }

  /** The outcomes of the inner `try` for one uuid. */
  lemma ProbeUuidOutcomes(p: Provider, uuid: string, email: string)
    ensures ProbeUuid(p, uuid, email).result == Ok(Unreachable) <==>
      (p(ListInvitees(uuid)).Err? && p(ListInvitees(uuid)).error.Api?)
    ensures ProbeUuid(p, uuid, email).result == Ok(Attends) <==>
      (p(ListInvitees(uuid)).Ok? && ScanInvitees(p(ListInvitees(uuid)).value, email) == Ok(true))
  {
  }

  /** Every call looks up an event's invitees. */
  predicate OnlyInviteeLookups(calls: seq<Call>) {
    forall i :: 0 <= i < |calls| ==> calls[i].ListInvitees?
  }

  /** The probe of each event for one provider and address, as the outer loops use it. */
  function ProbeWith(p: Provider, email: string): Json -> Traced<Probe> {
    (event: Json) => ProbeEvent(p, event, email)
  }

  /** Every probe only looks up invitees. */
  ghost predicate LooksUpInvitees(probe: Json -> Traced<Probe>) {
    forall event :: OnlyInviteeLookups(probe(event).calls)
  }

  /** The probes of the booking service only look up invitees. */
  lemma ProbeWithLooksUpInvitees(p: Provider, email: string)
    ensures LooksUpInvitees(ProbeWith(p, email))
  {
    forall event
      ensures OnlyInviteeLookups(ProbeWith(p, email)(event).calls)
    {
      assert ProbeWith(p, email)(event) == ProbeEvent(p, event, email);
    }
  }

  /** The event was probed without failure and has an invitee with the address. */
  predicate Attending(probe: Json -> Traced<Probe>, event: Json) {
    probe(event).result == Ok(Attends)
  }

  /** The entry `find_user_bookings` appends for a matching event. */
  function AppointmentOf(event: Json): (r: Result<Appointment, Failure>)
    ensures r.Ok? <==> StartOf(event).Ok? && "uri" in event.fields
    ensures r.Ok? ==>
      r.value.date == IsoDate(StartOf(event).value.date)
      && r.value.time == Format12(StartOf(event).value.time)
      && r.value.uri == event.fields["uri"]
      && r.value.name == (if "name" in event.fields then event.fields["name"] else JStr("Dental Checkup"))
    ensures r.Err? ==> r.error.Unexpected?
  {
    var dt :- StartOf(event);
    var uri :- Lookup(event, "uri");
    var name := if "name" in event.fields then event.fields["name"] else JStr("Dental Checkup");
    Ok(Appointment(uri, IsoDate(dt.date), Format12(dt.time), name))
  }

  /** An appointment put before those found among the remaining events. */
  function Prepend(appt: Appointment, r: Result<seq<Appointment>, Failure>): Result<seq<Appointment>, Failure> {
    if r.Ok? then Ok([appt] + r.value) else r
  }

  /**
    The outer loop of `find_user_bookings`: every event is probed in order and
    each attending one contributes its appointment once.
   */
  function ScanBookings(probe: Json -> Traced<Probe>, events: seq<Json>): (t: Traced<seq<Appointment>>)
    requires LooksUpInvitees(probe)
    ensures t.result.Ok? ==> |t.result.value| <= |events|
    ensures OnlyInviteeLookups(t.calls)
    decreases |events|
  {
    if events == [] then Traced(Ok([]), [])
    else
      var first := probe(events[0]);
      var rest := ScanBookings(probe, events[1..]);
      match first.result
      case Err(f) => Traced(Err(f), first.calls)
      case Ok(Attends) =>
        (match AppointmentOf(events[0])
         case Err(f) => Traced(Err(f), first.calls)
         case Ok(appt) =>
           Traced(Prepend(appt, rest.result), first.calls + rest.calls))
      case Ok(_) => Traced(rest.result, first.calls + rest.calls)
  }

  /** A position found among the remaining events, as a position among all of them. */
  function Later(r: Result<Option<nat>, Failure>): Result<Option<nat>, Failure> {
    if r.Ok? && r.value.Some? then Ok(Some(r.value.value + 1)) else r
  }

  /**
    The outer loop of `cancel_appointment`: probes events in order and stops at
    the first attending one, returning its position.
   */
  function FirstAttending(probe: Json -> Traced<Probe>, events: seq<Json>): (t: Traced<Option<nat>>)
    requires LooksUpInvitees(probe)
    ensures t.result.Ok? && t.result.value.Some? ==> t.result.value.value < |events|
    ensures OnlyInviteeLookups(t.calls)
    decreases |events|
  {
    if events == [] then Traced(Ok(None), [])
    else
      var first := probe(events[0]);
      match first.result
      case Err(f) => Traced(Err(f), first.calls)
      case Ok(Attends) => Traced(Ok(Some(0)), first.calls)
      case Ok(_) =>
        var rest := FirstAttending(probe, events[1..]);
        Traced(Later(rest.result), first.calls + rest.calls)
  }

  // ---------------------------------------------------------------------------
  // find_user_bookings

  /** The `except` chain of `find_user_bookings` and `cancel_appointment`. */
  const LookupChain := [CatchApiError, CatchException]

  /** The clause of the lookup chain that handles `f`, read off its class. */
  function LookupClause(f: Failure): nat {
    if f.Api? then 0 else 1
  }

  /** Reading the class directly picks the clause Python's `except` chain picks. */
  lemma LookupClauseIsHandler(f: Failure)
    ensures Handler(LookupChain, f) == Some(LookupClause(f))
  {
    assert LookupChain[0] == CatchApiError && LookupChain[1..] == [CatchException];
  }

  function FindFailure(email: string, f: Failure): (e: Envelope)
    ensures !e.success && e.error == Some(Describe(f)) && e.details == Bookings(email, [], None)
    ensures e.message == Some(if f.Api? then "Unable to retrieve bookings" else "Unexpected error retrieving bookings")
  {
    match LookupClause(f)
    case 0 => Failed("Unable to retrieve bookings", Some(Describe(f)), Bookings(email, [], None))
    case _ => Failed("Unexpected error retrieving bookings", Some(Describe(f)), Bookings(email, [], None))
  }

  /** The `try` block of `find_user_bookings`: the upcoming events, then the scan of each. */
  function FindLive(s: Service, p: Provider, email: string, now: string): (st: Step)
    ensures st.service == s && !st.envelope.validationError
    ensures st.envelope.details.Bookings? && st.envelope.details.email == email
    ensures !st.envelope.success ==> st.envelope.details.appointments == [] && st.envelope.details.count.None?
    ensures st.envelope.success ==> st.envelope.details.count == Some(|st.envelope.details.appointments|)
    ensures |st.calls| >= 1 && st.calls[0] == ListScheduledEvents(now) && OnlyInviteeLookups(st.calls[1..])
  {
    var call := ListScheduledEvents(now);
    match p(call)
    case Err(f) => Step(FindFailure(email, f), s, [call])
    case Ok(events) =>
      match Iterate(events)
      case Err(f) => Step(FindFailure(email, f), s, [call])
      case Ok(evs) => FindAmong(s, p, email, call, evs)
  }

  /** The events listed, each scanned for the address; `call` is the listing already made. */
  function FindAmong(s: Service, p: Provider, email: string, call: Call, events: seq<Json>): (st: Step)
    ensures st.service == s && !st.envelope.validationError
    ensures st.envelope.details.Bookings? && st.envelope.details.email == email
    ensures !st.envelope.success ==> st.envelope.details.appointments == [] && st.envelope.details.count.None?
    ensures st.envelope.success ==> st.envelope.details.count == Some(|st.envelope.details.appointments|)
    ensures |st.calls| >= 1 && st.calls[0] == call && OnlyInviteeLookups(st.calls[1..])
  {
    ProbeWithLooksUpInvitees(p, email);
    var scan := ScanBookings(ProbeWith(p, email), events);
    assert ([call] + scan.calls)[1..] == scan.calls;
    match scan.result
    case Err(f) => Step(FindFailure(email, f), s, [call] + scan.calls)
    case Ok(appts) =>
      Step(Envelope(true, None, false, false, None, Bookings(email, appts, Some(|appts|))), s, [call] + scan.calls)
  }

  /**
    `find_user_bookings(email)`; `now` is `datetime.now().isoformat()`, the
    lower bound on event start times. Nothing is booked or cancelled.
   */
  function FindUserBookings(s: Service, p: Provider, email: string, now: string): (st: Step)
    ensures st.service == s
    ensures st.envelope.validationError <==> !ValidateEmail(email).ok
    ensures st.envelope.validationError ==> st == Step(Rejected(ValidateEmail(email).message, Bookings(email, [], None)), s, [])
    ensures st.envelope.details.Bookings? && st.envelope.details.email == email
    ensures !s.hasApi ==> st.calls == [] && !st.envelope.success
    ensures ValidateEmail(email).ok && s.hasApi ==> st == FindLive(s, p, email, now)
  {
    var v := ValidateEmail(email);
    if !v.ok then Step(Rejected(v.message, Bookings(email, [], None)), s, [])
    else if !s.hasApi then Step(Failed("API not available", None, Bookings(email, [], None)), s, [])
    else FindLive(s, p, email, now)
  }

  // ---------------------------------------------------------------------------
  // cancel_appointment

  const CancelReason := "Cancelled by patient"
  const NoAppointment := "No upcoming appointments found"

  function CancelFailure(email: string, f: Failure): (e: Envelope)
    ensures !e.success && !e.validationError && e.error == Some(Describe(f)) && e.details == ForEmail(email)
    ensures e.message == Some(if f.Api? then "Unable to cancel via API" else "Unexpected error cancelling appointment")
  {
    match LookupClause(f)
    case 0 => Failed("Unable to cancel via API", Some(Describe(f)), ForEmail(email))
    case _ => Failed("Unexpected error cancelling appointment", Some(Describe(f)), ForEmail(email))
  }

  /** Is `c` a cancellation? */
  predicate IsCancellation(c: Call) {
    c.CancelEvent?
  }

  /** Cancelling the event found, and describing its start; the calls are the cancellation, if it was made. */
  function CancelFound(s: Service, p: Provider, email: string, event: Json): (st: Step)
    ensures st.service == s && !st.envelope.validationError && st.envelope.message.Some? && !st.envelope.fallback
    ensures st.calls == [] || (EventUuid(event).Ok? && st.calls == [CancelEvent(EventUuid(event).value, CancelReason)])
    ensures st.envelope.success ==> st.calls != []
    ensures st.envelope.success ==> st.envelope.details.Cancelled? && st.envelope.details.email == email
    ensures !st.envelope.success ==> st.envelope.details == ForEmail(email)
  {
    CancelByUuid(s, p, email, EventUuid(event), event)
  }

  /** The cancellation request for the uuid `id` read from `event`, then the reply. */
  function CancelByUuid(s: Service, p: Provider, email: string, id: Result<string, Failure>, event: Json): (st: Step)
    ensures st.service == s && !st.envelope.validationError && st.envelope.message.Some? && !st.envelope.fallback
    ensures st.calls == [] || (id.Ok? && st.calls == [CancelEvent(id.value, CancelReason)])
    ensures st.envelope.success ==> st.calls != []
    ensures st.envelope.success ==> st.envelope.details.Cancelled? && st.envelope.details.email == email
    ensures !st.envelope.success ==> st.envelope.details == ForEmail(email)
  {
    match id
    case Err(f) => Step(CancelFailure(email, f), s, [])
    case Ok(uuid) =>
      var cancel := CancelEvent(uuid, CancelReason);
      match p(cancel)
      case Err(f) => Step(CancelFailure(email, f), s, [cancel])
      case Ok(_) => Step(CancelledReply(email, event), s, [cancel])
  }

  /** The reply once the provider accepted the cancellation: the event's start, human formatted. */
  function CancelledReply(email: string, event: Json): (e: Envelope)
    ensures !e.validationError && e.message.Some? && !e.fallback
    ensures e.success <==> StartOf(event).Ok?
    ensures e.success ==> e.details == Cancelled(email, LongDate(StartOf(event).value.date), Format12(StartOf(event).value.time))
    ensures !e.success ==> e.details == ForEmail(email)
  {
    match StartOf(event)
    case Err(f) => CancelFailure(email, f)
    case Ok(dt) =>
      Envelope(true, Some("Appointment cancelled successfully"), false, false, None,
               Cancelled(email, LongDate(dt.date), Format12(dt.time)))
  }

  /** At most one cancellation is requested, as the last call, with the patient's reason. */
  predicate CancelsLast(calls: seq<Call>) {
    forall i :: 0 <= i < |calls| && IsCancellation(calls[i]) ==> i == |calls| - 1 && calls[i].reason == CancelReason
  }

  /** A listing, invitee lookups, then at most one cancellation, keeps the cancellation last. */
  lemma LookupsThenCancel(first: Call, lookups: seq<Call>, tail: seq<Call>)
    requires !IsCancellation(first) && OnlyInviteeLookups(lookups)
    requires tail == [] || (|tail| == 1 && IsCancellation(tail[0]) && tail[0].reason == CancelReason)
    ensures CancelsLast([first] + lookups + tail)
  {
    var all := [first] + lookups + tail;
    forall i | 0 < i <= |lookups|
      ensures !IsCancellation(all[i])
    {
      assert all[i] == lookups[i - 1];
    }
  }

  /** The events listed, scanned for the first attended one, which is cancelled; `call` is the listing already made. */
  function CancelAmong(s: Service, p: Provider, email: string, call: Call, events: seq<Json>): (st: Step)
    requires !IsCancellation(call)
    ensures st.service == s && !st.envelope.validationError && st.envelope.message.Some? && !st.envelope.fallback
    ensures |st.calls| >= 1 && st.calls[0] == call && CancelsLast(st.calls)
    ensures st.envelope.success ==> |st.calls| >= 2 && IsCancellation(st.calls[|st.calls| - 1])
    ensures st.envelope.success ==> st.envelope.details.Cancelled? && st.envelope.details.email == email
    ensures !st.envelope.success ==> st.envelope.details == ForEmail(email)
  {
    ProbeWithLooksUpInvitees(p, email);
    var found := FirstAttending(ProbeWith(p, email), events);
    var calls := [call] + found.calls;
    LookupsThenCancel(call, found.calls, []);
    assert calls + [] == calls;
    match found.result
    case Err(f) => Step(CancelFailure(email, f), s, calls)
    case Ok(None) => Step(Failed(NoAppointment, None, ForEmail(email)), s, calls)
    case Ok(Some(i)) =>
      var done := CancelFound(s, p, email, events[i]);
      LookupsThenCancel(call, found.calls, done.calls);
      Step(done.envelope, s, calls + done.calls)
  }

  /** The `try` block of `cancel_appointment`: the upcoming events, then the cancellation among them. */
  function CancelLive(s: Service, p: Provider, email: string, now: string): (st: Step)
    ensures st.service == s && !st.envelope.validationError && st.envelope.message.Some? && !st.envelope.fallback
    ensures |st.calls| >= 1 && st.calls[0] == ListScheduledEvents(now) && CancelsLast(st.calls)
    ensures st.envelope.success ==> |st.calls| >= 2 && IsCancellation(st.calls[|st.calls| - 1])
    ensures st.envelope.success ==> st.envelope.details.Cancelled? && st.envelope.details.email == email
    ensures !st.envelope.success ==> st.envelope.details == ForEmail(email)
  {
    var call := ListScheduledEvents(now);
    LookupsThenCancel(call, [], []);
    assert [call] + [] + [] == [call];
    match p(call)
    case Err(f) => Step(CancelFailure(email, f), s, [call])
    case Ok(events) =>
      match Iterate(events)
      case Err(f) => Step(CancelFailure(email, f), s, [call])
      case Ok(evs) => CancelAmong(s, p, email, call, evs)
  }

  /**
    `cancel_appointment(email)`: cancels the first upcoming event that has an
    invitee with the address, then reports its start as `%B %d, %Y` and
    `%I:%M %p`.
   */
  function CancelAppointment(s: Service, p: Provider, email: string, now: string): (st: Step)
    ensures st.service == s
    ensures st.envelope.validationError <==> !ValidateEmail(email).ok
    ensures st.envelope.validationError ==> st == Step(Rejected(ValidateEmail(email).message, ForEmail(email)), s, [])
    ensures !s.hasApi ==> st.calls == [] && !st.envelope.success
    ensures ValidateEmail(email).ok && s.hasApi ==> st == CancelLive(s, p, email, now)
    ensures st.envelope.message.Some? && !st.envelope.fallback
  {
    var v := ValidateEmail(email);
    if !v.ok then Step(Rejected(v.message, ForEmail(email)), s, [])
    else if !s.hasApi then Step(Failed("API not available", None, ForEmail(email)), s, [])
    else CancelLive(s, p, email, now)
  }

  // ---------------------------------------------------------------------------
  // reschedule_appointment

  const RescheduledMessage := "Old appointment cancelled. Select new time."

  /**
    `reschedule_appointment(email, new_date)`: validates email then date,
    cancels, and on success offers the new date's availability, whatever kind
    of answer that was.
   */
  function RescheduleAppointment(s: Service, p: Provider, email: string, newDate: string, today: Date, now: string): (st: Step)
    ensures st.envelope.validationError <==> !ValidateEmail(email).ok || !ValidateDate(newDate, today).ok
    ensures st.envelope.validationError ==> st.calls == [] && st.service == s && st.envelope.details == NoDetails
    ensures !ValidateEmail(email).ok ==> st.envelope == Rejected(ValidateEmail(email).message, NoDetails)
    ensures ValidateEmail(email).ok && !ValidateDate(newDate, today).ok ==> st.envelope == Rejected(ValidateDate(newDate, today).message, NoDetails)
    ensures ValidateEmail(email).ok && ValidateDate(newDate, today).ok && !CancelAppointment(s, p, email, now).envelope.success
      ==> st == CancelAppointment(s, p, email, now)
    ensures st.envelope.success ==>
      CancelAppointment(s, p, email, now).envelope.success
      && st.envelope.details.Rescheduled? && st.envelope.details.oldCancelled
      && st.envelope.details.availableTimes == GetAvailableTimes(s, p, newDate, today).envelope.details.times
    ensures MemoRespected(s, st.service)
  {
    var ev := ValidateEmail(email);
    if !ev.ok then Step(Rejected(ev.message, NoDetails), s, [])
    else
      var dv := ValidateDate(newDate, today);
      if !dv.ok then Step(Rejected(dv.message, NoDetails), s, [])
      else RescheduleAfter(s, p, email, newDate, today, CancelAppointment(s, p, email, now))
  }

  /** The rest of `reschedule_appointment` once the cancellation `c` has run on valid inputs. */
  function RescheduleAfter(s: Service, p: Provider, email: string, newDate: string, today: Date, c: Step): (st: Step)
    requires c.service == s && !c.envelope.validationError
    ensures !st.envelope.validationError
    ensures !c.envelope.success ==> st == c
    ensures st.envelope.success ==>
      c.envelope.success
      && st.envelope.details.Rescheduled? && st.envelope.details.oldCancelled
      && st.envelope.details.availableTimes == GetAvailableTimes(s, p, newDate, today).envelope.details.times
    ensures MemoRespected(s, st.service)
  {
    if !c.envelope.success then c
    else
      var a := GetAvailableTimes(c.service, p, newDate, today);
      Step(Envelope(true, Some(RescheduledMessage), false, false, None,
                    Rescheduled(email, true, newDate, a.envelope.details.times)),
           a.service, c.calls + a.calls)
  }
}
