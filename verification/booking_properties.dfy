/**
  Properties of the booking service that relate several calls or compare an
  operation with an independent description of what it should do: the
  booking scan as an ordered filter, the cancellation as a search for the
  first attended event, the event-type memo across operations, and the
  round trip of a booked time through the provider.
 */
module BookingProperties {
  import opened Wrappers
  import opened Text
  import opened JsonData
  import opened Clock
  import opened ApiErrors
  import opened Validators
  import opened BookingService

  // ---------------------------------------------------------------------------
  // find_user_bookings: the scan is an ordered filter

  /** The type of the per-event probe the outer loops are given. */
  type Prober = Json -> Traced<Probe>

  /** No probe of the events raised. */
  predicate ProbesClean(probe: Prober, events: seq<Json>) {
    forall k :: 0 <= k < |events| ==> probe(events[k]).result.Ok?
  }

  /** Every attended event has a readable start and uri. */
  predicate AttendedReadable(probe: Prober, events: seq<Json>) {
    forall k :: 0 <= k < |events| && Attending(probe, events[k]) ==> AppointmentOf(events[k]).Ok?
  }

  /** The reference answer: the appointments of the attended events, in the order listed. */
  function AttendedAppointments(probe: Prober, events: seq<Json>): seq<Appointment>
    decreases |events|
  {
    if events == [] then []
    else
      var here := if Attending(probe, events[0]) && AppointmentOf(events[0]).Ok?
                  then [AppointmentOf(events[0]).value] else [];
      here + AttendedAppointments(probe, events[1..])
  }

  lemma ProbesCleanCons(probe: Prober, events: seq<Json>)
    requires events != []
    ensures ProbesClean(probe, events) <==> probe(events[0]).result.Ok? && ProbesClean(probe, events[1..])
  {
    var tail := events[1..];
    if ProbesClean(probe, events) {
      forall k | 0 <= k < |tail|
        ensures probe(tail[k]).result.Ok?
      {
        assert tail[k] == events[k + 1];
      }
    }
    if probe(events[0]).result.Ok? && ProbesClean(probe, tail) {
      forall k | 1 <= k < |events|
        ensures probe(events[k]).result.Ok?
      {
        assert events[k] == tail[k - 1];
      }
    }
  }

  lemma AttendedReadableCons(probe: Prober, events: seq<Json>)
    requires events != []
    ensures AttendedReadable(probe, events) <==>
      (Attending(probe, events[0]) ==> AppointmentOf(events[0]).Ok?) && AttendedReadable(probe, events[1..])
  {
    var tail := events[1..];
    if AttendedReadable(probe, events) {
      forall k | 0 <= k < |tail| && Attending(probe, tail[k])
        ensures AppointmentOf(tail[k]).Ok?
      {
        assert tail[k] == events[k + 1];
      }
    }
    if (Attending(probe, events[0]) ==> AppointmentOf(events[0]).Ok?) && AttendedReadable(probe, tail) {
      forall k | 1 <= k < |events| && Attending(probe, events[k])
        ensures AppointmentOf(events[k]).Ok?
      {
        assert events[k] == tail[k - 1];
      }
    }
  }

  /**
    The scan succeeds exactly when no probe raised and every attended event
    is readable, and then it reports the attended events' appointments in the
    order the provider listed them.
   */
  lemma {:induction false} ScanBookingsIsFilter(probe: Prober, events: seq<Json>)
    requires LooksUpInvitees(probe)
    ensures ScanBookings(probe, events).result.Ok? <==> ProbesClean(probe, events) && AttendedReadable(probe, events)
    ensures ScanBookings(probe, events).result.Ok? ==> ScanBookings(probe, events).result.value == AttendedAppointments(probe, events)
    decreases |events|
  {
    if events != [] {
      ScanBookingsIsFilter(probe, events[1..]);
      ProbesCleanCons(probe, events);
      AttendedReadableCons(probe, events);
    }
  }

  /** A probe that did not raise looked up exactly the invitees of the event's uuid. */
  ghost predicate OneLookupEach(probe: Prober) {
    forall e :: probe(e).result.Ok? ==> EventUuid(e).Ok? && probe(e).calls == [ListInvitees(EventUuid(e).value)]
  }

  lemma ProbeWithOneLookupEach(p: Provider, email: string)
    ensures OneLookupEach(ProbeWith(p, email))
  {
    forall e | ProbeWith(p, email)(e).result.Ok?
      ensures EventUuid(e).Ok? && ProbeWith(p, email)(e).calls == [ListInvitees(EventUuid(e).value)]
    {
      assert ProbeWith(p, email)(e) == ProbeEvent(p, e, email);
    }
  }

  /** One step of a successful scan: the first probe succeeded, then the rest of the scan did. */
  lemma ScanBookingsStep(probe: Prober, events: seq<Json>)
    requires LooksUpInvitees(probe) && events != []
    requires ScanBookings(probe, events).result.Ok?
    ensures probe(events[0]).result.Ok? && ScanBookings(probe, events[1..]).result.Ok?
    ensures ScanBookings(probe, events).calls == probe(events[0]).calls + ScanBookings(probe, events[1..]).calls
  {
  }

  /** `calls` looks up the invitees of each of `events`, by the key `uuid` gives it, one call per event, in order. */
  ghost predicate LooksUpEach(uuid: Json -> Result<string, Failure>, events: seq<Json>, calls: seq<Call>) {
    |calls| == |events|
    && forall k :: 0 <= k < |events| ==> uuid(events[k]).Ok? && calls[k] == ListInvitees(uuid(events[k]).value)
  }

  lemma LooksUpEachCons(uuid: Json -> Result<string, Failure>, events: seq<Json>, calls: seq<Call>, c: Call)
    requires events != [] && uuid(events[0]).Ok? && c == ListInvitees(uuid(events[0]).value)
    requires LooksUpEach(uuid, events[1..], calls)
    ensures LooksUpEach(uuid, events, [c] + calls)
  {
    var all := [c] + calls;
    forall k | 1 <= k < |events|
      ensures uuid(events[k]).Ok? && all[k] == ListInvitees(uuid(events[k]).value)
    {
      assert events[k] == events[1..][k - 1];
      assert all[k] == calls[k - 1];
    }
  }

  /** A successful scan looks up the invitees of every event, once each, in order. */
  lemma {:induction false} ScanBookingsProbesEveryEvent(probe: Prober, events: seq<Json>)
    requires LooksUpInvitees(probe) && OneLookupEach(probe)
    requires ScanBookings(probe, events).result.Ok?
    ensures LooksUpEach(EventUuid, events, ScanBookings(probe, events).calls)
    decreases |events|
  {
    if events != [] {
      var tail := events[1..];
      ScanBookingsStep(probe, events);
      ScanBookingsProbesEveryEvent(probe, tail);
      var head := events[0];
      assert EventUuid(head).Ok? && probe(head).calls == [ListInvitees(EventUuid(head).value)];
      LooksUpEachCons(EventUuid, events, ScanBookings(probe, tail).calls, ListInvitees(EventUuid(head).value));
    }
  }

  /** With no upcoming events the lookup succeeds with an empty list and a count of zero, after one call. */
  lemma NoEventsNoBookings(s: Service, p: Provider, email: string, now: string)
    requires ValidateEmail(email).ok && s.hasApi
    requires p(ListScheduledEvents(now)) == Ok(JArr([]))
    ensures FindUserBookings(s, p, email, now) ==
      Step(Envelope(true, None, false, false, None, Bookings(email, [], Some(0))), s, [ListScheduledEvents(now)])
  {
    var call := ListScheduledEvents(now);
    assert FindUserBookings(s, p, email, now) == FindLive(s, p, email, now);
    assert Iterate(JArr([])) == Ok([]);
    assert FindLive(s, p, email, now) == FindAmong(s, p, email, call, []);
    ProbeWithLooksUpInvitees(p, email);
    assert ScanBookings(ProbeWith(p, email), []) == Traced(Ok([]), []);
    assert [call] + [] == [call];
  }

  // ---------------------------------------------------------------------------
  // cancel_appointment: the first attended event

  /** The first `n` events were probed without raising and none is attended. */
  predicate PassedOver(probe: Prober, events: seq<Json>, n: int)
    requires 0 <= n <= |events|
  {
    forall k :: 0 <= k < n ==> probe(events[k]).result.Ok? && !Attending(probe, events[k])
  }

  lemma PassedOverCons(probe: Prober, events: seq<Json>, n: int)
    requires 1 <= n <= |events|
    ensures PassedOver(probe, events, n) <==>
      probe(events[0]).result.Ok? && !Attending(probe, events[0]) && PassedOver(probe, events[1..], n - 1)
  {
    var tail := events[1..];
    if PassedOver(probe, events, n) {
      forall k | 0 <= k < n - 1
        ensures probe(tail[k]).result.Ok? && !Attending(probe, tail[k])
      {
        assert tail[k] == events[k + 1];
      }
    }
    if probe(events[0]).result.Ok? && !Attending(probe, events[0]) && PassedOver(probe, tail, n - 1) {
      forall k | 1 <= k < n
        ensures probe(events[k]).result.Ok? && !Attending(probe, events[k])
      {
        assert events[k] == tail[k - 1];
      }
    }
  }

  lemma LaterIff(r: Result<Option<nat>, Failure>, i: nat)
    ensures i > 0 ==> (Later(r) == Ok(Some(i)) <==> r == Ok(Some(i - 1)))
    ensures Later(r) != Ok(Some(0))
    ensures Later(r) == Ok(None) <==> r == Ok(None)
  {
  }

  /** The search finds nothing exactly when no event is attended and no probe raised. */
  lemma {:induction false} FirstAttendingNone(probe: Prober, events: seq<Json>)
    requires LooksUpInvitees(probe)
    ensures FirstAttending(probe, events).result == Ok(None) <==> PassedOver(probe, events, |events|)
    decreases |events|
  {
    if events != [] {
      FirstAttendingNone(probe, events[1..]);
      PassedOverCons(probe, events, |events|);
      LaterIff(FirstAttending(probe, events[1..]).result, 0);
    }
  }

  /**
    The search finds position `i` exactly when the event there is attended and
    every earlier one was probed without raising and is not.
   */
  lemma {:induction false} FirstAttendingSome(probe: Prober, events: seq<Json>, i: nat)
    requires LooksUpInvitees(probe)
    ensures FirstAttending(probe, events).result == Ok(Some(i)) <==>
      i < |events| && PassedOver(probe, events, i) && Attending(probe, events[i])
    decreases |events|
  {
    if events != [] {
      LaterIff(FirstAttending(probe, events[1..]).result, i);
      if i > 0 {
        FirstAttendingSome(probe, events[1..], i - 1);
        if i <= |events| {
          PassedOverCons(probe, events, i);
        }
        if i < |events| {
          assert events[i] == events[1..][i - 1];
        }
      }
    }
  }

  /** Among events none of which is attended, the scan ends with the "no appointment" reply and only lookups. */
  lemma NothingAttendedAmong(s: Service, p: Provider, email: string, call: Call, events: seq<Json>)
    requires !IsCancellation(call)
    requires LooksUpInvitees(ProbeWith(p, email)) && PassedOver(ProbeWith(p, email), events, |events|)
    ensures CancelAmong(s, p, email, call, events)
        == Step(Failed(NoAppointment, None, ForEmail(email)), s, [call] + FirstAttending(ProbeWith(p, email), events).calls)
  {
    FirstAttendingNone(ProbeWith(p, email), events);
  }

  /**
    When the listed events include none the address attends, and no probe
    raised, nothing is cancelled and the patient is told so.
   */
  lemma NothingAttendedNothingCancelled(s: Service, p: Provider, email: string, now: string, events: seq<Json>)
    requires ValidateEmail(email).ok && s.hasApi
    requires p(ListScheduledEvents(now)) == Ok(JArr(events))
    requires PassedOver(ProbeWith(p, email), events, |events|)
    ensures CancelAppointment(s, p, email, now).envelope == Failed(NoAppointment, None, ForEmail(email))
    ensures forall i :: 0 <= i < |CancelAppointment(s, p, email, now).calls| ==>
      !IsCancellation(CancelAppointment(s, p, email, now).calls[i])
  {
    ProbeWithLooksUpInvitees(p, email);
    var call := ListScheduledEvents(now);
    var st := CancelAppointment(s, p, email, now);
    assert st == CancelLive(s, p, email, now);
    assert Iterate(JArr(events)) == Ok(events);
    assert st == CancelAmong(s, p, email, call, events);
    NothingAttendedAmong(s, p, email, call, events);
    NoCancellationAmongLookups(call, FirstAttending(ProbeWith(p, email), events).calls);
  }

  lemma NoCancellationAmongLookups(call: Call, lookups: seq<Call>)
    requires !IsCancellation(call) && OnlyInviteeLookups(lookups)
    ensures forall i :: 0 <= i < |[call] + lookups| ==> !IsCancellation(([call] + lookups)[i])
  {
    var calls := [call] + lookups;
    forall i | 0 < i < |calls|
      ensures !IsCancellation(calls[i])
    {
      assert calls[i] == lookups[i - 1];
    }
  }

  /**
    A successful cancellation cancelled the first listed event the address
    attends, with the patient's reason, as the last call.
   */
  lemma CancelledTheFirstAttended(s: Service, p: Provider, email: string, now: string, events: seq<Json>)
    requires p(ListScheduledEvents(now)) == Ok(JArr(events))
    requires CancelAppointment(s, p, email, now).envelope.success
    ensures exists i :: (0 <= i < |events| && PassedOver(ProbeWith(p, email), events, i)
      && Attending(ProbeWith(p, email), events[i]) && EventUuid(events[i]).Ok?
      && Last(CancelAppointment(s, p, email, now).calls) == CancelEvent(EventUuid(events[i]).value, CancelReason))
  {
    var call := ListScheduledEvents(now);
    var st := CancelAppointment(s, p, email, now);
    assert st == CancelLive(s, p, email, now);
    assert st == CancelAmong(s, p, email, call, events);
    CancelledAmongTheFirstAttended(s, p, email, call, events);
  }

  /** Among the listed events, a successful cancellation cancelled the first one the address attends. */
  lemma CancelledAmongTheFirstAttended(s: Service, p: Provider, email: string, call: Call, events: seq<Json>)
    requires !IsCancellation(call) && CancelAmong(s, p, email, call, events).envelope.success
    ensures exists i :: (0 <= i < |events| && PassedOver(ProbeWith(p, email), events, i)
      && Attending(ProbeWith(p, email), events[i]) && EventUuid(events[i]).Ok?
      && Last(CancelAmong(s, p, email, call, events).calls) == CancelEvent(EventUuid(events[i]).value, CancelReason))
  {
    var i := CancelledPosition(s, p, email, call, events);
  }

  /** The position of the event a successful cancellation cancelled. */
  lemma CancelledPosition(s: Service, p: Provider, email: string, call: Call, events: seq<Json>) returns (i: nat)
    requires !IsCancellation(call) && CancelAmong(s, p, email, call, events).envelope.success
    ensures i < |events| && PassedOver(ProbeWith(p, email), events, i)
    ensures Attending(ProbeWith(p, email), events[i]) && EventUuid(events[i]).Ok?
    ensures Last(CancelAmong(s, p, email, call, events).calls) == CancelEvent(EventUuid(events[i]).value, CancelReason)
  {
    CancelAmongOutcome(s, p, email, call, events);
    i := FirstAttending(ProbeWith(p, email), events).result.value.value;
    FirstAttendingSome(ProbeWith(p, email), events, i);
  }

  /** A successful cancellation found an attended event, and its last call is that event's own. */
  lemma CancelAmongOutcome(s: Service, p: Provider, email: string, call: Call, events: seq<Json>)
    requires !IsCancellation(call) && CancelAmong(s, p, email, call, events).envelope.success
    ensures LooksUpInvitees(ProbeWith(p, email))
    ensures var found := FirstAttending(ProbeWith(p, email), events);
      && found.result.Ok? && found.result.value.Some?
      && var done := CancelFound(s, p, email, events[found.result.value.value]);
      && done.envelope.success && done.calls != []
      && Last(CancelAmong(s, p, email, call, events).calls) == Last(done.calls)
  {
    ProbeWithLooksUpInvitees(p, email);
    var found := FirstAttending(ProbeWith(p, email), events);
    var done := CancelFound(s, p, email, events[found.result.value.value]);
    LastOfAppend([call] + found.calls, done.calls);
  }

  lemma LastOfAppend(a: seq<Call>, b: seq<Call>)
    requires b != []
    ensures Last(a + b) == Last(b)
  {
  }

  function Last(calls: seq<Call>): Call
    requires calls != []
  {
    calls[|calls| - 1]
  }

  // ---------------------------------------------------------------------------
  // Addresses: the validator strips, the comparison does not

  /** Lower-casing keeps whitespace where it was, and turns nothing else into whitespace. */
  lemma LowerKeepsSpace(c: char)
    ensures IsSpace(LowerChar(c)) <==> IsSpace(c)
  {
  }

  /**
    An address typed with surrounding whitespace passes the validator (which
    strips it) but never equals a stored address without any, because the
    invitee comparison does not strip.
   */
  lemma PaddedAddressNeverMatches(stored: string, email: string)
    requires stored == [] || (!IsSpace(stored[0]) && !IsSpace(stored[|stored| - 1]))
    requires |email| > 0 && (IsSpace(email[0]) || IsSpace(email[|email| - 1]))
    ensures !SameAddress(stored, email)
  {
    if |stored| == |email| {
      var n := |email| - 1;
      LowerKeepsSpace(stored[0]);
      LowerKeepsSpace(email[0]);
      LowerKeepsSpace(stored[n]);
      LowerKeepsSpace(email[n]);
      if IsSpace(email[0]) {
        assert Lower(stored)[0] != Lower(email)[0];
      } else {
        assert Lower(stored)[n] != Lower(email)[n];
      }
    }
  }

  /** No invitee list whose addresses are stored without surrounding whitespace matches a padded address. */
  lemma {:induction false} PaddedAddressFindsNoInvitee(invitees: seq<Json>, email: string)
    requires |email| > 0 && (IsSpace(email[0]) || IsSpace(email[|email| - 1]))
    requires forall i :: 0 <= i < |invitees| && InviteeEmail(invitees[i]).Ok? ==>
      Strip(InviteeEmail(invitees[i]).value) == InviteeEmail(invitees[i]).value
    ensures HasInvitee(invitees, email) != Ok(true)
  {
    forall i | 0 <= i < |invitees| && InviteeEmail(invitees[i]).Ok?
      ensures !InviteeMatches(invitees[i], email)
    {
      PaddedAddressNeverMatches(InviteeEmail(invitees[i]).value, email);
    }
    HasInviteeFindsFirst(invitees, email);
  }

  // ---------------------------------------------------------------------------
  // create_booking: the instant sent, and what a later lookup reads back

  lemma Pad2Zero()
    ensures Pad2(0) == "00"
  {
    Pad2OfDigits("00");
    assert DigitsValue("00") == 0;
  }

  /**
    For a date spelled canonically and a time the 12-hour parser accepts,
    the instant sent is the date, "T", the 24-hour time, ":00" and "Z".
   */
  lemma StartInstantOfCanonicalDate(d: Date, time: string, t: ClockTime)
    requires ValidDate(d) && Parse12(time) == Some(t)
    ensures StartInstant(IsoDate(d), time) == Ok(IsoDate(d) + "T" + Format24(t) + ":00Z")
    ensures StartInstant(IsoDate(d), time) == Ok(IsoFormat(DateTime(d, t, 0)) + "Z")
  {
    var dt := DateTime(d, t, 0);
    var body := IsoDate(d) + "T" + Format24(t) + ":00";
    IsoFormatAtZero(d, t);
    ParseIsoOfIsoFormat(dt, "");
    assert IsoFormat(dt) + "" == IsoFormat(dt);
    StartInstantOfParsed(IsoDate(d), time, t, dt);
    assert body + "Z" == IsoDate(d) + "T" + Format24(t) + ":00Z";
  }

  /** A datetime at second zero renders as its date, "T", its 24-hour time and ":00". */
  lemma IsoFormatAtZero(d: Date, t: ClockTime)
    requires ValidDate(d) && ValidClock(t)
    ensures IsoFormat(DateTime(d, t, 0)) == IsoDate(d) + "T" + Format24(t) + ":00"
  {
    Pad2Zero();
    assert IsoFormat(DateTime(d, t, 0)) == IsoDate(d) + "T" + Format24(t) + ":" + "00";
  }

  /** When the glued text parses as `dt`, the instant sent is `dt` re-rendered with "Z". */
  lemma StartInstantOfParsed(date: string, time: string, t: ClockTime, dt: DateTime)
    requires Parse12(time) == Some(t) && ParseIso(date + "T" + Format24(t) + ":00") == Some(dt)
    ensures StartInstant(date, time) == Ok(IsoFormat(dt) + "Z")
  {
  }

  /**
    A date of fewer than ten characters, such as "2026-2-5", which the date
    validator accepts, never yields a start instant: the booking raises
    before any invitee is created.
   */
  lemma ShortDateHasNoInstant(date: string, time: string)
    requires |date| < 10
    ensures StartInstant(date, time).Err?
  {
    if Parse12(time).Some? {
      var t := Parse12(time).value;
      assert |date + "T" + Format24(t) + ":00"| < 19;
    }
  }

  /** The replacement of a character distributes over concatenation. */
  lemma {:induction false} ReplaceCharAppend(a: string, b: string, c: char, with: string)
    ensures ReplaceChar(a + b, c, with) == ReplaceChar(a, c, with) + ReplaceChar(b, c, with)
    decreases |a|
  {
    if a == [] {
      assert a + b == b;
    } else {
      var ab, tail := a + b, a[1..] + b;
      ReplaceCharAppend(a[1..], b, c, with);
      var h := if a[0] == c then with else [a[0]];
      var ra, rb := ReplaceChar(a[1..], c, with), ReplaceChar(b, c, with);
      assert ab[0] == a[0] && ab[1..] == tail;
      ReplaceCharCons(ab, c, with);
      ReplaceCharCons(a, c, with);
      AppendAssoc(h, ra, rb);
    }
  }

  lemma AppendAssoc(x: string, y: string, z: string)
    ensures x + (y + z) == (x + y) + z
  {
  }

  lemma ReplaceCharCons(s: string, c: char, with: string)
    requires s != []
    ensures ReplaceChar(s, c, with) == (if s[0] == c then with else [s[0]]) + ReplaceChar(s[1..], c, with)
  {
  }

  /** Digits, dashes, "T" and colons: no "Z" in an ISO rendering. */
  lemma IsoFormatHasNoZ(dt: DateTime)
    requires ValidDateTime(dt)
    ensures 'Z' !in IsoFormat(dt)
  {
    var r := IsoFormat(dt);
    var y, mo, da := Pad4(dt.date.year), Pad2(dt.date.month), Pad2(dt.date.day);
    var h, mi, se := Pad2(dt.time.hour), Pad2(dt.time.minute), Pad2(dt.second);
    assert r == y + "-" + mo + "-" + da + "T" + h + ":" + mi + ":" + se;
    forall i | 0 <= i < |r|
      ensures r[i] != 'Z'
    {
      if i < 4 { assert r[i] == y[i]; }
      else if 5 <= i < 7 { assert r[i] == mo[i - 5]; }
      else if 8 <= i < 10 { assert r[i] == da[i - 8]; }
      else if 11 <= i < 13 { assert r[i] == h[i - 11]; }
      else if 14 <= i < 16 { assert r[i] == mi[i - 14]; }
      else if 17 <= i < 19 { assert r[i] == se[i - 17]; }
    }
  }

  lemma UtcOffsetAccepted(x: string)
    requires x == "+00:00"
    ensures SuffixOk(x)
  {
    Pad2Zero();
    assert x[1..3] == Pad2(0) && x[4..] == Pad2(0);
    assert OffsetOk(x);
  }

  /**
    The instant sent for a booking, read back from a scheduled event's
    `start_time`, is the booked wall-clock time with zero seconds.
   */
  lemma InstantReadsBack(dt: DateTime)
    requires ValidDateTime(dt)
    ensures ParseInstant(JStr(IsoFormat(dt) + "Z")) == Ok(dt)
  {
    IsoFormatHasNoZ(dt);
    ReplaceCharAppend(IsoFormat(dt), "Z", 'Z', "+00:00");
    ReplaceCharAppend([], [], 'Z', "+00:00");
    assert ReplaceChar("Z", 'Z', "+00:00") == "+00:00" by {
      assert "Z"[1..] == [];
    }
    UtcOffsetAccepted("+00:00");
    ParseIsoOfIsoFormat(dt, "+00:00");
  }

  /**
    A booking attempt that yields a booking sent, as its last call, the
    invitee creation for the event type found, at the start instant computed
    from the date and time.
   */
  lemma BookingSendsTheStart(s: Service, et: Attempt<Json>, p: Provider, start: Result<string, Failure>, name: string, email: string)
    requires MemoRespected(s, et.service) && (Truthy(s.eventTypeCache) ==> et.calls == [])
    requires BookAfter(s, et, p, start, name, email).result.Ok? && BookAfter(s, et, p, start, name, email).result.value.Some?
    ensures et.result.Ok? && Truthy(et.result.value) && start.Ok?
    ensures Last(BookAfter(s, et, p, start, name, email).calls) == CreateInvitee(et.result.value, start.value, email, name)
  {
    var a := BookAfter(s, et, p, start, name, email);
    assert et.result.Ok? && Truthy(et.result.value);
    var booked := Book(p, et.result.value, start, name, email);
    assert a == JoinBooked(et.service, et.calls, booked);
    assert a.calls == et.calls + booked.calls && |booked.calls| == 1;
  }

  /**
    A confirmed booking reports the `uri` of the invitee the provider
    created, or `""` when the created resource has none.
   */
  lemma BookingReportsInviteeUri(s: Service, et: Attempt<Json>, p: Provider, start: Result<string, Failure>, name: string, email: string)
    requires MemoRespected(s, et.service) && (Truthy(s.eventTypeCache) ==> et.calls == [])
    requires BookAfter(s, et, p, start, name, email).result.Ok? && BookAfter(s, et, p, start, name, email).result.value.Some?
    ensures var a := BookAfter(s, et, p, start, name, email);
      && p(Last(a.calls)).Ok? && p(Last(a.calls)).value.JObj?
      && a.result.value.value
         == (if "uri" in p(Last(a.calls)).value.fields then p(Last(a.calls)).value.fields["uri"] else JStr(""))
  {
    var a := BookAfter(s, et, p, start, name, email);
    var booked := Book(p, et.result.value, start, name, email);
    assert a == JoinBooked(et.service, et.calls, booked);
    assert a.calls == et.calls + booked.calls && |booked.calls| == 1;
    assert Last(a.calls) == booked.calls[0];
  }

  /**
    Booking at a canonical date and an accepted time, then finding the event
    that carries the instant sent, reports the same date and the time
    re-rendered as `%I:%M %p` (zero-padded, "2:00 PM" reads back as
    "02:00 PM"), which parses to the same clock time.
   */
  lemma BookedTimeRoundTrip(d: Date, time: string, t: ClockTime, event: Json)
    requires ValidDate(d) && Parse12(time) == Some(t)
    requires event.JObj? && "uri" in event.fields
    requires "start_time" in event.fields && event.fields["start_time"] == JStr(IsoDate(d) + "T" + Format24(t) + ":00Z")
    ensures AppointmentOf(event).Ok?
    ensures AppointmentOf(event).value.date == IsoDate(d)
    ensures AppointmentOf(event).value.time == Format12(t)
    ensures Parse12(AppointmentOf(event).value.time) == Parse12(time)
  {
    StartInstantOfCanonicalDate(d, time, t);
    InstantReadsBack(DateTime(d, t, 0));
    assert StartOf(event) == Ok(DateTime(d, t, 0));
    Parse12OfFormat12(t);
  }

  // ---------------------------------------------------------------------------
  // get_available_times: the first ten slots, in the provider's order

  /** The slot lookup `get_available_times` makes for day `d` once the event type `uri` is known. */
  function DayCall(uri: Json, d: Date): Call
    requires ValidDate(d) && NextDay(d).Some?
  {
    ListAvailableTimes(uri, DayStart(d), DayStart(NextDay(d).value))
  }

  /**
    Once the event type resolves to a truthy `uri` (from the memo, or from a
    listing on a fresh service), the reply to a valid date carries what
    `FetchSlots` made of that day's lookup, after the resolution's calls.
   */
  lemma AnsweredDay(s: Service, p: Provider, date: string, today: Date, d: Date, uri: Json)
    requires ValidateDate(date, today).ok && ParseYmd(date) == Some(d)
    requires s.hasApi && ResolveEventType(s, p).result == Ok(uri) && Truthy(uri)
    ensures var st := GetAvailableTimes(s, p, date, today);
      var et := ResolveEventType(s, p);
      var fetched := FetchSlots(p, uri, d);
      && st.service == et.service && st.calls == et.calls + fetched.calls
      && st.envelope == AvailabilityEnvelope(date, match fetched.result
           case Ok(times) => Ok(Listed(times))
           case Err(f) => Err(f))
  {
  }

  /** The first ten slots of a list, all readable, render to their start times in order. */
  lemma RenderFirstOfList(slots: seq<Json>)
    requires forall i :: 0 <= i < Min(|slots|, MaxSlots) ==> SlotTime(slots[i]).Ok?
    ensures var r := RenderFirstSlots(JArr(slots));
      && r.Ok? && |r.value| == Min(|slots|, MaxSlots)
      && forall i :: 0 <= i < |r.value| ==> r.value[i] == SlotTime(slots[i]).value
  {
    var first := slots[..Min(|slots|, MaxSlots)];
    assert RenderFirstSlots(JArr(slots)) == RenderSlots(first);
    RenderSlotsIsMap(first);
    assert forall i :: 0 <= i < |first| ==> first[i] == slots[i];
  }

  /** A day's slot list, its first ten slots all readable, is rendered in order after one lookup. */
  lemma FetchSlotsRenders(p: Provider, uri: Json, d: Date, slots: seq<Json>)
    requires ValidDate(d) && NextDay(d).Some?
    requires p(DayCall(uri, d)) == Ok(JArr(slots))
    requires forall i :: 0 <= i < Min(|slots|, MaxSlots) ==> SlotTime(slots[i]).Ok?
    ensures var t := FetchSlots(p, uri, d);
      && t.calls == [DayCall(uri, d)] && t.result.Ok?
      && |t.result.value| == Min(|slots|, MaxSlots)
      && forall i :: 0 <= i < |t.result.value| ==> t.result.value[i] == SlotTime(slots[i]).value
  {
    assert Window(d) == Ok((DayStart(d), DayStart(NextDay(d).value)));
    if slots != [] {
      RenderFirstOfList(slots);
    }
  }

  /**
    Once the event type resolves, a day's slot list comes back as the start
    times of its first ten slots, each rendered "%I:%M %p", in the
    provider's order; the one slot lookup follows the resolution's calls.
   */
  lemma LiveAnswerIsRendering(s: Service, p: Provider, date: string, today: Date, d: Date, uri: Json, slots: seq<Json>)
    requires ValidateDate(date, today).ok && ParseYmd(date) == Some(d) && NextDay(d).Some?
    requires s.hasApi && ResolveEventType(s, p).result == Ok(uri) && Truthy(uri)
    requires p(DayCall(uri, d)) == Ok(JArr(slots))
    requires forall i :: 0 <= i < Min(|slots|, MaxSlots) ==> SlotTime(slots[i]).Ok?
    ensures var st := GetAvailableTimes(s, p, date, today);
      && st.envelope.success && st.service == ResolveEventType(s, p).service
      && st.calls == ResolveEventType(s, p).calls + [DayCall(uri, d)]
      && |st.envelope.details.times| == Min(|slots|, MaxSlots)
      && forall i :: 0 <= i < |st.envelope.details.times| ==> st.envelope.details.times[i] == SlotTime(slots[i]).value
  {
    AnsweredDay(s, p, date, today, d, uri);
    FetchSlotsRenders(p, uri, d, slots);
  }

  /** Once the event type resolves, an empty (or otherwise falsy) slot list is a success with no times, not the fallback. */
  lemma EmptyAnswerSucceeds(s: Service, p: Provider, date: string, today: Date, d: Date, uri: Json)
    requires ValidateDate(date, today).ok && ParseYmd(date) == Some(d) && NextDay(d).Some?
    requires s.hasApi && ResolveEventType(s, p).result == Ok(uri) && Truthy(uri)
    requires p(DayCall(uri, d)).Ok? && !Truthy(p(DayCall(uri, d)).value)
    ensures var st := GetAvailableTimes(s, p, date, today);
      && st.envelope.success && !st.envelope.fallback && st.envelope.details.times == []
      && st.envelope.message == Some("No available slots for " + date)
  {
    AnsweredDay(s, p, date, today, d, uri);
    assert Window(d) == Ok((DayStart(d), DayStart(NextDay(d).value)));
  }

  /** On a fresh service the first query lists the event types, then looks up the day. */
  lemma FreshServiceListsThenLooksUp(s: Service, p: Provider, date: string, today: Date, d: Date, uri: Json, slots: seq<Json>)
    requires ValidateDate(date, today).ok && ParseYmd(date) == Some(d) && NextDay(d).Some?
    requires s.hasApi && !Truthy(s.eventTypeCache)
    requires ResolveEventType(s, p).result == Ok(uri) && Truthy(uri)
    requires p(DayCall(uri, d)) == Ok(JArr(slots))
    requires forall i :: 0 <= i < Min(|slots|, MaxSlots) ==> SlotTime(slots[i]).Ok?
    ensures var st := GetAvailableTimes(s, p, date, today);
      && st.envelope.success && st.calls == [ListEventTypes, DayCall(uri, d)]
      && st.service.eventTypeCache == uri
      && |st.envelope.details.times| == Min(|slots|, MaxSlots)
  {
    LiveAnswerIsRendering(s, p, date, today, d, uri, slots);
  }

  // ---------------------------------------------------------------------------
  // The event-type memo across operations

  /**
    An availability query that lists event types memoises the first one's
    `uri`; every later operation on the resulting service skips the listing.
   */
  lemma AvailabilityMemoisesEventType(s: Service, p: Provider, date: string, today: Date, items: seq<Json>)
    requires ValidateDate(date, today).ok && s.hasApi && !Truthy(s.eventTypeCache)
    requires p(ListEventTypes) == Ok(JArr(items)) && |items| > 0
    requires items[0].JObj? && "uri" in items[0].fields && Truthy(items[0].fields["uri"])
    ensures GetAvailableTimes(s, p, date, today).service.eventTypeCache == items[0].fields["uri"]
  {
    var d := ParseYmd(date).value;
    var et := ResolveEventType(s, p);
    assert et.service.eventTypeCache == items[0].fields["uri"];
    assert QueryAvailability(s, p, d).service == et.service;
  }

  /** Once the memo is set, booking never lists event types again. */
  lemma MemoSkipsListing(s: Service, p: Provider, name: string, email: string, date: string, time: string, today: Date)
    requires Truthy(s.eventTypeCache)
    ensures SkipsEventTypes(CreateBooking(s, p, name, email, date, time, today).calls)
    ensures CreateBooking(s, p, name, email, date, time, today).service == s
  {
  }

  // ---------------------------------------------------------------------------
  // reschedule_appointment

  /**
    Once the old appointment is cancelled, rescheduling succeeds whatever the
    availability lookup found: a fallback list is offered as the new times.
   */
  lemma RescheduleSucceedsAfterCancel(s: Service, p: Provider, email: string, newDate: string, today: Date, now: string)
    requires ValidateEmail(email).ok && ValidateDate(newDate, today).ok
    requires CancelAppointment(s, p, email, now).envelope.success
    ensures RescheduleAppointment(s, p, email, newDate, today, now).envelope.success
    ensures GetAvailableTimes(s, p, newDate, today).envelope.fallback ==>
      RescheduleAppointment(s, p, email, newDate, today, now).envelope.details.availableTimes == FallbackTimes
  {
    assert CancelAppointment(s, p, email, now).service == s;
  }
}
