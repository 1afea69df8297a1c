/** `CalDAVManager`: the lookup and translation layer between a CalDAV store
    (RFC 4791) and the domain events. The store is an input snapshot: the
    calendars `principal.calendars()` lists, each with the outcome of
    `calendar.events()` and of the time-range `calendar.search(...)` for the
    window asked about. What the client would save or delete is returned as a
    plan instead of being sent. */
module CalDav {
  import opened Wrappers
  import opened Text
  import opened Recurrence
  import opened Records
  import opened Events
  import opened RecurrenceCodec

  /** The outcome of asking the store for a calendar's records. */
  datatype Fetch = Failed | Fetched(records: seq<Record>)

  datatype Calendar = Calendar(name: string, events: Fetch, window: Fetch)

  /** Where a record sits: the calendar's position, then the record's. */
  datatype Location = Location(calendar: nat, index: nat)

  datatype Failure =
    | CalendarNotFound(name: string)
    | NoCalendars
    | EventNotFound(id: string)
    | NoVeventToEdit
    | MissingProperty(property: string)
      /** The store saved `saved` (and deleted what it names), then the call
          raised `cause`. */
    | RaisedAfterSave(saved: Save, cause: Failure)

  // ---------------------------------------------------------------------------
  // Identity resolver

  /** The four tests `find_event_by_id` applies to a record: its id against
      the input and against the decoded input, the decoded id against the
      decoded input, and the same three for a non-empty URL. */
  predicate Matches(rec: Record, eventId: string) {
    var decoded := Unquote(eventId);
    || (rec.id.Some? && (rec.id.value == eventId || rec.id.value == decoded || Unquote(rec.id.value) == decoded))
    || (Truthy(rec.url) && (rec.url.value == eventId || rec.url.value == decoded || Unquote(rec.url.value) == decoded))
  }

  /** No record of the calendar matches (a calendar whose listing fails has none). */
  predicate NoMatchIn(cal: Calendar, eventId: string) {
    cal.events.Fetched? ==> forall j :: 0 <= j < |cal.events.records| ==> !Matches(cal.events.records[j], eventId)
  }

  predicate MatchAt(cals: seq<Calendar>, loc: Location, eventId: string) {
    && loc.calendar < |cals|
    && cals[loc.calendar].events.Fetched?
    && loc.index < |cals[loc.calendar].events.records|
    && Matches(cals[loc.calendar].events.records[loc.index], eventId)
  }

  /** The first matching record at or after position `from`. */
  function FirstMatch(records: seq<Record>, eventId: string, from: nat): (k: Option<nat>)
    requires from <= |records|
    ensures k.Some? ==> from <= k.value < |records| && Matches(records[k.value], eventId)
    ensures k.Some? ==> forall j :: from <= j < k.value ==> !Matches(records[j], eventId)
    ensures k.None? <==> forall j :: from <= j < |records| ==> !Matches(records[j], eventId)
    decreases |records| - from
  {
    if from == |records| then None
    else if Matches(records[from], eventId) then Some(from)
    else FirstMatch(records, eventId, from + 1)
  }

  /** The first matching record in calendars `from` onwards, calendars in
      order and records in store order, skipping calendars that fail. */
  function LocateFrom(cals: seq<Calendar>, eventId: string, from: nat): (loc: Option<Location>)
    requires from <= |cals|
    ensures loc.Some? ==> from <= loc.value.calendar && MatchAt(cals, loc.value, eventId)
    ensures loc.Some? ==> forall c :: from <= c < loc.value.calendar ==> NoMatchIn(cals[c], eventId)
    ensures loc.Some? ==> forall j :: 0 <= j < loc.value.index ==> !Matches(cals[loc.value.calendar].events.records[j], eventId)
    ensures loc.None? <==> forall c :: from <= c < |cals| ==> NoMatchIn(cals[c], eventId)
    decreases |cals| - from
  {
    if from == |cals| then None
    else if cals[from].events.Fetched? && FirstMatch(cals[from].events.records, eventId, 0).Some? then
      Some(Location(from, FirstMatch(cals[from].events.records, eventId, 0).value))
    else
      LocateFrom(cals, eventId, from + 1)
  }

  function Locate(cals: seq<Calendar>, eventId: string): Option<Location>
  {
    LocateFrom(cals, eventId, 0)
  }

  function RecordAt(cals: seq<Calendar>, loc: Location): Record
    requires loc.calendar < |cals| && cals[loc.calendar].events.Fetched?
    requires loc.index < |cals[loc.calendar].events.records|
  {
    cals[loc.calendar].events.records[loc.index]
  }

  /** `find_event_by_id`: calendars in order, records in store order, the
      first record that matches; a calendar whose listing fails is skipped. */
  method FindEventById(cals: seq<Calendar>, eventId: string) returns (r: Option<Record>)
    ensures r.None? <==> Locate(cals, eventId).None?
    ensures r.Some? ==> r.value == RecordAt(cals, Locate(cals, eventId).value)
  {
    var c := 0;
    while c < |cals|
      invariant 0 <= c <= |cals|
      invariant Locate(cals, eventId) == LocateFrom(cals, eventId, c)
    {
      if cals[c].events.Fetched? {
        var records := cals[c].events.records;
        var k := 0;
        while k < |records|
          invariant 0 <= k <= |records|
          invariant FirstMatch(records, eventId, 0) == FirstMatch(records, eventId, k)
        {
          if Matches(records[k], eventId) {
            return Some(records[k]);
          }
          k := k + 1;
        }
      }
      c := c + 1;
    }
    return None;
  }

  /** `_find_event_calendar`: the same scan, answering with the position of
      the calendar that holds the match. */
  method FindEventCalendar(cals: seq<Calendar>, eventId: string) returns (r: Option<nat>)
    ensures r.None? <==> Locate(cals, eventId).None?
    ensures r.Some? ==> r.value == Locate(cals, eventId).value.calendar
  {
    var c := 0;
    while c < |cals|
      invariant 0 <= c <= |cals|
      invariant Locate(cals, eventId) == LocateFrom(cals, eventId, c)
    {
      if cals[c].events.Fetched? {
        var records := cals[c].events.records;
        var k := 0;
        while k < |records|
          invariant 0 <= k <= |records|
          invariant FirstMatch(records, eventId, 0) == FirstMatch(records, eventId, k)
        {
          if Matches(records[k], eventId) {
            return Some(c);
          }
          k := k + 1;
        }
      }
      c := c + 1;
    }
    return None;
  }

  /** On one snapshot the two scans agree: the calendar `_find_event_calendar`
      names is the one holding the record `find_event_by_id` returns, and the
      record is the first match in it. */
  lemma ScansAgree(cals: seq<Calendar>, eventId: string)
    requires Locate(cals, eventId).Some?
    ensures var loc := Locate(cals, eventId).value;
      && loc.calendar < |cals| && cals[loc.calendar].events.Fetched?
      && RecordAt(cals, loc) in cals[loc.calendar].events.records
      && Matches(RecordAt(cals, loc), eventId)
      && FirstMatch(cals[loc.calendar].events.records, eventId, 0) == Some(loc.index)
  {
  }

  // ---------------------------------------------------------------------------
  // Calendars by name

  function NamedFrom(cals: seq<Calendar>, name: string, from: nat): (r: Option<nat>)
    requires from <= |cals|
    ensures r.Some? ==> from <= r.value < |cals| && cals[r.value].name == name
    ensures r.Some? ==> forall c :: from <= c < r.value ==> cals[c].name != name
    ensures r.None? <==> forall c :: from <= c < |cals| ==> cals[c].name != name
    decreases |cals| - from
  {
    if from == |cals| then None
    else if cals[from].name == name then Some(from)
    else NamedFrom(cals, name, from + 1)
  }

  /** `_find_calendar_by_name`: the first calendar with that exact name. */
  function FindCalendarByName(cals: seq<Calendar>, name: string): (r: Option<nat>)
    ensures r.Some? ==> r.value < |cals| && cals[r.value].name == name
    ensures r.Some? ==> forall c :: 0 <= c < r.value ==> cals[c].name != name
    ensures r.None? <==> forall c :: 0 <= c < |cals| ==> cals[c].name != name
  {
    NamedFrom(cals, name, 0)
  }

  // ---------------------------------------------------------------------------
  // Search

  /** The calendars `list_events` searches: the one named, when a non-empty
      name is given, or all of them. */
  function SearchScope(cals: seq<Calendar>, calendarName: Option<string>): Result<seq<Calendar>, Failure>
  {
    if Truthy(calendarName) then
      match FindCalendarByName(cals, calendarName.value)
      case None => Err(CalendarNotFound(calendarName.value))
      case Some(c) => Ok([cals[c]])
    else
      Ok(cals)
  }

  /** The events of the records that read successfully, in order. */
  function Decoded(records: seq<Record>): seq<Event>
  {
    if records == [] then []
    else
      var rest := Decoded(records[..|records| - 1]);
      var parsed := EventOf(records[|records| - 1]);
      if parsed.Ok? then rest + [parsed.value] else rest
  }

  /** The decoded events of every calendar whose search succeeded, calendars
      in order. */
  function Collected(cals: seq<Calendar>): seq<Event>
  {
    if cals == [] then []
    else
      var rest := Collected(cals[..|cals| - 1]);
      var last := cals[|cals| - 1];
      if last.window.Fetched? then rest + Decoded(last.window.records) else rest
  }

  function Listed(cals: seq<Calendar>, calendarName: Option<string>): Result<seq<Event>, Failure>
  {
    var scope :- SearchScope(cals, calendarName);
    Ok(Collected(scope))
  }

  /** `list_events`: accumulates the events of every calendar in scope,
      skipping calendars whose search fails and records that do not read. */
  method ListEvents(cals: seq<Calendar>, calendarName: Option<string>) returns (r: Result<seq<Event>, Failure>)
    ensures r == Listed(cals, calendarName)
  {
    var scope: seq<Calendar>;
    if Truthy(calendarName) {
      var found := FindCalendarByName(cals, calendarName.value);
      if found.None? {
        return Err(CalendarNotFound(calendarName.value));
      }
      scope := [cals[found.value]];
    } else {
      scope := cals;
    }

    var events: seq<Event> := [];
    var c := 0;
    while c < |scope|
      invariant 0 <= c <= |scope|
      invariant events == Collected(scope[..c])
    {
      assert scope[..c + 1][..c] == scope[..c];
      if scope[c].window.Fetched? {
        var records := scope[c].window.records;
        var k := 0;
        while k < |records|
          invariant 0 <= k <= |records|
          invariant events == Collected(scope[..c]) + Decoded(records[..k])
        {
          assert records[..k + 1][..k] == records[..k];
          var parsed := FromCaldavEvent(records[k]);
          if parsed.Ok? {
            events := events + [parsed.value];
          }
          k := k + 1;
        }
        assert records[..k] == records;
      }
      c := c + 1;
    }
    assert scope[..c] == scope;
    return Ok(events);
  }

  lemma {:induction false} DecodedAppend(a: seq<Record>, b: seq<Record>)
    ensures Decoded(a + b) == Decoded(a) + Decoded(b)
    decreases |b|
  {
    if b == [] {
      assert a + b == a;
    } else {
      var b' := b[..|b| - 1];
      assert (a + b)[..|a + b| - 1] == a + b';
      DecodedAppend(a, b');
    }
  }

  lemma {:induction false} CollectedAppend(a: seq<Calendar>, b: seq<Calendar>)
    ensures Collected(a + b) == Collected(a) + Collected(b)
    decreases |b|
  {
    if b == [] {
      assert a + b == a;
    } else {
      var b' := b[..|b| - 1];
      assert (a + b)[..|a + b| - 1] == a + b';
      CollectedAppend(a, b');
    }
  }

  /** A record that does not read is dropped without dropping its neighbours. */
  lemma BadRecordSkipped(a: seq<Record>, rec: Record, b: seq<Record>)
    requires EventOf(rec).Err?
    ensures Decoded(a + [rec] + b) == Decoded(a) + Decoded(b)
  {
    DecodedAppend(a + [rec], b);
    DecodedAppend(a, [rec]);
    assert [rec][..0] == [];
  }

  /** A calendar whose search fails contributes nothing and the rest are
      still searched. */
  lemma FailedCalendarSkipped(a: seq<Calendar>, cal: Calendar, b: seq<Calendar>)
    requires cal.window.Failed?
    ensures Collected(a + [cal] + b) == Collected(a) + Collected(b)
  {
    CollectedAppend(a + [cal], b);
    CollectedAppend(a, [cal]);
    assert [cal][..0] == [];
  }

  /** The last record adds its event when it reads and nothing otherwise. */
  lemma DecodedLast(records: seq<Record>)
    requires records != []
    ensures var last := EventOf(records[|records| - 1]);
      Decoded(records) == Decoded(records[..|records| - 1]) + (if last.Ok? then [last.value] else [])
  {
  }

  /** An event is listed from a sequence of records exactly when one of the
      records reads as it. */
  lemma {:induction false} DecodedMembers(records: seq<Record>, e: Event)
    ensures e in Decoded(records) <==> exists k :: 0 <= k < |records| && EventOf(records[k]) == Ok(e)
  {
    if records != [] {
      var init := records[..|records| - 1];
      var r := records[|records| - 1];
      DecodedMembers(init, e);
      DecodedLast(records);
      assert e in Decoded(records) <==> e in Decoded(init) || EventOf(r) == Ok(e);
      assert forall k :: 0 <= k < |init| ==> init[k] == records[k];
      assert records == init + [r];
    }
  }

  /** With a non-empty name the search fails exactly when no calendar has that
      name, and otherwise lists the first such calendar's events alone. */
  lemma ListedByName(cals: seq<Calendar>, name: string)
    requires name != ""
    ensures Listed(cals, Some(name)).Err? <==> forall c :: 0 <= c < |cals| ==> cals[c].name != name
    ensures Listed(cals, Some(name)).Err? ==> Listed(cals, Some(name)).error == CalendarNotFound(name)
    ensures Listed(cals, Some(name)).Ok? ==>
      var c := FindCalendarByName(cals, name).value;
      Listed(cals, Some(name)).value == (if cals[c].window.Fetched? then Decoded(cals[c].window.records) else [])
  {
    var found := FindCalendarByName(cals, name);
    if found.Some? {
      var one := [cals[found.value]];
      assert SearchScope(cals, Some(name)) == Ok(one);
      assert one[..|one| - 1] == [];
      assert Collected(one) == Collected([]) + (if one[0].window.Fetched? then Decoded(one[0].window.records) else []);
    }
  }

  /** Without a name, every calendar is searched. */
  lemma ListedAll(cals: seq<Calendar>, calendarName: Option<string>)
    requires !Truthy(calendarName)
    ensures Listed(cals, calendarName) == Ok(Collected(cals))
  {
  }

  // ---------------------------------------------------------------------------
  // Writing

  /** What the client hands to the store: the VEVENT to save into the calendar
      at position `calendar`, after deleting `deleted` when the event moves. */
  datatype Save = Save(calendar: nat, body: Component, deleted: Option<Record>)

  /** The calendar `create_event` saves into: the named one when a non-empty
      name is given, otherwise the first calendar of the store. */
  function CreateTarget(cals: seq<Calendar>, calendarName: Option<string>): (r: Result<nat, Failure>)
    ensures r.Ok? ==> r.value < |cals|
    ensures Truthy(calendarName) ==> (r.Ok? <==> exists c :: 0 <= c < |cals| && cals[c].name == calendarName.value)
    ensures Truthy(calendarName) && r.Ok? ==>
      cals[r.value].name == calendarName.value && forall c :: 0 <= c < r.value ==> cals[c].name != calendarName.value
    ensures Truthy(calendarName) && r.Err? ==> r.error == CalendarNotFound(calendarName.value)
    ensures !Truthy(calendarName) ==> (r.Ok? <==> |cals| > 0) && (r.Ok? ==> r.value == 0)
    ensures !Truthy(calendarName) && r.Err? ==> r.error == NoCalendars
  {
    if Truthy(calendarName) then
      match FindCalendarByName(cals, calendarName.value)
      case None => Err(CalendarNotFound(calendarName.value))
      case Some(c) => Ok(c)
    else if |cals| == 0 then Err(NoCalendars)
    else Ok(0)
  }

  /** A text property added only when its value is a non-empty string. */
  function AddIfGiven(props: map<string, Prop>, name: string, v: Option<string>): map<string, Prop>
  {
    if Truthy(v) then props[name := Prop(Text(v.value), None)] else props
  }

  /** The three properties every created event has. */
  function BasicProps(req: CreateEventRequest): map<string, Prop>
  {
    map["SUMMARY" := Prop(Text(req.title), None),
        "DTSTART" := Prop(Time(req.startTime), None),
        "DTEND" := Prop(Time(req.endTime), None)]
  }

  function TextProps(req: CreateEventRequest): map<string, Prop>
  {
    AddIfGiven(AddIfGiven(AddIfGiven(BasicProps(req), "DESCRIPTION", req.notes), "LOCATION", req.location), "URL", req.url)
  }

  function DatedProps(req: CreateEventRequest): map<string, Prop>
  {
    if req.allDay then
      TextProps(req)["DTSTART" := Prop(Time(req.startTime), Some("DATE"))]["DTEND" := Prop(Time(req.endTime), Some("DATE"))]
    else
      TextProps(req)
  }

  lemma NoRuleBeforeRule(req: CreateEventRequest)
    ensures "RRULE" !in DatedProps(req)
  {
    assert "RRULE"[0] != "DTEND"[0];
  }

  /** The RRULE line written for a rule. */
  function RuleProp(rule: RecurrenceRule): Prop
  {
    Prop(Text(Encode(rule)), None)
  }

  function CreatedProps(req: CreateEventRequest): map<string, Prop>
  {
    if req.recurrenceRule.Some? then DatedProps(req)["RRULE" := RuleProp(req.recurrenceRule.value)]
    else DatedProps(req)
  }

  function CreatedAlarms(req: CreateEventRequest): seq<Child>
  {
    if req.alarmsMinutesOffsets.Some? then DisplayAlarms(Text(req.title), req.alarmsMinutesOffsets.value) else []
  }

  /** The VEVENT `create_event` builds for a request. */
  function BuildComponent(req: CreateEventRequest): Component
  {
    Component(CreatedProps(req), CreatedAlarms(req))
  }

  function CreatePlan(cals: seq<Calendar>, req: CreateEventRequest): Result<Save, Failure>
  {
    var target :- CreateTarget(cals, req.calendarName);
    Ok(Save(target, BuildComponent(req), None))
  }

  /** The optional text properties of `create_event`, each added when given
      as a non-empty string. */
  method AddTextProps(vevent: VEvent, req: CreateEventRequest)
    requires vevent.props == BasicProps(req)
    modifies vevent
    ensures vevent.props == TextProps(req)
    ensures vevent.children == old(vevent.children)
  {
    if Truthy(req.notes) {
      vevent.Add("DESCRIPTION", Text(req.notes.value));
    }
    if Truthy(req.location) {
      vevent.Add("LOCATION", Text(req.location.value));
    }
    if Truthy(req.url) {
      vevent.Add("URL", Text(req.url.value));
    }
  }

  /** One DISPLAY alarm added per offset, in order. */
  method AddAlarms(vevent: VEvent, description: Value, offsets: seq<int>)
    modifies vevent
    ensures vevent.children == old(vevent.children) + DisplayAlarms(description, offsets)
    ensures vevent.props == old(vevent.props)
  {
    var i := 0;
    while i < |offsets|
      invariant 0 <= i <= |offsets|
      invariant vevent.children == old(vevent.children) + DisplayAlarms(description, offsets[..i])
      invariant vevent.props == old(vevent.props)
    {
      assert offsets[..i + 1][..i] == offsets[..i];
      vevent.AddAlarm(description, offsets[i]);
      i := i + 1;
    }
    assert offsets[..i] == offsets;
  }

  /** The VEVENT of `create_event`, built one `add` at a time. */
  method BuildEvent(req: CreateEventRequest) returns (c: Component)
    ensures c == BuildComponent(req)
  {
    var vevent := new VEvent.Empty();
    vevent.Add("SUMMARY", Text(req.title));
    vevent.Add("DTSTART", Time(req.startTime));
    vevent.Add("DTEND", Time(req.endTime));
    assert vevent.props == BasicProps(req);
    AddTextProps(vevent, req);
    var ok: bool;
    if req.allDay {
      ok := vevent.SetValueParam("DTSTART", "DATE");
      ok := vevent.SetValueParam("DTEND", "DATE");
    }
    assert vevent.props == DatedProps(req);
    if req.alarmsMinutesOffsets.Some? && req.alarmsMinutesOffsets.value != [] {
      AddAlarms(vevent, Text(req.title), req.alarmsMinutesOffsets.value);
    }
    assert vevent.children == CreatedAlarms(req);
    NoRuleBeforeRule(req);
    if req.recurrenceRule.Some? {
      vevent.Add("RRULE", Text(Encode(req.recurrenceRule.value)));
    }
    assert vevent.props == CreatedProps(req);
    return vevent.Snapshot();
  }

  /** `create_event`: picks the calendar, then builds the VEVENT. */
  method CreateEvent(cals: seq<Calendar>, req: CreateEventRequest) returns (r: Result<Save, Failure>)
    ensures r == CreatePlan(cals, req)
  {
    var target := CreateTarget(cals, req.calendarName);
    if target.Err? {
      return Err(target.error);
    }
    var body := BuildEvent(req);
    return Ok(Save(target.value, body, None));
  }

  lemma {:induction false} NoAttendeesInAlarms(description: Value, offsets: seq<int>)
    ensures AttendeeNames(DisplayAlarms(description, offsets)) == []
  {
    if offsets != [] {
      var alarms := DisplayAlarms(description, offsets);
      assert alarms[..|alarms| - 1] == DisplayAlarms(description, offsets[..|offsets| - 1]);
      NoAttendeesInAlarms(description, offsets[..|offsets| - 1]);
    }
  }

  /** The text lines of a created VEVENT: each is there exactly when the
      request gives it, with the value the request gives. */
  lemma CreatedText(req: CreateEventRequest)
    ensures var props := CreatedProps(req);
      && props["SUMMARY"] == Prop(Text(req.title), None)
      && PropValue(Component(props, []), "DESCRIPTION") == (if Truthy(req.notes) then Some(Text(req.notes.value)) else None)
      && PropValue(Component(props, []), "LOCATION") == (if Truthy(req.location) then Some(Text(req.location.value)) else None)
      && PropValue(Component(props, []), "URL") == (if Truthy(req.url) then Some(Text(req.url.value)) else None)
  {
  }

  /** The time lines of a created VEVENT, dated exactly when the request is all-day. */
  lemma CreatedTimes(req: CreateEventRequest)
    ensures var props := CreatedProps(req);
      && "DTSTART" in props && props["DTSTART"].value == Time(req.startTime)
      && "DTEND" in props && props["DTEND"].value == Time(req.endTime)
      && (props["DTSTART"].valueParam == Some("DATE") <==> req.allDay)
      && (props["DTEND"].valueParam == Some("DATE") <==> req.allDay)
  {
  }

  /** The RRULE of a created VEVENT reads back as the canonical rule, or as
      none when the request has none. */
  lemma CreatedRule(req: CreateEventRequest)
    requires req.recurrenceRule.Some? ==> IsValid(req.recurrenceRule.value)
    ensures RuleOf(BuildComponent(req)) == Ok(if req.recurrenceRule.Some? then Some(Canonical(req.recurrenceRule.value)) else None)
  {
    var c := BuildComponent(req);
    if req.recurrenceRule.Some? {
      RoundTrip(req.recurrenceRule.value);
      assert "RRULE" in c.props && Str(c.props["RRULE"].value) == Encode(req.recurrenceRule.value);
    } else {
      NoRuleBeforeRule(req);
    }
  }

  /** The properties of a created VEVENT read back as the request's fields. */
  lemma CreatedPropsReadBack(req: CreateEventRequest, rec: Record)
    requires rec.body == Some(BuildComponent(req))
    requires req.recurrenceRule.Some? ==> IsValid(req.recurrenceRule.value)
    ensures EventOf(rec).Ok?
    ensures var e := EventOf(rec).value;
      && e.title == Text(req.title)
      && e.startTime == Some(Time(req.startTime))
      && e.endTime == Some(Time(req.endTime))
      && e.notes == (if Truthy(req.notes) then Some(Text(req.notes.value)) else None)
      && e.location == (if Truthy(req.location) then Some(Text(req.location.value)) else None)
      && e.url == (if Truthy(req.url) then Some(Text(req.url.value)) else None)
      && e.allDay == req.allDay
      && e.recurrenceRule == (if req.recurrenceRule.Some? then Some(Canonical(req.recurrenceRule.value)) else None)
  {
    CreatedText(req);
    CreatedTimes(req);
    CreatedRule(req);
  }

  /** The children of a created VEVENT read back as the offsets that are not
      negative, and as no attendees. */
  lemma CreatedChildrenReadBack(req: CreateEventRequest, rec: Record)
    requires rec.body == Some(BuildComponent(req))
    requires EventOf(rec).Ok?
    ensures var e := EventOf(rec).value;
      && e.alarmsMinutesOffsets == (if req.alarmsMinutesOffsets.Some? then NoneIfEmpty(NonNegative(req.alarmsMinutesOffsets.value)) else None)
      && e.attendees == None
  {
    DecodedFields(rec);
    if req.alarmsMinutesOffsets.Some? {
      AlarmsReadBack(Text(req.title), req.alarmsMinutesOffsets.value);
      NoAttendeesInAlarms(Text(req.title), req.alarmsMinutesOffsets.value);
    }
  }

  /** Reading back the VEVENT `create_event` builds gives the request back:
      title, times, texts and the all-day flag unchanged, the alarms before
      the start, the recurrence rule in canonical form and no attendees. */
  lemma CreatedEventReadsBack(req: CreateEventRequest, rec: Record)
    requires rec.body == Some(BuildComponent(req))
    requires req.recurrenceRule.Some? ==> IsValid(req.recurrenceRule.value)
    ensures EventOf(rec).Ok?
    ensures var e := EventOf(rec).value;
      && e.title == Text(req.title)
      && e.startTime == Some(Time(req.startTime))
      && e.endTime == Some(Time(req.endTime))
      && e.notes == (if Truthy(req.notes) then Some(Text(req.notes.value)) else None)
      && e.location == (if Truthy(req.location) then Some(Text(req.location.value)) else None)
      && e.url == (if Truthy(req.url) then Some(Text(req.url.value)) else None)
      && e.allDay == req.allDay
      && e.alarmsMinutesOffsets == (if req.alarmsMinutesOffsets.Some? then NoneIfEmpty(NonNegative(req.alarmsMinutesOffsets.value)) else None)
      && e.recurrenceRule == (if req.recurrenceRule.Some? then Some(Canonical(req.recurrenceRule.value)) else None)
      && e.attendees == None
  {
    CreatedPropsReadBack(req, rec);
    CreatedChildrenReadBack(req, rec);
  }

  // ---------------------------------------------------------------------------
  // Updating

  function TextOf(s: Option<string>): Option<Value> {
    if s.Some? then Some(Text(s.value)) else None
  }

  function TimeOf(d: Option<Timestamps.DateTime>): Option<Value> {
    if d.Some? then Some(Time(d.value)) else None
  }

  /** `if v is not None: vevent.<name>.value = v`, failing where the
      property is absent. */
  function AssignIf(c: Component, name: string, v: Option<Value>): Result<Component, Failure>
  {
    if v.None? then Ok(c)
    else if name in c.props then Ok(Component(c.props[name := Prop(v.value, c.props[name].valueParam)], c.children))
    else Err(MissingProperty(name))
  }

  /** One guarded assignment: a property name and the value to give it, if any. */
  datatype Assignment = Assignment(name: string, value: Option<Value>)

  /** The six value assignments of `update_event`, in its order. */
  function Assignments(req: UpdateEventRequest): seq<Assignment> {
    [ Assignment("SUMMARY", TextOf(req.title)),
      Assignment("DTSTART", TimeOf(req.startTime)),
      Assignment("DTEND", TimeOf(req.endTime)),
      Assignment("LOCATION", TextOf(req.location)),
      Assignment("DESCRIPTION", TextOf(req.notes)),
      Assignment("URL", TextOf(req.url)) ]
  }

  /** The assignments made one after the other, stopping at the first that fails. */
  function AssignEach(c: Component, edits: seq<Assignment>): Result<Component, Failure>
    decreases |edits|
  {
    if edits == [] then Ok(c)
    else
      var d :- AssignIf(c, edits[0].name, edits[0].value);
      AssignEach(d, edits[1..])
  }

  /** Unfolds a run of assignments at its `k`-th step. */
  lemma AssignEachAt(c: Component, edits: seq<Assignment>, k: nat)
    requires k < |edits|
    ensures var r := AssignIf(c, edits[k].name, edits[k].value);
      AssignEach(c, edits[k..]) == if r.Err? then Err(r.error) else AssignEach(r.value, edits[k + 1..])
  {
    assert edits[k..][0] == edits[k];
    assert edits[k..][1..] == edits[k + 1..];
  }

  function AssignAll(c: Component, req: UpdateEventRequest): Result<Component, Failure>
  {
    AssignEach(c, Assignments(req))
  }

  /** The first assignment, in order, that gives a value for a property not
      among `keys`. */
  function FirstMissing(keys: set<string>, edits: seq<Assignment>): Option<string>
    decreases |edits|
  {
    if edits == [] then None
    else if edits[0].value.Some? && edits[0].name !in keys then Some(edits[0].name)
    else FirstMissing(keys, edits[1..])
  }

  /** The property whose absence stops `update_event`, in the order it reads
      them: the six assignments, then DTSTART and DTEND for the all-day flag,
      then SUMMARY for a non-empty alarm list. */
  function MissingProp(c: Component, req: UpdateEventRequest): Option<string>
  {
    var first := FirstMissing(c.props.Keys, Assignments(req));
    if first.Some? then first
    else if req.allDay.Some? && "DTSTART" !in c.props then Some("DTSTART")
    else if req.allDay.Some? && "DTEND" !in c.props then Some("DTEND")
    else if req.alarmsMinutesOffsets.Some? && req.alarmsMinutesOffsets.value != [] && "SUMMARY" !in c.props then Some("SUMMARY")
    else None
  }

  /** The VALUE parameter `update_event` writes for an all-day flag. */
  function DateKind(allDay: bool): string {
    if allDay then "DATE" else "DATETIME"
  }

  /** Marks both DTSTART and DTEND as dates or date-times, when asked. */
  function DatesIf(c: Component, allDay: Option<bool>): Result<Component, Failure>
  {
    if allDay.None? then Ok(c)
    else if "DTSTART" !in c.props then Err(MissingProperty("DTSTART"))
    else if "DTEND" !in c.props then Err(MissingProperty("DTEND"))
    else
      var p := Some(DateKind(allDay.value));
      Ok(Component(c.props["DTSTART" := Prop(c.props["DTSTART"].value, p)]["DTEND" := Prop(c.props["DTEND"].value, p)],
                   c.children))
  }

  /** Replaces every alarm by one DISPLAY alarm per offset, described by the
      current SUMMARY, when offsets are given. */
  function AlarmsIf(c: Component, offsets: Option<seq<int>>): Result<Component, Failure>
  {
    if offsets.None? then Ok(c)
    else if offsets.value == [] then Ok(Component(c.props, WithoutAlarms(c.children)))
    else if "SUMMARY" !in c.props then Err(MissingProperty("SUMMARY"))
    else Ok(Component(c.props, WithoutAlarms(c.children) + DisplayAlarms(c.props["SUMMARY"].value, offsets.value)))
  }

  /** Replaces the RRULE by the encoded rule, when one is given. */
  function RuleIf(c: Component, rule: Option<RecurrenceRule>): Component
  {
    if rule.None? then c
    else Component((c.props - {"RRULE"})["RRULE" := RuleProp(rule.value)], c.children)
  }

  /** The edits `update_event` makes to a VEVENT. */
  function Patch(c: Component, req: UpdateEventRequest): Result<Component, Failure>
  {
    var written :- AssignAll(c, req);
    var dated :- DatesIf(written, req.allDay);
    var alarmed :- AlarmsIf(dated, req.alarmsMinutesOffsets);
    Ok(RuleIf(alarmed, req.recurrenceRule))
  }

  /** What `update_event` saves: the patched VEVENT, into the calendar that
      holds the event or, when a different non-empty calendar name is given,
      into that calendar after deleting the original. */
  function UpdatePlan(cals: seq<Calendar>, eventId: string, req: UpdateEventRequest): Result<Save, Failure>
  {
    match Locate(cals, eventId)
    case None => Err(EventNotFound(eventId))
    case Some(loc) =>
      var rec := RecordAt(cals, loc);
      if rec.body.None? then Err(NoVeventToEdit)
      else
        var body :- Patch(rec.body.value, req);
        var save :- Destination(cals, loc, body, req);
        if !Truthy(req.title) && "SUMMARY" !in body.props then
          Err(RaisedAfterSave(save, MissingProperty("SUMMARY")))
        else
          Ok(save)
  }

  /** Where `update_event` saves the edited VEVENT: the calendar that holds
      the event or, when a different non-empty calendar name is given, that
      calendar after deleting the original. */
  function Destination(cals: seq<Calendar>, loc: Location, body: Component, req: UpdateEventRequest): Result<Save, Failure>
    requires loc.calendar < |cals| && cals[loc.calendar].events.Fetched? && loc.index < |cals[loc.calendar].events.records|
  {
    if Truthy(req.calendarName) && req.calendarName.value != cals[loc.calendar].name then
      match FindCalendarByName(cals, req.calendarName.value)
      case None => Err(CalendarNotFound(req.calendarName.value))
      case Some(target) => Ok(Save(target, body, Some(RecordAt(cals, loc))))
    else
      Ok(Save(loc.calendar, body, None))
  }

  /** The save an update made, whether or not the call then returned normally. */
  function Saved(plan: Result<Save, Failure>): Option<Save> {
    if plan.Ok? then Some(plan.value)
    else if plan.error.RaisedAfterSave? then Some(plan.error.saved)
    else None
  }

  /** One guarded value assignment on the live VEVENT. */
  method AssignIfGiven(vevent: VEvent, name: string, v: Option<Value>) returns (ok: bool)
    modifies vevent
    ensures ok <==> AssignIf(old(vevent.Snapshot()), name, v).Ok?
    ensures ok ==> vevent.Snapshot() == AssignIf(old(vevent.Snapshot()), name, v).value
  {
    ok := true;
    if v.Some? {
      ok := vevent.SetValue(name, v.value);
    }
  }

  /** The `k`-th assignment of a run that should end in `want`: on failure
      `want` is that failure; otherwise the rest of the run ends in `want`. */
  method AssignStep(vevent: VEvent, name: string, v: Option<Value>,
                    ghost edits: seq<Assignment>, ghost k: nat, ghost want: Result<Component, Failure>)
      returns (ok: bool)
    requires k < |edits| && edits[k] == Assignment(name, v)
    requires want == AssignEach(vevent.Snapshot(), edits[k..])
    modifies vevent
    ensures !ok ==> want == Err(MissingProperty(name))
    ensures ok ==> want == AssignEach(vevent.Snapshot(), edits[k + 1..])
  {
    AssignEachAt(vevent.Snapshot(), edits, k);
    ok := AssignIfGiven(vevent, name, v);
  }

  /** The six value assignments, stopping at the first absent property. */
  method AssignValues(vevent: VEvent, req: UpdateEventRequest) returns (failure: Option<Failure>)
    modifies vevent
    ensures var want := AssignAll(old(vevent.Snapshot()), req);
      && (failure.None? <==> want.Ok?)
      && (failure.Some? ==> failure.value == want.error)
      && (failure.None? ==> vevent.Snapshot() == want.value)
  {
    ghost var edits := Assignments(req);
    ghost var want := AssignAll(vevent.Snapshot(), req);
    assert edits[0..] == edits;
    var ok := AssignStep(vevent, "SUMMARY", TextOf(req.title), edits, 0, want);
    if !ok { return Some(MissingProperty("SUMMARY")); }
    ok := AssignStep(vevent, "DTSTART", TimeOf(req.startTime), edits, 1, want);
    if !ok { return Some(MissingProperty("DTSTART")); }
    ok := AssignStep(vevent, "DTEND", TimeOf(req.endTime), edits, 2, want);
    if !ok { return Some(MissingProperty("DTEND")); }
    ok := AssignStep(vevent, "LOCATION", TextOf(req.location), edits, 3, want);
    if !ok { return Some(MissingProperty("LOCATION")); }
    ok := AssignStep(vevent, "DESCRIPTION", TextOf(req.notes), edits, 4, want);
    if !ok { return Some(MissingProperty("DESCRIPTION")); }
    ok := AssignStep(vevent, "URL", TextOf(req.url), edits, 5, want);
    if !ok { return Some(MissingProperty("URL")); }
    assert edits[6..] == [];
    return None;
  }

  /** The VALUE parameters of DTSTART and DTEND, when the all-day flag is given. */
  method MarkDates(vevent: VEvent, allDay: Option<bool>) returns (failure: Option<Failure>)
    modifies vevent
    ensures var want := DatesIf(old(vevent.Snapshot()), allDay);
      && (failure.None? <==> want.Ok?)
      && (failure.Some? ==> failure.value == want.error)
      && (failure.None? ==> vevent.Snapshot() == want.value)
  {
    if allDay.Some? {
      var ok := vevent.SetValueParam("DTSTART", DateKind(allDay.value));
      if !ok { return Some(MissingProperty("DTSTART")); }
      ok := vevent.SetValueParam("DTEND", DateKind(allDay.value));
      if !ok { return Some(MissingProperty("DTEND")); }
    }
    return None;
  }

  /** Removes every alarm, then adds one per offset, when offsets are given;
      each new alarm is described by the SUMMARY, which the loop leaves as it is. */
  method ReplaceAlarms(vevent: VEvent, offsets: Option<seq<int>>) returns (failure: Option<Failure>)
    modifies vevent
    ensures var want := AlarmsIf(old(vevent.Snapshot()), offsets);
      && (failure.None? <==> want.Ok?)
      && (failure.Some? ==> failure.value == want.error)
      && (failure.None? ==> vevent.Snapshot() == want.value)
  {
    if offsets.Some? {
      vevent.RemoveAlarms();
      if offsets.value != [] {
        if "SUMMARY" !in vevent.props {
          return Some(MissingProperty("SUMMARY"));
        }
        AddAlarms(vevent, vevent.props["SUMMARY"].value, offsets.value);
      }
    }
    return None;
  }

  /** Removes the RRULE, if any, and adds the encoded rule, when one is given. */
  method ReplaceRule(vevent: VEvent, rule: Option<RecurrenceRule>)
    modifies vevent
    ensures vevent.Snapshot() == RuleIf(old(vevent.Snapshot()), rule)
  {
    if rule.Some? {
      if "RRULE" in vevent.props {
        vevent.Remove("RRULE");
      } else {
        assert vevent.props - {"RRULE"} == vevent.props;
      }
      vevent.Add("RRULE", Text(Encode(rule.value)));
    }
  }

  /** The edits of `update_event` applied in place to the loaded VEVENT. */
  method EditEvent(body: Component, req: UpdateEventRequest) returns (r: Result<Component, Failure>)
    ensures r == Patch(body, req)
  {
    var vevent := new VEvent.Load(body);
    var failure := AssignValues(vevent, req);
    if failure.Some? {
      return Err(failure.value);
    }
    failure := MarkDates(vevent, req.allDay);
    if failure.Some? {
      return Err(failure.value);
    }
    failure := ReplaceAlarms(vevent, req.alarmsMinutesOffsets);
    if failure.Some? {
      return Err(failure.value);
    }
    ReplaceRule(vevent, req.recurrenceRule);
    return Ok(vevent.Snapshot());
  }

  /** `update_event`: resolves the event and its calendar, edits the VEVENT,
      then settles where to save it. */
  method UpdateEvent(cals: seq<Calendar>, eventId: string, req: UpdateEventRequest) returns (r: Result<Save, Failure>)
    ensures r == UpdatePlan(cals, eventId, req)
  {
    var existing := FindEventById(cals, eventId);
    if existing.None? {
      return Err(EventNotFound(eventId));
    }
    var calendar := FindEventCalendar(cals, eventId);
    if calendar.None? {
      assert false;
    }
    var rec := existing.value;
    if rec.body.None? {
      return Err(NoVeventToEdit);
    }
    var body := EditEvent(rec.body.value, req);
    if body.Err? {
      return Err(body.error);
    }
    var save := Save(calendar.value, body.value, None);
    if Truthy(req.calendarName) && req.calendarName.value != cals[calendar.value].name {
      var target := FindCalendarByName(cals, req.calendarName.value);
      if target.None? {
        return Err(CalendarNotFound(req.calendarName.value));
      }
      save := Save(target.value, body.value, Some(rec));
    }
    // The success message reads the SUMMARY when no title is given.
    if !Truthy(req.title) && "SUMMARY" !in body.value.props {
      return Err(RaisedAfterSave(save, MissingProperty("SUMMARY")));
    }
    return Ok(save);
  }

  /** `delete_event`: the record to delete, or not found. */
  method DeleteEvent(cals: seq<Calendar>, eventId: string) returns (r: Result<Record, Failure>)
    ensures r.Err? <==> Locate(cals, eventId).None?
    ensures r.Err? ==> r.error == EventNotFound(eventId)
    ensures r.Ok? ==> r.value == RecordAt(cals, Locate(cals, eventId).value)
  {
    var existing := FindEventById(cals, eventId);
    if existing.None? {
      return Err(EventNotFound(eventId));
    }
    return Ok(existing.value);
  }

  // ---------------------------------------------------------------------------
  // Properties of updating

  /** A property the request needs but the VEVENT lacks: one of the six it
      assigns, DTSTART or DTEND for the all-day flag, or SUMMARY to describe
      new alarms. */
  predicate Lacks(c: Component, req: UpdateEventRequest) {
    || (req.title.Some? && "SUMMARY" !in c.props)
    || (req.startTime.Some? && "DTSTART" !in c.props)
    || (req.endTime.Some? && "DTEND" !in c.props)
    || (req.location.Some? && "LOCATION" !in c.props)
    || (req.notes.Some? && "DESCRIPTION" !in c.props)
    || (req.url.Some? && "URL" !in c.props)
    || (req.allDay.Some? && ("DTSTART" !in c.props || "DTEND" !in c.props))
    || (req.alarmsMinutesOffsets.Some? && req.alarmsMinutesOffsets.value != [] && "SUMMARY" !in c.props)
  }

  /** One assignment: it fails exactly when a value is given for an absent
      property; otherwise it writes that value alone, keeping the property's
      parameters, every other property and the children. */
  lemma AssignIfStep(c: Component, name: string, v: Option<Value>)
    ensures AssignIf(c, name, v).Ok? <==> (v.Some? ==> name in c.props)
    ensures AssignIf(c, name, v).Err? ==> AssignIf(c, name, v).error == MissingProperty(name)
    ensures AssignIf(c, name, v).Ok? ==>
      var d := AssignIf(c, name, v).value;
      && d.children == c.children
      && d.props.Keys == c.props.Keys
      && (v.Some? ==> d.props[name].value == v.value)
      && (forall n :: n in c.props && n != name ==> d.props[n] == c.props[n])
  {
  }

  /** A run of assignments fails exactly when one of them gives a value for
      an absent property; otherwise it keeps the property names, their
      parameters and the children. */
  lemma {:induction false} AssignEachShape(c: Component, edits: seq<Assignment>)
    ensures AssignEach(c, edits).Ok? <==> FirstMissing(c.props.Keys, edits).None?
    ensures AssignEach(c, edits).Err? ==>
      AssignEach(c, edits).error == MissingProperty(FirstMissing(c.props.Keys, edits).value)
    ensures AssignEach(c, edits).Ok? <==>
      forall k :: 0 <= k < |edits| && edits[k].value.Some? ==> edits[k].name in c.props
    ensures AssignEach(c, edits).Ok? ==>
      var p := AssignEach(c, edits).value;
      && p.props.Keys == c.props.Keys
      && p.children == c.children
      && (forall n :: n in c.props ==> p.props[n].valueParam == c.props[n].valueParam)
    decreases |edits|
  {
    if edits != [] {
      AssignIfStep(c, edits[0].name, edits[0].value);
      var r := AssignIf(c, edits[0].name, edits[0].value);
      if r.Ok? {
        AssignEachShape(r.value, edits[1..]);
        assert forall k :: 1 <= k < |edits| ==> edits[k] == edits[1..][k - 1];
      }
    }
  }

  /** A property no assignment gives a value to is left as it was. */
  lemma {:induction false} AssignEachFrame(c: Component, edits: seq<Assignment>, name: string)
    requires AssignEach(c, edits).Ok?
    requires forall k :: 0 <= k < |edits| && edits[k].value.Some? ==> edits[k].name != name
    ensures name in AssignEach(c, edits).value.props <==> name in c.props
    ensures name in c.props ==> AssignEach(c, edits).value.props[name] == c.props[name]
    decreases |edits|
  {
    AssignEachShape(c, edits);
    if edits != [] {
      AssignIfStep(c, edits[0].name, edits[0].value);
      var d := AssignIf(c, edits[0].name, edits[0].value).value;
      assert forall k :: 0 <= k < |edits[1..]| ==> edits[1..][k] == edits[k + 1];
      AssignEachFrame(d, edits[1..], name);
    }
  }

  /** An assignment that no later one overrides leaves its value in place. */
  lemma {:induction false} AssignEachWrites(c: Component, edits: seq<Assignment>, k: nat)
    requires AssignEach(c, edits).Ok?
    requires k < |edits| && edits[k].value.Some?
    requires forall j :: k < j < |edits| && edits[j].value.Some? ==> edits[j].name != edits[k].name
    ensures edits[k].name in AssignEach(c, edits).value.props
    ensures AssignEach(c, edits).value.props[edits[k].name].value == edits[k].value.value
    decreases |edits|
  {
    AssignEachShape(c, edits);
    AssignIfStep(c, edits[0].name, edits[0].value);
    var d := AssignIf(c, edits[0].name, edits[0].value).value;
    assert forall j :: 0 <= j < |edits[1..]| ==> edits[1..][j] == edits[j + 1];
    if k == 0 {
      AssignEachShape(d, edits[1..]);
      AssignEachFrame(d, edits[1..], edits[0].name);
    } else {
      AssignEachWrites(d, edits[1..], k - 1);
    }
  }

  lemma AssignAllKeys(c: Component, req: UpdateEventRequest)
    ensures AssignAll(c, req).Ok? <==> FirstMissing(c.props.Keys, Assignments(req)).None?
    ensures AssignAll(c, req).Err? ==>
      AssignAll(c, req).error == MissingProperty(FirstMissing(c.props.Keys, Assignments(req)).value)
    ensures AssignAll(c, req).Ok? ==> AssignAll(c, req).value.props.Keys == c.props.Keys
    ensures AssignAll(c, req).Ok? ==> AssignAll(c, req).value.children == c.children
    ensures AssignAll(c, req).Ok? <==>
      && (req.title.Some? ==> "SUMMARY" in c.props)
      && (req.startTime.Some? ==> "DTSTART" in c.props)
      && (req.endTime.Some? ==> "DTEND" in c.props)
      && (req.location.Some? ==> "LOCATION" in c.props)
      && (req.notes.Some? ==> "DESCRIPTION" in c.props)
      && (req.url.Some? ==> "URL" in c.props)
  {
    var edits := Assignments(req);
    AssignEachShape(c, edits);
    assert edits[0].name == "SUMMARY" && edits[1].name == "DTSTART" && edits[2].name == "DTEND";
    assert edits[3].name == "LOCATION" && edits[4].name == "DESCRIPTION" && edits[5].name == "URL";
  }

  /** The edit fails exactly when the VEVENT lacks a property the request needs. */
  lemma PatchFails(c: Component, req: UpdateEventRequest)
    ensures Patch(c, req).Err? <==> Lacks(c, req)
    ensures Patch(c, req).Err? <==> MissingProp(c, req).Some?
    ensures Patch(c, req).Err? ==> Patch(c, req).error == MissingProperty(MissingProp(c, req).value)
  {
    AssignAllKeys(c, req);
  }

  /** The names of the properties a request may change. */
  function Touched(req: UpdateEventRequest): set<string> {
    (if req.title.Some? then {"SUMMARY"} else {})
    + (if req.startTime.Some? || req.allDay.Some? then {"DTSTART"} else {})
    + (if req.endTime.Some? || req.allDay.Some? then {"DTEND"} else {})
    + (if req.location.Some? then {"LOCATION"} else {})
    + (if req.notes.Some? then {"DESCRIPTION"} else {})
    + (if req.url.Some? then {"URL"} else {})
    + (if req.recurrenceRule.Some? then {"RRULE"} else {})
  }

  /** The property names the client writes are pairwise different. */
  lemma DistinctNames()
    ensures "SUMMARY" != "DTSTART" && "DTEND" != "RRULE"
    ensures forall a, b | a in {"SUMMARY", "DTSTART", "DTEND", "LOCATION", "DESCRIPTION", "URL", "RRULE"}
                       && b in {"SUMMARY", "DTSTART", "DTEND", "LOCATION", "DESCRIPTION", "URL", "RRULE"}
                       && |a| == |b| && a[0] == b[0] :: a == b
  {
    assert "SUMMARY"[0] != "DTSTART"[0];
    assert "DTEND"[0] != "RRULE"[0];
  }

  /** The six assignments name six different properties. */
  lemma AssignmentsDistinct(req: UpdateEventRequest)
    ensures forall j, k :: 0 <= j < k < |Assignments(req)| ==> Assignments(req)[j].name != Assignments(req)[k].name
  {
    var e := Assignments(req);
    assert e[0].name[0] == 'S' && e[3].name[0] == 'L' && e[5].name[0] == 'U';
    assert |e[1].name| == 7 && |e[2].name| == 5 && |e[4].name| == 11;
    assert e[1].name[0] == 'D' && e[2].name[0] == 'D' && e[4].name[0] == 'D';
  }

  lemma AssignAllFrame(c: Component, req: UpdateEventRequest, name: string)
    requires AssignAll(c, req).Ok? && name !in Touched(req)
    ensures name in AssignAll(c, req).value.props <==> name in c.props
    ensures name in c.props ==> AssignAll(c, req).value.props[name] == c.props[name]
  {
    var edits := Assignments(req);
    AssignEachShape(c, edits);
    assert forall k :: 0 <= k < |edits| && edits[k].value.Some? ==> edits[k].name in Touched(req);
    AssignEachFrame(c, edits, name);
  }

  /** Every property the request does not name is left as it was, and the
      children other than alarms keep their order. */
  lemma PatchFrame(c: Component, req: UpdateEventRequest, name: string)
    requires Patch(c, req).Ok? && name !in Touched(req)
    ensures name in Patch(c, req).value.props <==> name in c.props
    ensures name in c.props ==> Patch(c, req).value.props[name] == c.props[name]
    ensures req.alarmsMinutesOffsets.None? ==> Patch(c, req).value.children == c.children
  {
    AssignAllFrame(c, req, name);
    AssignAllKeys(c, req);
    var written := AssignAll(c, req).value;
    var dated := DatesIf(written, req.allDay).value;
    assert name in dated.props <==> name in written.props;
    assert name in written.props ==> dated.props[name] == written.props[name];
    var alarmed := AlarmsIf(dated, req.alarmsMinutesOffsets).value;
    assert alarmed.props == dated.props;
    assert Patch(c, req).value == RuleIf(alarmed, req.recurrenceRule);
  }

  lemma AssignAllWrites(c: Component, req: UpdateEventRequest)
    requires AssignAll(c, req).Ok?
    ensures var p := AssignAll(c, req).value;
      && (req.title.Some? ==> "SUMMARY" in p.props && p.props["SUMMARY"].value == Text(req.title.value))
      && (req.startTime.Some? ==> "DTSTART" in p.props && p.props["DTSTART"].value == Time(req.startTime.value))
      && (req.endTime.Some? ==> "DTEND" in p.props && p.props["DTEND"].value == Time(req.endTime.value))
      && (req.location.Some? ==> "LOCATION" in p.props && p.props["LOCATION"].value == Text(req.location.value))
      && (req.notes.Some? ==> "DESCRIPTION" in p.props && p.props["DESCRIPTION"].value == Text(req.notes.value))
      && (req.url.Some? ==> "URL" in p.props && p.props["URL"].value == Text(req.url.value))
  {
    var edits := Assignments(req);
    AssignmentsDistinct(req);
    if req.title.Some? { AssignEachWrites(c, edits, 0); }
    if req.startTime.Some? { AssignEachWrites(c, edits, 1); }
    if req.endTime.Some? { AssignEachWrites(c, edits, 2); }
    if req.location.Some? { AssignEachWrites(c, edits, 3); }
    if req.notes.Some? { AssignEachWrites(c, edits, 4); }
    if req.url.Some? { AssignEachWrites(c, edits, 5); }
  }

  /** Marking the dates changes only the VALUE parameters of DTSTART and DTEND. */
  lemma DatesIfKeeps(c: Component, allDay: Option<bool>)
    requires DatesIf(c, allDay).Ok?
    ensures var d := DatesIf(c, allDay).value;
      && d.props.Keys == c.props.Keys
      && d.children == c.children
      && (forall n :: n in c.props ==> d.props[n].value == c.props[n].value)
      && (forall n :: n in c.props && n != "DTSTART" && n != "DTEND" ==> d.props[n] == c.props[n])
      && (allDay.Some? ==>
            && d.props["DTSTART"].valueParam == Some(DateKind(allDay.value))
            && d.props["DTEND"].valueParam == Some(DateKind(allDay.value)))
  {
    assert |"DTSTART"| != |"DTEND"|;
  }

  /** Replacing the rule changes only RRULE, which then holds the encoded rule. */
  lemma RuleIfKeeps(c: Component, rule: Option<RecurrenceRule>)
    ensures var r := RuleIf(c, rule);
      && r.children == c.children
      && (forall n :: n != "RRULE" ==> (n in r.props <==> n in c.props))
      && (forall n :: n != "RRULE" && n in c.props ==> r.props[n] == c.props[n])
      && (rule.Some? ==> "RRULE" in r.props && r.props["RRULE"] == RuleProp(rule.value))
      && (rule.None? ==> r == c)
  {
  }

  /** What an edit writes: each given value into its property, keeping its
      parameters; both VALUE parameters from the all-day flag; and exactly one
      RRULE, the encoded rule. */
  lemma PatchWrites(c: Component, req: UpdateEventRequest)
    requires Patch(c, req).Ok?
    ensures var p := Patch(c, req).value;
      && (req.title.Some? ==> "SUMMARY" in p.props && p.props["SUMMARY"].value == Text(req.title.value))
      && (req.startTime.Some? ==> "DTSTART" in p.props && p.props["DTSTART"].value == Time(req.startTime.value))
      && (req.endTime.Some? ==> "DTEND" in p.props && p.props["DTEND"].value == Time(req.endTime.value))
      && (req.location.Some? ==> "LOCATION" in p.props && p.props["LOCATION"].value == Text(req.location.value))
      && (req.notes.Some? ==> "DESCRIPTION" in p.props && p.props["DESCRIPTION"].value == Text(req.notes.value))
      && (req.url.Some? ==> "URL" in p.props && p.props["URL"].value == Text(req.url.value))
      && (req.allDay.Some? ==>
            && "DTSTART" in p.props && p.props["DTSTART"].valueParam == Some(DateKind(req.allDay.value))
            && "DTEND" in p.props && p.props["DTEND"].valueParam == Some(DateKind(req.allDay.value)))
      && (req.recurrenceRule.Some? ==> "RRULE" in p.props && p.props["RRULE"] == RuleProp(req.recurrenceRule.value))
  {
    AssignAllWrites(c, req);
    var written := AssignAll(c, req).value;
    DatesIfKeeps(written, req.allDay);
    var dated := DatesIf(written, req.allDay).value;
    var alarmed := AlarmsIf(dated, req.alarmsMinutesOffsets).value;
    assert alarmed.props == dated.props;
    RuleIfKeeps(alarmed, req.recurrenceRule);
    DistinctNames();
  }

  /** The children after an edit that gives offsets: the old ones without
      their alarms, then the new alarms, described by the edited title. */
  lemma PatchAlarms(c: Component, req: UpdateEventRequest)
    requires Patch(c, req).Ok? && req.alarmsMinutesOffsets.Some? && req.alarmsMinutesOffsets.value != []
    ensures var p := Patch(c, req).value;
      && "SUMMARY" in p.props
      && p.children == WithoutAlarms(c.children) + DisplayAlarms(p.props["SUMMARY"].value, req.alarmsMinutesOffsets.value)
      && (req.title.Some? ==> p.props["SUMMARY"].value == Text(req.title.value))
  {
    AssignAllKeys(c, req);
    AssignAllWrites(c, req);
  }

  lemma {:induction false} NoOffsetsWithoutAlarms(children: seq<Child>)
    ensures AlarmOffsets(WithoutAlarms(children)) == []
  {
    if children != [] {
      var init := children[..|children| - 1];
      var last := children[|children| - 1];
      NoOffsetsWithoutAlarms(init);
      if !last.Alarm? {
        AlarmOffsetsAppend(WithoutAlarms(init), [last]);
        assert [last][..0] == [];
      }
    }
  }

  /** Reading an edited event back gives exactly the new offsets that are
      not negative: none of the old alarms survives. */
  lemma PatchedAlarmsReadBack(c: Component, req: UpdateEventRequest)
    requires Patch(c, req).Ok? && req.alarmsMinutesOffsets.Some?
    ensures AlarmOffsets(Patch(c, req).value.children) == NonNegative(req.alarmsMinutesOffsets.value)
  {
    var p := Patch(c, req).value;
    NoOffsetsWithoutAlarms(c.children);
    if req.alarmsMinutesOffsets.value != [] {
      PatchAlarms(c, req);
      var description := p.props["SUMMARY"].value;
      AlarmOffsetsAppend(WithoutAlarms(c.children), DisplayAlarms(description, req.alarmsMinutesOffsets.value));
      AlarmsReadBack(description, req.alarmsMinutesOffsets.value);
    } else {
      AssignAllKeys(c, req);
    }
  }

  /** An id that resolves to nothing fails before anything is edited, and
      only then. */
  lemma UpdateNotFound(cals: seq<Calendar>, eventId: string, req: UpdateEventRequest)
    ensures UpdatePlan(cals, eventId, req) == Err(EventNotFound(eventId)) <==> Locate(cals, eventId).None?
  {
    if Locate(cals, eventId).Some? {
      var loc := Locate(cals, eventId).value;
      var rec := RecordAt(cals, loc);
      if rec.body.Some? && Patch(rec.body.value, req).Err? {
        PatchFails(rec.body.value, req);
        assert Patch(rec.body.value, req).error.MissingProperty?;
      }
    }
  }

  /** Where an update saves: the resolved record's calendar, unless a different
      calendar is named; then the first calendar of that name, and only then
      is the resolved record deleted. A name that matches no calendar fails,
      so nothing is deleted. */
  lemma UpdateTarget(cals: seq<Calendar>, eventId: string, req: UpdateEventRequest)
    requires Locate(cals, eventId).Some?
    ensures var loc := Locate(cals, eventId).value;
      var saved := Saved(UpdatePlan(cals, eventId, req));
      && (saved.Some? && saved.value.deleted.None? ==> saved.value.calendar == loc.calendar)
      && (saved.Some? && saved.value.deleted.Some? ==>
            && saved.value.deleted.value == RecordAt(cals, loc)
            && Truthy(req.calendarName)
            && saved.value.calendar < |cals|
            && cals[saved.value.calendar].name == req.calendarName.value
            && req.calendarName.value != cals[loc.calendar].name)
      && (&& RecordAt(cals, loc).body.Some?
          && Patch(RecordAt(cals, loc).body.value, req).Ok?
          && Truthy(req.calendarName)
          && req.calendarName.value != cals[loc.calendar].name
          && (forall c :: 0 <= c < |cals| ==> cals[c].name != req.calendarName.value)
          ==> UpdatePlan(cals, eventId, req) == Err(CalendarNotFound(req.calendarName.value)))
  {
    UpdateRaisesAfterSave(cals, eventId, req);
  }

  /** The edit keeps the set of properties, apart from the RRULE it may add. */
  lemma PatchKeys(c: Component, req: UpdateEventRequest, name: string)
    requires Patch(c, req).Ok? && name != "RRULE"
    ensures name in Patch(c, req).value.props <==> name in c.props
  {
    AssignAllKeys(c, req);
    var dated := DatesIf(AssignAll(c, req).value, req.allDay).value;
    assert dated.props.Keys == c.props.Keys;
  }

  /** The save happens exactly when the VEVENT is edited and its destination
      exists. The call then still raises when no title is given and the
      stored VEVENT has no SUMMARY, because the success message reads it. */
  lemma UpdateRaisesAfterSave(cals: seq<Calendar>, eventId: string, req: UpdateEventRequest)
    requires Locate(cals, eventId).Some?
    ensures var loc := Locate(cals, eventId).value;
      var rec := RecordAt(cals, loc);
      var plan := UpdatePlan(cals, eventId, req);
      && (Saved(plan).Some? <==>
            && rec.body.Some? && Patch(rec.body.value, req).Ok?
            && Destination(cals, loc, Patch(rec.body.value, req).value, req).Ok?)
      && (Saved(plan).Some? ==>
            && Saved(plan).value == Destination(cals, loc, Patch(rec.body.value, req).value, req).value
            && Saved(plan).value.body == Patch(rec.body.value, req).value)
      && (plan.Err? && plan.error.RaisedAfterSave? <==>
            && Saved(plan).Some?
            && !Truthy(req.title) && "SUMMARY" !in rec.body.value.props)
      && (plan.Err? && plan.error.RaisedAfterSave? ==> plan.error.cause == MissingProperty("SUMMARY"))
  {
    var loc := Locate(cals, eventId).value;
    var rec := RecordAt(cals, loc);
    if rec.body.Some? && Patch(rec.body.value, req).Ok? {
      PatchKeys(rec.body.value, req, "SUMMARY");
    }
    if rec.body.Some? && Patch(rec.body.value, req).Err? {
      PatchFails(rec.body.value, req);
    }
  }

  // ---------------------------------------------------------------------------
  // Examples

  /** A stored id holding a space is found from its percent-encoded form. */
  lemma EncodedIdResolves()
    ensures Matches(Record(Some("A B"), None, None, None, "0"), "A%20B")
  {
    var input := "A%20B";
    assert input[1..] == "%20B" && "%20B"[3..] == "B" && "B"[1..] == [];
    assert Escape("%20B") == Some(' ');
    assert Unquote(input) == "A B";
  }

  /** A record with no id and an empty URL matches nothing, not even an
      empty input. */
  lemma EmptyUrlNeverMatches(eventId: string)
    ensures !Matches(Record(None, Some(""), None, None, "0"), eventId)
  {
  }

  /** An all-day event created with reminders two and four days ahead reads
      back as all-day with both reminders. */
  lemma AllDayWithReminders(req: CreateEventRequest, rec: Record)
    requires req.allDay && req.alarmsMinutesOffsets == Some([5760, 2880])
    requires req.recurrenceRule.Some? ==> IsValid(req.recurrenceRule.value)
    requires rec.body == Some(BuildComponent(req))
    ensures EventOf(rec).Ok? && EventOf(rec).value.allDay
    ensures EventOf(rec).value.alarmsMinutesOffsets == Some([5760, 2880])
  {
    CreatedEventReadsBack(req, rec);
    var offsets := [5760, 2880];
    assert offsets[..1] == [5760];
    assert [5760][..0] == [];
    assert NonNegative(offsets) == [5760, 2880];
  }
}
