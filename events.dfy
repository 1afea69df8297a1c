/** The domain event: `Event.from_caldav_event`, which reads a stored record
    into an `Event` (default title, all-day detection, alarm offsets from the
    triggers, attendee names, the recurrence rule and the identifier
    fallback), and the two request models the client accepts. */
module Events {
  import opened Wrappers
  import opened Recurrence
  import opened Triggers
  import opened Records
  import Timestamps

  datatype Event = Event(
    title: Value,
    startTime: Option<Value>,
    endTime: Option<Value>,
    identifier: string,
    calendarName: Option<string>,
    location: Option<Value>,
    notes: Option<Value>,
    alarmsMinutesOffsets: Option<seq<int>>,
    url: Option<Value>,
    allDay: bool,
    hasAlarms: bool,
    organizer: Option<Value>,
    attendees: Option<seq<Value>>,
    lastModified: Option<Value>,
    recurrenceRule: Option<RecurrenceRule>)

  /** Why reading a record fails: its data has no VEVENT, or its RRULE does
      not make a `RecurrenceRule`. */
  datatype DecodeError = NoVevent | BadRule(error: RuleError)

  /** `CreateEventRequest`. */
  datatype CreateEventRequest = CreateEventRequest(
    title: string,
    startTime: Timestamps.DateTime,
    endTime: Timestamps.DateTime,
    calendarName: Option<string>,
    location: Option<string>,
    notes: Option<string>,
    alarmsMinutesOffsets: Option<seq<int>>,
    url: Option<string>,
    allDay: bool,
    recurrenceRule: Option<RecurrenceRule>)

  /** `UpdateEventRequest`: every field optional. */
  datatype UpdateEventRequest = UpdateEventRequest(
    title: Option<string>,
    startTime: Option<Timestamps.DateTime>,
    endTime: Option<Timestamps.DateTime>,
    calendarName: Option<string>,
    location: Option<string>,
    notes: Option<string>,
    alarmsMinutesOffsets: Option<seq<int>>,
    url: Option<string>,
    allDay: Option<bool>,
    recurrenceRule: Option<RecurrenceRule>)

  // ---------------------------------------------------------------------------
  // Reading a record

  /** `vevent.<name>.value` when the property is there. */
  function PropValue(c: Component, name: string): Option<Value> {
    if name in c.props then Some(c.props[name].value) else None
  }

  /** The offset one child contributes: a VALARM with a trigger whose text the
      trigger pattern recognises. */
  function AlarmOffset(child: Child): Option<int> {
    if child.Alarm? && child.trigger.Some? then DecodeTrigger(child.trigger.value) else None
  }

  /** The offsets of all recognised alarms, in child order. */
  function AlarmOffsets(children: seq<Child>): seq<int>
  {
    if children == [] then []
    else
      var rest := AlarmOffsets(children[..|children| - 1]);
      match AlarmOffset(children[|children| - 1])
      case Some(m) => rest + [m]
      case None => rest
  }

  /** The name one child contributes: an ATTENDEE with a CN. */
  function AttendeeName(child: Child): Option<Value> {
    if child.Attendee? then child.cn else None
  }

  function AttendeeNames(children: seq<Child>): seq<Value>
  {
    if children == [] then []
    else
      var rest := AttendeeNames(children[..|children| - 1]);
      match AttendeeName(children[|children| - 1])
      case Some(n) => rest + [n]
      case None => rest
  }

  /** `xs if xs else None`. */
  function NoneIfEmpty<T>(xs: seq<T>): Option<seq<T>> {
    if xs == [] then None else Some(xs)
  }

  /** `id or url or str(hash(...))`. */
  function Identifier(rec: Record): string {
    if Truthy(rec.id) then rec.id.value
    else if Truthy(rec.url) then rec.url.value
    else rec.fingerprint
  }

  predicate IsAllDay(c: Component) {
    "DTSTART" in c.props && c.props["DTSTART"].valueParam == Some("DATE")
  }

  /** The recurrence rule of the RRULE property, parsed from `str()` of its value. */
  function RuleOf(c: Component): Result<Option<RecurrenceRule>, RuleError> {
    if "RRULE" in c.props then
      var rule :- DecodeRule(Str(c.props["RRULE"].value));
      Ok(Some(rule))
    else
      Ok(None)
  }

  /** The `Event` a record reads as. */
  function EventOf(rec: Record): Result<Event, DecodeError>
  {
    if rec.body.None? then Err(NoVevent)
    else
      var c := rec.body.value;
      var rule := RuleOf(c);
      if rule.Err? then Err(BadRule(rule.error))
      else
        Ok(Event(
          title := if "SUMMARY" in c.props then c.props["SUMMARY"].value else Text("No Title"),
          startTime := PropValue(c, "DTSTART"),
          endTime := PropValue(c, "DTEND"),
          identifier := Identifier(rec),
          calendarName := rec.parentName,
          location := PropValue(c, "LOCATION"),
          notes := PropValue(c, "DESCRIPTION"),
          alarmsMinutesOffsets := NoneIfEmpty(AlarmOffsets(c.children)),
          url := PropValue(c, "URL"),
          allDay := IsAllDay(c),
          hasAlarms := false,
          organizer := PropValue(c, "ORGANIZER"),
          attendees := NoneIfEmpty(AttendeeNames(c.children)),
          lastModified := PropValue(c, "LAST-MODIFIED"),
          recurrenceRule := rule.value))
  }

  /** The alarm loop of `from_caldav_event`: one offset per VALARM child whose
      trigger the pattern recognises, in the order of the children. */
  method CollectAlarms(children: seq<Child>) returns (alarms: seq<int>)
    ensures alarms == AlarmOffsets(children)
  {
    alarms := [];
    var i := 0;
    while i < |children|
      invariant 0 <= i <= |children|
      invariant alarms == AlarmOffsets(children[..i])
    {
      assert children[..i + 1][..i] == children[..i];
      var child := children[i];
      if child.Alarm? && child.trigger.Some? {
        var amount := DecodeTrigger(child.trigger.value);
        if amount.Some? {
          alarms := alarms + [amount.value];
        }
      }
      i := i + 1;
    }
    assert children[..i] == children;
  }

  /** The attendee loop of `from_caldav_event`: the CN of every ATTENDEE child
      that has one, in order. */
  method CollectAttendees(children: seq<Child>) returns (attendees: seq<Value>)
    ensures attendees == AttendeeNames(children)
  {
    attendees := [];
    var i := 0;
    while i < |children|
      invariant 0 <= i <= |children|
      invariant attendees == AttendeeNames(children[..i])
    {
      assert children[..i + 1][..i] == children[..i];
      var child := children[i];
      if child.Attendee? && child.cn.Some? {
        attendees := attendees + [child.cn.value];
      }
      i := i + 1;
    }
    assert children[..i] == children;
  }

  /** `Event.from_caldav_event`: the alarm and attendee lists are filled by
      walking the children. */
  method FromCaldavEvent(rec: Record) returns (r: Result<Event, DecodeError>)
    ensures r == EventOf(rec)
  {
    if rec.body.None? {
      return Err(NoVevent);
    }
    var c := rec.body.value;
    var title := if "SUMMARY" in c.props then c.props["SUMMARY"].value else Text("No Title");

    var alarms := CollectAlarms(c.children);

    var recurrence: Option<RecurrenceRule> := None;
    if "RRULE" in c.props {
      var parsed := FromIcalString(Str(c.props["RRULE"].value));
      if parsed.Err? {
        return Err(BadRule(parsed.error));
      }
      recurrence := Some(parsed.value);
    }

    var attendees := CollectAttendees(c.children);

    r := Ok(Event(
      title := title,
      startTime := PropValue(c, "DTSTART"),
      endTime := PropValue(c, "DTEND"),
      identifier := Identifier(rec),
      calendarName := rec.parentName,
      location := PropValue(c, "LOCATION"),
      notes := PropValue(c, "DESCRIPTION"),
      alarmsMinutesOffsets := if alarms == [] then None else Some(alarms),
      url := PropValue(c, "URL"),
      allDay := IsAllDay(c),
      hasAlarms := false,
      organizer := PropValue(c, "ORGANIZER"),
      attendees := if attendees == [] then None else Some(attendees),
      lastModified := PropValue(c, "LAST-MODIFIED"),
      recurrenceRule := recurrence));
  }

  // ---------------------------------------------------------------------------
  // Properties of reading

  /** Reading fails exactly when the data has no VEVENT or its RRULE is not a
      rule; otherwise every other piece of the record is optional. */
  lemma DecodeFails(rec: Record)
    ensures EventOf(rec) == Err(NoVevent) <==> rec.body.None?
    ensures EventOf(rec).Err? <==>
      || rec.body.None?
      || ("RRULE" in rec.body.value.props && DecodeRule(Str(rec.body.value.props["RRULE"].value)).Err?)
  {
  }

  /** The title is the SUMMARY when there is one and "No Title" otherwise; the
      event is all-day exactly when DTSTART carries `VALUE=DATE`; the alarm
      and attendee lists are absent rather than empty; the rule is the parsed
      RRULE; and `has_alarms` is never set. */
  lemma DecodedFields(rec: Record)
    requires EventOf(rec).Ok?
    ensures var c := rec.body.value;
      var e := EventOf(rec).value;
      && ("SUMMARY" in c.props ==> e.title == c.props["SUMMARY"].value)
      && ("SUMMARY" !in c.props ==> e.title == Text("No Title"))
      && (e.allDay <==> "DTSTART" in c.props && c.props["DTSTART"].valueParam == Some("DATE"))
      && (e.alarmsMinutesOffsets.None? <==> AlarmOffsets(c.children) == [])
      && (e.alarmsMinutesOffsets.Some? ==> e.alarmsMinutesOffsets.value == AlarmOffsets(c.children))
      && (e.attendees.None? <==> AttendeeNames(c.children) == [])
      && (e.attendees.Some? ==> e.attendees.value == AttendeeNames(c.children))
      && ("RRULE" in c.props ==> e.recurrenceRule == Some(DecodeRule(Str(c.props["RRULE"].value)).value))
      && ("RRULE" !in c.props ==> e.recurrenceRule.None?)
      && e.calendarName == rec.parentName
      && !e.hasAlarms
  {
  }

  lemma {:induction false} AlarmOffsetsAppend(a: seq<Child>, b: seq<Child>)
    ensures AlarmOffsets(a + b) == AlarmOffsets(a) + AlarmOffsets(b)
    decreases |b|
  {
    if b == [] {
      assert a + b == a;
    } else {
      var b' := b[..|b| - 1];
      assert (a + b)[..|a + b| - 1] == a + b';
      AlarmOffsetsAppend(a, b');
    }
  }

  /** An offset is read exactly when some VALARM child has a trigger the
      pattern recognises as that offset. */
  lemma {:induction false} AlarmOffsetsMembers(children: seq<Child>, m: int)
    ensures m in AlarmOffsets(children) <==>
      exists k :: 0 <= k < |children| && AlarmOffset(children[k]) == Some(m)
  {
    if children != [] {
      var init := children[..|children| - 1];
      AlarmOffsetsMembers(init, m);
      if exists k :: 0 <= k < |children| && AlarmOffset(children[k]) == Some(m) {
        var k :| 0 <= k < |children| && AlarmOffset(children[k]) == Some(m);
        if k < |init| {
          assert init[k] == children[k];
        }
      }
      if exists k :: 0 <= k < |init| && AlarmOffset(init[k]) == Some(m) {
        var k :| 0 <= k < |init| && AlarmOffset(init[k]) == Some(m);
        assert children[k] == init[k];
      }
    }
  }

  /** An attendee name is read exactly when some ATTENDEE child carries it as CN. */
  lemma {:induction false} AttendeeNamesMembers(children: seq<Child>, n: Value)
    ensures n in AttendeeNames(children) <==>
      exists k :: 0 <= k < |children| && children[k].Attendee? && children[k].cn == Some(n)
  {
    if children != [] {
      var init := children[..|children| - 1];
      AttendeeNamesMembers(init, n);
      if exists k :: 0 <= k < |children| && children[k].Attendee? && children[k].cn == Some(n) {
        var k :| 0 <= k < |children| && children[k].Attendee? && children[k].cn == Some(n);
        if k < |init| {
          assert init[k] == children[k];
        }
      }
      if exists k :: 0 <= k < |init| && init[k].Attendee? && init[k].cn == Some(n) {
        var k :| 0 <= k < |init| && init[k].Attendee? && init[k].cn == Some(n);
        assert children[k] == init[k];
      }
    }
  }

  /** The offsets that are not negative, in order. */
  function NonNegative(offsets: seq<int>): seq<int>
  {
    if offsets == [] then []
    else
      var rest := NonNegative(offsets[..|offsets| - 1]);
      var last := offsets[|offsets| - 1];
      if last >= 0 then rest + [last] else rest
  }

  /** Alarms written by this client read back as their offsets, except that an
      alarm after the start (a negative offset) is not recognised. */
  lemma {:induction false} AlarmsReadBack(description: Value, offsets: seq<int>)
    ensures AlarmOffsets(DisplayAlarms(description, offsets)) == NonNegative(offsets)
  {
    if offsets != [] {
      var init := offsets[..|offsets| - 1];
      var last := offsets[|offsets| - 1];
      var alarms := DisplayAlarms(description, offsets);
      assert alarms[..|alarms| - 1] == DisplayAlarms(description, init);
      AlarmsReadBack(description, init);
      TriggerRoundTrip(last);
    }
  }

  /** The identifier is the record id when it is non-empty, else its URL when
      that is non-empty, else the data's hash; so it is never empty. */
  lemma IdentifierFallback(rec: Record)
    ensures Truthy(rec.id) ==> Identifier(rec) == rec.id.value
    ensures !Truthy(rec.id) && Truthy(rec.url) ==> Identifier(rec) == rec.url.value
    ensures !Truthy(rec.id) && !Truthy(rec.url) ==> Identifier(rec) == rec.fingerprint
    ensures rec.fingerprint != "" ==> Identifier(rec) != ""
  {
  }
}
