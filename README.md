# mcp_ical core, modelled in Dafny

This project models the core of `mcp_ical`, a calendar client that talks to a
CalDAV server (RFC 4791) and stores events as iCalendar VEVENT components
(RFC 5545). It models the two core files.

`mcp_ical/models.py` holds the value types:

- the `Frequency` and `Weekday` enumerations;
- `RecurrenceRule` and its validation;
- `RecurrenceRule.from_ical_string`, which parses an RRULE string;
- `Event.from_caldav_event`, which reads a stored calendar object into an `Event`;
- the two request models.

`mcp_ical/caldav_client.py` holds the client operations:

- listing events, where broken events and failing calendars are skipped;
- creating an event, which builds a VEVENT with its alarms and its RRULE;
- updating an event, which edits the VEVENT in place, replaces its alarms, replaces its rule, and may move it to another calendar;
- deleting an event;
- looking an event up by identifier, which also tries the percent-decoded forms;
- looking a calendar up by name;
- encoding a `RecurrenceRule` as an RRULE string.

The server is not part of the model. What the server returns (the calendars, each
calendar's `events()` listing and its time-range `search` result) is an input
snapshot. What the client would send back (save this component to that
calendar, having deleted that record) is returned as a plan value.

Layout, one module per file:

| file | module | what it holds |
|---|---|---|
| `wrappers.dfy` | `Wrappers` | `Option`, `Result` |
| `text.dfy` | `Text` | `str.split`, `split('=', 1)`, `int()` and `str()` of integers, `urllib.parse.unquote` |
| `timestamps.dfy` | `Timestamps` | date-times and the `%Y%m%dT%H%M%SZ` / `%Y%m%d` formats |
| `triggers.dfy` | `Triggers` | the `-PT(\d+)([HM])` alarm trigger pattern and the trigger text the client writes |
| `records.dfy` | `Records` | VEVENT components, stored records, and the `VEvent` class that `create_event` and `update_event` change in place |
| `recurrence.dfy` | `Recurrence` | `Frequency`, `Weekday`, `RecurrenceRule`, `from_ical_string`, `_recurrence_rule_to_ical` |
| `recurrence_codec.dfy` | `RecurrenceCodec` | the round trip between the two RRULE functions |
| `events.dfy` | `Events` | `Event`, `Event.from_caldav_event`, the request models |
| `caldav.dfy` | `CalDav` | the client operations |

Behaviour of the code worth knowing:

- An update that gives a recurrence rule always replaces the RRULE. A rule
  object is always truthy, so an update cannot clear a rule.
- Event lookup compares the raw stored id and URL with both the given id and
  its decoded form. It also compares their decoded forms with the decoded id.
  An empty URL is never compared.
- Alarm offsets are read back as an ordered list, in child order. Triggers the
  pattern does not recognise are dropped.
- An empty calendar name means "no filter" in `list_events` and "default
  calendar" in `create_event`, because the code tests the name's truthiness.
- A stored RRULE that fails to parse makes `from_caldav_event` fail.
  `list_events` then skips that event.
- On update, each new alarm's description is the SUMMARY as it stands after
  the title has been updated.
- An update without a title of a VEVENT that has no SUMMARY saves the event
  (moving it, when asked), and then raises, because its success message reads
  the SUMMARY. The model returns `RaisedAfterSave`, which carries the plan
  that was carried out.

## Model

| member | source | states |
|---|---|---|
| Text.Split | mcp_ical/models.py:74 | `str.split(sep)` gives at least one piece, no piece contains the separator, and joining the pieces with the separator gives the input back |
| Text.SplitJoin | mcp_ical/caldav_client.py:411 | splitting a `sep`-joined list whose pieces avoid `sep` gives the list back |
| Text.SplitOnce | mcp_ical/models.py:76 | `split('=', 1)` cuts at the first `=`: key + "=" + value is the piece, and the key has no `=` |
| Text.SplitOnceOf | mcp_ical/models.py:76 | when the key has no `=`, splitting `key=value` once gives back exactly that key and value |
| Text.DigitsRoundTrip | mcp_ical/caldav_client.py:397 | the decimal digits of a natural number read back as that number |
| Text.ParseIntRoundTrip | mcp_ical/models.py:87 | `int(str(n)) == n` for every integer, negative ones included |
| Text.ParseDigits | mcp_ical/models.py:87 | the digits of a natural number parse back as that number |
| Text.ParseNegative | mcp_ical/models.py:87 | a minus sign before the digits of m parses back as -m |
| Text.IntToStringChars | mcp_ical/caldav_client.py:409 | `str(n)` contains only digits and `-`, so it never contains `;`, `=` or `,` |
| Text.Unquote | mcp_ical/caldav_client.py:270 | `unquote` leaves text without `%` unchanged and never lengthens it |
| Text.UnquotePlain | mcp_ical/caldav_client.py:270 | text without `%` in front of anything is copied unchanged, and the rest is decoded on its own |
| Text.UnquoteEscape | mcp_ical/caldav_client.py:270 | a `%HH` escape of an ASCII character after text without `%` becomes that character, and the rest is decoded on its own |
| Timestamps.Pad | mcp_ical/caldav_client.py:407 | a zero-padded field has exactly the requested width and only digits |
| Timestamps.PadValue | mcp_ical/caldav_client.py:407 | a zero-padded field reads back as its number when the number fits the width |
| Timestamps.FormatUtc | mcp_ical/caldav_client.py:407 | `strftime("%Y%m%dT%H%M%SZ")` is 16 characters long |
| Timestamps.UtcRoundTrip | mcp_ical/models.py:96-97 | `strptime` with the same format gives back every valid whole-second date-time that `strftime` wrote |
| Timestamps.UtcAnyCase | mcp_ical/models.py:96-97 | `strptime` matches the format's `T` and `Z` regardless of case, so `...T120000z` reads like `...T120000Z` |
| Triggers.DigitRun | mcp_ical/models.py:198 | `\d+` takes the longest run of digits: the run is all digits, and the next character is not a digit |
| Triggers.DigitRunExact | mcp_ical/models.py:198 | when m digits are followed by a non-digit, `\d+` takes exactly those m digits |
| Triggers.DecodeTriggerIsMatch | mcp_ical/models.py:196-204 | an offset is read exactly when the trigger text starts with `-PT`, then digits, then `H` or `M`; the offset is the digits' value, times 60 for `H` |
| Triggers.TriggerRoundTrip | mcp_ical/models.py:198-204 | the trigger written for an offset of m minutes reads back as m when m >= 0 and is dropped when m < 0 |
| Triggers.HourTrigger | mcp_ical/models.py:198-202 | `-PT<h>H` followed by anything reads as 60·h minutes |
| Triggers.CompoundTriggerKeepsHours | mcp_ical/models.py:198-202 | `-PT1H30M` reads as 60 minutes: the match stops at the first unit |
| Records.DisplayAlarms | mcp_ical/caldav_client.py:137-142 | one DISPLAY alarm per offset, in order, each carrying the description and that offset's trigger |
| Records.WithoutAlarmsAppend | mcp_ical/caldav_client.py:208-211 | removing alarms distributes over concatenation of child lists |
| Records.WithoutAlarmsKeeps | mcp_ical/caldav_client.py:208-211 | a child survives the alarm removal exactly when it was there and is not an alarm |
| Records.WithoutAlarmsIdempotent | mcp_ical/caldav_client.py:208-211 | removing the alarms twice is the same as removing them once |
| Records.VEvent.Empty | mcp_ical/caldav_client.py:114-115 | `vcal.add('vevent')` gives a component with no properties and no children |
| Records.VEvent.Load | mcp_ical/caldav_client.py:171-184 | the VEVENT loaded for editing is the stored one |
| Records.VEvent.Add | mcp_ical/caldav_client.py:118-129 | `add(name).value = v` adds exactly that property, with no VALUE parameter, and leaves the rest alone |
| Records.VEvent.SetValue | mcp_ical/caldav_client.py:186-197 | setting `.value` succeeds exactly when the property exists; it keeps the VALUE parameter, and on failure nothing changes |
| Records.VEvent.SetValueParam | mcp_ical/caldav_client.py:198-205 | setting `.value_param` succeeds exactly when the property exists; it keeps the value, and on failure nothing changes |
| Records.VEvent.Remove | mcp_ical/caldav_client.py:222-223 | the property is gone, and all else stays |
| Records.VEvent.RemoveAlarms | mcp_ical/caldav_client.py:208-211 | deleting each VALARM while walking a copy of the children leaves exactly the non-alarm children, in order |
| Records.VEvent.AddAlarm | mcp_ical/caldav_client.py:215-219 | exactly one DISPLAY alarm is appended, and the properties are untouched |
| Recurrence.WeekdayNumber | mcp_ical/models.py:20-27 | weekday numbers run from 1 (Sunday) to 7 (Saturday) |
| Recurrence.NewRule | mcp_ical/models.py:57-68 | a rule is accepted exactly when interval >= 1 and not both end date and count are set; each rejection reports which check failed |
| Recurrence.FromIcalString | mcp_ical/models.py:70-123 | the loop that collects `key=value` parts gives the same rule or error as the specification function `DecodeRule` |
| Recurrence.AddKeyValue | mcp_ical/models.py:75-77 | a `key=value` piece binds the key to the whole text after the first `=` |
| Recurrence.LaterKeyWins | mcp_ical/models.py:74-77 | when a key repeats, the last binding wins |
| Recurrence.PartsIgnorePiece | mcp_ical/models.py:74-77 | a piece that binds no known key changes none of the known keys |
| Text.SplitCons | mcp_ical/models.py:74 | splitting `piece;rest` gives the piece and then the pieces of the rest |
| Recurrence.UnknownPieceIgnored | mcp_ical/models.py:73-77 | a leading piece without `=` or with an unknown key (`WKST=MO`, `X-FOO`) does not change the parse |
| Recurrence.DecodedRuleIsValid | mcp_ical/models.py:117-123 | every rule the parser returns passes the model's validation |
| Recurrence.ParsedFields | mcp_ical/models.py:86-115 | FREQ defaults to and falls back to DAILY; INTERVAL defaults to 1 and a non-integer raises; UNTIL wins over COUNT; an unparsable UNTIL gives no end date; a non-integer COUNT raises; BYDAY keeps the known codes, and gives no list when none are known |
| Recurrence.DaysOfMembers | mcp_ical/models.py:111-113 | a weekday is in the parsed BYDAY list exactly when one of the codes names it |
| Recurrence.DaysOfAppend | mcp_ical/models.py:111-113 | the BYDAY codes are read one after another, in order |
| RecurrenceCodec.NoSeparatorInTokens | mcp_ical/caldav_client.py:394-409 | no encoded part contains `;` |
| RecurrenceCodec.EncodedPieces | mcp_ical/caldav_client.py:411 | splitting the encoded rule on `;` gives back the parts the encoder built |
| RecurrenceCodec.PartsOfEncoded | mcp_ical/caldav_client.py:394-409 | the parser's key map for an encoded rule holds exactly the keys the encoder wrote |
| RecurrenceCodec.EncodedParts | mcp_ical/caldav_client.py:394-409 | FREQ is always written; INTERVAL exactly when interval > 1; BYDAY exactly when there are days; UNTIL exactly when there is an end date; COUNT exactly when there is no end date and the count is non-zero |
| RecurrenceCodec.EncodedMapKeys | mcp_ical/caldav_client.py:394-409 | the key map of an encoded rule, key by key: FREQ holds the frequency's name, INTERVAL the interval when it is above 1, BYDAY the day codes, UNTIL the formatted end date, COUNT the count when there is no end date and it is non-zero |
| RecurrenceCodec.TokensIncreasing | mcp_ical/caldav_client.py:394-409 | the parts come in the fixed order FREQ, INTERVAL, BYDAY, then UNTIL or COUNT |
| RecurrenceCodec.EncodeOrder | mcp_ical/caldav_client.py:394 | the encoding starts with `FREQ=<name>`, and its keys are strictly increasing in that order |
| RecurrenceCodec.DaysOfCodes | mcp_ical/caldav_client.py:399-403 | parsing the written day codes gives the weekday list back |
| RecurrenceCodec.DayCodeRoundTrip | mcp_ical/caldav_client.py:399-403 | each weekday's two-letter code reads back as that weekday |
| RecurrenceCodec.FrequencyRoundTrip | mcp_ical/caldav_client.py:394 | each frequency's name reads back as that frequency |
| RecurrenceCodec.IntervalRoundTrip | mcp_ical/caldav_client.py:396-397 | the interval reads back, including the omitted interval 1 |
| RecurrenceCodec.EndRoundTrip | mcp_ical/caldav_client.py:406-409 | for a valid rule, the end date and the count read back; a count of 0 reads back as none |
| RecurrenceCodec.DaysRoundTrip | mcp_ical/caldav_client.py:399-403 | the day list reads back, with an empty list read back as none |
| RecurrenceCodec.FromEncodedMap | mcp_ical/models.py:79-123 | building a rule from the key map the encoder writes gives the canonical form of any valid rule |
| RecurrenceCodec.RoundTrip | mcp_ical/caldav_client.py:385-411 | parsing the encoding of any valid rule gives that rule back, up to the two canonical forms (count 0 and empty day list become none); end dates are whole seconds (see Timestamps.DateTime under Left out) |
| RecurrenceCodec.RoundTripExact | mcp_ical/caldav_client.py:385-411 | a valid rule that is already canonical reads back exactly |
| Events.FromCaldavEvent | mcp_ical/models.py:145-252 | the loops that collect alarm offsets and attendee names give exactly the `Event` (or the error) of the specification function `EventOf` |
| Events.CollectAlarms | mcp_ical/models.py:191-205 | the alarm loop reads exactly the offsets of the specification function `AlarmOffsets`, in child order |
| Events.CollectAttendees | mcp_ical/models.py:218-223 | the attendee loop reads exactly the names of the specification function `AttendeeNames`, in child order (attendee names as if `cn` resolved; the code as written gives `attendees=None`, see Left out) |
| Events.DecodeFails | mcp_ical/models.py:166-169 | reading fails exactly when there is no VEVENT or the RRULE does not parse; no VEVENT gives that error |
| Events.DecodedFields | mcp_ical/models.py:171-243 | the title is the SUMMARY or "No Title"; all-day holds exactly when DTSTART has `VALUE=DATE`; the alarm and attendee lists are absent exactly when empty; the rule is the parsed RRULE; `has_alarms` is never set (attendee names as if `cn` resolved; the code as written gives `attendees=None`, see Left out) |
| Events.AlarmOffsetsAppend | mcp_ical/models.py:193-204 | alarm offsets are read child by child, in order |
| Events.AlarmOffsetsMembers | mcp_ical/models.py:193-204 | an offset is read exactly when some child is a VALARM whose trigger gives it |
| Events.AttendeeNamesMembers | mcp_ical/models.py:218-222 | a name is read exactly when some ATTENDEE child carries it as CN (attendee names as if `cn` resolved; the code as written gives `attendees=None`, see Left out) |
| Events.AlarmsReadBack | mcp_ical/models.py:198-204 | the alarms the client writes for a list of offsets read back as the non-negative offsets, in order (under the minute-only trigger text `-PT<m>M`; see Triggers.TriggerText under Left out) |
| Events.IdentifierFallback | mcp_ical/models.py:245 | the identifier is the id if truthy, else the URL if truthy, else the data fingerprint, and it is non-empty when the fingerprint is |
| CalDav.FirstMatch | mcp_ical/caldav_client.py:282-308 | the first record of a calendar that matches the id, with no earlier match, or none exactly when nothing matches |
| CalDav.LocateFrom | mcp_ical/caldav_client.py:274-318 | the first matching record over all calendars in order; calendars whose listing failed are skipped; none exactly when no calendar holds a match |
| CalDav.FindEventById | mcp_ical/caldav_client.py:265-318 | the nested scan returns the located record, or none exactly when no record matches |
| CalDav.FindEventCalendar | mcp_ical/caldav_client.py:347-383 | the nested scan returns the calendar of the located record, or none exactly when no record matches |
| CalDav.ScansAgree | mcp_ical/caldav_client.py:347-383 | on one snapshot the two scans agree: the calendar found for an id holds the record found for it, as its first match (a consequence of `LocateFrom`, stated for `update_event`'s second scan) |
| CalDav.NamedFrom | mcp_ical/caldav_client.py:339-345 | the first calendar with that name from a position on, or none exactly when there is none |
| CalDav.FindCalendarByName | mcp_ical/caldav_client.py:339-345 | the first calendar with the name, or none exactly when no calendar has it |
| CalDav.ListEvents | mcp_ical/caldav_client.py:43-98 | the loops over calendars and search results give exactly the specification function `Listed` |
| CalDav.DecodedAppend | mcp_ical/caldav_client.py:76-89 | events are collected record by record, in order |
| CalDav.DecodedLast | mcp_ical/caldav_client.py:76-89 | the last search result adds its event when it parses, and nothing otherwise |
| CalDav.CollectedAppend | mcp_ical/caldav_client.py:60-95 | events are collected calendar by calendar, in order |
| CalDav.BadRecordSkipped | mcp_ical/caldav_client.py:85-89 | a record that fails to parse contributes nothing and does not stop the listing |
| CalDav.FailedCalendarSkipped | mcp_ical/caldav_client.py:91-95 | a calendar whose search fails contributes nothing and does not stop the listing |
| CalDav.DecodedMembers | mcp_ical/caldav_client.py:76-89 | an event is listed exactly when some search result parses to it |
| CalDav.ListedByName | mcp_ical/caldav_client.py:52-56 | with a name, the listing fails with "not found" exactly when no calendar has the name; otherwise it holds only the first such calendar's events |
| CalDav.ListedAll | mcp_ical/caldav_client.py:52-56 | without a (truthy) name, every calendar is searched |
| CalDav.CreateTarget | mcp_ical/caldav_client.py:102-111 | a named calendar is used if it exists and is an error otherwise; without a name, the first calendar is used, or "no calendars" when there is none |
| CalDav.AddTextProps | mcp_ical/caldav_client.py:121-128 | DESCRIPTION, LOCATION and URL are added exactly for the truthy fields |
| CalDav.AddAlarms | mcp_ical/caldav_client.py:137-142 | one DISPLAY alarm is appended per offset, in order |
| CalDav.BuildEvent | mcp_ical/caldav_client.py:113-147 | the VEVENT built step by step is the specification component `BuildComponent` |
| CalDav.CreateEvent | mcp_ical/caldav_client.py:100-157 | the save plan (target calendar and component) or the error is the specification function `CreatePlan` |
| CalDav.NoAttendeesInAlarms | mcp_ical/caldav_client.py:137-142 | the alarms the client adds carry no attendees |
| CalDav.CreatedText | mcp_ical/caldav_client.py:118-128 | SUMMARY is the title; DESCRIPTION, LOCATION and URL are present exactly when their fields are truthy |
| CalDav.CreatedTimes | mcp_ical/caldav_client.py:119-134 | DTSTART and DTEND carry the request's times and have `VALUE=DATE` exactly when the event is all-day |
| CalDav.CreatedRule | mcp_ical/caldav_client.py:144-147 | the RRULE of a created event reads back as the canonical requested rule, and there is none when no rule is requested |
| CalDav.CreatedPropsReadBack | mcp_ical/caldav_client.py:117-147 | the created event reads back with the requested title, times, texts, all-day flag and canonical rule |
| CalDav.CreatedChildrenReadBack | mcp_ical/caldav_client.py:136-142 | the created event's alarms read back as the non-negative offsets, and it has no attendees (under the minute-only trigger text `-PT<m>M`; see Triggers.TriggerText under Left out) |
| CalDav.CreatedEventReadsBack | mcp_ical/caldav_client.py:113-153 | reading back a created event gives the requested title, times, texts and all-day flag; its alarms are the non-negative offsets; its rule is the canonical requested rule; it has no attendees (under the minute-only trigger text `-PT<m>M`; see Triggers.TriggerText under Left out) |
| CalDav.AssignIfGiven | mcp_ical/caldav_client.py:186-197 | an optional field is assigned when given, and fails when the property is missing |
| CalDav.AssignStep | mcp_ical/caldav_client.py:186-197 | one assignment on the live VEVENT advances the run of assignments by one step, or is the run's failure |
| CalDav.AssignValues | mcp_ical/caldav_client.py:186-197 | the six scalar assignments agree with the specification function `AssignAll`, failure included |
| CalDav.MarkDates | mcp_ical/caldav_client.py:198-205 | the all-day flag sets both VALUE parameters to DATE or DATETIME, and fails when DTSTART or DTEND is missing |
| CalDav.ReplaceAlarms | mcp_ical/caldav_client.py:207-219 | given offsets replace every VALARM with new DISPLAY alarms described by the current SUMMARY |
| CalDav.ReplaceRule | mcp_ical/caldav_client.py:221-228 | a given rule replaces any RRULE with its encoding |
| CalDav.EditEvent | mcp_ical/caldav_client.py:185-228 | the in-place edit gives exactly the specification function `Patch` |
| CalDav.UpdateEvent | mcp_ical/caldav_client.py:159-248 | lookup, edit, move, save and the success message give exactly the specification function `UpdatePlan` |
| CalDav.DeleteEvent | mcp_ical/caldav_client.py:250-263 | the located record is deleted, and "not found" is reported exactly when no record matches |
| CalDav.AssignIfStep | mcp_ical/caldav_client.py:186-197 | one guarded assignment fails exactly when a value is given for a missing property; otherwise it writes that value alone, keeping its VALUE parameter, the other properties and the children |
| CalDav.AssignEachShape | mcp_ical/caldav_client.py:186-197 | a run of guarded assignments fails exactly when one of them gives a value for a missing property, and the error names the first such property; otherwise it keeps the property names, their VALUE parameters and the children |
| CalDav.AssignEachFrame | mcp_ical/caldav_client.py:186-197 | a property that no assignment gives a value to is left as it was |
| CalDav.AssignEachWrites | mcp_ical/caldav_client.py:186-197 | an assignment that no later one overrides leaves its value in the property |
| CalDav.AssignmentsDistinct | mcp_ical/caldav_client.py:186-197 | the six assignments target six different properties |
| CalDav.AssignAllKeys | mcp_ical/caldav_client.py:186-197 | the scalar assignments succeed exactly when every given field's property exists, fail with the first missing property in assignment order otherwise, add no property and keep the children |
| CalDav.PatchFails | mcp_ical/caldav_client.py:186-219 | the edit fails exactly when a given field names a missing property, including the SUMMARY that a non-empty alarm list reads; the error names the first missing property in the order the code reads them: SUMMARY, DTSTART, DTEND, LOCATION, DESCRIPTION, URL, then DTSTART and DTEND for the all-day flag, then SUMMARY for the alarms |
| CalDav.AssignAllFrame | mcp_ical/caldav_client.py:186-197 | the scalar assignments leave every property they do not name unchanged |
| CalDav.PatchFrame | mcp_ical/caldav_client.py:185-228 | the edit leaves every untouched property unchanged, and the children unchanged when no alarms are given |
| CalDav.AssignAllWrites | mcp_ical/caldav_client.py:186-197 | each given scalar field is written to its property |
| CalDav.DatesIfKeeps | mcp_ical/caldav_client.py:198-205 | the all-day flag changes only the VALUE parameters of DTSTART and DTEND |
| CalDav.RuleIfKeeps | mcp_ical/caldav_client.py:221-228 | a given rule changes only RRULE, which then holds the encoded rule; without one nothing changes |
| CalDav.PatchWrites | mcp_ical/caldav_client.py:185-228 | after the edit, each given field is in its property, the VALUE parameters follow the all-day flag, and a given rule is the RRULE |
| CalDav.PatchAlarms | mcp_ical/caldav_client.py:207-219 | with new offsets, the children are the old non-alarm children followed by one alarm per offset, described by the updated title |
| CalDav.NoOffsetsWithoutAlarms | mcp_ical/caldav_client.py:208-211 | once the alarms are removed, no alarm offset can be read |
| CalDav.PatchedAlarmsReadBack | mcp_ical/caldav_client.py:207-219 | after an update with offsets, the event's alarms read back as exactly the non-negative offsets (under the minute-only trigger text `-PT<m>M`; see Triggers.TriggerText under Left out) |
| CalDav.UpdateNotFound | mcp_ical/caldav_client.py:161-163 | an update reports "not found" exactly when no record matches the id |
| CalDav.UpdateTarget | mcp_ical/caldav_client.py:230-238 | an update saves to the event's own calendar; it moves the event, deleting the old record, only to a differently named calendar that exists; it fails when the named calendar is missing |
| CalDav.UpdateRaisesAfterSave | mcp_ical/caldav_client.py:230-248 | the save happens exactly when the VEVENT is edited and its destination exists; after the save the call still raises (missing SUMMARY) exactly when no title is given and the stored VEVENT has no SUMMARY, because the success message reads it |
| CalDav.EncodedIdResolves | mcp_ical/caldav_client.py:270-292 | the id `A%20B` finds the event stored as `A B` |
| CalDav.EmptyUrlNeverMatches | mcp_ical/caldav_client.py:297 | a record with no id and an empty URL matches no id |
| CalDav.AllDayWithReminders | test_calendar_manager_integration.py:240-268 | an all-day event created with reminders 5760 and 2880 reads back as all-day with exactly those offsets (under the minute-only trigger text `-PT<m>M`; see Triggers.TriggerText under Left out) |

## Left out

- The CalDAV server and the network are not modelled. `calendars()`, `events()` and `search()` are input snapshots. `save_event` and `delete` become the returned plan (`Save`), which names the target calendar, the component and the deleted record.
- The decode of the server's reply after a save is not modelled. Create and update return the plan, and `CreatedEventReadsBack` states what reading the saved component gives.
- The time window of `search` is not modelled. Each calendar carries the search result for the window.
- `update_event` asks the server twice, once per scan, and the model uses one snapshot for both. Because of that, its "Could not find calendar for event" branch cannot be reached in the model (`ScansAgree`).
- `_get_all_calendars` returns `[]` when listing fails. An empty calendars input covers that case.
- `list_calendar_names`, `__init__` and `_connect` are not modelled. They only query or configure the connection.
- `config.py`, `server.py` and `ical.py` are not part of this model.
- `convert_datetime`, time zones and `datetime.fromisoformat` are not modelled. Date-times are plain calendar fields.
- Logging is not modelled, apart from the read of the SUMMARY in `update_event`'s success message, which can raise.
- The `hash` fingerprint of the data is abstract, an input string.
- Text.ParseInt: accepts an optional `-` or `+` sign and ASCII digits only. It does not model `int()` accepting surrounding whitespace or `_`.
- Text.Unquote: decodes `%XX` to the single character with that code. UTF-8 sequences are not decoded, so non-ASCII escapes are not modelled.
- Timestamps.ParseUtc: accepts only the zero-padded form. `strptime` also accepts unpadded fields. A lower-case `z` or `t` is accepted, as `strptime` ignores case.
- Timestamps.DateTime: date-times are whole seconds; microseconds are not modelled. `strftime("%Y%m%dT%H%M%SZ")` drops them, so in the code an `end_date` with non-zero microseconds does not read back as itself; Timestamps.UtcRoundTrip and RecurrenceCodec.RoundTrip hold for whole-second date-times only.
- Timestamps.ParseDate: accepts only 8 zero-padded digits. `strptime("%Y%m%d")` also accepts unpadded fields, so `UNTIL=2024123` is 2024-12-03 in the code and gives no end date in the model.
- Timestamps.Pad: years are written as exactly 4 digits, so `strftime` output for years below 1000 is not modelled.
- Triggers.TriggerText: the model assumes the minute-only trigger text `-PT<m>M` (`PT<m>M` for a negative offset) on both the write and the read side. vobject does not store that text. It writes the `timedelta` as an RFC 5545 duration: `-P2D` for 2880 minutes, `-P4D` for 5760, `-PT1H30M` for 90 (which the pattern would read as 60) and `PT0S` for 0. On reading, vobject turns TRIGGER back into a `timedelta`, whose `str()` (`-2 days, 0:00:00`) the pattern `-PT(\d+)([HM])` never matches. So the code as written reads no alarm offsets back. Events.AlarmsReadBack, CalDav.CreatedChildrenReadBack, CalDav.CreatedEventReadsBack, CalDav.PatchedAlarmsReadBack and CalDav.AllDayWithReminders hold only under this assumption.
- Triggers.DigitRun: `\d` is read as the ASCII digits `0`-`9`. Python's `\d` and `int()` also accept other Unicode decimal digits, which the model does not; the same holds for Triggers.DecodeTrigger and Text.ParseInt.
- Records.VEvent.Add: requires the property to be absent. vobject's multi-valued properties are not modelled, and every property that create adds is new.
- Events.CollectAttendees, Events.AttendeeNamesMembers and Events.DecodedFields: an ATTENDEE's CN is taken as the child's `cn` value. vobject's content lines expose parameters only under names ending in `_param` or `_paramlist` (the CN is `attendee.cn_param`), so `hasattr(attendee, 'cn')` at mcp_ical/models.py:222 is false for every ATTENDEE, and the code as written always returns `attendees=None`. These three members describe the names the loop would read if `cn` resolved; vobject's lookup is not part of this model.
- Errors raised from inside vobject or pydantic, other than the ones named in `Failure`, `DecodeError` and `RuleError`, are not modelled.
