/** Recurrence rules: the `RecurrenceRule` model with its construction-time
    validation, the encoder that writes it as an RRULE value (the RECUR value
    type of section 3.3.10 of RFC 5545, restricted to FREQ, INTERVAL, BYDAY,
    UNTIL and COUNT) and the lenient parser that reads such a value back. */
module Recurrence {
  import opened Wrappers
  import opened Text
  import opened Timestamps

  /** `Frequency`, an `IntEnum` numbered 0 to 3. */
  datatype Frequency = Daily | Weekly | Monthly | Yearly

  /** `Weekday`, an `IntEnum` numbered 1 (Sunday) to 7 (Saturday). */
  datatype Weekday = Sunday | Monday | Tuesday | Wednesday | Thursday | Friday | Saturday

  function WeekdayNumber(w: Weekday): (n: nat)
    ensures 1 <= n <= 7
  {
    match w
    case Sunday => 1
    case Monday => 2
    case Tuesday => 3
    case Wednesday => 4
    case Thursday => 5
    case Friday => 6
    case Saturday => 7
  }

  datatype RecurrenceRule = RecurrenceRule(
    frequency: Frequency,
    interval: int,
    endDate: Option<DateTime>,
    occurrenceCount: Option<int>,
    daysOfWeek: Option<seq<Weekday>>)

  /** What every constructed `RecurrenceRule` satisfies: the field constraint
      `interval >= 1`, the end-condition validator, and a real date-time. */
  predicate IsValid(r: RecurrenceRule) {
    && r.interval >= 1
    && !(r.endDate.Some? && r.occurrenceCount.Some?)
    && (r.endDate.Some? ==> Valid(r.endDate.value))
  }

  datatype RuleError =
    | NotAnInteger(text: string)   // `int()` raised
    | IntervalBelowOne             // the `ge=1` field constraint failed
    | BothEndConditions            // `validate_end_conditions` raised

  /** Constructing a `RecurrenceRule`: the field constraint is checked before
      the model validator. */
  function NewRule(frequency: Frequency, interval: int, endDate: Option<DateTime>,
                   occurrenceCount: Option<int>, daysOfWeek: Option<seq<Weekday>>)
    : (r: Result<RecurrenceRule, RuleError>)
    ensures r.Ok? <==> interval >= 1 && !(endDate.Some? && occurrenceCount.Some?)
    ensures r.Ok? ==> r.value == RecurrenceRule(frequency, interval, endDate, occurrenceCount, daysOfWeek)
    ensures interval < 1 ==> r == Err(IntervalBelowOne)
    ensures interval >= 1 && endDate.Some? && occurrenceCount.Some? ==> r == Err(BothEndConditions)
  {
    if interval < 1 then Err(IntervalBelowOne)
    else if endDate.Some? && occurrenceCount.Some? then Err(BothEndConditions)
    else Ok(RecurrenceRule(frequency, interval, endDate, occurrenceCount, daysOfWeek))
  }

  // ---------------------------------------------------------------------------
  // Encoder

  function FrequencyName(f: Frequency): string {
    match f
    case Daily => "DAILY"
    case Weekly => "WEEKLY"
    case Monthly => "MONTHLY"
    case Yearly => "YEARLY"
  }

  /** The two-letter BYDAY token of a weekday. */
  function DayCode(w: Weekday): string {
    match w
    case Sunday => "SU"
    case Monday => "MO"
    case Tuesday => "TU"
    case Wednesday => "WE"
    case Thursday => "TH"
    case Friday => "FR"
    case Saturday => "SA"
  }

  function DayCodes(days: seq<Weekday>): (codes: seq<string>)
    ensures |codes| == |days|
    ensures forall k :: 0 <= k < |days| ==> codes[k] == DayCode(days[k])
  {
    seq(|days|, k requires 0 <= k < |days| => DayCode(days[k]))
  }

  /** A `KEY=value` piece. */
  function Token(key: string, value: string): string
  {
    key + "=" + value
  }

  /** The INTERVAL part, written only for an interval above 1. */
  function IntervalPart(r: RecurrenceRule): seq<string>
  {
    if r.interval > 1 then [Token("INTERVAL", IntToString(r.interval))] else []
  }

  /** The BYDAY part, written only for a non-empty weekday list. */
  function DaysPart(r: RecurrenceRule): seq<string>
  {
    if r.daysOfWeek.Some? && r.daysOfWeek.value != []
    then [Token("BYDAY", Join(DayCodes(r.daysOfWeek.value), ','))]
    else []
  }

  /** The end condition: UNTIL when there is an end date, otherwise COUNT
      when the count is set and non-zero. */
  function EndPart(r: RecurrenceRule): seq<string>
  {
    if r.endDate.Some? then [Token("UNTIL", FormatUtc(r.endDate.value))]
    else if r.occurrenceCount.Some? && r.occurrenceCount.value != 0
    then [Token("COUNT", IntToString(r.occurrenceCount.value))]
    else []
  }

  /** The `parts` list of `_recurrence_rule_to_ical`, in the order it is built. */
  function RuleTokens(r: RecurrenceRule): seq<string>
  {
    [Token("FREQ", FrequencyName(r.frequency))] + IntervalPart(r) + DaysPart(r) + EndPart(r)
  }

  /** `_recurrence_rule_to_ical`: the rule as an RRULE value. */
  function Encode(r: RecurrenceRule): string
  {
    Join(RuleTokens(r), ';')
  }

  // ---------------------------------------------------------------------------
  // Parser

  /** One step of the `parts` dictionary loop: a part without `=` is ignored,
      otherwise its key is (re)bound to the text after the first `=`. */
  function AddPart(parts: map<string, string>, part: string): map<string, string>
  {
    if '=' in part then
      var kv := SplitOnce(part, '=');
      parts[kv.0 := kv.1]
    else
      parts
  }

  /** The `parts` dictionary built from the `;`-separated pieces, left to right. */
  function PartsOf(pieces: seq<string>): map<string, string>
  {
    if pieces == [] then map[]
    else AddPart(PartsOf(pieces[..|pieces| - 1]), pieces[|pieces| - 1])
  }

  /** `d.get(key, default)`. */
  function Get(parts: map<string, string>, key: string, default: string): string
  {
    if key in parts then parts[key] else default
  }

  /** `frequency_map.get(name, 0)`: unknown names read as DAILY. */
  function FrequencyOf(name: string): Frequency
  {
    if name == "WEEKLY" then Weekly
    else if name == "MONTHLY" then Monthly
    else if name == "YEARLY" then Yearly
    else Daily
  }

  function WeekdayOf(code: string): Option<Weekday>
  {
    if code == "SU" then Some(Sunday)
    else if code == "MO" then Some(Monday)
    else if code == "TU" then Some(Tuesday)
    else if code == "WE" then Some(Wednesday)
    else if code == "TH" then Some(Thursday)
    else if code == "FR" then Some(Friday)
    else if code == "SA" then Some(Saturday)
    else None
  }

  /** The recognised weekdays among the BYDAY tokens, in their order. */
  function DaysOf(codes: seq<string>): seq<Weekday>
  {
    if codes == [] then []
    else
      var init := DaysOf(codes[..|codes| - 1]);
      match WeekdayOf(codes[|codes| - 1])
      case Some(w) => init + [w]
      case None => init
  }

  function IntegerOf(text: string): Result<int, RuleError>
  {
    match ParseInt(text)
    case Some(n) => Ok(n)
    case None => Err(NotAnInteger(text))
  }

  /** The UNTIL value: the UTC form when it holds a `T`, else a plain date;
      `None` when `strptime` raises. */
  function ParseUntil(text: string): Option<DateTime>
  {
    if 'T' in text then ParseUtc(text) else ParseDate(text)
  }

  /** COUNT is read only when there is no UNTIL key. */
  function CountOf(parts: map<string, string>): Result<Option<int>, RuleError>
  {
    if "UNTIL" !in parts && "COUNT" in parts then
      var n :- IntegerOf(parts["COUNT"]);
      Ok(Some(n))
    else
      Ok(None)
  }

  function DaysField(parts: map<string, string>): Option<seq<Weekday>>
  {
    if "BYDAY" in parts then
      var days := DaysOf(Split(parts["BYDAY"], ','));
      if days == [] then None else Some(days)
    else
      None
  }

  /** The rule the parsed dictionary describes. */
  function FromParts(parts: map<string, string>): Result<RecurrenceRule, RuleError>
  {
    var frequency := FrequencyOf(Get(parts, "FREQ", "DAILY"));
    var interval :- IntegerOf(Get(parts, "INTERVAL", "1"));
    var endDate := if "UNTIL" in parts then ParseUntil(parts["UNTIL"]) else None;
    var count :- CountOf(parts);
    NewRule(frequency, interval, endDate, count, DaysField(parts))
  }

  /** `RecurrenceRule.from_ical_string`, as a function of its input. */
  function DecodeRule(s: string): Result<RecurrenceRule, RuleError>
  {
    FromParts(PartsOf(Split(s, ';')))
  }

  /** `RecurrenceRule.from_ical_string`: the `parts` loop and the `days` loop. */
  method FromIcalString(s: string) returns (r: Result<RecurrenceRule, RuleError>)
    ensures r == DecodeRule(s)
  {
    var pieces := Split(s, ';');
    var parts: map<string, string> := map[];
    var i := 0;
    while i < |pieces|
      invariant 0 <= i <= |pieces|
      invariant parts == PartsOf(pieces[..i])
    {
      var part := pieces[i];
      if '=' in part {
        var kv := SplitOnce(part, '=');
        parts := parts[kv.0 := kv.1];
      }
      assert pieces[..i + 1][..i] == pieces[..i];
      i := i + 1;
    }
    assert pieces[..i] == pieces;

    var frequency := FrequencyOf(Get(parts, "FREQ", "DAILY"));
    var interval := ParseInt(Get(parts, "INTERVAL", "1"));
    if interval.None? {
      return Err(NotAnInteger(Get(parts, "INTERVAL", "1")));
    }

    var endDate: Option<DateTime> := None;
    var count: Option<int> := None;
    if "UNTIL" in parts {
      endDate := ParseUntil(parts["UNTIL"]);
    } else if "COUNT" in parts {
      var n := ParseInt(parts["COUNT"]);
      if n.None? {
        return Err(NotAnInteger(parts["COUNT"]));
      }
      count := Some(n.value);
    }

    var daysOfWeek: Option<seq<Weekday>> := None;
    if "BYDAY" in parts {
      var codes := Split(parts["BYDAY"], ',');
      var days: seq<Weekday> := [];
      var j := 0;
      while j < |codes|
        invariant 0 <= j <= |codes|
        invariant days == DaysOf(codes[..j])
      {
        var w := WeekdayOf(codes[j]);
        if w.Some? {
          days := days + [w.value];
        }
        assert codes[..j + 1][..j] == codes[..j];
        j := j + 1;
      }
      assert codes[..j] == codes;
      if days != [] {
        daysOfWeek := Some(days);
      }
    }

    r := NewRule(frequency, interval.value, endDate, count, daysOfWeek);
  }

  // ---------------------------------------------------------------------------
  // Properties of the parser

  lemma PartsOfSnoc(pieces: seq<string>, part: string)
    ensures PartsOf(pieces + [part]) == AddPart(PartsOf(pieces), part)
  {
    assert (pieces + [part])[..|pieces|] == pieces;
  }

  /** A `KEY=value` piece binds `KEY` to `value` and leaves the other keys alone. */
  lemma AddKeyValue(parts: map<string, string>, key: string, value: string)
    requires '=' !in key
    ensures AddPart(parts, Token(key, value)) == parts[key := value]
  {
    assert key + "=" + value == key + ['='] + value;
    SplitOnceOf(key, '=', value);
  }

  /** A later duplicate key overrides an earlier one. */
  lemma LaterKeyWins(pieces: seq<string>, key: string, value: string)
    requires '=' !in key
    ensures key in PartsOf(pieces + [Token(key, value)])
    ensures PartsOf(pieces + [Token(key, value)])[key] == value
  {
    PartsOfSnoc(pieces, Token(key, value));
    AddKeyValue(PartsOf(pieces), key, value);
  }

  /** The keys `from_ical_string` looks at. */
  predicate IsKnownKey(key: string) {
    key in {"FREQ", "INTERVAL", "UNTIL", "COUNT", "BYDAY"}
  }

  /** Whether a `;`-piece can bind one of the keys the parser reads. */
  predicate BindsKnownKey(piece: string) {
    '=' in piece && IsKnownKey(SplitOnce(piece, '=').0)
  }

  /** A leading piece that binds no known key has no effect on the known keys. */
  lemma {:induction false} PartsIgnorePiece(piece: string, pieces: seq<string>, key: string)
    requires !BindsKnownKey(piece) && IsKnownKey(key)
    ensures key in PartsOf([piece] + pieces) <==> key in PartsOf(pieces)
    ensures key in PartsOf(pieces) ==> PartsOf([piece] + pieces)[key] == PartsOf(pieces)[key]
  {
    if pieces == [] {
      assert PartsOf([piece]) == AddPart(PartsOf([]), piece) by {
        assert [piece][..0] == [];
      }
    } else {
      var init := pieces[..|pieces| - 1];
      var last := pieces[|pieces| - 1];
      PartsIgnorePiece(piece, init, key);
      assert [piece] + pieces == ([piece] + init) + [last];
      PartsOfSnoc([piece] + init, last);
      PartsOfSnoc(init, last);
      assert pieces == init + [last];
    }
  }

  /** Two key maps that agree on the known keys build the same rule. */
  lemma FromPartsKnown(p1: map<string, string>, p2: map<string, string>)
    requires forall key :: IsKnownKey(key) ==> (key in p1 <==> key in p2) && (key in p2 ==> p1[key] == p2[key])
    ensures FromParts(p1) == FromParts(p2)
  {
    assert IsKnownKey("FREQ") && IsKnownKey("INTERVAL") && IsKnownKey("UNTIL");
    assert IsKnownKey("COUNT") && IsKnownKey("BYDAY");
    assert Get(p1, "FREQ", "DAILY") == Get(p2, "FREQ", "DAILY");
    assert Get(p1, "INTERVAL", "1") == Get(p2, "INTERVAL", "1");
    assert CountOf(p1) == CountOf(p2);
    assert DaysField(p1) == DaysField(p2);
  }

  /** Unknown keys (and pieces without `=`) are ignored: putting one in front
      of a rule changes nothing. */
  lemma UnknownPieceIgnored(piece: string, s: string)
    requires ';' !in piece && !BindsKnownKey(piece)
    ensures DecodeRule(piece + ";" + s) == DecodeRule(s)
  {
    assert piece + ";" + s == piece + [';'] + s;
    SplitCons(piece, s, ';');
    var pieces := Split(s, ';');
    var p1 := PartsOf([piece] + pieces);
    var p2 := PartsOf(pieces);
    forall key | IsKnownKey(key)
      ensures (key in p1 <==> key in p2) && (key in p2 ==> p1[key] == p2[key])
    {
      PartsIgnorePiece(piece, pieces, key);
    }
    FromPartsKnown(p1, p2);
  }

  /** Every rule the parser accepts is a valid rule: interval at least 1, never
      both end conditions, and a real date-time for UNTIL. */
  lemma DecodedRuleIsValid(s: string)
    requires DecodeRule(s).Ok?
    ensures IsValid(DecodeRule(s).value)
  {
    var parts := PartsOf(Split(s, ';'));
    if "UNTIL" in parts {
      var text := parts["UNTIL"];
      assert ParseUntil(text).Some? ==> Valid(ParseUntil(text).value);
    }
  }

  /** How the parser fills each field from the dictionary: a missing or
      unknown FREQ reads as DAILY, a missing INTERVAL as 1, and a non-integer
      INTERVAL fails; UNTIL, when its key is present, is the parsed date or
      nothing, and then COUNT is never read; a non-integer COUNT fails; and
      BYDAY without a recognised day reads as no days at all. */
  lemma ParsedFields(s: string)
    ensures var p := PartsOf(Split(s, ';'));
      var r := DecodeRule(s);
      && (ParseInt(Get(p, "INTERVAL", "1")).None? ==> r == Err(NotAnInteger(Get(p, "INTERVAL", "1"))))
      && (&& ParseInt(Get(p, "INTERVAL", "1")).Some?
          && "UNTIL" !in p && "COUNT" in p && ParseInt(p["COUNT"]).None?
          ==> r == Err(NotAnInteger(p["COUNT"])))
      && (r.Ok? && ("FREQ" !in p || p["FREQ"] !in {"WEEKLY", "MONTHLY", "YEARLY"}) ==> r.value.frequency == Daily)
      && (r.Ok? && "INTERVAL" !in p ==> r.value.interval == 1)
      && (r.Ok? && "UNTIL" in p ==> r.value.endDate == ParseUntil(p["UNTIL"]) && r.value.occurrenceCount.None?)
      && (r.Ok? && "UNTIL" !in p ==> r.value.endDate.None?)
      && (r.Ok? && "BYDAY" in p ==> r.value.daysOfWeek == (if DaysOf(Split(p["BYDAY"], ',')) == [] then None else Some(DaysOf(Split(p["BYDAY"], ',')))))
      && (r.Ok? ==> r.value.daysOfWeek != Some([]))
  {
    assert ParseInt("1") == Some(1);
  }

  /** A weekday is read from BYDAY exactly when one of its tokens is that
      day's code; every other token is dropped. */
  lemma {:induction false} DaysOfMembers(codes: seq<string>, w: Weekday)
    ensures w in DaysOf(codes) <==> exists k :: 0 <= k < |codes| && WeekdayOf(codes[k]) == Some(w)
  {
    if codes != [] {
      var init := codes[..|codes| - 1];
      DaysOfMembers(init, w);
      if exists k :: 0 <= k < |codes| && WeekdayOf(codes[k]) == Some(w) {
        var k :| 0 <= k < |codes| && WeekdayOf(codes[k]) == Some(w);
        if k < |init| {
          assert init[k] == codes[k];
        }
      }
      if exists k :: 0 <= k < |init| && WeekdayOf(init[k]) == Some(w) {
        var k :| 0 <= k < |init| && WeekdayOf(init[k]) == Some(w);
        assert codes[k] == init[k];
      }
    }
  }

  /** The days keep the order of their tokens. */
  lemma {:induction false} DaysOfAppend(a: seq<string>, b: seq<string>)
    ensures DaysOf(a + b) == DaysOf(a) + DaysOf(b)
    decreases |b|
  {
    if b == [] {
      assert a + b == a;
    } else {
      var b' := b[..|b| - 1];
      assert (a + b)[..|a + b| - 1] == a + b';
      DaysOfAppend(a, b');
    }
  }
}
