/** What `_recurrence_rule_to_ical` writes, stated as what the parser of
    `from_ical_string` reads from it, and the round trip between the two. */
module RecurrenceCodec {
  import opened Wrappers
  import opened Text
  import opened Timestamps
  import opened Recurrence

  /** No piece of the list holds `c`. */
  predicate Avoids(pieces: seq<string>, c: char) {
    forall k :: 0 <= k < |pieces| ==> c !in pieces[k]
  }

  lemma AvoidsAppend(a: seq<string>, b: seq<string>, c: char)
    requires Avoids(a, c) && Avoids(b, c)
    ensures Avoids(a + b, c)
  {
    forall k | 0 <= k < |a + b|
      ensures c !in (a + b)[k]
    {
      if k >= |a| {
        assert (a + b)[k] == b[k - |a|];
      }
    }
  }

  /** The UNTIL date is digits around `T` and `Z`, so it has no `;`. */
  lemma EndAvoids(r: RecurrenceRule)
    ensures Avoids(EndPart(r), ';')
  {
    if r.endDate.Some? {
      var d := r.endDate.value;
      DigitsAvoid(Pad(d.year, 4), ';');
      DigitsAvoid(Pad(d.month, 2), ';');
      DigitsAvoid(Pad(d.day, 2), ';');
      DigitsAvoid(Pad(d.hour, 2), ';');
      DigitsAvoid(Pad(d.minute, 2), ';');
      DigitsAvoid(Pad(d.second, 2), ';');
    } else if r.occurrenceCount.Some? && ';' in IntToString(r.occurrenceCount.value) {
      IntToStringChars(r.occurrenceCount.value, ';');
    }
  }

  /** FREQ, INTERVAL and BYDAY hold no `;`: names, digits and day codes. */
  lemma HeadAvoids(r: RecurrenceRule)
    ensures Avoids([Token("FREQ", FrequencyName(r.frequency))], ';')
    ensures Avoids(IntervalPart(r), ';')
    ensures Avoids(DaysPart(r), ';')
  {
    if ';' in IntToString(r.interval) {
      IntToStringChars(r.interval, ';');
    }
    if r.daysOfWeek.Some? {
      JoinAvoids(DayCodes(r.daysOfWeek.value), ',', ';');
    }
  }

  lemma NoSeparatorInTokens(r: RecurrenceRule)
    ensures Avoids(RuleTokens(r), ';')
  {
    var freq := [Token("FREQ", FrequencyName(r.frequency))];
    HeadAvoids(r);
    EndAvoids(r);
    AvoidsAppend(freq, IntervalPart(r), ';');
    AvoidsAppend(freq + IntervalPart(r), DaysPart(r), ';');
    AvoidsAppend(freq + IntervalPart(r) + DaysPart(r), EndPart(r), ';');
  }

  /** The encoded rule splits back into the encoder's pieces. */
  lemma EncodedPieces(r: RecurrenceRule)
    ensures Split(Encode(r), ';') == RuleTokens(r)
  {
    NoSeparatorInTokens(r);
    SplitJoin(RuleTokens(r), ';');
  }

  lemma PartsOfOptional(pieces: seq<string>, opt: seq<string>, key: string, value: string)
    requires opt == [] || opt == [Token(key, value)]
    requires '=' !in key
    ensures PartsOf(pieces + opt) == if opt == [] then PartsOf(pieces) else PartsOf(pieces)[key := value]
  {
    if opt == [] {
      assert pieces + opt == pieces;
    } else {
      PartsOfSnoc(pieces, Token(key, value));
      AddKeyValue(PartsOf(pieces), key, value);
    }
  }

  function HasDays(r: RecurrenceRule): bool {
    r.daysOfWeek.Some? && r.daysOfWeek.value != []
  }

  function HasCount(r: RecurrenceRule): bool {
    r.endDate.None? && r.occurrenceCount.Some? && r.occurrenceCount.value != 0
  }

  /** The parser's dictionary for an encoded rule, key by key. */
  function HeadMap(r: RecurrenceRule): map<string, string>
  {
    var m0 := map["FREQ" := FrequencyName(r.frequency)];
    var m1 := if r.interval > 1 then m0["INTERVAL" := IntToString(r.interval)] else m0;
    if HasDays(r) then m1["BYDAY" := Join(DayCodes(r.daysOfWeek.value), ',')] else m1
  }

  function EncodedMap(r: RecurrenceRule): map<string, string>
  {
    var head := HeadMap(r);
    if r.endDate.Some? then head["UNTIL" := FormatUtc(r.endDate.value)]
    else if HasCount(r) then head["COUNT" := IntToString(r.occurrenceCount.value)]
    else head
  }

  /** The dictionary of the pieces before the end condition. */
  lemma PartsOfHead(r: RecurrenceRule)
    ensures PartsOf([Token("FREQ", FrequencyName(r.frequency))] + IntervalPart(r) + DaysPart(r)) == HeadMap(r)
  {
    var freq := [Token("FREQ", FrequencyName(r.frequency))];
    var byday := if HasDays(r) then Join(DayCodes(r.daysOfWeek.value), ',') else "";
    PartsOfOptional([], freq, "FREQ", FrequencyName(r.frequency));
    assert [] + freq == freq;
    PartsOfOptional(freq, IntervalPart(r), "INTERVAL", IntToString(r.interval));
    PartsOfOptional(freq + IntervalPart(r), DaysPart(r), "BYDAY", byday);
  }

  lemma PartsOfEncoded(r: RecurrenceRule)
    ensures PartsOf(Split(Encode(r), ';')) == EncodedMap(r)
  {
    EncodedPieces(r);
    PartsOfHead(r);
    var head := [Token("FREQ", FrequencyName(r.frequency))] + IntervalPart(r) + DaysPart(r);
    if r.endDate.Some? {
      PartsOfOptional(head, EndPart(r), "UNTIL", FormatUtc(r.endDate.value));
    } else {
      var count := if r.occurrenceCount.Some? then IntToString(r.occurrenceCount.value) else "";
      PartsOfOptional(head, EndPart(r), "COUNT", count);
    }
  }

  /** The five keys the encoder writes are distinct. */
  lemma KeysDistinct()
    ensures "FREQ" != "INTERVAL" && "FREQ" != "BYDAY" && "FREQ" != "UNTIL" && "FREQ" != "COUNT"
    ensures "INTERVAL" != "BYDAY" && "INTERVAL" != "UNTIL" && "INTERVAL" != "COUNT"
    ensures "BYDAY" != "UNTIL" && "BYDAY" != "COUNT" && "UNTIL" != "COUNT"
  {
    assert "BYDAY"[0] == 'B' && "UNTIL"[0] == 'U' && "COUNT"[0] == 'C';
  }

  /** The dictionary `EncodedMap` holds, key by key. */
  lemma EncodedMapKeys(r: RecurrenceRule)
    ensures var p := EncodedMap(r);
      && p.Keys <= {"FREQ", "INTERVAL", "BYDAY", "UNTIL", "COUNT"}
      && "FREQ" in p && p["FREQ"] == FrequencyName(r.frequency)
      && ("INTERVAL" in p <==> r.interval > 1)
      && ("INTERVAL" in p ==> p["INTERVAL"] == IntToString(r.interval))
      && ("BYDAY" in p <==> HasDays(r))
      && ("BYDAY" in p ==> p["BYDAY"] == Join(DayCodes(r.daysOfWeek.value), ','))
      && ("UNTIL" in p <==> r.endDate.Some?)
      && ("UNTIL" in p ==> p["UNTIL"] == FormatUtc(r.endDate.value))
      && ("COUNT" in p <==> HasCount(r))
      && ("COUNT" in p ==> p["COUNT"] == IntToString(r.occurrenceCount.value))
  {
    KeysDistinct();
  }

  /** The BYDAY value splits back into the day codes. */
  lemma EncodedDays(r: RecurrenceRule)
    requires HasDays(r)
    ensures "BYDAY" in EncodedMap(r)
    ensures Split(EncodedMap(r)["BYDAY"], ',') == DayCodes(r.daysOfWeek.value)
  {
    EncodedMapKeys(r);
    SplitJoin(DayCodes(r.daysOfWeek.value), ',');
  }

  /** What the parser's dictionary holds for an encoded rule: FREQ always;
      INTERVAL exactly when the interval exceeds 1; BYDAY exactly when there
      are weekdays, holding their two-letter codes in order; UNTIL exactly when
      there is an end date; COUNT exactly when there is no end date and the
      count is set and non-zero; and no other key. */
  lemma EncodedParts(r: RecurrenceRule)
    ensures var p := PartsOf(Split(Encode(r), ';'));
      && p.Keys <= {"FREQ", "INTERVAL", "BYDAY", "UNTIL", "COUNT"}
      && "FREQ" in p && p["FREQ"] == FrequencyName(r.frequency)
      && ("INTERVAL" in p <==> r.interval > 1)
      && ("INTERVAL" in p ==> p["INTERVAL"] == IntToString(r.interval))
      && ("BYDAY" in p <==> r.daysOfWeek.Some? && r.daysOfWeek.value != [])
      && ("BYDAY" in p ==> Split(p["BYDAY"], ',') == DayCodes(r.daysOfWeek.value))
      && ("UNTIL" in p <==> r.endDate.Some?)
      && ("UNTIL" in p ==> p["UNTIL"] == FormatUtc(r.endDate.value))
      && ("COUNT" in p <==> r.endDate.None? && r.occurrenceCount.Some? && r.occurrenceCount.value != 0)
      && ("COUNT" in p ==> p["COUNT"] == IntToString(r.occurrenceCount.value))
  {
    PartsOfEncoded(r);
    EncodedMapKeys(r);
    if HasDays(r) {
      EncodedDays(r);
    }
  }

  /** The rank of a piece's key in the encoder's fixed order. */
  function KeyRank(piece: string): nat
  {
    RankOf(if '=' in piece then SplitOnce(piece, '=').0 else piece)
  }

  function RankOf(key: string): nat
  {
    if key == "FREQ" then 0
    else if key == "INTERVAL" then 1
    else if key == "BYDAY" then 2
    else if key == "UNTIL" || key == "COUNT" then 3
    else 4
  }

  lemma KeyRankOf(key: string, value: string)
    requires '=' !in key
    ensures KeyRank(Token(key, value)) == RankOf(key)
  {
    assert Token(key, value) == key + ['='] + value;
    SplitOnceOf(key, '=', value);
  }

  predicate Increasing(pieces: seq<string>) {
    forall i, j :: 0 <= i < j < |pieces| ==> KeyRank(pieces[i]) < KeyRank(pieces[j])
  }

  /** Appending at most one piece of a rank above every rank so far keeps the
      ranks increasing. */
  lemma IncreasingAppend(pieces: seq<string>, opt: seq<string>, rank: nat)
    requires Increasing(pieces)
    requires forall k :: 0 <= k < |pieces| ==> KeyRank(pieces[k]) < rank
    requires |opt| <= 1 && forall k :: 0 <= k < |opt| ==> KeyRank(opt[k]) == rank
    ensures Increasing(pieces + opt)
    ensures forall k :: 0 <= k < |pieces + opt| ==> KeyRank((pieces + opt)[k]) <= rank
  {
  }

  /** Each optional part is at most one piece, ranked INTERVAL, BYDAY, then
      UNTIL or COUNT. */
  lemma IntervalRank(r: RecurrenceRule)
    ensures |IntervalPart(r)| <= 1
    ensures forall k :: 0 <= k < |IntervalPart(r)| ==> KeyRank(IntervalPart(r)[k]) == 1
  {
    KeyRankOf("INTERVAL", IntToString(r.interval));
  }

  lemma DaysRank(r: RecurrenceRule)
    ensures |DaysPart(r)| <= 1
    ensures forall k :: 0 <= k < |DaysPart(r)| ==> KeyRank(DaysPart(r)[k]) == 2
  {
    if HasDays(r) {
      KeyRankOf("BYDAY", Join(DayCodes(r.daysOfWeek.value), ','));
    }
  }

  lemma EndRank(r: RecurrenceRule)
    ensures |EndPart(r)| <= 1
    ensures forall k :: 0 <= k < |EndPart(r)| ==> KeyRank(EndPart(r)[k]) == 3
  {
    KeysDistinct();
    if r.endDate.Some? {
      KeyRankOf("UNTIL", FormatUtc(r.endDate.value));
    } else if r.occurrenceCount.Some? {
      KeyRankOf("COUNT", IntToString(r.occurrenceCount.value));
    }
  }

  lemma TokensIncreasing(r: RecurrenceRule)
    ensures Increasing(RuleTokens(r))
  {
    var freq := [Token("FREQ", FrequencyName(r.frequency))];
    KeyRankOf("FREQ", FrequencyName(r.frequency));
    IntervalRank(r);
    DaysRank(r);
    EndRank(r);
    IncreasingAppend([], freq, 0);
    assert [] + freq == freq;
    IncreasingAppend(freq, IntervalPart(r), 1);
    IncreasingAppend(freq + IntervalPart(r), DaysPart(r), 2);
    IncreasingAppend(freq + IntervalPart(r) + DaysPart(r), EndPart(r), 3);
  }

  /** The encoded rule starts with `FREQ=` and its frequency name, and its
      keys come in the fixed order FREQ, INTERVAL, BYDAY, then UNTIL or COUNT,
      each at most once; so UNTIL and COUNT are never both written. */
  lemma EncodeOrder(r: RecurrenceRule)
    ensures var pieces := Split(Encode(r), ';');
      && pieces[0] == "FREQ=" + FrequencyName(r.frequency)
      && Increasing(pieces)
  {
    EncodedPieces(r);
    TokensIncreasing(r);
  }

  /** Each weekday's code reads back as that weekday. */
  lemma DayCodeRoundTrip(w: Weekday)
    ensures WeekdayOf(DayCode(w)) == Some(w)
  {
    match w
    case Sunday =>
    case Monday => assert "MO"[0] != "SU"[0];
    case Tuesday => assert "TU"[0] !in {"SU"[0], "MO"[0]};
    case Wednesday => assert "WE"[0] !in {"SU"[0], "MO"[0], "TU"[0]};
    case Thursday => assert "TH"[0] !in {"SU"[0], "MO"[0], "WE"[0]} && "TH"[1] != "TU"[1];
    case Friday => assert "FR"[0] !in {"SU"[0], "MO"[0], "TU"[0], "WE"[0], "TH"[0]};
    case Saturday => assert "SA"[0] !in {"MO"[0], "TU"[0], "WE"[0], "TH"[0], "FR"[0]} && "SA"[1] != "SU"[1];
  }

  /** Each frequency's name reads back as that frequency. */
  lemma FrequencyRoundTrip(f: Frequency)
    ensures FrequencyOf(FrequencyName(f)) == f
  {
    assert "YEARLY"[0] != "WEEKLY"[0];
  }

  lemma {:induction false} DaysOfCodes(days: seq<Weekday>)
    ensures DaysOf(DayCodes(days)) == days
  {
    if days != [] {
      var n := |days|;
      var init := days[..n - 1];
      assert DayCodes(days)[..n - 1] == DayCodes(init);
      DaysOfCodes(init);
      DayCodeRoundTrip(days[n - 1]);
      assert days == init + [days[n - 1]];
    }
  }

  /** The rule the encoder and the parser agree on: an empty weekday list and
      a zero count are written as nothing and read back as unset. */
  function Canonical(r: RecurrenceRule): RecurrenceRule
  {
    r.(occurrenceCount := if r.occurrenceCount == Some(0) then None else r.occurrenceCount,
       daysOfWeek := if r.daysOfWeek == Some([]) then None else r.daysOfWeek)
  }

  lemma IntervalRoundTrip(r: RecurrenceRule)
    requires r.interval >= 1
    ensures IntegerOf(Get(EncodedMap(r), "INTERVAL", "1")) == Ok(r.interval)
  {
    if r.interval > 1 {
      ParseIntRoundTrip(r.interval);
    } else {
      assert ParseInt("1") == Some(1);
    }
  }

  lemma EndRoundTrip(r: RecurrenceRule)
    requires IsValid(r)
    ensures var p := EncodedMap(r);
      && (if "UNTIL" in p then ParseUntil(p["UNTIL"]) else None) == r.endDate
      && CountOf(p) == Ok(Canonical(r).occurrenceCount)
  {
    var p := EncodedMap(r);
    if r.endDate.Some? {
      var d := r.endDate.value;
      assert p["UNTIL"] == FormatUtc(d);
      assert FormatUtc(d)[8] == 'T';
      UtcRoundTrip(d);
    } else if HasCount(r) {
      ParseIntRoundTrip(r.occurrenceCount.value);
    }
  }

  lemma DaysRoundTrip(r: RecurrenceRule)
    ensures DaysField(EncodedMap(r)) == Canonical(r).daysOfWeek
  {
    EncodedMapKeys(r);
    if HasDays(r) {
      EncodedDays(r);
      DaysOfCodes(r.daysOfWeek.value);
    }
  }

  /** The parser's dictionary for an encoded rule makes the canonical rule. */
  lemma FromEncodedMap(r: RecurrenceRule)
    requires IsValid(r)
    ensures FromParts(EncodedMap(r)) == Ok(Canonical(r))
  {
    EncodedMapKeys(r);
    FrequencyRoundTrip(r.frequency);
    IntervalRoundTrip(r);
    EndRoundTrip(r);
    DaysRoundTrip(r);
  }

  /** Parsing what the encoder wrote gives the rule back, up to `Canonical`. */
  lemma RoundTrip(r: RecurrenceRule)
    requires IsValid(r)
    ensures DecodeRule(Encode(r)) == Ok(Canonical(r))
  {
    PartsOfEncoded(r);
    FromEncodedMap(r);
  }

  /** For a rule that is already canonical the round trip is exact. */
  lemma RoundTripExact(r: RecurrenceRule)
    requires IsValid(r)
    requires r.occurrenceCount != Some(0) && r.daysOfWeek != Some([])
    ensures DecodeRule(Encode(r)) == Ok(r)
  {
    RoundTrip(r);
  }
}
