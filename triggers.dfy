/** Alarm triggers (the TRIGGER property of section 3.8.6.3 of RFC 5545 with a
    duration value, section 3.3.6): the minute offsets this system writes and
    the one-pattern decoder `re.match(r'-PT(\d+)([HM])', trigger)` that reads
    them back. */
module Triggers {
  import opened Wrappers
  import opened Text

  /** Length of the run of ASCII digits at the start of `s`. */
  function DigitRun(s: string): (n: nat)
    ensures n <= |s| && AllDigits(s[..n])
    ensures n < |s| ==> !IsDigit(s[n])
  {
    if s == [] || !IsDigit(s[0]) then 0
    else
      var n := DigitRun(s[1..]);
      assert s[..n + 1] == [s[0]] + s[1..][..n];
      n + 1
  }

  /** A run of digits followed by a non-digit is the whole digit run. */
  lemma {:induction false} DigitRunExact(s: string, m: nat)
    requires m < |s| && AllDigits(s[..m]) && !IsDigit(s[m])
    ensures DigitRun(s) == m
  {
    if m > 0 {
      assert s[..m][0] == s[0];
      assert s[1..][..m - 1] == s[..m][1..];
      DigitRunExact(s[1..], m - 1);
    }
  }

  /** The alarm offset, in minutes, a trigger text denotes: `-PT`, a run of
      digits, then `H` (times 60) or `M`; anything after that is ignored, and
      every other text is not recognised. */
  function DecodeTrigger(t: string): Option<int>
  {
    if |t| >= 3 && t[..3] == "-PT" then
      var n := DigitRun(t[3..]);
      assert t[3..][..n] == t[3..3 + n];
      if n > 0 && 3 + n < |t| && (t[3 + n] == 'H' || t[3 + n] == 'M') then
        var amount := DigitsValue(t[3..3 + n]);
        Some(if t[3 + n] == 'H' then amount * 60 else amount)
      else
        None
    else
      None
  }

  /** The regular expression matches `t` with its digit group ending before `k`. */
  predicate MatchesAt(t: string, k: nat) {
    && 3 < k < |t|
    && t[..3] == "-PT"
    && AllDigits(t[3..k])
    && (t[k] == 'H' || t[k] == 'M')
  }

  function UnitMinutes(unit: char): nat {
    if unit == 'H' then 60 else 1
  }

  /** The decoder recognises exactly the texts the regular expression matches
      (at any split of the digit group that backtracking could try), and then
      yields the group's value times the unit. */
  lemma DecodeTriggerIsMatch(t: string)
    ensures DecodeTrigger(t).Some? <==> exists k: nat :: MatchesAt(t, k)
    ensures forall k: nat :: MatchesAt(t, k) ==> DecodeTrigger(t) == Some(UnitMinutes(t[k]) * DigitsValue(t[3..k]))
  {
    if DecodeTrigger(t).Some? {
      var n := DigitRun(t[3..]);
      assert t[3..][..n] == t[3..3 + n];
      assert MatchesAt(t, 3 + n);
    }
    forall k: nat | MatchesAt(t, k)
      ensures DecodeTrigger(t) == Some(UnitMinutes(t[k]) * DigitsValue(t[3..k]))
    {
      var s := t[3..];
      assert s[..k - 3] == t[3..k];
      DigitRunExact(s, k - 3);
    }
  }

  /** The trigger text of an alarm written for `minutes` before the start (a
      negative offset is an alarm after the start). */
  function TriggerText(minutes: int): string
  {
    if minutes >= 0 then "-PT" + NatToDigits(minutes) + "M"
    else "PT" + NatToDigits(-minutes) + "M"
  }

  /** Reading back an alarm this system wrote gives its offset, for every
      offset before the start; an alarm after the start is not recognised. */
  lemma TriggerRoundTrip(minutes: int)
    ensures DecodeTrigger(TriggerText(minutes)) == if minutes >= 0 then Some(minutes) else None
  {
    var t := TriggerText(minutes);
    if minutes >= 0 {
      var digits := NatToDigits(minutes);
      var k := 3 + |digits|;
      assert t[3..k] == digits;
      assert MatchesAt(t, k);
      DecodeTriggerIsMatch(t);
      DigitsRoundTrip(minutes);
    } else {
      assert t[0] == 'P';
    }
  }

  /** An hour trigger yields sixty times its hours, whatever follows the `H`;
      so `-PT1H30M` yields 60, not 90. */
  lemma HourTrigger(hours: nat, rest: string)
    ensures DecodeTrigger("-PT" + NatToDigits(hours) + "H" + rest) == Some(60 * hours)
  {
    var digits := NatToDigits(hours);
    var t := "-PT" + digits + "H" + rest;
    var k := 3 + |digits|;
    assert t[..3] == "-PT";
    assert t[3..k] == digits;
    assert t[k] == 'H';
    assert MatchesAt(t, k);
    DecodeTriggerIsMatch(t);
    DigitsRoundTrip(hours);
  }

  lemma CompoundTriggerKeepsHours()
    ensures DecodeTrigger("-PT1H30M") == Some(60)
  {
    assert NatToDigits(1) == "1";
    HourTrigger(1, "30M");
    assert "-PT" + "1" + "H" + "30M" == "-PT1H30M";
  }
}
