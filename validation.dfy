/**
 * The input validators and the string and number helpers of
 * Presentation/Extensions/ValidationExtensions.swift.
 *
 * A `String`'s `count` is taken as its number of Unicode scalars, and a `Double` or
 * `TimeInterval` as a finite `real`.
 */
module Validation {
  import opened Wrappers
  import opened Units
  import opened Strings

  datatype ValidationResult = Valid | Invalid(message: string) {
    predicate IsValid() {
      Valid?
    }

    /** `errorMessage`: nil exactly for a valid result. */
    function ErrorMessage(): (m: Option<string>)
      ensures m.None? <==> IsValid()
      ensures Invalid? ==> m == Some(message)
    {
      match this
      case Valid => None
      case Invalid(message) => Some(message)
    }
  }

  // ---- InputValidator

  /** A title is valid when, once trimmed, it is non-empty and at most 200 characters. */
  function ValidateTaskTitle(title: string): (r: ValidationResult)
    ensures r.IsValid() <==> !AllWhitespace(title) && |Trim(title)| <= 200
    ensures AllWhitespace(title) ==> r == Invalid("Task title cannot be empty")
    ensures !AllWhitespace(title) && |Trim(title)| > 200 ==> r == Invalid("Task title is too long (max 200 characters)")
  {
    var trimmed := Trim(title);
    if trimmed == [] then Invalid("Task title cannot be empty")
    else if |trimmed| > 200 then Invalid("Task title is too long (max 200 characters)")
    else Valid
  }

  /** Notes are valid up to 1000 characters; they are not trimmed first. */
  function ValidateTaskNotes(notes: string): (r: ValidationResult)
    ensures r.IsValid() <==> |notes| <= 1000
    ensures !r.IsValid() ==> r == Invalid("Notes are too long (max 1000 characters)")
  {
    if |notes| > 1000 then Invalid("Notes are too long (max 1000 characters)") else Valid
  }

  function ValidatePomodoros(count: int): (r: ValidationResult)
    ensures r.IsValid() <==> 1 <= count <= 20
    ensures count < 1 ==> r == Invalid("Must have at least 1 pomodoro")
    ensures count > 20 ==> r == Invalid("Maximum 20 pomodoros per task")
  {
    if count < 1 then Invalid("Must have at least 1 pomodoro")
    else if count > 20 then Invalid("Maximum 20 pomodoros per task")
    else Valid
  }

  function ValidateDuration(minutes: real): (r: ValidationResult)
    ensures r.IsValid() <==> 1.0 <= minutes <= 120.0
    ensures minutes < 1.0 ==> r == Invalid("Duration must be at least 1 minute")
    ensures minutes > 120.0 ==> r == Invalid("Duration cannot exceed 120 minutes")
  {
    if minutes < 1.0 then Invalid("Duration must be at least 1 minute")
    else if minutes > 120.0 then Invalid("Duration cannot exceed 120 minutes")
    else Valid
  }

  function ValidateDailyGoal(goal: int): (r: ValidationResult)
    ensures r.IsValid() <==> 1 <= goal <= 30
    ensures goal < 1 ==> r == Invalid("Daily goal must be at least 1")
    ensures goal > 30 ==> r == Invalid("Daily goal cannot exceed 30")
  {
    if goal < 1 then Invalid("Daily goal must be at least 1")
    else if goal > 30 then Invalid("Daily goal cannot exceed 30")
    else Valid
  }

  // ---- String helpers

  /** `isValidTaskTitle` */
  function IsValidTaskTitle(s: string): (b: bool)
    ensures b <==> Trim(s) != [] && |Trim(s)| <= 200
  {
    ValidateTaskTitle(s).IsValid()
  }

  /** `trimmedOrNil`: nil for blank text, otherwise the text without surrounding whitespace. */
  function TrimmedOrNil(s: string): (r: Option<string>)
    ensures r.None? <==> AllWhitespace(s)
    ensures r.Some? ==> r.value != [] && !IsWhitespace(r.value[0]) && !IsWhitespace(r.value[|r.value| - 1])
    ensures r.Some? ==> |r.value| <= |s|
    ensures r.Some? ==> IsTrimmingOf(s, r.value)
  {
    var trimmed := Trim(s);
    if trimmed == [] then None else Some(trimmed)
  }

  /** Trimming what `trimmedOrNil` returns changes nothing. */
  lemma TrimmedOrNilIdempotent(s: string)
    requires TrimmedOrNil(s).Some?
    ensures TrimmedOrNil(TrimmedOrNil(s).value) == TrimmedOrNil(s)
  {
  }

  /** `truncated(to:trailing:)` with an explicit trailing text. */
  function TruncatedWith(s: string, length: nat, trailing: string): string {
    if |s| <= length then s else s[..length] + trailing
  }

  /** The default trailing text as the source spells it: the UTF-8 bytes of "…" read as Windows-1252. */
  const MisencodedEllipsis: string := "\U{00E2}\U{20AC}\U{00A6}"

  /** HORIZONTAL ELLIPSIS, U+2026, the evidently intended default. */
  const Ellipsis: string := "\U{2026}"

  /** `truncated(to:)` as written: a cut text ends in three stray characters. */
  function TruncatedAsWritten(s: string, length: nat): (r: string)
    ensures |s| <= length ==> r == s
    ensures |s| > length ==> |r| == length + 3 && r[..length] == s[..length] && r[length..] == MisencodedEllipsis
  {
    TruncatedWith(s, length, MisencodedEllipsis)
  }

  /** As written, a cut text is two characters longer than the intended `length + 1`. */
  lemma TruncatedAsWrittenTooLong()
    ensures TruncatedAsWritten("abcdef", 3) == "abc\U{00E2}\U{20AC}\U{00A6}"
    ensures |TruncatedAsWritten("abcdef", 3)| == 6 > 3 + |Ellipsis|
  {
  }

  /** `truncated(to:)` with the intended ellipsis: the first `length` characters, then "…". */
  function Truncated(s: string, length: nat): (r: string)
    ensures |s| <= length ==> r == s
    ensures |s| > length ==> |r| == length + 1 && r[..length] == s[..length] && r[length] == '\U{2026}'
    ensures |r| <= length + 1
  {
    TruncatedWith(s, length, Ellipsis)
  }

  /**
   * Truncating again to the same length changes nothing, for every text: an uncut text is
   * returned as it is, and a cut one is `length + 1` long, so it is cut at the same place and
   * given the same ellipsis.
   */
  lemma TruncatedIdempotent(s: string, length: nat)
    ensures Truncated(Truncated(s, length), length) == Truncated(s, length)
  {
    var r := Truncated(s, length);
    if |s| > length {
      assert r[..length] == s[..length];
    }
  }

  // ---- Number helpers

  /** `Int.clamped(to: lo...hi)` (a closed range needs `lo <= hi`). */
  function Clamped(x: int, lo: int, hi: int): (r: int)
    requires lo <= hi
    ensures lo <= r <= hi
    ensures lo <= x <= hi ==> r == x
    ensures x < lo ==> r == lo
    ensures x > hi ==> r == hi
  {
    Min(Max(x, lo), hi)
  }

  /** `Double.clamped(to: lo...hi)` */
  function ClampedReal(x: real, lo: real, hi: real): (r: real)
    requires lo <= hi
    ensures lo <= r <= hi
    ensures lo <= x <= hi ==> r == x
    ensures x < lo ==> r == lo
    ensures x > hi ==> r == hi
  {
    var m := if x >= lo then x else lo;
    if m <= hi then m else hi
  }

  /** Clamping is idempotent. */
  lemma ClampedIdempotent(x: int, lo: int, hi: int)
    requires lo <= hi
    ensures Clamped(Clamped(x, lo, hi), lo, hi) == Clamped(x, lo, hi)
  {
  }

  /** `formattedTimer`: "MM:SS" from the whole seconds, with Swift's truncating `/` and `%`. */
  function FormattedTimer(t: real): string {
    var totalSeconds := TruncReal(t);
    Pad2(TruncDiv(totalSeconds, 60)) + ":" + Pad2(TruncRem(totalSeconds, 60))
  }

  /** Under 100 minutes the text has the form MM:SS and reads back as the whole seconds. */
  lemma FormattedTimerReadsBack(t: real)
    requires 0.0 <= t < 6000.0
    ensures var r := FormattedTimer(t);
            && |r| == 5 && r[2] == ':' && AllDigits(r[..2]) && AllDigits(r[3..])
            && DigitsValue(r[3..]) < 60
            && DigitsValue(r[..2]) * 60 + DigitsValue(r[3..]) == TruncReal(t)
  {
    var n := TruncReal(t);
    var m, s := TruncDiv(n, 60), TruncRem(n, 60);
    var r := FormattedTimer(t);
    assert m < 100;
    assert r[..2] == Pad2(m) && r[3..] == Pad2(s);
  }

  /** `formattedDuration`: the text for the whole minutes of the interval. */
  function FormattedDuration(t: real): string {
    DurationText(TruncReal(t / 60.0))
  }

  /** "N min" under an hour, otherwise "H hr" or "H hr M min", with Swift's truncating `/` and `%`. */
  function DurationText(totalMinutes: int): string {
    if totalMinutes < 60 then IntToString(totalMinutes) + " min"
    else
      var hours := TruncDiv(totalMinutes, 60);
      var mins := TruncRem(totalMinutes, 60);
      if mins == 0 then IntToString(hours) + " hr"
      else IntToString(hours) + " hr " + IntToString(mins) + " min"
  }

  /**
   * The words of the text for `n >= 0` whole minutes read back as `n`: a count and "min", or
   * hours and "hr" followed by the leftover minutes and "min" when there are any.
   */
  lemma DurationTextReadsBack(n: int)
    requires n >= 0
    ensures var words := Split(DurationText(n), ' ');
            && (n < 60 ==> words == [NatToString(n), "min"] && DigitsValue(words[0]) == n)
            && (n >= 60 ==> (|words| == 2 || |words| == 4) && words[1] == "hr")
            && (n >= 60 && |words| == 2 ==> AllDigits(words[0]) && DigitsValue(words[0]) * 60 == n)
            && (n >= 60 && |words| == 4 ==>
                  words[3] == "min" && AllDigits(words[0]) && AllDigits(words[2])
                  && 0 < DigitsValue(words[2]) < 60
                  && DigitsValue(words[0]) * 60 + DigitsValue(words[2]) == n)
  {
    if n < 60 {
      MinutesWords(n);
    } else if TruncRem(n, 60) == 0 {
      HoursWords(n);
    } else {
      HoursAndMinutesWords(n);
    }
  }

  lemma MinutesWords(n: int)
    requires 0 <= n < 60
    ensures Split(DurationText(n), ' ') == [NatToString(n), "min"]
    ensures DigitsValue(NatToString(n)) == n
  {
    assert DurationText(n) == NatToString(n) + " " + "min";
    WordsOfText(NatToString(n), "min");
    DigitsValueOfNatToString(n);
  }

  lemma HoursWords(n: int)
    requires n >= 60 && TruncRem(n, 60) == 0
    ensures var h := NatToString(TruncDiv(n, 60));
            Split(DurationText(n), ' ') == [h, "hr"] && DigitsValue(h) * 60 == n
  {
    var h := TruncDiv(n, 60);
    assert DurationText(n) == NatToString(h) + " " + "hr";
    WordsOfText(NatToString(h), "hr");
    DigitsValueOfNatToString(h);
  }

  lemma HoursAndMinutesWords(n: int)
    requires n >= 60 && TruncRem(n, 60) != 0
    ensures var h, m := NatToString(TruncDiv(n, 60)), NatToString(TruncRem(n, 60));
            && Split(DurationText(n), ' ') == [h, "hr", m, "min"]
            && 0 < DigitsValue(m) < 60 && DigitsValue(h) * 60 + DigitsValue(m) == n
  {
    var h, m := TruncDiv(n, 60), TruncRem(n, 60);
    assert DurationText(n) == NatToString(h) + " hr " + NatToString(m) + " min";
    WordsOfLongText(NatToString(h), NatToString(m));
    DigitsValueOfNatToString(h);
    DigitsValueOfNatToString(m);
  }

  /** A non-negative interval's text is the text of its whole minutes, which are `t / 60` rounded down. */
  lemma FormattedDurationMinutes(t: real)
    requires t >= 0.0
    ensures FormattedDuration(t) == DurationText(TruncReal(t / 60.0))
    ensures var n := TruncReal(t / 60.0); n >= 0 && 60.0 * n as real <= t < 60.0 * (n as real + 1.0)
  {
  }

  /** "N unit" splits into the number and the unit. */
  lemma WordsOfText(number: string, unit: string)
    requires AllDigits(number) && IsLowerWord(unit)
    ensures Split(number + " " + unit, ' ') == [number, unit]
  {
    var parts := [number, unit];
    assert parts[1..] == [unit];
    assert Join(parts, ' ') == number + " " + unit;
    WordsReadBack(parts);
  }

  /** "H hr M min" splits into its four words. */
  lemma WordsOfLongText(hours: string, mins: string)
    requires AllDigits(hours) && AllDigits(mins)
    ensures Split(hours + " hr " + mins + " min", ' ') == [hours, "hr", mins, "min"]
  {
    var parts := [hours, "hr", mins, "min"];
    assert Join(parts, ' ') == hours + " hr " + mins + " min" by {
      assert parts[1..][1..][1..] == ["min"];
      assert parts[1..][1..] == [mins, "min"];
      assert Join(parts[1..][1..], ' ') == mins + " min";
      assert Join(parts[1..], ' ') == "hr " + mins + " min";
    }
    assert IsLowerWord(parts[1]) && IsLowerWord(parts[3]);
    WordsReadBack(parts);
  }

  predicate IsLowerWord(s: string) {
    forall k :: 0 <= k < |s| ==> 'a' <= s[k] <= 'z'
  }

  /** Words of digits or lower-case letters split back apart at the spaces that join them. */
  lemma WordsReadBack(parts: seq<string>)
    requires |parts| >= 1
    requires forall i :: 0 <= i < |parts| ==> AllDigits(parts[i]) || IsLowerWord(parts[i])
    ensures Split(Join(parts, ' '), ' ') == parts
  {
    forall i | 0 <= i < |parts|
      ensures ' ' !in parts[i]
    {
      assert forall k :: 0 <= k < |parts[i]| ==> parts[i][k] != ' ';
    }
    SplitJoin(parts, ' ');
  }
}
