/**
 * The rules of the task-input form: the recurrence rule it sends with a new
 * task, what the add button does, and the `HH:mm` label of the chosen time.
 */
module TaskInput {
  import opened Wrappers
  import opened KotlinText
  import opened Recurrence

  /** The interval field's initial text */
  const InitialIntervalText: string := "1"
  /** The interval used when the field's text is not a number */
  const DefaultInterval: int := 1

  const FreqKey: string := "FREQ="
  const IntervalKey: string := ";INTERVAL="

  /** `recurrenceInterval.toIntOrNull() ?: 1` */
  function IntervalOf(intervalText: string): (n: int)
    ensures IsInt(n)
    ensures ParseInt(intervalText).Some? ==> n == ParseInt(intervalText).value
    ensures ParseInt(intervalText).None? ==> n == DefaultInterval
  {
    ParseInt(intervalText).GetOr(DefaultInterval)
  }

  /** The rule sent with the task: none for a one-off task, otherwise `FREQ=<token>;INTERVAL=<n>` */
  function BuildRrule(t: RecurrenceType, intervalText: string): (r: Option<string>)
    ensures r.None? <==> t == NONE
    ensures r.Some? ==> FreqKey <= r.value
  {
    if t == NONE then None
    else Some(FreqKey + RruleValue(t) + IntervalKey + IntToString(IntervalOf(intervalText)))
  }

  /** The first position of c in s */
  function IndexOf(s: string, c: char): (r: Option<nat>)
    ensures r.Some? ==> r.value < |s| && s[r.value] == c && c !in s[..r.value]
    ensures r.None? ==> c !in s
  {
    if |s| == 0 then None
    else if s[0] == c then Some(0)
    else match IndexOf(s[1..], c)
      case None => None
      case Some(k) =>
        assert s[..k + 1] == [s[0]] + s[1..][..k];
        Some(k + 1)
  }

  lemma IndexOfFirst(a: string, c: char, b: string)
    requires c !in a
    ensures IndexOf(a + [c] + b, c) == Some(|a|)
  {
    var s := a + [c] + b;
    assert s[|a|] == c;
  }

  /**
   * Reading a rule back: the frequency token up to the first ';', then
   * `;INTERVAL=` and an `Int`. The inverse of `BuildRrule`, used only in proofs.
   */
  function ParseRrule(s: string): Option<(RecurrenceType, int)>
  {
    if !(FreqKey <= s) then None
    else
      var rest := s[|FreqKey|..];
      match IndexOf(rest, ';')
      case None => None
      case Some(k) =>
        var tail := rest[k..];
        if !(IntervalKey <= tail) then None
        else
          match (FromRruleValue(rest[..k]), ParseInt(tail[|IntervalKey|..]))
          case (Some(t), Some(n)) => if t == NONE then None else Some((t, n))
          case _ => None
  }

  lemma TokenHasNoSemicolon(t: RecurrenceType)
    ensures ';' !in RruleValue(t)
  {
    match t
    case NONE => assert RruleValue(t) == "";
    case DAILY => assert RruleValue(t) == "DAILY";
    case WEEKLY => assert RruleValue(t) == "WEEKLY";
    case MONTHLY => assert RruleValue(t) == "MONTHLY";
    case YEARLY => assert RruleValue(t) == "YEARLY";
  }

  /** A repeating task's rule names its frequency and the interval the field parses to. */
  lemma RruleRoundTrip(t: RecurrenceType, intervalText: string)
    requires t != NONE
    ensures BuildRrule(t, intervalText).Some?
    ensures ParseRrule(BuildRrule(t, intervalText).value) == Some((t, IntervalOf(intervalText)))
  {
    var tok, num := RruleValue(t), IntToString(IntervalOf(intervalText));
    var s := BuildRrule(t, intervalText).value;
    assert s == FreqKey + tok + IntervalKey + num;
    var rest := s[|FreqKey|..];
    assert rest == tok + [';'] + (IntervalKey[1..] + num);
    TokenHasNoSemicolon(t);
    IndexOfFirst(tok, ';', IntervalKey[1..] + num);
    assert rest[..|tok|] == tok;
    var tail := rest[|tok|..];
    assert tail == IntervalKey + num;
    assert tail[|IntervalKey|..] == num;
    TokenRoundTrip(t);
    IntToStringRoundTrip(IntervalOf(intervalText));
  }

  /** An interval of 0 typed into the field is sent as it is. */
  lemma ZeroIntervalIsSent(t: RecurrenceType)
    requires t != NONE
    ensures ParseRrule(BuildRrule(t, "0").value) == Some((t, 0))
  {
    ParseDigits("0");
    RruleRoundTrip(t, "0");
  }

  /** An empty or oversized interval falls back to 1. */
  lemma UnparsableIntervalIsOne(t: RecurrenceType, intervalText: string)
    requires t != NONE
    requires AllDigits(intervalText)
    requires |intervalText| == 0 || DigitsValue(intervalText) > IntMax
    ensures ParseRrule(BuildRrule(t, intervalText).value) == Some((t, 1))
  {
    ParseDigits(intervalText);
    RruleRoundTrip(t, intervalText);
  }

  /** An interval typed as a numeral without leading zeros that fits in an `Int` is sent exactly as typed. */
  lemma CanonicalIntervalSentAsTyped(t: RecurrenceType, intervalText: string)
    requires t != NONE
    requires |intervalText| > 0 && AllDigits(intervalText) && (intervalText[0] != '0' || |intervalText| == 1)
    requires DigitsValue(intervalText) <= IntMax
    ensures BuildRrule(t, intervalText) == Some(FreqKey + RruleValue(t) + IntervalKey + intervalText)
  {
    CanonicalNumeralRoundTrip(intervalText);
  }

  /** The interval field as the form opens it sends `INTERVAL=1`. */
  lemma UntouchedIntervalIsOne(t: RecurrenceType)
    requires t != NONE
    ensures BuildRrule(t, InitialIntervalText) == Some(FreqKey + RruleValue(t) + ";INTERVAL=1")
  {
    CanonicalIntervalSentAsTyped(t, InitialIntervalText);
    var head := FreqKey + RruleValue(t);
    assert IntervalKey + InitialIntervalText == ";INTERVAL=1";
    assert head + IntervalKey + InitialIntervalText == head + (IntervalKey + InitialIntervalText);
  }

  // -------------------------------------------------------------- add button

  /** What a click on the add button does */
  datatype AddAction =
    | Ignored
    | RequestCalendarPermission
    | Add(title: string, startMillis: int, rrule: Option<string>)

  /** The action and the title field's text afterwards */
  datatype AddClick = AddClick(action: AddAction, titleAfter: string)

  /**
   * The add button: a blank title does nothing; without calendar permission
   * it only asks for it; otherwise it hands the task over and clears the title.
   */
  function OnAddClick(title: string, hasCalendarPermission: bool, t: RecurrenceType,
                      intervalText: string, startMillis: int): (r: AddClick)
    ensures r.action.Add? <==> !IsBlank(title) && hasCalendarPermission
    ensures r.action.RequestCalendarPermission? <==> !IsBlank(title) && !hasCalendarPermission
    ensures r.action.Add? ==> r.action.title == title && !IsBlank(r.action.title)
                              && r.action.startMillis == startMillis
                              && r.action.rrule == BuildRrule(t, intervalText)
    ensures r.titleAfter == if r.action.Add? then "" else title
  {
    if IsBlank(title) then AddClick(Ignored, title)
    else if !hasCalendarPermission then AddClick(RequestCalendarPermission, title)
    else AddClick(Add(title, startMillis, BuildRrule(t, intervalText)), "")
  }

  // ---------------------------------------------------------------- time label

  /** `String.format("%02d:%02d", hour, minute)` for a time of day */
  function FormatTime(hour: nat, minute: nat): (r: string)
    requires hour < 24 && minute < 60
    ensures |r| == 5 && r[2] == ':'
    ensures AllDigits(r[..2]) && DigitsValue(r[..2]) == hour
    ensures AllDigits(r[3..]) && DigitsValue(r[3..]) == minute
  {
    var h, m := FormatTwoDigits(hour), FormatTwoDigits(minute);
    var r := h + ":" + m;
    assert r[..2] == h && r[3..] == m;
    r
  }

  /** Different times of day get different labels. */
  lemma FormatTimeInjective(h1: nat, m1: nat, h2: nat, m2: nat)
    requires h1 < 24 && m1 < 60 && h2 < 24 && m2 < 60
    requires FormatTime(h1, m1) == FormatTime(h2, m2)
    ensures h1 == h2 && m1 == m2
  {
    var r := FormatTime(h1, m1);
    assert r[..2] == FormatTime(h2, m2)[..2];
    assert r[3..] == FormatTime(h2, m2)[3..];
  }
}
