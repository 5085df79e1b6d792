/** The recurrence choices offered for a task and their RRULE FREQ tokens. */
module Recurrence {
  import opened Wrappers

  datatype RecurrenceType = NONE | DAILY | WEEKLY | MONTHLY | YEARLY

  /** Declaration order of the enum entries (the order of the dropdown) */
  const Entries: seq<RecurrenceType> := [NONE, DAILY, WEEKLY, MONTHLY, YEARLY]

  /** The label shown in the dropdown */
  function Label(t: RecurrenceType): string {
    match t
    case NONE => "不重复"
    case DAILY => "每天"
    case WEEKLY => "每周"
    case MONTHLY => "每月"
    case YEARLY => "每年"
  }

  function RruleValue(t: RecurrenceType): string {
    match t
    case NONE => ""
    case DAILY => "DAILY"
    case WEEKLY => "WEEKLY"
    case MONTHLY => "MONTHLY"
    case YEARLY => "YEARLY"
  }

  /** The FREQ values of section 3.3.10 of RFC 5545 */
  predicate IsRfc5545Freq(s: string) {
    s in {"SECONDLY", "MINUTELY", "HOURLY", "DAILY", "WEEKLY", "MONTHLY", "YEARLY"}
  }

  /** The entry whose token is `token`, if any: the inverse of RruleValue */
  function FromRruleValue(token: string): (r: Option<RecurrenceType>)
    ensures r.Some? ==> RruleValue(r.value) == token
  {
    if token == "" then Some(NONE)
    else if token == "DAILY" then Some(DAILY)
    else if token == "WEEKLY" then Some(WEEKLY)
    else if token == "MONTHLY" then Some(MONTHLY)
    else if token == "YEARLY" then Some(YEARLY)
    else None
  }

  /** Only NONE has the empty token; every other entry names an RFC 5545 frequency. */
  lemma TokenIsEmptyOnlyForNone(t: RecurrenceType)
    ensures RruleValue(t) == "" <==> t == NONE
    ensures t != NONE ==> IsRfc5545Freq(RruleValue(t))
  {
  }

  /** Tokens identify their entry: FromRruleValue inverts RruleValue, so no two entries share a token. */
  lemma TokenRoundTrip(t: RecurrenceType)
    ensures FromRruleValue(RruleValue(t)) == Some(t)
  {
  }

  lemma TokensDistinct(a: RecurrenceType, b: RecurrenceType)
    requires RruleValue(a) == RruleValue(b)
    ensures a == b
  {
    TokenRoundTrip(a);
    TokenRoundTrip(b);
  }

  /** The dropdown shows a different, non-empty label for every entry. */
  lemma LabelsDistinct(a: RecurrenceType, b: RecurrenceType)
    requires Label(a) == Label(b)
    ensures a == b
    ensures |Label(a)| > 0
  {
  }

  /** Entries lists every value exactly once, NONE first. */
  lemma EntriesEnumerateEachOnce(t: RecurrenceType)
    ensures |Entries| == 5 && Entries[0] == NONE
    ensures t in Entries
    ensures forall i, j :: 0 <= i < j < |Entries| ==> Entries[i] != Entries[j]
  {
  }
}
