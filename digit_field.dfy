/**
 * The digits-only text fields (the recurrence interval, a shop item's price,
 * a milestone's total): an edit is taken only when every character of the
 * new text is a digit; otherwise the field keeps its text.
 */
module DigitField {
  import opened KotlinText

  /** `onValueChange = { if (it.all { c -> c.isDigit() }) field = it }` */
  function AcceptDigits(current: string, proposed: string): (r: string)
    ensures AllDigits(current) ==> AllDigits(r)
    ensures r == proposed <==> AllDigits(proposed) || proposed == current
    ensures r != proposed ==> r == current
  {
    if AllDigits(proposed) then proposed else current
  }

  /** The field's text after a sequence of edits, the last one applied last */
  function ApplyEdits(start: string, edits: seq<string>): string
  {
    if edits == [] then start
    else AcceptDigits(ApplyEdits(start, edits[..|edits| - 1]), edits[|edits| - 1])
  }

  /** A field that starts with digits (or empty) holds only digits whatever is typed into it. */
  lemma {:induction false} EditsKeepDigits(start: string, edits: seq<string>)
    requires AllDigits(start)
    ensures AllDigits(ApplyEdits(start, edits))
  {
    if edits != [] {
      EditsKeepDigits(start, edits[..|edits| - 1]);
    }
  }
}
