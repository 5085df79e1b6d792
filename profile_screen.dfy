/** The rules of the profile screen: milestone display and its two dialogs. */
module ProfileScreen {
  import opened Wrappers
  import opened KotlinText
  import opened Records

  /** The total field's initial text */
  const InitialMaxText: string := "10"
  /** The total used when the field's text is not a number */
  const DefaultMax: int := 10

  /** `isComplete = currentProgress >= maxProgress`: shown as reached */
  predicate IsComplete(m: Milestone) {
    m.currentProgress >= m.maxProgress
  }

  /** The increment button is shown only for a milestone not yet reached */
  predicate IncrementOffered(m: Milestone) {
    !IsComplete(m)
  }

  /** `maxStr.toIntOrNull() ?: 10` */
  function ParsedMax(maxText: string): (max: int)
    ensures IsInt(max)
    ensures ParseInt(maxText).Some? ==> max == ParseInt(maxText).value
    ensures ParseInt(maxText).None? ==> max == DefaultMax
  {
    ParseInt(maxText).GetOr(DefaultMax)
  }

  /** The add-milestone confirm button: the title and total handed to `onConfirm`, if any */
  function ConfirmAddMilestone(title: string, maxText: string): (r: Option<(string, int)>)
    ensures r.Some? <==> !IsBlank(title) && ParsedMax(maxText) > 0
    ensures r.Some? ==> r.value.0 == title && r.value.1 == ParsedMax(maxText) && 0 < r.value.1 <= IntMax
  {
    var max := ParsedMax(maxText);
    if !IsBlank(title) && max > 0 then Some((title, max)) else None
  }

  /** The edit-name confirm button: the name handed to `onConfirm`, if any */
  function ConfirmEditName(name: string): (r: Option<string>)
    ensures r.Some? <==> !IsBlank(name)
    ensures r.Some? ==> r.value == name
  {
    if !IsBlank(name) then Some(name) else None
  }

  /**
   * For the digit-only texts the total field can hold, a milestone is offered
   * exactly when the title is not blank and the text is empty or not zero. Its
   * total is the number when that fits in an `Int`, and 10 when the text is
   * empty or too large.
   */
  lemma ConfirmAddMilestoneOnDigits(title: string, maxText: string)
    requires AllDigits(maxText)
    ensures ConfirmAddMilestone(title, maxText).Some? <==>
              !IsBlank(title) && (|maxText| == 0 || DigitsValue(maxText) > 0)
    ensures ConfirmAddMilestone(title, maxText).Some? && |maxText| > 0 && DigitsValue(maxText) <= IntMax ==>
              ConfirmAddMilestone(title, maxText).value.1 == DigitsValue(maxText)
    ensures ConfirmAddMilestone(title, maxText).Some? && (|maxText| == 0 || DigitsValue(maxText) > IntMax) ==>
              ConfirmAddMilestone(title, maxText).value.1 == DefaultMax
  {
    ParseDigits(maxText);
  }

  /** Left as it opens, or emptied, the total field gives a goal of 10; a typed 0 is refused. */
  lemma MaxFieldDefaults(title: string)
    requires !IsBlank(title)
    ensures ConfirmAddMilestone(title, InitialMaxText) == Some((title, 10))
    ensures ConfirmAddMilestone(title, "") == Some((title, 10))
    ensures ConfirmAddMilestone(title, "0").None?
  {
    ParseDigits(InitialMaxText);
    ParseDigits("0");
  }

  /** A milestone created through the dialog starts not reached, so it shows its increment button. */
  lemma NewMilestoneOffersIncrement(title: string, maxText: string)
    requires ConfirmAddMilestone(title, maxText).Some?
    ensures var (t, max) := ConfirmAddMilestone(title, maxText).value;
            IncrementOffered(NewMilestone(t, max)) && !IsComplete(NewMilestone(t, max))
  {
  }

  /** Progress reaching the total completes a milestone and takes its increment button away. */
  lemma ReachingTotalCompletes(m: Milestone)
    requires m.currentProgress < m.maxProgress
    ensures IncrementOffered(m)
    ensures !IncrementOffered(m.(currentProgress := m.maxProgress))
  {
  }
}
