/**
 * The smart break suggestion: from the number of work sessions completed in a row and the
 * minutes worked, which card to show, with what text, colour and actions.
 */
module BreakSuggestions {
  import opened Units
  import opened Strings

  /** The accent colours a suggestion card can carry; `Clear` is the hidden card's. */
  datatype AccentColor = Blue | Green | Purple | Clear

  datatype BreakSuggestion = BreakSuggestion(
    shouldShow: bool,
    title: string,
    message: string,
    icon: string,
    color: AccentColor,
    actionTitle: string,
    showActions: bool)

  /** The opening words of the long-break message, before the session count. */
  const LongBreakOpening: string := "You've completed "
  /** The words after the session count. */
  const LongBreakClosing: string := " sessions in a row. A 15-20 minute break will help you stay focused."
  /** The opening words of the stretch message, before the hours. */
  const StretchOpening: string := "You've been working for "
  /** The words after the hours. */
  const StretchClosing: string := " hours. A quick stretch can boost your energy!"

  /** The card with nothing on it. */
  const Hidden: BreakSuggestion := BreakSuggestion(false, "", "", "", Clear, "", false)

  /**
   * `suggest(consecutiveSessions:totalWorkMinutes:)`: four or more sessions in a row ask for a long
   * break; otherwise two hours of work ask for a stretch; otherwise one hour asks for an eye rest,
   * without actions; below that nothing is shown.
   */
  function Suggest(consecutiveSessions: int, totalWorkMinutes: int): (r: BreakSuggestion)
    ensures r.shouldShow <==> consecutiveSessions >= 4 || totalWorkMinutes >= 60
    ensures r.showActions <==> consecutiveSessions >= 4 || totalWorkMinutes >= 120
    ensures consecutiveSessions >= 4 ==>
      && r.title == "Time for a longer break" && r.color == Blue && r.icon == "cup.and.saucer.fill" && r.actionTitle == "Take Long Break"
      && r.message == LongBreakOpening + IntToString(consecutiveSessions) + LongBreakClosing
    ensures consecutiveSessions < 4 && totalWorkMinutes >= 120 ==>
      && r.title == "Quick stretch?" && r.color == Green && r.icon == "figure.walk" && r.actionTitle == "Take a Break"
      && r.message == StretchOpening + IntToString(TruncDiv(totalWorkMinutes, 60)) + StretchClosing
    ensures consecutiveSessions < 4 && 60 <= totalWorkMinutes < 120 ==>
      && r.title == "Rest your eyes" && r.color == Purple && r.icon == "eye" && r.actionTitle == "Got it!"
      && r.message == "Try the 20-20-20 rule: Look at something 20 feet away for 20 seconds."
    ensures !r.shouldShow <==> r == Hidden
  {
    if consecutiveSessions >= 4 then
      BreakSuggestion(
        true,
        "Time for a longer break",
        LongBreakOpening + IntToString(consecutiveSessions) + LongBreakClosing,
        "cup.and.saucer.fill",
        Blue,
        "Take Long Break",
        true)
    else if totalWorkMinutes >= 120 then
      BreakSuggestion(
        true,
        "Quick stretch?",
        StretchOpening + IntToString(TruncDiv(totalWorkMinutes, 60)) + StretchClosing,
        "figure.walk",
        Green,
        "Take a Break",
        true)
    else if totalWorkMinutes >= 60 && totalWorkMinutes < 120 then
      BreakSuggestion(
        true,
        "Rest your eyes",
        "Try the 20-20-20 rule: Look at something 20 feet away for 20 seconds.",
        "eye",
        Purple,
        "Got it!",
        false)
    else
      BreakSuggestion(false, "", "", "", Clear, "", false)
  }

  /** Actions are offered only on a card that is shown. */
  lemma ActionsOnlyWhenShown(consecutiveSessions: int, totalWorkMinutes: int)
    ensures Suggest(consecutiveSessions, totalWorkMinutes).showActions
      ==> Suggest(consecutiveSessions, totalWorkMinutes).shouldShow
  {
  }

  /** More sessions or more minutes never hide a card that was shown, nor take away its actions. */
  lemma SuggestMonotone(sessions: int, minutes: int, moreSessions: int, moreMinutes: int)
    requires sessions <= moreSessions && minutes <= moreMinutes
    ensures Suggest(sessions, minutes).shouldShow ==> Suggest(moreSessions, moreMinutes).shouldShow
    ensures Suggest(sessions, minutes).showActions ==> Suggest(moreSessions, moreMinutes).showActions
  {
  }

  /** The stretch message counts whole hours: two to three hours of work both read "2". */
  lemma StretchHours(totalWorkMinutes: int)
    requires 120 <= totalWorkMinutes < 180
    ensures Suggest(0, totalWorkMinutes).message == StretchOpening + "2" + StretchClosing
    ensures StretchOpening + "2 hours" <= Suggest(0, totalWorkMinutes).message
  {
    assert TruncDiv(totalWorkMinutes, 60) == 2;
    assert IntToString(2) == "2";
    var head := StretchOpening + "2";
    assert " hours" <= StretchClosing;
    PrefixBehind(head, " hours", StretchClosing);
    assert head + " hours" == StretchOpening + "2 hours";
  }

  /** A prefix stays a prefix behind a common head. */
  lemma PrefixBehind(head: string, a: string, b: string)
    requires a <= b
    ensures head + a <= head + b
  {
    assert (head + b)[..|head + a|] == head + b[..|a|];
  }
}
