/**
 * Worked cards: how the tag and date clean-up shows in the card a checkbox
 * line opens.
 */
module TaskCardExamples {
  import opened Types
  import opened Text
  import opened TaskScanner
  import opened ScannerDatesExamples

  /** A completed box whose completion date does not exist: the card is
      complete, reports no completion date and keeps the date in its text. */
  lemma ImpossibleCompletionCard(path: string)
    ensures var r := Step(ScanState([], []), "- [x] Buy milk \U{2705} 2024-02-30", 0, path, [], false);
      |r.tasks| == 1 && r.tasks[0].isComplete && r.tasks[0].text == "Buy milk \U{2705} 2024-02-30" &&
      r.tasks[0].completedDate.None? && r.tasks[0].dueDate.None? && r.tasks[0].tags == []
  {
    BuyMilkBox();
    BuyMilkDates();
    CheckboxCardCase(ScanState([], []), Checkbox(0, true, BuyMilk), 0, path, [], false);
  }

  lemma BuyMilkBox()
    ensures CheckboxMatch("- [x] Buy milk \U{2705} 2024-02-30") == Some(Checkbox(0, true, BuyMilk))
  {
    BuyMilkLine();
    CheckboxRoundTrip("", 'x', " ", BuyMilk);
  }

  lemma BuyMilkLine()
    ensures CheckboxLine("", 'x', " ", BuyMilk) == "- [x] Buy milk \U{2705} 2024-02-30"
    ensures NoLineTerminator(BuyMilk) && NoLeadingSpace(BuyMilk) && IndentWidth("") == 0
  {
  }

  /** A tagged box with a due date after the tag: the tag is reported and
      stripped, and the due date is read and cut from the title. */
  lemma TaggedDueCard(path: string)
    ensures var r := Step(ScanState([], []), "- [ ] Write report #in/wip \U{1F4C5} 2024-03-15", 0, path, [], false);
      |r.tasks| == 1 && !r.tasks[0].isComplete && r.tasks[0].text == "Write report" &&
      r.tasks[0].dueDate == Some("2024-03-15") && r.tasks[0].tags == ["#in/wip"]
  {
    ReportBox();
    ReportDates();
    CheckboxCardCase(ScanState([], []), Checkbox(0, false, Report), 0, path, [], false);
  }

  lemma ReportBox()
    ensures CheckboxMatch("- [ ] Write report #in/wip \U{1F4C5} 2024-03-15") == Some(Checkbox(0, false, Report))
  {
    ReportLine();
    CheckboxRoundTrip("", ' ', " ", Report);
  }

  lemma ReportLine()
    ensures CheckboxLine("", ' ', " ", Report) == "- [ ] Write report #in/wip \U{1F4C5} 2024-03-15"
    ensures NoLineTerminator(Report) && NoLeadingSpace(Report) && IndentWidth("") == 0
  {
  }
}
