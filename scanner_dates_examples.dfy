/**
 * Worked lines for the tag and date clean-up of a card's text: an
 * impossible date stays in the text, and a tag in front of a due date is
 * removed before the date is read.
 */
module ScannerDatesExamples {
  import opened Types
  import opened Text
  import opened ScannerTags
  import opened ScannerDates

  // ---------------------------------------------------------------------------
  // "Buy milk", completed on a day February does not have.

  const BuyMilk: string := "Buy milk \U{2705} 2024-02-30"

  lemma BuyMilkShape()
    ensures BuyMilk == "Buy milk" + [' ', CompletedMarker, ' '] + "2024-02-30"
  {
  }

  lemma BuyMilkMarkers()
    ensures CreatedMarker !in BuyMilk && ScheduledMarker !in BuyMilk && DueMarker !in BuyMilk
    ensures CompletedMarker !in "Buy milk"
  {
  }

  lemma BuyMilkNoHash()
    ensures forall k :: 0 <= k < |BuyMilk| ==> BuyMilk[k] != '#'
  {
    assert '#' !in BuyMilk;
  }

  lemma BuyMilkHalves()
    ensures BuyMilk == "Buy milk" + " \U{2705} 2024-02-30"
  {
  }

  lemma BuyMilkTitle()
    ensures NoDoubleSpace("Buy milk")
  {
  }

  lemma BuyMilkDate()
    ensures NoDoubleSpace(" \U{2705} 2024-02-30")
  {
  }

  lemma BuyMilkNormal()
    ensures NoDoubleSpace(BuyMilk) && NoLeadingSpace(BuyMilk) && NoTrailingSpace(BuyMilk)
  {
    BuyMilkHalves();
    BuyMilkTitle();
    BuyMilkDate();
    NoDoubleSpaceJoin("Buy milk", " \U{2705} 2024-02-30");
  }

  /** February 30th does not exist. */
  lemma February30()
    ensures DateShaped("2024-02-30") && !IsValidISODate("2024-02-30")
  {
    DateParts("2024-02-30", 2024, 2, 30);
  }

  lemma BuyMilkNoValidDate()
    ensures NoValidDate(BuyMilk)
  {
    BuyMilkShape();
    BuyMilkMarkers();
    February30();
    MarkersAreMarkers();
    MarkerAbsent(BuyMilk, CreatedMarker);
    MarkerAbsent(BuyMilk, ScheduledMarker);
    MarkerAbsent(BuyMilk, DueMarker);
    InvalidTrailingDate("Buy milk", CompletedMarker, "2024-02-30");
    forall m, q: nat | 0 <= m < |Markers| ensures !ValidMatchAt(BuyMilk, Markers[m], q) {
      assert m == 0 || m == 1 || m == 2 || m == 3;
    }
  }

  /** The line has no tag, and its impossible completion date is neither
      recorded nor cut: the text keeps it literally. */
  lemma BuyMilkDates()
    ensures TagsOf(BuyMilk) == []
    ensures DatesOf(StripTags(BuyMilk)) == DateFields(BuyMilk, None, None, None, None)
  {
    BuyMilkNoHash();
    NoHashNoTags(BuyMilk, 0);
    assert BuyMilk[0..] == BuyMilk;
    BuyMilkNormal();
    SquishIdentity(BuyMilk);
    assert StripTags(BuyMilk) == BuyMilk;
    BuyMilkNoValidDate();
    DatesOfSpec(BuyMilk);
  }

  // ---------------------------------------------------------------------------
  // "Write report", tagged and due on a real day.

  const Report: string := "Write report #in/wip \U{1F4C5} 2024-03-15"

  /** The text once the tag is gone. */
  const ReportUntagged: string := "Write report \U{1F4C5} 2024-03-15"

  lemma ReportShape()
    ensures Report == "Write report" + " #" + "in/wip" + " \U{1F4C5} 2024-03-15"
    ensures "Write report" + " " + " \U{1F4C5} 2024-03-15" == "Write report" + "  " + "\U{1F4C5} 2024-03-15"
    ensures "Write report" + " " + "\U{1F4C5} 2024-03-15" == ReportUntagged
    ensures "#" + "in/wip" == "#in/wip"
  {
  }

  lemma ReportPieces()
    ensures '#' !in "Write report" && '#' !in " \U{1F4C5} 2024-03-15"
    ensures forall k :: 0 <= k < |"in/wip"| ==> IsTagChar("in/wip"[k])
  {
  }

  lemma ReportWords()
    ensures NoDoubleSpace("Write report")
    ensures NoDoubleSpace("\U{1F4C5} 2024-03-15")
  {
  }

  /** The tag is found, and replaced with the space before it by one space. */
  lemma ReportReplaced()
    ensures ReplaceTags(Report, 0) == "Write report" + "  " + "\U{1F4C5} 2024-03-15"
    ensures TagOccurrences(Report, 0) == ["#in/wip"]
  {
    ReportShape();
    ReportPieces();
    InnerTag("Write report", "in/wip", " \U{1F4C5} 2024-03-15");
  }

  /** Stripping removes the tag and the doubled space it leaves. */
  lemma ReportStripped()
    ensures StripTags(Report) == ReportUntagged
    ensures TagsOf(Report) == ["#in/wip"]
  {
    ReportReplaced();
    ReportShape();
    ReportWords();
    SquishDoubleSpace("Write report", "\U{1F4C5} 2024-03-15");
  }

  lemma ReportUntaggedShape()
    ensures ReportUntagged == "Write report" + [' ', DueMarker, ' '] + "2024-03-15"
    ensures DueMarker !in "Write report" && CompletedMarker !in "Write report"
  {
  }

  lemma ReportUntaggedMarkers()
    ensures CreatedMarker !in ReportUntagged && ScheduledMarker !in ReportUntagged
  {
  }

  lemma March15()
    ensures IsValidISODate("2024-03-15")
  {
    DateParts("2024-03-15", 2024, 3, 15);
  }

  /** The created and scheduled passes find nothing. */
  lemma ReportFirstPasses()
    ensures Passes(ReportUntagged, 2) == (ReportUntagged, [None, None, None, None])
  {
    ReportUntaggedMarkers();
    MarkerAbsent(ReportUntagged, CreatedMarker);
    MarkerAbsent(ReportUntagged, ScheduledMarker);
    DatePassUntouched(ReportUntagged, CreatedMarker, 0, None);
    DatePassUntouched(ReportUntagged, ScheduledMarker, 0, None);
    var nones: seq<Option<string>> := [None, None, None, None];
    assert nones[0 := None] == nones && nones[1 := None] == nones;
  }

  /** The due pass cuts the date ... */
  lemma ReportDuePass()
    ensures Passes(ReportUntagged, 3) == ("Write report", [None, None, Some("2024-03-15"), None])
  {
    ReportFirstPasses();
    ReportUntaggedShape();
    March15();
    MarkersAreMarkers();
    ValidTrailingDate("Write report", DueMarker, "2024-03-15", None);
    var nones: seq<Option<string>> := [None, None, None, None];
    assert nones[2 := Some("2024-03-15")] == [None, None, Some("2024-03-15"), None];
  }

  /** ... and the completed pass finds nothing after it. */
  lemma ReportLastPasses()
    ensures Passes(ReportUntagged, 4) == ("Write report", [None, None, Some("2024-03-15"), None])
  {
    ReportDuePass();
    ReportUntaggedShape();
    MarkerAbsent("Write report", CompletedMarker);
    DatePassUntouched("Write report", CompletedMarker, 0, None);
    var vs: seq<Option<string>> := [None, None, Some("2024-03-15"), None];
    assert vs[3 := None] == vs;
  }

  /** The tag is reported, and the due date is read although a tag stood
      before it: the text that remains is the title alone. */
  lemma ReportDates()
    ensures TagsOf(Report) == ["#in/wip"]
    ensures DatesOf(StripTags(Report)) == DateFields("Write report", None, None, Some("2024-03-15"), None)
  {
    ReportStripped();
    ReportLastPasses();
    ReportWords();
    SquishIdentity("Write report");
  }
}
