/** Single-row batches of the robot-order workflow on a page that never fails,
    never shows the banner and offers no preview images. */
module OrderScenarios {
  import opened Optional
  import opened Actions
  import opened OrderForm
  import opened RobotImages
  import opened OrderWorkflow

  const Receipt := "<p>receipt</p>"

  const QuietPage := OrderPage({}, [], Receipt, [], [], {})

  lemma QuietRowCompletes(row: Row)
    ensures ProcessRow(RowVisit(row, QuietPage)).Ok()
  {
  }

  /** The receipt, the merged image (empty, page-wide) and the PDF of order `id`. */
  function QuietDetails(id: string): seq<Action> {
    [WaitVisible(ReceiptPanel),
     WriteImage(MergedImagePath(ImageFolder, id), 600, 0),
     WritePdf(PdfPath(id), id, Receipt, MergedImagePath(ImageFolder, id))]
  }

  /** A batch of one row that completes is exactly that row's run. */
  lemma SingleRowBatch(v: RowVisit)
    requires ProcessRow(v).Ok()
    ensures ProcessOrders([v]) == Batch(ProcessRow(v).trace, 1, None)
  {
    OneRowRuns(v);
    SingleRunBatch(ProcessRow(v));
  }

  /** The runs of a one-row batch are that row's run. */
  lemma OneRowRuns(v: RowVisit)
    ensures RowRuns([v]) == [ProcessRow(v)]
  {
    assert |RowRuns([v])| == 1;
  }

  lemma SingleRunBatch(r: Run)
    requires r.Ok()
    ensures RunUntilFault([r]) == Batch(r.trace, 1, None)
  {
    assert [r][1..] == [];
    assert r.trace + [] == r.trace;
  }

  /** Without preview images nothing is downloaded and the merged image is an
      empty canvas as wide as the page. */
  lemma QuietDetailsTrace(id: string)
    ensures DetailsTrace(id, QuietPage) == QuietDetails(id)
  {
    assert Srcs([]) == [];
    assert Kept([]) == [];
    assert DownloadsFor(ImageFolder, [], []) == [];
    assert KeptSizes([]) == [];
    var canvas := ImageLayout.MergeImages([], ImageLayout.DefaultPageWidth);
    assert canvas.width == 600 && canvas.height == 0;
  }

  /** On a quiet page no retry click happens. */
  lemma QuietRowTrace(row: Row)
    ensures CompletedRowTrace(RowVisit(row, QuietPage)) ==
      [Click(ModalButton)] + Planned(row) + [Click(OrderButton)]
        + QuietDetails(Lookup(row, OrderNumberColumn)) + [Click(OrderAnotherButton)]
  {
    QuietDetailsTrace(Lookup(row, OrderNumberColumn));
    assert RetryClicks([]) == 0;
    assert [Click(OrderButton)] + Clicks(0, OrderButton) == [Click(OrderButton)];
    assert [Click(OrderAnotherButton)] + Clicks(0, OrderAnotherButton) == [Click(OrderAnotherButton)];
  }

  /** On a quiet page a one-row batch completes: modal, the planned field actions,
      one "Order" click, the order's artifacts, one "Order another" click. */
  lemma QuietBatch(row: Row)
    ensures var b := ProcessOrders([RowVisit(row, QuietPage)]);
      && b.completed == 1
      && b.trace == [Click(ModalButton)] + Planned(row) + [Click(OrderButton)]
           + QuietDetails(Lookup(row, OrderNumberColumn)) + [Click(OrderAnotherButton)]
  {
    var v := RowVisit(row, QuietPage);
    QuietRowCompletes(row);
    CompletedRowPhases(v);
    SingleRowBatch(v);
    QuietRowTrace(row);
  }

  /** Each table selector's kind of control. */
  lemma SelectorKinds()
    ensures Kind(HeadSelect) == SelectOption && Kind(BodyRadios) == RadioChoice
    ensures Kind(LegsInput) == TextInput && Kind(AddressInput) == TextInput
  {
    assert LegsInput[0] == 'c' && HeadSelect[0] == 'c' && BodyRadios[0] == 'c';
    assert LegsInput[1] == 's' && HeadSelect[1] == 'l' && BodyRadios[1] == 'l';
    assert AddressInput[1] == 's';
  }

  lemma PlannedFull(row: Row)
    requires Lookup(row, "Head") != "" && Lookup(row, "Body") != ""
    requires Lookup(row, "Legs") != "" && Lookup(row, "Address") != ""
    ensures Planned(row) == [
      SelectByValue(HeadSelect, Lookup(row, "Head")),
      Click(RadioFor(Lookup(row, "Body"))),
      InputText(LegsInput, Lookup(row, "Legs")),
      InputText(AddressInput, Lookup(row, "Address"))]
  {
    SelectorKinds();
  }

  lemma PlannedWithoutBody(row: Row)
    requires Lookup(row, "Head") != "" && Lookup(row, "Body") == ""
    requires Lookup(row, "Legs") != "" && Lookup(row, "Address") != ""
    ensures Planned(row) == [
      SelectByValue(HeadSelect, Lookup(row, "Head")),
      InputText(LegsInput, Lookup(row, "Legs")),
      InputText(AddressInput, Lookup(row, "Address"))]
  {
    SelectorKinds();
  }

  /** Every field set: Head selected, the Body radio clicked, Legs and Address typed. */
  lemma FullRowOnQuietPage(row: Row)
    requires Lookup(row, "Head") != "" && Lookup(row, "Body") != ""
    requires Lookup(row, "Legs") != "" && Lookup(row, "Address") != ""
    ensures ProcessOrders([RowVisit(row, QuietPage)]).trace ==
      [Click(ModalButton),
       SelectByValue(HeadSelect, Lookup(row, "Head")),
       Click(RadioFor(Lookup(row, "Body"))),
       InputText(LegsInput, Lookup(row, "Legs")),
       InputText(AddressInput, Lookup(row, "Address")),
       Click(OrderButton)]
      + QuietDetails(Lookup(row, OrderNumberColumn)) + [Click(OrderAnotherButton)]
  {
    QuietBatch(row);
    PlannedFull(row);
    SurroundFour(Click(ModalButton), SelectByValue(HeadSelect, Lookup(row, "Head")),
      Click(RadioFor(Lookup(row, "Body"))), InputText(LegsInput, Lookup(row, "Legs")),
      InputText(AddressInput, Lookup(row, "Address")), Click(OrderButton));
  }

  /** Body empty: the radio group is never clicked, and Head, Legs and Address are
      still filled, in that order. */
  lemma RowWithoutBody(row: Row)
    requires Lookup(row, "Head") != "" && Lookup(row, "Body") == ""
    requires Lookup(row, "Legs") != "" && Lookup(row, "Address") != ""
    ensures ProcessOrders([RowVisit(row, QuietPage)]).trace ==
      [Click(ModalButton),
       SelectByValue(HeadSelect, Lookup(row, "Head")),
       InputText(LegsInput, Lookup(row, "Legs")),
       InputText(AddressInput, Lookup(row, "Address")),
       Click(OrderButton)]
      + QuietDetails(Lookup(row, OrderNumberColumn)) + [Click(OrderAnotherButton)]
  {
    QuietBatch(row);
    PlannedWithoutBody(row);
    SurroundThree(Click(ModalButton), SelectByValue(HeadSelect, Lookup(row, "Head")),
      InputText(LegsInput, Lookup(row, "Legs")), InputText(AddressInput, Lookup(row, "Address")),
      Click(OrderButton));
  }

  /** Four actions between two single actions form one six-action display. */
  lemma SurroundFour(m: Action, a: Action, b: Action, c: Action, d: Action, o: Action)
    ensures [m] + [a, b, c, d] + [o] == [m, a, b, c, d, o]
  {
  }

  /** Three actions between two single actions form one five-action display. */
  lemma SurroundThree(m: Action, a: Action, b: Action, c: Action, o: Action)
    ensures [m] + [a, b, c] + [o] == [m, a, b, c, o]
  {
  }

  /** ... and no action of that batch touches the radio group. */
  lemma RowWithoutBodyNoRadio(row: Row)
    requires Lookup(row, "Head") != "" && Lookup(row, "Body") == ""
    requires Lookup(row, "Legs") != "" && Lookup(row, "Address") != ""
    ensures forall a :: a in ProcessOrders([RowVisit(row, QuietPage)]).trace ==> !Touches(a, Fields[1])
  {
    RowWithoutBody(row);
    NoRadioWithoutBody(Lookup(row, "Head"), Lookup(row, "Legs"), Lookup(row, "Address"),
      Lookup(row, OrderNumberColumn));
  }

  lemma NoRadioWithoutBody(head: string, legs: string, address: string, id: string)
    ensures var t := [Click(ModalButton), SelectByValue(HeadSelect, head),
        InputText(LegsInput, legs), InputText(AddressInput, address), Click(OrderButton)]
        + QuietDetails(id) + [Click(OrderAnotherButton)];
      forall a :: a in t ==> !Touches(a, Fields[1])
  {
    var t := [Click(ModalButton), SelectByValue(HeadSelect, head),
      InputText(LegsInput, legs), InputText(AddressInput, address), Click(OrderButton)]
      + QuietDetails(id) + [Click(OrderAnotherButton)];
    assert |ModalButton| < |RadioPrefix| && |OrderButton| < |RadioPrefix| && |OrderAnotherButton| < |RadioPrefix|;
    assert forall a :: a in t && a.Click? ==> a.selector in {ModalButton, OrderButton, OrderAnotherButton};
    ShortClicksTouchNoRadio(t);
  }

  lemma ShortClicksTouchNoRadio(t: seq<Action>)
    requires forall a :: a in t && a.Click? ==> |a.selector| < |RadioPrefix|
    ensures forall a :: a in t ==> !Touches(a, Fields[1])
  {
    assert Kind(Fields[1].selector) == RadioChoice;
  }
}
