/** `process_orders_from_csv` of the robot-order script and what it calls per
    row: dismiss the modal, fill the form, submit and retry while the error
    banner shows, read the receipt, download the preview images, merge them,
    write the PDF, then ask for another order and retry again. Apart from the
    radio click inside field filling, no exception is caught on this path, so
    the first one ends the whole batch. */
module OrderWorkflow {
  import opened Optional
  import opened Actions
  import BannerRetry
  import ImageLayout
  import opened OrderForm
  import opened RobotImages

  const ModalButton := "css:.btn-dark"
  const OrderButton := "id:order"
  const OrderAnotherButton := "id:order-another"
  const ReceiptPanel := "id:receipt"
  const OrderNumberColumn := "Order number"

  datatype PreviewImage = PreviewImage(src: string, size: ImageLayout.Size)

  /** What the site shows while one row is processed. */
  datatype OrderPage = OrderPage(
    failing: set<Action>,          // browser, HTTP and file actions that raise on this row
    bannerAfterOrder: seq<bool>,   // error-banner checks after "Order" is clicked
    receiptHtml: string,           // inner HTML of the receipt
    previews: seq<PreviewImage>,   // the preview <img> elements, in document order
    bannerAfterAnother: seq<bool>, // error-banner checks after "Order another" is clicked
    retryFailing: set<Action>)     // actions that raise when re-issued by a retry loop

  /** One CSV row together with the page it meets. */
  datatype RowVisit = RowVisit(row: Row, page: OrderPage)

  function Srcs(previews: seq<PreviewImage>): (srcs: seq<string>)
    ensures |srcs| == |previews|
    ensures forall i :: 0 <= i < |previews| ==> srcs[i] == previews[i].src
  {
    seq(|previews|, i requires 0 <= i < |previews| => previews[i].src)
  }

  /** The sizes of the downloaded images, in download order. */
  function KeptSizes(previews: seq<PreviewImage>): seq<ImageLayout.Size> {
    seq(|Kept(Srcs(previews))|, k requires 0 <= k < |Kept(Srcs(previews))| => previews[Kept(Srcs(previews))[k]].size)
  }

  /** `n` clicks on `selector`. */
  function Clicks(n: nat, selector: string): seq<Action> {
    seq(n, _ => Click(selector))
  }

  /** The retry clicks a banner costs when none of them is rejected. */
  function RetryClicks(checks: seq<bool>): (n: nat)
    ensures n <= BannerRetry.DefaultMaxRetries
    ensures n == 0 <==> !BannerRetry.Visible(checks, 0)
  {
    BannerRetry.Min(BannerRetry.VisibleRun(checks), BannerRetry.DefaultMaxRetries)
  }

  /** `retry_on_error(selector)` with its default ceiling of 10: one click per
      visible check, up to the ceiling; a rejected click raises after being
      attempted once. */
  function Retry(checks: seq<bool>, selector: string, failing: set<Action>): (r: Run)
    ensures r.Ok() <==> Click(selector) !in failing || !BannerRetry.Visible(checks, 0)
    ensures r.Ok() ==> r.trace == Clicks(RetryClicks(checks), selector)
    ensures !r.Ok() ==> r.trace == [Click(selector)] && r.fault == Some(ActionFailed(Click(selector)))
  {
    BannerRetry.RetryOnError(checks, selector, BannerRetry.DefaultMaxRetries, failing).run
  }

  /** `generate_order_pdf`: merge the images into one page-wide picture as tall
      as the images stacked, then render the PDF of the receipt with that
      picture, under the order's PDF name. */
  function GenerateOrderPdf(orderId: string, receiptHtml: string, sizes: seq<ImageLayout.Size>, failing: set<Action>): (r: Run)
    ensures |r.trace| > 0 && r.trace[0].WriteImage?
    ensures r.trace[0].width == ImageLayout.DefaultPageWidth && r.trace[0].height == ImageLayout.TotalHeight(sizes)
    ensures r.Ok() ==> |r.trace| == 2 && r.trace[1].WritePdf?
    ensures r.Ok() ==> r.trace[1].imagePath == r.trace[0].path
    ensures r.Ok() ==> r.trace[1].path == PdfPath(orderId) && r.trace[1].orderId == orderId && r.trace[1].receiptHtml == receiptHtml
    ensures !r.Ok() ==> r.fault == Some(ActionFailed(r.trace[|r.trace| - 1])) && r.trace[|r.trace| - 1] in failing
  {
    Then(Perform(WriteImage(MergedImagePath(ImageFolder, orderId),
                            ImageLayout.MergeImages(sizes, ImageLayout.DefaultPageWidth).width,
                            ImageLayout.MergeImages(sizes, ImageLayout.DefaultPageWidth).height), failing),
         Perform(WritePdf(PdfPath(orderId), orderId, receiptHtml, MergedImagePath(ImageFolder, orderId)), failing))
  }

  /** `generate_order_details(order_id)`: wait for the receipt, download the
      previews, then produce the PDF; when it completes, the last thing written
      is the order's PDF holding this page's receipt. */
  function GenerateOrderDetails(orderId: string, page: OrderPage): (r: Run)
    ensures |r.trace| > 0 && r.trace[0] == WaitVisible(ReceiptPanel)
    ensures r.Ok() ==> r.trace[|r.trace| - 1] == WritePdf(PdfPath(orderId), orderId, page.receiptHtml, MergedImagePath(ImageFolder, orderId))
    ensures !r.Ok() ==> r.fault == Some(ActionFailed(r.trace[|r.trace| - 1])) && r.trace[|r.trace| - 1] in page.failing
  {
    ThenKeepsShape(DownloadRobotImages(ImageFolder, Srcs(page.previews), page.failing).run,
                   GenerateOrderPdf(orderId, page.receiptHtml, KeptSizes(page.previews), page.failing),
                   page.failing, WritePdf(PdfPath(orderId), orderId, page.receiptHtml, MergedImagePath(ImageFolder, orderId)));
    ThenKeepsShape(Perform(WaitVisible(ReceiptPanel), page.failing),
                   Then(DownloadRobotImages(ImageFolder, Srcs(page.previews), page.failing).run,
                        GenerateOrderPdf(orderId, page.receiptHtml, KeptSizes(page.previews), page.failing)),
                   page.failing, WritePdf(PdfPath(orderId), orderId, page.receiptHtml, MergedImagePath(ImageFolder, orderId)));
    Then(Perform(WaitVisible(ReceiptPanel), page.failing),
    Then(DownloadRobotImages(ImageFolder, Srcs(page.previews), page.failing).run,
         GenerateOrderPdf(orderId, page.receiptHtml, KeptSizes(page.previews), page.failing)))
  }

  /** `fill_order_form(row)`: fields, submit, retry, then the order's artifacts.
      It completes only with every field filled and ends on the PDF named
      after the row's order number. */
  function FillOrderForm(row: Row, page: OrderPage): (r: Run)
    ensures r.Ok() ==> FillFields(row, page.failing).Ok() && Click(OrderButton) !in page.failing
    ensures r.Ok() ==>
      && |r.trace| > 0
      && r.trace[|r.trace| - 1] ==
           WritePdf(PdfPath(Lookup(row, OrderNumberColumn)), Lookup(row, OrderNumberColumn), page.receiptHtml,
                    MergedImagePath(ImageFolder, Lookup(row, OrderNumberColumn)))
  {
    ChainEndsOn(FillFields(row, page.failing),
                Perform(Click(OrderButton), page.failing),
                Retry(page.bannerAfterOrder, OrderButton, page.retryFailing),
                GenerateOrderDetails(Lookup(row, OrderNumberColumn), page),
                WritePdf(PdfPath(Lookup(row, OrderNumberColumn)), Lookup(row, OrderNumberColumn), page.receiptHtml,
                         MergedImagePath(ImageFolder, Lookup(row, OrderNumberColumn))));
    Then(FillFields(row, page.failing),
    Then(Perform(Click(OrderButton), page.failing),
    Then(Retry(page.bannerAfterOrder, OrderButton, page.retryFailing),
         GenerateOrderDetails(Lookup(row, OrderNumberColumn), page))))
  }

  /** Four runs chained: when the chain completes, each run did, and the chain
      ends where the last run ends. */
  lemma ChainEndsOn(a: Run, b: Run, c: Run, d: Run, last: Action)
    requires d.Ok() ==> |d.trace| > 0 && d.trace[|d.trace| - 1] == last
    ensures Then(a, Then(b, Then(c, d))).Ok() ==>
      && a.Ok() && b.Ok() && c.Ok()
      && |Then(a, Then(b, Then(c, d))).trace| > 0
      && Then(a, Then(b, Then(c, d))).trace[|Then(a, Then(b, Then(c, d))).trace| - 1] == last
  {
    var r := Then(a, Then(b, Then(c, d)));
    if r.Ok() {
      assert r.trace == a.trace + b.trace + c.trace + d.trace;
    }
  }

  /** The body of the loop in `process_orders_from_csv` for one row: it always
      starts by dismissing the modal, and a completed row has written its PDF
      and ends on a click asking for another order. */
  function ProcessRow(v: RowVisit): (r: Run)
    ensures |r.trace| > 0 && r.trace[0] == Click(ModalButton)
    ensures r.Ok() ==> r.trace[|r.trace| - 1] == Click(OrderAnotherButton)
    ensures r.Ok() ==>
      WritePdf(PdfPath(Lookup(v.row, OrderNumberColumn)), Lookup(v.row, OrderNumberColumn), v.page.receiptHtml,
               MergedImagePath(ImageFolder, Lookup(v.row, OrderNumberColumn))) in r.trace
  {
    RowShape(Perform(Click(ModalButton), v.page.failing),
             FillOrderForm(v.row, v.page),
             Perform(Click(OrderAnotherButton), v.page.failing),
             Retry(v.page.bannerAfterAnother, OrderAnotherButton, v.page.retryFailing),
             WritePdf(PdfPath(Lookup(v.row, OrderNumberColumn)), Lookup(v.row, OrderNumberColumn), v.page.receiptHtml,
                      MergedImagePath(ImageFolder, Lookup(v.row, OrderNumberColumn))));
    Then(Perform(Click(ModalButton), v.page.failing),
    Then(FillOrderForm(v.row, v.page),
    Then(Perform(Click(OrderAnotherButton), v.page.failing),
         Retry(v.page.bannerAfterAnother, OrderAnotherButton, v.page.retryFailing))))
  }

  /** The modal click, a form that ends on `pdf`, the "order another" click and
      its retries, chained: the chain starts on the modal and, when it
      completes, contains `pdf` and ends on an "order another" click. */
  lemma RowShape(modal: Run, form: Run, another: Run, retry: Run, pdf: Action)
    requires modal.trace == [Click(ModalButton)]
    requires form.Ok() ==> |form.trace| > 0 && form.trace[|form.trace| - 1] == pdf
    requires another.trace == [Click(OrderAnotherButton)]
    requires retry.Ok() ==> forall i :: 0 <= i < |retry.trace| ==> retry.trace[i] == Click(OrderAnotherButton)
    ensures |Then(modal, Then(form, Then(another, retry))).trace| > 0
    ensures Then(modal, Then(form, Then(another, retry))).trace[0] == Click(ModalButton)
    ensures Then(modal, Then(form, Then(another, retry))).Ok() ==>
      var t := Then(modal, Then(form, Then(another, retry))).trace;
      t[|t| - 1] == Click(OrderAnotherButton) && pdf in t
  {
    var r := Then(modal, Then(form, Then(another, retry)));
    if r.Ok() {
      var tail := another.trace + retry.trace;
      assert tail[|tail| - 1] == Click(OrderAnotherButton);
      assert r.trace == modal.trace + form.trace + tail;
      assert pdf in form.trace;
    }
  }

  /** The actions of a row that raises nothing, phase by phase: modal, fields,
      submit and its retries, receipt, downloads, merged image, PDF, "order
      another" and its retries. */
  function CompletedRowTrace(v: RowVisit): seq<Action> {
    [Click(ModalButton)]
      + Planned(v.row)
      + ([Click(OrderButton)] + Clicks(RetryClicks(v.page.bannerAfterOrder), OrderButton))
      + DetailsTrace(Lookup(v.row, OrderNumberColumn), v.page)
      + ([Click(OrderAnotherButton)] + Clicks(RetryClicks(v.page.bannerAfterAnother), OrderAnotherButton))
  }

  /** The actions of `generate_order_details` when nothing raises: the receipt,
      the downloads, the merged image and the PDF. */
  function DetailsTrace(orderId: string, page: OrderPage): seq<Action> {
    [WaitVisible(ReceiptPanel)]
      + DownloadsFor(ImageFolder, Srcs(page.previews), Kept(Srcs(page.previews)))
      + [WriteImage(MergedImagePath(ImageFolder, orderId),
                    ImageLayout.MergeImages(KeptSizes(page.previews), ImageLayout.DefaultPageWidth).width,
                    ImageLayout.MergeImages(KeptSizes(page.previews), ImageLayout.DefaultPageWidth).height),
         WritePdf(PdfPath(orderId), orderId, page.receiptHtml, MergedImagePath(ImageFolder, orderId))]
  }

  lemma GenerateOrderDetailsTrace(orderId: string, page: OrderPage)
    requires GenerateOrderDetails(orderId, page).Ok()
    ensures GenerateOrderDetails(orderId, page).trace == DetailsTrace(orderId, page)
  {
    var downloads := DownloadRobotImages(ImageFolder, Srcs(page.previews), page.failing);
    assert downloads.run.Ok();
    assert downloads.run.trace == DownloadsFor(ImageFolder, Srcs(page.previews), Kept(Srcs(page.previews)));
  }

  lemma FillOrderFormTrace(row: Row, page: OrderPage)
    requires FillOrderForm(row, page).Ok()
    ensures FillOrderForm(row, page).trace ==
      Planned(row)
        + ([Click(OrderButton)] + Clicks(RetryClicks(page.bannerAfterOrder), OrderButton))
        + GenerateOrderDetails(Lookup(row, OrderNumberColumn), page).trace
  {
    var fields := FillFields(row, page.failing);
    var submit := Perform(Click(OrderButton), page.failing);
    var retry := Retry(page.bannerAfterOrder, OrderButton, page.retryFailing);
    var details := GenerateOrderDetails(Lookup(row, OrderNumberColumn), page);
    ThenChain(fields, submit, retry, details);
  }

  /** Four runs chained with `Then` that complete: their traces, one after another. */
  lemma ThenChain(a: Run, b: Run, c: Run, d: Run)
    requires Then(a, Then(b, Then(c, d))).Ok()
    ensures a.Ok() && b.Ok() && c.Ok()
    ensures Then(a, Then(b, Then(c, d))).trace == a.trace + (b.trace + c.trace) + d.trace
  {
  }

  /** A row that completes goes through the phases in order, and field filling
      happens once, before the first submit: retries never re-enter it. */
  lemma CompletedRowPhases(v: RowVisit)
    requires ProcessRow(v).Ok()
    ensures ProcessRow(v).trace == CompletedRowTrace(v)
  {
    var page := v.page;
    var orderId := Lookup(v.row, OrderNumberColumn);
    FillOrderFormTrace(v.row, page);
    GenerateOrderDetailsTrace(orderId, page);
    var form := FillOrderForm(v.row, page);
    var tail := [Click(OrderAnotherButton)] + Clicks(RetryClicks(page.bannerAfterAnother), OrderAnotherButton);
    var submit := [Click(OrderButton)] + Clicks(RetryClicks(page.bannerAfterOrder), OrderButton);
    var details := GenerateOrderDetails(orderId, page).trace;
    assert ProcessRow(v).trace == [Click(ModalButton)] + (form.trace + tail);
    AppendFlattensFive([Click(ModalButton)], Planned(v.row), submit, details, tail);
  }

  /** Concatenation of five parts does not depend on grouping. */
  lemma AppendFlattensFive(a: seq<Action>, b: seq<Action>, c: seq<Action>, d: seq<Action>, e: seq<Action>)
    ensures a + (b + c + d + e) == a + b + c + d + e
  {
  }

  lemma {:induction false} CountClicks(n: nat, selector: string, a: Action)
    ensures Count(Clicks(n, selector), a) == if a == Click(selector) then n else 0
    decreases n
  {
    if n > 0 {
      assert Clicks(n, selector) == [Click(selector)] + Clicks(n - 1, selector);
      CountAppend([Click(selector)], Clicks(n - 1, selector), a);
      CountClicks(n - 1, selector, a);
      assert [Click(selector)][1..] == [];
    }
  }

  lemma SubmitNotAFieldAction(row: Row)
    ensures Click(OrderButton) !in Planned(row)
  {
    forall x: string
      ensures RadioFor(x) != OrderButton
    {
      assert RadioPrefix[0] == 'c';
      assert RadioFor(x)[0] == RadioPrefix[0];
    }
  }

  /** Occurrences in a concatenation of five parts add up. */
  lemma CountOverFiveParts(p1: seq<Action>, p2: seq<Action>, p3: seq<Action>, p4: seq<Action>, p5: seq<Action>, a: Action)
    ensures Count(p1 + p2 + p3 + p4 + p5, a) == Count(p1, a) + Count(p2, a) + Count(p3, a) + Count(p4, a) + Count(p5, a)
  {
    CountAppend(p1, p2, a);
    CountAppend(p1 + p2, p3, a);
    CountAppend(p1 + p2 + p3, p4, a);
    CountAppend(p1 + p2 + p3 + p4, p5, a);
  }

  lemma ClickPhaseCount(first: string, n: nat, selector: string, a: Action)
    ensures Count([Click(first)] + Clicks(n, selector), a) ==
      (if a == Click(first) then 1 else 0) + (if a == Click(selector) then n else 0)
  {
    CountAppend([Click(first)], Clicks(n, selector), a);
    CountClicks(n, selector, a);
    assert [Click(first)][1..] == [];
  }

  lemma DetailsPhaseCount(ds: seq<Action>, x: Action, y: Action, a: Action)
    requires forall d :: d in ds ==> d.Download?
    requires a.Click? && !x.Click? && !y.Click?
    ensures Count([WaitVisible(ReceiptPanel)] + ds + [x, y], a) == 0
  {
    CountAbsent([WaitVisible(ReceiptPanel)] + ds + [x, y], a);
  }

  /** A completed row clicks "Order" once, plus once per retry; the retries are
      bounded by the ceiling of 10. */
  lemma SubmitClickCount(v: RowVisit)
    requires ProcessRow(v).Ok()
    ensures Count(ProcessRow(v).trace, Click(OrderButton)) == 1 + RetryClicks(v.page.bannerAfterOrder)
    ensures RetryClicks(v.page.bannerAfterOrder) <= BannerRetry.DefaultMaxRetries
  {
    CompletedRowPhases(v);
    var page := v.page;
    var orderId := Lookup(v.row, OrderNumberColumn);
    var a := Click(OrderButton);
    var n1 := RetryClicks(page.bannerAfterOrder);
    var n2 := RetryClicks(page.bannerAfterAnother);
    CountOverFiveParts([Click(ModalButton)], Planned(v.row), [Click(OrderButton)] + Clicks(n1, OrderButton),
      DetailsTrace(orderId, page), [Click(OrderAnotherButton)] + Clicks(n2, OrderAnotherButton), a);
    CountAbsent([Click(ModalButton)], a);
    SubmitNotAFieldAction(v.row);
    CountAbsent(Planned(v.row), a);
    ClickPhaseCount(OrderButton, n1, OrderButton, a);
    DetailsHaveNoSubmit(orderId, page);
    ClickPhaseCount(OrderAnotherButton, n2, OrderAnotherButton, a);
  }

  /** Producing the order's artifacts never clicks "Order". */
  lemma DetailsHaveNoSubmit(orderId: string, page: OrderPage)
    ensures Count(DetailsTrace(orderId, page), Click(OrderButton)) == 0
  {
    var canvas := ImageLayout.MergeImages(KeptSizes(page.previews), ImageLayout.DefaultPageWidth);
    var merged := MergedImagePath(ImageFolder, orderId);
    var ds := DownloadsFor(ImageFolder, Srcs(page.previews), Kept(Srcs(page.previews)));
    var x := WriteImage(merged, canvas.width, canvas.height);
    var y := WritePdf(PdfPath(orderId), orderId, page.receiptHtml, merged);
    assert DetailsTrace(orderId, page) == [WaitVisible(ReceiptPanel)] + ds + [x, y];
    DownloadsAreDownloads(ImageFolder, Srcs(page.previews), Kept(Srcs(page.previews)));
    DetailsPhaseCount(ds, x, y, Click(OrderButton));
  }

  lemma {:induction false} DownloadsAreDownloads(folder: string, srcs: seq<string>, ks: seq<nat>)
    requires forall k :: 0 <= k < |ks| ==> ks[k] < |srcs|
    ensures forall a :: a in DownloadsFor(folder, srcs, ks) ==> a.Download?
    decreases |ks|
  {
    if |ks| > 0 {
      DownloadsAreDownloads(folder, srcs, ks[1..]);
    }
  }

  // ---------------------------------------------------------------- the batch

  /** The runs' actions, one after another. */
  function Concat(runs: seq<Run>): seq<Action>
    decreases |runs|
  {
    if |runs| == 0 then [] else runs[0].trace + Concat(runs[1..])
  }

  datatype Batch = Batch(trace: seq<Action>, completed: nat, fault: Option<Fault>)

  /** Runs in order until the first that raised: that one ends the batch. */
  function RunUntilFault(runs: seq<Run>): (b: Batch)
    ensures b.completed <= |runs|
    ensures forall i :: 0 <= i < b.completed ==> runs[i].Ok()
    ensures b.fault.None? <==> b.completed == |runs|
    ensures b.completed < |runs| ==> !runs[b.completed].Ok() && b.fault == runs[b.completed].fault
    ensures b.trace == Concat(runs[..b.completed]) + (if b.completed < |runs| then runs[b.completed].trace else [])
    decreases |runs|
  {
    if |runs| == 0 then Batch([], 0, None)
    else if !runs[0].Ok() then
      assert runs[..0] == [];
      Batch(runs[0].trace, 0, runs[0].fault)
    else
      assert runs[..1 + RunUntilFault(runs[1..]).completed][1..] == runs[1..][..RunUntilFault(runs[1..]).completed];
      Batch(runs[0].trace + RunUntilFault(runs[1..]).trace, 1 + RunUntilFault(runs[1..]).completed,
            RunUntilFault(runs[1..]).fault)
  }

  function RowRuns(visits: seq<RowVisit>): (runs: seq<Run>)
    ensures |runs| == |visits|
    ensures forall i :: 0 <= i < |visits| ==> runs[i] == ProcessRow(visits[i])
  {
    seq(|visits|, i requires 0 <= i < |visits| => ProcessRow(visits[i]))
  }

  /** `process_orders_from_csv`: the rows in file order; nothing catches an
      exception, so the first one ends the batch and no later row is touched. */
  function ProcessOrders(visits: seq<RowVisit>): (b: Batch)
    ensures b.completed <= |visits|
    ensures forall i :: 0 <= i < b.completed ==> ProcessRow(visits[i]).Ok()
    ensures b.fault.None? <==> b.completed == |visits|
    ensures b.completed < |visits| ==>
      !ProcessRow(visits[b.completed]).Ok() && b.fault == ProcessRow(visits[b.completed]).fault
    ensures b.trace == Concat(RowRuns(visits)[..b.completed])
      + (if b.completed < |visits| then ProcessRow(visits[b.completed]).trace else [])
  {
    RunUntilFault(RowRuns(visits))
  }

  lemma {:induction false} ConcatHasRun(runs: seq<Run>, i: nat, a: Action)
    requires i < |runs|
    requires a in runs[i].trace
    ensures a in Concat(runs)
    decreases |runs|
  {
    if i > 0 {
      ConcatHasRun(runs[1..], i - 1, a);
    }
  }

  /** Every row the batch completed has its PDF, whatever happened after it. */
  lemma CompletedOrdersHavePdfs(visits: seq<RowVisit>, i: nat)
    requires i < ProcessOrders(visits).completed
    ensures exists html, merged ::
      WritePdf(PdfPath(Lookup(visits[i].row, OrderNumberColumn)), Lookup(visits[i].row, OrderNumberColumn), html, merged)
        in ProcessOrders(visits).trace
  {
    var b := ProcessOrders(visits);
    var orderId := Lookup(visits[i].row, OrderNumberColumn);
    var html, merged := visits[i].page.receiptHtml, MergedImagePath(ImageFolder, orderId);
    var runs := RowRuns(visits)[..b.completed];
    assert runs[i] == ProcessRow(visits[i]);
    ConcatHasRun(runs, i, WritePdf(PdfPath(orderId), orderId, html, merged));
  }
}
