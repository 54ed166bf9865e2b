/**
 * What the "Generar PDF" button does once both files are uploaded: look up
 * the product, bind its row to the form fields, and fill the template.
 */
module App {
  import opened Wrappers
  import opened FormFill
  import opened PdfForm
  import opened Records

  /**
   * How a run ends: a filled PDF is offered for download, the product code
   * is reported missing, or an exception is reported (a sheet without the
   * code column, or a /T that has no text).
   */
  datatype Outcome = Generated | NotFound | Failed

  /** Binding the found row to the form fields and filling the template with it. */
  method FillWithRow(row: Row, show: Cell -> string, pages: seq<Page>) returns (ok: bool)
    modifies Widgets(pages)
    ensures var data := Binding(row, PdfToExcel, show);
      && (ok <==> FillPages(old(Snapshot(pages)), data).Some?)
      && (ok ==> Snapshot(pages) == FillPages(old(Snapshot(pages)), data).value)
  {
    PdfToExcelDistinct();
    var data := BindRecord(row, PdfToExcel, show);
    ok := Fill(pages, data);
  }

  /**
   * The body of the button handler. `show` is Python's str() on a cell;
   * `pages` is the parsed template. When the lookup fails the template is
   * left alone; otherwise it is filled with the bound row, and the run
   * succeeds exactly when that fill does.
   */
  method GeneratePdf(sheet: Sheet, producto: nat, show: Cell -> string, pages: seq<Page>)
    returns (outcome: Outcome)
    requires WellFormed(sheet)
    modifies Widgets(pages)
    ensures outcome == NotFound <==> FindProduct(sheet, producto) == Failure(ProductNotFound)
    ensures FindProduct(sheet, producto) == Failure(NoProductColumn) ==> outcome == Failed
    ensures FindProduct(sheet, producto).Failure? ==>
              forall a :: a in Widgets(pages) ==> a.dict == old(a.dict)
    ensures FindProduct(sheet, producto).Success? ==>
              var data := Binding(FindProduct(sheet, producto).value, PdfToExcel, show);
              && (outcome == Generated <==> FillPages(old(Snapshot(pages)), data).Some?)
              && (outcome == Generated ==> Snapshot(pages) == FillPages(old(Snapshot(pages)), data).value)
              && (outcome != Generated ==> outcome == Failed)
  {
    match FindProduct(sheet, producto) {
      case Failure(NoProductColumn) =>
        return Failed;
      case Failure(ProductNotFound) =>
        return NotFound;
      case Success(row) =>
        var ok := FillWithRow(row, show, pages);
        outcome := if ok then Generated else Failed;
    }
  }
}
