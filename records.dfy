/**
 * The product sheet and the two steps that turn it into form data: find the
 * row of the requested product, then bind the fixed PDF-field-to-column map
 * against that row.
 */
module Records {
  import opened Wrappers

  /**
   * A spreadsheet cell as pandas hands it over. Integer and float columns
   * compare numerically (5 == 5.0), so both are `Number`; an empty cell is
   * NaN, which equals nothing.
   */
  datatype Cell = Number(x: real) | Text(s: string) | Blank

  /** One row of the sheet, indexed by column name. */
  type Row = map<string, Cell>

  /** The sheet: its column names and its rows, in file order. */
  datatype Sheet = Sheet(columns: set<string>, rows: seq<Row>)

  /**
   * Every row is indexed by all the sheet's columns, as a pandas row is; an
   * empty cell is there as `Blank`, not missing.
   */
  predicate WellFormed(sheet: Sheet)
  {
    forall r :: r in sheet.rows ==> r.Keys == sheet.columns
  }

  /** The column that holds the product code. */
  const ProductColumn := "PRODUCTO"

  /**
   * PDF field name to sheet column, in the order the binding loop visits it.
   * The second field name is cut one character shorter than its column.
   */
  const PdfToExcel: seq<(string, string)> := [
    ("Potencia Nominal kW", "Potencia Nominal kW"),
    ("Fecha de solicitud de licencia de obra en su defec", "Fecha de solicitud de licencia de obra en su defect"),
    ("Potencia total inicial", "Potencia total inicial"),
    ("Potencia a modificar", "Potencia a modificar"),
    ("Potencia total final", "Potencia total final"),
    ("Administrativo", "Administrativo")
  ]

  /** A row is the product's when its code cell equals the (integer) code. */
  predicate RowMatches(row: Row, code: nat)
  {
    ProductColumn in row && row[ProductColumn] == Number(code as real)
  }

  /** The code is among the values of the code column. */
  predicate CodeListed(rows: seq<Row>, code: nat)
  {
    exists i :: 0 <= i < |rows| && RowMatches(rows[i], code)
  }

  /** The position of the first row of the product, if any. */
  function FirstMatch(rows: seq<Row>, code: nat): (r: Option<nat>)
    ensures r.Some? <==> CodeListed(rows, code)
    ensures r.Some? ==> r.value < |rows| && RowMatches(rows[r.value], code)
    ensures r.Some? ==> forall i :: 0 <= i < r.value ==> !RowMatches(rows[i], code)
  {
    if rows == [] then None
    else if RowMatches(rows[0], code) then Some(0)
    else
      match FirstMatch(rows[1..], code)
      case None => None
      case Some(k) => Some(k + 1)
  }

  /** Why no row was found: the code column is missing (a KeyError), or no row has the code. */
  datatype LookupError = NoProductColumn | ProductNotFound

  /** The row bound to the form: the first row whose code equals `code`. */
  function FindProduct(sheet: Sheet, code: nat): (r: Result<Row, LookupError>)
    ensures r == Failure(NoProductColumn) <==> ProductColumn !in sheet.columns
    ensures r == Failure(ProductNotFound) <==>
              ProductColumn in sheet.columns && !CodeListed(sheet.rows, code)
    ensures r.Success? ==>
              exists k :: 0 <= k < |sheet.rows| && r.value == sheet.rows[k] && RowMatches(sheet.rows[k], code)
                && forall i :: 0 <= i < k ==> !RowMatches(sheet.rows[i], code)
  {
    if ProductColumn !in sheet.columns then Failure(NoProductColumn)
    else
      match FirstMatch(sheet.rows, code)
      case None => Failure(ProductNotFound)
      case Some(k) => Success(sheet.rows[k])
  }

  /** No PDF field is listed twice in the field map. */
  predicate DistinctFields(fieldMap: seq<(string, string)>)
  {
    forall i, j :: 0 <= i < j < |fieldMap| ==> fieldMap[i].0 != fieldMap[j].0
  }

  /** The field map binds each PDF field at most once. */
  lemma PdfToExcelDistinct()
    ensures DistinctFields(PdfToExcel)
  {
  }

  /**
   * The form data bound from `row`: the entries of `fieldMap` visited in
   * order, each whose column the row has put in as field := show(cell).
   */
  function Binding(row: Row, fieldMap: seq<(string, string)>, show: Cell -> string): (r: map<string, string>)
    ensures forall f :: f in r <==> exists i :: 0 <= i < |fieldMap| && fieldMap[i].0 == f && fieldMap[i].1 in row
    ensures forall f :: f in r ==>
              exists i :: 0 <= i < |fieldMap| && fieldMap[i].0 == f && fieldMap[i].1 in row
                && r[f] == show(row[fieldMap[i].1])
  {
    if fieldMap == [] then map[]
    else
      var (field, column) := fieldMap[|fieldMap| - 1];
      var earlier := Binding(row, fieldMap[..|fieldMap| - 1], show);
      if column in row then earlier[field := show(row[column])] else earlier
  }

  /** With distinct field names, each field holds the shown cell of its own column. */
  lemma {:induction false} BindingValues(row: Row, fieldMap: seq<(string, string)>, show: Cell -> string)
    requires DistinctFields(fieldMap)
    ensures forall i :: 0 <= i < |fieldMap| && fieldMap[i].1 in row ==>
              fieldMap[i].0 in Binding(row, fieldMap, show)
              && Binding(row, fieldMap, show)[fieldMap[i].0] == show(row[fieldMap[i].1])
  {
    if fieldMap != [] {
      var n := |fieldMap| - 1;
      var prefix := fieldMap[..n];
      assert DistinctFields(prefix);
      BindingValues(row, prefix, show);
      forall i | 0 <= i < n
        ensures prefix[i] == fieldMap[i] && fieldMap[i].0 != fieldMap[n].0
      {
      }
    }
  }

  /**
   * The keys of the binding are exactly the fields whose column the row
   * has, and each is bound to the shown value of that column's cell.
   */
  lemma BindingContents(row: Row, fieldMap: seq<(string, string)>, show: Cell -> string)
    requires DistinctFields(fieldMap)
    ensures Binding(row, fieldMap, show).Keys ==
              set i | 0 <= i < |fieldMap| && fieldMap[i].1 in row :: fieldMap[i].0
    ensures forall i :: 0 <= i < |fieldMap| && fieldMap[i].1 in row ==>
              Binding(row, fieldMap, show)[fieldMap[i].0] == show(row[fieldMap[i].1])
  {
    var r := Binding(row, fieldMap, show);
    var keys := set i | 0 <= i < |fieldMap| && fieldMap[i].1 in row :: fieldMap[i].0;
    assert forall f :: f in r <==> f in keys;
    BindingValues(row, fieldMap, show);
  }

  /** Binding against a row that has none of the mapped columns yields no data. */
  lemma {:induction false} BindingNoColumns(row: Row, fieldMap: seq<(string, string)>, show: Cell -> string)
    requires forall i :: 0 <= i < |fieldMap| ==> fieldMap[i].1 !in row
    ensures Binding(row, fieldMap, show) == map[]
  {
    if fieldMap != [] {
      BindingNoColumns(row, fieldMap[..|fieldMap| - 1], show);
    }
  }

  /**
   * The binding loop: start from an empty dictionary and, for each entry of
   * the field map in turn, store the shown cell when the row has the column.
   */
  method BindRecord(row: Row, fieldMap: seq<(string, string)>, show: Cell -> string)
    returns (data: map<string, string>)
    requires DistinctFields(fieldMap)
    ensures data == Binding(row, fieldMap, show)
    ensures data.Keys == set i | 0 <= i < |fieldMap| && fieldMap[i].1 in row :: fieldMap[i].0
    ensures forall i :: 0 <= i < |fieldMap| && fieldMap[i].1 in row ==>
              data[fieldMap[i].0] == show(row[fieldMap[i].1])
  {
    data := map[];
    for k := 0 to |fieldMap|
      invariant data == Binding(row, fieldMap[..k], show)
    {
      var (field, column) := fieldMap[k];
      assert fieldMap[..k + 1][..k] == fieldMap[..k];
      if column in row {
        data := data[field := show(row[column])];
      }
    }
    assert fieldMap[..|fieldMap|] == fieldMap;
    BindingContents(row, fieldMap, show);
  }
}
