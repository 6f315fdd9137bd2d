/**
 * `save_order`: the orders file as an append-only sequence of rows, with the
 * column header written only when the file did not exist yet.
 */
module OrderStore {
  import opened Strings
  import opened Dates

  type Row = seq<string>

  const HEADER: Row := ["user_id", "category", "product", "quantity", "delivery_date", "created_at"]

  /** A data row as a confirmation writes it: one cell per column, a digit-string quantity, a normalised date. */
  predicate IsOrderRow(row: Row) {
    |row| == |HEADER| && IsDigitString(row[3]) && IsNormalDate(row[4])
  }

  /** A file this bot created: empty, or the header followed by order rows only. */
  predicate WellFormedLog(rows: seq<Row>) {
    rows == [] || (rows[0] == HEADER && forall i :: 1 <= i < |rows| ==> IsOrderRow(rows[i]))
  }

  /** The rows of the file after one `save_order(row)`, given whether it existed before. */
  function AfterSave(fileExists: bool, rows: seq<Row>, row: Row): (r: seq<Row>)
    ensures |r| == |rows| + (if fileExists then 1 else 2)
    ensures r[..|rows|] == rows
    ensures r[|r| - 1] == row
    ensures !fileExists ==> r[|rows|] == HEADER
  {
    rows + (if fileExists then [] else [HEADER]) + [row]
  }

  /** The header cannot be mistaken for an order: its quantity cell is not a number. */
  lemma HeaderIsNotAnOrder()
    ensures !IsOrderRow(HEADER)
  {
    assert !IsDigit(HEADER[3][0]);
  }

  /**
   * Saving an order row into a file this bot created keeps it well formed,
   * and the header stays the first row and the only one.
   */
  lemma SaveKeepsWellFormed(fileExists: bool, rows: seq<Row>, row: Row)
    requires WellFormedLog(rows) && (fileExists <==> rows != [])
    requires IsOrderRow(row)
    ensures WellFormedLog(AfterSave(fileExists, rows, row))
    ensures forall i :: 0 <= i < |AfterSave(fileExists, rows, row)| ==>
      (AfterSave(fileExists, rows, row)[i] == HEADER <==> i == 0)
  {
    HeaderIsNotAnOrder();
    var r := AfterSave(fileExists, rows, row);
    assert forall i :: 1 <= i < |rows| ==> r[i] == rows[i];
  }

  /** The orders file: whether it exists, and the rows it holds in order. */
  class OrderLog {
    var fileExists: bool
    var rows: seq<Row>

    /** A file that does not exist holds nothing. */
    ghost predicate Valid()
      reads this
    {
      !fileExists ==> rows == []
    }

    constructor (fileExists: bool, rows: seq<Row>)
      requires !fileExists ==> rows == []
      ensures Valid()
      ensures this.fileExists == fileExists && this.rows == rows
    {
      this.fileExists := fileExists;
      this.rows := rows;
    }

    /** `save_order(data)`: open for append (creating the file), header first if the file is new, then the row. */
    method SaveOrder(row: Row)
      requires Valid()
      modifies this
      ensures Valid() && fileExists
      ensures rows == AfterSave(old(fileExists), old(rows), row)
    {
      var existed := fileExists;
      fileExists := true;
      if !existed {
        rows := rows + [HEADER];
      }
      rows := rows + [row];
    }
  }
}
