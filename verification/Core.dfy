/** The cell values and row limits that every driver shares. */
module Core {
  import opened Encoding

  datatype CellValue = Null | Text(text: string) | Bytes(bytes: seq<Byte>)

  /** What a row stream yields: one header, then batches of rows. */
  datatype StreamElement<R> = Header(columns: seq<string>, types: seq<string>) | Rows(rows: seq<R>)

  const EMERGENCY_MAX: nat := 5_000_000

  function Min(a: nat, b: nat): nat {
    if a <= b then a else b
  }
}
