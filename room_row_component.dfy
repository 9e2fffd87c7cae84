/**
 * One row of the admin room listing and the getters that turn its cell
 * text into values.
 */
module RoomRow {
  import opened Wrappers
  import opened JsText

  /** The text content of a row's cells; `None` where `textContent()` is null. */
  datatype RowCells = RowCells(
    roomName: Option<string>,
    roomType: Option<string>,
    accessible: Option<string>,
    roomPrice: Option<string>,
    details: Option<string>)

  /** A row component wraps the `row`-th room listing row of the page. */
  datatype RoomRowComponent = RoomRowComponent(row: nat)

  /** The cells the component's row shows on a page whose rows are `rows`. */
  function Cells(rows: seq<RowCells>, c: RoomRowComponent): RowCells
    requires c.row < |rows|
  {
    rows[c.row]
  }

  function GetRoomName(cells: RowCells): string { TextOr(cells.roomName, "") }

  function GetType(cells: RowCells): string { TextOr(cells.roomType, "") }

  function GetDetails(cells: RowCells): string { TextOr(cells.details, "") }

  /** True exactly when the cell text is "true". */
  function GetAccessible(cells: RowCells): bool { cells.accessible == Some("true") }

  /** The cell text read as a decimal integer, "0" standing in for null or empty text. */
  function GetPrice(cells: RowCells): JsNumber { ParseInt(TextOr(cells.roomPrice, "0")) }

  /** The text getters turn a null or empty cell into the empty string, and pass other text through. */
  lemma TextGettersDefaultToEmpty(cells: RowCells)
    ensures GetRoomName(cells) == (if cells.roomName.Some? then cells.roomName.value else "")
    ensures GetType(cells) == (if cells.roomType.Some? then cells.roomType.value else "")
    ensures GetDetails(cells) == (if cells.details.Some? then cells.details.value else "")
  {
  }

  /** Accessible reads back the flag `b.toString()` wrote, and is false for any other text. */
  lemma AccessibleReadsFlag(cells: RowCells, b: bool)
    ensures cells.accessible == Some(BoolToString(b)) ==> GetAccessible(cells) == b
    ensures cells.accessible != Some("true") ==> !GetAccessible(cells)
  {
  }

  /** A missing or empty price cell reads as 0. */
  lemma PriceDefaultsToZero(cells: RowCells)
    requires cells.roomPrice == None || cells.roomPrice == Some("")
    ensures GetPrice(cells) == Num(0)
  {
    ParseIntRoundTrip(0);
    assert IntToDecimal(0) == "0";
  }

  /**
   * The price is the value of the digits after any leading white space and an optional
   * sign, negated after a minus; anything after the digits is ignored.
   */
  lemma PriceReadsLeadingDigits(cells: RowCells, w: string, sign: string, ds: string, rest: string)
    requires AllWhiteSpace(w)
    requires sign == "" || sign == "-" || sign == "+"
    requires ds != [] && AllDigits(ds)
    requires rest == [] || !IsDigit(rest[0])
    requires cells.roomPrice == Some(w + sign + ds + rest)
    ensures GetPrice(cells) ==
            if sign == "-" then Num(-(DigitsValue(ds) as int)) else Num(DigitsValue(ds))
  {
    ParseIntSignedDigits(w, sign, ds, rest);
  }

  /**
   * Non-empty text with no digit after its leading white space and optional sign is
   * NaN, not 0.
   */
  lemma PriceWithoutDigitsIsNaN(cells: RowCells, w: string, sign: string, rest: string)
    requires AllWhiteSpace(w)
    requires sign == "" || sign == "-" || sign == "+"
    requires rest == [] || !IsDigit(rest[0])
    requires sign == "" && rest != [] ==> !IsWhiteSpace(rest[0]) && rest[0] != '-' && rest[0] != '+'
    requires w + sign + rest != ""
    requires cells.roomPrice == Some(w + sign + rest)
    ensures GetPrice(cells) == NaN
  {
    ParseIntNoDigits(w, sign, rest);
  }

  /** A price written with `toString()` reads back as the same number. */
  lemma PriceRoundTrip(cells: RowCells, n: int)
    requires cells.roomPrice == Some(IntToDecimal(n))
    ensures GetPrice(cells) == Num(n)
  {
    ParseIntRoundTrip(n);
  }
}
