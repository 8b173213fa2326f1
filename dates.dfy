/** `parse_sheet_date` and `to_crm_date`, over a date library passed in as a value. */
module Dates {
  import opened Wrappers
  import opened Text

  /** The date library: dateutil's day-first `parse` (None where it raises) into
      instants that compare as integers, and `strftime` with "%Y-%m-%d" and "%d-%m-%Y". */
  datatype Calendar = Calendar(
    parse: string -> Option<int>,
    isoDate: int -> string,
    dayFirstDate: int -> string)

  /** `parse_sheet_date`: None for a blank value, else the library's reading of the stripped text. */
  function ParseSheetDate(cal: Calendar, value: string): Option<int>
  {
    var v := Strip(value);
    if v == "" then None else cal.parse(v)
  }

  /** Text made only of white space never yields a date, whatever the parser does. */
  lemma BlankIsNoDate(cal: Calendar, value: string)
    requires forall k :: 0 <= k < |value| ==> IsSpace(value[k])
    ensures ParseSheetDate(cal, value) == None
  {
    StripBlank(value);
  }

  /** Surrounding white space does not change the date read from a cell. */
  lemma ParseIgnoresPadding(cal: Calendar, value: string)
    ensures ParseSheetDate(cal, value) == ParseSheetDate(cal, Strip(value))
  {
    StripIdempotent(value);
  }

  /** `to_crm_date`: "" without a date, else the "%Y-%m-%d" text of the date. */
  function ToCrmDate(cal: Calendar, dt: Option<int>): string
  {
    match dt
    case None => ""
    case Some(d) => cal.isoDate(d)
  }

  /** A cell read by `parse_sheet_date` and written back by `to_crm_date`: "" for a blank cell or
      one the parser cannot read, otherwise the "%Y-%m-%d" text of the date the stripped cell
      names; white space around the cell never changes the text. */
  lemma CellToCrmDate(cal: Calendar, value: string)
    ensures var r := ToCrmDate(cal, ParseSheetDate(cal, value)); var v := Strip(value);
      && (v == "" || cal.parse(v) == None ==> r == "")
      && (v != "" && cal.parse(v).Some? ==> r == cal.isoDate(cal.parse(v).value))
      && r == ToCrmDate(cal, ParseSheetDate(cal, v))
  {
    ParseIgnoresPadding(cal, value);
  }
}
