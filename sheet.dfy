/** Sheet addressing: A1 column letters, the header map, the row dictionary,
    `ensure_col`, and the queued cell writes with the batch flush. */
module Sheet {
  import opened Wrappers

  // ---------------------------------------------------------------------------
  // Column letters (col_to_a1)
  // ---------------------------------------------------------------------------

  /** The letters `col_to_a1` produces: bijective base 26 with digits A..Z. */
  function Letters(col: int): string
    decreases col
  {
    if col <= 0 then "" else Letters((col - 1) / 26) + [(65 + (col - 1) % 26) as char]
  }

  /** The loop of `col_to_a1`: peel off `divmod(col - 1, 26)` and prepend a letter. */
  method ColToA1(col: int) returns (letters: string)
    ensures letters == Letters(col)
  {
    letters := "";
    var c := col;
    while c > 0
      invariant Letters(c) + letters == Letters(col)
      decreases c
    {
      var q, rem := (c - 1) / 26, (c - 1) % 26;
      letters := [(65 + rem) as char] + letters;
      c := q;
    }
  }

  predicate IsLetters(s: string)
  {
    forall i :: 0 <= i < |s| ==> 'A' <= s[i] <= 'Z'
  }

  /** Decoding of bijective base-26 column letters. */
  function LettersValue(s: string): int
  {
    if s == [] then 0 else LettersValue(s[..|s| - 1]) * 26 + (s[|s| - 1] as int - 64)
  }

  /** A positive column gets a non-empty name made of 'A'..'Z' only; no other column gets one. */
  lemma {:induction false} LettersShape(col: int)
    ensures col >= 1 <==> Letters(col) != ""
    ensures IsLetters(Letters(col))
    decreases col
  {
    if col > 0 {
      LettersShape((col - 1) / 26);
    }
  }

  /** Decoding the letters of a column gives the column back. */
  lemma {:induction false} LettersRoundTrip(col: nat)
    ensures LettersValue(Letters(col)) == col
    decreases col
  {
    if col > 0 {
      var q, rem := (col - 1) / 26, (col - 1) % 26;
      LettersRoundTrip(q);
      var s := Letters(col);
      assert s[..|s| - 1] == Letters(q);
      assert LettersValue(s) == q * 26 + rem + 1;
    }
  }

  lemma DivModDigit(v: int, d: int)
    requires v >= 0 && 1 <= d <= 26
    ensures (v * 26 + d - 1) / 26 == v && (v * 26 + d - 1) % 26 == d - 1
  {
  }

  /** Every string of capital letters is the name of exactly one column: its value. */
  lemma {:induction false} LettersOnto(s: string)
    requires IsLetters(s)
    ensures LettersValue(s) >= 0
    ensures Letters(LettersValue(s)) == s
    decreases |s|
  {
    if s != [] {
      var p := s[..|s| - 1];
      LettersOnto(p);
      var v, d := LettersValue(p), s[|s| - 1] as int - 64;
      DivModDigit(v, d);
      assert Letters(v * 26 + d) == Letters(v) + [(65 + d - 1) as char];
      assert s == p + [s[|s| - 1]];
    }
  }

  /** Distinct columns get distinct letters. */
  lemma LettersInjective(a: nat, b: nat)
    requires Letters(a) == Letters(b)
    ensures a == b
  {
    LettersRoundTrip(a);
    LettersRoundTrip(b);
  }

  // ---------------------------------------------------------------------------
  // Header map and row dictionary
  // ---------------------------------------------------------------------------

  /** `header_to_index`: each name to its 1-based column; a repeated name keeps its last column. */
  function HeaderToIndex(header: seq<string>): map<string, nat>
  {
    if header == [] then map[]
    else HeaderToIndex(header[..|header| - 1])[header[|header| - 1] := |header|]
  }

  /** The keys of `header_to_index` are the header names, each mapped to a column
      that holds it, and no later column holds it. */
  lemma {:induction false} HeaderToIndexShape(header: seq<string>)
    ensures forall h :: h in HeaderToIndex(header) <==> h in header
    ensures forall h :: h in HeaderToIndex(header) ==>
      1 <= HeaderToIndex(header)[h] <= |header| && header[HeaderToIndex(header)[h] - 1] == h
    ensures forall h, j :: h in HeaderToIndex(header) && HeaderToIndex(header)[h] <= j < |header| ==> header[j] != h
    decreases |header|
  {
    if header != [] {
      var init := header[..|header| - 1];
      HeaderToIndexShape(init);
      assert forall h :: h in header <==> h in init || h == header[|header| - 1];
    }
  }

  /** The cell at 0-based index `i`, or "" past the end of the row. */
  function CellOr(row: seq<string>, i: int): string
  {
    if 0 <= i < |row| then row[i] else ""
  }

  /** `row_to_dict`, built left to right like the comprehension (a repeated name keeps its last cell). */
  function RowToDict(header: seq<string>, row: seq<string>): map<string, string>
  {
    if header == [] then map[]
    else
      var init := header[..|header| - 1];
      var last := header[|header| - 1];
      RowToDict(init, row)[last := CellOr(row, |header| - 1)]
  }

  /** `row_to_dict` has exactly the header names as keys, and each maps to the cell
      under its (last) column, "" past the row's end. */
  lemma {:induction false} RowToDictShape(header: seq<string>, row: seq<string>)
    ensures RowToDict(header, row).Keys == HeaderToIndex(header).Keys
    ensures forall h :: h in RowToDict(header, row) ==> RowToDict(header, row)[h] == CellOr(row, HeaderToIndex(header)[h] as int - 1)
    decreases |header|
  {
    if header != [] {
      var init := header[..|header| - 1];
      RowToDictShape(init, row);
      assert HeaderToIndex(header) == HeaderToIndex(init)[header[|header| - 1] := |header|];
    }
  }

  /** Python's `d.get(key, default)`. */
  function Get(d: map<string, string>, key: string, default: string): string
  {
    if key in d then d[key] else default
  }

  // ---------------------------------------------------------------------------
  // Cell writes, per-ledger queues and the batch flush
  // ---------------------------------------------------------------------------

  /** The two worksheets. */
  datatype Ledger = Exhibitor | Speaker
  {
    function Other(): Ledger
    {
      if this == Exhibitor then Speaker else Exhibitor
    }
  }

  /** One queued `{"range": <col letters><row>, "values": [[value]]}` entry, 1-based. */
  datatype Write = Write(col: nat, row: nat, value: string)

  /** The `updates` defaultdict: one write list per worksheet. */
  datatype Queues = Queues(ex: seq<Write>, sp: seq<Write>)
  {
    function Of(l: Ledger): seq<Write>
    {
      if l == Exhibitor then ex else sp
    }

    function Append(l: Ledger, ws: seq<Write>): (q: Queues)
      ensures q.Of(l) == Of(l) + ws
      ensures forall o :: o != l ==> q.Of(o) == Of(o)
    {
      if l == Exhibitor then Queues(ex + ws, sp) else Queues(ex, sp + ws)
    }

    function Concat(other: Queues): Queues
    {
      Queues(ex + other.ex, sp + other.sp)
    }
  }

  const NoWrites := Queues([], [])

  /** `CRM_ID_COL_NAME`: the header of the column holding a row's CRM lead id. */
  const CrmIdColName := "CRM Lead ID"
  /** `CRM_UPDATE_COL`: the header of the column holding a row's CRM status. */
  const UpdateColName := "CRM Update"

  /** `ensure_col`: the column of `name`, or the next free column with the header write that creates it. */
  function EnsureCol(hmap: map<string, nat>, header: seq<string>, name: string): (r: (nat, Option<Write>))
    requires hmap == HeaderToIndex(header)
    ensures r.0 >= 1
    ensures name in header ==> r.0 <= |header| && header[r.0 - 1] == name && r.1 == None
    ensures name !in header ==> r.0 == |header| + 1 && r.1 == Some(Write(|header| + 1, 1, name))
  {
    HeaderToIndexShape(header);
    if name in hmap then (hmap[name], None)
    else (|header| + 1, Some(Write(|header| + 1, 1, name)))
  }

  /** The value at 1-based (row, col) of a `get_all_values` grid, "" outside it. */
  function Cell(grid: seq<seq<string>>, row: int, col: int): string
  {
    if 1 <= row <= |grid| then CellOr(grid[row - 1], col - 1) else ""
  }

  function SetAt(s: seq<string>, i: nat, v: string): (r: seq<string>)
    ensures |r| == if i < |s| then |s| else i + 1
    ensures r[i] == v
    ensures forall j :: 0 <= j < |r| && j != i ==> r[j] == CellOr(s, j)
  {
    if i < |s| then s[i := v] else s + seq(i - |s|, _ => "") + [v]
  }

  /** One cell write, growing the grid when the cell is outside it. */
  function Put(grid: seq<seq<string>>, w: Write): (g: seq<seq<string>>)
    requires w.row >= 1 && w.col >= 1
    ensures forall r, c :: Cell(g, r, c) == if r == w.row && c == w.col then w.value else Cell(grid, r, c)
  {
    var rows := if w.row <= |grid| then grid else grid + seq(w.row - |grid|, _ => []);
    assert forall r, c :: Cell(rows, r, c) == Cell(grid, r, c);
    rows[w.row - 1 := SetAt(rows[w.row - 1], w.col - 1, w.value)]
  }

  predicate Addressable(ws: seq<Write>)
  {
    forall i :: 0 <= i < |ws| ==> ws[i].row >= 1 && ws[i].col >= 1
  }

  /** `ws.batch_update(batch)`: the writes in order. */
  function Flush(grid: seq<seq<string>>, ws: seq<Write>): seq<seq<string>>
    requires Addressable(ws)
  {
    if ws == [] then grid else Put(Flush(grid, ws[..|ws| - 1]), ws[|ws| - 1])
  }

  /** The value of the last write in `ws` to (row, col), if any. */
  function LastWrite(ws: seq<Write>, row: int, col: int): Option<string>
  {
    if ws == [] then None
    else if ws[|ws| - 1].row == row && ws[|ws| - 1].col == col then Some(ws[|ws| - 1].value)
    else LastWrite(ws[..|ws| - 1], row, col)
  }

  /** After a flush every cell holds the value of the last write queued for it, or its old value. */
  lemma {:induction false} FlushLastWriteWins(grid: seq<seq<string>>, ws: seq<Write>, row: int, col: int)
    requires Addressable(ws)
    ensures Cell(Flush(grid, ws), row, col) ==
      match LastWrite(ws, row, col)
      case Some(v) => v
      case None => Cell(grid, row, col)
  {
    if ws != [] {
      FlushLastWriteWins(grid, ws[..|ws| - 1], row, col);
    }
  }
}
