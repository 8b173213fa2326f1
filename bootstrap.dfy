/** The start-up of the script: `ensure_col` for the CRM id and the CRM status
    columns of one worksheet, and the grid read back afterwards. */
module Bootstrap {
  import opened Wrappers
  import opened Sheet
  import opened Merge

  /** The header write of one `ensure_col` call, as a list. */
  function HeaderWrites(w: Option<Write>): seq<Write>
  {
    if w.Some? then [w.value] else []
  }

  /** The two `ensure_col` calls as written: both look the names up in the header
      read before either of them wrote a new column. */
  function StatusColumns(grid: seq<seq<string>>): (nat, nat, seq<Write>)
    requires |grid| >= 1
  {
    var header := grid[0];
    var hmap := HeaderToIndex(header);
    var (crm, w1) := EnsureCol(hmap, header, CrmIdColName);
    var (upd, w2) := EnsureCol(hmap, header, UpdateColName);
    (crm, upd, HeaderWrites(w1) + HeaderWrites(w2))
  }

  /** When a worksheet has neither column, both calls choose the first free column,
      and the second header write replaces the first: the id column is the status column. */
  lemma StatusColumnsCollide(grid: seq<seq<string>>)
    requires |grid| >= 1 && CrmIdColName !in grid[0] && UpdateColName !in grid[0]
    ensures var (crm, upd, ws) := StatusColumns(grid);
      && crm == upd == |grid[0]| + 1
      && Addressable(ws)
      && Cell(Flush(grid, ws), 1, crm) == UpdateColName
  {
    var (crm, upd, ws) := StatusColumns(grid);
    assert ws == [Write(|grid[0]| + 1, 1, CrmIdColName), Write(|grid[0]| + 1, 1, UpdateColName)];
    FlushLastWriteWins(grid, ws, 1, crm);
  }

  /** The two calls with the header read again in between, as the start-up evidently intends. */
  function FreshStatusColumns(grid: seq<seq<string>>): (nat, nat, seq<Write>)
    requires |grid| >= 1
  {
    var header := grid[0];
    var (crm, w1) := EnsureCol(HeaderToIndex(header), header, CrmIdColName);
    var header1 := if w1.Some? then header + [CrmIdColName] else header;
    var (upd, w2) := EnsureCol(HeaderToIndex(header1), header1, UpdateColName);
    (crm, upd, HeaderWrites(w1) + HeaderWrites(w2))
  }

  /** A worksheet after start-up: its header extended by the missing columns, and the
      columns chosen for the CRM id and the CRM status. */
  function OpenTab(grid: seq<seq<string>>): Tab
    requires |grid| >= 1
  {
    var (crm, upd, ws) := FreshStatusColumns(grid);
    assert Addressable(ws);
    Tab(Flush(grid, ws), crm, upd)
  }

  /** The status column looked up after the id column was appended to the header. */
  lemma StatusAfterAppend(header: seq<string>)
    ensures var r := EnsureCol(HeaderToIndex(header + [CrmIdColName]), header + [CrmIdColName], UpdateColName);
      && (UpdateColName in header ==> r.0 <= |header| && header[r.0 - 1] == UpdateColName && r.1 == None)
      && (UpdateColName !in header ==> r.0 == |header| + 2 && r.1 == Some(Write(|header| + 2, 1, UpdateColName)))
  {
    var header1 := header + [CrmIdColName];
    var r := EnsureCol(HeaderToIndex(header1), header1, UpdateColName);
    assert header1[|header|] == CrmIdColName;
    assert forall h :: h in header1 <==> h in header || h == CrmIdColName;
    if UpdateColName in header {
      assert r.0 <= |header1| && header1[r.0 - 1] == UpdateColName;
      assert header1[..|header|] == header;
    }
  }

  /** The columns and the header writes of the corrected start-up: an existing column
      keeps its place, a missing one is appended after the header. */
  lemma FreshColumnsShape(grid: seq<seq<string>>)
    requires |grid| >= 1
    ensures var (crm, upd, ws) := FreshStatusColumns(grid);
      var n := |grid[0]|;
      && 1 <= crm && 1 <= upd && crm != upd
      && (crm <= n ==> grid[0][crm - 1] == CrmIdColName)
      && (upd <= n ==> grid[0][upd - 1] == UpdateColName)
      && ws == (if crm > n then [Write(crm, 1, CrmIdColName)] else []) + (if upd > n then [Write(upd, 1, UpdateColName)] else [])
  {
    var header := grid[0];
    var r1 := EnsureCol(HeaderToIndex(header), header, CrmIdColName);
    var header1 := if r1.1.Some? then header + [CrmIdColName] else header;
    var r2 := EnsureCol(HeaderToIndex(header1), header1, UpdateColName);
    assert FreshStatusColumns(grid) == (r1.0, r2.0, HeaderWrites(r1.1) + HeaderWrites(r2.1));
    if CrmIdColName in header {
      assert r1.0 <= |header| && header[r1.0 - 1] == CrmIdColName && r1.1 == None;
      assert r2.0 <= |header| ==> header[r2.0 - 1] == UpdateColName;
    } else {
      StatusAfterAppend(header);
      assert r1 == (|header| + 1, Some(Write(|header| + 1, 1, CrmIdColName)));
    }
  }

  /** A cell that no write of `ws` addresses has no last write. */
  lemma {:induction false} LastWriteMisses(ws: seq<Write>, row: int, col: int)
    requires forall i :: 0 <= i < |ws| ==> ws[i].col != col
    ensures LastWrite(ws, row, col) == None
  {
    if ws != [] {
      LastWriteMisses(ws[..|ws| - 1], row, col);
    }
  }

  /** The header row after appending the missing column headers: every old header cell
      is kept, and each of the two columns is headed by its name. */
  lemma HeaderAfterWrites(grid: seq<seq<string>>, crm: nat, upd: nat, ws: seq<Write>)
    requires |grid| >= 1 && 1 <= crm && 1 <= upd && crm != upd
    requires crm <= |grid[0]| ==> grid[0][crm - 1] == CrmIdColName
    requires upd <= |grid[0]| ==> grid[0][upd - 1] == UpdateColName
    requires ws == (if crm > |grid[0]| then [Write(crm, 1, CrmIdColName)] else [])
                 + (if upd > |grid[0]| then [Write(upd, 1, UpdateColName)] else [])
    ensures Addressable(ws)
    ensures Cell(Flush(grid, ws), 1, crm) == CrmIdColName
    ensures Cell(Flush(grid, ws), 1, upd) == UpdateColName
    ensures forall c :: 1 <= c <= |grid[0]| ==> Cell(Flush(grid, ws), 1, c) == grid[0][c - 1]
  {
    var n := |grid[0]|;
    FlushLastWriteWins(grid, ws, 1, crm);
    FlushLastWriteWins(grid, ws, 1, upd);
    if crm > n && upd > n {
      assert ws[..1] == [Write(crm, 1, CrmIdColName)];
    } else if crm > n {
      LastWriteMisses(ws, 1, upd);
    } else if upd > n {
      LastWriteMisses(ws, 1, crm);
    }
    forall c | 1 <= c <= n ensures Cell(Flush(grid, ws), 1, c) == grid[0][c - 1] {
      FlushLastWriteWins(grid, ws, 1, c);
      LastWriteMisses(ws, 1, c);
    }
  }

  /** With the header read again, the two columns differ, and the header names each one
      correctly once the writes are applied. */
  lemma OpenTabLabels(grid: seq<seq<string>>)
    requires |grid| >= 1
    ensures var t := OpenTab(grid);
      && t.crmCol >= 1 && t.updCol >= 1 && t.crmCol != t.updCol
      && Cell(t.grid, 1, t.crmCol) == CrmIdColName
      && Cell(t.grid, 1, t.updCol) == UpdateColName
      && forall c :: 1 <= c <= |grid[0]| ==> Cell(t.grid, 1, c) == grid[0][c - 1]
  {
    var (crm, upd, ws) := FreshStatusColumns(grid);
    FreshColumnsShape(grid);
    HeaderAfterWrites(grid, crm, upd, ws);
  }
}
