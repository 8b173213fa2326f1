/** Flow 2 (`flow2_sync_crm_to_sheet`): for every row that carries a CRM id, fetch
    the lead and its comments, push a newer sheet date to the CRM or pull a newer
    CRM date into the sheet, copy the comments into the sheet, and clear the id of
    a row whose lead the CRM no longer serves. */
module Flow2 {
  import opened Wrappers
  import opened Text
  import opened Sheet
  import opened Dates
  import opened Payload
  import opened Crm
  import opened Merge
  import opened Flow1

  /** The header of the column the lead's comments are copied into. */
  const CommentsColName := "Comments"
  /** The lead field holding the follow-up date. */
  const DateField := "cf_1153"
  /** `str(IndexError)` for a row too short to hold its "Email" cell. */
  const IndexOutOfRange := "list index out of range"

  /** An entry of `crm_rows`: the worksheet, the stripped CRM id and the 1-based sheet row. */
  datatype Target = Target(ledger: Ledger, crmId: string, row: nat)

  // ---------------------------------------------------------------------------
  // The rows to sync
  // ---------------------------------------------------------------------------

  /** The stripped CRM id cell of grid row `k`. */
  function IdOf(t: Tab, k: nat): string
    requires t.Valid() && k < |t.grid|
  {
    Strip(CellOr(t.grid[k], t.crmCol - 1))
  }

  /** `row[hmap["Email"] - 1]`: the KeyError or IndexError it raises, if any. */
  function EmailError(hmap: map<string, nat>, row: seq<string>): Option<string>
  {
    if "Email" !in hmap then Some("'Email'")
    else if hmap["Email"] as int - 1 >= |row| then Some(IndexOutOfRange)
    else None
  }

  /** The `crm_rows` loop of one worksheet over grid rows 1 .. n - 1, with the
      worksheet's header map `hmap`: every row with an id, or the first exception,
      which ends the whole flow. */
  function Targets(t: Tab, hmap: map<string, nat>, l: Ledger, n: nat): Result<seq<Target>>
    requires t.Valid() && 1 <= n <= |t.grid|
    decreases n
  {
    if n == 1 then Success([])
    else
      var prev := Targets(t, hmap, l, n - 1);
      if prev.Failure? || IdOf(t, n - 1) == "" then prev
      else if EmailError(hmap, t.grid[n - 1]).Some? then Failure(EmailError(hmap, t.grid[n - 1]).value)
      else Success(prev.value + [Target(l, IdOf(t, n - 1), n)])
  }

  /** `crm_rows`: the exhibitor rows with an id, then the speaker rows with an id. */
  function CrmRows(ex: Tab, sp: Tab): Result<seq<Target>>
    requires ex.Valid() && sp.Valid()
  {
    var e := Targets(ex, HeaderToIndex(ex.Header()), Exhibitor, |ex.grid|);
    if e.Failure? then e
    else
      var s := Targets(sp, HeaderToIndex(sp.Header()), Speaker, |sp.grid|);
      if s.Failure? then s else Success(e.value + s.value)
  }

  /** A target names a row below the header of its worksheet. */
  predicate Fits(ex: Tab, sp: Tab, tg: Target)
  {
    ex.Valid() && sp.Valid() && 2 <= tg.row <= |TabOf(ex, sp, tg.ledger).grid|
  }

  // ---------------------------------------------------------------------------
  // One row
  // ---------------------------------------------------------------------------

  /** The skip test: the row's "CRM Update" cell, found by header, is not blank and
      its upper-case text contains "DUPLICATE". */
  predicate Skipped(hmap: map<string, nat>, row: seq<string>)
  {
    && UpdateColName in hmap
    && CellOr(row, hmap[UpdateColName] as int - 1) != ""
    && Contains(Upper(CellOr(row, hmap[UpdateColName] as int - 1)), Blocker)
  }

  /** `sdt and (cdt is None or cdt < sdt)`. */
  predicate SheetNewer(sdt: Option<int>, cdt: Option<int>)
  {
    sdt.Some? && (cdt.None? || cdt.value < sdt.value)
  }

  /** `cdt and (sdt is None or cdt > sdt)`. */
  predicate CrmNewer(sdt: Option<int>, cdt: Option<int>)
  {
    cdt.Some? && (sdt.None? || cdt.value > sdt.value)
  }

  /** The element of the update request: the lead with its id, the new date, and
      without the two server-maintained timestamps. */
  function UpdateElement(lead: map<string, string>, id: string, date: string): map<string, string>
  {
    lead["id" := id][DateField := date] - {"createdtime", "modifiedtime"}
  }

  /** `get_session()` followed by the update POST, whose reply is not looked at. */
  function Push(c: Credentials, b: Behaviour, st: St, element: map<string, string>): (Option<string>, St)
  {
    var (session, st1) := SessionSpec(c, b, st);
    if session.Failure? then (Some(session.error), st1)
    else (None, Exchange(b, st1, Update(session.value, element)).1)
  }

  /** The comments write: queued when the text is not blank and the sheet has a "Comments" column. */
  function CommentWrites(hmap: map<string, nat>, row: nat, comments: string): seq<Write>
  {
    if Strip(comments) != "" && CommentsColName in hmap then [Write(hmap[CommentsColName], row, comments)] else []
  }

  /** The part of the `try` after both fetches, on the row's values by header `data`:
      compare the dates, push or pull, then copy the comments. */
  function Reconcile(c: Credentials, b: Behaviour, cal: Calendar, hmap: map<string, nat>, data: map<string, string>,
                     tg: Target, lead: map<string, string>, comments: string, st: St): (Result<seq<Write>>, St)
  {
    var col := DateColumn(tg.ledger == Exhibitor);
    var sdt := LastContact(cal, data, tg.ledger == Exhibitor);
    var cdt := ParseSheetDate(cal, Get(lead, DateField, ""));
    if SheetNewer(sdt, cdt) then
      var (err, st1) := Push(c, b, st, UpdateElement(lead, tg.crmId, cal.dayFirstDate(sdt.value)));
      if err.Some? then (Failure(err.value), st1) else (Success(CommentWrites(hmap, tg.row, comments)), st1)
    else if CrmNewer(sdt, cdt) then
      if col !in hmap then (Failure("'" + col + "'"), st)
      else (Success([Write(hmap[col], tg.row, Get(lead, DateField, ""))] + CommentWrites(hmap, tg.row, comments)), st)
    else (Success(CommentWrites(hmap, tg.row, comments)), st)
  }

  /** The body of the per-row `try`: the writes it queues, or the exception it raises.
      No write is queued before a statement that can raise, so a raise queues nothing. */
  function SyncSpec(c: Credentials, b: Behaviour, cal: Calendar, hmap: map<string, nat>, data: map<string, string>,
                    tg: Target, st: St): (Result<seq<Write>>, St)
  {
    var (lead, st1) := RetrieveSpec(c, b, st, tg.crmId);
    if lead.Failure? then (Failure(lead.error), st1)
    else
      var (comments, st2) := CommentsSpec(c, b, st1, tg.crmId);
      if comments.Failure? then (Failure(comments.error), st2)
      else Reconcile(c, b, cal, hmap, data, tg, lead.value, comments.value, st2)
  }

  /** A `try` body: given the worksheet's header map, the row's values by header, the
      row and the client state, the writes queued or the exception raised, and the
      new client state. */
  type TryBody = (map<string, nat>, map<string, string>, Target, St) -> (Result<seq<Write>>, St)

  /** The `try` body of Flow 2 for a client with credentials `c` talking to `b`. */
  function Try(c: Credentials, b: Behaviour, cal: Calendar): TryBody
  {
    (hmap, data, tg, st) => SyncSpec(c, b, cal, hmap, data, tg, st)
  }

  /** The `is_invalid` test of the `except` branch, on the lower-cased exception text. */
  predicate StaleIdError(err: string)
  {
    var e := Lower(err);
    || Contains(e, "access_denied")
    || Contains(e, "permission to perform the operation is denied")
    || Contains(e, "does not exist")
    || Contains(e, "record you are trying to access")
    || Contains(e, "invalid")
  }

  /** The writes that blank the CRM id and the CRM status of a row. */
  function Clear(t: Tab, row: nat): seq<Write>
  {
    [Write(t.crmCol, row, ""), Write(t.updCol, row, "")]
  }

  /** What a row queues: its writes, or after an exception the clearing writes when
      the error says the id is unusable, else nothing. */
  function Outcome(t: Tab, row: nat, res: Result<seq<Write>>): seq<Write>
  {
    match res
    case Success(ws) => ws
    case Failure(err) => if StaleIdError(err) then Clear(t, row) else []
  }

  /** One iteration of the loop over `crm_rows`, with the `try` body `body`. */
  function RowStep(body: TryBody, ex: Tab, sp: Tab, tg: Target, st: St, q: Queues): (St, Queues)
    requires Fits(ex, sp, tg)
  {
    var t := TabOf(ex, sp, tg.ledger);
    var hmap := HeaderToIndex(t.Header());
    var row := t.grid[tg.row - 1];
    if Skipped(hmap, row) then (st, q)
    else
      var (res, st1) := body(hmap, RowToDict(t.Header(), row), tg, st);
      (st1, q.Append(tg.ledger, Outcome(t, tg.row, res)))
  }

  /** The loop over the first `n` entries of `crm_rows`. */
  function Flow2Loop(body: TryBody, ex: Tab, sp: Tab, ts: seq<Target>, n: nat, st: St): (St, Queues)
    requires n <= |ts| && forall i :: 0 <= i < |ts| ==> Fits(ex, sp, ts[i])
  {
    if n == 0 then (st, NoWrites)
    else
      var (st1, q1) := Flow2Loop(body, ex, sp, ts, n - 1, st);
      RowStep(body, ex, sp, ts[n - 1], st1, q1)
  }

  /** Flow 2: the exception that ends it while `crm_rows` is built, or the queued
      writes per worksheet; and the new client state and request log. */
  function Flow2Spec(c: Credentials, b: Behaviour, cal: Calendar, ex: Tab, sp: Tab, st: St): (Result<Queues>, St)
    requires ex.Valid() && sp.Valid()
  {
    var rows := CrmRows(ex, sp);
    if rows.Failure? then (Failure(rows.error), st)
    else
      CrmRowsFit(ex, sp);
      var (st1, q) := Flow2Loop(Try(c, b, cal), ex, sp, rows.value, |rows.value|, st);
      (Success(q), st1)
  }

  // ---------------------------------------------------------------------------
  // The rows to sync: properties
  // ---------------------------------------------------------------------------

  /** Once the `crm_rows` loop has raised, later rows do not matter. */
  lemma {:induction false} TargetsStayFailed(t: Tab, hmap: map<string, nat>, l: Ledger, n: nat, m: nat)
    requires t.Valid() && 1 <= n <= m <= |t.grid|
    requires Targets(t, hmap, l, n).Failure?
    ensures Targets(t, hmap, l, m) == Targets(t, hmap, l, n)
    decreases m
  {
    if m > n {
      TargetsStayFailed(t, hmap, l, n, m - 1);
    }
  }

  /** The row that ends Flow 2 while `crm_rows` is built: it has an id but no
      readable "Email" cell. */
  predicate CrashRow(t: Tab, hmap: map<string, nat>, k: int)
    requires t.Valid()
  {
    1 <= k < |t.grid| && IdOf(t, k) != "" && EmailError(hmap, t.grid[k]).Some?
  }

  /** The `crm_rows` loop raises exactly when some row has an id and no readable "Email" cell. */
  lemma {:induction false} TargetsFail(t: Tab, hmap: map<string, nat>, l: Ledger, n: nat)
    requires t.Valid() && 1 <= n <= |t.grid|
    ensures Targets(t, hmap, l, n).Failure? <==> exists k :: k < n && CrashRow(t, hmap, k)
    decreases n
  {
    if n > 1 {
      TargetsFail(t, hmap, l, n - 1);
      if Targets(t, hmap, l, n - 1).Failure? {
        var k :| k < n - 1 && CrashRow(t, hmap, k);
        assert k < n && CrashRow(t, hmap, k);
      } else if IdOf(t, n - 1) != "" && EmailError(hmap, t.grid[n - 1]).Some? {
        assert CrashRow(t, hmap, n - 1);
      } else {
        assert !CrashRow(t, hmap, n - 1);
      }
    }
  }

  /** Entries of `crm_rows` from one worksheet within its first `n` grid rows: rows
      with an id, with that stripped id, in sheet order. */
  predicate Listed(t: Tab, l: Ledger, n: nat, ts: seq<Target>)
    requires t.Valid() && n <= |t.grid|
  {
    && (forall i :: 0 <= i < |ts| ==> ts[i].ledger == l && 2 <= ts[i].row <= n)
    && (forall i :: 0 <= i < |ts| ==> ts[i].crmId == IdOf(t, ts[i].row - 1) && ts[i].crmId != "")
    && (forall i, j :: 0 <= i < j < |ts| ==> ts[i].row < ts[j].row)
  }

  lemma ListedAppend(t: Tab, l: Ledger, n: nat, prev: seq<Target>, x: Target)
    requires t.Valid() && 2 <= n <= |t.grid|
    requires Listed(t, l, n - 1, prev)
    requires x.ledger == l && x.row == n && x.crmId == IdOf(t, n - 1) && x.crmId != ""
    ensures Listed(t, l, n, prev + [x])
  {
    var ts := prev + [x];
    forall i | 0 <= i < |ts|
      ensures ts[i].ledger == l && 2 <= ts[i].row <= n && ts[i].crmId == IdOf(t, ts[i].row - 1) && ts[i].crmId != ""
    {
      if i < |prev| { assert ts[i] == prev[i]; }
    }
    forall i, j | 0 <= i < j < |ts| ensures ts[i].row < ts[j].row {
      assert ts[i] == prev[i];
      if j < |prev| { assert ts[j] == prev[j]; }
    }
  }

  /** Each entry of `crm_rows` from one worksheet is a row with an id, with that
      stripped id, and the entries are in sheet order. */
  lemma {:induction false} TargetsEntries(t: Tab, hmap: map<string, nat>, l: Ledger, n: nat)
    requires t.Valid() && 1 <= n <= |t.grid|
    ensures Targets(t, hmap, l, n).Success? ==> Listed(t, l, n, Targets(t, hmap, l, n).value)
    decreases n
  {
    if n > 1 {
      TargetsEntries(t, hmap, l, n - 1);
      var prev := Targets(t, hmap, l, n - 1);
      if prev.Success? && IdOf(t, n - 1) != "" && EmailError(hmap, t.grid[n - 1]).None? {
        ListedAppend(t, l, n, prev.value, Target(l, IdOf(t, n - 1), n));
      }
    }
  }

  /** Some entry names sheet row `row`. */
  predicate HasRow(ts: seq<Target>, row: int)
  {
    exists i :: 0 <= i < |ts| && ts[i].row == row
  }

  lemma HasRowAppend(ts: seq<Target>, x: Target, row: int)
    requires HasRow(ts, row) || x.row == row
    ensures HasRow(ts + [x], row)
  {
    if x.row == row {
      assert (ts + [x])[|ts|].row == row;
    } else {
      var i :| 0 <= i < |ts| && ts[i].row == row;
      assert (ts + [x])[i].row == row;
    }
  }

  /** Every row with an id has an entry in `crm_rows`, unless the loop raised. */
  lemma {:induction false} TargetsComplete(t: Tab, hmap: map<string, nat>, l: Ledger, n: nat)
    requires t.Valid() && 1 <= n <= |t.grid|
    ensures Targets(t, hmap, l, n).Success? ==>
      forall k :: 1 <= k < n && IdOf(t, k) != "" ==> HasRow(Targets(t, hmap, l, n).value, k + 1)
    decreases n
  {
    if n > 1 {
      TargetsComplete(t, hmap, l, n - 1);
      var prev := Targets(t, hmap, l, n - 1);
      if prev.Success? && IdOf(t, n - 1) != "" && EmailError(hmap, t.grid[n - 1]).None? {
        var x := Target(l, IdOf(t, n - 1), n);
        forall k | 1 <= k < n && IdOf(t, k) != "" ensures HasRow(prev.value + [x], k + 1) {
          HasRowAppend(prev.value, x, k + 1);
        }
      }
    }
  }

  /** Every entry of `crm_rows` names a row below the header of its worksheet. */
  lemma CrmRowsFit(ex: Tab, sp: Tab)
    requires ex.Valid() && sp.Valid() && CrmRows(ex, sp).Success?
    ensures forall i :: 0 <= i < |CrmRows(ex, sp).value| ==> Fits(ex, sp, CrmRows(ex, sp).value[i])
  {
    var hx, hs := HeaderToIndex(ex.Header()), HeaderToIndex(sp.Header());
    TargetsEntries(ex, hx, Exhibitor, |ex.grid|);
    TargetsEntries(sp, hs, Speaker, |sp.grid|);
    var e := Targets(ex, hx, Exhibitor, |ex.grid|).value;
    var s := Targets(sp, hs, Speaker, |sp.grid|).value;
    assert CrmRows(ex, sp).value == e + s;
    forall i | 0 <= i < |e + s| ensures Fits(ex, sp, (e + s)[i]) {
      if i >= |e| {
        assert (e + s)[i] == s[i - |e|];
      }
    }
  }

  /** Some row of the worksheet has an id but no readable "Email" cell. */
  ghost predicate Crashes(t: Tab)
    requires t.Valid()
  {
    exists k :: 1 <= k < |t.grid| && CrashRow(t, HeaderToIndex(t.Header()), k)
  }

  /** Building `crm_rows` raises exactly when a row of either worksheet has an id
      but no readable "Email" cell. */
  lemma CrmRowsFail(ex: Tab, sp: Tab)
    requires ex.Valid() && sp.Valid()
    ensures CrmRows(ex, sp).Failure? <==> Crashes(ex) || Crashes(sp)
  {
    var hx, hs := HeaderToIndex(ex.Header()), HeaderToIndex(sp.Header());
    TargetsFail(ex, hx, Exhibitor, |ex.grid|);
    TargetsFail(sp, hs, Speaker, |sp.grid|);
  }

}
