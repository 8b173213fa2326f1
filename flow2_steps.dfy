/** Flow 2 as the source runs it: the loops and the client calls, each proved
    to match the functions of module Flow2. */
module Flow2Steps {
  import opened Wrappers
  import opened Text
  import opened Sheet
  import opened Dates
  import opened Payload
  import opened Crm
  import opened Merge
  import opened Flow1
  import opened Flow2

  /** The `crm_rows` loop of one worksheet. */
  method CollectTargets(t: Tab, hmap: map<string, nat>, l: Ledger) returns (r: Result<seq<Target>>)
    requires t.Valid()
    ensures r == Targets(t, hmap, l, |t.grid|)
  {
    var ts: seq<Target> := [];
    for i := 1 to |t.grid|
      invariant Targets(t, hmap, l, i) == Success(ts)
    {
      var row := t.grid[i];
      var crmId := Strip(CellOr(row, t.crmCol - 1));
      if crmId != "" {
        if "Email" !in hmap {
          TargetsStayFailed(t, hmap, l, i + 1, |t.grid|);
          return Failure("'Email'");
        }
        if hmap["Email"] as int - 1 >= |row| {
          TargetsStayFailed(t, hmap, l, i + 1, |t.grid|);
          return Failure(IndexOutOfRange);
        }
        ts := ts + [Target(l, crmId, i + 1)];
      }
    }
    r := Success(ts);
  }

  /** Both `crm_rows` loops. */
  method CollectCrmRows(ex: Tab, sp: Tab) returns (r: Result<seq<Target>>)
    requires ex.Valid() && sp.Valid()
    ensures r == CrmRows(ex, sp)
  {
    r := CollectTargets(ex, HeaderToIndex(ex.Header()), Exhibitor);
    if r.Failure? {
      return;
    }
    var s := CollectTargets(sp, HeaderToIndex(sp.Header()), Speaker);
    if s.Failure? {
      return s;
    }
    r := Success(r.value + s.value);
  }

  /** `crm.get_session()` and the update POST of a newer sheet date. */
  method SendUpdate(client: CrmClient, element: map<string, string>) returns (err: Option<string>)
    modifies client, client.env
    ensures (err, client.State()) == Push(client.creds, client.env.behaviour, old(client.State()), element)
  {
    var session := client.GetSession();
    if session.Failure? {
      return Some(session.error);
    }
    var reply := client.env.Call(Update(session.value, element));
    err := None;
  }

  /** The date comparison, the push or pull, and the comments of one row. */
  method ReconcileRow(client: CrmClient, cal: Calendar, hmap: map<string, nat>, data: map<string, string>, tg: Target,
                      lead: map<string, string>, comments: string)
    returns (res: Result<seq<Write>>)
    modifies client, client.env
    ensures (res, client.State()) == Reconcile(client.creds, client.env.behaviour, cal, hmap, data, tg, lead, comments, old(client.State()))
  {
    var col := DateColumn(tg.ledger == Exhibitor);
    var crmRaw := Get(lead, DateField, "");
    var sdt := ParseSheetDate(cal, Get(data, col, ""));
    var cdt := ParseSheetDate(cal, crmRaw);
    var pulled: seq<Write> := [];
    if sdt.Some? && (cdt.None? || cdt.value < sdt.value) {
      var full := lead["id" := tg.crmId][DateField := cal.dayFirstDate(sdt.value)] - {"createdtime", "modifiedtime"};
      var err := SendUpdate(client, full);
      if err.Some? {
        return Failure(err.value);
      }
    } else if cdt.Some? && (sdt.None? || cdt.value > sdt.value) {
      if col !in hmap {
        return Failure("'" + col + "'");
      }
      pulled := [Write(hmap[col], tg.row, crmRaw)];
    }
    var copied: seq<Write> := [];
    if Strip(comments) != "" && CommentsColName in hmap {
      copied := [Write(hmap[CommentsColName], tg.row, comments)];
    }
    assert pulled == [] ==> pulled + copied == copied;
    res := Success(pulled + copied);
  }

  /** The per-row `try` body. */
  method TrySync(client: CrmClient, cal: Calendar, hmap: map<string, nat>, data: map<string, string>, tg: Target)
    returns (res: Result<seq<Write>>)
    modifies client, client.env
    ensures (res, client.State()) == SyncSpec(client.creds, client.env.behaviour, cal, hmap, data, tg, old(client.State()))
  {
    var lead := client.GetLead(tg.crmId);
    if lead.Failure? {
      return Failure(lead.error);
    }
    var comments := client.GetAllComments(tg.crmId);
    if comments.Failure? {
      return Failure(comments.error);
    }
    res := ReconcileRow(client, cal, hmap, data, tg, lead.value, comments.value);
  }

  /** The skip test on the row's "CRM Update" cell. */
  method SkipTest(hmap: map<string, nat>, row: seq<string>) returns (skip: bool)
    ensures skip == Skipped(hmap, row)
  {
    skip := false;
    if UpdateColName in hmap {
      var status := CellOr(row, hmap[UpdateColName] as int - 1);
      skip := status != "" && Contains(Upper(status), Blocker);
    }
  }

  /** The `except` branch: the clearing writes when the error names an unusable id. */
  method Except(t: Tab, row: nat, error: string) returns (ws: seq<Write>)
    ensures ws == Outcome(t, row, Failure(error))
  {
    var err := Lower(error);
    var isInvalid :=
      || Contains(err, "access_denied")
      || Contains(err, "permission to perform the operation is denied")
      || Contains(err, "does not exist")
      || Contains(err, "record you are trying to access")
      || Contains(err, "invalid");
    ws := [];
    if isInvalid {
      ws := [Write(t.crmCol, row, ""), Write(t.updCol, row, "")];
    }
  }

  /** One iteration of the loop over `crm_rows`: the skip test, the `try` and the `except`. */
  method SyncRow(client: CrmClient, cal: Calendar, ex: Tab, sp: Tab, tg: Target, q0: Queues) returns (q: Queues)
    requires Fits(ex, sp, tg)
    modifies client, client.env
    ensures (client.State(), q) == RowStep(Try(client.creds, client.env.behaviour, cal), ex, sp, tg, old(client.State()), q0)
  {
    q := q0;
    var t := TabOf(ex, sp, tg.ledger);
    var hmap := HeaderToIndex(t.Header());
    var row := t.grid[tg.row - 1];
    var skip := SkipTest(hmap, row);
    if skip {
      return;
    }
    var data := RowToDict(t.Header(), row);
    var res := TrySync(client, cal, hmap, data, tg);
    if res.Success? {
      q := q.Append(tg.ledger, res.value);
    } else {
      var ws := Except(t, tg.row, res.error);
      q := q.Append(tg.ledger, ws);
    }
  }

  /** `flow2_sync_crm_to_sheet` up to the flush. */
  method SyncCrmToSheet(client: CrmClient, cal: Calendar, ex: Tab, sp: Tab) returns (r: Result<Queues>)
    requires ex.Valid() && sp.Valid()
    modifies client, client.env
    ensures (r, client.State()) == Flow2Spec(client.creds, client.env.behaviour, cal, ex, sp, old(client.State()))
  {
    var rows := CollectCrmRows(ex, sp);
    if rows.Failure? {
      return Failure(rows.error);
    }
    CrmRowsFit(ex, sp);
    var ts := rows.value;
    var updates := NoWrites;
    for n := 0 to |ts|
      invariant (client.State(), updates) == Flow2Loop(Try(client.creds, client.env.behaviour, cal), ex, sp, ts, n, old(client.State()))
    {
      updates := SyncRow(client, cal, ex, sp, ts[n], updates);
    }
    r := Success(updates);
  }
}
