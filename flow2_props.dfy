/** Properties of Flow 2: what one row sends and queues, which rows are skipped,
    and what the whole flow never does. */
module Flow2Props {
  import opened Wrappers
  import opened Text
  import opened Sheet
  import opened Dates
  import opened Payload
  import opened Crm
  import opened Merge
  import opened Flow1
  import opened Flow2

  /** Flow 2 ends before any request and any write exactly when a row of either
      worksheet has an id but no readable "Email" cell. */
  lemma Flow2Crash(c: Credentials, b: Behaviour, cal: Calendar, ex: Tab, sp: Tab, st: St)
    requires ex.Valid() && sp.Valid()
    ensures var out := Flow2Spec(c, b, cal, ex, sp, st);
      && (out.0.Failure? <==> Crashes(ex) || Crashes(sp))
      && (out.0.Failure? ==> out.1 == st)
  {
    CrmRowsFail(ex, sp);
  }

  // ---------------------------------------------------------------------------
  // One row: properties
  // ---------------------------------------------------------------------------

  /** The two dates decide at most one direction, and neither exactly when they are equal. */
  lemma RecencyTrichotomy(sdt: Option<int>, cdt: Option<int>)
    ensures !(SheetNewer(sdt, cdt) && CrmNewer(sdt, cdt))
    ensures !SheetNewer(sdt, cdt) && !CrmNewer(sdt, cdt) <==> sdt == cdt
  {
  }

  /** The update element carries the lead's id and the new date, drops the two
      timestamps, and keeps every other field of the lead. */
  lemma UpdateElementFields(lead: map<string, string>, id: string, date: string)
    ensures var u := UpdateElement(lead, id, date);
      && "id" in u && u["id"] == id
      && DateField in u && u[DateField] == date
      && "createdtime" !in u && "modifiedtime" !in u
      && (forall k :: k in lead && k !in {"id", DateField, "createdtime", "modifiedtime"} ==> k in u && u[k] == lead[k])
      && (forall k :: k in u ==> k in lead || k == "id" || k == DateField)
  {
  }

  /** The push sends the session requests and then exactly one update, which is
      the last request, unless the login fails; it never creates a lead. */
  lemma PushRequests(c: Credentials, b: Behaviour, st: St, element: map<string, string>)
    ensures var out := Push(c, b, st, element);
      && Extends(st, out.1) && NoCreates(Added(st, out.1))
      && (out.0.None? ==> |out.1.sent| > |st.sent| && out.1.sent[|out.1.sent| - 1].Update?
                          && out.1.sent[|out.1.sent| - 1].element == element
                          && Some(out.1.sent[|out.1.sent| - 1].session) == out.1.sessionName)
      && (out.0.Some? ==> LoginError(out.0.value))
  {
    var (session, st1) := SessionSpec(c, b, st);
    SessionFacts(c, b, st);
    if session.Success? {
      var st2 := Exchange(b, st1, Update(session.value, element)).1;
      ExtendsTrans(st, st1, st2);
      assert Added(st1, st2) == [Update(session.value, element)];
      NoCreatesAppend(Added(st, st1), Added(st1, st2));
    }
  }

  /** The direction of a row: a newer sheet date is pushed to the CRM in day-first
      form and nothing is written for the date; a newer CRM date is pulled into the
      worksheet's date column, raising KeyError when the sheet has no such column,
      and nothing is sent; equal dates send and write nothing for the date. */
  lemma ReconcileDirection(c: Credentials, b: Behaviour, cal: Calendar, hmap: map<string, nat>, data: map<string, string>,
                           tg: Target, lead: map<string, string>, comments: string, st: St)
    ensures var out := Reconcile(c, b, cal, hmap, data, tg, lead, comments, st);
      var col := DateColumn(tg.ledger == Exhibitor);
      var sdt := LastContact(cal, data, tg.ledger == Exhibitor);
      var cdt := ParseSheetDate(cal, Get(lead, DateField, ""));
      && (SheetNewer(sdt, cdt) ==>
            out == match Push(c, b, st, UpdateElement(lead, tg.crmId, cal.dayFirstDate(sdt.value))) {
                     case (None, st1) => (Success(CommentWrites(hmap, tg.row, comments)), st1)
                     case (Some(e), st1) => (Failure(e), st1)
                   })
      && (!SheetNewer(sdt, cdt) ==> out.1 == st)
      && (CrmNewer(sdt, cdt) && col in hmap ==>
            out.0 == Success([Write(hmap[col], tg.row, Get(lead, DateField, ""))] + CommentWrites(hmap, tg.row, comments)))
      && (CrmNewer(sdt, cdt) && col !in hmap ==> out.0 == Failure("'" + col + "'"))
      && (sdt == cdt ==> out == (Success(CommentWrites(hmap, tg.row, comments)), st))
  {
    RecencyTrichotomy(LastContact(cal, data, tg.ledger == Exhibitor), ParseSheetDate(cal, Get(lead, DateField, "")));
  }

  /** A write of the row queues a value that is not blank, at the row itself. */
  predicate Fills(ws: seq<Write>, row: nat)
  {
    forall i :: 0 <= i < |ws| ==> ws[i].row == row && ws[i].col >= 1 && ws[i].value != ""
  }

  lemma {:induction false} NotBlank(s: string)
    requires Strip(s) != ""
    ensures s != ""
  {
    if s == [] {
      StripBlank(s);
    }
  }

  /** A successful sync only queues non-blank values into the row: the pulled
      date and the comments are never blank. */
  lemma ReconcileFills(c: Credentials, b: Behaviour, cal: Calendar, hmap: map<string, nat>, data: map<string, string>,
                       tg: Target, lead: map<string, string>, comments: string, st: St)
    requires forall h :: h in hmap ==> hmap[h] >= 1
    ensures var out := Reconcile(c, b, cal, hmap, data, tg, lead, comments, st);
      out.0.Success? ==> Fills(out.0.value, tg.row)
  {
    var raw := Get(lead, DateField, "");
    if Strip(comments) != "" {
      NotBlank(comments);
    }
    if ParseSheetDate(cal, raw).Some? {
      assert Strip(raw) != "";
      NotBlank(raw);
    }
  }

  /** The sync of a row reads the lead, then its comments, and never creates a lead. */
  lemma SyncRequests(c: Credentials, b: Behaviour, cal: Calendar, hmap: map<string, nat>, data: map<string, string>,
                     tg: Target, st: St)
    requires forall h :: h in hmap ==> hmap[h] >= 1
    ensures var out := SyncSpec(c, b, cal, hmap, data, tg, st);
      && Extends(st, out.1) && NoCreates(Added(st, out.1))
      && (out.0.Success? ==> Fills(out.0.value, tg.row))
  {
    var (lead, st1) := RetrieveSpec(c, b, st, tg.crmId);
    RetrieveFacts(c, b, st, tg.crmId);
    if lead.Success? {
      var (comments, st2) := CommentsSpec(c, b, st1, tg.crmId);
      CommentsFacts(c, b, st1, tg.crmId);
      ExtendsTrans(st, st1, st2);
      NoCreatesAppend(Added(st, st1), Added(st1, st2));
      if comments.Success? {
        var st3 := Reconcile(c, b, cal, hmap, data, tg, lead.value, comments.value, st2).1;
        ReconcileFills(c, b, cal, hmap, data, tg, lead.value, comments.value, st2);
        var sdt := LastContact(cal, data, tg.ledger == Exhibitor);
        if SheetNewer(sdt, ParseSheetDate(cal, Get(lead.value, DateField, ""))) {
          PushRequests(c, b, st2, UpdateElement(lead.value, tg.crmId, cal.dayFirstDate(sdt.value)));
          ExtendsTrans(st, st2, st3);
          NoCreatesAppend(Added(st, st2), Added(st2, st3));
        } else {
          assert Added(st2, st3) == [];
        }
      }
    }
  }

  /** The id and the status of a row are cleared exactly when its sync raised an
      error naming an unusable id; a successful sync never blanks a cell. */
  lemma ClearIff(t: Tab, row: nat, res: Result<seq<Write>>)
    requires res.Success? ==> Fills(res.value, row)
    ensures (exists i :: 0 <= i < |Outcome(t, row, res)| && Outcome(t, row, res)[i] == Write(t.crmCol, row, ""))
            <==> res.Failure? && StaleIdError(res.error)
    ensures res.Failure? && StaleIdError(res.error) ==> Outcome(t, row, res) == Clear(t, row)
    ensures res.Failure? && !StaleIdError(res.error) ==> Outcome(t, row, res) == []
  {
    if res.Failure? && StaleIdError(res.error) {
      assert Outcome(t, row, res)[0] == Write(t.crmCol, row, "");
    }
  }

  /** A lookup that raises ends the `try` with that error, before the comments are fetched. */
  lemma LeadErrorEndsSync(c: Credentials, b: Behaviour, cal: Calendar, hmap: map<string, nat>, data: map<string, string>,
                          tg: Target, st: St)
    requires RetrieveSpec(c, b, st, tg.crmId).0.Failure?
    ensures SyncSpec(c, b, cal, hmap, data, tg, st) == (Failure(RetrieveSpec(c, b, st, tg.crmId).0.error), RetrieveSpec(c, b, st, tg.crmId).1)
  {
  }

  /** An error text that says "invalid" in any letter case is taken for an unusable id. */
  lemma InvalidIsStale(err: string)
    requires Contains(Lower(err), "invalid")
    ensures StaleIdError(err)
  {
  }

  /** A skipped row sends nothing and queues nothing. */
  lemma RowStepSkips(body: TryBody, ex: Tab, sp: Tab, tg: Target, st: St, q: Queues)
    requires Fits(ex, sp, tg)
    requires var t := TabOf(ex, sp, tg.ledger); Skipped(HeaderToIndex(t.Header()), t.grid[tg.row - 1])
    ensures RowStep(body, ex, sp, tg, st, q) == (st, q)
  {
    var t := TabOf(ex, sp, tg.ledger);
    assert Skipped(HeaderToIndex(t.Header()), t.grid[tg.row - 1]);
  }

  /** Any other row runs the `try` on the row's values by header and queues its
      outcome on its own worksheet only. */
  lemma RowStepSyncs(body: TryBody, ex: Tab, sp: Tab, tg: Target, st: St, q: Queues)
    requires Fits(ex, sp, tg)
    requires var t := TabOf(ex, sp, tg.ledger); !Skipped(HeaderToIndex(t.Header()), t.grid[tg.row - 1])
    ensures var t := TabOf(ex, sp, tg.ledger);
      var sync := body(HeaderToIndex(t.Header()), RowToDict(t.Header(), t.grid[tg.row - 1]), tg, st);
      var out := RowStep(body, ex, sp, tg, st, q);
      && out.0 == sync.1
      && out.1.Of(tg.ledger) == q.Of(tg.ledger) + Outcome(t, tg.row, sync.0)
      && out.1.Of(tg.ledger.Other()) == q.Of(tg.ledger.Other())
  {
  }

  /** A login failure whose text says "invalid" — a rejected access key, say — is
      taken for an unusable lead id: the row's id and status are cleared. */
  lemma LoginInvalidClears(c: Credentials, b: Behaviour, cal: Calendar, ex: Tab, sp: Tab, tg: Target, st: St, q: Queues)
    requires Fits(ex, sp, tg)
    requires var t := TabOf(ex, sp, tg.ledger); !Skipped(HeaderToIndex(t.Header()), t.grid[tg.row - 1])
    requires RetrieveSpec(c, b, st, tg.crmId).0.Failure?
    requires Contains(Lower(RetrieveSpec(c, b, st, tg.crmId).0.error), "invalid")
    ensures RowStep(Try(c, b, cal), ex, sp, tg, st, q).1.Of(tg.ledger) == q.Of(tg.ledger) + Clear(TabOf(ex, sp, tg.ledger), tg.row)
  {
    var t := TabOf(ex, sp, tg.ledger);
    var err := RetrieveSpec(c, b, st, tg.crmId).0.error;
    LeadErrorEndsSync(c, b, cal, HeaderToIndex(t.Header()), RowToDict(t.Header(), t.grid[tg.row - 1]), tg, st);
    InvalidIsStale(err);
    RowStepSyncs(Try(c, b, cal), ex, sp, tg, st, q);
  }

  // ---------------------------------------------------------------------------
  // Duplicate-marked rows
  // ---------------------------------------------------------------------------

  /** Upper-casing turns "Duplicate" or "DUPLICATE" at position `i` into "DUPLICATE". */
  lemma UpperDuplicate(v: string, i: int)
    requires 0 <= i && i + 9 <= |v|
    requires v[i..i + 9] == "Duplicate" || v[i..i + 9] == Blocker
    ensures Contains(Upper(v), Blocker)
  {
    Spelled(v[i..i + 9], v, i);
    UpperAt(v, i, 'D', 'D');
    UpperAt(v, i + 1, 'u', 'U');
    UpperAt(v, i + 2, 'p', 'P');
    UpperAt(v, i + 3, 'l', 'L');
    UpperAt(v, i + 4, 'i', 'I');
    UpperAt(v, i + 5, 'c', 'C');
    UpperAt(v, i + 6, 'a', 'A');
    UpperAt(v, i + 7, 't', 'T');
    UpperAt(v, i + 8, 'e', 'E');
    var u := Upper(v);
    assert u[i] == 'D' && u[i + 1] == 'U' && u[i + 2] == 'P' && u[i + 3] == 'L' && u[i + 4] == 'I';
    assert u[i + 5] == 'C' && u[i + 6] == 'A' && u[i + 7] == 'T' && u[i + 8] == 'E';
    Unspelled(Blocker, u, i);
    ContainsAt(Upper(v), Blocker, i);
  }

  /** A row whose status Flow 1 set to the copied mark or the duplicate mark is never synced. */
  lemma MarkedRowsSkipped(hmap: map<string, nat>, row: seq<string>)
    requires UpdateColName in hmap
    requires var v := CellOr(row, hmap[UpdateColName] as int - 1); v == CopiedMark || v == DuplicateMark
    ensures Skipped(hmap, row)
  {
    var v := CellOr(row, hmap[UpdateColName] as int - 1);
    if v == CopiedMark {
      assert v[0..9] == Blocker;
      UpperDuplicate(v, 0);
    } else {
      assert v[23..32] == "Duplicate";
      UpperDuplicate(v, 23);
    }
  }

  // ---------------------------------------------------------------------------
  // The whole flow: properties
  // ---------------------------------------------------------------------------

  /** Writes below the header, into existing column numbers. */
  predicate BelowHeader(ws: seq<Write>)
  {
    forall i :: 0 <= i < |ws| ==> ws[i].row >= 2 && ws[i].col >= 1
  }

  lemma BelowHeaderAppend(a: seq<Write>, b: seq<Write>)
    requires BelowHeader(a) && BelowHeader(b)
    ensures BelowHeader(a + b)
  {
    forall i | 0 <= i < |a + b| ensures (a + b)[i].row >= 2 && (a + b)[i].col >= 1 {
      if i >= |a| { assert (a + b)[i] == b[i - |a|]; }
    }
  }

  /** A `try` body that only reads and updates leads, and whose writes fill the row
      it was given, in existing columns. */
  ghost predicate ReadsAndFills(body: TryBody)
  {
    forall hmap, data, tg, st | forall h :: h in hmap ==> hmap[h] >= 1 ::
      && Extends(st, body(hmap, data, tg, st).1) && NoCreates(Added(st, body(hmap, data, tg, st).1))
      && (body(hmap, data, tg, st).0.Success? ==> Fills(body(hmap, data, tg, st).0.value, tg.row))
  }

  /** Flow 2's `try` body is such a body. */
  lemma TryReadsAndFills(c: Credentials, b: Behaviour, cal: Calendar)
    ensures ReadsAndFills(Try(c, b, cal))
  {
    forall hmap, data, tg, st | forall h :: h in hmap ==> hmap[h] >= 1
      ensures var out := Try(c, b, cal)(hmap, data, tg, st);
        && Extends(st, out.1) && NoCreates(Added(st, out.1))
        && (out.0.Success? ==> Fills(out.0.value, tg.row))
    {
      SyncRequests(c, b, cal, hmap, data, tg, st);
    }
  }

  /** One row: only reads and updates are sent, and the writes land in the row. */
  lemma RowStepFacts(body: TryBody, ex: Tab, sp: Tab, tg: Target, st: St, q: Queues)
    requires ReadsAndFills(body)
    requires Fits(ex, sp, tg) && BelowHeader(q.ex) && BelowHeader(q.sp)
    ensures var out := RowStep(body, ex, sp, tg, st, q);
      && Extends(st, out.0) && NoCreates(Added(st, out.0))
      && BelowHeader(out.1.ex) && BelowHeader(out.1.sp)
  {
    var t := TabOf(ex, sp, tg.ledger);
    var hmap := HeaderToIndex(t.Header());
    var out := RowStep(body, ex, sp, tg, st, q);
    if Skipped(hmap, t.grid[tg.row - 1]) {
      assert Added(st, out.0) == [];
    } else {
      RowStepSyncs(body, ex, sp, tg, st, q);
      HeaderToIndexShape(t.Header());
      var sync := body(hmap, RowToDict(t.Header(), t.grid[tg.row - 1]), tg, st);
      var ws := Outcome(t, tg.row, sync.0);
      assert BelowHeader(ws);
      BelowHeaderAppend(q.Of(tg.ledger), ws);
      assert out.1.ex == out.1.Of(Exhibitor) && out.1.sp == out.1.Of(Speaker);
    }
  }

  /** The loop over `n` entries: never a create, and every write below the header. */
  lemma {:induction false} Flow2LoopFacts(body: TryBody, ex: Tab, sp: Tab, ts: seq<Target>, n: nat, st: St)
    requires ReadsAndFills(body)
    requires n <= |ts| && forall i :: 0 <= i < |ts| ==> Fits(ex, sp, ts[i])
    ensures var out := Flow2Loop(body, ex, sp, ts, n, st);
      && Extends(st, out.0) && NoCreates(Added(st, out.0))
      && BelowHeader(out.1.ex) && BelowHeader(out.1.sp)
  {
    if n > 0 {
      Flow2LoopFacts(body, ex, sp, ts, n - 1, st);
      var (st1, q1) := Flow2Loop(body, ex, sp, ts, n - 1, st);
      RowStepFacts(body, ex, sp, ts[n - 1], st1, q1);
      var st2 := RowStep(body, ex, sp, ts[n - 1], st1, q1).0;
      ExtendsTrans(st, st1, st2);
      NoCreatesAppend(Added(st, st1), Added(st1, st2));
    }
  }

  /** Flow 2 never creates a lead, and every cell it queues is below the header. */
  lemma Flow2Facts(c: Credentials, b: Behaviour, cal: Calendar, ex: Tab, sp: Tab, st: St)
    requires ex.Valid() && sp.Valid()
    ensures var out := Flow2Spec(c, b, cal, ex, sp, st);
      && Extends(st, out.1) && NoCreates(Added(st, out.1))
      && (out.0.Success? ==> BelowHeader(out.0.value.ex) && BelowHeader(out.0.value.sp)
                             && Addressable(out.0.value.ex) && Addressable(out.0.value.sp))
  {
    var rows := CrmRows(ex, sp);
    if rows.Success? {
      CrmRowsFit(ex, sp);
      TryReadsAndFills(c, b, cal);
      Flow2LoopFacts(Try(c, b, cal), ex, sp, rows.value, |rows.value|, st);
    } else {
      assert Added(st, st) == [];
    }
  }
}
