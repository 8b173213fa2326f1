/** Flow 1 (`flow1_create_and_sync_duplicates`): for every address of `emap`,
    choose the primary row, then copy a known CRM id to the other row, or create
    the lead and record the new id, or mark both rows as CRM duplicates. */
module Flow1 {
  import opened Wrappers
  import opened Text
  import opened Sheet
  import opened Dates
  import opened Payload
  import opened Crm
  import opened Merge

  /** The status written to a row that received the id of its twin. */
  const CopiedMark := "DUPLICATE – CRM ID COPIED"
  /** The status written after a successful create. */
  const AddedMark := "ADDED IN CRM"
  /** The status written when the CRM rejects the lead as a duplicate. */
  const DuplicateMark := "Failed to add in CRM – Duplicate detected"
  /** The id written when the CRM rejects the lead as a duplicate, so that later runs skip it. */
  const Blocker := "DUPLICATE"

  /** A row chosen for a role, with the worksheet it lives on. */
  datatype Pick = Pick(ledger: Ledger, side: Side)

  /** The primary row, which owns the CRM lead, and the row of the other worksheet, if any. */
  datatype Roles = Roles(primary: Pick, secondary: Option<Pick>)

  /** The worksheet of a ledger. */
  function TabOf(ex: Tab, sp: Tab, l: Ledger): Tab
  {
    if l == Exhibitor then ex else sp
  }

  /** The write of `value` into the CRM id column of a chosen row. */
  function IdCell(ex: Tab, sp: Tab, p: Pick, value: string): Write
  {
    Write(TabOf(ex, sp, p.ledger).crmCol, p.side.row, value)
  }

  /** The write of `value` into the CRM status column of a chosen row. */
  function StatusCell(ex: Tab, sp: Tab, p: Pick, value: string): Write
  {
    Write(TabOf(ex, sp, p.ledger).updCol, p.side.row, value)
  }

  /** The choice of primary and secondary row for one address. */
  function Choose(b: Block): Roles
    requires b.ex.Some? || b.sp.Some?
  {
    if b.ex.Some? && b.sp.Some? then
      if b.ex.value.crm != "" then Roles(Pick(Exhibitor, b.ex.value), Some(Pick(Speaker, b.sp.value)))
      else if b.sp.value.crm != "" then Roles(Pick(Speaker, b.sp.value), Some(Pick(Exhibitor, b.ex.value)))
      else Roles(Pick(Exhibitor, b.ex.value), Some(Pick(Speaker, b.sp.value)))
    else if b.ex.Some? then Roles(Pick(Exhibitor, b.ex.value), None)
    else Roles(Pick(Speaker, b.sp.value), None)
  }

  /** The opportunity type of the lead. */
  function OppType(b: Block): string
  {
    if b.ex.Some? && b.sp.Some? then "Exhibitor/Speaker"
    else if b.ex.Some? then "Exhibitor_opportunity"
    else "speaker_opportunity"
  }

  /** The multi-select tag of the lead. */
  function Multi(b: Block): string
  {
    if b.ex.Some? && b.sp.Some? then "Exhibitor,Speaker"
    else if b.ex.Some? then "Exhibitor"
    else "Speaker"
  }

  /** The payload created for an address without a CRM id: built from the primary row. */
  function LeadPayload(cal: Calendar, b: Block): map<string, string>
    requires b.ex.Some? || b.sp.Some?
  {
    var p := Choose(b).primary;
    PayloadSpec(cal, p.side.data, OppType(b), Multi(b), p.ledger == Exhibitor)
  }

  /** `res["id"]` after `create_lead`: the new id, or the error the create or the missing key raised. */
  function NewId(res: Result<map<string, string>>): Result<string>
  {
    if res.Failure? then Failure(res.error)
    else if "id" in res.value then Success(res.value["id"])
    else Failure("'id'")
  }

  /** The test that classifies a create error as a CRM duplicate. */
  predicate IsDuplicateError(err: string)
  {
    Contains(err, "Duplicate(s) detected") || Contains(Lower(err), "duplicate")
  }

  /** Lower-casing turns "Duplicate" at position `i` into "duplicate". */
  lemma LowerDuplicate(v: string, i: int)
    requires 0 <= i && i + 9 <= |v| && v[i..i + 9] == "Duplicate"
    ensures Contains(Lower(v), "duplicate")
  {
    Spelled(v[i..i + 9], v, i);
    LowerAt(v, i, 'D', 'd');
    LowerAt(v, i + 1, 'U', 'u');
    LowerAt(v, i + 2, 'P', 'p');
    LowerAt(v, i + 3, 'L', 'l');
    LowerAt(v, i + 4, 'I', 'i');
    LowerAt(v, i + 5, 'C', 'c');
    LowerAt(v, i + 6, 'A', 'a');
    LowerAt(v, i + 7, 'T', 't');
    LowerAt(v, i + 8, 'E', 'e');
    Unspelled("duplicate", Lower(v), i);
    ContainsAt(Lower(v), "duplicate", i);
  }

  /** The test for "Duplicate(s) detected" adds nothing: the case-insensitive test
      for "duplicate" already accepts every such text. */
  lemma DuplicateTestIsCaseless(err: string)
    ensures IsDuplicateError(err) <==> Contains(Lower(err), "duplicate")
  {
    if Contains(err, "Duplicate(s) detected") {
      var i := ContainsWitness(err, "Duplicate(s) detected");
      assert err[i..i + 9] == err[i..i + 21][..9];
      LowerDuplicate(err, i);
    }
  }

  /** The writes for an address whose primary row already has an id: the id and
      the copied mark for a secondary row without one. */
  function CopyId(ex: Tab, sp: Tab, r: Roles, q: Queues): Queues
  {
    if r.secondary.Some? && r.secondary.value.side.crm == "" then
      var s := r.secondary.value;
      q.Append(s.ledger, [IdCell(ex, sp, s, r.primary.side.crm), StatusCell(ex, sp, s, CopiedMark)])
    else q
  }

  /** The writes after the create: the new id and the added mark on both rows, or
      the duplicate mark and the blocker on both rows, or nothing. */
  function Settle(ex: Tab, sp: Tab, r: Roles, outcome: Result<string>, q: Queues): Queues
  {
    match outcome
    case Success(id) =>
      var q1 := q.Append(r.primary.ledger, [IdCell(ex, sp, r.primary, id), StatusCell(ex, sp, r.primary, AddedMark)]);
      if r.secondary.Some? then
        q1.Append(r.secondary.value.ledger, [IdCell(ex, sp, r.secondary.value, id), StatusCell(ex, sp, r.secondary.value, AddedMark)])
      else q1
    case Failure(err) =>
      if IsDuplicateError(err) then
        var q1 := q.Append(r.primary.ledger, [StatusCell(ex, sp, r.primary, DuplicateMark), IdCell(ex, sp, r.primary, Blocker)]);
        if r.secondary.Some? then
          q1.Append(r.secondary.value.ledger, [StatusCell(ex, sp, r.secondary.value, DuplicateMark), IdCell(ex, sp, r.secondary.value, Blocker)])
        else q1
      else q
  }

  /** One address: copy a known id, or create the lead and settle its outcome. */
  function Handle(c: Credentials, b: Behaviour, cal: Calendar, ex: Tab, sp: Tab, block: Block, st: St, q: Queues): (St, Queues)
    requires block.ex.Some? || block.sp.Some?
  {
    var r := Choose(block);
    if r.primary.side.crm != "" then (st, CopyId(ex, sp, r, q))
    else
      var (res, st1) := CreateSpec(c, b, st, LeadPayload(cal, block));
      (st1, Settle(ex, sp, r, NewId(res), q))
  }

  /** The process loop over the first `n` addresses of `emap`, in insertion order. */
  function Flow1Loop(c: Credentials, b: Behaviour, cal: Calendar, ex: Tab, sp: Tab, m: EMap, n: nat, st: St): (St, Queues)
    requires WellFormed(m) && n <= |m.order|
  {
    if n == 0 then (st, NoWrites)
    else
      var (st1, q1) := Flow1Loop(c, b, cal, ex, sp, m, n - 1, st);
      Handle(c, b, cal, ex, sp, m.blocks[m.order[n - 1]], st1, q1)
  }

  /** Flow 1: the new client state and request log, and the queued writes per worksheet. */
  function Flow1Spec(c: Credentials, b: Behaviour, cal: Calendar, ex: Tab, sp: Tab, st: St): (St, Queues)
    requires ex.Valid() && sp.Valid()
  {
    var m := MergeSpec(ex, sp);
    MergeWellFormed(ex, sp);
    Flow1Loop(c, b, cal, ex, sp, m, |m.order|, st)
  }

  // ---------------------------------------------------------------------------
  // The flow as the source runs it
  // ---------------------------------------------------------------------------

  /** The body of the process loop for one address. */
  method HandleEmail(client: CrmClient, cal: Calendar, ex: Tab, sp: Tab, block: Block, q0: Queues) returns (q: Queues)
    requires block.ex.Some? || block.sp.Some?
    modifies client, client.env
    ensures (client.State(), q) == Handle(client.creds, client.env.behaviour, cal, ex, sp, block, old(client.State()), q0)
  {
    q := q0;
    var roles := Choose(block);
    var primary, secondary := roles.primary, roles.secondary;
    if primary.side.crm != "" {
      if secondary.Some? {
        var secId := secondary.value.side.crm;
        if secId == "" {
          q := q.Append(secondary.value.ledger, [IdCell(ex, sp, secondary.value, primary.side.crm), StatusCell(ex, sp, secondary.value, CopiedMark)]);
        }
      }
      return;
    }
    var pdata := BuildPayload(cal, primary.side.data, OppType(block), Multi(block), primary.ledger == Exhibitor);
    var res := client.CreateLead(pdata);
    var newId := NewId(res);
    if newId.Success? {
      q := q.Append(primary.ledger, [IdCell(ex, sp, primary, newId.value), StatusCell(ex, sp, primary, AddedMark)]);
      if secondary.Some? {
        q := q.Append(secondary.value.ledger, [IdCell(ex, sp, secondary.value, newId.value), StatusCell(ex, sp, secondary.value, AddedMark)]);
      }
    } else {
      var err := newId.error;
      if Contains(err, "Duplicate(s) detected") || Contains(Lower(err), "duplicate") {
        q := q.Append(primary.ledger, [StatusCell(ex, sp, primary, DuplicateMark), IdCell(ex, sp, primary, Blocker)]);
        if secondary.Some? {
          q := q.Append(secondary.value.ledger, [StatusCell(ex, sp, secondary.value, DuplicateMark), IdCell(ex, sp, secondary.value, Blocker)]);
        }
      }
    }
  }

  /** `flow1_create_and_sync_duplicates` up to the flush: build `emap`, then handle
      every address in insertion order, collecting the writes per worksheet. */
  method CreateAndSyncDuplicates(client: CrmClient, cal: Calendar, ex: Tab, sp: Tab) returns (updates: Queues)
    requires ex.Valid() && sp.Valid()
    modifies client, client.env
    ensures (client.State(), updates) == Flow1Spec(client.creds, client.env.behaviour, cal, ex, sp, old(client.State()))
  {
    var emap := BuildEMap(ex, sp);
    MergeWellFormed(ex, sp);
    updates := NoWrites;
    for n := 0 to |emap.order|
      invariant (client.State(), updates) == Flow1Loop(client.creds, client.env.behaviour, cal, ex, sp, emap, n, old(client.State()))
    {
      updates := HandleEmail(client, cal, ex, sp, emap.blocks[emap.order[n]], updates);
    }
  }

  // ---------------------------------------------------------------------------
  // Properties
  // ---------------------------------------------------------------------------

  /** The primary is a row of the address: the exhibitor row if it has an id,
      else the speaker row if it has one, else the exhibitor row if there is one;
      the secondary is the row of the other worksheet, present when both are. */
  lemma ChooseRoles(b: Block)
    requires b.ex.Some? || b.sp.Some?
    ensures var r := Choose(b);
      && b.Of(r.primary.ledger) == Some(r.primary.side)
      && (r.secondary.Some? <==> b.ex.Some? && b.sp.Some?)
      && (r.secondary.Some? ==> r.secondary.value.ledger == r.primary.ledger.Other()
                                && b.Of(r.secondary.value.ledger) == Some(r.secondary.value.side))
      && (b.ex.Some? && b.ex.value.crm != "" ==> r.primary.ledger == Exhibitor)
      && (b.sp.Some? && b.sp.value.crm != "" && (b.ex.None? || b.ex.value.crm == "") ==> r.primary.ledger == Speaker)
      && (b.ex.Some? && (b.sp.None? || b.sp.value.crm == "") ==> r.primary.ledger == Exhibitor)
      && (r.primary.side.crm == "" <==> (b.ex.None? || b.ex.value.crm == "") && (b.sp.None? || b.sp.value.crm == ""))
  {
  }

  /** The writes for one row after the create: the new id and the added mark, or
      the duplicate mark and the blocker, or none for any other error. */
  function Marks(t: Tab, row: nat, outcome: Result<string>): seq<Write>
  {
    match outcome
    case Success(id) => [Write(t.crmCol, row, id), Write(t.updCol, row, AddedMark)]
    case Failure(err) =>
      if IsDuplicateError(err) then [Write(t.updCol, row, DuplicateMark), Write(t.crmCol, row, Blocker)] else []
  }

  /** The writes for one row when its address already has an id: the id and the copied
      mark when the row has none, nothing when it has one. */
  function Copies(t: Tab, s: Side, id: string): seq<Write>
  {
    if s.crm == "" then [Write(t.crmCol, s.row, id), Write(t.updCol, s.row, CopiedMark)] else []
  }

  /** An address whose primary row has an id (the blocker included) sends no request;
      every row of it without an id gets that id and the copied mark. */
  lemma HandleKnownId(c: Credentials, b: Behaviour, cal: Calendar, ex: Tab, sp: Tab, block: Block, st: St, q: Queues)
    requires block.ex.Some? || block.sp.Some?
    requires Choose(block).primary.side.crm != ""
    ensures var out := Handle(c, b, cal, ex, sp, block, st, q);
      && out.0 == st
      && forall l :: out.1.Of(l) == q.Of(l) + (if block.Of(l).Some? then Copies(TabOf(ex, sp, l), block.Of(l).value, Choose(block).primary.side.crm) else [])
  {
    ChooseRoles(block);
  }

  /** After the create, each row of the address gets the marks of the outcome, in its own worksheet's queue. */
  lemma SettleMarks(ex: Tab, sp: Tab, block: Block, outcome: Result<string>, q: Queues)
    requires block.ex.Some? || block.sp.Some?
    ensures var q' := Settle(ex, sp, Choose(block), outcome, q);
      forall l :: q'.Of(l) == q.Of(l) + (if block.Of(l).Some? then Marks(TabOf(ex, sp, l), block.Of(l).value.row, outcome) else [])
  {
    ChooseRoles(block);
    var r := Choose(block);
    var q' := Settle(ex, sp, r, outcome, q);
    forall l ensures q'.Of(l) == q.Of(l) + (if block.Of(l).Some? then Marks(TabOf(ex, sp, l), block.Of(l).value.row, outcome) else []) {
      if block.Of(l).Some? {
        var p := if r.primary.ledger == l then r.primary else r.secondary.value;
        assert p.ledger == l && p.side == block.Of(l).value;
        assert IdCell(ex, sp, p, "") == Write(TabOf(ex, sp, l).crmCol, p.side.row, "");
      }
    }
  }

  /** An address without an id is created from its primary row; each of its rows
      then gets the same marks, chosen by the outcome of the create alone. */
  lemma HandleCreate(c: Credentials, b: Behaviour, cal: Calendar, ex: Tab, sp: Tab, block: Block, st: St, q: Queues)
    requires block.ex.Some? || block.sp.Some?
    requires Choose(block).primary.side.crm == ""
    ensures var out := Handle(c, b, cal, ex, sp, block, st, q);
      var created := CreateSpec(c, b, st, LeadPayload(cal, block));
      && out.0 == created.1
      && forall l :: out.1.Of(l) == q.Of(l) + (if block.Of(l).Some? then Marks(TabOf(ex, sp, l), block.Of(l).value.row, NewId(created.0)) else [])
  {
    var created := CreateSpec(c, b, st, LeadPayload(cal, block));
    assert Handle(c, b, cal, ex, sp, block, st, q) == (created.1, Settle(ex, sp, Choose(block), NewId(created.0), q));
    SettleMarks(ex, sp, block, NewId(created.0), q);
  }

  /** The lead is built from the primary row and tagged by the worksheets the address appears on. */
  lemma LeadTags(cal: Calendar, b: Block)
    requires b.ex.Some? || b.sp.Some?
    ensures var p := LeadPayload(cal, b);
      && "cf_1049" in p && "cf_1205" in p
      && (b.ex.Some? && b.sp.Some? ==> p["cf_1049"] == "Exhibitor/Speaker" && p["cf_1205"] == "Exhibitor,Speaker")
      && (b.ex.Some? && b.sp.None? ==> p["cf_1049"] == "Exhibitor_opportunity" && p["cf_1205"] == "Exhibitor")
      && (b.ex.None? ==> p["cf_1049"] == "speaker_opportunity" && p["cf_1205"] == "Speaker")
      && "lastname" in p && Strip(p["lastname"]) != ""
  {
    var r := Choose(b).primary;
    PayloadFixups(cal, r.side.data, OppType(b), Multi(b), r.ledger == Exhibitor);
    PayloadSurname(cal, r.side.data, OppType(b), Multi(b), r.ledger == Exhibitor);
  }

  /** Writes that land below the header, in the CRM id or the CRM status column of `t`. */
  predicate Confined(t: Tab, ws: seq<Write>)
  {
    forall i :: 0 <= i < |ws| ==> ws[i].row >= 2 && (ws[i].col == t.crmCol || ws[i].col == t.updCol)
  }

  lemma ConfinedAppend(t: Tab, a: seq<Write>, b: seq<Write>)
    requires Confined(t, a) && Confined(t, b)
    ensures Confined(t, a + b)
  {
    forall i | 0 <= i < |a + b| ensures (a + b)[i].row >= 2 && ((a + b)[i].col == t.crmCol || (a + b)[i].col == t.updCol) {
      if i >= |a| { assert (a + b)[i] == b[i - |a|]; }
    }
  }

  /** One address: at most two creates, each posting the lead of that address, and
      none when it already has an id. */
  lemma HandleRequests(c: Credentials, b: Behaviour, cal: Calendar, ex: Tab, sp: Tab, block: Block, st: St, q: Queues)
    requires block.ex.Some? || block.sp.Some?
    ensures var out := Handle(c, b, cal, ex, sp, block, st, q);
      && Extends(st, out.0)
      && CreateCount(Added(st, out.0)) <= 2
      && CreatesCarry(Added(st, out.0), LeadPayload(cal, block))
      && (Choose(block).primary.side.crm != "" ==> out.0 == st)
  {
    var out := Handle(c, b, cal, ex, sp, block, st, q);
    if Choose(block).primary.side.crm != "" {
      assert out.0 == st;
      assert Added(st, out.0) == [];
    } else {
      var created := CreateSpec(c, b, st, LeadPayload(cal, block));
      assert out.0 == created.1;
      CreateSendsOneElement(c, b, st, LeadPayload(cal, block));
    }
  }

  /** Queues that grow by confined writes stay confined. */
  lemma GrowConfined(ex: Tab, sp: Tab, q: Queues, q': Queues, wEx: seq<Write>, wSp: seq<Write>)
    requires Confined(ex, q.ex) && Confined(sp, q.sp) && Confined(ex, wEx) && Confined(sp, wSp)
    requires q'.ex == q.ex + wEx && q'.sp == q.sp + wSp
    ensures Confined(ex, q'.ex) && Confined(sp, q'.sp)
  {
    ConfinedAppend(ex, q.ex, wEx);
    ConfinedAppend(sp, q.sp, wSp);
  }

  /** Copying a known id writes only id and status cells of the address's rows. */
  lemma CopyConfined(ex: Tab, sp: Tab, block: Block, q: Queues)
    requires (block.ex.Some? || block.sp.Some?) && SheetRows(block)
    requires Choose(block).primary.side.crm != ""
    requires Confined(ex, q.ex) && Confined(sp, q.sp)
    ensures var q' := CopyId(ex, sp, Choose(block), q);
      Confined(ex, q'.ex) && Confined(sp, q'.sp)
  {
    ChooseRoles(block);
    var id := Choose(block).primary.side.crm;
    var wEx := if block.ex.Some? then Copies(ex, block.ex.value, id) else [];
    var wSp := if block.sp.Some? then Copies(sp, block.sp.value, id) else [];
    var q' := CopyId(ex, sp, Choose(block), q);
    assert q'.Of(Exhibitor) == q.Of(Exhibitor) + wEx;
    assert q'.Of(Speaker) == q.Of(Speaker) + wSp;
    GrowConfined(ex, sp, q, q', wEx, wSp);
  }

  /** Settling a create writes only id and status cells of the address's rows. */
  lemma SettleConfined(ex: Tab, sp: Tab, block: Block, outcome: Result<string>, q: Queues)
    requires (block.ex.Some? || block.sp.Some?) && SheetRows(block)
    requires Confined(ex, q.ex) && Confined(sp, q.sp)
    ensures var q' := Settle(ex, sp, Choose(block), outcome, q);
      Confined(ex, q'.ex) && Confined(sp, q'.sp)
  {
    SettleMarks(ex, sp, block, outcome, q);
    var wEx := if block.ex.Some? then Marks(ex, block.ex.value.row, outcome) else [];
    var wSp := if block.sp.Some? then Marks(sp, block.sp.value.row, outcome) else [];
    var q' := Settle(ex, sp, Choose(block), outcome, q);
    assert q'.Of(Exhibitor) == q.Of(Exhibitor) + wEx;
    assert q'.Of(Speaker) == q.Of(Speaker) + wSp;
    GrowConfined(ex, sp, q, q', wEx, wSp);
  }

  /** One address writes only to its rows' id and status cells. */
  lemma HandleConfined(c: Credentials, b: Behaviour, cal: Calendar, ex: Tab, sp: Tab, block: Block, st: St, q: Queues)
    requires (block.ex.Some? || block.sp.Some?) && SheetRows(block)
    requires Confined(ex, q.ex) && Confined(sp, q.sp)
    ensures var out := Handle(c, b, cal, ex, sp, block, st, q);
      Confined(ex, out.1.ex) && Confined(sp, out.1.sp)
  {
    if Choose(block).primary.side.crm != "" {
      CopyConfined(ex, sp, block, q);
    } else {
      var created := CreateSpec(c, b, st, LeadPayload(cal, block));
      SettleConfined(ex, sp, block, NewId(created.0), q);
    }
  }

  /** The process loop over `n` addresses: at most two creates per address, and only id and status writes. */
  lemma {:induction false} Flow1LoopFacts(c: Credentials, b: Behaviour, cal: Calendar, ex: Tab, sp: Tab, m: EMap, n: nat, st: St)
    requires WellFormed(m) && n <= |m.order|
    ensures var out := Flow1Loop(c, b, cal, ex, sp, m, n, st);
      && Extends(st, out.0)
      && CreateCount(Added(st, out.0)) <= 2 * n
      && Confined(ex, out.1.ex) && Confined(sp, out.1.sp)
  {
    if n > 0 {
      Flow1LoopFacts(c, b, cal, ex, sp, m, n - 1, st);
      var (st1, q1) := Flow1Loop(c, b, cal, ex, sp, m, n - 1, st);
      var block := m.blocks[m.order[n - 1]];
      HandleRequests(c, b, cal, ex, sp, block, st1, q1);
      HandleConfined(c, b, cal, ex, sp, block, st1, q1);
      var st2 := Handle(c, b, cal, ex, sp, block, st1, q1).0;
      ExtendsTrans(st, st1, st2);
      CreateCountAppend(Added(st, st1), Added(st1, st2));
    }
  }

  /** Flow 1 sends at most two creates per address and queues only writes into the
      CRM id and status columns below the header, so every queued cell is addressable. */
  lemma Flow1Facts(c: Credentials, b: Behaviour, cal: Calendar, ex: Tab, sp: Tab, st: St)
    requires ex.Valid() && sp.Valid()
    ensures var out := Flow1Spec(c, b, cal, ex, sp, st);
      && Extends(st, out.0)
      && CreateCount(Added(st, out.0)) <= 2 * |MergeSpec(ex, sp).order|
      && Confined(ex, out.1.ex) && Confined(sp, out.1.sp)
      && Addressable(out.1.ex) && Addressable(out.1.sp)
  {
    MergeWellFormed(ex, sp);
    var m := MergeSpec(ex, sp);
    Flow1LoopFacts(c, b, cal, ex, sp, m, |m.order|, st);
  }

  /** Every row with an address already has an id. */
  predicate Settled(t: Tab)
    requires t.Valid()
  {
    forall k :: 1 <= k < |t.grid| && RowEmail(t.Header(), t.grid[k]) != "" ==> SideOf(t, k).crm != ""
  }

  /** Every row recorded in `emap` has an id. */
  predicate Identified(m: EMap)
  {
    forall e :: e in m.blocks ==>
      && (m.blocks[e].ex.Some? ==> m.blocks[e].ex.value.crm != "")
      && (m.blocks[e].sp.Some? ==> m.blocks[e].sp.value.crm != "")
  }

  lemma SettledIdentified(ex: Tab, sp: Tab)
    requires ex.Valid() && sp.Valid() && Settled(ex) && Settled(sp)
    ensures Identified(MergeSpec(ex, sp))
  {
    var m := MergeSpec(ex, sp);
    MergeWellFormed(ex, sp);
    forall e | e in m.blocks
      ensures (m.blocks[e].ex.Some? ==> m.blocks[e].ex.value.crm != "") && (m.blocks[e].sp.Some? ==> m.blocks[e].sp.value.crm != "")
    {
      MergeSides(ex, sp, e);
      if m.blocks[e].ex.Some? {
        LastSideRow(ex, e, |ex.grid|);
      }
      if m.blocks[e].sp.Some? {
        LastSideRow(sp, e, |sp.grid|);
      }
    }
  }

  lemma {:induction false} QuietLoop(c: Credentials, b: Behaviour, cal: Calendar, ex: Tab, sp: Tab, m: EMap, n: nat, st: St)
    requires WellFormed(m) && Identified(m) && n <= |m.order|
    ensures Flow1Loop(c, b, cal, ex, sp, m, n, st) == (st, NoWrites)
  {
    if n > 0 {
      QuietLoop(c, b, cal, ex, sp, m, n - 1, st);
      var block := m.blocks[m.order[n - 1]];
      ChooseRoles(block);
      HandleKnownId(c, b, cal, ex, sp, block, st, NoWrites);
      var q := Handle(c, b, cal, ex, sp, block, st, NoWrites).1;
      assert q.ex == q.Of(Exhibitor) && q.sp == q.Of(Speaker);
    }
  }

  /** Once every row with an address has an id, Flow 1 sends nothing and queues nothing. */
  lemma Flow1Settled(c: Credentials, b: Behaviour, cal: Calendar, ex: Tab, sp: Tab, st: St)
    requires ex.Valid() && sp.Valid() && Settled(ex) && Settled(sp)
    ensures Flow1Spec(c, b, cal, ex, sp, st) == (st, NoWrites)
  {
    MergeWellFormed(ex, sp);
    SettledIdentified(ex, sp);
    var m := MergeSpec(ex, sp);
    QuietLoop(c, b, cal, ex, sp, m, |m.order|, st);
  }
}
