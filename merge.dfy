/** The first half of Flow 1: the rows of both ledgers grouped by e-mail address
    (`emap`), with at most one exhibitor row and one speaker row per address. */
module Merge {
  import opened Wrappers
  import opened Text
  import opened Sheet

  /** A worksheet as Flow 1 and Flow 2 see it: the `get_all_values` grid (header
      first) and the columns `ensure_col` chose for the CRM id and the CRM status. */
  datatype Tab = Tab(grid: seq<seq<string>>, crmCol: nat, updCol: nat)
  {
    predicate Valid()
    {
      |grid| >= 1 && crmCol >= 1 && updCol >= 1
    }

    function Header(): seq<string>
      requires Valid()
    {
      grid[0]
    }
  }

  /** One side of an address: its 1-based sheet row, its row dictionary and its stripped CRM id. */
  datatype Side = Side(row: nat, data: map<string, string>, crm: string)

  /** `{"ex": ..., "sp": ...}`: the exhibitor and the speaker row of one address. */
  datatype Block = Block(ex: Option<Side>, sp: Option<Side>)
  {
    function Of(l: Ledger): Option<Side>
    {
      if l == Exhibitor then ex else sp
    }

    function Set(l: Ledger, s: Side): (b: Block)
      ensures b.Of(l) == Some(s)
      ensures forall o :: o != l ==> b.Of(o) == Of(o)
    {
      if l == Exhibitor then this.(ex := Some(s)) else this.(sp := Some(s))
    }
  }

  /** `emap`: a dictionary, so its keys also have an insertion order. */
  datatype EMap = EMap(order: seq<string>, blocks: map<string, Block>)

  const Empty := EMap([], map[])

  /** The invariant of `emap`: the order lists each key once, blank addresses are
      never keys, and every entry has at least one row. */
  predicate WellFormed(m: EMap)
  {
    && (forall i, j :: 0 <= i < j < |m.order| ==> m.order[i] != m.order[j])
    && (forall e :: e in m.blocks ==> e in m.order)
    && (forall i :: 0 <= i < |m.order| ==> m.order[i] in m.blocks)
    && "" !in m.blocks
    && (forall e :: e in m.blocks ==> m.blocks[e].ex.Some? || m.blocks[e].sp.Some?)
    && (forall e :: e in m.blocks ==> SheetRows(m.blocks[e]))
  }

  /** The rows of an entry are sheet rows below the header. */
  predicate SheetRows(b: Block)
  {
    (b.ex.Some? ==> b.ex.value.row >= 2) && (b.sp.Some? ==> b.sp.value.row >= 2)
  }

  /** The key of a row: its "Email" cell, stripped and lower-cased ("" when blank). */
  function RowEmail(header: seq<string>, row: seq<string>): string
  {
    Lower(Strip(Get(RowToDict(header, row), "Email", "")))
  }

  /** The side recorded for grid row `k` (sheet row `k + 1`). */
  function SideOf(t: Tab, k: nat): Side
    requires t.Valid() && 1 <= k < |t.grid|
  {
    Side(k + 1, RowToDict(t.Header(), t.grid[k]), Strip(CellOr(t.grid[k], t.crmCol - 1)))
  }

  /** `emap.setdefault(email, {...})` followed by `emap[email][l] = side`. */
  function Enter(m: EMap, l: Ledger, e: string, s: Side): EMap
  {
    var b := if e in m.blocks then m.blocks[e] else Block(None, None);
    EMap(if e in m.blocks then m.order else m.order + [e], m.blocks[e := b.Set(l, s)])
  }

  /** `emap` after the loop over grid rows 1 .. n - 1 of one ledger, starting from `m0`. */
  function Collect(m0: EMap, l: Ledger, t: Tab, n: nat): EMap
    requires t.Valid() && 1 <= n <= |t.grid|
    decreases n
  {
    if n == 1 then m0 else Step(Collect(m0, l, t, n - 1), l, t, n - 1)
  }

  /** One iteration of a ledger loop: grid row `k` is skipped when its address is blank, else entered. */
  function Step(m: EMap, l: Ledger, t: Tab, k: nat): EMap
    requires t.Valid() && 1 <= k < |t.grid|
  {
    var e := RowEmail(t.Header(), t.grid[k]);
    if e == "" then m else Enter(m, l, e, SideOf(t, k))
  }

  /** `emap` after both loops: the exhibitor rows, then the speaker rows. */
  function MergeSpec(ex: Tab, sp: Tab): EMap
    requires ex.Valid() && sp.Valid()
  {
    Collect(Collect(Empty, Exhibitor, ex, |ex.grid|), Speaker, sp, |sp.grid|)
  }

  /** Independent reference: the side of the last row among grid rows 1 .. n - 1 keyed `e`. */
  function LastSide(t: Tab, e: string, n: nat): Option<Side>
    requires t.Valid() && 1 <= n <= |t.grid|
    decreases n
  {
    if n == 1 then None
    else if RowEmail(t.Header(), t.grid[n - 1]) == e then Some(SideOf(t, n - 1))
    else LastSide(t, e, n - 1)
  }

  /** `emap.setdefault(email, {"ex": None, "sp": None})[l] = side`: a new address
      takes the next place in the order and starts with no rows. */
  method Record(m0: EMap, l: Ledger, email: string, side: Side) returns (m: EMap)
    ensures m == Enter(m0, l, email, side)
  {
    m := m0;
    var block := Block(None, None);
    if email in m.blocks {
      block := m.blocks[email];
    } else {
      m := m.(order := m.order + [email]);
    }
    m := m.(blocks := m.blocks[email := block.Set(l, side)]);
  }

  /** The body of a ledger loop for grid row `i` (sheet row `i + 1`). */
  method RecordRow(m0: EMap, l: Ledger, t: Tab, i: nat) returns (m: EMap)
    requires t.Valid() && 1 <= i < |t.grid|
    ensures m == Step(m0, l, t, i)
  {
    m := m0;
    var row := t.grid[i];
    var d := RowToDict(t.Header(), row);
    var email := Lower(Strip(Get(d, "Email", "")));
    if email != "" {
      var crmId := CellOr(row, t.crmCol - 1);
      m := Record(m, l, email, Side(i + 1, d, Strip(crmId)));
    }
  }

  /** One ledger loop over grid rows 1 .. end, as the source writes it. */
  method CollectRows(m0: EMap, l: Ledger, t: Tab) returns (m: EMap)
    requires t.Valid()
    ensures m == Collect(m0, l, t, |t.grid|)
  {
    m := m0;
    for i := 1 to |t.grid|
      invariant m == Collect(m0, l, t, i)
    {
      m := RecordRow(m, l, t, i);
    }
  }

  /** Both ledger loops of Flow 1. */
  method BuildEMap(ex: Tab, sp: Tab) returns (m: EMap)
    requires ex.Valid() && sp.Valid()
    ensures m == MergeSpec(ex, sp)
  {
    m := CollectRows(Empty, Exhibitor, ex);
    m := CollectRows(m, Speaker, sp);
  }

  /** Entering a non-blank address keeps `emap` well formed. */
  lemma EnterWellFormed(m: EMap, l: Ledger, e: string, s: Side)
    requires WellFormed(m) && e != "" && s.row >= 2
    ensures WellFormed(Enter(m, l, e, s))
  {
    var r := Enter(m, l, e, s);
    if e !in m.blocks {
      forall i, j | 0 <= i < j < |r.order| ensures r.order[i] != r.order[j] {
        if j == |m.order| {
          assert r.order[i] == m.order[i];
        }
      }
    }
  }

  /** The ledger loop keeps `emap` well formed. */
  lemma {:induction false} CollectWellFormed(m0: EMap, l: Ledger, t: Tab, n: nat)
    requires t.Valid() && 1 <= n <= |t.grid| && WellFormed(m0)
    ensures WellFormed(Collect(m0, l, t, n))
    decreases n
  {
    if n > 1 {
      CollectWellFormed(m0, l, t, n - 1);
      var e := RowEmail(t.Header(), t.grid[n - 1]);
      if e != "" {
        EnterWellFormed(Collect(m0, l, t, n - 1), l, e, SideOf(t, n - 1));
      }
    }
  }

  /** What the ledger loop leaves for one address: the entry exists when it did
      before or some row carries the address; this ledger's side is the last such
      row (or the old side), and the other ledger's side is untouched. */
  lemma {:induction false} CollectEmail(m0: EMap, l: Ledger, t: Tab, n: nat, e: string)
    requires t.Valid() && 1 <= n <= |t.grid| && e != ""
    ensures var r := Collect(m0, l, t, n);
      && (e in r.blocks <==> e in m0.blocks || LastSide(t, e, n).Some?)
      && (e in r.blocks && LastSide(t, e, n).Some? ==> r.blocks[e].Of(l) == LastSide(t, e, n))
      && (e in r.blocks && LastSide(t, e, n).None? ==> r.blocks[e] == m0.blocks[e])
      && (e in r.blocks && e in m0.blocks ==> r.blocks[e].Of(l.Other()) == m0.blocks[e].Of(l.Other()))
      && (e in r.blocks && e !in m0.blocks ==> r.blocks[e].Of(l.Other()) == None)
    decreases n
  {
    if n > 1 {
      CollectEmail(m0, l, t, n - 1, e);
    }
  }

  /** The entry of an address after both loops: present exactly when some row of
      either ledger carries it, holding the last exhibitor row and the last speaker
      row with that address. */
  lemma MergeSides(ex: Tab, sp: Tab, e: string)
    requires ex.Valid() && sp.Valid() && e != ""
    ensures var m := MergeSpec(ex, sp);
      && (e in m.blocks <==> LastSide(ex, e, |ex.grid|).Some? || LastSide(sp, e, |sp.grid|).Some?)
      && (e in m.blocks ==> m.blocks[e] == Block(LastSide(ex, e, |ex.grid|), LastSide(sp, e, |sp.grid|)))
  {
    var m1 := Collect(Empty, Exhibitor, ex, |ex.grid|);
    CollectEmail(Empty, Exhibitor, ex, |ex.grid|, e);
    CollectEmail(m1, Speaker, sp, |sp.grid|, e);
  }

  /** `emap` after both loops is well formed. */
  lemma MergeWellFormed(ex: Tab, sp: Tab)
    requires ex.Valid() && sp.Valid()
    ensures WellFormed(MergeSpec(ex, sp))
  {
    CollectWellFormed(Empty, Exhibitor, ex, |ex.grid|);
    CollectWellFormed(Collect(Empty, Exhibitor, ex, |ex.grid|), Speaker, sp, |sp.grid|);
  }

  /** A recorded side is a real row of its ledger carrying the address, with the stripped id cell of that row. */
  lemma {:induction false} LastSideRow(t: Tab, e: string, n: nat)
    requires t.Valid() && 1 <= n <= |t.grid|
    requires LastSide(t, e, n).Some?
    ensures exists k :: 1 <= k < n && RowEmail(t.Header(), t.grid[k]) == e && LastSide(t, e, n) == Some(SideOf(t, k))
    decreases n
  {
    if RowEmail(t.Header(), t.grid[n - 1]) != e {
      LastSideRow(t, e, n - 1);
    }
  }
}
