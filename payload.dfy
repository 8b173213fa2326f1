/** `build_payload_from_row`: the CRM lead element built from one sheet row. */
module Payload {
  import opened Wrappers
  import opened Text
  import opened Sheet
  import opened Dates

  /** `SHEET_TO_CRM`: sheet column name to CRM field, in declaration order. */
  const SheetToCrm: seq<(string, string)> := [
    ("First_Name", "firstname"),
    ("Last Name", "lastname"),
    ("Company Name", "company"),
    ("Lead Source", "leadsource"),
    ("Email", "email"),
    ("Mobile", "mobile"),
    ("Show", "cf_1161"),
    ("Next Followup", "cf_905"),
    ("Call Attempt", "cf_1047"),
    ("Linkedin Msg", "cf_1159"),
    ("Comments", "cf_1155"),
    ("Pitch Deck URL", "cf_1163"),
    ("Reply Status", "cf_1173"),
    ("Follow-Up Count", "cf_1151"),
    ("LINKEDIN-HEADLINE", "cf_1177"),
    ("LINKEDIN-REPLY", "cf_1179"),
    ("LINKEDIN-URL", "cf_939"),
    ("Stand Size", "cf_1181"),
    ("Amount", "cf_1183"),
    ("Company Linkedin Page", "cf_941"),
    ("Lead Date", "cf_1149"),
    ("Email-Count", "cf_1207"),
    ("WhatsApp msg count", "cf_1157")
  ]

  /** `STATIC_CRM_FIELDS`. */
  const StaticCrmFields: map<string, string> := map[
    "assigned_user_id" := "19x77",
    "leadstatus" := "New",
    "memberof" := "11x232",
    "cf_1203" := "EXPO-SALES-MANAGEMENT"
  ]

  /** `k` is the CRM field of some entry of `mapping`. */
  predicate IsTarget(mapping: seq<(string, string)>, k: string)
  {
    exists i :: 0 <= i < |mapping| && mapping[i].1 == k
  }

  /** No later entry of `mapping` fills the same CRM field as entry `a`. */
  predicate DistinctFrom(mapping: seq<(string, string)>, a: int)
    requires 0 <= a < |mapping|
  {
    forall j :: a < j < |mapping| ==> mapping[a].1 != mapping[j].1
  }

  /** No two entries of `mapping` fill the same CRM field. */
  predicate DistinctTargets(mapping: seq<(string, string)>)
  {
    forall a :: 0 <= a < |mapping| ==> DistinctFrom(mapping, a)
  }

  // The distinctness of the 23 mapped fields, a few entries at a time.
  lemma SheetToCrmDistinct0() ensures forall a :: 0 <= a < 2 ==> DistinctFrom(SheetToCrm, a) {}
  lemma SheetToCrmDistinct2() ensures forall a :: 2 <= a < 4 ==> DistinctFrom(SheetToCrm, a) {}
  lemma SheetToCrmDistinct4() ensures forall a :: 4 <= a < 8 ==> DistinctFrom(SheetToCrm, a) {}
  lemma SheetToCrmDistinct8() ensures forall a :: 8 <= a < 12 ==> DistinctFrom(SheetToCrm, a) {}
  lemma SheetToCrmDistinct12() ensures forall a :: 12 <= a < 16 ==> DistinctFrom(SheetToCrm, a) {}
  lemma SheetToCrmDistinct16() ensures forall a :: 16 <= a < 23 ==> DistinctFrom(SheetToCrm, a) {}

  /** The mapped CRM fields are pairwise distinct, so no column of the row overwrites another. */
  lemma SheetToCrmDistinct()
    ensures DistinctTargets(SheetToCrm)
  {
    SheetToCrmDistinct0();
    SheetToCrmDistinct2();
    SheetToCrmDistinct4();
    SheetToCrmDistinct8();
    SheetToCrmDistinct12();
    SheetToCrmDistinct16();
  }

  /** No mapped column fills a static field. */
  lemma SheetToCrmAvoidsStatic()
    ensures forall k :: k in StaticCrmFields ==> !IsTarget(SheetToCrm, k)
  {
    forall i | 0 <= i < |SheetToCrm| ensures SheetToCrm[i].1 !in StaticCrmFields {
    }
  }

  /** No mapped column fills the phone, the follow-up date or the two opportunity tags. */
  lemma SheetToCrmAvoidsFixups()
    ensures !IsTarget(SheetToCrm, "phone") && !IsTarget(SheetToCrm, "cf_1153")
    ensures !IsTarget(SheetToCrm, "cf_1049") && !IsTarget(SheetToCrm, "cf_1205")
  {
    forall i | 0 <= i < |SheetToCrm| ensures SheetToCrm[i].1 !in {"phone", "cf_1153", "cf_1049", "cf_1205"} {
    }
  }

  /** The entries of the mapping that the fix-ups read. */
  lemma SheetToCrmEntries()
    ensures SheetToCrm[0] == ("First_Name", "firstname") && SheetToCrm[1] == ("Last Name", "lastname")
    ensures SheetToCrm[5] == ("Mobile", "mobile") && SheetToCrm[7] == ("Next Followup", "cf_905")
  {
  }

  /** The mapped fields copied from the row in mapping order: `row_dict.get(sheet_col, "")`. */
  function Mapped(row: map<string, string>, mapping: seq<(string, string)>): map<string, string>
  {
    if mapping == [] then map[]
    else
      var last := mapping[|mapping| - 1];
      Mapped(row, mapping[..|mapping| - 1])[last.1 := Get(row, last.0, "")]
  }

  /** Copying one more entry of the mapping updates one field. */
  lemma MappedStep(row: map<string, string>, mapping: seq<(string, string)>, i: int)
    requires 0 <= i < |mapping|
    ensures Mapped(row, mapping[..i + 1]) == Mapped(row, mapping[..i])[mapping[i].1 := Get(row, mapping[i].0, "")]
  {
    assert mapping[..i + 1][..i] == mapping[..i];
  }

  /** Updating an overlay updates its upper map. */
  lemma OverlayUpdate(lower: map<string, string>, upper: map<string, string>, k: string, v: string)
    ensures (lower + upper)[k := v] == lower + upper[k := v]
  {
  }

  /** The mapped fields are exactly the targets of the mapping. */
  lemma {:induction false} MappedKeys(row: map<string, string>, mapping: seq<(string, string)>, k: string)
    ensures k in Mapped(row, mapping) <==> IsTarget(mapping, k)
    decreases |mapping|
  {
    if mapping != [] {
      var init := mapping[..|mapping| - 1];
      MappedKeys(row, init, k);
      if IsTarget(init, k) {
        var i :| 0 <= i < |init| && init[i].1 == k;
        assert mapping[i] == init[i];
      }
      if IsTarget(mapping, k) && k != mapping[|mapping| - 1].1 {
        var i :| 0 <= i < |mapping| && mapping[i].1 == k;
        assert init[i] == mapping[i];
      }
    }
  }

  /** With distinct targets, each target holds the row's value of its own column, "" when the column is missing. */
  lemma {:induction false} MappedAt(row: map<string, string>, mapping: seq<(string, string)>, i: int)
    requires 0 <= i < |mapping|
    requires DistinctTargets(mapping)
    ensures mapping[i].1 in Mapped(row, mapping)
    ensures Mapped(row, mapping)[mapping[i].1] == Get(row, mapping[i].0, "")
    decreases |mapping|
  {
    var init := mapping[..|mapping| - 1];
    if i < |mapping| - 1 {
      assert DistinctTargets(init) by {
        forall a | 0 <= a < |init| ensures DistinctFrom(init, a) {
          assert DistinctFrom(mapping, a);
        }
      }
      assert DistinctFrom(mapping, i);
      MappedAt(row, init, i);
    }
  }

  /** The sheet column holding the follow-up date for the lead's ledger. */
  function DateColumn(isExhibitor: bool): string
  {
    if isExhibitor then "Last Follow-Up Date" else "Email Sent-Date"
  }

  /** The `lastname` the CRM gets: the surname when it is not blank, else the trimmed first name, else "Unknown". */
  function Surname(lastname: string, firstname: string): string
  {
    if Strip(lastname) != "" then lastname
    else if Strip(firstname) != "" then Strip(firstname)
    else "Unknown"
  }

  /** The static fields overlaid with the mapped columns. */
  function Base(row: map<string, string>): map<string, string>
  {
    StaticCrmFields + Mapped(row, SheetToCrm)
  }

  function WithSurname(p: map<string, string>): map<string, string>
  {
    var lname := Strip(Get(p, "lastname", ""));
    var fname := Strip(Get(p, "firstname", ""));
    if lname != "" then p
    else if fname != "" then p["lastname" := fname]
    else p["lastname" := "Unknown"]
  }

  function WithPhone(p: map<string, string>): map<string, string>
  {
    var mob := Get(p, "mobile", "");
    if mob != "" && Get(p, "phone", "") == "" then p["phone" := mob] else p
  }

  function WithDate(cal: Calendar, p: map<string, string>, field: string, d: Option<int>): map<string, string>
  {
    if d.Some? then p[field := ToCrmDate(cal, d)] else p
  }

  /** The date read from the ledger's follow-up date column. */
  function LastContact(cal: Calendar, row: map<string, string>, isExhibitor: bool): Option<int>
  {
    ParseSheetDate(cal, Get(row, DateColumn(isExhibitor), ""))
  }

  /** The date read from the "Next Followup" column. */
  function NextFollowUp(cal: Calendar, row: map<string, string>): Option<int>
  {
    ParseSheetDate(cal, Get(row, "Next Followup", ""))
  }

  /** The fix-ups applied to the base fields: surname, phone, the two dates and the opportunity tags. */
  function Fixed(cal: Calendar, base: map<string, string>, lastContact: Option<int>, nextFollowUp: Option<int>,
                 oppType: string, multi: string): map<string, string>
  {
    var p := WithPhone(WithSurname(base));
    var p' := WithDate(cal, p, "cf_1153", lastContact);
    var p'' := WithDate(cal, p', "cf_905", nextFollowUp);
    p''["cf_1049" := oppType]["cf_1205" := multi]
  }

  /** The payload `build_payload_from_row` returns. */
  function PayloadSpec(cal: Calendar, row: map<string, string>, oppType: string, multi: string, isExhibitor: bool): map<string, string>
  {
    Fixed(cal, Base(row), LastContact(cal, row, isExhibitor), NextFollowUp(cal, row), oppType, multi)
  }

  /** `build_payload_from_row`: start from the static fields, copy the mapped columns,
      then fix up the surname, the phone, the two dates and the opportunity tags. */
  method BuildPayload(cal: Calendar, row: map<string, string>, oppType: string, multi: string, isExhibitor: bool)
    returns (payload: map<string, string>)
    ensures payload == PayloadSpec(cal, row, oppType, multi, isExhibitor)
  {
    payload := map[];
    payload := payload + StaticCrmFields;
    for i := 0 to |SheetToCrm|
      invariant payload == StaticCrmFields + Mapped(row, SheetToCrm[..i])
    {
      var (sheetCol, crmField) := SheetToCrm[i];
      var val := Get(row, sheetCol, "");
      payload := payload[crmField := val];
      MappedStep(row, SheetToCrm, i);
      OverlayUpdate(StaticCrmFields, Mapped(row, SheetToCrm[..i]), crmField, val);
    }
    assert SheetToCrm[..|SheetToCrm|] == SheetToCrm;
    payload := FixUp(cal, row, payload, oppType, multi, isExhibitor);
  }

  /** The fix-ups that follow the copy: surname, phone, the two dates and the opportunity tags. */
  method FixUp(cal: Calendar, row: map<string, string>, base: map<string, string>,
               oppType: string, multi: string, isExhibitor: bool)
    returns (payload: map<string, string>)
    ensures payload == Fixed(cal, base, LastContact(cal, row, isExhibitor), NextFollowUp(cal, row), oppType, multi)
  {
    payload := FixSurname(base);
    payload := FixPhone(payload);
    payload := FixFollowUpDate(cal, row, payload, isExhibitor);
    ghost var dated := payload;
    var nfRaw := Get(row, "Next Followup", "");
    var nfDt := ParseSheetDate(cal, nfRaw);
    if nfDt.Some? {
      payload := payload["cf_905" := ToCrmDate(cal, nfDt)];
    }
    assert payload == WithDate(cal, dated, "cf_905", nfDt);

    payload := payload["cf_1049" := oppType];
    payload := payload["cf_1205" := multi];
  }

  /** A blank surname falls back to the trimmed first name, then to "Unknown". */
  method FixSurname(base: map<string, string>) returns (payload: map<string, string>)
    ensures payload == WithSurname(base)
  {
    payload := base;
    var lname := Strip(Get(payload, "lastname", ""));
    var fname := Strip(Get(payload, "firstname", ""));
    if lname == "" {
      if fname != "" {
        payload := payload["lastname" := fname];
      } else {
        payload := payload["lastname" := "Unknown"];
      }
    }
  }

  /** The mobile doubles as the phone when no phone is set. */
  method FixPhone(base: map<string, string>) returns (payload: map<string, string>)
    ensures payload == WithPhone(base)
  {
    payload := base;
    var mob := Get(payload, "mobile", "");
    if mob != "" && Get(payload, "phone", "") == "" {
      payload := payload["phone" := mob];
    }
  }

  /** The ledger's follow-up date column, when it reads as a date, becomes `cf_1153`. */
  method FixFollowUpDate(cal: Calendar, row: map<string, string>, base: map<string, string>, isExhibitor: bool)
    returns (payload: map<string, string>)
    ensures payload == WithDate(cal, base, "cf_1153", LastContact(cal, row, isExhibitor))
  {
    payload := base;
    if isExhibitor {
      var lfRaw := Get(row, "Last Follow-Up Date", "");
      var lfDt := ParseSheetDate(cal, lfRaw);
      if lfDt.Some? {
        payload := payload["cf_1153" := ToCrmDate(cal, lfDt)];
      }
    } else {
      var esRaw := Get(row, "Email Sent-Date", "");
      var esDt := ParseSheetDate(cal, esRaw);
      if esDt.Some? {
        payload := payload["cf_1153" := ToCrmDate(cal, esDt)];
      }
    }
  }

  /** The base fields are the static ones and the targets of the mapping. */
  lemma BaseKeys(row: map<string, string>)
    ensures forall k :: k in Base(row) <==> k in StaticCrmFields || IsTarget(SheetToCrm, k)
  {
    forall k ensures k in Mapped(row, SheetToCrm) <==> IsTarget(SheetToCrm, k) {
      MappedKeys(row, SheetToCrm, k);
    }
  }

  /** Every mapped field of the base holds its column's value, "" for a missing column. */
  lemma BaseMapped(row: map<string, string>)
    ensures forall i :: 0 <= i < |SheetToCrm| ==>
      SheetToCrm[i].1 in Base(row) && Base(row)[SheetToCrm[i].1] == Get(row, SheetToCrm[i].0, "")
  {
    SheetToCrmDistinct();
    forall i | 0 <= i < |SheetToCrm|
      ensures SheetToCrm[i].1 in Base(row) && Base(row)[SheetToCrm[i].1] == Get(row, SheetToCrm[i].0, "")
    {
      MappedAt(row, SheetToCrm, i);
    }
  }

  /** No mapped column overrides a static field. */
  lemma BaseStatic(row: map<string, string>)
    ensures forall k :: k in StaticCrmFields ==> k in Base(row) && Base(row)[k] == StaticCrmFields[k]
  {
    SheetToCrmAvoidsStatic();
    forall k | k in StaticCrmFields ensures k !in Mapped(row, SheetToCrm) {
      MappedKeys(row, SheetToCrm, k);
    }
  }

  /** The base fields the fix-ups read, and the absence of those they add. */
  lemma BaseFixupInputs(row: map<string, string>)
    ensures "firstname" in Base(row) && Base(row)["firstname"] == Get(row, "First_Name", "")
    ensures "lastname" in Base(row) && Base(row)["lastname"] == Get(row, "Last Name", "")
    ensures "mobile" in Base(row) && Base(row)["mobile"] == Get(row, "Mobile", "")
    ensures "cf_905" in Base(row) && Base(row)["cf_905"] == Get(row, "Next Followup", "")
    ensures "phone" !in Base(row) && "cf_1153" !in Base(row) && "cf_1049" !in Base(row) && "cf_1205" !in Base(row)
  {
    SheetToCrmDistinct();
    SheetToCrmEntries();
    SheetToCrmAvoidsFixups();
    MappedAt(row, SheetToCrm, 0);
    MappedAt(row, SheetToCrm, 1);
    MappedAt(row, SheetToCrm, 5);
    MappedAt(row, SheetToCrm, 7);
    MappedKeys(row, SheetToCrm, "phone");
    MappedKeys(row, SheetToCrm, "cf_1153");
    MappedKeys(row, SheetToCrm, "cf_1049");
    MappedKeys(row, SheetToCrm, "cf_1205");
  }

  /** What the fix-ups add to a base map: the tags always, `phone` when there is a mobile,
      `cf_1153` when there is a last-contact date. */
  lemma FixedFields(cal: Calendar, base: map<string, string>, lastContact: Option<int>, nextFollowUp: Option<int>,
                    oppType: string, multi: string)
    requires "lastname" in base && "cf_905" in base && "phone" !in base
    ensures var p := Fixed(cal, base, lastContact, nextFollowUp, oppType, multi);
      forall k :: k in p <==>
        || k in base || k == "cf_1049" || k == "cf_1205"
        || (k == "phone" && Get(base, "mobile", "") != "")
        || (k == "cf_1153" && lastContact.Some?)
  {
    var named := WithSurname(base);
    assert named.Keys == base.Keys;
    assert Get(named, "mobile", "") == Get(base, "mobile", "");
  }

  /** The fields the fix-ups may write. */
  const FixupFields: set<string> := {"lastname", "phone", "cf_1153", "cf_905", "cf_1049", "cf_1205"}

  /** The fix-ups touch no field but the surname, the phone, the two dates and the tags. */
  lemma FixedKeeps(cal: Calendar, base: map<string, string>, lastContact: Option<int>, nextFollowUp: Option<int>,
                   oppType: string, multi: string)
    ensures var p := Fixed(cal, base, lastContact, nextFollowUp, oppType, multi);
      forall k :: k in base && k !in FixupFields ==> k in p && p[k] == base[k]
  {
  }

  /** Of the mapped fields, the fix-ups write only the surname and the next follow-up date. */
  lemma MappedNotFixedUp(field: string)
    requires IsTarget(SheetToCrm, field) && field != "lastname" && field != "cf_905"
    ensures field !in FixupFields
  {
    SheetToCrmAvoidsFixups();
  }

  /** The static fields are not among those the fix-ups write. */
  lemma StaticNotFixedUp()
    ensures StaticCrmFields.Keys !! FixupFields
  {
  }

  /** The surname step leaves a non-blank surname: the present one, else the trimmed first name, else "Unknown". */
  lemma SurnameNotBlank(base: map<string, string>)
    requires "lastname" in base
    ensures "lastname" in WithSurname(base)
    ensures WithSurname(base)["lastname"] == Surname(base["lastname"], Get(base, "firstname", ""))
    ensures Strip(WithSurname(base)["lastname"]) != ""
  {
    var l := Surname(base["lastname"], Get(base, "firstname", ""));
    if Strip(base["lastname"]) == "" && Strip(Get(base, "firstname", "")) == "" {
      assert Strip(l) == l by { assert TrimLeft(l) == l; assert TrimRight(l) == l; }
    } else if Strip(base["lastname"]) == "" {
      StripIdempotent(Get(base, "firstname", ""));
    }
  }

  /** After the fix-ups the surname is never blank. */
  lemma FixedSurname(cal: Calendar, base: map<string, string>, lastContact: Option<int>, nextFollowUp: Option<int>,
                     oppType: string, multi: string)
    requires "lastname" in base
    ensures var p := Fixed(cal, base, lastContact, nextFollowUp, oppType, multi);
      && "lastname" in p
      && p["lastname"] == Surname(base["lastname"], Get(base, "firstname", ""))
      && Strip(p["lastname"]) != ""
  {
    SurnameNotBlank(base);
  }

  /** The phone copies the mobile, the tags are the caller's, and the dates are reformatted when present. */
  lemma FixedValues(cal: Calendar, base: map<string, string>, lastContact: Option<int>, nextFollowUp: Option<int>,
                    oppType: string, multi: string)
    requires "phone" !in base && "cf_905" in base
    ensures var p := Fixed(cal, base, lastContact, nextFollowUp, oppType, multi);
      && (Get(base, "mobile", "") != "" ==> "phone" in p && p["phone"] == Get(base, "mobile", ""))
      && "cf_1049" in p && p["cf_1049"] == oppType && "cf_1205" in p && p["cf_1205"] == multi
      && (lastContact.Some? ==> "cf_1153" in p && p["cf_1153"] == cal.isoDate(lastContact.value))
      && "cf_905" in p
      && p["cf_905"] == match nextFollowUp
                        case Some(d) => cal.isoDate(d)
                        case None => base["cf_905"]
  {
    var named := WithSurname(base);
    assert "phone" !in named && "cf_905" in named && named["cf_905"] == base["cf_905"];
    assert Get(named, "mobile", "") == Get(base, "mobile", "");
    var phoned := WithPhone(named);
    assert "cf_905" in phoned && phoned["cf_905"] == base["cf_905"];
    var dated := WithDate(cal, phoned, "cf_1153", lastContact);
    assert "cf_905" in dated && dated["cf_905"] == base["cf_905"];
  }

  /** The fields the payload carries: always the static and mapped ones and the two tags,
      `phone` when there is a mobile, `cf_1153` when the ledger's date column reads as a date. */
  lemma PayloadFields(cal: Calendar, row: map<string, string>, oppType: string, multi: string, isExhibitor: bool)
    ensures var p := PayloadSpec(cal, row, oppType, multi, isExhibitor);
      forall k :: k in p <==>
        || k in StaticCrmFields || IsTarget(SheetToCrm, k) || k == "cf_1049" || k == "cf_1205"
        || (k == "phone" && Get(row, "Mobile", "") != "")
        || (k == "cf_1153" && ParseSheetDate(cal, Get(row, DateColumn(isExhibitor), "")).Some?)
  {
    BaseKeys(row);
    BaseFixupInputs(row);
    FixedFields(cal, Base(row), LastContact(cal, row, isExhibitor), NextFollowUp(cal, row), oppType, multi);
  }

  /** The static fields keep their values. */
  lemma PayloadStatic(cal: Calendar, row: map<string, string>, oppType: string, multi: string, isExhibitor: bool)
    ensures var p := PayloadSpec(cal, row, oppType, multi, isExhibitor);
      forall k :: k in StaticCrmFields ==> k in p && p[k] == StaticCrmFields[k]
  {
    BaseStatic(row);
    StaticNotFixedUp();
    FixedKeeps(cal, Base(row), LastContact(cal, row, isExhibitor), NextFollowUp(cal, row), oppType, multi);
  }

  /** The mapped columns are copied verbatim, "" for a missing column, except into
      `lastname` and `cf_905`, which are fixed up. */
  lemma PayloadCopies(cal: Calendar, row: map<string, string>, oppType: string, multi: string, isExhibitor: bool)
    ensures var p := PayloadSpec(cal, row, oppType, multi, isExhibitor);
      forall i :: 0 <= i < |SheetToCrm| && SheetToCrm[i].1 != "lastname" && SheetToCrm[i].1 != "cf_905" ==>
        SheetToCrm[i].1 in p && p[SheetToCrm[i].1] == Get(row, SheetToCrm[i].0, "")
  {
    var p := PayloadSpec(cal, row, oppType, multi, isExhibitor);
    BaseMapped(row);
    FixedKeeps(cal, Base(row), LastContact(cal, row, isExhibitor), NextFollowUp(cal, row), oppType, multi);
    forall i | 0 <= i < |SheetToCrm| && SheetToCrm[i].1 != "lastname" && SheetToCrm[i].1 != "cf_905"
      ensures SheetToCrm[i].1 in p && p[SheetToCrm[i].1] == Get(row, SheetToCrm[i].0, "")
    {
      var (column, field) := SheetToCrm[i];
      assert IsTarget(SheetToCrm, field);
      assert field in Base(row) && Base(row)[field] == Get(row, column, "");
      MappedNotFixedUp(field);
    }
  }

  /** The surname is never blank: the row's surname, else its trimmed first name, else "Unknown". */
  lemma PayloadSurname(cal: Calendar, row: map<string, string>, oppType: string, multi: string, isExhibitor: bool)
    ensures var p := PayloadSpec(cal, row, oppType, multi, isExhibitor);
      && "lastname" in p
      && p["lastname"] == Surname(Get(row, "Last Name", ""), Get(row, "First_Name", ""))
      && Strip(p["lastname"]) != ""
  {
    BaseFixupInputs(row);
    FixedSurname(cal, Base(row), LastContact(cal, row, isExhibitor), NextFollowUp(cal, row), oppType, multi);
  }

  /** The phone copies the row's mobile, the tags are the caller's, and the dates are reformatted when they parse;
      an unreadable next follow-up is passed on as written. */
  lemma PayloadFixups(cal: Calendar, row: map<string, string>, oppType: string, multi: string, isExhibitor: bool)
    ensures var p := PayloadSpec(cal, row, oppType, multi, isExhibitor);
      && (Get(row, "Mobile", "") != "" ==> "phone" in p && p["phone"] == Get(row, "Mobile", ""))
      && "cf_1049" in p && p["cf_1049"] == oppType && "cf_1205" in p && p["cf_1205"] == multi
      && (ParseSheetDate(cal, Get(row, DateColumn(isExhibitor), "")).Some? ==>
            "cf_1153" in p && p["cf_1153"] == cal.isoDate(ParseSheetDate(cal, Get(row, DateColumn(isExhibitor), "")).value))
      && "cf_905" in p
      && p["cf_905"] == match ParseSheetDate(cal, Get(row, "Next Followup", ""))
                        case Some(d) => cal.isoDate(d)
                        case None => Get(row, "Next Followup", "")
  {
    BaseFixupInputs(row);
    FixedValues(cal, Base(row), LastContact(cal, row, isExhibitor), NextFollowUp(cal, row), oppType, multi);
  }
}
