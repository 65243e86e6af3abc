/** A candidate that no PGC has yet, and that the next request may mint: then it matters how requests are cut. */
module AheadCandidates {
  import opened Collections
  import opened Schema
  import opened Records
  import opened Writers
  import opened Freshness
  import opened Histories
  import opened AssignmentSplit

  const NEW: Crossmatch := Crossmatch(Resolved, Some(map[]))
  const MATCHED: Crossmatch := Crossmatch(Resolved, Some(map["pgc" := Number(1)]))
  const RECORDS: map<RecordId, Record> :=
    map["q" := Record("first", None), "r" := Record("first", None), "t" := Record("first", None)]
  const ROWS: seq<CrossmatchRow> :=
    [CrossmatchRow("q", Resolved, []), CrossmatchRow("r", Resolved, [1]), CrossmatchRow("t", Resolved, [])]

  /** "q" and "t" are new objects; "r" was matched to PGC 1, the first id there will be. */
  function Waiting(): State {
    Tables(TABLES, RECORDS).(crossmatch := map["q" := NEW, "r" := MATCHED, "t" := NEW])
  }

  lemma RecordsRegistered()
    ensures Legal(Tables(TABLES, map[]), OpRegister("first", ["q", "r", "t"]))
    ensures Next(Tables(TABLES, map[]), OpRegister("first", ["q", "r", "t"]), Tables(TABLES, RECORDS))
  {
    hide Legal;
    var s := Tables(TABLES, map[]);
    assert RegisterRecords(s, "first", ["q", "r", "t"]).0.content.records == RECORDS;
    RegisterLegal(map[], "first", ["q", "r", "t"]);
  }

  lemma CrossmatchStored()
    ensures Legal(Tables(TABLES, RECORDS), OpCrossmatch(ROWS))
    ensures Next(Tables(TABLES, RECORDS), OpCrossmatch(ROWS), Waiting())
  {
    var none: map<RecordId, Crossmatch> := map[];
    var two := ROWS[..2];
    var one := two[..1];
    assert one == [ROWS[0]] && one[..0] == [] && two[1] == ROWS[1];
    assert StoreRows(none, one) == map["q" := NEW];
    assert StoreRows(none, two) == map["q" := NEW]["r" := MATCHED];
    assert StoreRows(none, ROWS) == Waiting().crossmatch;
  }

  lemma WaitingReachable()
    ensures Reachable(Waiting())
  {
    hide Reachable, Legal, Next;
    TablesReachable();
    RecordsRegistered();
    ReachOn(Tables(TABLES, map[]), OpRegister("first", ["q", "r", "t"]), Tables(TABLES, RECORDS));
    CrossmatchStored();
    ReachOn(Tables(TABLES, RECORDS), OpCrossmatch(ROWS), Waiting());
  }

  lemma RowsWaiting(ids: set<RecordId>)
    ensures NewRows(Waiting(), ids) == ids * {"q", "t"}
    ensures ExistingRows(Waiting(), ids) == if "r" in ids then map["r" := Pgc(1)] else map[]
    ensures ids <= {"q", "r", "t"} ==> InvalidRows(Waiting(), ids) == {}
  {}

  /** "r" on its own fails, as its candidate is unknown; together with "q", which mints it, "r" succeeds. */
  lemma CutFails()
    ensures var s := Waiting();
      && Reachable(s) && Assign(s, ["q", "r"], ["q"]).1 == Assigned && Assign(s, ["r"], []).1 == UnknownPgc
      && Lists(["q"], NewRows(s, {"q", "r"})) && Lists([], NewRows(s, {"r"}))
  {
    hide Reachable, Assign, Covered;
    var s := Waiting();
    WaitingReachable();
    RowsWaiting({"r"});
    RowsWaiting({"q", "r"});
    SucceedsIff(s, ["q", "r"], ["q"]);
    SucceedsIff(s, ["r"], []);
    assert Elements(["q", "r"]) == {"q", "r"} && Elements(["r"]) == {"r"};
    WaitingCovered();
    OneWaits();
  }

  lemma WaitingCovered()
    ensures Covered(Waiting(), {"q", "r"}, 1) && !Covered(Waiting(), {"r"}, 0)
    ensures Covered(Waiting(), {"q", "r", "t"}, 2) && Covered(Waiting(), {"t"}, 1)
  {
    RowsWaiting({"r"});
    RowsWaiting({"q", "r"});
    RowsWaiting({"q", "r", "t"});
    RowsWaiting({"t"});
    assert "r" in ExistingRows(Waiting(), {"r"});
  }

  lemma OneWaits()
    ensures Assign(Waiting(), ["r"], []).1 == Assigned || Assign(Waiting(), ["r"], []).1 == UnknownPgc
  {
    RowsWaiting({"r"});
    assert Elements(["r"]) == {"r"};
  }

  lemma ThreeElements()
    ensures Elements(["t"]) == {"t"} && Elements(["q", "r"]) == {"q", "r"} && Elements(["q", "r", "t"]) == {"q", "r", "t"}
  {}

  lemma FirstAndJoint()
    ensures Assign(Waiting(), ["t"], ["t"]).1 == Assigned && Assign(Waiting(), ["q", "r", "t"], ["q", "t"]).1 == Assigned
  {
    hide Assign, Covered, NewRows, ExistingRows, InvalidRows, Elements;
    ThreeElements();
    RowsWaiting({"t"});
    RowsWaiting({"q", "r", "t"});
    WaitingCovered();
    SucceedsIff(Waiting(), ["t"], ["t"]);
    SucceedsIff(Waiting(), ["q", "r", "t"], ["q", "t"]);
  }

  lemma NewOfSecond()
    ensures NewRows(AfterFirst(Waiting(), ["t"], ["t"]), {"q", "r"}) == {"q"}
  {
    hide Assign, Reachable, NewRows, ExistingRows, InvalidRows, Valid;
    FirstAndJoint();
    ThreeElements();
    RowsWaiting({"t"});
    RowsWaiting({"q", "r", "t"});
    WaitingReachable();
    ReachableIsGood(Waiting());
    LeftOver(Waiting(), ["t"], ["t"], ["q", "r"], {"q", "r", "t"});
  }

  lemma CutsWaiting()
    ensures Cut(Waiting(), ["t"], ["t"], ["q", "r"], ["q"], ["q", "r", "t"], ["q", "t"])
  {
    hide Assign, Reachable, NewRows, Valid;
    ThreeElements();
    NewOfSecond();
    RowsWaiting({"t"});
    RowsWaiting({"q", "r", "t"});
    WaitingReachable();
    ReachableIsGood(Waiting());
  }

  /** Both ways succeed, but "r" ends with "q" in one and with "t" in the other, which no renaming explains. */
  lemma CutDiffers()
    ensures var (s, a, b, u) := (Waiting(), ["t"], ["q", "r"], ["q", "r", "t"]);
      && Cut(s, a, ["t"], b, ["q"], u, ["q", "t"]) && AllAssigned(s, a, ["t"], b, ["q"], u, ["q", "t"])
      && !SameUpToSome(s, Assign(s, u, ["q", "t"]).0, Assign(AfterFirst(s, a, ["t"]), b, ["q"]).0)
  {
    hide Assign, Covered, Cut, AllForeseen, SameUpToSome;
    CutsWaiting();
    FirstAndJoint();
    ThreeElements();
    WaitingCovered();
    CutSucceeds(Waiting(), ["t"], ["t"], ["q", "r"], ["q"], ["q", "r", "t"], ["q", "t"]);
    NotForeseen();
    AssignmentsComposeIff(Waiting(), ["t"], ["t"], ["q", "r"], ["q"], ["q", "r", "t"], ["q", "t"]);
  }

  lemma NotForeseen()
    ensures !AllForeseen(Waiting(), ["t"], ["q"], ["q", "r", "t"], ["q", "t"])
  {
    RowsWaiting({"q", "r", "t"});
    assert Elements(["q", "r", "t"]) == {"q", "r", "t"};
    assert "r" in ExistingRows(Waiting(), {"q", "r", "t"});
    assert !Foreseen(Waiting(), ["t"], ["q"], ["q", "t"], Pgc(1));
  }
}
