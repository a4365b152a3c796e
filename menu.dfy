/**
 * The text menu of `main`: create the table, then read a choice at a time
 * and run the matching flow, until "0" is entered.
 */
module Menu {
  import opened Wrappers
  import opened Schedule
  import opened Photo
  import opened PlantTable
  import opened Store

  /** What a menu answer selects. */
  datatype MenuAction = AddFlow | WaterFlow | ListFlow | Exit | Retry

  /** The menu's if/elif chain: "1", "2", "3" and "0" select a flow; any other text re-prompts. */
  function Dispatch(choice: string): (a: MenuAction)
    ensures a == AddFlow <==> choice == "1"
    ensures a == WaterFlow <==> choice == "2"
    ensures a == ListFlow <==> choice == "3"
    ensures a == Exit <==> choice == "0"
    ensures a == Retry <==> choice !in {"0", "1", "2", "3"}
  {
    if choice == "1" then AddFlow
    else if choice == "2" then WaterFlow
    else if choice == "3" then ListFlow
    else if choice == "0" then Exit
    else Retry
  }

  /** The answers the add flow asks for: name, interval, photo choice, and what the photo device returned. */
  datatype AddForm = AddForm(
    name: string,
    interval: int,
    photoChoice: string,
    captured: Option<string>,
    dialogResult: string)

  /**
   * One round of the menu: the answer typed at the prompt, the day it was
   * typed, and the answers to the flow it starts (only the flow's own are read).
   */
  datatype Entry = Entry(choice: string, today: Day, form: AddForm, plantId: int)

  /** The table after one round that does not exit. */
  function Step(rows: seq<Plant>, e: Entry): seq<Plant>
  {
    match Dispatch(e.choice)
    case AddFlow =>
      Insert(rows, e.form.name, e.form.interval, e.today,
             ChosenPhoto(e.form.photoChoice, e.form.captured, e.form.dialogResult))
    case WaterFlow => Water(rows, e.plantId, e.today)
    case _ => rows
  }

  /** Where a session ends: the table, and whether "0" ended it (false when the input ran out first). */
  datatype Outcome = Outcome(rows: seq<Plant>, exited: bool)

  /** The menu loop over a sequence of rounds, stopping at the first "0". */
  function Session(rows: seq<Plant>, entries: seq<Entry>): Outcome
    decreases |entries|
  {
    if entries == [] then Outcome(rows, false)
    else if Dispatch(entries[0].choice) == Exit then Outcome(rows, true)
    else Session(Step(rows, entries[0]), entries[1..])
  }

  /** Listing, exiting and unrecognised answers never change the table. */
  lemma ReadOnlyRoundsKeepTable(rows: seq<Plant>, e: Entry)
    requires e.choice != "1" && e.choice != "2"
    ensures Step(rows, e) == rows
  {
  }

  /** "0" ends the session at once: the table is left as it was and later rounds are never read. */
  lemma ExitStopsSession(rows: seq<Plant>, e: Entry, rest: seq<Entry>)
    requires e.choice == "0"
    ensures Session(rows, [e] + rest) == Outcome(rows, true)
  {
  }

  /** A session in which no round adds or waters leaves the table unchanged. */
  lemma {:induction false} ReadOnlySessionKeepsTable(rows: seq<Plant>, entries: seq<Entry>)
    requires forall k :: 0 <= k < |entries| ==> entries[k].choice != "1" && entries[k].choice != "2"
    ensures Session(rows, entries).rows == rows
    decreases |entries|
  {
    if entries != [] && Dispatch(entries[0].choice) != Exit {
      ReadOnlySessionKeepsTable(Step(rows, entries[0]), entries[1..]);
    }
  }

  /** Every round keeps the table invariant. */
  lemma StepKeepsInvariant(rows: seq<Plant>, e: Entry)
    requires TableInvariant(rows)
    ensures TableInvariant(Step(rows, e))
  {
    match Dispatch(e.choice)
    case AddFlow =>
      InsertKeepsInvariant(rows, e.form.name, e.form.interval, e.today,
                           ChosenPhoto(e.form.photoChoice, e.form.captured, e.form.dialogResult));
    case WaterFlow => WaterKeepsInvariant(rows, e.plantId, e.today);
    case _ =>
  }

  /**
   * No round removes a row or changes its id, name, interval or photo:
   * the rows present before a round are still there, in place.
   */
  lemma StepKeepsRecords(rows: seq<Plant>, e: Entry)
    requires TableInvariant(rows)
    ensures var r := Step(rows, e);
      && |r| >= |rows|
      && forall i :: 0 <= i < |rows| ==>
           r[i].id == rows[i].id && r[i].name == rows[i].name
           && r[i].waterInterval == rows[i].waterInterval && r[i].photoPath == rows[i].photoPath
  {
    match Dispatch(e.choice)
    case AddFlow =>
    case WaterFlow =>
      if j :| 0 <= j < |rows| && rows[j].id == e.plantId {
        WaterKnownId(rows, j, e.today);
      } else {
        WaterUnknownId(rows, e.plantId, e.today);
      }
    case _ =>
  }

  /** A whole session keeps the table invariant and every row it started with. */
  lemma {:induction false} SessionKeepsInvariantAndRecords(rows: seq<Plant>, entries: seq<Entry>)
    requires TableInvariant(rows)
    ensures var r := Session(rows, entries).rows;
      && TableInvariant(r)
      && |r| >= |rows|
      && forall i :: 0 <= i < |rows| ==>
           r[i].id == rows[i].id && r[i].name == rows[i].name
           && r[i].waterInterval == rows[i].waterInterval && r[i].photoPath == rows[i].photoPath
    decreases |entries|
  {
    if entries != [] && Dispatch(entries[0].choice) != Exit {
      StepKeepsInvariant(rows, entries[0]);
      StepKeepsRecords(rows, entries[0]);
      SessionKeepsInvariantAndRecords(Step(rows, entries[0]), entries[1..]);
    }
  }

  /**
   * A plant added on day d with interval 7 and no photo, then watered on
   * day d + 10, was last watered on d + 10 and is due on d + 17.
   */
  lemma AddThenWaterScenario(rows: seq<Plant>, d: Day)
    requires TableInvariant(rows)
    ensures var added := Insert(rows, "Fern", 7, d, ChosenPhoto("3", None, ""));
      var id := FreshId(rows);
      var watered := Water(added, id, d + 10);
      && added[|rows|] == Plant(id, "Fern", 7, d, d + 7, None)
      && |watered| == |rows| + 1
      && watered[|rows|] == Plant(id, "Fern", 7, d + 10, d + 17, None)
  {
    var added := Insert(rows, "Fern", 7, d, ChosenPhoto("3", None, ""));
    InsertKeepsInvariant(rows, "Fern", 7, d, None);
    WaterKnownId(added, |rows|, d + 10);
  }

  /**
   * `main`: create the table if needed, then serve rounds until "0" is
   * entered or the input runs out; the table ends as `Session` says.
   */
  method RunMenu(db: PlantStore, entries: seq<Entry>) returns (exited: bool)
    requires db.Valid()
    modifies db
    ensures db.Valid() && db.hasTable
    ensures Session(old(db.rows), entries) == Outcome(db.rows, exited)
  {
    db.InitDb();
    exited := false;
    var k := 0;
    while k < |entries| && !exited
      invariant 0 <= k <= |entries|
      invariant db.Valid() && db.hasTable
      invariant !exited ==> Session(old(db.rows), entries) == Session(db.rows, entries[k..])
      invariant exited ==> Session(old(db.rows), entries) == Outcome(db.rows, true)
    {
      var e := entries[k];
      assert entries[k..] == [e] + entries[k + 1..];
      match Dispatch(e.choice) {
        case AddFlow =>
          var _ := db.AddPlant(e.form.name, e.form.interval, e.form.photoChoice,
                               e.form.captured, e.form.dialogResult, e.today);
        case WaterFlow =>
          var _ := db.WaterPlant(e.plantId, e.today);
        case ListFlow =>
          var _ := db.ListPlants(e.today);
        case Exit =>
          exited := true;
        case Retry =>
      }
      k := k + 1;
    }
  }
}
