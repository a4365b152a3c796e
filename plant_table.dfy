/**
 * The `plants` table as a value: its rows in rowid order, the id SQLite
 * gives a new row, and what an INSERT and a watering UPDATE leave behind.
 */
module PlantTable {
  import opened Wrappers
  import opened Schedule

  /** One row of `plants(id, name, water_interval, last_watered, next_watering, photo_path)`. */
  datatype Plant = Plant(
    id: int,
    name: string,
    waterInterval: int,
    lastWatered: Day,
    nextWatering: Day,
    photoPath: Option<string>)

  /** The schedule rule every row keeps: the next watering is one interval after the last. */
  predicate OnSchedule(p: Plant)
  {
    p.nextWatering == NextWatering(p.lastWatered, p.waterInterval)
  }

  /**
   * What the table always satisfies: positive ids, strictly ascending in
   * row order (so no id occurs twice), and every row on schedule.
   */
  predicate TableInvariant(rows: seq<Plant>)
  {
    && (forall i :: 0 <= i < |rows| ==> rows[i].id >= 1 && OnSchedule(rows[i]))
    && (forall i, j :: 0 <= i < j < |rows| ==> rows[i].id < rows[j].id)
  }

  /** The largest id in a non-empty table. */
  function LargestId(rows: seq<Plant>): (m: int)
    requires rows != []
    ensures forall i :: 0 <= i < |rows| ==> rows[i].id <= m
    ensures exists i :: 0 <= i < |rows| && rows[i].id == m
  {
    if |rows| == 1 then rows[0].id
    else
      var rest := LargestId(rows[1..]);
      if rows[0].id >= rest then rows[0].id else rest
  }

  /**
   * The rowid SQLite gives an INTEGER PRIMARY KEY row inserted without one:
   * 1 in an empty table, otherwise one more than the largest id present.
   */
  function FreshId(rows: seq<Plant>): (id: int)
    ensures forall i :: 0 <= i < |rows| ==> rows[i].id < id
    ensures rows == [] ==> id == 1
  {
    if rows == [] then 1 else LargestId(rows) + 1
  }

  /** The row `add_plant` builds: watered today, due one interval from today. */
  function NewPlant(id: int, name: string, interval: int, today: Day, photo: Option<string>): Plant
  {
    Plant(id, name, interval, today, NextWatering(today, interval), photo)
  }

  /** The table after `INSERT INTO plants (name, water_interval, ...)`. */
  function Insert(rows: seq<Plant>, name: string, interval: int, today: Day, photo: Option<string>): seq<Plant>
  {
    rows + [NewPlant(FreshId(rows), name, interval, today, photo)]
  }

  /**
   * `SELECT water_interval FROM plants WHERE id=?` followed by `fetchone()`:
   * the interval of the first row with that id, or none.
   */
  function SelectInterval(rows: seq<Plant>, id: int): (r: Option<int>)
    ensures r == None <==> forall i :: 0 <= i < |rows| ==> rows[i].id != id
    ensures r != None ==> exists i :: 0 <= i < |rows| && rows[i].id == id && rows[i].waterInterval == r.value
  {
    if rows == [] then None
    else if rows[0].id == id then Some(rows[0].waterInterval)
    else SelectInterval(rows[1..], id)
  }

  /** `UPDATE plants SET last_watered=?, next_watering=? WHERE id=?`. */
  function UpdateDates(rows: seq<Plant>, id: int, last: Day, next: Day): seq<Plant>
  {
    if rows == [] then []
    else
      var head := if rows[0].id == id then rows[0].(lastWatered := last, nextWatering := next) else rows[0];
      [head] + UpdateDates(rows[1..], id, last, next)
  }

  /**
   * The table after `water_plant`: when a row has the id, its dates restart
   * from today with the interval just selected; otherwise nothing happens.
   */
  function Water(rows: seq<Plant>, id: int, today: Day): seq<Plant>
  {
    match SelectInterval(rows, id)
    case None => rows
    case Some(interval) => UpdateDates(rows, id, today, NextWatering(today, interval))
  }

  /** The UPDATE rewrites the two dates of the rows with the id and touches nothing else. */
  lemma {:induction false} UpdateDatesAt(rows: seq<Plant>, id: int, last: Day, next: Day)
    ensures |UpdateDates(rows, id, last, next)| == |rows|
    ensures forall i :: 0 <= i < |rows| ==>
      UpdateDates(rows, id, last, next)[i]
        == if rows[i].id == id then rows[i].(lastWatered := last, nextWatering := next) else rows[i]
  {
    if rows != [] {
      UpdateDatesAt(rows[1..], id, last, next);
    }
  }

  /**
   * Adding appends exactly one row: the earlier rows stay as they were, and
   * the new one has an id no other row has, was watered today and is due
   * one interval later, and carries the name, interval and photo given.
   */
  lemma InsertAppendsOne(rows: seq<Plant>, name: string, interval: int, today: Day, photo: Option<string>)
    ensures var r := Insert(rows, name, interval, today, photo);
      && |r| == |rows| + 1
      && r[..|rows|] == rows
      && (forall i :: 0 <= i < |rows| ==> r[i].id != r[|rows|].id)
      && r[|rows|].lastWatered == today
      && r[|rows|].nextWatering - r[|rows|].lastWatered == interval
      && r[|rows|].name == name && r[|rows|].waterInterval == interval && r[|rows|].photoPath == photo
  {
  }

  /** In a table that keeps the invariant the fresh id is the last row's id plus one. */
  lemma FreshIdFollowsLast(rows: seq<Plant>)
    requires TableInvariant(rows) && rows != []
    ensures FreshId(rows) == rows[|rows| - 1].id + 1
  {
  }

  /** Adding a plant keeps the table invariant. */
  lemma InsertKeepsInvariant(rows: seq<Plant>, name: string, interval: int, today: Day, photo: Option<string>)
    requires TableInvariant(rows)
    ensures TableInvariant(Insert(rows, name, interval, today, photo))
  {
  }

  /** Watering an id no row has reports nothing and leaves the table as it was. */
  lemma WaterUnknownId(rows: seq<Plant>, id: int, today: Day)
    requires forall i :: 0 <= i < |rows| ==> rows[i].id != id
    ensures SelectInterval(rows, id) == None
    ensures Water(rows, id, today) == rows
  {
  }

  /**
   * Watering row j sets its last watering to today and its next one to today
   * plus its own stored interval, whatever the old dates were; its name,
   * interval and photo and every other row stay as they were.
   */
  lemma WaterKnownId(rows: seq<Plant>, j: int, today: Day)
    requires TableInvariant(rows)
    requires 0 <= j < |rows|
    ensures var r := Water(rows, rows[j].id, today);
      && |r| == |rows|
      && r[j] == rows[j].(lastWatered := today, nextWatering := today + rows[j].waterInterval)
      && (forall i :: 0 <= i < |rows| && i != j ==> r[i] == rows[i])
  {
    var id := rows[j].id;
    var interval := SelectInterval(rows, id).value;
    assert interval == rows[j].waterInterval by {
      var k :| 0 <= k < |rows| && rows[k].id == id && rows[k].waterInterval == interval;
      assert k == j;
    }
    UpdateDatesAt(rows, id, today, NextWatering(today, interval));
    forall i | 0 <= i < |rows| && i != j
      ensures rows[i].id != id
    {
      if i < j { assert rows[i].id < rows[j].id; }
      if j < i { assert rows[j].id < rows[i].id; }
    }
  }

  /** Watering keeps the table invariant: the watered row is back on schedule. */
  lemma WaterKeepsInvariant(rows: seq<Plant>, id: int, today: Day)
    requires TableInvariant(rows)
    ensures TableInvariant(Water(rows, id, today))
  {
    if j :| 0 <= j < |rows| && rows[j].id == id {
      WaterKnownId(rows, j, today);
    } else {
      WaterUnknownId(rows, id, today);
    }
  }

  /**
   * Watering restarts the schedule instead of chaining off the old date:
   * watering on day t1 and then on day t2 leaves the same table as
   * watering on day t2 alone.
   */
  lemma WaterForgetsEarlierWatering(rows: seq<Plant>, id: int, t1: Day, t2: Day)
    requires TableInvariant(rows)
    ensures Water(Water(rows, id, t1), id, t2) == Water(rows, id, t2)
  {
    if j :| 0 <= j < |rows| && rows[j].id == id {
      WaterKnownId(rows, j, t1);
      var once := Water(rows, id, t1);
      WaterKeepsInvariant(rows, id, t1);
      WaterKnownId(once, j, t2);
      WaterKnownId(rows, j, t2);
      assert Water(once, id, t2) == Water(rows, id, t2);
    } else {
      WaterUnknownId(rows, id, t1);
    }
  }
}
