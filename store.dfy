/**
 * The database file `plants.db` as an object: whether the `plants` table
 * has been created yet, and its rows. Each operation of the program is a
 * method that reads or rewrites these fields.
 */
module Store {
  import opened Wrappers
  import opened Schedule
  import opened Photo
  import opened PlantTable

  /** A row of the plant list together with its urgency label. */
  datatype Listed = Listed(plant: Plant, urgency: Urgency)

  class PlantStore {
    /** Whether `CREATE TABLE plants` has run against this file. */
    var hasTable: bool
    /** The rows of `plants`, in rowid order. */
    var rows: seq<Plant>

    ghost predicate Valid()
      reads this
    {
      (!hasTable ==> rows == []) && TableInvariant(rows)
    }

    /** A database file on which no table has been created yet. */
    constructor ()
      ensures Valid() && !hasTable && rows == []
    {
      hasTable := false;
      rows := [];
    }

    /**
     * `init_db`: `CREATE TABLE IF NOT EXISTS`. It creates an empty table the
     * first time, and on a file that has one it changes nothing: the two
     * ensures together make a second call a no-op (idempotence).
     */
    method InitDb()
      requires Valid()
      modifies this
      ensures Valid() && hasTable
      ensures rows == old(rows)
    {
      if !hasTable {
        hasTable := true;
        rows := [];
      }
    }

    /**
     * `add_plant`: the photo comes from the photo menu choice, the row is
     * inserted watered today and due one interval later, and the id SQLite
     * assigned to it is returned.
     */
    method AddPlant(name: string, interval: int, photoChoice: string,
                    captured: Option<string>, dialogResult: string, today: Day)
      returns (id: int)
      requires Valid() && hasTable
      modifies this
      ensures Valid() && hasTable
      ensures id == FreshId(old(rows))
      ensures forall i :: 0 <= i < |old(rows)| ==> old(rows)[i].id != id
      ensures rows == Insert(old(rows), name, interval, today, ChosenPhoto(photoChoice, captured, dialogResult))
    {
      var photo := ChosenPhoto(photoChoice, captured, dialogResult);
      InsertKeepsInvariant(rows, name, interval, today, photo);
      id := FreshId(rows);
      rows := rows + [NewPlant(id, name, interval, today, photo)];
    }

    /**
     * `list_plants`: every row in table order with its urgency label for
     * today; the table is only read.
     */
    method ListPlants(today: Day) returns (listing: seq<Listed>)
      requires hasTable
      ensures |listing| == |rows|
      ensures forall i :: 0 <= i < |rows| ==>
        listing[i].plant == rows[i] && listing[i].urgency == Classify(rows[i].nextWatering, today)
    {
      listing := [];
      for k := 0 to |rows|
        invariant |listing| == k
        invariant forall i :: 0 <= i < k ==>
          listing[i].plant == rows[i] && listing[i].urgency == Classify(rows[i].nextWatering, today)
      {
        var row := rows[k];
        listing := listing + [Listed(row, Classify(row.nextWatering, today))];
      }
    }

    /**
     * `water_plant`: shows the list, selects the interval of the row with the
     * id, and when there is one restarts its dates from today; `found` is
     * false exactly when no row has the id, and then nothing changes.
     */
    method WaterPlant(id: int, today: Day) returns (found: bool)
      requires Valid() && hasTable
      modifies this
      ensures Valid() && hasTable
      ensures found <==> exists i :: 0 <= i < |old(rows)| && old(rows)[i].id == id
      ensures !found ==> rows == old(rows)
      ensures rows == Water(old(rows), id, today)
    {
      var _ := ListPlants(today);
      WaterKeepsInvariant(rows, id, today);
      var result := SelectInterval(rows, id);
      if result == None {
        found := false;
      } else {
        found := true;
        var next := NextWatering(today, result.value);
        rows := UpdateDates(rows, id, today, next);
      }
    }
  }
}
