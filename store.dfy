/** The vector database as the searcher uses it: named tables of rows. Only the table
    bookkeeping is modelled; storage and nearest-neighbour search stay with the library. */
module Store {
  import opened Notes

  /** The one table the searcher reads and rebuilds. */
  const NotesTable: string := "notes"

  /** The table map after a rebuild: the notes table holds exactly `rows`, whatever it held
      before, and every other table is untouched. */
  function Reindexed(tables: map<string, seq<Row>>, rows: seq<Row>): (r: map<string, seq<Row>>)
    ensures NotesTable in r && r[NotesTable] == rows
    ensures r.Keys == tables.Keys + {NotesTable}
    ensures forall name :: name in tables && name != NotesTable ==> r[name] == tables[name]
  {
    tables[NotesTable := rows]
  }

  /** Rebuilding twice with the same rows is the same as rebuilding once, and the result
      does not depend on what the notes table held before. */
  lemma ReindexedForgetsOldNotes(tables: map<string, seq<Row>>, old_rows: seq<Row>, rows: seq<Row>)
    ensures Reindexed(tables[NotesTable := old_rows], rows) == Reindexed(tables, rows)
    ensures Reindexed(Reindexed(tables, rows), rows) == Reindexed(tables, rows)
  {
  }

  /** A connection to the database: the tables it holds, by name. */
  class Database {
    var tables: map<string, seq<Row>>

    /** `lancedb.connect`: opens a store that already holds `tables`. */
    constructor (tables: map<string, seq<Row>>)
      ensures this.tables == tables
    {
      this.tables := tables;
    }

    /** `drop_table`: removes an existing table. */
    method DropTable(name: string)
      requires name in tables
      modifies this
      ensures tables == old(tables) - {name}
    {
      tables := tables - {name};
    }

    /** `create_table`: adds a table that does not exist yet, holding `data`. */
    method CreateTable(name: string, data: seq<Row>)
      requires name !in tables
      modifies this
      ensures tables == old(tables)[name := data]
    {
      tables := tables[name := data];
    }
  }
}
