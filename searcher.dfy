/** The `NotesSearcher` object: one database connection and one embedding model, held for the
    searcher's lifetime, with the index and search operations over them. */
module Searcher {
  import opened Wrappers
  import opened Notes
  import opened Store
  import opened Grounding

  /** Why a search produced no answer. */
  datatype SearchError = NotIndexed | GenerationUnavailable

  class NotesSearcher {
    const db: Database
    const model: string -> Vector

    constructor (db: Database, model: string -> Vector)
      ensures this.db == db && this.model == model
    {
      this.db := db;
      this.model := model;
    }

    /** `index_notes` over the discovered `files`, each read and parsed by `load`. On success
        the notes table is rebuilt from scratch with one row per file, in order, and the
        number of notes is returned; a file that fails to load aborts the run before the
        database is touched. */
    method IndexNotes(files: seq<string>, load: string -> Result<Post, LoadError>)
      returns (outcome: Result<nat, IndexError>)
      modifies db
      ensures outcome.Success? <==> IndexRows(files, load, model).Success?
      ensures outcome.Success? ==>
        outcome.value == |files| &&
        db.tables == Reindexed(old(db.tables), IndexRows(files, load, model).value)
      ensures outcome.Failure? ==>
        outcome.error == IndexRows(files, load, model).error && db.tables == old(db.tables)
    {
      var data: seq<Row> := [];
      var i := 0;
      while i < |files|
        invariant 0 <= i <= |files|
        invariant IndexRows(files[..i], load, model) == Success(data)
        invariant |data| == i
      {
        var path := files[i];
        var loaded := load(path);
        if loaded.Failure? {
          IndexRowsSucceeds(files[..i], load, model);
          assert forall j :: 0 <= j < i ==> files[..i][j] == files[j];
          IndexRowsFirstFailure(files, load, model, i);
          return Failure(LoadFailed(path, loaded.error));
        }
        var note := ProcessNote(path, loaded.value);
        var embedding := model(note.content);
        assert files[..i + 1][..i] == files[..i];
        data := data + [Row(embedding, note.path, note.content, note.title, note.tags)];
        i := i + 1;
      }
      assert files[..i] == files;
      if NotesTable in db.tables {
        db.DropTable(NotesTable);
      }
      db.CreateTable(NotesTable, data);
      outcome := Success(|data|);
    }

    /** `search` from the retrieval on: `nearest` stands for the vector store's k-nearest
        query and `generate` for the language model, which may be unreachable. */
    method Search(query: string, k: nat, nearest: (seq<Row>, Vector, nat) -> seq<Hit>,
                  generate: string -> Option<string>)
      returns (response: Result<Response, SearchError>)
      ensures NotesTable !in db.tables ==> response == Failure(NotIndexed)
      ensures NotesTable in db.tables ==>
        var hits := nearest(db.tables[NotesTable], model(query), k);
        var answer := generate(Prompt(query, Context(hits)));
        (answer.None? ==> response == Failure(GenerationUnavailable)) &&
        (answer.Some? ==> response == Success(Response(answer.value, Sources(hits))))
    {
      var queryEmbedding := model(query);
      if NotesTable !in db.tables {
        return Failure(NotIndexed);
      }
      var results := nearest(db.tables[NotesTable], queryEmbedding, k);
      var context := Context(results);
      var prompt := Prompt(query, context);
      var answer := generate(prompt);
      if answer.None? {
        return Failure(GenerationUnavailable);
      }
      response := Success(Response(answer.value, Sources(results)));
    }
  }
}
