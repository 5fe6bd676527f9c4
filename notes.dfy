/** Notes and indexed records: what `process_note` builds from one parsed file and what
    `index_notes` stores for it. */
module Notes {
  import opened Wrappers
  import opened Text

  /** A front-matter value the searcher reads: a string (`title`) or a list of strings (`tags`). */
  datatype MetaValue = Str(text: string) | StrList(items: seq<string>)

  /** What `frontmatter.load` gives back for one file: the body and the header's key-value map. */
  datatype Post = Post(content: string, metadata: map<string, MetaValue>)

  /** Why a note file could not be loaded (unreadable, not UTF-8, or a malformed header). */
  datatype LoadError = Unreadable | NotText | MalformedFrontMatter

  /** The exception that aborts an indexing run. Its path records which file's load raised; the
      library's own exception need not carry the path. */
  datatype IndexError = LoadFailed(path: string, cause: LoadError)

  /** The record `process_note` returns. */
  datatype Note = Note(path: string, content: string, title: MetaValue, tags: MetaValue)

  /** Embedding vectors are produced by an opaque model; their numbers are never inspected. */
  type Vector = seq<real>

  /** One row of the "notes" table: the note plus the embedding of its content. */
  datatype Row = Row(vector: Vector, path: string, content: string, title: MetaValue, tags: MetaValue)

  /** `process_note` on an already parsed file: `title` falls back to the file's base name,
      `tags` to the empty list, and path and content are copied. */
  function ProcessNote(path: string, post: Post): (n: Note)
    ensures n.path == path && n.content == post.content
    ensures "title" in post.metadata ==> n.title == post.metadata["title"]
    ensures "title" !in post.metadata ==>
      n.title.Str? && '/' !in n.title.text && n.title.text == Basename(path)
      && path[|path| - |n.title.text|..] == n.title.text
    ensures "tags" in post.metadata ==> n.tags == post.metadata["tags"]
    ensures "tags" !in post.metadata ==> n.tags == StrList([])
  {
    var meta := post.metadata;
    Note(path,
         post.content,
         if "title" in meta then meta["title"] else Str(Basename(path)),
         if "tags" in meta then meta["tags"] else StrList([]))
  }

  /** The row appended for one successfully loaded file. */
  function NoteRow(path: string, post: Post, embed: string -> Vector): (r: Row)
    ensures r.vector == embed(post.content)
    ensures r.path == path && r.content == post.content
    ensures r.title == ProcessNote(path, post).title && r.tags == ProcessNote(path, post).tags
  {
    var note := ProcessNote(path, post);
    Row(embed(note.content), note.path, note.content, note.title, note.tags)
  }

  /** The rows an indexing run over `files` builds, in discovery order, or the error of the
      first file that fails to load. */
  function IndexRows(files: seq<string>, load: string -> Result<Post, LoadError>,
                     embed: string -> Vector): (r: Result<seq<Row>, IndexError>)
    ensures r.Success? ==> |r.value| == |files|
    ensures r.Failure? ==> r.error.path in files && load(r.error.path) == Failure(r.error.cause)
  {
    if |files| == 0 then Success([])
    else
      match IndexRows(files[..|files| - 1], load, embed)
      case Failure(e) => Failure(e)
      case Success(rows) =>
        var path := files[|files| - 1];
        match load(path)
        case Failure(cause) => Failure(LoadFailed(path, cause))
        case Success(post) => Success(rows + [NoteRow(path, post, embed)])
  }

  /** An indexing run succeeds exactly when every file loads; it then builds one row per file,
      row `i` being the note of file `i` with the embedding of its content. */
  lemma {:induction false} IndexRowsSucceeds(files: seq<string>, load: string -> Result<Post, LoadError>,
                                             embed: string -> Vector)
    ensures IndexRows(files, load, embed).Success? <==> forall i :: 0 <= i < |files| ==> load(files[i]).Success?
    ensures IndexRows(files, load, embed).Success? ==>
      var rows := IndexRows(files, load, embed).value;
      |rows| == |files| &&
      forall i :: 0 <= i < |files| ==>
        var note := ProcessNote(files[i], load(files[i]).value);
        rows[i] == Row(embed(note.content), note.path, note.content, note.title, note.tags)
  {
    if |files| > 0 {
      var init := files[..|files| - 1];
      IndexRowsSucceeds(init, load, embed);
      assert forall i :: 0 <= i < |init| ==> init[i] == files[i];
    }
  }

  /** The run stops at the first file that fails to load and reports that file. */
  lemma {:induction false} IndexRowsFirstFailure(files: seq<string>, load: string -> Result<Post, LoadError>,
                                                 embed: string -> Vector, i: nat)
    requires i < |files| && load(files[i]).Failure?
    requires forall j :: 0 <= j < i ==> load(files[j]).Success?
    ensures IndexRows(files, load, embed) == Failure(LoadFailed(files[i], load(files[i]).error))
  {
    var init := files[..|files| - 1];
    if i == |files| - 1 {
      IndexRowsSucceeds(init, load, embed);
      assert forall j :: 0 <= j < |init| ==> init[j] == files[j];
    } else {
      assert init[i] == files[i];
      assert forall j :: 0 <= j < i ==> init[j] == files[j];
      IndexRowsFirstFailure(init, load, embed, i);
    }
  }

  /** When the model always yields vectors of one dimension, every row of a run has it. */
  lemma UniformDimension(files: seq<string>, load: string -> Result<Post, LoadError>,
                         embed: string -> Vector, dim: nat)
    requires forall text :: |embed(text)| == dim
    requires IndexRows(files, load, embed).Success?
    ensures forall row :: row in IndexRows(files, load, embed).value ==> |row.vector| == dim
  {
  }
}
