# notes-searcher, modelled in Dafny

notes-searcher indexes a directory of Markdown notes into a LanceDB vector table and answers
questions about them: it embeds the query, retrieves the nearest notes, assembles them into a
grounding context, asks a local language model for an answer and returns that answer with the
notes it drew on as sources.

This project models the logic the repository itself contributes around those libraries:

- **Note shaping** (`process_note`): a parsed file becomes a record `{path, content, title, tags}`;
  a missing `title` falls back to the file's base name, missing `tags` to the empty list.
- **Index rebuild** (`index_notes`): a loop builds one row per discovered file, in discovery
  order, with the embedding of the note's content; then the `"notes"` table is dropped if it
  exists and created from the new rows, so it is replaced and never merged. The database is a
  class holding a map from table name to rows.
- **Grounding context, prompt and sources** (`search`, after retrieval): each hit becomes
  `"Note: " + title + "\n\nContent: " + content[:1500]`; the segments are joined with
  `"\n\n---\n\n"`; the context is placed in the fixed prompt; every hit yields one source entry
  carrying its title, path and distance.

Files: `wrappers.dfy` (Option, Result), `text.dfy` (base name, slicing, join), `notes.dfy`
(front-matter values, notes, rows, the rows an indexing run builds), `store.dfy` (the table map
and the database connection), `grounding.dfy` (segments, context, prompt, sources) and
`searcher.dfy` (the `NotesSearcher` class with `IndexNotes` and `Search`).

The collaborators are parameters: `load` stands for opening a file and `frontmatter.load`
(it may fail), the class's `model` field for the sentence-transformer embedding, `nearest` for
LanceDB's nearest-neighbour query and `generate` for the ollama call (it may be unreachable).
The discovered file list is an input.

## Model

| member | source | states |
|---|---|---|
| Text.Basename | notes_searcher/main.py:30 | the fallback title is the longest '/'-free suffix of the path: it has no '/', ends the path, and is the whole path or follows a '/' |
| Text.BasenameOfChild | notes_searcher/main.py:30 | the base name of `dir + "/" + name` is `name` for any '/'-free name |
| Text.Clip | notes_searcher/main.py:75 | `s[:n]` is a prefix of `s` of length `min(n, |s|)` |
| Text.Join | notes_searcher/main.py:74-77 | joining no parts gives ""; otherwise the length is the parts' total length plus one separator between each pair of neighbours |
| Text.JoinConcat | notes_searcher/main.py:74-77 | joining `a + b` is joining `a`, one separator, then joining `b` (order is kept) |
| Text.JoinAt | notes_searcher/main.py:74-77 | part `i` stands between the join of the parts before it and the join of those after it, with a separator exactly on the sides that have parts |
| Notes.ProcessNote | notes_searcher/main.py:27-31 | path and content are copied; title is the metadata title when present, else the path's base name; tags are the metadata tags when present, else the empty list |
| Notes.NoteRow | notes_searcher/main.py:44-52 | the row for one file carries the embedding of its content, its path and content unchanged, and process_note's title and tags |
| Notes.IndexRows | notes_searcher/main.py:43-52 | a successful run has one row per discovered file; a failed run names a discovered file whose load raised, with that file's cause |
| Notes.IndexRowsSucceeds | notes_searcher/main.py:43-52 | an indexing run succeeds exactly when every file loads, and then has one row per file, row `i` carrying note `i`'s path, content, title, tags and the embedding of its content |
| Notes.IndexRowsFirstFailure | notes_searcher/main.py:43-45 | when file `i` is the first that fails to load, the run fails with that load's cause, recorded against file `i` |
| Notes.UniformDimension | notes_searcher/main.py:45-47 | if the model always yields vectors of one dimension, every row built has that dimension |
| Store.Reindexed | notes_searcher/main.py:55-58 | after a rebuild the notes table holds exactly the new rows, the set of tables gains only "notes", and all other tables keep their rows |
| Store.ReindexedForgetsOldNotes | notes_searcher/main.py:55-58 | a rebuild does not depend on the notes table's earlier contents and repeating it changes nothing |
| Store.Database.constructor | notes_searcher/main.py:14 | a connection starts with the tables the store already holds |
| Store.Database.DropTable | notes_searcher/main.py:55-56 | dropping an existing table removes exactly that table |
| Store.Database.CreateTable | notes_searcher/main.py:58 | creating a new table adds exactly that table with the given rows |
| Searcher.NotesSearcher.constructor | notes_searcher/main.py:12-15 | the searcher keeps one database connection and one embedding model |
| Searcher.NotesSearcher.IndexNotes | notes_searcher/main.py:38-59 | on success returns the number of files and leaves the tables equal to the old ones with "notes" replaced by the rows of the run; on a load failure returns the first failing file's error and leaves the tables unchanged |
| Grounding.Segment | notes_searcher/main.py:75 | a segment opens with "Note: " and the title, and its length is the two labels', the title's and min(1500, content length); SegmentContent gives every character |
| Grounding.SegmentContent | notes_searcher/main.py:75 | a segment is exactly "Note: " + title + "\n\nContent: " + the first min(1500, content length) characters of the content: short content is included whole, longer content contributes exactly its first 1500 characters |
| Grounding.Context | notes_searcher/main.py:74-77 | zero hits give the empty context, one hit gives exactly its segment with no separator |
| Grounding.ContextAppend | notes_searcher/main.py:74-77 | a further hit adds one separator and its segment at the end |
| Grounding.ContextSegmentAt | notes_searcher/main.py:74-77 | hit `i`'s segment stands between the context of the earlier hits and that of the later hits, in result order |
| Grounding.Prompt | notes_searcher/main.py:80-88 | the prompt starts with the fixed lead, the query is followed by the fixed text `"` + blank line + "Here are the most relevant notes I found:" + blank line, then the context, and it ends with the fixed instructions |
| Grounding.PromptQuotesQuery | notes_searcher/main.py:80 | the query stands between two double quotes in the prompt |
| Grounding.PromptRoundTrip | notes_searcher/main.py:80-88 | the query and the context are in the prompt verbatim: reading them back at their positions gives them exactly |
| Grounding.PromptDeterminesContext | notes_searcher/main.py:80-88 | for one query, equal prompts mean equal contexts |
| Grounding.Sources | notes_searcher/main.py:96-103 | one source per hit, same order; entry `i` has hit `i`'s title, path and its distance unchanged as relevance score |
| Grounding.SourceNamesSegment | notes_searcher/main.py:96-99 | source `i` names the note whose segment is the `i`-th of the context |
| Searcher.NotesSearcher.Search | notes_searcher/main.py:61-104 | without a notes table the search fails as not indexed; otherwise the answer is the model's reply to the prompt built from the retrieved hits, returned with their sources, and an unreachable model is an error |

## Left out

- Recursive `glob` discovery of `*.md` files (main.py:17-19): filesystem access; the file list is an input.
- Opening, UTF-8 decoding and front-matter parsing (main.py:23-26): file I/O and a foreign library; modelled as the `load` parameter, which yields the body and metadata map or an error.
- Front-matter values other than a string or a list of strings (numbers, dates, nested maps): the searcher only reads `title` and `tags`, modelled as those two shapes.
- Search hits carry their title as a string; how Python's f-string would render a non-string title is not modelled.
- The sentence-transformer embedding (main.py:15, 34-36): a foreign model producing floats; modelled as an opaque function, and no property of its vectors is assumed beyond `Notes.UniformDimension`'s hypothesis.
- LanceDB's nearest-neighbour search, its distances, ordering and limit (main.py:70-71): a foreign library; the hits are whatever `nearest` returns, and `_distance` is only copied. The default `k = 5` is the caller's argument here.
- The ollama call (main.py:91-92): a network service; modelled as `generate`, whose absence of a reply is the "generation unavailable" error.
- Notes.IndexRows: the path in `LoadFailed` is the model's record of which file's load raised; Python's decoding or YAML exception need not name the file, so the traceback's actual contents are not modelled.
- The failure of `open_table` when no index exists is modelled as `NotIndexed`; the other exceptions the libraries may raise are not.
- `float(...)` on the distance: the value is copied as a real, float widening is not modelled.
- Printing "Indexed N notes" (main.py:59): output; `IndexNotes` returns the count instead.
- The command line and its printing with `:.4f` formatting (main.py:107-132): user interface and floating-point formatting.
- `os.path.basename` is modelled for POSIX paths ('/' separator only).
- Python slices strings by code point; strings here are sequences of characters with no encoding.
