/** What `search` builds from the retrieved notes: the grounding context, the prompt for the
    language model, and the list of cited sources. */
module Grounding {
  import opened Text

  /** One retrieved row, as the vector store returns it, with its `_distance`. The distance is
      only ever copied, never computed with. */
  datatype Hit = Hit(title: string, path: string, content: string, distance: real)

  /** One entry of the answer's source list. */
  datatype Source = Source(title: string, path: string, relevanceScore: real)

  /** What `search` returns. */
  datatype Response = Response(answer: string, sources: seq<Source>)

  const NoteLabel: string := "Note: "
  const ContentLabel: string := "\n\nContent: "
  const NoteSeparator: string := "\n\n---\n\n"

  /** At most this many characters of each note's content go into the context. */
  const MaxNoteChars: nat := 1500

  /** The context segment of one retrieved note. */
  function Segment(h: Hit): (r: string)
    ensures |r| == |NoteLabel| + |h.title| + |ContentLabel|
                   + (if |h.content| <= MaxNoteChars then |h.content| else MaxNoteChars)
    ensures r[..|NoteLabel| + |h.title|] == NoteLabel + h.title
  {
    NoteLabel + h.title + ContentLabel + Clip(h.content, MaxNoteChars)
  }

  /** A segment is the note label, the title, the content label and the first 1500 characters of
      the content; content of at most 1500 characters is carried whole, and longer content
      contributes exactly its first 1500 characters, which end the segment. */
  lemma SegmentContent(h: Hit)
    ensures Segment(h) == NoteLabel + h.title + ContentLabel
                          + h.content[..if |h.content| <= MaxNoteChars then |h.content| else MaxNoteChars]
    ensures Segment(h)[..|NoteLabel| + |h.title|] == NoteLabel + h.title
    ensures |h.content| <= MaxNoteChars ==> Segment(h) == NoteLabel + h.title + ContentLabel + h.content
    ensures |h.content| > MaxNoteChars ==>
      |Segment(h)| == |NoteLabel| + |h.title| + |ContentLabel| + MaxNoteChars &&
      Segment(h)[|Segment(h)| - MaxNoteChars..] == h.content[..MaxNoteChars]
  {
  }

  function Segments(hits: seq<Hit>): seq<string>
  {
    seq(|hits|, i requires 0 <= i < |hits| => Segment(hits[i]))
  }

  /** The grounding context: the segments of the hits, in order, separated by NoteSeparator. */
  function Context(hits: seq<Hit>): (r: string)
    ensures |hits| == 0 ==> r == ""
    ensures |hits| == 1 ==> r == Segment(hits[0])
  {
    Join(NoteSeparator, Segments(hits))
  }

  /** A further hit adds one separator and its segment at the end of the context. */
  lemma ContextAppend(hits: seq<Hit>, h: Hit)
    requires |hits| > 0
    ensures Context(hits + [h]) == Context(hits) + NoteSeparator + Segment(h)
  {
    assert Segments(hits + [h]) == Segments(hits) + [Segment(h)];
    JoinConcat(NoteSeparator, Segments(hits), [Segment(h)]);
  }

  /** Hit `i`'s segment stands in the context after the context of the hits before it and
      before the context of the hits after it, with a separator on each side that has hits. */
  lemma ContextSegmentAt(hits: seq<Hit>, i: nat)
    requires i < |hits|
    ensures Context(hits) ==
      (if i == 0 then "" else Context(hits[..i]) + NoteSeparator)
      + Segment(hits[i])
      + (if i == |hits| - 1 then "" else NoteSeparator + Context(hits[i + 1..]))
  {
    var parts := Segments(hits);
    assert parts[..i] == Segments(hits[..i]);
    assert parts[i + 1..] == Segments(hits[i + 1..]);
    JoinAt(NoteSeparator, parts, i);
  }

  const QueryLead: string := "Based on the following query: \""
  const QueryTrail: string := "\"" + "\n\nHere are the most relevant notes I found:\n\n"
  const Instructions: string :=
    "\n\nPlease provide a comprehensive answer to the query using ONLY the information from these notes. \n"
    + "If the notes don't contain relevant information to answer the query, please state that clearly.\n"
    + "Format your response in a clear and concise way, citing specific notes when relevant."

  /** The five pieces of `a + b + c + d + e` can be read back by position. */
  lemma PiecesOf(a: string, b: string, c: string, d: string, e: string)
    ensures var s := a + b + c + d + e;
      s[..|a|] == a && s[|a|..|a| + |b|] == b && s[|a| + |b|..|a| + |b| + |c|] == c
      && s[|a| + |b| + |c|..|s| - |e|] == d && s[|s| - |e|..] == e
  {
  }

  /** The prompt sent to the language model: the query in double quotes after a fixed lead,
      the context verbatim, then the fixed instructions. */
  function Prompt(query: string, context: string): (r: string)
    ensures |r| == |QueryLead| + |query| + |QueryTrail| + |context| + |Instructions|
    ensures r[..|QueryLead|] == QueryLead
    ensures r[|QueryLead| + |query|..|QueryLead| + |query| + |QueryTrail|] == QueryTrail
    ensures r[|r| - |Instructions|..] == Instructions
  {
    PiecesOf(QueryLead, query, QueryTrail, context, Instructions);
    QueryLead + query + QueryTrail + context + Instructions
  }

  /** In the prompt the query stands between two double quotes. */
  lemma PromptQuotesQuery(query: string, context: string)
    ensures Prompt(query, context)[|QueryLead| - 1] == '"'
    ensures Prompt(query, context)[|QueryLead| + |query|] == '"'
  {
  }

  /** True when `p` is long enough to hold a prompt whose query has `n` characters. */
  predicate FitsPrompt(p: string, n: nat)
  {
    |QueryLead| + n + |QueryTrail| + |Instructions| <= |p|
  }

  /** The query of a prompt whose query is known to have `n` characters. */
  function QueryOf(p: string, n: nat): string
    requires FitsPrompt(p, n)
  {
    p[|QueryLead|..|QueryLead| + n]
  }

  /** The context of a prompt whose query is known to have `n` characters. */
  function ContextOf(p: string, n: nat): string
    requires FitsPrompt(p, n)
  {
    p[|QueryLead| + n + |QueryTrail|..|p| - |Instructions|]
  }

  /** The prompt holds the query and the context verbatim: both can be read back from it. */
  lemma PromptRoundTrip(query: string, context: string)
    ensures FitsPrompt(Prompt(query, context), |query|)
    ensures QueryOf(Prompt(query, context), |query|) == query
    ensures ContextOf(Prompt(query, context), |query|) == context
  {
  }

  /** For one query, different contexts give different prompts. */
  lemma PromptDeterminesContext(query: string, c1: string, c2: string)
    requires Prompt(query, c1) == Prompt(query, c2)
    ensures c1 == c2
  {
    PromptRoundTrip(query, c1);
    PromptRoundTrip(query, c2);
  }

  /** The sources list: one entry per hit, in hit order, each carrying the hit's title and path
      and its distance unchanged as the relevance score. */
  function Sources(hits: seq<Hit>): (r: seq<Source>)
    ensures |r| == |hits|
    ensures forall i :: 0 <= i < |hits| ==>
      r[i].title == hits[i].title && r[i].path == hits[i].path && r[i].relevanceScore == hits[i].distance
  {
    if hits == [] then []
    else [Source(hits[0].title, hits[0].path, hits[0].distance)] + Sources(hits[1..])
  }

  /** Source `i` names the note whose segment stands at position `i` of the context. */
  lemma SourceNamesSegment(hits: seq<Hit>, i: nat)
    requires i < |hits|
    ensures Segment(hits[i])[..|NoteLabel| + |Sources(hits)[i].title|] == NoteLabel + Sources(hits)[i].title
  {
  }
}
