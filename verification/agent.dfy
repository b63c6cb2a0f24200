/**
  The answering agent: the search guard of `search_drive`, the context
  block `answer_question` assembles from the search results, and the chat
  request it sends.
 */
module Agent {
  import opened Wrappers
  import opened Seqs
  import opened Keywords
  import opened DriveQuery
  import opened Mimes
  import opened Reader

  /** One search result as the listing returns it. */
  datatype FileMeta = FileMeta(id: string, name: string, mimeType: string, size: Option<string>, modifiedTime: string)

  /** The listing call's parameters. */
  datatype ListRequest = ListRequest(q: string, pageSize: int, fields: string, orderBy: string)

  /** The listing call's outcome: the `files` field (absent or null as `None`), or an exception. */
  datatype ListResponse = Listed(files: Option<seq<FileMeta>>) | ListFailed(message: string)

  const DefaultMaxResults: int := 5
  const ListFields: string := "files(id, name, mimeType, size, modifiedTime)"
  const NewestFirst: string := "modifiedTime desc"

  /**
    The listing request for a list of keywords, or none when the list is
    empty. When the keywords carry no quote, the request's filter names
    exactly those keywords and the allowed types.
   */
  function ListRequestFor(keywords: seq<string>, maxResults: int): (r: Option<ListRequest>)
    ensures r.None? <==> |keywords| == 0
    ensures r.Some? && (forall i :: 0 <= i < |keywords| ==> '\'' !in keywords[i]) ==>
              ParseFilter(r.value.q) == Some(FilterParts(keywords, AllowedMimes))
    ensures r.Some? ==> r.value.pageSize == maxResults && r.value.fields == ListFields && r.value.orderBy == NewestFirst
  {
    match BuildFilter(keywords)
    case None => None
    case Some(filter) =>
      FilterRoundTripIfQuoteFree(keywords);
      Some(ListRequest(filter, maxResults, ListFields, NewestFirst))
  }

  lemma FilterRoundTripIfQuoteFree(keywords: seq<string>)
    ensures BuildFilter(keywords).Some? && (forall i :: 0 <= i < |keywords| ==> '\'' !in keywords[i]) ==>
              ParseFilter(BuildFilter(keywords).value) == Some(FilterParts(keywords, AllowedMimes))
  {
    if forall i :: 0 <= i < |keywords| ==> '\'' !in keywords[i] {
      FilterRoundTrip(keywords);
    }
  }

  /**
    The listing call for a list of keywords, with the Drive listing given
    as `list`: no keywords means no call at all, a failed call or a missing
    `files` field means no results, and otherwise the results are the
    listed files.
   */
  function SearchWith(keywords: seq<string>, maxResults: int, list: ListRequest -> ListResponse): (r: seq<FileMeta>)
    ensures |keywords| == 0 ==> r == []
    ensures |keywords| > 0 && list(ListRequestFor(keywords, maxResults).value).ListFailed? ==> r == []
    ensures |keywords| > 0 && list(ListRequestFor(keywords, maxResults).value) == Listed(None) ==> r == []
    ensures |keywords| > 0 && list(ListRequestFor(keywords, maxResults).value).Listed? &&
            list(ListRequestFor(keywords, maxResults).value).files.Some? ==>
              r == list(ListRequestFor(keywords, maxResults).value).files.value
    ensures r != [] ==> ListRequestFor(keywords, maxResults).Some? && list(ListRequestFor(keywords, maxResults).value) == Listed(Some(r))
  {
    match ListRequestFor(keywords, maxResults)
    case None => []
    case Some(request) =>
      match list(request)
      case ListFailed(_) => []
      case Listed(files) => if files.Some? then files.value else []
  }

  /**
    The listing request `search_drive` issues for a question, or none when
    the question has no keywords. The request's filter names exactly the
    question's keywords and the allowed types.
   */
  function PlanSearch(query: string, maxResults: int): (r: Option<ListRequest>)
    ensures r.None? <==> KeywordsFromQuery(query, DefaultMinLen) == []
    ensures r.Some? ==> ParseFilter(r.value.q) == Some(FilterParts(KeywordsFromQuery(query, DefaultMinLen), AllowedMimes))
  {
    var keywords := KeywordsFromQuery(query, DefaultMinLen);
    KeywordsQuoteFree(query, DefaultMinLen);
    ListRequestFor(keywords, maxResults)
  }

  /** `search_drive`: the question's keywords, then the guarded listing call. */
  function SearchDrive(query: string, maxResults: int, list: ListRequest -> ListResponse): (r: seq<FileMeta>)
    ensures KeywordsFromQuery(query, DefaultMinLen) == [] ==> r == []
    ensures PlanSearch(query, maxResults).Some? && list(PlanSearch(query, maxResults).value).ListFailed? ==> r == []
    ensures PlanSearch(query, maxResults).Some? && list(PlanSearch(query, maxResults).value) == Listed(None) ==> r == []
    ensures PlanSearch(query, maxResults).Some? && list(PlanSearch(query, maxResults).value).Listed? &&
            list(PlanSearch(query, maxResults).value).files.Some? ==>
              r == list(PlanSearch(query, maxResults).value).files.value
    ensures r != [] ==> PlanSearch(query, maxResults).Some? && list(PlanSearch(query, maxResults).value) == Listed(Some(r))
  {
    SearchWith(KeywordsFromQuery(query, DefaultMinLen), maxResults, list)
  }

  /** Without keywords the result does not depend on the listing call: it is never made. */
  lemma NoKeywordsNoListing(query: string, maxResults: int, list1: ListRequest -> ListResponse, list2: ListRequest -> ListResponse)
    ensures KeywordsFromQuery(query, DefaultMinLen) == [] ==>
              SearchDrive(query, maxResults, list1) == SearchDrive(query, maxResults, list2) == []
  {
  }

  // ---------------------------------------------------------------------------
  // The context block

  /** A search result's name with the outcome of reading it. */
  datatype Entry = Entry(name: string, result: FileResult)

  /** At most this many characters of a file's text enter the context. */
  const SnippetLimit: nat := 5000

  function Header(name: string): string {
    "\n--- " + name + " ---\n"
  }

  function ErrorMarker(message: string): string {
    "[Error: " + message + "]"
  }

  /** `text[:5000]`: the longest prefix of at most the limit. */
  function Snippet(text: string): (r: string)
    ensures |r| == if |text| <= SnippetLimit then |text| else SnippetLimit
    ensures r == text[..|r|]
    ensures |text| <= SnippetLimit ==> r == text
  {
    if |text| <= SnippetLimit then text else text[..SnippetLimit]
  }

  /** The piece of context one result contributes: its header, then its snippet or error marker. */
  function Block(e: Entry): (r: string)
    ensures StartsWith(r, Header(e.name))
    ensures e.result.Ok? ==> r[|Header(e.name)|..] == Snippet(e.result.text)
    ensures e.result.Err? ==> r[|Header(e.name)|..] == ErrorMarker(e.result.message)
  {
    var body := match e.result
      case Ok(text) => Snippet(text)
      case Err(message) => ErrorMarker(message);
    StartsWithConcat(Header(e.name), body);
    Header(e.name) + body
  }

  /** The context block for a sequence of read results: their blocks, in order. */
  function Context(entries: seq<Entry>): (r: string)
    ensures r == [] <==> |entries| == 0
  {
    Flatten(entries, Block)
  }

  /** The results of reading every search result, in order. */
  function Entries(files: seq<FileMeta>, fetch: (string, Source, Extraction) -> FileResult): (r: seq<Entry>)
    ensures |r| == |files|
    ensures forall i :: 0 <= i < |r| ==> r[i].name == files[i].name
    ensures forall i :: 0 <= i < |r| ==> r[i].result == ReadFile(files[i].id, files[i].mimeType, fetch)
  {
    seq(|files|, i requires 0 <= i < |files| =>
      Entry(files[i].name, ReadFile(files[i].id, files[i].mimeType, fetch)))
  }

  /**
    The loop of `answer_question`: read each result in turn and append its
    header and snippet, or its header and an error marker when reading
    failed, then go on with the next result.
   */
  method AssembleContext(files: seq<FileMeta>, fetch: (string, Source, Extraction) -> FileResult)
    returns (context: string)
    ensures context == Context(Entries(files, fetch))
  {
    ghost var entries := Entries(files, fetch);
    context := "";
    var i := 0;
    while i < |files|
      invariant 0 <= i <= |files|
      invariant context == Context(entries[..i])
    {
      var f := files[i];
      var result := ReadFile(f.id, f.mimeType, fetch);
      assert entries[i] == Entry(f.name, result);
      ContextStep(entries, i);
      match result {
        case Ok(text) =>
          context := context + (Header(f.name) + Snippet(text));
        case Err(message) =>
          context := context + (Header(f.name) + ErrorMarker(message));
      }
      i := i + 1;
    }
    assert entries[..|files|] == entries;
  }

  lemma ContextStep(entries: seq<Entry>, i: nat)
    requires i < |entries|
    ensures Context(entries[..i + 1]) == Context(entries[..i]) + Block(entries[i])
  {
    assert entries[..i + 1][..i] == entries[..i];
  }

  /** The context of two runs of results is the two contexts, one after the other. */
  lemma ContextAppend(a: seq<Entry>, b: seq<Entry>)
    ensures Context(a + b) == Context(a) + Context(b)
  {
    FlattenAppend(a, b, Block);
  }

  /**
    Every result contributes exactly its own block, at the position given by
    the results before it, and the results after it are still processed.
   */
  lemma ContextAt(entries: seq<Entry>, i: nat)
    requires i < |entries|
    ensures Context(entries) == Context(entries[..i]) + Block(entries[i]) + Context(entries[i + 1..])
  {
    FlattenAt(entries, i, Block);
  }

  /**
    A failure reading one file changes only that file's block: it becomes
    the header and the error marker, and every other block stays as it was.
   */
  lemma FailureIsLocal(entries: seq<Entry>, i: nat, message: string)
    requires i < |entries|
    ensures Context(entries[i := Entry(entries[i].name, Err(message))])
            == Context(entries[..i]) + Header(entries[i].name) + ErrorMarker(message) + Context(entries[i + 1..])
  {
    var failed := entries[i := Entry(entries[i].name, Err(message))];
    ContextAt(failed, i);
    assert failed[..i] == entries[..i];
    assert failed[i + 1..] == entries[i + 1..];
    var header, marker := Header(entries[i].name), ErrorMarker(message);
    assert Block(failed[i]) == header + marker;
    RegroupMiddle(Context(entries[..i]), header, marker, Context(entries[i + 1..]));
  }

  // ---------------------------------------------------------------------------
  // The chat request

  /** The chat request `answer_question` sends. */
  datatype ChatRequest = ChatRequest(model: string, system: string, user: string, maxTokens: int, temperature: real)

  const DefaultModel: string := "meta-llama/Meta-Llama-3-8B-Instruct"
  const SystemPrompt: string :=
    "You are an assistant that answers user questions using provided context from Google Drive. "
    + "If the context is empty, use your own knowledge."
  const MaxTokens: int := 500
  const Temperature: real := 0.2

  /** The user message: the context block, then the question. */
  function UserText(context: string, query: string): string {
    "Context:\n" + context + "\n\nQuestion: " + query
  }

  /** For a given question, the user message determines the context it carries. */
  lemma UserTextInjective(c1: string, c2: string, query: string)
    requires UserText(c1, query) == UserText(c2, query)
    ensures c1 == c2
  {
    var t := UserText(c1, query);
    assert |c1| == |c2|;
    assert t == "Context:\n" + c1 + ("\n\nQuestion: " + query);
    assert t == "Context:\n" + c2 + ("\n\nQuestion: " + query);
    assert c1 == t[9..9 + |c1|];
    assert c2 == t[9..9 + |c2|];
  }

  /** The user message is the bare question exactly when the context is empty. */
  lemma BareQuestionIffNoContext(context: string, query: string)
    ensures UserText(context, query) == UserText("", query) <==> context == ""
  {
    if UserText(context, query) == UserText("", query) {
      UserTextInjective(context, "", query);
    }
  }

  /**
    The chat request `answer_question` sends once the search has found
    `files`: the context is empty exactly when nothing was found, and the
    model and its parameters are fixed.
   */
  function AnswerFor(query: string, files: seq<FileMeta>,
                     fetch: (string, Source, Extraction) -> FileResult): (r: ChatRequest)
    ensures r.user == UserText(Context(Entries(files, fetch)), query)
    ensures |files| == 0 <==> r.user == UserText("", query)
    ensures r.model == DefaultModel && r.system == SystemPrompt
    ensures r.maxTokens == MaxTokens && r.temperature == Temperature
  {
    var context := Context(Entries(files, fetch));
    BareQuestionIffNoContext(context, query);
    ChatRequest(DefaultModel, SystemPrompt, UserText(context, query), MaxTokens, Temperature)
  }

  /**
    `answer_question` up to the model call: search, read every result,
    assemble the context and lay out the user message around it.
   */
  function AnswerRequest(query: string, list: ListRequest -> ListResponse,
                         fetch: (string, Source, Extraction) -> FileResult): (r: ChatRequest)
    ensures r.user == UserText(Context(Entries(SearchDrive(query, DefaultMaxResults, list), fetch)), query)
    ensures KeywordsFromQuery(query, DefaultMinLen) == [] ==> r.user == UserText("", query)
    ensures r.model == DefaultModel && r.system == SystemPrompt
    ensures r.maxTokens == MaxTokens && r.temperature == Temperature
  {
    AnswerFor(query, SearchDrive(query, DefaultMaxResults, list), fetch)
  }
}
