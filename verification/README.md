# Drive chatbot core in Dafny

This project models the pure core of a small Streamlit application. The
application answers a question from documents in the user's Google Drive.
The model covers the parts of `app.py` that decide what is searched for and
what the language model is shown:

- **Sanitizer** (`sanitize_for_drive`). It turns quotes and backslashes into
  spaces. Every character that is not an ASCII letter, digit or whitespace
  becomes a space. Whitespace runs collapse to one space and the ends are
  stripped. "Whitespace" is Python's `str.isspace` set, which is the set that
  `re`'s `\s`, `str.strip` and `str.split` use on `str` patterns. It is spelled
  out in `Chars.IsWhitespace`.
- **Keywords** (`keywords_from_query`). It splits the sanitized query on
  whitespace runs and keeps the words of at least `min_len` characters.
- **Mimes** (`ALLOWED_MIMES`). These are the six allow-listed media types.
- **DriveQuery** (`build_drive_q_for_keywords`). It builds the Drive `files.list`
  filter string. A parser for exactly that grammar, `DriveQuery.ParseFilter`,
  is the builder's partner, and the round trip is proved.
- **Reader** (`read_file`). This is the media-type dispatch: which files are
  skipped, which are exported and to what type, which are downloaded as they
  are, and which extractor the bytes then go to. The download and the
  extractors are a function parameter.
- **Agent** (`search_drive`, `DriveChatAgent.answer_question`). It covers the
  empty-keyword guard, the list request, the per-file context blocks with the
  5000-character snippet and error markers, and the user message layout.
  Drive listing and file reading are function parameters.

Modules `Wrappers`, `Chars` and `Seqs` hold the option type, character
classes and generic sequence functions (filter, join, split, flatten).

Notes on what `app.py` does:

- Keywords are not lower-cased. The case of the query is kept.
- `read_file` downloads every type that is not a native Google type, not only
  the allow-listed ones. The allow-list acts only through the search filter.
- The extractor is chosen by the file's original type. So exported Google
  Docs and Sheets go to the lossy UTF-8 decoder, and `Reader.PlanRead` says so.

## Model

| member | source | states |
|---|---|---|
| Sanitizer.Sanitize | app.py:71-75 | The result is clean: it holds only ASCII letters, digits and single spaces, with no space at either end. Where the spaces go is fixed by Keywords.SanitizeJoinsMaskedWords |
| Sanitizer.SanitizeKeepsAlnum | app.py:72-74 | Apart from spaces, the sanitized query holds exactly the ASCII letters and digits of the query, in order |
| Sanitizer.SanitizeIdempotent | app.py:71-75 | Sanitizing twice gives the same result as sanitizing once |
| Sanitizer.SanitizeFixedPoints | app.py:71-75 | A string is left unchanged by sanitizing if and only if it is already clean |
| Sanitizer.SanitizeFixesClean | app.py:71-75 | A clean string is left unchanged by sanitizing |
| Sanitizer.ReplaceQuotesRedundant | app.py:72-73 | The quote and backslash replacement is subsumed by the non-alphanumeric mask that follows it |
| Sanitizer.TrimStart | app.py:74 | Drops exactly the leading whitespace: what is dropped is whitespace, and what remains is a suffix that does not start with whitespace |
| Sanitizer.TrimEnd | app.py:74 | Drops exactly the trailing whitespace: what is dropped is whitespace, and what remains is a prefix that does not end with whitespace |
| Sanitizer.CollapseWhitespace | app.py:74 | No two whitespace characters are adjacent, every other character comes from the input, and the result starts with whitespace exactly when the input does. With Keywords.WordsOfCollapse and Sanitizer.CollapseKeepsLastWhitespace this fixes the result: each whitespace run becomes exactly one space |
| Sanitizer.CollapseKeepsWords | app.py:74 | Collapsing whitespace keeps the non-whitespace characters, all of them and in order |
| Sanitizer.TrimStartKeepsWords | app.py:74 | Stripping leading whitespace keeps every non-whitespace character |
| Sanitizer.TrimEndKeepsWords | app.py:74 | Stripping trailing whitespace keeps every non-whitespace character |
| Sanitizer.MaskKeepsAlnum | app.py:73 | After the mask, the non-whitespace characters are exactly the ASCII letters and digits of the input |
| Sanitizer.CollapseOfSpaced | app.py:74 | Collapsing does nothing to a string of letters, digits and single spaces |
| Keywords.Words | app.py:79 | Splitting on whitespace gives non-empty words made of non-whitespace characters, the first starting at the first character when that is not whitespace. Keywords.WordsSkipRun, Keywords.WordsTakeRun and Keywords.WordsConcat pin the words down as the maximal runs |
| Sanitizer.CollapseKeepsLastWhitespace | app.py:74 | The collapsed text ends with whitespace exactly when the input does |
| Keywords.WordsSkipRun | app.py:79 | A leading run of whitespace produces no word, and splitting continues after it |
| Keywords.WordsTakeRun | app.py:79 | A leading maximal run of non-whitespace is the first word, whole, and splitting continues after it |
| Keywords.WordsConcat | app.py:79 | The words, concatenated, are exactly the non-whitespace characters of the input, in order |
| Keywords.WordsOfWhitespaceTail | app.py:79 | Trailing whitespace produces no word |
| Keywords.WordsOfTrimStart | app.py:74 | Stripping leading whitespace does not change the words |
| Keywords.WordsOfTrimEnd | app.py:74 | Stripping trailing whitespace does not change the words |
| Keywords.WordsOfCollapse | app.py:74 | Collapsing whitespace runs does not change the words |
| Keywords.JoinWordsOfSingleSpaced | app.py:79 | Text whose only whitespace is lone inner spaces is its words joined by single spaces |
| Keywords.StripIsSingleSpaced | app.py:74 | Stripping text whose whitespace is lone spaces leaves lone inner spaces only |
| Keywords.StripCollapseJoinsWords | app.py:74 | Collapsing and then stripping equals joining the input's words with single spaces |
| Keywords.SanitizeJoinsMaskedWords | app.py:71-75 | The sanitized question is the words of the masked question joined by single spaces, so each masked character or whitespace run separates two words |
| Keywords.WordsOfSanitized | app.py:72-79 | The words of the sanitized question are the words of the masked question |
| Keywords.KeywordsFromQuery | app.py:77-79 | Every keyword is at least `min_len` long, non-empty and purely ASCII alphanumeric, and every word of the sanitized query that is long enough is a keyword |
| Keywords.KeywordsAreLongSpacePieces | app.py:79 | The keywords are the long enough pieces of the sanitized query split at single spaces |
| Keywords.WordsOfClean | app.py:79 | On a clean string, splitting on whitespace runs is the same as splitting at each space, except that the empty string gives no words |
| Keywords.SplitOnSpaceOfSpaced | app.py:79 | Splitting at each space matches splitting on whitespace runs on single-spaced alphanumeric text |
| Keywords.JoinWordsOfSanitized | app.py:78-79 | Joining the words of the sanitized query with single spaces gives back the sanitized query |
| Keywords.WordsKeepAlnum | app.py:72-79 | The words, concatenated, are exactly the ASCII letters and digits of the original query |
| Keywords.KeywordsQuoteFree | app.py:72-79 | No keyword contains a single quote or a backslash, so none can break out of the filter's quoted literals |
| Mimes.AllowedMimesQuoteFree | app.py:24-31 | None of the allow-listed media types contains a single quote |
| DriveQuery.BuildFilter | app.py:81-83 | There is no filter exactly when the keyword list is empty |
| DriveQuery.FilterFor | app.py:81-87 | There is no filter exactly when there are no keywords, and the filter opens with the first name clause |
| DriveQuery.FilterRoundTrip | app.py:81-87 | Parsing the filter built from quote-free keywords gives back those keywords and the allow-listed types, in order |
| DriveQuery.FilterForRoundTrip | app.py:84-87 | Parsing the filter built from any quote-free keywords and media types gives back both lists |
| DriveQuery.BuildFilterInjective | app.py:84-87 | Different quote-free keyword lists give different filters |
| DriveQuery.ParseRenderedClauses | app.py:84-86 | An or-joined list of name clauses or media-type clauses parses back to its literals |
| DriveQuery.ParseRenderedClause | app.py:84 | A single rendered clause around a quote-free literal parses back to that literal and leaves the rest of the text alone |
| DriveQuery.TakeUntilQuote | app.py:84 | Reads the longest quote-free prefix, stopping only at a quote or at the end |
| Reader.PlanRead | app.py:91-99 | Google types other than Docs and Sheets are skipped with a placeholder. Docs are exported as plain text and Sheets as CSV. Every other type is downloaded as is. The extractor follows the original type |
| Reader.ReadFile | app.py:89-114 | A skipped type yields its placeholder. Every other type yields what the download and extraction for its plan yields |
| Reader.SkippedFilesAreNotFetched | app.py:96-97 | A skipped file's result does not depend on the download at all |
| Reader.AllowedMimesAreRead | app.py:91-112 | Every allow-listed type is read. Exactly the two Google types are exported. Exactly PDF goes to the page extractor and exactly DOCX to the paragraph extractor |
| Agent.ListRequestFor | app.py:118-128 | A list request exists exactly when there are keywords. For quote-free keywords, its filter parses back to those keywords and the allow-listed types. It asks for `max_results` files with the five listed fields, newest first |
| Agent.FilterRoundTripIfQuoteFree | app.py:121 | When the keywords carry no quote, the filter that is built parses back to them and the allow-listed types |
| Agent.PlanSearch | app.py:116-128 | A list request exists exactly when the question has keywords, and its filter parses back to exactly those keywords and the allow-listed types |
| Agent.SearchWith | app.py:118-132 | With no keywords, with a failed listing and with a listing that has no `files` field, there are no files. Otherwise the result is exactly the listed files |
| Agent.SearchDrive | app.py:116-132 | A question without keywords gives no files, and so do a failed listing and a listing without `files`. Otherwise the result is exactly the files the listing reported for the request planned from the question |
| Agent.NoKeywordsNoListing | app.py:117-119 | Without keywords, the result is empty whatever Drive would answer, so Drive is never consulted |
| Agent.Snippet | app.py:147 | The snippet is the prefix of the text of length min(length, 5000) |
| Agent.Block | app.py:145-150 | A block is the file's header followed by its snippet, or by the error marker when reading failed |
| Agent.Context | app.py:142-150 | The context is empty exactly when there are no files |
| Agent.AssembleContext | app.py:142-150 | The loop builds the same string as the concatenation of the files' blocks in order |
| Agent.ContextStep | app.py:144-150 | Each iteration appends exactly one block to what came before |
| Agent.ContextAppend | app.py:142-150 | The context of two file lists in a row is the two contexts concatenated |
| Agent.ContextAt | app.py:143-150 | Each file's block sits between the blocks of the files before it and those after it |
| Agent.FailureIsLocal | app.py:145-150 | A failed read replaces only that file's block with an error marker and leaves every other block as it was |
| Agent.Entries | app.py:144-146 | One entry per found file, in order, carrying that file's name and the result of reading that file |
| Agent.UserTextInjective | app.py:157 | For a fixed question, the user message determines the context it carries |
| Agent.BareQuestionIffNoContext | app.py:157 | The user message is the bare question exactly when the context is empty |
| Agent.AnswerFor | app.py:142-166 | The user message lays out the context assembled from the found files around the question. It is the bare question exactly when no files were found. The model, system prompt, token limit and temperature are always the fixed ones |
| Agent.AnswerRequest | app.py:139-166 | The user message carries the context assembled from the files the search for the question returns. A question without keywords is sent with an empty context, and the model and its parameters are the fixed ones |

## Left out

- OAuth (`authenticate_drive`, app.py:34-68) and the secrets (app.py:18-21): these are session and credential handling with no logic to state.
- The Drive client calls, including the chunked download loop (app.py:101-105, 122-128). `files.list` is the parameter `list` and `export_media`/`get_media` plus extraction is the parameter `fetch`. Which requests are made is modelled, but their effects are not.
- PDF page extraction, DOCX paragraph joining and lossy UTF-8 decoding (app.py:107-114): these are foreign libraries. The model names the chosen extractor and leaves the text to `fetch`.
- Agent.SearchDrive: the Drive error message shown by `st.error` (app.py:131) is a UI side effect and is not modelled. A response without `files`, or with an empty list, gives no files, as in the code.
- Agent.SearchDrive: Drive honouring `pageSize` is a property of the service, so the model does not bound the number of files returned.
- Agent.AnswerRequest: the model client call and the strip of its reply (app.py:159-168) are remote inference. The model stops at the request it would send.
- Agent.AnswerFor: the model name is always the default of `DriveChatAgent.__init__` (app.py:136). The constructor's `model` argument is not modelled, because the only construction (app.py:183) passes none.
- The Streamlit page and the blank-question check before the agent runs (app.py:171-187): this is UI code.
- Python strings can hold lone surrogates, which Dafny `char` cannot. In the question the sanitizer masks them anyway, since they are neither alphanumeric nor whitespace. They can also reach the context unmasked, through file names, extracted text and error messages, and the raw question in the user message. The model cannot represent those strings.
- `max_results` is an unbounded integer. The code passes it straight through and never checks it.
