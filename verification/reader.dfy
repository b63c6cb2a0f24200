/**
  The decisions `read_file` makes from a file's MIME type before any
  download: export a native Drive file, download the stored bytes, or skip
  the file with a placeholder; and how the bytes become text afterwards.
 */
module Reader {
  import opened Seqs
  import opened Mimes

  /** Where a file's bytes come from. */
  datatype Source = Export(targetMime: string) | Media

  /** How the downloaded bytes become text. */
  datatype Extraction = PdfPages | DocxParagraphs | Utf8Lossy

  /** What reading a file of a given type amounts to. */
  datatype ReadPlan = Skip(placeholder: string) | Fetch(source: Source, extraction: Extraction)

  /** The outcome of reading one file: its text, or the message of the exception raised. */
  datatype FileResult = Ok(text: string) | Err(message: string)

  function SkipPlaceholder(mime: string): string {
    "[Skipped unsupported Google file type: " + mime + "]"
  }

  /** The extraction step chooses on the original MIME type, also for exported files. */
  function ExtractionFor(mime: string): Extraction {
    if mime == PdfMime then PdfPages
    else if mime == DocxMime then DocxParagraphs
    else Utf8Lossy
  }

  /** The branch structure of `read_file`. */
  function PlanRead(mime: string): (r: ReadPlan)
    ensures r.Skip? <==> StartsWith(mime, GoogleAppsPrefix) && mime != GoogleDocMime && mime != GoogleSheetMime
    ensures r.Skip? ==> r.placeholder == SkipPlaceholder(mime)
    ensures mime == GoogleDocMime ==> r == Fetch(Export(TextMime), Utf8Lossy)
    ensures mime == GoogleSheetMime ==> r == Fetch(Export(CsvMime), Utf8Lossy)
    ensures r.Fetch? && r.source.Media? <==> !StartsWith(mime, GoogleAppsPrefix)
    ensures r.Fetch? ==> r.extraction == ExtractionFor(mime)
  {
    GoogleNativeTypes();
    if StartsWith(mime, GoogleAppsPrefix) then
      if mime == GoogleDocMime then Fetch(Export(TextMime), ExtractionFor(mime))
      else if mime == GoogleSheetMime then Fetch(Export(CsvMime), ExtractionFor(mime))
      else Skip(SkipPlaceholder(mime))
    else Fetch(Media, ExtractionFor(mime))
  }

  /**
    `read_file` with the Drive download and the text extraction given as
    `fetch`, which either yields the text or fails with a message.
   */
  function ReadFile(fileId: string, mime: string, fetch: (string, Source, Extraction) -> FileResult): (r: FileResult)
    ensures PlanRead(mime).Skip? ==> r == Ok(SkipPlaceholder(mime))
    ensures PlanRead(mime).Fetch? ==> r == fetch(fileId, PlanRead(mime).source, PlanRead(mime).extraction)
  {
    match PlanRead(mime)
    case Skip(placeholder) => Ok(placeholder)
    case Fetch(source, extraction) => fetch(fileId, source, extraction)
  }

  /**
    A skipped file is never downloaded: its result is the placeholder,
    whatever the download would have done.
   */
  lemma SkippedFilesAreNotFetched(fileId: string, mime: string,
                                  fetch1: (string, Source, Extraction) -> FileResult,
                                  fetch2: (string, Source, Extraction) -> FileResult)
    requires StartsWith(mime, GoogleAppsPrefix) && mime != GoogleDocMime && mime != GoogleSheetMime
    ensures ReadFile(fileId, mime, fetch1) == ReadFile(fileId, mime, fetch2) == Ok(SkipPlaceholder(mime))
  {
  }

  /** The two exportable types are native Drive types; the other allowed types are not. */
  lemma GoogleNativeTypes()
    ensures StartsWith(GoogleDocMime, GoogleAppsPrefix) && StartsWith(GoogleSheetMime, GoogleAppsPrefix)
    ensures GoogleDocMime != PdfMime && GoogleDocMime != DocxMime
    ensures GoogleSheetMime != PdfMime && GoogleSheetMime != DocxMime
    ensures !StartsWith(PdfMime, GoogleAppsPrefix) && !StartsWith(DocxMime, GoogleAppsPrefix)
    ensures !StartsWith(TextMime, GoogleAppsPrefix) && !StartsWith(CsvMime, GoogleAppsPrefix)
  {
    StartsWithConcat(GoogleAppsPrefix, ".document");
    StartsWithConcat(GoogleAppsPrefix, ".spreadsheet");
    assert GoogleDocMime[16] == 'g' && DocxMime[16] == 'o';
    assert GoogleSheetMime[16] == 'g';
    assert DocxMime[..|GoogleAppsPrefix|][16] != GoogleAppsPrefix[16];
  }

  /**
    No type the search admits is skipped: the two native types are exported,
    everything else is downloaded as stored; PDF and Word files go through
    their parsers and the rest is decoded as UTF-8.
   */
  lemma AllowedMimesAreRead(mime: string)
    requires mime in AllowedMimes
    ensures PlanRead(mime).Fetch?
    ensures PlanRead(mime).source.Export? <==> mime == GoogleDocMime || mime == GoogleSheetMime
    ensures PlanRead(mime).extraction == PdfPages <==> mime == PdfMime
    ensures PlanRead(mime).extraction == DocxParagraphs <==> mime == DocxMime
  {
    GoogleNativeTypes();
  }
}
