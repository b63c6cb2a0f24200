/** The MIME types the program knows by name. */
module Mimes {

  /*
    The longer names are spelled in pieces, so that facts about their
    characters can be checked piece by piece.
   */
  const Application: string := "application/"

  /** Every native Drive type (documents, sheets, slides, forms, ...) starts with this. */
  const GoogleAppsPrefix: string := Application + "vnd.google-apps"
  const GoogleDocMime: string := GoogleAppsPrefix + ".document"
  const GoogleSheetMime: string := GoogleAppsPrefix + ".spreadsheet"
  const PdfMime: string := Application + "pdf"
  const DocxMime: string := Application + "vnd.openxmlformats-" + "officedocument." + "wordprocessingml." + "document"
  const TextMime: string := "text/plain"
  const CsvMime: string := "text/csv"

  /** The document types a search may return, in the order the filter lists them. */
  const AllowedMimes: seq<string> := [PdfMime, DocxMime, TextMime, CsvMime, GoogleDocMime, GoogleSheetMime]

  /** No allowed type contains a single quote, so each sits safely inside a quoted literal. */
  lemma AllowedMimesQuoteFree()
    ensures forall i :: 0 <= i < |AllowedMimes| ==> '\'' !in AllowedMimes[i]
  {
    PrefixesQuoteFree();
    SuffixesQuoteFree();
  }

  lemma PrefixesQuoteFree()
    ensures '\'' !in Application && '\'' !in GoogleAppsPrefix
    ensures '\'' !in TextMime && '\'' !in CsvMime
  {
    assert '\'' !in "vnd.google-apps";
  }

  lemma SuffixesQuoteFree()
    ensures '\'' !in ".document" && '\'' !in ".spreadsheet" && '\'' !in "pdf"
    ensures '\'' !in "vnd.openxmlformats-" + "officedocument." + "wordprocessingml." + "document"
  {
    assert '\'' !in "vnd.openxmlformats-";
    assert '\'' !in "officedocument.";
    assert '\'' !in "wordprocessingml.";
    assert '\'' !in "document";
  }
}
