/** Attachment classification and ingestion of
    src/components/DeepSeekChatInterface.tsx: `detectKind`, the page loop of
    `extractPdfText`, `extractDocxText`, the per-file loop of
    `onFilesSelected` and the filter of `removeAttachment`. The decoders
    (pdf.js, mammoth, FileReader, `URL.createObjectURL`) are not modelled:
    what they produce for a file is part of the file's description. */
module Ingest {
  import opened Wrappers
  import opened Strings

  /** `SupportedKind`. */
  datatype Kind = Image | Pdf | Docx | Txt

  const PdfMime := "application/pdf"
  const DocxMime := "application/vnd.openxmlformats-officedocument.wordprocessingml.document"
  const TextMime := "text/plain"

  /** `detectKind(file)`: a classifier over the MIME type and the file name,
      checked in a fixed order. PDF is recognised by its MIME type only; the
      `.docx` and `.txt` extensions match in any letter case, because the
      source tests them on the lower-cased name. */
  function DetectKind(mime: string, name: string): (k: Option<Kind>)
    ensures k == Some(Image) <==> StartsWith(mime, "image/")
    ensures k == Some(Pdf) <==> mime == PdfMime
    ensures k == Some(Docx) <==>
      !StartsWith(mime, "image/") && mime != PdfMime &&
      (mime == DocxMime || EndsWithIgnoringCase(name, ".docx"))
    ensures k == Some(Txt) <==>
      !StartsWith(mime, "image/") && mime != PdfMime &&
      mime != DocxMime && !EndsWithIgnoringCase(name, ".docx") &&
      (mime == TextMime || EndsWithIgnoringCase(name, ".txt"))
  {
    LowerEndsWith(name, ".docx");
    LowerEndsWith(name, ".txt");
    assert !StartsWith(PdfMime, "image/") by { assert PdfMime[0] != "image/"[0]; }
    if StartsWith(mime, "image/") then Some(Image)
    else if mime == PdfMime then Some(Pdf)
    else if mime == DocxMime || EndsWith(ToLower(name), ".docx") then Some(Docx)
    else if mime == TextMime || EndsWith(ToLower(name), ".txt") then Some(Txt)
    else None
  }

  /** A name ending in `.docx` in any case is a DOCX file whatever its MIME
      type says, short of an image or PDF type (even `text/plain`). */
  lemma DocxByExtensionInAnyCase()
    ensures DetectKind("", "Bericht.DOCX") == Some(Docx)
    ensures DetectKind(TextMime, "notes.docx") == Some(Docx)
  {
    assert EndsWithIgnoringCase("Bericht.DOCX", ".docx");
    assert EndsWithIgnoringCase("notes.docx", ".docx");
    assert !StartsWith(TextMime, "image/") by { assert TextMime[0] != "image/"[0]; }
    assert TextMime != PdfMime by { assert TextMime[0] != PdfMime[0]; }
  }

  /** A `.txt` name in any case is a text file. */
  lemma TxtByExtensionInAnyCase()
    ensures DetectKind("", "Notes.TxT") == Some(Txt)
  {
    assert !SameIgnoringCase("Notes.TxT"[4], ".docx"[0]);
    assert EndsWithIgnoringCase("Notes.TxT", ".txt");
  }

  /** A `.pdf` name with an unknown MIME type is not supported. */
  lemma PdfNeedsMimeType()
    ensures DetectKind("", "scan.pdf") == None
  {
    assert !SameIgnoringCase("scan.pdf"[3], ".docx"[0]);
    assert !SameIgnoringCase("scan.pdf"[5], ".txt"[1]);
  }

  /** An image MIME type wins over the file name. */
  lemma ImageMimeWins()
    ensures DetectKind("image/png", "photo.txt") == Some(Image)
  {
    assert "image/png"[..6] == "image/";
  }

  // ---------------------------------------------------------------------
  // PDF text

  /** One entry of a page's `getTextContent().items`: an item whose `str` is
      a string, or any other item (which contributes `''`). */
  datatype TextItem = Str(s: string) | NoStr

  /** What reading page i produced: its items, or an exception. */
  datatype PageContent = PageFailed | Page(items: seq<TextItem>)

  /** What pdf.js made of the file: a document with its pages in order, or
      an exception while loading it. */
  datatype PdfDocument = LoadFailed | Loaded(pages: seq<PageContent>)

  function ItemString(item: TextItem): string {
    match item
    case Str(s) => s
    case NoStr => ""
  }

  /** The item strings kept on a page: those that do not trim to empty, in
      item order. */
  function KeptStrings(items: seq<TextItem>): (r: seq<string>)
    ensures |r| <= |items|
    ensures forall i | 0 <= i < |r| :: !IsBlank(r[i])
    ensures r == [] <==> forall i | 0 <= i < |items| :: IsBlank(ItemString(items[i]))
  {
    if |items| == 0 then []
    else
      var s := ItemString(items[0]);
      var rest := KeptStrings(items[1..]);
      var head := if Trim(s) != [] then [s] else [];
      AllBlankSplit(items);
      head + rest
  }

  /** Every item string is blank exactly when the first one is and every
      later one is. */
  lemma AllBlankSplit(items: seq<TextItem>)
    requires |items| > 0
    ensures (forall i | 0 <= i < |items| :: IsBlank(ItemString(items[i]))) <==>
            IsBlank(ItemString(items[0])) && forall i | 0 <= i < |items[1..]| :: IsBlank(ItemString(items[1..][i]))
  {
    assert forall i | 1 <= i < |items| :: items[i] == items[1..][i - 1];
  }

  /** Keeping strings works item by item, so the kept strings stay in item
      order. */
  lemma {:induction false} KeptStringsAppend(a: seq<TextItem>, b: seq<TextItem>)
    ensures KeptStrings(a + b) == KeptStrings(a) + KeptStrings(b)
  {
    if |a| > 0 {
      var s := ItemString(a[0]);
      var head := if Trim(s) != [] then [s] else [];
      KeptStringsFirst(a, b);
      KeptStringsAppend(a[1..], b);
      ConcatAssoc(head, KeptStrings(a[1..]), KeptStrings(b));
    } else {
      assert a + b == b;
    }
  }

  lemma KeptStringsFirst(a: seq<TextItem>, b: seq<TextItem>)
    requires |a| > 0
    ensures KeptStrings(a + b) ==
            (if Trim(ItemString(a[0])) != [] then [ItemString(a[0])] else []) + KeptStrings(a[1..] + b)
  {
    assert (a + b)[0] == a[0] && (a + b)[1..] == a[1..] + b;
  }

  /** One item contributes its string exactly when the string is not blank. */
  lemma KeptStringsOne(item: TextItem)
    ensures KeptStrings([item]) == if IsBlank(ItemString(item)) then [] else [ItemString(item)]
  {
    assert [item][1..] == [];
  }

  /** The text of one page: the kept strings joined with single spaces.
      Every kept string appears in it. */
  function PageText(items: seq<TextItem>): (r: string)
    ensures KeptStrings(items) == [] ==> r == ""
    ensures forall k | 0 <= k < |KeptStrings(items)| :: Contains(r, KeptStrings(items)[k])
  {
    JoinContainsEveryPart(" ", KeptStrings(items));
    Join(" ", KeptStrings(items))
  }

  /** The page text of two runs of items is their page texts joined by one
      space, when both are non-empty: the kept strings appear in item order,
      one space apart. */
  lemma PageTextAppend(a: seq<TextItem>, b: seq<TextItem>)
    ensures PageText(a + b) ==
            PageText(a) + (if PageText(a) == "" || PageText(b) == "" then "" else " ") + PageText(b)
  {
    KeptStringsAppend(a, b);
    JoinAppend(" ", KeptStrings(a), KeptStrings(b));
    KeptStringsNonEmpty(a);
    KeptStringsNonEmpty(b);
    JoinEmptyIff(" ", KeptStrings(a));
    JoinEmptyIff(" ", KeptStrings(b));
  }

  lemma KeptStringsNonEmpty(items: seq<TextItem>)
    ensures forall i | 0 <= i < |KeptStrings(items)| :: KeptStrings(items)[i] != []
  {
    var kept := KeptStrings(items);
    forall i | 0 <= i < |kept| ensures kept[i] != [] {
      assert !IsBlank(kept[i]);
    }
  }

  /** The page text of one item is its string, or nothing when it is blank. */
  lemma PageTextOne(item: TextItem)
    ensures PageText([item]) == if IsBlank(ItemString(item)) then "" else ItemString(item)
  {
    KeptStringsOne(item);
  }

  /** A page's text trims to empty exactly when every item string on it is
      blank. */
  lemma PageTextBlankIff(items: seq<TextItem>)
    ensures Trim(PageText(items)) == [] <==>
            forall i | 0 <= i < |items| :: IsBlank(ItemString(items[i]))
  {
    var kept := KeptStrings(items);
    if kept != [] {
      var t := PageText(items);
      var k :| 0 <= k < |kept[0]| && !IsWhitespace(kept[0][k]);
      assert t[..|kept[0]|][k] == t[k];
    }
  }

  /** What page i (1-based) with text `text` adds to the document text: a
      marker line, preceded by a blank line for every page after the first,
      even when no earlier page added anything. */
  function PageBlock(i: nat, text: string): string {
    PageMarker(i) + text
  }

  /** The marker line of page i, with its leading blank line after page 1. */
  function PageMarker(i: nat): (r: string)
    ensures StartsWith(r, "\n\n") <==> i > 1
    ensures OccursAt(r, "=== Seite ", if i > 1 then 2 else 0)
    ensures OccursAt(r, NatToString(i), if i > 1 then 12 else 10)
    ensures EndsWith(r, " ===\n")
    ensures |r| == (if i > 1 then 12 else 10) + |NatToString(i)| + 5
  {
    var head := if i > 1 then "\n\n=== Seite " else "=== Seite ";
    var marker := head + NatToString(i) + " ===\n";
    OccursInConcat(head, NatToString(i), " ===\n");
    var at := if i > 1 then 2 else 0;
    assert marker[..|head|] == head;
    assert head[at..] == "=== Seite ";
    assert marker[at..at + 10] == head[at..];
    assert marker[|head| + |NatToString(i)|..] == " ===\n";
    assert marker[1] == if i > 1 then '\n' else '=';
    marker
  }

  /** What page i adds: nothing when it failed or its text trims to empty. */
  function PageContribution(i: nat, page: PageContent): (r: string)
    ensures r == "" <==> page.PageFailed? || Trim(PageText(page.items)) == []
    ensures page.Page? && r != "" ==> StartsWith(r, PageMarker(i)) && EndsWith(r, PageText(page.items))
    ensures page.Page? && r != "" ==> |r| == |PageMarker(i)| + |PageText(page.items)|
  {
    match page
    case PageFailed => ""
    case Page(items) =>
      var text := PageText(items);
      if Trim(text) == [] then ""
      else
        assert (PageMarker(i) + text)[..|PageMarker(i)|] == PageMarker(i);
        assert (PageMarker(i) + text)[|PageMarker(i)| ..] == text;
        PageBlock(i, text)
  }

  /** What each page adds, in page order. */
  function Contributions(pages: seq<PageContent>): (c: seq<string>)
    ensures |c| == |pages|
  {
    seq(|pages|, i requires 0 <= i < |pages| => PageContribution(i + 1, pages[i]))
  }

  /** The concatenation of `parts` in order. */
  function Concat(parts: seq<string>): string {
    if |parts| == 0 then "" else Concat(parts[..|parts| - 1]) + parts[|parts| - 1]
  }

  /** The document text after the first n pages, in ascending page order. */
  function JoinPages(pages: seq<PageContent>, n: nat): string
    requires n <= |pages|
  {
    Concat(Contributions(pages)[..n])
  }

  /** Handling page n appends what page n adds. */
  lemma JoinPagesStep(pages: seq<PageContent>, n: nat)
    requires 1 <= n <= |pages|
    ensures JoinPages(pages, n) == JoinPages(pages, n - 1) + PageContribution(n, pages[n - 1])
  {
    var c := Contributions(pages);
    assert c[..n][..n - 1] == c[..n - 1];
  }

  predicate AllPagesRead(pages: seq<PageContent>) {
    forall i | 0 <= i < |pages| :: pages[i].Page?
  }

  /** The sentence that stands in for the text of a PDF that could not be read. */
  function PdfFallback(name: string): string {
    "PDF-Datei \"" + name + "\" wurde hochgeladen, aber der Text konnte nicht extrahiert werden. " +
    "Bitte beschreiben Sie den Inhalt oder stellen Sie Ihre Frage zum PDF."
  }

  /** `extractPdfText(file)`: the joined page text, or the fallback sentence
      when anything in the extraction throws. */
  function PdfText(name: string, doc: PdfDocument): (r: string)
    ensures doc.LoadFailed? || !AllPagesRead(doc.pages) ==> r == PdfFallback(name)
    ensures doc.Loaded? && AllPagesRead(doc.pages) ==> r == JoinPages(doc.pages, |doc.pages|)
  {
    match doc
    case LoadFailed => PdfFallback(name)
    case Loaded(pages) => if AllPagesRead(pages) then JoinPages(pages, |pages|) else PdfFallback(name)
  }

  /** One more page read without an exception. */
  lemma AllPagesReadExtend(pages: seq<PageContent>, i: nat)
    requires 1 <= i <= |pages| && AllPagesRead(pages[..i - 1]) && pages[i - 1].Page?
    ensures AllPagesRead(pages[..i])
  {
    assert pages[..i] == pages[..i - 1] + [pages[i - 1]];
  }

  /** The loop of `extractPdfText`, accumulating `text` page by page. */
  method ExtractPdfText(name: string, doc: PdfDocument) returns (text: string)
    ensures text == PdfText(name, doc)
  {
    if doc.LoadFailed? {
      return PdfFallback(name);
    }
    var pages := doc.pages;
    text := "";
    for i := 1 to |pages| + 1
      invariant text == JoinPages(pages, i - 1)
      invariant AllPagesRead(pages[..i - 1])
    {
      JoinPagesStep(pages, i);
      match pages[i - 1] {
        case PageFailed =>
          PdfFailureFallback(name, doc, i - 1);
          return PdfFallback(name);
        case Page(items) =>
          AllPagesReadExtend(pages, i);
          var pageText := PageText(items);
          assert PageContribution(i, pages[i - 1]) == if Trim(pageText) != [] then PageBlock(i, pageText) else "";
          if Trim(pageText) != [] {
            text := text + PageBlock(i, pageText);
          }
      }
    }
    assert pages[..|pages|] == pages;
  }

  /** Concatenation only appends: the concatenation of the first m parts is
      a prefix of the concatenation of the first n >= m parts. */
  lemma {:induction false} ConcatPrefix(parts: seq<string>, m: nat, n: nat)
    requires m <= n <= |parts|
    ensures StartsWith(Concat(parts[..n]), Concat(parts[..m]))
    decreases n
  {
    if m < n {
      ConcatPrefix(parts, m, n - 1);
      assert parts[..n][..n - 1] == parts[..n - 1];
      var a := Concat(parts[..n - 1]);
      var b := Concat(parts[..m]);
      assert Concat(parts[..n]) == a + parts[n - 1];
      assert Concat(parts[..n])[..|b|] == a[..|b|];
    }
  }

  /** Pages are appended, never rewritten: the text after m pages is a
      prefix of the text after n >= m pages. */
  lemma JoinPagesPrefix(pages: seq<PageContent>, m: nat, n: nat)
    requires m <= n <= |pages|
    ensures StartsWith(JoinPages(pages, n), JoinPages(pages, m))
  {
    ConcatPrefix(Contributions(pages), m, n);
  }

  /** Part k sits in the concatenation right after the parts before it. */
  lemma ConcatPartAt(parts: seq<string>, k: nat, n: nat)
    requires k < n <= |parts|
    ensures OccursAt(Concat(parts[..n]), parts[k], |Concat(parts[..k])|)
  {
    ConcatPrefix(parts, k + 1, n);
    assert parts[..k + 1][..k] == parts[..k];
    var whole := Concat(parts[..n]);
    var upto := Concat(parts[..k + 1]);
    var before := |Concat(parts[..k])|;
    assert upto == Concat(parts[..k]) + parts[k];
    assert whole[before..before + |parts[k]|] == upto[before..] by {
      assert whole[..|upto|] == upto;
    }
  }

  /** Every page with text appears in the document text as its block, right
      after the text of the pages before it. */
  lemma PageBlockAppears(pages: seq<PageContent>, i: nat)
    requires 1 <= i <= |pages| && pages[i - 1].Page?
    requires Trim(PageText(pages[i - 1].items)) != []
    ensures OccursAt(JoinPages(pages, |pages|), PageBlock(i, PageText(pages[i - 1].items)),
                     |JoinPages(pages, i - 1)|)
  {
    var c := Contributions(pages);
    ConcatPartAt(c, i - 1, |pages|);
    assert c[i - 1] == PageBlock(i, PageText(pages[i - 1].items));
  }

  /** A concatenation is empty exactly when every part is. */
  lemma {:induction false} ConcatEmptyIff(parts: seq<string>, n: nat)
    requires n <= |parts|
    ensures Concat(parts[..n]) == [] <==> forall k | 0 <= k < n :: parts[k] == []
  {
    if n > 0 {
      ConcatEmptyIff(parts, n - 1);
      assert parts[..n][..n - 1] == parts[..n - 1];
    }
  }

  /** The text of the first n pages is empty exactly when none of them adds
      anything. */
  lemma JoinPagesEmptyIff(pages: seq<PageContent>, n: nat)
    requires n <= |pages|
    ensures JoinPages(pages, n) == [] <==> forall k | 0 <= k < n :: Contributions(pages)[k] == []
  {
    ConcatEmptyIff(Contributions(pages), n);
  }

  /** When the first page with text is page i > 1, the document text starts
      with a blank line before its marker, although nothing precedes it. */
  lemma FirstTextOnLaterPage(pages: seq<PageContent>, i: nat)
    requires 1 < i <= |pages| && pages[i - 1].Page?
    requires forall k | 0 <= k < i - 1 :: Contributions(pages)[k] == []
    requires Trim(PageText(pages[i - 1].items)) != []
    ensures JoinPages(pages, i) ==
            "\n\n=== Seite " + NatToString(i) + " ===\n" + PageText(pages[i - 1].items)
  {
    JoinPagesEmptyIff(pages, i - 1);
    JoinPagesStep(pages, i);
    assert JoinPages(pages, i - 1) == [];
    assert PageContribution(i, pages[i - 1]) == PageBlock(i, PageText(pages[i - 1].items));
    assert PageMarker(i) == "\n\n=== Seite " + NatToString(i) + " ===\n";
  }

  /** A PDF that fails to load, or whose page i fails to read, yields the
      fallback sentence, which names the file. */
  lemma PdfFailureFallback(name: string, doc: PdfDocument, i: nat)
    requires doc.LoadFailed? || (i < |doc.pages| && doc.pages[i].PageFailed?)
    ensures PdfText(name, doc) == PdfFallback(name)
    ensures OccursAt(PdfFallback(name), name, 11)
  {
    assert PdfFallback(name)[11..11 + |name|] == name;
  }

  // ---------------------------------------------------------------------
  // DOCX text

  /** What mammoth made of the file: an exception, or a result whose
      `value` may be missing. */
  datatype DocxOutcome = DocxFailed | DocxDecoded(value: Option<string>)

  /** `extractDocxText(file)`: the raw text, or `""` when decoding failed or
      gave nothing. */
  function DocxText(outcome: DocxOutcome): (r: string)
    ensures outcome.DocxFailed? ==> r == ""
    ensures outcome.DocxDecoded? && outcome.value.Some? ==> r == outcome.value.value
    ensures outcome.DocxDecoded? && outcome.value.None? ==> r == ""
  {
    match outcome
    case DocxFailed => ""
    case DocxDecoded(v) => if v.Some? then v.value else ""
  }

  // ---------------------------------------------------------------------
  // Files and attachments

  /** A selected file with everything the browser and the decoders would
      produce for it. */
  datatype PickedFile = PickedFile(
    name: string,
    mime: string,
    size: nat,
    now: nat,                  // Date.now() when the file is handled
    objectUrl: string,         // what URL.createObjectURL returns
    dataUrl: Option<string>,   // FileReader.readAsDataURL; None when it fails
    pdf: PdfDocument,          // what pdf.js reads from the bytes
    docx: DocxOutcome,         // what mammoth reads from the bytes
    plain: Option<string>)     // file.text(); None when it fails

  /** `AttachmentItem`; the file is represented by its name. */
  datatype Attachment = Attachment(
    id: string,
    name: string,
    kind: Kind,
    previewUrl: Option<string>,
    dataUrl: Option<string>,
    extractedText: Option<string>)

  /** Image attachments carry a preview and a data URL and no text; the
      others carry extracted text only. */
  predicate WellFormed(a: Attachment) {
    if a.kind == Image then a.previewUrl.Some? && a.dataUrl.Some? && a.extractedText.None?
    else a.previewUrl.None? && a.dataUrl.None? && a.extractedText.Some?
  }

  /** `${file.name}-${file.size}-${Date.now()}`. */
  function AttachmentId(f: PickedFile): (r: string)
    ensures StartsWith(r, f.name + "-")
    ensures EndsWith(r, "-" + NatToString(f.now))
  {
    assert f.name + "-" + NatToString(f.size) + "-" + NatToString(f.now) ==
           (f.name + "-") + (NatToString(f.size) + "-" + NatToString(f.now));
    assert f.name + "-" + NatToString(f.size) + "-" + NatToString(f.now) ==
           (f.name + "-" + NatToString(f.size)) + ("-" + NatToString(f.now));
    f.name + "-" + NatToString(f.size) + "-" + NatToString(f.now)
  }

  /** What one iteration of the `onFilesSelected` loop adds for a file:
      nothing when the kind is unsupported or reading the file throws. */
  function IngestFile(f: PickedFile): (r: Option<Attachment>)
    ensures r.Some? ==> WellFormed(r.value) && DetectKind(f.mime, f.name) == Some(r.value.kind) &&
                        r.value.name == f.name && r.value.id == AttachmentId(f)
    ensures r.None? <==>
      DetectKind(f.mime, f.name) == None ||
      (DetectKind(f.mime, f.name) == Some(Image) && f.dataUrl.None?) ||
      (DetectKind(f.mime, f.name) == Some(Txt) && f.plain.None?)
    ensures r.Some? && r.value.kind == Pdf ==> r.value.extractedText == Some(PdfText(f.name, f.pdf))
    ensures r.Some? && r.value.kind == Docx ==> r.value.extractedText == Some(DocxText(f.docx))
    ensures r.Some? && r.value.kind == Txt ==> r.value.extractedText == f.plain
    ensures r.Some? && r.value.kind == Image ==> r.value.previewUrl == Some(f.objectUrl) && r.value.dataUrl == f.dataUrl
  {
    var id := AttachmentId(f);
    match DetectKind(f.mime, f.name)
    case None => None
    case Some(Image) =>
      if f.dataUrl.Some? then Some(Attachment(id, f.name, Image, Some(f.objectUrl), f.dataUrl, None)) else None
    case Some(Pdf) => Some(Attachment(id, f.name, Pdf, None, None, Some(PdfText(f.name, f.pdf))))
    case Some(Docx) => Some(Attachment(id, f.name, Docx, None, None, Some(DocxText(f.docx))))
    case Some(Txt) =>
      if f.plain.Some? then Some(Attachment(id, f.name, Txt, None, None, f.plain)) else None
  }

  function OptionToSeq<T>(o: Option<T>): seq<T> {
    if o.Some? then [o.value] else []
  }

  /** The items the loop collects for a selection, in selection order. */
  function IngestAll(files: seq<PickedFile>): (r: seq<Attachment>)
    ensures |r| <= |files|
    ensures forall a | a in r :: WellFormed(a)
    // a single file gives exactly the item it is ingested as, if any
    ensures |files| == 1 ==> r == OptionToSeq(IngestFile(files[0]))
  {
    if |files| == 0 then []
    else IngestAll(files[..|files| - 1]) + OptionToSeq(IngestFile(files[|files| - 1]))
  }

  /** Ingesting two selections one after the other is ingesting them
      together: items keep selection order. */
  lemma {:induction false} IngestAllAppend(a: seq<PickedFile>, b: seq<PickedFile>)
    ensures IngestAll(a + b) == IngestAll(a) + IngestAll(b)
    decreases |b|
  {
    if |b| == 0 {
      assert a + b == a;
    } else {
      var b' := b[..|b| - 1];
      assert (a + b)[..|a + b| - 1] == a + b';
      IngestAllAppend(a, b');
    }
  }

  /** An unsupported file is skipped: the result is as if it had not been
      selected. */
  lemma IngestAllSkipsUnsupported(files: seq<PickedFile>, k: nat)
    requires k < |files| && DetectKind(files[k].mime, files[k].name) == None
    ensures IngestAll(files) == IngestAll(files[..k] + files[k + 1..])
  {
    var before, after := files[..k], files[k + 1..];
    var withIt := before + [files[k]];
    SplitAround(files, k);
    calc {
      IngestAll(files);
      { IngestAllAppend(withIt, after); }
      IngestAll(withIt) + IngestAll(after);
      { IngestAllSkipsLast(before, files[k]); }
      IngestAll(before) + IngestAll(after);
      { IngestAllAppend(before, after); }
      IngestAll(before + after);
    }
  }

  lemma SplitAround<T>(s: seq<T>, k: nat)
    requires k < |s|
    ensures s == (s[..k] + [s[k]]) + s[k + 1..]
  {
  }

  lemma IngestAllSkipsLast(before: seq<PickedFile>, f: PickedFile)
    requires DetectKind(f.mime, f.name) == None
    ensures IngestAll(before + [f]) == IngestAll(before)
  {
    assert (before + [f])[..|before|] == before;
  }

  /** The `for (const file of files)` loop of `onFilesSelected`, collecting
      `newItems`. */
  method ProcessFiles(files: seq<PickedFile>) returns (newItems: seq<Attachment>)
    ensures newItems == IngestAll(files)
  {
    newItems := [];
    for i := 0 to |files|
      invariant newItems == IngestAll(files[..i])
    {
      assert files[..i + 1][..i] == files[..i];
      var file := files[i];
      ghost var step := IngestFile(file);
      assert IngestAll(files[..i + 1]) == newItems + OptionToSeq(step);
      var kind := DetectKind(file.mime, file.name);
      if kind.None? {
        continue;
      }
      var id := AttachmentId(file);
      assert step.Some? ==> step.value.id == id;
      match kind.value {
        case Image =>
          if file.dataUrl.Some? {
            newItems := newItems + [Attachment(id, file.name, Image, Some(file.objectUrl), file.dataUrl, None)];
          }
        case Pdf =>
          var extractedText := ExtractPdfText(file.name, file.pdf);
          newItems := newItems + [Attachment(id, file.name, Pdf, None, None, Some(extractedText))];
        case Docx =>
          var extractedText := DocxText(file.docx);
          newItems := newItems + [Attachment(id, file.name, Docx, None, None, Some(extractedText))];
        case Txt =>
          if file.plain.Some? {
            newItems := newItems + [Attachment(id, file.name, Txt, None, None, file.plain)];
          }
      }
    }
    assert files[..|files|] == files;
  }

  // ---------------------------------------------------------------------
  // Removing an attachment

  /** `prev.filter((a) => a.id !== id)`. */
  function RemoveById(atts: seq<Attachment>, id: string): (r: seq<Attachment>)
    ensures |r| <= |atts|
    ensures forall a :: a in r <==> a in atts && a.id != id
  {
    if |atts| == 0 then []
    else (if atts[0].id != id then [atts[0]] else []) + RemoveById(atts[1..], id)
  }

  /** The filter works element by element, so it keeps the survivors in
      their original order. */
  lemma {:induction false} RemoveByIdAppend(a: seq<Attachment>, b: seq<Attachment>, id: string)
    ensures RemoveById(a + b, id) == RemoveById(a, id) + RemoveById(b, id)
  {
    if |a| > 0 {
      var head := if a[0].id != id then [a[0]] else [];
      RemoveByIdFirst(a, b, id);
      RemoveByIdAppend(a[1..], b, id);
      ConcatAssoc(head, RemoveById(a[1..], id), RemoveById(b, id));
    } else {
      assert a + b == b;
    }
  }

  /** The first element of `a` is filtered ahead of the rest of `a + b`. */
  lemma RemoveByIdFirst(a: seq<Attachment>, b: seq<Attachment>, id: string)
    requires |a| > 0
    ensures RemoveById(a + b, id) == (if a[0].id != id then [a[0]] else []) + RemoveById(a[1..] + b, id)
  {
    assert (a + b)[0] == a[0] && (a + b)[1..] == a[1..] + b;
  }

  lemma ConcatAssoc<T>(x: seq<T>, y: seq<T>, z: seq<T>)
    ensures x + (y + z) == (x + y) + z
  {
  }

  /** Removing an id that no attachment has changes nothing; in particular
      removing the same id twice is removing it once. */
  lemma {:induction false} RemoveByIdAbsent(atts: seq<Attachment>, id: string)
    requires forall i | 0 <= i < |atts| :: atts[i].id != id
    ensures RemoveById(atts, id) == atts
  {
    if |atts| > 0 {
      RemoveByIdAbsent(atts[1..], id);
    }
  }
}
