/**
 * Document-text extraction (utils/file_parser.py). The upload's file name picks a reader by its
 * lower-cased suffix; each reader turns what a document library sees in the buffer into one text.
 * The libraries themselves are not modelled: what PyPDF2, python-docx, the zip reader and PIL would
 * read from the buffer is an input (`Buffer`), and a library that cannot read it fails.
 */
module FileParser {
  import opened Wrappers
  import opened PyText
  import opened Errors

  // ----- What the document libraries read from a buffer -----

  /** A PDF page annotation: an unresolved indirect reference, or a dictionary that holds a URI when it
    * has an `/A` action with a `/URI` entry. */
  datatype Annotation = Indirect | Dict(uri: Option<string>)

  /** A PDF page: what `extract_text` returns (`None` when nothing) and its annotations. */
  datatype PdfPage = PdfPage(text: Option<string>, annotations: seq<Annotation>)

  datatype Section = Section(header: seq<string>, footer: seq<string>)

  /** A DOCX document: the body paragraphs' texts and the sections' header and footer paragraphs. */
  datatype DocxDocument = DocxDocument(paragraphs: seq<string>, sections: seq<Section>)

  /** A member of the DOCX zip archive, with its content decoded as UTF-8. */
  datatype ArchiveEntry = ArchiveEntry(name: string, content: string)

  /** What PIL reports about an image; the format is `None` when PIL cannot name it. */
  datatype ImageInfo = ImageInfo(format: Option<string>, width: int, height: int, mode: string)

  datatype Buffer = Buffer(
    pdf: Result<seq<PdfPage>, Error>,
    docx: Result<DocxDocument, Error>,
    archive: Result<seq<ArchiveEntry>, Error>,
    image: Result<ImageInfo, Error>)

  // ----- PDF (file_parser.py:40-68) -----

  /** `page.extract_text() or ""` */
  function PageText(p: PdfPage): string
  {
    if p.text.Some? then p.text.value else ""
  }

  /** The page texts, concatenated in page order. */
  function PagesText(pages: seq<PdfPage>): string
  {
    if pages == [] then "" else PagesText(pages[..|pages| - 1]) + PageText(pages[|pages| - 1])
  }

  /** The URIs of the dictionary annotations that carry one, in order; indirect references are skipped. */
  function AnnotationLinks(annotations: seq<Annotation>): seq<string>
  {
    if annotations == [] then []
    else
      var last := annotations[|annotations| - 1];
      AnnotationLinks(annotations[..|annotations| - 1]) + (if last.Dict? && last.uri.Some? then [last.uri.value] else [])
  }

  function PageLinks(pages: seq<PdfPage>): seq<string>
  {
    if pages == [] then [] else PageLinks(pages[..|pages| - 1]) + AnnotationLinks(pages[|pages| - 1].annotations)
  }

  /** The PDF reader's output: the stripped page text, a newline, then one link per line. */
  function PdfText(pages: seq<PdfPage>): string
  {
    Strip(PagesText(pages)) + "\n" + Join("\n", PageLinks(pages))
  }

  /** `parse_pdf` once the reader has opened the buffer. */
  method ParsePdf(pages: seq<PdfPage>) returns (text: string)
    ensures text == PdfText(pages)
  {
    var body := "";
    var links: seq<string> := [];
    for i := 0 to |pages|
      invariant body == PagesText(pages[..i])
      invariant links == PageLinks(pages[..i])
    {
      var page := pages[i];
      var pageText := if page.text.Some? then page.text.value else "";
      body := body + pageText;
      for j := 0 to |page.annotations|
        invariant links == PageLinks(pages[..i]) + AnnotationLinks(page.annotations[..j])
      {
        var annotation := page.annotations[j];
        if annotation.Dict? && annotation.uri.Some? {
          links := links + [annotation.uri.value];
        }
        assert page.annotations[..j + 1][..j] == page.annotations[..j];
      }
      assert page.annotations[..|page.annotations|] == page.annotations;
      assert pages[..i + 1][..i] == pages[..i];
    }
    assert pages[..|pages|] == pages;
    text := Strip(body) + "\n" + Join("\n", links);
  }

  /** A URI is listed exactly when some page has a dictionary annotation carrying it. */
  lemma {:induction false} PageLinksMember(pages: seq<PdfPage>, u: string)
    ensures u in PageLinks(pages) <==>
      exists i, j :: 0 <= i < |pages| && 0 <= j < |pages[i].annotations| && pages[i].annotations[j] == Dict(Some(u))
  {
    if u in PageLinks(pages) {
      PageLinksSound(pages, u);
    }
    if exists i, j :: 0 <= i < |pages| && 0 <= j < |pages[i].annotations| && pages[i].annotations[j] == Dict(Some(u)) {
      var i, j :| 0 <= i < |pages| && 0 <= j < |pages[i].annotations| && pages[i].annotations[j] == Dict(Some(u));
      PageLinksComplete(pages, u, i, j);
    }
  }

  lemma {:induction false} PageLinksSound(pages: seq<PdfPage>, u: string)
    requires u in PageLinks(pages)
    ensures exists i, j :: 0 <= i < |pages| && 0 <= j < |pages[i].annotations| && pages[i].annotations[j] == Dict(Some(u))
  {
    var n := |pages| - 1;
    var init, annotations := pages[..n], pages[n].annotations;
    assert PageLinks(pages) == PageLinks(init) + AnnotationLinks(annotations);
    if u in PageLinks(init) {
      PageLinksSound(init, u);
      var i, j :| 0 <= i < |init| && 0 <= j < |init[i].annotations| && init[i].annotations[j] == Dict(Some(u));
      assert init[i] == pages[i];
    } else {
      AnnotationLinksMember(annotations, u);
      var j :| 0 <= j < |annotations| && annotations[j] == Dict(Some(u));
      assert pages[n].annotations[j] == Dict(Some(u));
    }
  }

  lemma {:induction false} PageLinksComplete(pages: seq<PdfPage>, u: string, i: int, j: int)
    requires 0 <= i < |pages| && 0 <= j < |pages[i].annotations| && pages[i].annotations[j] == Dict(Some(u))
    ensures u in PageLinks(pages)
  {
    var n := |pages| - 1;
    var init, annotations := pages[..n], pages[n].annotations;
    assert PageLinks(pages) == PageLinks(init) + AnnotationLinks(annotations);
    if i < n {
      assert init[i] == pages[i];
      PageLinksComplete(init, u, i, j);
    } else {
      AnnotationLinksMember(annotations, u);
    }
  }

  lemma {:induction false} AnnotationLinksMember(annotations: seq<Annotation>, u: string)
    ensures u in AnnotationLinks(annotations) <==> exists j :: 0 <= j < |annotations| && annotations[j] == Dict(Some(u))
  {
    if annotations != [] {
      var n := |annotations| - 1;
      AnnotationLinksMember(annotations[..n], u);
      assert forall j :: 0 <= j < n ==> annotations[..n][j] == annotations[j];
    }
  }

  /** When the links hold no newline, the last lines of the output are exactly the links. */
  lemma PdfLinksReadBack(pages: seq<PdfPage>)
    requires |PageLinks(pages)| >= 1
    requires forall k :: 0 <= k < |PageLinks(pages)| ==> '\n' !in PageLinks(pages)[k]
    ensures Split(PdfText(pages), '\n') == Split(Strip(PagesText(pages)), '\n') + PageLinks(pages)
  {
    LinksAfter(Strip(PagesText(pages)), PageLinks(pages));
  }

  lemma LinksAfter(body: string, links: seq<string>)
    requires |links| >= 1
    requires forall k :: 0 <= k < |links| ==> '\n' !in links[k]
    ensures Split(body + "\n" + Join("\n", links), '\n') == Split(body, '\n') + links
  {
    assert "\n" == ['\n'];
    SplitAppend(body, '\n', Join("\n", links));
    SplitJoin(links, '\n');
  }

  /** Links between two texts, each on its own line, split back out between the two texts' lines. */
  lemma LinksBetween(body: string, links: seq<string>, tail: string)
    requires |links| >= 1
    requires forall k :: 0 <= k < |links| ==> '\n' !in links[k]
    ensures Split(body + "\n" + Join("\n", links) + "\n" + tail, '\n') == Split(body, '\n') + links + Split(tail, '\n')
  {
    var joined := Join("\n", links);
    assert "\n" == ['\n'];
    assert body + "\n" + joined + "\n" + tail == body + ['\n'] + (joined + ['\n'] + tail);
    SplitAppend(body, '\n', joined + ['\n'] + tail);
    SplitAppend(joined, '\n', tail);
    SplitJoin(links, '\n');
  }

  // ----- DOCX (file_parser.py:70-140) -----

  /** `text += p + '\n'` for each paragraph, in order. */
  function Lines(ps: seq<string>): string
  {
    if ps == [] then "" else Lines(ps[..|ps| - 1]) + ps[|ps| - 1] + "\n"
  }

  /** The header paragraphs and then the footer paragraphs of each section, a line each. */
  function SectionLines(sections: seq<Section>): string
  {
    if sections == [] then ""
    else
      var last := sections[|sections| - 1];
      SectionLines(sections[..|sections| - 1]) + Lines(last.header) + Lines(last.footer)
  }

  function HeaderFooterText(sections: seq<Section>): string
  {
    Strip(SectionLines(sections))
  }

  /** `extract_header_footer`. */
  method ExtractHeaderFooter(doc: DocxDocument) returns (text: string)
    ensures text == HeaderFooterText(doc.sections)
  {
    var sections := doc.sections;
    var acc := "";
    for i := 0 to |sections|
      invariant acc == SectionLines(sections[..i])
    {
      var header := sections[i].header;
      var before := acc;
      for j := 0 to |header|
        invariant acc == before + Lines(header[..j])
      {
        LinesStep(before, header, j);
        acc := acc + header[j] + "\n";
      }
      assert header[..|header|] == header;
      var footer := sections[i].footer;
      var middle := acc;
      for j := 0 to |footer|
        invariant acc == middle + Lines(footer[..j])
      {
        LinesStep(middle, footer, j);
        acc := acc + footer[j] + "\n";
      }
      assert footer[..|footer|] == footer;
      SectionLinesStep(sections, i);
    }
    assert sections[..|sections|] == sections;
    text := Strip(acc);
  }

  /** One more paragraph read appends its line. */
  lemma LinesStep(before: string, ps: seq<string>, j: nat)
    requires j < |ps|
    ensures before + Lines(ps[..j]) + ps[j] + "\n" == before + Lines(ps[..j + 1])
  {
    assert ps[..j + 1][..j] == ps[..j];
  }

  /** One more section read appends its header lines and then its footer lines. */
  lemma SectionLinesStep(sections: seq<Section>, i: nat)
    requires i < |sections|
    ensures SectionLines(sections[..i + 1])
         == SectionLines(sections[..i]) + Lines(sections[i].header) + Lines(sections[i].footer)
  {
    assert sections[..i + 1][..i] == sections[..i];
  }

  lemma {:induction false} LinesConcat(a: seq<string>, b: seq<string>)
    ensures Lines(a + b) == Lines(a) + Lines(b)
    decreases |b|
  {
    if b == [] {
      assert a + b == a;
    } else {
      var n := |b| - 1;
      LinesConcat(a, b[..n]);
      assert (a + b)[..|a + b| - 1] == a + b[..n];
    }
  }

  /** Every paragraph of every header and footer, in the order they are read. */
  function SectionParagraphs(sections: seq<Section>): seq<string>
  {
    if sections == [] then []
    else
      var last := sections[|sections| - 1];
      SectionParagraphs(sections[..|sections| - 1]) + last.header + last.footer
  }

  /** The header and footer text is the paragraphs read section by section, header before footer, a line each. */
  lemma {:induction false} SectionLinesFlatten(sections: seq<Section>)
    ensures SectionLines(sections) == Lines(SectionParagraphs(sections))
  {
    if sections != [] {
      var n := |sections| - 1;
      SectionLinesFlatten(sections[..n]);
      LinesConcat(SectionParagraphs(sections[..n]), sections[n].header);
      LinesConcat(SectionParagraphs(sections[..n]) + sections[n].header, sections[n].footer);
    }
  }

  /** The line-per-paragraph text is the newline join with one final newline. */
  lemma {:induction false} LinesJoin(ps: seq<string>)
    requires |ps| >= 1
    ensures Lines(ps) == Join("\n", ps) + "\n"
  {
    if |ps| > 1 {
      LinesJoin(ps[..|ps| - 1]);
      JoinSnoc(ps[..|ps| - 1], ps[|ps| - 1], "\n");
      assert ps[..|ps| - 1] + [ps[|ps| - 1]] == ps;
    }
  }

  lemma {:induction false} JoinSnoc(xs: seq<string>, x: string, sep: string)
    requires |xs| >= 1
    ensures Join(sep, xs + [x]) == Join(sep, xs) + sep + x
  {
    if |xs| > 1 {
      JoinSnoc(xs[1..], x, sep);
      assert (xs + [x])[1..] == xs[1..] + [x];
    } else {
      assert (xs + [x])[1..] == [x];
    }
  }

  // ----- DOCX hyperlinks (file_parser.py:97-120) -----

  /** The text `href="` that opens a capture of `href="([^"]+)"`. */
  const HrefOpen: string := "href=\""

  /** The index of the first double quote, if any. */
  function FirstQuote(s: string): (q: Option<nat>)
    ensures q.Some? ==> q.value < |s| && s[q.value] == '"' && '"' !in s[..q.value]
    ensures q.None? ==> '"' !in s
  {
    if s == [] then None
    else if s[0] == '"' then Some(0)
    else
      match FirstQuote(s[1..])
      case None => None
      case Some(k) => assert s[..k + 1] == [s[0]] + s[1..][..k]; Some(k + 1)
  }

  /** `re.findall(r'href="([^"]+)"', content)`: scanning left to right, an `href="` followed by at least one
    * character before the next quote is a match, and scanning resumes after that quote. */
  function Hrefs(content: string): (links: seq<string>)
    ensures forall k :: 0 <= k < |links| ==> |links[k]| > 0 && '"' !in links[k]
    decreases |content|
  {
    if |content| < |HrefOpen| then []
    else
      var after := content[|HrefOpen|..];
      var q := FirstQuote(after);
      if content[..|HrefOpen|] == HrefOpen && q.Some? && q.value > 0 then [after[..q.value]] + Hrefs(after[q.value + 1..])
      else Hrefs(content[1..])
  }

  /** A well-formed `href` is captured, and the scan goes on behind it. */
  lemma HrefsTag(u: string, rest: string)
    requires |u| > 0 && '"' !in u
    ensures Hrefs(HrefOpen + u + "\"" + rest) == [u] + Hrefs(rest)
  {
    var content := HrefOpen + u + "\"" + rest;
    var after := content[|HrefOpen|..];
    assert after == u + "\"" + rest;
    QuoteAfter(u, rest);
    assert content[..|HrefOpen|] == HrefOpen;
    assert after[..|u|] == u && after[|u| + 1..] == rest;
  }

  lemma QuoteAfter(u: string, rest: string)
    requires '"' !in u
    ensures FirstQuote(u + "\"" + rest) == Some(|u|)
    decreases |u|
  {
    if u != [] {
      QuoteAfter(u[1..], rest);
      assert (u + "\"" + rest)[1..] == u[1..] + "\"" + rest;
    }
  }

  /** Content that never contains `href="` yields no link. */
  lemma {:induction false} HrefsNone(content: string)
    requires !Contains(content, HrefOpen)
    ensures Hrefs(content) == []
    decreases |content|
  {
    if |content| >= |HrefOpen| {
      HrefsNone(content[1..]);
    }
  }

  /** The links of the archive members whose name contains `hyperlink`, in archive order. */
  function ArchiveLinks(entries: seq<ArchiveEntry>): seq<string>
  {
    if entries == [] then []
    else
      var last := entries[|entries| - 1];
      ArchiveLinks(entries[..|entries| - 1]) + (if Contains(last.name, "hyperlink") then Hrefs(last.content) else [])
  }

  /** `extract_hyperlinks_from_docx` once the zip reader has opened the buffer. */
  method ExtractHyperlinks(entries: seq<ArchiveEntry>) returns (text: string)
    ensures text == Join("\n", ArchiveLinks(entries))
  {
    var links: seq<string> := [];
    for i := 0 to |entries|
      invariant links == ArchiveLinks(entries[..i])
    {
      if Contains(entries[i].name, "hyperlink") {
        links := links + Hrefs(entries[i].content);
      }
      assert entries[..i + 1][..i] == entries[..i];
    }
    assert entries[..|entries|] == entries;
    text := Join("\n", links);
  }

  /** The DOCX reader's output: stripped body lines, a newline, the links, a newline, the header/footer text. */
  function DocxText(doc: DocxDocument, links: string): string
  {
    Strip(Lines(doc.paragraphs)) + "\n" + links + "\n" + HeaderFooterText(doc.sections)
  }

  /** `parse_docx`: the document is opened first, then the archive; a failure of either is re-raised. */
  function DocxOutput(docx: Result<DocxDocument, Error>, archive: Result<seq<ArchiveEntry>, Error>): Result<string, Error>
  {
    match docx
    case Err(e) => Err(e)
    case Ok(doc) =>
      match archive
      case Err(e) => Err(e)
      case Ok(entries) => Ok(DocxText(doc, Join("\n", ArchiveLinks(entries))))
  }

  method ParseDocx(docx: Result<DocxDocument, Error>, archive: Result<seq<ArchiveEntry>, Error>) returns (r: Result<string, Error>)
    ensures r == DocxOutput(docx, archive)
  {
    if docx.Err? {
      return Err(docx.error);
    }
    var doc := docx.value;
    var body := "";
    for i := 0 to |doc.paragraphs|
      invariant body == Lines(doc.paragraphs[..i])
    {
      body := body + doc.paragraphs[i] + "\n";
      assert doc.paragraphs[..i + 1][..i] == doc.paragraphs[..i];
    }
    assert doc.paragraphs[..|doc.paragraphs|] == doc.paragraphs;
    if archive.Err? {
      return Err(archive.error);
    }
    var links := ExtractHyperlinks(archive.value);
    var headerFooter := ExtractHeaderFooter(doc);
    r := Ok(Strip(body) + "\n" + links + "\n" + headerFooter);
  }

  /** When the links hold no newline, they occupy their own lines between the body and the header/footer text. */
  lemma DocxLinksReadBack(doc: DocxDocument, entries: seq<ArchiveEntry>)
    requires |ArchiveLinks(entries)| >= 1
    requires forall k :: 0 <= k < |ArchiveLinks(entries)| ==> '\n' !in ArchiveLinks(entries)[k]
    ensures Split(DocxText(doc, Join("\n", ArchiveLinks(entries))), '\n') ==
      Split(Strip(Lines(doc.paragraphs)), '\n') + ArchiveLinks(entries) + Split(HeaderFooterText(doc.sections), '\n')
  {
    LinksBetween(Strip(Lines(doc.paragraphs)), ArchiveLinks(entries), HeaderFooterText(doc.sections));
  }

  // ----- Images (file_parser.py:142-174) -----

  /** A line break followed by the eight blanks of the source's indentation. */
  const Indent: string := "\n        "

  /** `str(format)` */
  function FormatName(format: Option<string>): string
  {
    if format.Some? then format.value else "None"
  }

  /** What PIL read: format, size in pixels and colour mode. */
  function ImageDetails(info: ImageInfo): string
  {
    FormatName(info.format) + " format, " + IntToStr(info.width) + "x" + IntToStr(info.height)
    + " pixels, " + info.mode + " mode."
  }

  /** The fixed notice that no OCR is available, with the template's line breaks. */
  const OcrNotice: string :=
    Indent + Indent
    + "OCR text extraction is not available in cloud deployment." + Indent
    + "The system will attempt to extract any visible text from the image," + Indent
    + "but for best results please convert the image to PDF or DOCX format" + Indent
    + "with proper text content." + Indent + Indent
    + "If this is a scanned document, consider using a document conversion" + Indent
    + "service to convert it to searchable PDF before uploading."

  /** The image description once stripped. */
  function ImageSummary(info: ImageInfo): string
  {
    "Image received: " + ImageDetails(info) + OcrNotice
  }

  /** The description as the triple-quoted template lays it out, before `strip`. */
  function ImageTemplate(info: ImageInfo): string
  {
    Indent + ImageSummary(info) + Indent
  }

  /** `extract_text_from_image`: no OCR, only a description of what PIL read; a reader failure is re-raised. */
  function ImageText(image: Result<ImageInfo, Error>): (r: Result<string, Error>)
    ensures r.Ok? <==> image.Ok?
    ensures image.Err? ==> r == Err(image.error)
  {
    match image
    case Err(e) => Err(e)
    case Ok(info) => Ok(Strip(ImageTemplate(info)))
  }

  /** Stripping removes exactly the template's leading and trailing indentation, whatever the image. */
  lemma ImageTextTrimmed(info: ImageInfo)
    ensures ImageText(Ok(info)) == Ok(ImageSummary(info))
  {
    var summary := ImageSummary(info);
    assert OcrNotice[|OcrNotice| - 1] == '.';
    assert summary[0] == 'I' && summary[|summary| - 1] == '.';
    StripPadded(Indent, summary, Indent, ImageTemplate(info));
  }

  lemma ImageTextSummary(image: Result<ImageInfo, Error>)
    ensures image.Ok? ==> ImageText(image) == Ok(ImageSummary(image.value))
  {
    if image.Ok? {
      ImageTextTrimmed(image.value);
    }
  }

  // ----- The dispatch (file_parser.py:15-38) -----

  datatype FileKind = PdfFile | DocxFile | DocFile | ImageFile | Unsupported

  predicate IsImageName(name: string)
  {
    EndsWith(name, ".png") || EndsWith(name, ".jpg") || EndsWith(name, ".jpeg") || EndsWith(name, ".gif")
  }

  /** The reader the lower-cased file name selects, trying the suffixes in the source's order. */
  function KindOf(filename: string): FileKind
  {
    var name := LowerAll(filename);
    if EndsWith(name, ".pdf") then PdfFile
    else if EndsWith(name, ".docx") then DocxFile
    else if EndsWith(name, ".doc") then DocFile
    else if IsImageName(name) then ImageFile
    else Unsupported
  }

  const DocMessage: string := "DOC files are not supported in cloud deployment. Please convert to DOCX or PDF format."

  /** `parse_pdf_or_docx`: a reader's failure and the unsupported-format error are re-raised unchanged. */
  function ParseDocument(filename: string, buffer: Buffer): (r: Result<string, Error>)
    ensures r.Err? ==>
      (KindOf(filename) == Unsupported && r.error == UnsupportedFormat) ||
      (buffer.pdf.Err? && r.error == buffer.pdf.error) || (buffer.docx.Err? && r.error == buffer.docx.error) ||
      (buffer.archive.Err? && r.error == buffer.archive.error) || (buffer.image.Err? && r.error == buffer.image.error)
    ensures KindOf(filename) == DocFile ==> r == Ok(DocMessage)
    ensures KindOf(filename) == ImageFile && buffer.image.Ok? ==> r == Ok(ImageSummary(buffer.image.value))
  {
    match KindOf(filename)
    case PdfFile => (match buffer.pdf case Err(e) => Err(e) case Ok(pages) => Ok(PdfText(pages)))
    case DocxFile => DocxOutput(buffer.docx, buffer.archive)
    case DocFile => Ok(DocMessage)
    case ImageFile => ImageTextSummary(buffer.image); ImageText(buffer.image)
    case Unsupported => Err(UnsupportedFormat)
  }

  method ParsePdfOrDocx(filename: string, buffer: Buffer) returns (r: Result<string, Error>)
    ensures r == ParseDocument(filename, buffer)
  {
    var name := LowerAll(filename);
    KindBySuffix(filename);
    if EndsWith(name, ".pdf") {
      if buffer.pdf.Err? {
        return Err(buffer.pdf.error);
      }
      var text := ParsePdf(buffer.pdf.value);
      r := Ok(text);
    } else if EndsWith(name, ".docx") {
      r := ParseDocx(buffer.docx, buffer.archive);
    } else if EndsWith(name, ".doc") {
      r := Ok(DocMessage);
    } else if IsImageName(name) {
      r := ImageText(buffer.image);
    } else {
      r := Err(UnsupportedFormat);
    }
  }

  /** The suffixes exclude each other, so each kind is chosen exactly when its own suffix is present: the
    * order of the tests does not matter. */
  lemma KindBySuffix(filename: string)
    ensures KindOf(filename) == PdfFile <==> EndsWith(LowerAll(filename), ".pdf")
    ensures KindOf(filename) == DocxFile <==> EndsWith(LowerAll(filename), ".docx")
    ensures KindOf(filename) == DocFile <==> EndsWith(LowerAll(filename), ".doc")
    ensures KindOf(filename) == ImageFile <==> IsImageName(LowerAll(filename))
  {
    var name := LowerAll(filename);
    SuffixEnd(name, ".pdf"); SuffixEnd(name, ".docx"); SuffixEnd(name, ".doc");
    SuffixEnd(name, ".png"); SuffixEnd(name, ".jpg"); SuffixEnd(name, ".jpeg"); SuffixEnd(name, ".gif");
  }

  /** A name that ends with a suffix ends with the suffix's last two characters. */
  lemma SuffixEnd(name: string, suffix: string)
    requires |suffix| >= 2
    ensures EndsWith(name, suffix) ==>
      name[|name| - 1] == suffix[|suffix| - 1] && name[|name| - 2] == suffix[|suffix| - 2]
  {
    if EndsWith(name, suffix) {
      assert name[|name| - |suffix|..][|suffix| - 1] == name[|name| - 1];
      assert name[|name| - |suffix|..][|suffix| - 2] == name[|name| - 2];
    }
  }

  /** The test is case-insensitive. */
  lemma KindIgnoresCase(filename: string)
    ensures KindOf(LowerAll(filename)) == KindOf(filename)
  {
    assert LowerAll(LowerAll(filename)) == LowerAll(filename);
  }

  /** A `.doc` upload gets the fixed message without the buffer being read, and an unsupported one fails with
    * the format error, whatever the buffer holds. */
  lemma DispatchIgnoresBuffer(filename: string, b1: Buffer, b2: Buffer)
    requires KindOf(filename) == DocFile || KindOf(filename) == Unsupported
    ensures ParseDocument(filename, b1) == ParseDocument(filename, b2)
    ensures ParseDocument(filename, b1) == if KindOf(filename) == DocFile then Ok(DocMessage) else Err(UnsupportedFormat)
  {
  }

  /** `resume.xyz` names no supported format, so it fails before anything is read. */
  lemma UnsupportedExample(buffer: Buffer)
    ensures KindOf("resume.xyz") == Unsupported
    ensures ParseDocument("resume.xyz", buffer) == Err(UnsupportedFormat)
  {
    assert LowerAll("resume.xyz") == "resume.xyz";
  }
}
