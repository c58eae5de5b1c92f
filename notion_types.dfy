/**
 * The Notion block model (src/types/notion.rs): blocks tagged by their
 * `type`, their rich-text content, text extraction, the decoding of a
 * block's wire tag with its `Unsupported` fallback, and the request shapes
 * the automations send to Notion.
 */
module NotionTypes {
  import opened Wrappers
  import Strings

  /** One rich-text span; only its `plain_text` is read. */
  datatype PlainText = PlainText(plain_text: string)

  /** The payload of a heading or paragraph block. */
  datatype BlockContent = BlockContent(rich_text: seq<PlainText>)

  /** The payload of a code block: its spans and its language tag. */
  datatype CodeContent = CodeContent(rich_text: seq<PlainText>, language: string)

  /**
   * A block, tagged on the wire by `type`; every tag the service does not
   * know becomes `Unsupported`.
   */
  datatype NotionBlock =
    | Heading1(heading_1: BlockContent)
    | Heading2(heading_2: BlockContent)
    | Heading3(heading_3: BlockContent)
    | Paragraph(paragraph: BlockContent)
    | Code(code: CodeContent)
    | Unsupported

  datatype NotionPageRef = NotionPageRef(id: string)

  datatype NotionWebhookPayload = NotionWebhookPayload(data: NotionPageRef)

  datatype AutomationContentType = Diary | Unknown

  datatype NotionWebhookContent = NotionWebhookContent(content_type: AutomationContentType, payload: NotionWebhookPayload)

  datatype NotionBlockList = NotionBlockList(results: seq<NotionBlock>)

  /** A fetched page: its reference and its top-level blocks in order. */
  datatype NotionPageDetail = NotionPageDetail(page_ref: NotionPageRef, body: NotionBlockList)

  // ----- text extraction -----

  /** The `plain_text` of each span, in order. */
  function PlainTexts(spans: seq<PlainText>): (r: seq<string>)
    ensures |r| == |spans| && forall i :: 0 <= i < |spans| ==> r[i] == spans[i].plain_text
  {
    seq(|spans|, i requires 0 <= i < |spans| => spans[i].plain_text)
  }

  /**
   * The extraction written once for every payload that carries spans:
   * nothing for no spans, otherwise the spans' text joined with no
   * separator.
   */
  function SpansText(spans: seq<PlainText>): (r: Option<string>)
    ensures r.None? <==> |spans| == 0
    ensures r.Some? ==> r.value == Strings.Concat(PlainTexts(spans))
  {
    if |spans| == 0 then None
    else
      Strings.JoinEmptySeparator(PlainTexts(spans));
      Some(Strings.Join(PlainTexts(spans), ""))
  }

  /** `ExtractText for BlockContent`. */
  function BlockContentText(c: BlockContent): (r: Option<string>)
    ensures r.None? <==> |c.rich_text| == 0
    ensures r.Some? ==> r.value == Strings.Concat(PlainTexts(c.rich_text))
  {
    SpansText(c.rich_text)
  }

  /** The spans a block carries; `Unsupported` carries none. */
  function RichText(b: NotionBlock): seq<PlainText>
  {
    match b
    case Heading1(c) => c.rich_text
    case Heading2(c) => c.rich_text
    case Heading3(c) => c.rich_text
    case Paragraph(c) => c.rich_text
    case Code(c) => c.rich_text
    case Unsupported => []
  }

  /** `ExtractText for NotionBlock`: delegate to the payload; `Unsupported` has no text. */
  function ExtractText(b: NotionBlock): (r: Option<string>)
    ensures b.Unsupported? ==> r.None?
    ensures r.None? <==> |RichText(b)| == 0
    ensures r.Some? ==> r.value == Strings.Concat(PlainTexts(RichText(b)))
  {
    match b
    case Heading1(c) => BlockContentText(c)
    case Heading2(c) => BlockContentText(c)
    case Heading3(c) => BlockContentText(c)
    case Paragraph(c) => BlockContentText(c)
    case Code(c) => SpansText(c.rich_text)
    case Unsupported => None
  }

  /** `blocks.iter().filter_map(|b| b.extract_text())`. */
  function ExtractParts(blocks: seq<NotionBlock>): seq<string>
  {
    if |blocks| == 0 then []
    else
      (match ExtractText(blocks[0]) case Some(t) => [t] case None => [])
      + ExtractParts(blocks[1..])
  }

  /** Indices of the blocks that yield a text. */
  ghost function TextIndices(blocks: seq<NotionBlock>): set<int>
  {
    set i | 0 <= i < |blocks| && ExtractText(blocks[i]).Some?
  }

  /** Extraction over a concatenation is the concatenation of the extractions. */
  lemma {:induction false} ExtractPartsAppend(a: seq<NotionBlock>, b: seq<NotionBlock>)
    ensures ExtractParts(a + b) == ExtractParts(a) + ExtractParts(b)
  {
    if |a| > 0 {
      assert (a + b)[0] == a[0];
      assert (a + b)[1..] == a[1..] + b;
      ExtractPartsAppend(a[1..], b);
    } else {
      assert a + b == b;
    }
  }

  /** A single block contributes its text if it has one, and nothing otherwise. */
  lemma ExtractPartsSingle(b: NotionBlock)
    ensures ExtractParts([b]) == if ExtractText(b).Some? then [ExtractText(b).value] else []
  {
    assert [b][1..] == [];
  }

  /** The number of parts is the number of blocks with a text. */
  lemma {:induction false} ExtractPartsCount(blocks: seq<NotionBlock>)
    ensures |ExtractParts(blocks)| == |TextIndices(blocks)|
  {
    if |blocks| == 0 {
      assert TextIndices(blocks) == {};
    } else {
      var n := |blocks| - 1;
      var init, last := blocks[..n], blocks[n];
      assert blocks == init + [last];
      ExtractPartsAppend(init, [last]);
      ExtractPartsSingle(last);
      ExtractPartsCount(init);
      TextIndicesSnoc(init, last);
    }
  }

  /** A block added at the end adds its own index when it has a text. */
  lemma TextIndicesSnoc(init: seq<NotionBlock>, last: NotionBlock)
    ensures TextIndices(init + [last]) == TextIndices(init) + (if ExtractText(last).Some? then {|init|} else {})
    ensures |init| !in TextIndices(init)
  {
    var blocks := init + [last];
    forall i | 0 <= i < |init| ensures i in TextIndices(blocks) <==> i in TextIndices(init) {
      assert blocks[i] == init[i];
    }
  }

  // ----- the constructors the automations and their tests use -----

  /** One default span carrying `text`. */
  function SingleSpan(text: string): BlockContent
  {
    BlockContent([PlainText(text)])
  }

  /** `NotionBlock::paragraph`. */
  function ParagraphBlock(text: string): (b: NotionBlock)
    ensures b.Paragraph? && ExtractText(b) == Some(text)
  {
    Paragraph(SingleSpan(text))
  }

  /** `NotionBlock::heading_2`. */
  function Heading2Block(text: string): (b: NotionBlock)
    ensures b.Heading2? && ExtractText(b) == Some(text)
  {
    Heading2(SingleSpan(text))
  }

  /** `NotionBlock::code`: the language is carried but is not part of the text. */
  function CodeBlock(text: string, language: string): (b: NotionBlock)
    ensures b.Code? && b.code.language == language && ExtractText(b) == Some(text)
  {
    Code(CodeContent([PlainText(text)], language))
  }

  // ----- the wire tag -----

  /**
   * A block as JSON: the `type` tag and the object's fields, each field
   * holding a payload (`rich_text` and, for code, `language`).
   */
  datatype WireContent = WireContent(rich_text: seq<PlainText>, language: Option<string>)

  datatype WireBlock = WireBlock(tag: string, fields: map<string, WireContent>)

  datatype DecodeError = MissingField(name: string)

  /** The tags that name a case of `NotionBlock`. */
  const KnownTags: set<string> := {"heading_1", "heading_2", "heading_3", "paragraph", "code"}

  /** The `type` tag a block is written with; its payload field has the same name. */
  function TagOf(b: NotionBlock): string
  {
    match b
    case Heading1(_) => "heading_1"
    case Heading2(_) => "heading_2"
    case Heading3(_) => "heading_3"
    case Paragraph(_) => "paragraph"
    case Code(_) => "code"
    case Unsupported => "unsupported"
  }

  /**
   * Deserializing one block: a known tag needs its payload field (and code
   * its language); any other tag is `Unsupported` and never an error.
   */
  function DecodeBlock(w: WireBlock): (r: Result<NotionBlock, DecodeError>)
    ensures w.tag !in KnownTags ==> r == Ok(Unsupported)
    ensures r.Err? <==> w.tag in KnownTags && (w.tag !in w.fields || (w.tag == "code" && w.fields[w.tag].language.None?))
    ensures r.Ok? && w.tag in KnownTags ==> w.tag in w.fields && TagOf(r.value) == w.tag && RichText(r.value) == w.fields[w.tag].rich_text
  {
    if w.tag !in KnownTags then Ok(Unsupported)
    else if w.tag !in w.fields then Err(MissingField(w.tag))
    else
      var c := w.fields[w.tag];
      if w.tag == "heading_1" then Ok(Heading1(BlockContent(c.rich_text)))
      else if w.tag == "heading_2" then Ok(Heading2(BlockContent(c.rich_text)))
      else if w.tag == "heading_3" then Ok(Heading3(BlockContent(c.rich_text)))
      else if w.tag == "paragraph" then Ok(Paragraph(BlockContent(c.rich_text)))
      else if c.language.None? then Err(MissingField("language"))
      else Ok(Code(CodeContent(c.rich_text, c.language.value)))
  }

  /** Serializing one block. */
  function EncodeBlock(b: NotionBlock): WireBlock
  {
    match b
    case Heading1(c) => WireBlock(TagOf(b), map[TagOf(b) := WireContent(c.rich_text, None)])
    case Heading2(c) => WireBlock(TagOf(b), map[TagOf(b) := WireContent(c.rich_text, None)])
    case Heading3(c) => WireBlock(TagOf(b), map[TagOf(b) := WireContent(c.rich_text, None)])
    case Paragraph(c) => WireBlock(TagOf(b), map[TagOf(b) := WireContent(c.rich_text, None)])
    case Code(c) => WireBlock(TagOf(b), map[TagOf(b) := WireContent(c.rich_text, Some(c.language))])
    case Unsupported => WireBlock(TagOf(b), map[])
  }

  /** Every block decodes back from its own encoding. */
  lemma DecodeEncode(b: NotionBlock)
    ensures DecodeBlock(EncodeBlock(b)) == Ok(b)
  {
  }

  /** Deserializing a list of blocks (`NotionBlockList.results`): the first failing element fails it. */
  function DecodeBlockList(ws: seq<WireBlock>): (r: Result<seq<NotionBlock>, DecodeError>)
    ensures r.Ok? <==> forall i :: 0 <= i < |ws| ==> DecodeBlock(ws[i]).Ok?
    ensures r.Ok? ==> |r.value| == |ws| && forall i :: 0 <= i < |ws| ==> DecodeBlock(ws[i]) == Ok(r.value[i])
  {
    if |ws| == 0 then Ok([])
    else match DecodeBlock(ws[0])
      case Err(e) => Err(e)
      case Ok(b) =>
        match DecodeBlockList(ws[1..])
        case Err(e) => Err(e)
        case Ok(bs) => Ok([b] + bs)
  }

  /** Unknown tags never make a list fail: a list of them decodes to `Unsupported`s. */
  lemma UnknownTagsDecode(ws: seq<WireBlock>)
    requires forall i :: 0 <= i < |ws| ==> ws[i].tag !in KnownTags
    ensures DecodeBlockList(ws).Ok?
    ensures forall i :: 0 <= i < |ws| ==> DecodeBlockList(ws).value[i] == Unsupported
    ensures ExtractParts(DecodeBlockList(ws).value) == []
  {
    var bs := DecodeBlockList(ws).value;
    forall k | 0 <= k < |bs| + 1 ensures ExtractParts(bs[k..]) == [] {
      UnsupportedSuffixHasNoParts(bs, |bs| - k);
    }
    assert bs[0..] == bs;
  }

  lemma {:induction false} UnsupportedSuffixHasNoParts(bs: seq<NotionBlock>, n: nat)
    requires n <= |bs|
    requires forall i :: 0 <= i < |bs| ==> bs[i] == Unsupported
    ensures ExtractParts(bs[|bs| - n..]) == []
  {
    if n > 0 {
      var s := bs[|bs| - n..];
      assert s[1..] == bs[|bs| - (n - 1)..];
      UnsupportedSuffixHasNoParts(bs, n - 1);
    }
  }

  // ----- the request shapes sent to Notion -----

  /** A row of a page's block listing: the block's id and its `type`. */
  datatype BlockRef = BlockRef(id: string, block_type: string)

  /** One query result: a page of the database. */
  datatype PageSummary = PageSummary(id: string, url: string)

  /** Dates are day numbers, counted from 1970-01-01. */
  type Date = int

  datatype Filter =
    | And(filters: seq<Filter>)
    | DateOnOrAfter(property: string, date: Date)
    | DateOnOrBefore(property: string, date: Date)

  datatype Direction = Ascending | Descending

  datatype Sort = Sort(property: string, direction: Direction)

  datatype DatabaseQuery = DatabaseQuery(filter: Option<Filter>, sorts: Option<seq<Sort>>)

  /** How the database applies a filter to an entry whose date property holds `dates[p]`. */
  predicate Matches(f: Filter, dates: map<string, Date>)
  {
    match f
    case And(fs) => forall g :: g in fs ==> Matches(g, dates)
    case DateOnOrAfter(p, d) => p in dates && dates[p] >= d
    case DateOnOrBefore(p, d) => p in dates && dates[p] <= d
  }

  /** The properties of a new report page: its title and its date. */
  datatype PageProperties = PageProperties(title_property: string, title: string, date_property: string, date_start: Date)

  datatype CreatePageRequest = CreatePageRequest(parent_database_id: string, properties: PageProperties, children: seq<NotionBlock>)
}
