/**
 * The generic webhook (src/automation.rs): the `content_type` header is
 * mapped to an automation kind, the body is parsed, the page is fetched and
 * the body is echoed back; and the older diary prompt builder, whose system
 * instruction is a plain string.
 */
module Automation {
  import opened Wrappers
  import opened NotionTypes
  import opened GeminiTypes
  import opened Store

  newtype byte = x: int | 0 <= x < 256

  /** A header value as it arrives: raw bytes. */
  type HeaderValue = seq<byte>

  /** A header map, keyed by header name. */
  type HeaderMap = map<string, HeaderValue>

  /** The bytes `HeaderValue::to_str` accepts: visible ASCII and tab. */
  predicate IsVisibleAscii(b: byte)
  {
    (32 <= b < 127) || b == 9
  }

  /** `HeaderValue::to_str`: the value as text, when every byte is visible ASCII. */
  function HeaderToStr(v: HeaderValue): (r: Option<string>)
    ensures r.Some? <==> forall i :: 0 <= i < |v| ==> IsVisibleAscii(v[i])
    ensures r.Some? ==> |r.value| == |v| && forall i :: 0 <= i < |v| ==> r.value[i] as int == v[i] as int
  {
    if forall i :: 0 <= i < |v| ==> IsVisibleAscii(v[i])
    then Some(seq(|v|, i requires 0 <= i < |v| => (v[i] as int) as char))
    else None
  }

  /** The header's text, or "unknown" when it is missing or not visible ASCII. */
  function ContentTypeStr(headers: HeaderMap): string
  {
    if "content_type" !in headers then "unknown"
    else match HeaderToStr(headers["content_type"])
      case Some(s) => s
      case None => "unknown"
  }

  /** The automation kind a webhook asks for. */
  function ContentTypeOf(headers: HeaderMap): AutomationContentType
  {
    if ContentTypeStr(headers) == "diary" then Diary else Unknown
  }

  /** The bytes of "diary". */
  const DiaryBytes: HeaderValue := [100, 105, 97, 114, 121]

  /**
   * A webhook is a diary one exactly when its `content_type` header holds
   * the bytes of "diary"; a missing header, any other value and a value
   * with a byte outside visible ASCII are all `Unknown`.
   */
  lemma ContentTypeDiaryIff(headers: HeaderMap)
    ensures ContentTypeOf(headers) == Diary <==> "content_type" in headers && headers["content_type"] == DiaryBytes
  {
    if ContentTypeOf(headers) == Diary {
      assert "unknown" != "diary";
      var v := headers["content_type"];
      var s := HeaderToStr(v).value;
      assert s == "diary";
      assert |v| == 5;
      forall i | 0 <= i < 5 ensures v[i] == DiaryBytes[i] {
        assert v[i] as int == s[i] as int;
      }
    }
    if "content_type" in headers && headers["content_type"] == DiaryBytes {
      var v := headers["content_type"];
      assert forall i :: 0 <= i < |v| ==> IsVisibleAscii(v[i]);
      var s := HeaderToStr(v).value;
      assert s == "diary";
    }
  }

  /**
   * `handle_webhook`: an unparsable body answers "Invalid data" before any
   * remote call; otherwise the page is fetched, and a failed fetch answers
   * "Failed to get notion page data" while a successful one echoes the body.
   * `parsed` is what parsing `body` as a webhook payload gives.
   */
  method HandleWebhook(s: Services, headers: HeaderMap, body: string, parsed: Option<NotionWebhookPayload>)
    returns (response: string)
    modifies s`events
    ensures parsed.None? ==> response == "Invalid data" && s.events == old(s.events)
    ensures parsed.Some? ==> s.events == old(s.events) + [FetchCall(parsed.value.data.id)]
    ensures parsed.Some? ==> response == if parsed.value.data.id in s.pages then body else "Failed to get notion page data"
  {
    var content_type := ContentTypeOf(headers);
    if parsed.None? {
      return "Invalid data";
    }
    var webhook_content := NotionWebhookContent(content_type, parsed.value);
    var page_data := s.FetchPage(webhook_content.payload.data.id);
    if page_data.Err? {
      return "Failed to get notion page data";
    }
    response := body;
  }

  /**
   * The older `gen_diary_prompt`: the instruction travels as a plain string,
   * and the one user turn holds one part per block that has text, in block
   * order.
   */
  function GenDiaryPrompt(page_detail: NotionPageDetail, instruction: string): (p: Prompt)
    ensures p.system_instruction == Some(instruction)
    ensures |p.contents| == 1 && p.contents[0].role == Some(User)
    ensures Texts(p.contents[0].parts) == ExtractParts(page_detail.body.results)
    ensures |p.contents[0].parts| == |TextIndices(page_detail.body.results)|
    ensures p.generation_config == Some(DefaultConfig())
  {
    ExtractPartsCount(page_detail.body.results);
    var page_contents := PartsOf(ExtractParts(page_detail.body.results));
    Prompt([UserTurn(page_contents)], Some(instruction), Some(DefaultConfig()))
  }
}
