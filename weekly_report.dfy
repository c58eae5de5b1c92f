/**
 * The weekly report automation (src/automation/weekly_report.rs): query the
 * diary database for the last week, gather the text of every entry, have it
 * summarised, replace the report page's content with the summary and file a
 * copy as a new page of the report database.
 */
module WeeklyReport {
  import opened Wrappers
  import opened Strings
  import opened NotionTypes
  import opened GeminiTypes
  import opened Store
  import Calendar
  import Service

  /** The diary database's date property, also the new report page's date property. */
  const DATE_PROPERTY := "日付"

  /** The report database's title property. */
  const TITLE_PROPERTY := "名前"

  /** The paragraph written to the report page when the week has no diary text. */
  const NO_DIARY_MESSAGE := "対象期間の日記が見つかりませんでした。"

  // ----- clear_page_content -----

  /** Blocks clearing leaves in place: child databases and buttons. */
  predicate Preserved(b: BlockRef)
  {
    b.block_type == "child_database" || b.block_type == "button"
  }

  /** The blocks of a listing that clearing keeps, in order. */
  function PreservedOf(bs: seq<BlockRef>): seq<BlockRef>
  {
    if |bs| == 0 then [] else (if Preserved(bs[0]) then [bs[0]] else []) + PreservedOf(bs[1..])
  }

  /** The ids of the blocks of a listing that clearing deletes, in order. */
  function DeletableIds(bs: seq<BlockRef>): seq<string>
  {
    if |bs| == 0 then [] else (if Preserved(bs[0]) then [] else [bs[0].id]) + DeletableIds(bs[1..])
  }

  lemma {:induction false} PreservedOfAppend(a: seq<BlockRef>, b: seq<BlockRef>)
    ensures PreservedOf(a + b) == PreservedOf(a) + PreservedOf(b)
  {
    if |a| == 0 {
      assert a + b == b;
    } else {
      assert (a + b)[0] == a[0];
      assert (a + b)[1..] == a[1..] + b;
      PreservedOfAppend(a[1..], b);
    }
  }

  lemma {:induction false} DeletableIdsAppend(a: seq<BlockRef>, b: seq<BlockRef>)
    ensures DeletableIds(a + b) == DeletableIds(a) + DeletableIds(b)
  {
    if |a| == 0 {
      assert a + b == b;
    } else {
      assert (a + b)[0] == a[0];
      assert (a + b)[1..] == a[1..] + b;
      DeletableIdsAppend(a[1..], b);
    }
  }

  /**
   * The ids the deletion loop asks to delete: the deletable ids in order, up
   * to and including the first one whose deletion fails.
   */
  function DeleteLog(bs: seq<BlockRef>, failing: set<string>): seq<string>
  {
    if |bs| == 0 then []
    else if Preserved(bs[0]) then DeleteLog(bs[1..], failing)
    else if bs[0].id in failing then [bs[0].id]
    else [bs[0].id] + DeleteLog(bs[1..], failing)
  }

  /** How the deletion loop ends: with the first failed deletion's error, or `Ok`. */
  function DeleteOutcome(bs: seq<BlockRef>, failing: set<string>): Result<(), ApiError>
  {
    if |bs| == 0 then Ok(())
    else if Preserved(bs[0]) then DeleteOutcome(bs[1..], failing)
    else if bs[0].id in failing then Err(DeleteFailed(bs[0].id))
    else DeleteOutcome(bs[1..], failing)
  }

  /**
   * The listing after the deletion loop: the preserved blocks before the
   * first failed deletion, then everything from that block on.
   */
  function ListingAfterDeletes(bs: seq<BlockRef>, failing: set<string>): seq<BlockRef>
  {
    if |bs| == 0 then []
    else if Preserved(bs[0]) then [bs[0]] + ListingAfterDeletes(bs[1..], failing)
    else if bs[0].id in failing then bs
    else ListingAfterDeletes(bs[1..], failing)
  }

  /** The delete calls for `ids`, in order. */
  function DeleteCalls(ids: seq<string>): seq<Event>
  {
    seq(|ids|, k requires 0 <= k < |ids| => DeleteCall(ids[k]))
  }

  /** The remote calls clearing `page_id`, whose listing is `bs`, makes. */
  function ClearEvents(s: Services, page_id: string, bs: seq<BlockRef>): seq<Event>
  {
    [ListCall(page_id)] + (if s.listFails then [] else DeleteCalls(DeleteLog(bs, s.failingDeletes)))
  }

  /** How clearing ends: a failed listing, a failed deletion, or `Ok`. */
  function ClearOutcome(s: Services, page_id: string, bs: seq<BlockRef>): Result<(), ApiError>
  {
    if s.listFails then Err(ListFailed(page_id)) else DeleteOutcome(bs, s.failingDeletes)
  }

  /** The listing after clearing. */
  function ListingAfterClear(s: Services, bs: seq<BlockRef>): seq<BlockRef>
  {
    if s.listFails then bs else ListingAfterDeletes(bs, s.failingDeletes)
  }

  /**
   * `clear_page_content`: list the page's blocks, then delete each one in
   * order except child databases and buttons; the first failure ends the
   * clearing with its error.
   */
  method ClearPageContent(s: Services, page_id: string) returns (r: Result<(), ApiError>)
    requires s.Valid()
    modifies s
    ensures s.Valid()
    ensures r == ClearOutcome(s, page_id, old(s.children))
    ensures s.events == old(s.events) + ClearEvents(s, page_id, old(s.children))
    ensures s.children == ListingAfterClear(s, old(s.children))
  {
    var listed := s.ListBlockIds(page_id);
    if listed.Err? {
      return Err(listed.error);
    }
    ghost var listedEvents := s.events;
    r := DeleteUnpreserved(s, listed.value);
    assert s.events == listedEvents + DeleteCalls(DeleteLog(listed.value, s.failingDeletes));
  }

  /**
   * The deletion loop of `clear_page_content` over the listed blocks: every
   * block but child databases and buttons is deleted in order, and the
   * first failed deletion ends the loop with its error.
   */
  method DeleteUnpreserved(s: Services, blocks: seq<BlockRef>) returns (r: Result<(), ApiError>)
    requires s.Valid() && s.children == blocks
    modifies s
    ensures s.Valid()
    ensures r == DeleteOutcome(blocks, s.failingDeletes)
    ensures s.events == old(s.events) + DeleteCalls(DeleteLog(blocks, s.failingDeletes))
    ensures s.children == ListingAfterDeletes(blocks, s.failingDeletes)
  {
    ghost var failing := s.failingDeletes;
    ghost var start := s.events;
    ghost var kept: seq<BlockRef> := [];
    ghost var deletedIds: seq<string> := [];
    var rest := blocks;
    while |rest| > 0
      invariant s.Valid()
      invariant s.children == kept + rest
      invariant s.events == start + DeleteCalls(deletedIds)
      invariant DeleteLog(blocks, failing) == deletedIds + DeleteLog(rest, failing)
      invariant ListingAfterDeletes(blocks, failing) == kept + ListingAfterDeletes(rest, failing)
      invariant DeleteOutcome(blocks, failing) == DeleteOutcome(rest, failing)
    {
      var block := rest[0];
      assert rest == [block] + rest[1..];
      if Preserved(block) {
        KeptStep(blocks, kept, deletedIds, rest, failing);
        kept := kept + [block];
      } else {
        assert s.children == kept + [block] + rest[1..];
        DeleteFromListing(kept, block, rest[1..]);
        DeletedStep(blocks, kept, deletedIds, rest, failing);
        var deleted := s.DeleteBlock(block.id);
        DeleteCallsSnoc(start, deletedIds, block.id);
        deletedIds := deletedIds + [block.id];
        if deleted.Err? {
          return Err(deleted.error);
        }
      }
      rest := rest[1..];
    }
    LoopDone(blocks, kept, deletedIds, failing);
    return Ok(());
  }

  /** Visiting a preserved block keeps it and logs nothing. */
  lemma KeptStep(blocks: seq<BlockRef>, kept: seq<BlockRef>, deletedIds: seq<string>, rest: seq<BlockRef>, failing: set<string>)
    requires |rest| > 0 && Preserved(rest[0])
    requires DeleteLog(blocks, failing) == deletedIds + DeleteLog(rest, failing)
    requires ListingAfterDeletes(blocks, failing) == kept + ListingAfterDeletes(rest, failing)
    requires DeleteOutcome(blocks, failing) == DeleteOutcome(rest, failing)
    ensures DeleteLog(blocks, failing) == deletedIds + DeleteLog(rest[1..], failing)
    ensures ListingAfterDeletes(blocks, failing) == (kept + [rest[0]]) + ListingAfterDeletes(rest[1..], failing)
    ensures DeleteOutcome(blocks, failing) == DeleteOutcome(rest[1..], failing)
  {
  }

  /** Visiting a deletable block logs its id; a failure ends the loop there with the listing untouched. */
  lemma DeletedStep(blocks: seq<BlockRef>, kept: seq<BlockRef>, deletedIds: seq<string>, rest: seq<BlockRef>, failing: set<string>)
    requires |rest| > 0 && !Preserved(rest[0])
    requires DeleteLog(blocks, failing) == deletedIds + DeleteLog(rest, failing)
    requires ListingAfterDeletes(blocks, failing) == kept + ListingAfterDeletes(rest, failing)
    requires DeleteOutcome(blocks, failing) == DeleteOutcome(rest, failing)
    ensures rest[0].id in failing ==>
              DeleteLog(blocks, failing) == deletedIds + [rest[0].id]
              && ListingAfterDeletes(blocks, failing) == kept + rest
              && DeleteOutcome(blocks, failing) == Err(DeleteFailed(rest[0].id))
    ensures rest[0].id !in failing ==>
              DeleteLog(blocks, failing) == (deletedIds + [rest[0].id]) + DeleteLog(rest[1..], failing)
              && ListingAfterDeletes(blocks, failing) == kept + ListingAfterDeletes(rest[1..], failing)
              && DeleteOutcome(blocks, failing) == DeleteOutcome(rest[1..], failing)
  {
  }

  /** When the loop has visited every block, the log, listing and outcome are the ones accumulated. */
  lemma LoopDone(blocks: seq<BlockRef>, kept: seq<BlockRef>, deletedIds: seq<string>, failing: set<string>)
    requires DeleteLog(blocks, failing) == deletedIds + DeleteLog([], failing)
    requires ListingAfterDeletes(blocks, failing) == kept + ListingAfterDeletes([], failing)
    requires DeleteOutcome(blocks, failing) == DeleteOutcome([], failing)
    ensures DeleteLog(blocks, failing) == deletedIds
    ensures ListingAfterDeletes(blocks, failing) == kept
    ensures DeleteOutcome(blocks, failing) == Ok(())
  {
    assert deletedIds + [] == deletedIds && kept + [] == kept;
  }

  lemma DeleteCallsSnoc(start: seq<Event>, ids: seq<string>, id: string)
    ensures start + DeleteCalls(ids + [id]) == (start + DeleteCalls(ids)) + [DeleteCall(id)]
  {
    assert DeleteCalls(ids + [id]) == DeleteCalls(ids) + [DeleteCall(id)];
  }

  /** Deleting the block at the front of the unvisited part removes it and nothing else. */
  lemma DeleteFromListing(kept: seq<BlockRef>, block: BlockRef, rest: seq<BlockRef>)
    requires UniqueIds(kept + [block] + rest)
    ensures Without(kept + [block] + rest, block.id) == kept + rest
  {
    OthersDiffer(kept, block, rest);
    WithoutMiddle(kept, block, rest);
  }

  /** In a listing with unique ids, no block but `block` itself has its id. */
  lemma OthersDiffer(kept: seq<BlockRef>, block: BlockRef, rest: seq<BlockRef>)
    requires UniqueIds(kept + [block] + rest)
    ensures forall k :: 0 <= k < |kept| ==> kept[k].id != block.id
    ensures forall k :: 0 <= k < |rest| ==> rest[k].id != block.id
  {
    var all := kept + [block] + rest;
    assert all[|kept|] == block;
    forall k | 0 <= k < |kept| ensures kept[k].id != block.id {
      assert all[k] == kept[k];
    }
    forall k | 0 <= k < |rest| ensures rest[k].id != block.id {
      assert all[|kept| + 1 + k] == rest[k];
    }
  }

  /** Deleting the only block with its id takes out just that block. */
  lemma {:induction false} WithoutMiddle(kept: seq<BlockRef>, block: BlockRef, rest: seq<BlockRef>)
    requires forall k :: 0 <= k < |kept| ==> kept[k].id != block.id
    requires forall k :: 0 <= k < |rest| ==> rest[k].id != block.id
    ensures Without(kept + [block] + rest, block.id) == kept + rest
  {
    WithoutAppend(kept + [block], rest, block.id);
    WithoutAppend(kept, [block], block.id);
    WithoutAbsent(kept, block.id);
    WithoutAbsent(rest, block.id);
    assert Without([block], block.id) == [] by {
      assert [block][1..] == [];
    }
    calc {
      Without(kept + [block] + rest, block.id);
      Without(kept + [block], block.id) + Without(rest, block.id);
      Without(kept, block.id) + Without([block], block.id) + Without(rest, block.id);
      kept + [] + rest;
      kept + rest;
    }
  }

  /** Clearing succeeds exactly when no deletable block's deletion fails. */
  lemma {:induction false} DeleteOutcomeOkIff(bs: seq<BlockRef>, failing: set<string>)
    ensures DeleteOutcome(bs, failing).Ok? <==> forall id :: id in DeletableIds(bs) ==> id !in failing
  {
    if |bs| > 0 {
      DeleteOutcomeOkIff(bs[1..], failing);
      if !Preserved(bs[0]) {
        assert DeletableIds(bs) == [bs[0].id] + DeletableIds(bs[1..]);
      }
    }
  }

  /** A clearing that succeeds deletes every deletable block, in order, and leaves exactly the preserved ones. */
  lemma {:induction false} ClearedWhenOk(bs: seq<BlockRef>, failing: set<string>)
    requires DeleteOutcome(bs, failing).Ok?
    ensures DeleteLog(bs, failing) == DeletableIds(bs)
    ensures ListingAfterDeletes(bs, failing) == PreservedOf(bs)
  {
    if |bs| > 0 {
      ClearedWhenOk(bs[1..], failing);
    }
  }

  /**
   * The deletions tried are a prefix of the deletable ids; all but the last
   * succeed, and when clearing fails the last is the one that failed.
   */
  lemma {:induction false} DeleteLogShape(bs: seq<BlockRef>, failing: set<string>)
    ensures DeleteLog(bs, failing) <= DeletableIds(bs)
    ensures forall k :: 0 <= k < |DeleteLog(bs, failing)| - 1 ==> DeleteLog(bs, failing)[k] !in failing
    ensures DeleteOutcome(bs, failing).Err? ==>
              |DeleteLog(bs, failing)| > 0
              && DeleteLog(bs, failing)[|DeleteLog(bs, failing)| - 1] in failing
              && DeleteOutcome(bs, failing).error == DeleteFailed(DeleteLog(bs, failing)[|DeleteLog(bs, failing)| - 1])
  {
    if |bs| > 0 {
      DeleteLogShape(bs[1..], failing);
      var log, rest := DeleteLog(bs, failing), DeleteLog(bs[1..], failing);
      if !Preserved(bs[0]) && bs[0].id !in failing {
        assert log == [bs[0].id] + rest;
        forall k | 0 <= k < |log| - 1 ensures log[k] !in failing {
          if k > 0 {
            assert log[k] == rest[k - 1];
          }
        }
      }
    }
  }

  /** Clearing never removes a child database or a button, and leaves only blocks of the listing. */
  lemma {:induction false} PreservedSurvive(bs: seq<BlockRef>, failing: set<string>)
    ensures forall b :: b in bs && Preserved(b) ==> b in ListingAfterDeletes(bs, failing)
    ensures forall b :: b in ListingAfterDeletes(bs, failing) ==> b in bs
  {
    if |bs| > 0 {
      PreservedSurvive(bs[1..], failing);
      assert forall b :: b in bs ==> b == bs[0] || b in bs[1..];
    }
  }

  /** With unique ids, no delete call is made for a child database or a button. */
  lemma {:induction false} PreservedNeverDeleted(bs: seq<BlockRef>, failing: set<string>)
    requires UniqueIds(bs)
    ensures forall b :: b in bs && Preserved(b) ==> b.id !in DeleteLog(bs, failing)
  {
    if |bs| > 0 {
      PreservedNeverDeleted(bs[1..], failing);
      LogIdsFrom(bs[1..], failing);
      forall b | b in bs && Preserved(b) ensures b.id !in DeleteLog(bs, failing) {
        if b != bs[0] {
          var j :| 0 <= j < |bs| && bs[j] == b;
          assert j > 0;
          assert bs[1..][j - 1] == b;
          if !Preserved(bs[0]) {
            assert bs[0].id != b.id;
          }
        } else {
          forall k | 0 <= k < |bs[1..]| ensures bs[1..][k].id != b.id {
            assert bs[1..][k] == bs[k + 1];
          }
        }
      }
    }
  }

  /** Every id in the log is the id of a block in the listing. */
  lemma {:induction false} LogIdsFrom(bs: seq<BlockRef>, failing: set<string>)
    ensures forall id :: id in DeleteLog(bs, failing) ==> exists k :: 0 <= k < |bs| && bs[k].id == id
  {
    if |bs| > 0 {
      LogIdsFrom(bs[1..], failing);
      forall id | id in DeleteLog(bs[1..], failing) ensures exists k :: 0 <= k < |bs| && bs[k].id == id {
        var k :| 0 <= k < |bs[1..]| && bs[1..][k].id == id;
        assert bs[k + 1].id == id;
      }
    }
  }

  /** A listing with one block of each kind, cleared without and with a failing deletion. */
  lemma ClearExample()
    ensures var bs := [BlockRef("a", "paragraph"), BlockRef("db", "child_database"),
                       BlockRef("btn", "button"), BlockRef("h", "heading_1")];
            DeleteLog(bs, {}) == ["a", "h"] && ListingAfterDeletes(bs, {}) == bs[1..3]
            && DeleteOutcome(bs, {}) == Ok(())
            && DeleteLog(bs, {"a"}) == ["a"] && ListingAfterDeletes(bs, {"a"}) == bs
            && DeleteOutcome(bs, {"a"}) == Err(DeleteFailed("a"))
  {
    var bs := [BlockRef("a", "paragraph"), BlockRef("db", "child_database"),
               BlockRef("btn", "button"), BlockRef("h", "heading_1")];
    assert bs[1..][1..][1..][1..] == [];
  }

  // ----- extract_page_text and the aggregation loop -----

  /** `extract_page_text`: the texts of the page's blocks that have text, one per line. */
  function ExtractPageText(page_detail: NotionPageDetail): string
  {
    Join(ExtractParts(page_detail.body.results), "\n")
  }

  /** The text of a page fetched by id from `pages`. */
  function StoredPageText(pages: map<string, seq<NotionBlock>>, id: string): string
    requires id in pages
  {
    ExtractPageText(NotionPageDetail(NotionPageRef(id), NotionBlockList(pages[id])))
  }

  /**
   * A block added at the end of a page adds its text on a line of its own
   * after the text so far; a block without text adds nothing, not even a
   * line break.
   */
  lemma ExtractPageTextSnoc(page_ref: NotionPageRef, blocks: seq<NotionBlock>, b: NotionBlock)
    ensures var before := ExtractPageText(NotionPageDetail(page_ref, NotionBlockList(blocks)));
            var after := ExtractPageText(NotionPageDetail(page_ref, NotionBlockList(blocks + [b])));
            after == if ExtractText(b).None? then before
                     else if |ExtractParts(blocks)| == 0 then ExtractText(b).value
                     else before + "\n" + ExtractText(b).value
  {
    var parts := ExtractParts(blocks);
    ExtractPartsAppend(blocks, [b]);
    ExtractPartsSingle(b);
    if ExtractText(b).None? {
      assert ExtractParts(blocks + [b]) == parts + [] == parts;
    } else {
      var t := ExtractText(b).value;
      assert ExtractParts(blocks + [b]) == parts + [t];
      if |parts| == 0 {
        assert parts + [t] == [t];
      } else {
        JoinSnoc(parts, t, "\n");
      }
    }
  }

  /** A page's text is blank exactly when the text of every block that has text is. */
  lemma PageTextBlankIff(page_detail: NotionPageDetail)
    ensures IsBlank(ExtractPageText(page_detail))
            <==> forall k :: 0 <= k < |ExtractParts(page_detail.body.results)| ==> IsBlank(ExtractParts(page_detail.body.results)[k])
  {
    assert IsBlank("\n") by {
      assert IsWhitespace("\n"[0]);
    }
    JoinBlank(ExtractParts(page_detail.body.results), "\n");
  }

  /** How one entry is set off in the aggregated text. */
  function DiaryEntrySection(page_id: string, text: string): string
  {
    "\n--- Diary Entry (" + page_id + ") ---\n" + text + "\n"
  }

  /** The text of every page a fetch can read, by page id. */
  function PageTexts(pages: map<string, seq<NotionBlock>>): map<string, string>
  {
    map id | id in pages :: StoredPageText(pages, id)
  }

  /**
   * An entry contributes to the report: its page could be fetched (it has a
   * text in `texts`) and that text is not blank.
   */
  predicate Kept(entry: PageSummary, texts: map<string, string>)
  {
    entry.id in texts && !IsBlank(texts[entry.id])
  }

  /** What one query result adds to the aggregated text. */
  function PageContribution(entry: PageSummary, texts: map<string, string>): string
  {
    if Kept(entry, texts) then DiaryEntrySection(entry.id, texts[entry.id]) else ""
  }

  /** What each query result adds to the aggregated text, in query order. */
  function Contributions(entries: seq<PageSummary>, texts: map<string, string>): (r: seq<string>)
    ensures |r| == |entries| && forall k :: 0 <= k < |entries| ==> r[k] == PageContribution(entries[k], texts)
  {
    seq(|entries|, k requires 0 <= k < |entries| => PageContribution(entries[k], texts))
  }

  /** The aggregated diary text of the query results: their sections in query order. */
  function AggregateText(entries: seq<PageSummary>, texts: map<string, string>): string
  {
    Concat(Contributions(entries, texts))
  }

  /** The fetch calls for the query results, in order. */
  function FetchCalls(entries: seq<PageSummary>): seq<Event>
  {
    if |entries| == 0 then [] else FetchCalls(entries[..|entries| - 1]) + [FetchCall(entries[|entries| - 1].id)]
  }

  /**
   * The aggregation loop of `weekly_report_process`: fetch every entry in
   * order, and add a section for each whose text is not blank; an entry
   * whose fetch fails is skipped.
   */
  method AggregateDiaryText(s: Services, entries: seq<PageSummary>) returns (all_diary_text: string)
    modifies s`events
    ensures all_diary_text == AggregateText(entries, PageTexts(s.pages))
    ensures s.events == old(s.events) + FetchCalls(entries)
  {
    ghost var start := s.events;
    all_diary_text := "";
    var i := 0;
    while i < |entries|
      invariant 0 <= i <= |entries|
      invariant all_diary_text == AggregateText(entries[..i], PageTexts(s.pages))
      invariant s.events == start + FetchCalls(entries[..i])
    {
      var page := entries[i];
      FetchCallsStep(start, entries, i);
      var fetched := s.FetchPage(page.id);
      if fetched.Ok? {
        var page_text := ExtractPageText(fetched.value);
        AggregateFetched(entries, i, s.pages, fetched.value, all_diary_text);
        if Trim(page_text) != "" {
          all_diary_text := all_diary_text + DiaryEntrySection(page.id, page_text);
        }
      } else {
        AggregateSkipped(entries, i, s.pages, all_diary_text);
      }
      i := i + 1;
    }
    assert entries[..i] == entries;
  }

  lemma FetchCallsStep(start: seq<Event>, entries: seq<PageSummary>, i: int)
    requires 0 <= i < |entries|
    ensures start + FetchCalls(entries[..i + 1]) == (start + FetchCalls(entries[..i])) + [FetchCall(entries[i].id)]
  {
    assert entries[..i + 1][..i] == entries[..i];
  }

  /** What entry `i` adds to the aggregate. */
  lemma AggregateStep(entries: seq<PageSummary>, i: int, texts: map<string, string>)
    requires 0 <= i < |entries|
    ensures AggregateText(entries[..i + 1], texts) == AggregateText(entries[..i], texts) + PageContribution(entries[i], texts)
  {
    var c := Contributions(entries[..i + 1], texts);
    assert c[..i] == Contributions(entries[..i], texts);
  }

  /** A fetched entry adds its section exactly when its text is not blank. */
  lemma AggregateFetched(entries: seq<PageSummary>, i: int, pages: map<string, seq<NotionBlock>>,
                         page_detail: NotionPageDetail, acc: string)
    requires 0 <= i < |entries| && acc == AggregateText(entries[..i], PageTexts(pages))
    requires entries[i].id in pages
    requires page_detail == NotionPageDetail(NotionPageRef(entries[i].id), NotionBlockList(pages[entries[i].id]))
    ensures var text := ExtractPageText(page_detail);
            AggregateText(entries[..i + 1], PageTexts(pages))
              == if Trim(text) != "" then acc + DiaryEntrySection(entries[i].id, text) else acc
  {
    var text := ExtractPageText(page_detail);
    AggregateStep(entries, i, PageTexts(pages));
    assert PageTexts(pages)[entries[i].id] == text;
    TrimEmptyIffBlank(text);
    if Trim(text) == "" {
      assert acc + "" == acc;
    }
  }

  /** An entry whose fetch fails adds nothing. */
  lemma AggregateSkipped(entries: seq<PageSummary>, i: int, pages: map<string, seq<NotionBlock>>, acc: string)
    requires 0 <= i < |entries| && acc == AggregateText(entries[..i], PageTexts(pages))
    requires entries[i].id !in pages
    ensures AggregateText(entries[..i + 1], PageTexts(pages)) == acc
  {
    AggregateStep(entries, i, PageTexts(pages));
    assert acc + "" == acc;
  }

  /** The sections of a concatenation of results are those of each part, in order. */
  lemma AggregateTextAppend(a: seq<PageSummary>, b: seq<PageSummary>, texts: map<string, string>)
    ensures AggregateText(a + b, texts) == AggregateText(a, texts) + AggregateText(b, texts)
  {
    var ca, cb, cab := Contributions(a, texts), Contributions(b, texts), Contributions(a + b, texts);
    forall k | 0 <= k < |a + b| ensures cab[k] == (ca + cb)[k] {
      if k < |a| {
        assert (a + b)[k] == a[k];
      } else {
        assert (a + b)[k] == b[k - |a|];
      }
    }
    assert cab == ca + cb;
    ConcatAppend(ca, cb);
  }

  /** An entry adds nothing exactly when it is not kept; a kept entry's section is never empty. */
  lemma ContributionEmptyIff(entry: PageSummary, texts: map<string, string>)
    ensures PageContribution(entry, texts) == "" <==> !Kept(entry, texts)
  {
    if Kept(entry, texts) {
      assert |DiaryEntrySection(entry.id, texts[entry.id])| > 0;
    }
  }

  /**
   * The aggregated text is empty exactly when every fetch failed or gave a
   * page whose text is only whitespace.
   */
  lemma AggregateEmptyIff(entries: seq<PageSummary>, texts: map<string, string>)
    ensures AggregateText(entries, texts) == ""
            <==> forall k :: 0 <= k < |entries| ==> entries[k].id !in texts || IsBlank(texts[entries[k].id])
  {
    ConcatEmptyIff(Contributions(entries, texts));
    forall k | 0 <= k < |entries| {
      ContributionEmptyIff(entries[k], texts);
    }
  }

  // ----- gen_weekly_report_prompt, the query and the new page -----

  /**
   * `gen_weekly_report_prompt`: the whole aggregated text as the one part of
   * one user turn, the instruction (the weekly-report prompt file) as a
   * one-part user turn, and the default generation config.
   */
  function GenWeeklyReportPrompt(diary_content: string, instruction: string): (p: ChatPrompt)
    ensures p.system_instruction == Some(PromptContent(Some(User), [Part(instruction)]))
    ensures |p.contents| == 1 && p.contents[0].role == Some(User) && Texts(p.contents[0].parts) == [diary_content]
    ensures p.generation_config == Some(DefaultConfig())
  {
    var system_instruction := UserTurn([Part(instruction)]);
    ChatPrompt([UserTurn([Part(diary_content)])], Some(system_instruction), Some(DefaultConfig()))
  }

  /** The first day of the report's period. */
  function WeekStart(today: Date): Date
  {
    today - 7
  }

  /** The diary query: entries dated from a week ago to today, oldest first. */
  function WeeklyQuery(today: Date): DatabaseQuery
  {
    DatabaseQuery(
      Some(And([DateOnOrAfter(DATE_PROPERTY, WeekStart(today)), DateOnOrBefore(DATE_PROPERTY, today)])),
      Some([Sort(DATE_PROPERTY, Ascending)]))
  }

  /**
   * An entry matches the weekly query exactly when its date lies between
   * seven days ago and today, both included: eight days in all.
   */
  lemma WeeklyWindow(today: Date, dates: map<string, Date>)
    ensures WeeklyQuery(today).filter.Some?
    ensures Matches(WeeklyQuery(today).filter.value, dates)
            <==> DATE_PROPERTY in dates && today - 7 <= dates[DATE_PROPERTY] <= today
    ensures WeeklyQuery(today).sorts == Some([Sort(DATE_PROPERTY, Ascending)])
  {
    var after, before := DateOnOrAfter(DATE_PROPERTY, WeekStart(today)), DateOnOrBefore(DATE_PROPERTY, today);
    var f := And([after, before]);
    assert Matches(after, dates) <==> DATE_PROPERTY in dates && dates[DATE_PROPERTY] >= today - 7;
    assert Matches(before, dates) <==> DATE_PROPERTY in dates && dates[DATE_PROPERTY] <= today;
    assert Matches(f, dates) <==> Matches(after, dates) && Matches(before, dates) by {
      assert forall g :: g in [after, before] <==> g == after || g == before;
    }
  }

  /** The new page's title: "週次レポート (<week start> ~ <today>)". */
  function ReportTitle(today: Date): string
  {
    "週次レポート (" + Calendar.FormatDate(WeekStart(today)) + " ~ " + Calendar.FormatDate(today) + ")"
  }

  /** The report run on 2026-04-03 (day 20546) covers 2026-03-27 to 2026-04-03. */
  lemma ReportTitleExample()
    ensures ReportTitle(20546) == "週次レポート (" + "2026-03-27" + " ~ " + "2026-04-03" + ")"
  {
    ExampleWeekStart();
    ExampleToday();
  }

  lemma CivilWeekStartExample()
    ensures Calendar.CivilFromDays(20539) == Calendar.CivilDate(2026, 3, 27)
  {
    assert 20539 + Calendar.EpochShift == 740007 && 740007 / 146097 == 5 && 740007 % 146097 == 9522;
    assert 9522 / 36524 == 0 && 9522 / 1461 == 6 && 9522 % 1461 == 756 && 756 / 365 == 2;
    assert Calendar.SplitEra(9522) == Calendar.EraDay(26, 26);
    assert Calendar.MonthDay(26) == (3, 27);
  }

  lemma ExampleWeekStart()
    ensures Calendar.FormatDate(20539) == "2026-03-27"
  {
    CivilWeekStartExample();
    Calendar.FormatCivilDigits(Calendar.CivilDate(2026, 3, 27));
    Calendar.DigitChars();
    assert 2026 / 1000 == 2 && 2026 / 100 % 10 == 0 && 2026 / 10 % 10 == 2 && 2026 % 10 == 6;
    assert 3 / 10 == 0 && 3 % 10 == 3 && 27 / 10 == 2 && 27 % 10 == 7;
  }

  lemma CivilTodayExample()
    ensures Calendar.CivilFromDays(20546) == Calendar.CivilDate(2026, 4, 3)
  {
    assert 20546 + Calendar.EpochShift == 740014 && 740014 / 146097 == 5 && 740014 % 146097 == 9529;
    assert 9529 / 36524 == 0 && 9529 / 1461 == 6 && 9529 % 1461 == 763 && 763 / 365 == 2;
    assert Calendar.SplitEra(9529) == Calendar.EraDay(26, 33);
    assert Calendar.MonthDay(33) == (4, 3);
  }

  lemma ExampleToday()
    ensures Calendar.FormatDate(20546) == "2026-04-03"
  {
    CivilTodayExample();
    Calendar.FormatCivilDigits(Calendar.CivilDate(2026, 4, 3));
    Calendar.DigitChars();
    assert 2026 / 1000 == 2 && 2026 / 100 % 10 == 0 && 2026 / 10 % 10 == 2 && 2026 % 10 == 6;
    assert 4 / 10 == 0 && 4 % 10 == 4 && 3 / 10 == 0 && 3 % 10 == 3;
  }

  /** The request filing a copy of the report in the report database. */
  function ReportRequest(report_db_id: string, today: Date, blocks: seq<NotionBlock>): CreatePageRequest
  {
    CreatePageRequest(report_db_id, PageProperties(TITLE_PROPERTY, ReportTitle(today), DATE_PROPERTY, today), blocks)
  }

  // ----- weekly_report_process -----

  /**
   * `weekly_report_process` for the report page named by the webhook.
   * The query failing ends the run. With no diary text, the page is cleared
   * and given one paragraph saying so, and nothing is generated. Otherwise
   * the report is generated first, then the page is cleared, the report
   * appended, and a copy filed; a failure to file the copy does not fail the
   * run. Any other failure ends the run with its error.
   */
  method WeeklyReportProcess(s: Services, notion: Service.NotionService, payload: NotionWebhookPayload,
                             today: Date, instruction: string)
    returns (r: Result<(), ApiError>)
    requires s.Valid()
    modifies s
    ensures s.Valid()
    ensures s.queryResult.None? ==>
              r == Err(QueryFailed) && s.children == old(s.children)
              && s.events == old(s.events) + [QueryCall(notion.diary_db_id, WeeklyQuery(today))]
    ensures s.queryResult.Some? && AggregateText(s.queryResult.value, PageTexts(s.pages)) == "" ==>
              var report_page := payload.data.id;
              var cleared := old(s.events) + [QueryCall(notion.diary_db_id, WeeklyQuery(today))]
                             + FetchCalls(s.queryResult.value) + ClearEvents(s, report_page, old(s.children));
              s.children == ListingAfterClear(s, old(s.children))
              && if ClearOutcome(s, report_page, old(s.children)).Err? then
                   r == ClearOutcome(s, report_page, old(s.children)) && s.events == cleared
                 else
                   r == (if s.appendFails then Err(AppendFailed(report_page)) else Ok(()))
                   && s.events == cleared + [AppendCall(report_page, [ParagraphBlock(NO_DIARY_MESSAGE)])]
    ensures s.queryResult.Some? && AggregateText(s.queryResult.value, PageTexts(s.pages)) != "" ==>
              var report_page := payload.data.id;
              var prompt := GenWeeklyReportPrompt(AggregateText(s.queryResult.value, PageTexts(s.pages)), instruction);
              var generated := old(s.events) + [QueryCall(notion.diary_db_id, WeeklyQuery(today))]
                               + FetchCalls(s.queryResult.value) + [GenerateCall(prompt, Gemini3Flash)];
              if s.generation.None? then
                r == Err(GenerationFailed) && s.events == generated && s.children == old(s.children)
              else
                var blocks := s.generation.value;
                var cleared := generated + ClearEvents(s, report_page, old(s.children));
                s.children == ListingAfterClear(s, old(s.children))
                && if ClearOutcome(s, report_page, old(s.children)).Err? then
                     r == ClearOutcome(s, report_page, old(s.children)) && s.events == cleared
                   else if s.appendFails then
                     r == Err(AppendFailed(report_page)) && s.events == cleared + [AppendCall(report_page, blocks)]
                   else
                     r == Ok(())
                     && s.events == cleared + [AppendCall(report_page, blocks)]
                                        + [CreateCall(ReportRequest(notion.report_db_id, today, blocks))]
  {
    var report_page_id := payload.data.id;
    ghost var before := s.children;
    var query := WeeklyQuery(today);
    var queried := s.QueryDatabase(notion.diary_db_id, query);
    if queried.Err? {
      return Err(queried.error);
    }
    var all_diary_text := AggregateDiaryText(s, queried.value);
    ghost var fetched := s.events;
    assert fetched == old(s.events) + [QueryCall(notion.diary_db_id, WeeklyQuery(today))] + FetchCalls(queried.value);
    assert s.children == before;

    if all_diary_text == "" {
      var cleared := ClearPageContent(s, report_page_id);
      assert s.events == fetched + ClearEvents(s, report_page_id, before);
      if cleared.Err? {
        return Err(cleared.error);
      }
      r := s.AppendBlocks(report_page_id, [ParagraphBlock(NO_DIARY_MESSAGE)]);
      return;
    }

    var prompt := GenWeeklyReportPrompt(all_diary_text, instruction);
    var generated := s.Generate(prompt, Gemini3Flash);
    ghost var afterGenerate := s.events;
    assert afterGenerate == fetched + [GenerateCall(prompt, Gemini3Flash)];
    if generated.Err? {
      return Err(generated.error);
    }
    var gened_blocks := generated.value;

    var cleared := ClearPageContent(s, report_page_id);
    assert s.events == afterGenerate + ClearEvents(s, report_page_id, before);
    if cleared.Err? {
      return Err(cleared.error);
    }
    var appended := s.AppendBlocks(report_page_id, gened_blocks);
    if appended.Err? {
      return Err(appended.error);
    }

    var create_page_request := ReportRequest(notion.report_db_id, today, gened_blocks);
    var created := s.CreatePage(create_page_request);
    r := Ok(());
  }
}
