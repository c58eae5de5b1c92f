/**
 * The remote services the automations call (the Notion and Gemini HTTP
 * clients behind src/api.rs), as one object: how each remote call turns out
 * is fixed when the object is made, the block listing of the page being
 * cleared changes as blocks are deleted, and every call made is recorded in
 * order in `events`.
 */
module Store {
  import opened Wrappers
  import opened NotionTypes
  import opened GeminiTypes

  datatype ApiError =
    | FetchFailed(page_id: string)
    | QueryFailed
    | GenerationFailed
    | ListFailed(list_page_id: string)
    | DeleteFailed(block_id: string)
    | AppendFailed(append_page_id: string)
    | CreateFailed

  /** One remote call, with its arguments. */
  datatype Event =
    | FetchCall(page_id: string)
    | QueryCall(database_id: string, query: DatabaseQuery)
    | GenerateCall(prompt: ChatPrompt, model: GeminiModel)
    | ListCall(list_page_id: string)
    | DeleteCall(block_id: string)
    | AppendCall(append_page_id: string, blocks: seq<NotionBlock>)
    | CreateCall(request: CreatePageRequest)

  /** Block ids are unique within a listing. */
  predicate UniqueIds(bs: seq<BlockRef>)
  {
    forall i, j :: 0 <= i < j < |bs| ==> bs[i].id != bs[j].id
  }

  /** The listing after the block `id` is deleted. */
  function Without(bs: seq<BlockRef>, id: string): seq<BlockRef>
  {
    if |bs| == 0 then []
    else (if bs[0].id == id then [] else [bs[0]]) + Without(bs[1..], id)
  }

  lemma {:induction false} WithoutAppend(a: seq<BlockRef>, b: seq<BlockRef>, id: string)
    ensures Without(a + b, id) == Without(a, id) + Without(b, id)
  {
    if |a| == 0 {
      assert a + b == b;
    } else {
      assert (a + b)[0] == a[0];
      assert (a + b)[1..] == a[1..] + b;
      WithoutAppend(a[1..], b, id);
    }
  }

  /** Deleting an id the listing does not hold changes nothing. */
  lemma {:induction false} WithoutAbsent(bs: seq<BlockRef>, id: string)
    requires forall i :: 0 <= i < |bs| ==> bs[i].id != id
    ensures Without(bs, id) == bs
  {
    if |bs| > 0 {
      WithoutAbsent(bs[1..], id);
    }
  }

  /** Deleting keeps only blocks that were there. */
  lemma {:induction false} WithoutSubset(bs: seq<BlockRef>, id: string)
    ensures forall k :: 0 <= k < |Without(bs, id)| ==> Without(bs, id)[k] in bs
  {
    if |bs| > 0 {
      WithoutSubset(bs[1..], id);
    }
  }

  /** A block whose id no other block has can go in front of a listing with unique ids. */
  lemma UniqueCons(b: BlockRef, rest: seq<BlockRef>)
    requires UniqueIds(rest)
    requires forall k :: 0 <= k < |rest| ==> rest[k].id != b.id
    ensures UniqueIds([b] + rest)
  {
    var w := [b] + rest;
    forall i, j | 0 <= i < j < |w| ensures w[i].id != w[j].id {
      assert w[j] == rest[j - 1];
      if i > 0 {
        assert w[i] == rest[i - 1];
      }
    }
  }

  /** In a listing with unique ids, no later block shares the first block's id. */
  lemma HeadIdNotInTail(bs: seq<BlockRef>, id: string)
    requires |bs| > 0 && UniqueIds(bs)
    ensures forall k :: 0 <= k < |Without(bs[1..], id)| ==> Without(bs[1..], id)[k].id != bs[0].id
  {
    var rest := Without(bs[1..], id);
    WithoutSubset(bs[1..], id);
    forall k | 0 <= k < |rest| ensures rest[k].id != bs[0].id {
      var j :| 0 <= j < |bs[1..]| && bs[1..][j] == rest[k];
      assert bs[j + 1] == rest[k];
    }
  }

  /** Deleting keeps the ids unique. */
  lemma {:induction false} WithoutUnique(bs: seq<BlockRef>, id: string)
    requires UniqueIds(bs)
    ensures UniqueIds(Without(bs, id))
  {
    if |bs| > 0 {
      assert UniqueIds(bs[1..]) by {
        forall i, j | 0 <= i < j < |bs[1..]| ensures bs[1..][i].id != bs[1..][j].id {
          assert bs[1..][i] == bs[i + 1] && bs[1..][j] == bs[j + 1];
        }
      }
      WithoutUnique(bs[1..], id);
      if bs[0].id != id {
        HeadIdNotInTail(bs, id);
        UniqueCons(bs[0], Without(bs[1..], id));
      }
    }
  }

  class Services {
    /** The blocks of every page a fetch can read; fetching any other page fails. */
    const pages: map<string, seq<NotionBlock>>
    /** What querying a database gives; `None` is a failed query. */
    const queryResult: Option<seq<PageSummary>>
    /** What a generation call gives; `None` is a failed call. */
    const generation: Option<seq<NotionBlock>>
    const listFails: bool
    /** The block ids whose deletion fails. */
    const failingDeletes: set<string>
    const appendFails: bool
    const createFails: bool

    /** The block listing of the page being cleared. */
    var children: seq<BlockRef>
    /** Every remote call made so far, in order. */
    var events: seq<Event>

    ghost predicate Valid()
      reads this`children
    {
      UniqueIds(children)
    }

    constructor (pages: map<string, seq<NotionBlock>>, queryResult: Option<seq<PageSummary>>,
                 generation: Option<seq<NotionBlock>>, listFails: bool, failingDeletes: set<string>,
                 appendFails: bool, createFails: bool, children: seq<BlockRef>)
      requires UniqueIds(children)
      ensures Valid()
      ensures this.pages == pages && this.queryResult == queryResult && this.generation == generation
      ensures this.listFails == listFails && this.failingDeletes == failingDeletes
      ensures this.appendFails == appendFails && this.createFails == createFails
      ensures this.children == children && this.events == []
    {
      this.pages := pages;
      this.queryResult := queryResult;
      this.generation := generation;
      this.listFails := listFails;
      this.failingDeletes := failingDeletes;
      this.appendFails := appendFails;
      this.createFails := createFails;
      this.children := children;
      this.events := [];
    }

    /** `fetch_notion_page`: the page's top-level blocks. */
    method FetchPage(page_id: string) returns (r: Result<NotionPageDetail, ApiError>)
      modifies this`events
      ensures events == old(events) + [FetchCall(page_id)]
      ensures r == if page_id in pages
                   then Ok(NotionPageDetail(NotionPageRef(page_id), NotionBlockList(pages[page_id])))
                   else Err(FetchFailed(page_id))
    {
      events := events + [FetchCall(page_id)];
      if page_id in pages {
        r := Ok(NotionPageDetail(NotionPageRef(page_id), NotionBlockList(pages[page_id])));
      } else {
        r := Err(FetchFailed(page_id));
      }
    }

    /** `query_database`. */
    method QueryDatabase(database_id: string, query: DatabaseQuery) returns (r: Result<seq<PageSummary>, ApiError>)
      modifies this`events
      ensures events == old(events) + [QueryCall(database_id, query)]
      ensures r == if queryResult.Some? then Ok(queryResult.value) else Err(QueryFailed)
    {
      events := events + [QueryCall(database_id, query)];
      r := if queryResult.Some? then Ok(queryResult.value) else Err(QueryFailed);
    }

    /** `gen_notion_page_contents_from_gemini_api`: the generated blocks. */
    method Generate(prompt: ChatPrompt, model: GeminiModel) returns (r: Result<seq<NotionBlock>, ApiError>)
      modifies this`events
      ensures events == old(events) + [GenerateCall(prompt, model)]
      ensures r == if generation.Some? then Ok(generation.value) else Err(GenerationFailed)
    {
      events := events + [GenerateCall(prompt, model)];
      r := if generation.Some? then Ok(generation.value) else Err(GenerationFailed);
    }

    /** `fetch_block_ids`: the listing of the page being cleared. */
    method ListBlockIds(page_id: string) returns (r: Result<seq<BlockRef>, ApiError>)
      modifies this`events
      ensures events == old(events) + [ListCall(page_id)]
      ensures r == if listFails then Err(ListFailed(page_id)) else Ok(children)
    {
      events := events + [ListCall(page_id)];
      r := if listFails then Err(ListFailed(page_id)) else Ok(children);
    }

    /** `delete_block`: a successful delete removes the block from the listing. */
    method DeleteBlock(block_id: string) returns (r: Result<(), ApiError>)
      requires Valid()
      modifies this
      ensures Valid()
      ensures events == old(events) + [DeleteCall(block_id)]
      ensures r == if block_id in failingDeletes then Err(DeleteFailed(block_id)) else Ok(())
      ensures children == if block_id in failingDeletes then old(children) else Without(old(children), block_id)
    {
      events := events + [DeleteCall(block_id)];
      if block_id in failingDeletes {
        r := Err(DeleteFailed(block_id));
      } else {
        WithoutUnique(children, block_id);
        children := Without(children, block_id);
        r := Ok(());
      }
    }

    /** `append_notion_block_to_page`. */
    method AppendBlocks(page_id: string, blocks: seq<NotionBlock>) returns (r: Result<(), ApiError>)
      modifies this`events
      ensures events == old(events) + [AppendCall(page_id, blocks)]
      ensures r == if appendFails then Err(AppendFailed(page_id)) else Ok(())
    {
      events := events + [AppendCall(page_id, blocks)];
      r := if appendFails then Err(AppendFailed(page_id)) else Ok(());
    }

    /** `create_page`. */
    method CreatePage(request: CreatePageRequest) returns (r: Result<(), ApiError>)
      modifies this`events
      ensures events == old(events) + [CreateCall(request)]
      ensures r == if createFails then Err(CreateFailed) else Ok(())
    {
      events := events + [CreateCall(request)];
      r := if createFails then Err(CreateFailed) else Ok(());
    }
  }
}
