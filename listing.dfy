/** The bucket listings: `list_files_in_a_basket` and `clear_basket`, which
    walk the pages of `list_objects_v2`, and `list_folders_in_a_basket`, which
    reads the common prefixes of a single delimited listing. The storage
    service is not modelled: what it answers (the pages the paginator
    yields, the reply to each batch delete) is given as input. */
module Listing {
  import opened Outcomes
  import opened PyStrings

  /** One entry of a page's `Contents`. */
  datatype ObjectSummary = ObjectSummary(key: string)

  /** One page of `list_objects_v2`; `contents` is `None` when the page has
      no `Contents` entry (an empty bucket, for one). */
  datatype Page = Page(contents: Option<seq<ObjectSummary>>)

  /** What the paginator yields when asked for the next page: the page, or
      an exception. */
  datatype PageFetch = Fetched(page: Page) | FetchFailed

  /** The keys of a list of summaries, in order. */
  function Keys(objs: seq<ObjectSummary>): seq<string> {
    seq(|objs|, i requires 0 <= i < |objs| => objs[i].key)
  }

  /** Taking one more summary adds its key at the end. */
  lemma KeysOfLonger(objs: seq<ObjectSummary>, j: nat)
    requires j < |objs|
    ensures Keys(objs[..j + 1]) == Keys(objs[..j]) + [objs[j].key]
  {
  }

  /** The keys a page lists; none when it has no `Contents`. */
  function PageKeys(p: Page): seq<string> {
    match p.contents
    case None => []
    case Some(objs) => Keys(objs)
  }

  /** Every key of the pages, page after page. */
  function AllKeys(pages: seq<Page>): seq<string> {
    if pages == [] then [] else PageKeys(pages[0]) + AllKeys(pages[1..])
  }

  /** The total number of keys across the pages: the sum of the lengths of
      their key lists. */
  function KeyCount(pages: seq<Page>): nat {
    if pages == [] then 0 else |PageKeys(pages[0])| + KeyCount(pages[1..])
  }

  /** The paginator yielded every page without raising. */
  predicate AllFetched(fetches: seq<PageFetch>) {
    forall i :: 0 <= i < |fetches| ==> fetches[i].Fetched?
  }

  /** The pages of a run in which nothing was raised. */
  function PagesOf(fetches: seq<PageFetch>): (pages: seq<Page>)
    requires AllFetched(fetches)
    ensures |pages| == |fetches|
    ensures forall i :: 0 <= i < |fetches| ==> pages[i] == fetches[i].page
  {
    seq(|fetches|, i requires 0 <= i < |fetches| => fetches[i].page)
  }

  /** Listing the pages one after the other is listing each part in turn. */
  lemma {:induction false} AllKeysAppend(a: seq<Page>, b: seq<Page>)
    ensures AllKeys(a + b) == AllKeys(a) + AllKeys(b)
    decreases |a|
  {
    if a != [] {
      assert (a + b)[1..] == a[1..] + b;
      AllKeysAppend(a[1..], b);
    } else {
      assert a + b == b;
    }
  }

  /** A page after others lists its keys last. */
  lemma AllKeysSnoc(pages: seq<Page>, p: Page)
    ensures AllKeys(pages + [p]) == AllKeys(pages) + PageKeys(p)
  {
    AllKeysAppend(pages, [p]);
    assert [p][1..] == [];
  }

  /** The listing holds as many keys as the pages do together. */
  lemma {:induction false} AllKeysLength(pages: seq<Page>)
    ensures |AllKeys(pages)| == KeyCount(pages)
    decreases |pages|
  {
    if pages != [] {
      AllKeysLength(pages[1..]);
    }
  }

  /** A key is listed exactly when some page lists it. */
  lemma {:induction false} AllKeysMembership(pages: seq<Page>, k: string)
    ensures k in AllKeys(pages) <==> exists i :: 0 <= i < |pages| && k in PageKeys(pages[i])
    decreases |pages|
  {
    if pages != [] {
      var rest := pages[1..];
      AllKeysMembership(rest, k);
      assert forall i :: 0 <= i < |rest| ==> rest[i] == pages[i + 1];
      if k in AllKeys(pages) && k !in PageKeys(pages[0]) {
        var i :| 0 <= i < |rest| && k in PageKeys(rest[i]);
        assert k in PageKeys(pages[i + 1]);
      }
    }
  }

  /** Going one page further in a run without exceptions appends that
      page's keys to the listing. */
  lemma ListedOneMorePage(fetches: seq<PageFetch>, i: nat)
    requires i < |fetches| && AllFetched(fetches[..i + 1])
    ensures AllFetched(fetches[..i])
    ensures AllKeys(PagesOf(fetches[..i + 1])) == AllKeys(PagesOf(fetches[..i])) + PageKeys(fetches[i].page)
  {
    assert fetches[..i + 1][..i] == fetches[..i];
    assert PagesOf(fetches[..i + 1]) == PagesOf(fetches[..i]) + [fetches[i].page];
    AllKeysSnoc(PagesOf(fetches[..i]), fetches[i].page);
  }

  /** `list_files_in_a_basket`: append the key of every object on every
      page, in order; if the paginator raises, the error is swallowed and
      the result is an empty list. */
  method ListFiles(fetches: seq<PageFetch>) returns (files: seq<string>)
    ensures files == if AllFetched(fetches) then AllKeys(PagesOf(fetches)) else []
  {
    files := [];
    var i := 0;
    while i < |fetches|
      invariant 0 <= i <= |fetches|
      invariant AllFetched(fetches[..i])
      invariant files == AllKeys(PagesOf(fetches[..i]))
    {
      match fetches[i]
      case FetchFailed =>
        return [];
      case Fetched(page) =>
        ghost var before := files;
        if page.contents.Some? {
          var objs := page.contents.value;
          var j := 0;
          while j < |objs|
            invariant 0 <= j <= |objs|
            invariant files == before + Keys(objs[..j])
          {
            KeysOfLonger(objs, j);
            files := files + [objs[j].key];
            j := j + 1;
          }
          assert objs[..j] == objs;
        }
        assert files == before + PageKeys(page);
        ListedOneMorePage(fetches, i);
        i := i + 1;
    }
    assert fetches[..i] == fetches;
  }

  /** The pages the service returns for a bucket holding `keys`, at most
      `pageSize` keys a page; an empty bucket gives one page with no
      `Contents`. */
  function ServicePages(keys: seq<string>, pageSize: nat): (pages: seq<Page>)
    requires pageSize >= 1
    ensures pages != []
    ensures forall i :: 0 <= i < |pages| ==> |PageKeys(pages[i])| <= pageSize
    decreases |keys|
  {
    if |keys| <= pageSize then [PageOf(keys)]
    else [PageOf(keys[..pageSize])] + ServicePages(keys[pageSize..], pageSize)
  }

  /** A page listing `keys`. */
  function PageOf(keys: seq<string>): (p: Page)
    ensures PageKeys(p) == keys
  {
    Page(if keys == [] then None else Some(seq(|keys|, i requires 0 <= i < |keys| => ObjectSummary(keys[i]))))
  }

  /** Whatever the page size, listing the pages of a bucket gives back every
      key of the bucket, once each, in the service's order. */
  lemma {:induction false} ListingIgnoresPageSize(keys: seq<string>, pageSize: nat)
    requires pageSize >= 1
    ensures AllKeys(ServicePages(keys, pageSize)) == keys
    decreases |keys|
  {
    if |keys| <= pageSize {
      AllKeysCons(PageOf(keys), []);
      assert keys + [] == keys;
    } else {
      var head, tail := keys[..pageSize], keys[pageSize..];
      var rest := ServicePages(tail, pageSize);
      assert ServicePages(keys, pageSize) == [PageOf(head)] + rest;
      AllKeysCons(PageOf(head), rest);
      ListingIgnoresPageSize(tail, pageSize);
      assert head + tail == keys;
    }
  }

  /** A page in front of others lists its keys first. */
  lemma AllKeysCons(p: Page, pages: seq<Page>)
    ensures AllKeys([p] + pages) == PageKeys(p) + AllKeys(pages)
  {
    assert ([p] + pages)[0] == p && ([p] + pages)[1..] == pages;
  }

  /** The service's reply to one `delete_objects` call: the keys it reports
      under `Deleted` (the entry may be missing), or an exception. */
  datatype DeleteReply = Deleted(keys: Option<seq<string>>) | DeleteRaised

  /** The service, as the reply it gives to the `n`-th batch sent. */
  type DeleteService = (nat, seq<string>) -> DeleteReply

  /** Where a `clear_basket` run stands: the batches sent so far, the
      running count of deletions reported, and whether an exception ended
      the run. */
  datatype ClearState = ClearState(sent: seq<seq<string>>, deleted: nat, aborted: bool)

  /** One page of `clear_basket`: a page with keys becomes one batch, and
      the count grows by the length of the reply's `Deleted` list. */
  function ClearPage(s: ClearState, keys: seq<string>, service: DeleteService): (t: ClearState)
    requires !s.aborted
    ensures keys == [] ==> t == s
    ensures keys != [] ==> t.sent == s.sent + [keys]
    ensures !t.aborted ==> t.deleted >= s.deleted
  {
    if keys == [] then s
    else
      match service(|s.sent|, keys)
      case DeleteRaised => ClearState(s.sent + [keys], s.deleted, true)
      case Deleted(reported) => ClearState(s.sent + [keys], s.deleted + |reported.GetOr([])|, false)
  }

  /** The state after `clear_basket` has gone through the given fetches;
      nothing happens after an exception. */
  function ClearRun(fetches: seq<PageFetch>, service: DeleteService): ClearState
    decreases |fetches|
  {
    if fetches == [] then ClearState([], 0, false)
    else
      var s := ClearRun(fetches[..|fetches| - 1], service);
      if s.aborted then s
      else
        match fetches[|fetches| - 1]
        case FetchFailed => s.(aborted := true)
        case Fetched(page) => ClearPage(s, PageKeys(page), service)
  }

  /** Once an exception has ended the run, later pages change nothing. */
  lemma {:induction false} ClearRunStopsOnError(fetches: seq<PageFetch>, service: DeleteService, i: nat)
    requires i <= |fetches| && ClearRun(fetches[..i], service).aborted
    ensures ClearRun(fetches, service) == ClearRun(fetches[..i], service)
    decreases |fetches| - i
  {
    if i < |fetches| {
      assert fetches[..i + 1][..i] == fetches[..i];
      ClearRunStopsOnError(fetches, service, i + 1);
    } else {
      assert fetches[..i] == fetches;
    }
  }

  /** `clear_basket`: for every page with keys, send one `delete_objects`
      batch of exactly that page's keys and add the length of the reply's
      `Deleted` list to the count. Returns the batches sent and the count
      reported at the end, which is absent when an exception ended the run. */
  method ClearBucket(fetches: seq<PageFetch>, service: DeleteService)
    returns (sent: seq<seq<string>>, reported: Option<nat>)
    ensures sent == ClearRun(fetches, service).sent
    ensures reported == if ClearRun(fetches, service).aborted then None else Some(ClearRun(fetches, service).deleted)
  {
    sent := [];
    var deletedCount: nat := 0;
    var i := 0;
    while i < |fetches|
      invariant 0 <= i <= |fetches|
      invariant ClearRun(fetches[..i], service) == ClearState(sent, deletedCount, false)
    {
      assert fetches[..i + 1][..i] == fetches[..i];
      match fetches[i]
      case FetchFailed =>
        ClearRunStopsOnError(fetches, service, i + 1);
        return sent, None;
      case Fetched(page) =>
        if page.contents.Some? {
          var batch := Keys(page.contents.value);
          if batch != [] {
            var reply := service(|sent|, batch);
            sent := sent + [batch];
            match reply
            case DeleteRaised =>
              ClearRunStopsOnError(fetches, service, i + 1);
              return sent, None;
            case Deleted(reported) =>
              deletedCount := deletedCount + |reported.GetOr([])|;
          }
        }
        i := i + 1;
    }
    assert fetches[..i] == fetches;
    reported := Some(deletedCount);
  }

  /** The batches a clear sends for the pages: one per page that lists
      keys, holding exactly that page's keys. */
  function Batches(pages: seq<Page>): seq<seq<string>> {
    if pages == [] then []
    else
      var keys := PageKeys(pages[|pages| - 1]);
      Batches(pages[..|pages| - 1]) + (if keys == [] then [] else [keys])
  }

  /** The batches laid end to end. */
  function Flatten(batches: seq<seq<string>>): seq<string> {
    if batches == [] then [] else Flatten(batches[..|batches| - 1]) + batches[|batches| - 1]
  }

  /** The service never raises on a batch delete. */
  ghost predicate NeverRaises(service: DeleteService) {
    forall n, keys :: service(n, keys).Deleted?
  }

  /** The service reports every key of every batch as deleted. */
  ghost predicate DeletesEverything(service: DeleteService) {
    forall n, keys :: service(n, keys) == Deleted(Some(keys))
  }

  /** No batch a clear sends is empty. */
  lemma {:induction false} BatchesNonEmpty(pages: seq<Page>)
    ensures forall j :: 0 <= j < |Batches(pages)| ==> Batches(pages)[j] != []
    decreases |pages|
  {
    if pages != [] {
      BatchesNonEmpty(pages[..|pages| - 1]);
    }
  }

  /** Laid end to end, the batches are the keys of the pages in order. */
  lemma {:induction false} FlattenBatches(pages: seq<Page>)
    ensures Flatten(Batches(pages)) == AllKeys(pages)
    decreases |pages|
  {
    if pages != [] {
      var init, last := pages[..|pages| - 1], pages[|pages| - 1];
      FlattenBatches(init);
      assert pages == init + [last];
      AllKeysSnoc(init, last);
      var before := Batches(init);
      if PageKeys(last) != [] {
        var after := before + [PageKeys(last)];
        assert Batches(pages) == after;
        assert after[..|before|] == before && after[|before|] == PageKeys(last);
        assert Flatten(after) == Flatten(before) + PageKeys(last);
      } else {
        assert before + [] == before && AllKeys(init) + [] == AllKeys(init);
        assert Batches(pages) == before;
      }
    }
  }

  /** A run that ended without an exception got there from a shorter run
      that also did, and its last page was fetched. */
  lemma CompletedRunPrefix(fetches: seq<PageFetch>, service: DeleteService)
    requires fetches != [] && !ClearRun(fetches, service).aborted
    ensures !ClearRun(fetches[..|fetches| - 1], service).aborted
    ensures fetches[|fetches| - 1].Fetched?
  {
  }

  /** In a run that ended without an exception every page was fetched. */
  lemma {:induction false} CompletedRunFetchedAll(fetches: seq<PageFetch>, service: DeleteService)
    requires !ClearRun(fetches, service).aborted
    ensures AllFetched(fetches)
    decreases |fetches|
  {
    if fetches != [] {
      var init := fetches[..|fetches| - 1];
      CompletedRunPrefix(fetches, service);
      CompletedRunFetchedAll(init, service);
      assert forall i :: 0 <= i < |init| ==> fetches[i] == init[i];
    }
  }

  /** When every page is fetched and the service never raises, the run ends
      without an exception. */
  lemma {:induction false} NoExceptionWhenServiceNeverRaises(fetches: seq<PageFetch>, service: DeleteService)
    requires AllFetched(fetches) && NeverRaises(service)
    ensures !ClearRun(fetches, service).aborted
    decreases |fetches|
  {
    if fetches != [] {
      var init := fetches[..|fetches| - 1];
      assert AllFetched(init);
      NoExceptionWhenServiceNeverRaises(init, service);
    }
  }

  /** A clear that ends without an exception has sent exactly the batches
      of the pages. */
  lemma {:induction false} ClearSendsBatches(fetches: seq<PageFetch>, service: DeleteService)
    requires !ClearRun(fetches, service).aborted
    ensures AllFetched(fetches)
    ensures ClearRun(fetches, service).sent == Batches(PagesOf(fetches))
    decreases |fetches|
  {
    CompletedRunFetchedAll(fetches, service);
    if fetches != [] {
      var init := fetches[..|fetches| - 1];
      CompletedRunPrefix(fetches, service);
      ClearSendsBatches(init, service);
      assert PagesOf(fetches) == PagesOf(init) + [fetches[|fetches| - 1].page];
    }
  }

  /** A clear that ends without an exception has sent one batch per page
      that lists keys, and no batch is empty; laid end to end the batches
      are exactly what `list_files_in_a_basket` lists for the same pages. */
  lemma ClearSendsEveryListedKey(fetches: seq<PageFetch>, service: DeleteService)
    requires !ClearRun(fetches, service).aborted
    ensures AllFetched(fetches)
    ensures ClearRun(fetches, service).sent == Batches(PagesOf(fetches))
    ensures forall j :: 0 <= j < |Batches(PagesOf(fetches))| ==> Batches(PagesOf(fetches))[j] != []
    ensures Flatten(ClearRun(fetches, service).sent) == AllKeys(PagesOf(fetches))
  {
    ClearSendsBatches(fetches, service);
    BatchesNonEmpty(PagesOf(fetches));
    FlattenBatches(PagesOf(fetches));
  }

  /** When the service deletes every key it is sent, the count a clear
      reports is the number of keys `list_files_in_a_basket` lists. */
  lemma {:induction false} ClearCountsListedKeys(fetches: seq<PageFetch>, service: DeleteService)
    requires AllFetched(fetches) && DeletesEverything(service)
    ensures !ClearRun(fetches, service).aborted
    ensures ClearRun(fetches, service).deleted == |AllKeys(PagesOf(fetches))|
    decreases |fetches|
  {
    if fetches != [] {
      var init := fetches[..|fetches| - 1];
      assert AllFetched(init);
      ClearCountsListedKeys(init, service);
      var last := fetches[|fetches| - 1].page;
      assert PagesOf(fetches) == PagesOf(init) + [last];
      AllKeysSnoc(PagesOf(init), last);
    }
  }

  /** How many deletions one reply reports: the length of its `Deleted`
      list, none when the entry is missing or the call raised. */
  function ReportedCount(reply: DeleteReply): nat {
    match reply
    case Deleted(keys) => |keys.GetOr([])|
    case DeleteRaised => 0
  }

  /** The deletions the service reports for the batches, the `n`-th batch
      being the `n`-th call. */
  function ReportedTotal(batches: seq<seq<string>>, service: DeleteService): nat {
    if batches == [] then 0
    else ReportedTotal(batches[..|batches| - 1], service)
         + ReportedCount(service(|batches| - 1, batches[|batches| - 1]))
  }

  /** In a clear that ends without an exception, the count reported is the
      sum, over the batches sent, of the lengths of the `Deleted` lists in
      the replies. */
  lemma {:induction false} ClearCountIsReportedTotal(fetches: seq<PageFetch>, service: DeleteService)
    requires !ClearRun(fetches, service).aborted
    ensures ClearRun(fetches, service).deleted == ReportedTotal(ClearRun(fetches, service).sent, service)
    decreases |fetches|
  {
    if fetches != [] {
      var init := fetches[..|fetches| - 1];
      CompletedRunPrefix(fetches, service);
      ClearCountIsReportedTotal(init, service);
      var s := ClearRun(init, service);
      var keys := PageKeys(fetches[|fetches| - 1].page);
      assert ClearRun(fetches, service) == ClearPage(s, keys, service);
      if keys != [] {
        var reply := service(|s.sent|, keys);
        var sent := s.sent + [keys];
        assert sent[..|s.sent|] == s.sent && sent[|s.sent|] == keys;
        assert ReportedTotal(sent, service) == ReportedTotal(s.sent, service) + ReportedCount(reply);
        assert ClearRun(fetches, service) == ClearState(sent, s.deleted + ReportedCount(reply), false);
      }
    }
  }

  /** The reply to `list_objects_v2(Delimiter='/')`: its `CommonPrefixes`,
      when present. */
  datatype PrefixListing = PrefixListing(commonPrefixes: Option<seq<string>>)

  /** `list_folders_in_a_basket`: each common prefix with its trailing `/`
      removed; an empty list when the reply has no common prefixes or the
      call raised (`None`). */
  function ListFolders(reply: Option<PrefixListing>): (folders: seq<string>)
    ensures reply.None? || reply.value.commonPrefixes.None? ==> folders == []
    ensures reply.Some? && reply.value.commonPrefixes.Some? ==>
      var prefixes := reply.value.commonPrefixes.value;
      |folders| == |prefixes| &&
      forall i :: 0 <= i < |folders| ==> TrailingStripped(prefixes[i], '/', folders[i])
  {
    match reply
    case None => []
    case Some(listing) =>
      match listing.commonPrefixes
      case None => []
      case Some(prefixes) => seq(|prefixes|, i requires 0 <= i < |prefixes| => RStrip(prefixes[i], '/'))
  }

  /** A folder's common prefix is its name and one `/`; the listing gives
      back the name. */
  lemma FolderNameFromPrefix(name: string)
    requires name != [] && name[|name| - 1] != '/'
    ensures ListFolders(Some(PrefixListing(Some([name + "/"])))) == [name]
  {
    var r := ListFolders(Some(PrefixListing(Some([name + "/"]))));
    assert TrailingStripped(name + "/", '/', name);
    TrailingStrippedUnique(name + "/", '/', r[0], name);
  }
}
