/**
 * The extension's background service worker (src/background.ts): the
 * `SAVE_PAGE` handler, which writes a page or parks it in the offline queue,
 * and the periodic pass that retries the queue.
 *
 * Extension storage is the state of a `ServiceWorker` object. Whether the
 * browser is online and whether each Notion call succeeds are inputs; each
 * call is modelled by the request it issues.
 */
module Background {
  import opened Wrappers
  import opened Strings
  import opened Json
  import opened NotionClient

  /** One parked save: the page data and the page it was meant to update. */
  datatype QueueEntry = QueueEntry(id: string, data: NotionPageData, pageId: Option<string>, timestamp: int)

  /** How one Notion call ended: its parsed result, or the message of the
      exception it threw. */
  datatype CallResult = CallOk(result: Json) | CallFailed(message: string)

  /** The response of the comment and append handlers:
      `{ success: true, result }` or `{ success: false, error }`. */
  datatype HandlerResponse = Done(result: Json) | Failed(error: string)

  /** The response a handler sends for a call that went out. */
  function Answer(outcome: CallResult): HandlerResponse {
    match outcome
    case CallOk(result) => Done(result)
    case CallFailed(message) => Failed(message)
  }

  /** The response `SAVE_PAGE` sends back to the popup. */
  datatype SaveResponse =
    | SaveOk(result: Json)               // { success: true, result }
    | SaveQueued(message: string)        // { success: true, queued: true, message }
    | SaveRefused(error: string)         // { success: false, error }
  {
    predicate Success() { !SaveRefused? }
    predicate Queued() { SaveQueued? }
  }

  const MissingCredentials := "Missing API key or Database ID in settings"
  const AddedToQueue := "Added to offline queue"
  const NotConfigured := "Not configured"

  /** The write a save performs: an update of `pageId` when it is set, otherwise
      a create in the database. Either way it carries the page's properties. */
  function WriteRequest(apiKey: string, databaseId: string, data: NotionPageData, pageId: Option<string>): (r: Request)
    ensures r.headers == Headers(apiKey)
    ensures Present(pageId) ==> r.verb == Patch && r.url == ApiRoot + "pages/" + pageId.value
    ensures !Present(pageId) ==>
      && r.verb == Post && r.url == ApiRoot + "pages"
      && Lookup(Get(r.body, "parent"), "database_id") == Some(JString(databaseId))
    ensures Get(r.body, "properties") == Some(JObject(Properties(data)))
  {
    if Present(pageId) then UpdatePageRequest(apiKey, pageId.value, data)
    else CreatePageRequest(apiKey, databaseId, data)
  }

  /** The writes one queue pass issues: one per entry, in queue order. */
  function RetryRequests(apiKey: string, databaseId: string, q: seq<QueueEntry>): seq<Request> {
    seq(|q|, i requires 0 <= i < |q| => WriteRequest(apiKey, databaseId, q[i].data, q[i].pageId))
  }

  // ---------------------------------------------------------------------------
  // What a queue pass keeps
  // ---------------------------------------------------------------------------

  /** The entries of `q` whose call failed (`accepts(i)` is whether the call for
      the entry at position `i` succeeded), in their original order. */
  function Survivors(q: seq<QueueEntry>, accepts: nat -> bool): seq<QueueEntry>
    decreases |q|
  {
    if q == [] then []
    else Survivors(q[..|q| - 1], accepts) + (if accepts(|q| - 1) then [] else [q[|q| - 1]])
  }

  /** One more entry at the end of the queue adds one request at the end. */
  lemma RetryRequestsSnoc(apiKey: string, databaseId: string, q: seq<QueueEntry>, x: QueueEntry)
    ensures RetryRequests(apiKey, databaseId, q + [x])
         == RetryRequests(apiKey, databaseId, q) + [WriteRequest(apiKey, databaseId, x.data, x.pageId)]
  {
    var a := RetryRequests(apiKey, databaseId, q + [x]);
    var b := RetryRequests(apiKey, databaseId, q) + [WriteRequest(apiKey, databaseId, x.data, x.pageId)];
    assert |a| == |b|;
    forall i | 0 <= i < |a| ensures a[i] == b[i] {
      if i < |q| {
        assert (q + [x])[i] == q[i];
      }
    }
  }

  /** One more entry at the end of the queue survives exactly when its call fails. */
  lemma SurvivorsSnoc(q: seq<QueueEntry>, x: QueueEntry, accepts: nat -> bool)
    ensures Survivors(q + [x], accepts) == Survivors(q, accepts) + (if accepts(|q|) then [] else [x])
  {
    assert (q + [x])[..|q|] == q;
  }

  /** The entries of `q` whose call succeeded, in their original order. */
  function Delivered(q: seq<QueueEntry>, accepts: nat -> bool): seq<QueueEntry>
    decreases |q|
  {
    if q == [] then []
    else Delivered(q[..|q| - 1], accepts) + (if accepts(|q| - 1) then [q[|q| - 1]] else [])
  }

  /** The number of failed calls among the first `n`. */
  function Failures(n: nat, accepts: nat -> bool): nat
    decreases n
  {
    if n == 0 then 0 else Failures(n - 1, accepts) + (if accepts(n - 1) then 0 else 1)
  }

  /** The positions, in increasing order, of the failed calls among the first `n`. */
  function FailedPositions(n: nat, accepts: nat -> bool): (ps: seq<nat>)
    ensures forall k :: 0 <= k < |ps| ==> ps[k] < n
    decreases n
  {
    if n == 0 then [] else FailedPositions(n - 1, accepts) + (if accepts(n - 1) then [] else [n - 1])
  }

  /** The queue left after a pass is exactly as long as there were failures. */
  lemma {:induction false} SurvivorsLength(q: seq<QueueEntry>, accepts: nat -> bool)
    ensures |Survivors(q, accepts)| == Failures(|q|, accepts)
    decreases |q|
  {
    if q != [] {
      SurvivorsLength(q[..|q| - 1], accepts);
    }
  }

  /** The failed positions are strictly increasing and are exactly the positions
      whose call failed. */
  lemma {:induction false} FailedPositionsExact(n: nat, accepts: nat -> bool)
    ensures forall k, l :: 0 <= k < l < |FailedPositions(n, accepts)| ==>
      FailedPositions(n, accepts)[k] < FailedPositions(n, accepts)[l]
    ensures forall i: nat :: i < n ==> (i in FailedPositions(n, accepts) <==> !accepts(i))
    decreases n
  {
    if n > 0 {
      FailedPositionsExact(n - 1, accepts);
    }
  }

  /** The queue left after a pass is the subsequence of `q` at the failed
      positions: relative order is kept and nothing else is kept. */
  lemma {:induction false} SurvivorsAreFailedEntries(q: seq<QueueEntry>, accepts: nat -> bool)
    ensures |Survivors(q, accepts)| == |FailedPositions(|q|, accepts)|
    ensures forall k :: 0 <= k < |Survivors(q, accepts)| ==>
      Survivors(q, accepts)[k] == q[FailedPositions(|q|, accepts)[k]]
    decreases |q|
  {
    if q != [] {
      var init := q[..|q| - 1];
      SurvivorsAreFailedEntries(init, accepts);
      var s, ps := Survivors(q, accepts), FailedPositions(|q|, accepts);
      forall k | 0 <= k < |s| ensures s[k] == q[ps[k]] {
        if k < |Survivors(init, accepts)| {
          assert s[k] == Survivors(init, accepts)[k];
          assert ps[k] == FailedPositions(|init|, accepts)[k];
        }
      }
    }
  }

  /** Every entry either survives or is delivered, and none is lost or duplicated. */
  lemma {:induction false} SurvivorsPartition(q: seq<QueueEntry>, accepts: nat -> bool)
    ensures multiset(Survivors(q, accepts)) + multiset(Delivered(q, accepts)) == multiset(q)
    decreases |q|
  {
    if q != [] {
      var init, x := q[..|q| - 1], q[|q| - 1];
      SurvivorsPartition(init, accepts);
      var s, d := Survivors(init, accepts), Delivered(init, accepts);
      assert q == init + [x];
      assert multiset(q) == multiset(init) + multiset{x};
      if accepts(|init|) {
        assert Survivors(q, accepts) == s + [];
        assert Delivered(q, accepts) == d + [x];
        assert multiset(d + [x]) == multiset(d) + multiset{x};
        assert multiset(s + []) == multiset(s);
      } else {
        assert Survivors(q, accepts) == s + [x];
        assert Delivered(q, accepts) == d + [];
        assert multiset(s + [x]) == multiset(s) + multiset{x};
        assert multiset(d + []) == multiset(d);
      }
    }
  }

  /** A pass in which every call succeeds empties the queue. */
  lemma {:induction false} AllDeliveredEmpties(q: seq<QueueEntry>, accepts: nat -> bool)
    requires forall i: nat :: i < |q| ==> accepts(i)
    ensures Survivors(q, accepts) == []
    decreases |q|
  {
    if q != [] {
      AllDeliveredEmpties(q[..|q| - 1], accepts);
    }
  }

  /** A pass in which every call fails leaves the queue as it was. */
  lemma {:induction false} NoneDeliveredKeeps(q: seq<QueueEntry>, accepts: nat -> bool)
    requires forall i: nat :: i < |q| ==> !accepts(i)
    ensures Survivors(q, accepts) == q
    decreases |q|
  {
    if q != [] {
      NoneDeliveredKeeps(q[..|q| - 1], accepts);
    }
  }

  // ---------------------------------------------------------------------------
  // The service worker
  // ---------------------------------------------------------------------------

  class ServiceWorker {
    /** `notionApiKey` and `notionDatabaseId` in storage; '' when unset. */
    var notionApiKey: string
    var notionDatabaseId: string
    /** `offlineQueue` in storage: `None` when it is unset or not an array. */
    var offlineQueue: Option<seq<QueueEntry>>

    constructor(apiKey: string, databaseId: string, stored: Option<seq<QueueEntry>>)
      ensures notionApiKey == apiKey && notionDatabaseId == databaseId && offlineQueue == stored
    {
      notionApiKey := apiKey;
      notionDatabaseId := databaseId;
      offlineQueue := stored;
    }

    /** Both credentials are set. */
    predicate Configured()
      reads this
    {
      notionApiKey != "" && notionDatabaseId != ""
    }

    /** The stored queue as the code reads it: a non-array value counts as empty. */
    function Queue(): seq<QueueEntry>
      reads this
    {
      offlineQueue.GetOr([])
    }

    /** `SAVE_PAGE`. Without credentials it refuses and touches nothing. Online, it
        issues the write (an update when `pageId` is set, else a create); if that
        succeeds it returns the result. Offline, or when the write fails, it
        appends one entry at the end of the queue and still answers success,
        marked as queued. `clock1` and `clock2` are the two `Date.now()` readings
        that give the entry its id and its timestamp. */
    method SavePage(data: NotionPageData, pageId: Option<string>, online: bool, outcome: CallResult,
                    clock1: nat, clock2: nat)
      returns (response: SaveResponse, request: Option<Request>)
      modifies this`offlineQueue
      ensures !Configured() ==>
        response == SaveRefused(MissingCredentials) && request == None && offlineQueue == old(offlineQueue)
      ensures Configured() && online ==>
        request == Some(WriteRequest(notionApiKey, notionDatabaseId, data, pageId))
      ensures Configured() && !online ==> request == None
      ensures Configured() && online && outcome.CallOk? ==>
        response == SaveOk(outcome.result) && offlineQueue == old(offlineQueue)
      ensures Configured() && (!online || outcome.CallFailed?) ==>
        response == SaveQueued(AddedToQueue)
        && offlineQueue == Some(old(Queue()) + [QueueEntry(NatToString(clock1), data, pageId, clock2)])
    {
      if notionApiKey == "" || notionDatabaseId == "" {
        return SaveRefused(MissingCredentials), None;
      }
      var failed := true;
      request := None;
      if online {
        request := Some(WriteRequest(notionApiKey, notionDatabaseId, data, pageId));
        if outcome.CallOk? {
          failed := false;
          response := SaveOk(outcome.result);
        }
      }
      if failed {
        var queue := Queue();
        queue := queue + [QueueEntry(NatToString(clock1), data, pageId, clock2)];
        offlineQueue := Some(queue);
        response := SaveQueued(AddedToQueue);
      }
    }

    /** `CHECK_PAGE`. Without both credentials it answers "Not configured" and
        sends nothing. Otherwise it sends the dedup query; `reply` is the query's
        response, or the message of the exception the call threw, which becomes
        the error of the answer, as does a `TypeError` thrown while reading the
        response. */
    method CheckPage(url: string, reply: Result<QueryResponse>, localeDate: Json -> string)
      returns (response: Result<DedupResult>, request: Option<Request>)
      ensures !Configured() ==> response == Err(NotConfigured) && request == None
      ensures Configured() ==> request == Some(PageQueryRequest(notionApiKey, notionDatabaseId, url))
      ensures Configured() && reply.Err? ==> response == Err(reply.error)
      ensures Configured() && reply.Ok? ==> response == CheckIfPageSaved(reply.value, localeDate)
    {
      if notionApiKey == "" || notionDatabaseId == "" {
        return Err(NotConfigured), None;
      }
      request := Some(PageQueryRequest(notionApiKey, notionDatabaseId, url));
      match reply
      case Err(message) => response := Err(message);
      case Ok(queried) => response := CheckIfPageSaved(queried, localeDate);
    }

    /** `ADD_COMMENT_TO_PAGE`: needs only the API key; the comment goes to the
        page it names and the call's outcome is the answer. */
    method AddCommentToPage(pageId: string, text: string, outcome: CallResult)
      returns (response: HandlerResponse, request: Option<Request>)
      ensures notionApiKey == "" ==> response == Failed(NotConfigured) && request == None
      ensures notionApiKey != "" ==>
        request == Some(CommentRequest(notionApiKey, pageId, text)) && response == Answer(outcome)
    {
      if notionApiKey == "" {
        return Failed(NotConfigured), None;
      }
      request := Some(CommentRequest(notionApiKey, pageId, text));
      response := Answer(outcome);
    }

    /** `APPEND_BLOCKS`: needs only the API key; one image block per URL is
        appended to the page it names. */
    method AppendBlocks(pageId: string, urls: seq<string>, outcome: CallResult)
      returns (response: HandlerResponse, request: Option<Request>)
      ensures notionApiKey == "" ==> response == Failed(NotConfigured) && request == None
      ensures notionApiKey != "" ==>
        request == Some(AppendImageBlocksRequest(notionApiKey, pageId, urls)) && response == Answer(outcome)
    {
      if notionApiKey == "" {
        return Failed(NotConfigured), None;
      }
      request := Some(AppendImageBlocksRequest(notionApiKey, pageId, urls));
      response := Answer(outcome);
    }

    /** `APPEND_TEXT_BLOCKS`: needs only the API key; one paragraph per
        non-blank line is appended to the page it names. */
    method AppendTextBlocks(pageId: string, text: string, outcome: CallResult)
      returns (response: HandlerResponse, request: Option<Request>)
      ensures notionApiKey == "" ==> response == Failed(NotConfigured) && request == None
      ensures notionApiKey != "" ==>
        request == Some(AppendTextBlocksRequest(notionApiKey, pageId, text)) && response == Answer(outcome)
    {
      if notionApiKey == "" {
        return Failed(NotConfigured), None;
      }
      request := Some(AppendTextBlocksRequest(notionApiKey, pageId, text));
      response := Answer(outcome);
    }

    /** The `processOfflineQueue` alarm. Offline, with an empty queue or without
        credentials it does nothing. Otherwise it retries every entry in order
        (as an update when the entry has a page id, else as a create), and then
        stores, in one write, the entries whose retry failed, in their order. */
    method ProcessOfflineQueue(online: bool, accepts: nat -> bool) returns (requests: seq<Request>)
      modifies this`offlineQueue
      ensures !online || old(Queue()) == [] || !Configured() ==>
        requests == [] && offlineQueue == old(offlineQueue)
      ensures online && old(Queue()) != [] && Configured() ==>
        requests == RetryRequests(notionApiKey, notionDatabaseId, old(Queue()))
        && offlineQueue == Some(Survivors(old(Queue()), accepts))
    {
      if !online {
        return [];
      }
      var queue := Queue();
      if |queue| == 0 || notionApiKey == "" || notionDatabaseId == "" {
        return [];
      }
      var remaining: seq<QueueEntry> := [];
      requests := [];
      var i := 0;
      while i < |queue|
        invariant 0 <= i <= |queue|
        invariant remaining == Survivors(queue[..i], accepts)
        invariant requests == RetryRequests(notionApiKey, notionDatabaseId, queue[..i])
      {
        var item := queue[i];
        requests := requests + [WriteRequest(notionApiKey, notionDatabaseId, item.data, item.pageId)];
        if !accepts(i) {
          remaining := remaining + [item];
        }
        assert queue[..i + 1] == queue[..i] + [item];
        RetryRequestsSnoc(notionApiKey, notionDatabaseId, queue[..i], item);
        SurvivorsSnoc(queue[..i], item, accepts);
        i := i + 1;
      }
      assert queue[..i] == queue;
      offlineQueue := Some(remaining);
    }
  }
}
