/**
 * The popup (src/App.tsx): the save payload and the create-or-update choice,
 * the system turn that opens a conversation, and the state changes that
 * messages from the background worker cause.
 *
 * React state is the state of an `App` object; each handler is a method.
 * Only the decision logic is kept: the page scraping, the rendering and the
 * status timers are not. Replies from the background worker arrive as inputs.
 */
module Popup {
  import opened Wrappers
  import opened Strings
  import opened Json
  import opened NotionClient
  import opened ActionProtocol
  import opened Background

  /** What the popup learnt about the active tab. `pageType` is `og:type`. */
  datatype PageData = PageData(
    title: Option<string>,
    url: string,
    description: Option<string>,
    selectedText: Option<string>,
    images: Option<seq<string>>,
    pageType: Option<string>)

  /** `pageData.images || []`. */
  function ImagesOf(page: PageData): seq<string> {
    page.images.GetOr([])
  }

  /** `pageData?.images || []`, when the popup may not have page data yet. */
  function CapturedImages(page: Option<PageData>): seq<string> {
    match page
    case Some(p) => ImagesOf(p)
    case None => []
  }

  // ---------------------------------------------------------------------------
  // Saving
  // ---------------------------------------------------------------------------

  /** `dataToSend`: the page data with the note in front of the description and
      the page type as the only tag. */
  function SavePayload(page: PageData, note: string): NotionPageData {
    NotionPageData(
      url := page.url,
      title := page.title.GetOr(""),
      description := if note != "" then note + "\n\n" + page.description.GetOr("") else page.description.GetOr(""),
      tags := if Present(page.pageType) then [page.pageType.value] else [],
      sessionId := "",
      highlights := "")
  }

  /** What the page stored in Notion reads back as: titled by the page title or,
      failing that, its URL; the note, a blank line and the description; the
      page type as its only tag; no session or highlights. */
  lemma StoredPayload(page: PageData, note: string)
    ensures var stored := DecodeProperties(Properties(SavePayload(page, note)));
      && stored.url == page.url
      && stored.title == (if Present(page.title) then page.title.value else page.url)
      && (note != "" ==> stored.description == note + "\n\n" + page.description.GetOr(""))
      && (note == "" ==> stored.description == page.description.GetOr(""))
      && stored.tags == (if Present(page.pageType) then [page.pageType.value] else [])
      && stored.sessionId == "" && stored.highlights == ""
  {
    PropertiesRoundTrip(SavePayload(page, note));
  }

  /** The saved properties hold a description exactly when there is a note or a
      description, and tags exactly when the page has a type. */
  lemma PayloadKeys(page: PageData, note: string)
    ensures var p := Properties(SavePayload(page, note));
      && ("Description" in p <==> note != "" || Present(page.description))
      && ("Tags" in p <==> Present(page.pageType))
      && "Session ID" !in p && "Highlights" !in p
  {
    PropertyKeys(SavePayload(page, note));
  }

  /** The `pageId` a save sends: the synced page, unless a new page is forced. */
  function SaveTarget(forceNew: bool, synced: Option<string>): (t: Option<string>)
    ensures Present(t) <==> !forceNew && Present(synced)
    ensures t.Some? ==> t == synced
  {
    if !forceNew && Present(synced) then synced else None
  }

  /** With the worker's write rule, a save updates the synced page exactly when
      no new page is forced and a page is synced, and creates one otherwise. */
  lemma UpsertChoice(apiKey: string, databaseId: string, page: PageData, note: string,
                     forceNew: bool, synced: Option<string>)
    ensures var r := WriteRequest(apiKey, databaseId, SavePayload(page, note), SaveTarget(forceNew, synced));
      && (r.verb == Patch <==> !forceNew && Present(synced))
      && (!forceNew && Present(synced) ==> r.url == ApiRoot + "pages/" + synced.value)
      && (r.verb == Post ==>
            r.url == ApiRoot + "pages" && Lookup(Get(r.body, "parent"), "database_id") == Some(JString(databaseId)))
  {
  }

  /** `response?.result?.id` when it is a non-empty string. */
  function ResultId(response: Option<SaveResponse>): (id: Option<string>)
    ensures id.Some? ==> response.Some? && response.value.SaveOk? && id.value != ""
  {
    match response
    case Some(SaveOk(result)) =>
      (match Get(result, "id")
       case Some(JString(s)) => if s != "" then Some(s) else None
       case _ => None)
    case _ => None
  }

  /** The synced page after a save response: the id the response carries, if any. */
  function SyncedAfter(synced: Option<string>, response: Option<SaveResponse>): Option<string> {
    if ResultId(response).Some? then ResultId(response) else synced
  }

  /** Once a save returned a page id, the next save that does not force a new
      page updates that page. */
  lemma SavedPageIsUpdatedNext(synced: Option<string>, result: Json, id: string)
    requires Get(result, "id") == Some(JString(id)) && id != ""
    ensures SaveTarget(false, SyncedAfter(synced, Some(SaveOk(result)))) == Some(id)
  {
  }

  /** A queued or refused save leaves the next save's target as it was. */
  lemma UnsavedKeepsTarget(synced: Option<string>, forceNew: bool, response: SaveResponse)
    requires !response.SaveOk?
    ensures SaveTarget(forceNew, SyncedAfter(synced, Some(response))) == SaveTarget(forceNew, synced)
  {
  }

  /** `response?.error || 'Unknown Error'`. */
  function ErrorText(response: Option<SaveResponse>): (e: string)
    ensures e != ""
  {
    match response
    case Some(SaveRefused(error)) => if error != "" then error else "Unknown Error"
    case _ => "Unknown Error"
  }

  const SavedJustNow := "Saved just now."

  /** The message `handleAddComment` sends to the worker. */
  datatype CommentMessage = CommentMessage(pageId: string, text: string)

  /** The message `handleSave` sends to the worker. */
  datatype SaveMessage = SaveMessage(data: NotionPageData, pageId: Option<string>)

  // ---------------------------------------------------------------------------
  // The system turn
  // ---------------------------------------------------------------------------

  /** The instructions that open the system turn, the action protocol among them,
      assembled from short literals; each prompt line starts on a line of its own. */
  function Preamble(): string {
    "You are a helpful " + "AI assistant inside " + "a Notion web " + "clipper. Answer "
    + "strictly based on " + "the provided " + "context if " + "relevant.\n"
    + "\n"
    + "CRITICAL AI ACTION " + "PROTOCOL:\n"
    + "You cannot click, " + "but you CAN execute " + "special commands by "
    + "returning a JSON " + "inside an <action> " + "tag. \n"
    + "If the user " + "explicitly asks you " + "to save or add " + "IMAGES to Notion, "
    + "respond with this " + "exact format:\n"
    + "<action>{\"type\": " + "\"append_images\", " + "\"image_ids\": " + "[\"IMG_0\", "
    + "\"IMG_1\"]}</action>\n"
    + "You can include up " + "to 10 image IDs " + "from the 'Found " + "Images' list "
    + "context (do not " + "hallucinate IDs).\n"
    + "If the user " + "explicitly asks you " + "to save or add " + "TEXT/details/summaries "
    + "directly to Notion, " + "respond with this " + "exact format:\n"
    + "<action>{\"type\": " + "\"append_text\", " + "\"text\": \"Your " + "formatted text "
    + "here...\"}</action>\n"
    + "Do not use <action> " + "unless the user " + "explicitly asks to " + "\"add/save to "
    + "Notion\". When just " + "answering " + "questions, use " + "plain text.\n"
    + "\n"
  }

  /** `IMG_0 .. IMG_{n-1}`. */
  function ImageRefs(n: nat): seq<string> {
    seq(n, i requires 0 <= i < n => ImageRef(i))
  }

  /** `imgContext || 'None'`: the references joined by `", "`. */
  function ImageList(n: nat): string {
    var names := Join(ImageRefs(n), ", ");
    if names != "" then names else "None"
  }

  /** The context line that follows the preamble. */
  function ContextLine(page: PageData): string {
    "Context: This is a webpage titled \"" + Interpolate(page.title) + "\" at URL: " + page.url
    + ".\nDescription: " + Interpolate(page.description)
    + "\nSelected Text: " + (if Present(page.selectedText) then page.selectedText.value else "None")
    + "\nFound Images: " + ImageList(|ImagesOf(page)|)
  }

  datatype ChatMessage = ChatMessage(role: string, content: string)

  const SystemRole := "system"
  const UserRole := "user"
  const AssistantRole := "assistant"

  function SystemTurn(page: PageData): ChatMessage {
    ChatMessage(SystemRole, Preamble() + ContextLine(page))
  }

  /** The image list says "None" exactly when there are no images, and otherwise
      lists one comma-separated name per image. */
  lemma {:induction false} ImageListSpec(n: nat)
    ensures ImageList(n) == "None" <==> n == 0
    ensures n > 0 ==> ImageList(n) == Join(ImageRefs(n), ", ") && |Split(ImageList(n), ',')| == n
  {
    var refs := ImageRefs(n);
    if n > 0 {
      JoinHead(refs, ", ");
      assert refs[0][0] == 'I';
      forall i | 0 <= i < n ensures ',' !in refs[i] {
        NoCommaInRef(i);
      }
      JoinCount(refs);
      SplitCount(ImageList(n), ',');
    }
  }

  /** The names as the JSON strings a reply would list them by. */
  function Names(refs: seq<string>): seq<Json> {
    seq(|refs|, i requires 0 <= i < |refs| => JString(refs[i]))
  }

  /** Every name the context lists resolves to its image: asking for all of them
      appends every non-empty image, in order. */
  lemma ListedNamesResolve(images: seq<string>)
    ensures ResolveIds(Names(ImageRefs(|images|)), images) == Resolved(NonEmpty(images))
  {
    var ids, refs := Names(ImageRefs(|images|)), RefsFrom(0, |images|);
    assert |ids| == |refs|;
    forall i | 0 <= i < |ids| ensures ids[i] == refs[i] {
    }
    assert ids == refs;
    ListedRefsResolve(images, 0);
    assert images[0..] == images;
  }

  lemma NoCommaInRef(i: nat)
    ensures ',' !in ImageRef(i)
  {
    var d := NatToString(i);
    assert ImageRef(i) == RefTag + d;
    forall j | 0 <= j < |d| ensures d[j] != ',' {
      assert IsDigit(d[j]);
    }
  }

  lemma {:induction false} JoinHead(parts: seq<string>, sep: string)
    requires |parts| > 0
    ensures |parts[0]| <= |Join(parts, sep)| && Join(parts, sep)[..|parts[0]|] == parts[0]
  {
    if |parts| > 1 {
      assert Join(parts, sep) == parts[0] + (sep + Join(parts[1..], sep));
    }
  }

  lemma {:induction false} CountAppend(a: string, b: string, c: char)
    ensures Count(a + b, c) == Count(a, c) + Count(b, c)
    decreases |a|
  {
    if a == [] {
      assert a + b == b;
    } else {
      assert (a + b)[1..] == a[1..] + b;
      CountAppend(a[1..], b, c);
    }
  }

  lemma {:induction false} CountAbsent(s: string, c: char)
    requires c !in s
    ensures Count(s, c) == 0
    decreases |s|
  {
    if s != [] {
      assert s[0] in s;
      assert forall x :: x in s[1..] ==> x in s;
      CountAbsent(s[1..], c);
    }
  }

  /** Joining comma-free parts with `", "` puts one comma between each two. */
  lemma {:induction false} JoinCount(parts: seq<string>)
    requires |parts| > 0 && forall i :: 0 <= i < |parts| ==> ',' !in parts[i]
    ensures Count(Join(parts, ", "), ',') == |parts| - 1
    decreases |parts|
  {
    CountAbsent(parts[0], ',');
    if |parts| > 1 {
      var rest := parts[1..];
      JoinCount(rest);
      var sep: string := ", ";
      assert Count(sep, ',') == 1 by {
        assert sep[1..] == " ";
        assert (" ")[1..] == [];
      }
      CountAppend(parts[0], sep, ',');
      CountAppend(parts[0] + sep, Join(rest, sep), ',');
    }
  }

  // ---------------------------------------------------------------------------
  // The conversation
  // ---------------------------------------------------------------------------

  /** A system turn can only be the first message. */
  predicate SystemFirst(ms: seq<ChatMessage>) {
    forall i :: 0 < i < |ms| ==> ms[i].role != SystemRole
  }

  /** `currentMsgs` as `handleAskAI` builds it: a copy of the history, the
      system turn pushed when it is empty and there is page data, then the
      question pushed. */
  function Outgoing(history: seq<ChatMessage>, page: Option<PageData>, input: string): seq<ChatMessage> {
    (if |history| == 0 && page.Some? then [SystemTurn(page.value)] else history) + [ChatMessage(UserRole, input)]
  }

  /** The outgoing conversation keeps the history, ends with the question, keeps
      the system turn first, and opens with one exactly when it is the first
      question and there is page data. */
  lemma OutgoingSpec(history: seq<ChatMessage>, page: Option<PageData>, input: string)
    requires SystemFirst(history)
    ensures var ms := Outgoing(history, page, input);
      && SystemFirst(ms)
      && ms[|ms| - 1] == ChatMessage(UserRole, input)
      && (|history| > 0 ==> ms[..|history|] == history && |ms| == |history| + 1)
      && (|history| == 0 ==> (ms[0].role == SystemRole <==> page.Some?))
      && (|history| == 0 && page.Some? ==> ms[0] == SystemTurn(page.value))
  {
    var question := ChatMessage(UserRole, input);
    if |history| == 0 && page.Some? {
      var turn := SystemTurn(page.value);
      assert turn.role == SystemRole;
      assert Outgoing(history, page, input) == [turn, question];
    } else {
      assert Outgoing(history, page, input) == history + [question];
    }
  }

  /** The question as sent, with the state the reply handler's closure sees. */
  datatype AskRequest = AskRequest(messages: seq<ChatMessage>, synced: Option<string>, images: seq<string>)

  /** How `ASK_AI` answered: the reply text, or failure with `response?.error`. */
  datatype AskResponse = AskOk(reply: string) | AskFailed(error: Option<string>)

  /** The chat line the popup adds when the worker answers an append request. */
  function AppendReport(request: ReplyOutcome, ok: bool, error: Option<string>): (m: string)
    requires !request.ShowMessage?
    ensures |request.prefix| <= |m| && m[..|request.prefix|] == request.prefix
  {
    match request
    case RequestImages(_, urls, prefix) => if ok then AppendedImages(prefix, |urls|) else FailedImages(prefix, error)
    case RequestText(_, _, prefix) => if ok then AppendedText(prefix) else FailedText(prefix, error)
  }

  datatype Status = Idle | Saving | Success | Error

  class App {
    var pageData: Option<PageData>
    var note: string
    var status: Status
    var errorMsg: string
    var existingNote: Option<string>
    var syncedPageId: Option<string>
    var forceNew: bool
    var chatMessages: seq<ChatMessage>
    var chatInput: string
    var isChatLoading: bool

    predicate Valid()
      reads this
    {
      SystemFirst(chatMessages)
    }

    /** The initial state of every `useState`. */
    constructor()
      ensures Valid()
      ensures pageData == None && note == "" && status == Idle && errorMsg == ""
      ensures existingNote == None && syncedPageId == None && !forceNew
      ensures chatMessages == [] && chatInput == "" && !isChatLoading
    {
      pageData := None;
      note := "";
      status := Idle;
      errorMsg := "";
      existingNote := None;
      syncedPageId := None;
      forceNew := false;
      chatMessages := [];
      chatInput := "";
      isChatLoading := false;
    }

    /** The scraped page data arrives. */
    method LoadPage(data: PageData)
      modifies this`pageData
      ensures pageData == Some(data)
    {
      pageData := Some(data);
    }

    /** The `CHECK_PAGE` answer: `None` when it did not succeed. A page found in
        the database becomes the synced page, and its summary the existing note. */
    method OnCheckPage(res: Option<DedupResult>)
      modifies this`existingNote, this`syncedPageId
      ensures res.Some? && res.value.found ==>
        existingNote == Some(res.value.summary) && syncedPageId == res.value.pageId
      ensures !(res.Some? && res.value.found) ==>
        existingNote == old(existingNote) && syncedPageId == old(syncedPageId)
    {
      if res.Some? && res.value.found {
        existingNote := Some(res.value.summary);
        syncedPageId := res.value.pageId;
      }
    }

    /** `handleSave`: nothing without page data; otherwise the status becomes
        saving and the payload goes out, with the synced page unless a new page
        is forced. */
    method Save() returns (message: Option<SaveMessage>)
      modifies this`status
      ensures pageData.None? ==> message == None && status == old(status)
      ensures pageData.Some? ==>
        status == Saving
        && message == Some(SaveMessage(SavePayload(pageData.value, note), SaveTarget(forceNew, syncedPageId)))
    {
      if pageData.None? {
        return None;
      }
      status := Saving;
      var data := SavePayload(pageData.value, note);
      message := Some(SaveMessage(data, SaveTarget(forceNew, syncedPageId)));
    }

    /** The `SAVE_PAGE` answer (`None` when there was none). A success sets the
        status, and when the result carries a page id it becomes the synced page;
        so a queued save, which has no result, keeps the synced page. A failure
        shows the error. */
    method OnSaveResponse(response: Option<SaveResponse>)
      modifies this`status, this`errorMsg, this`syncedPageId, this`existingNote
      ensures response.Some? && response.value.Success() ==>
        && status == Success && errorMsg == old(errorMsg)
        && syncedPageId == SyncedAfter(old(syncedPageId), response)
        && existingNote == (if ResultId(response).Some? then Some(SavedJustNow) else old(existingNote))
      ensures !(response.Some? && response.value.Success()) ==>
        && status == Error && errorMsg == ErrorText(response)
        && syncedPageId == old(syncedPageId) && existingNote == old(existingNote)
      ensures !(response.Some? && response.value.SaveOk?) ==> syncedPageId == old(syncedPageId)
    {
      if response.Some? && response.value.Success() {
        status := Success;
        var id := ResultId(response);
        if id.Some? {
          syncedPageId := id;
          existingNote := Some(SavedJustNow);
        }
      } else {
        status := Error;
        errorMsg := ErrorText(response);
      }
    }

    /** `handleAskAI`: ignored when the input is blank or a question is pending.
        Otherwise the conversation, opened by the system turn when it is the
        first question, gains the question; the input clears and a reply is
        awaited. */
    method AskAI() returns (sent: Option<AskRequest>)
      requires Valid()
      modifies this`chatMessages, this`chatInput, this`isChatLoading
      ensures Valid()
      ensures Trim(old(chatInput)) == "" || old(isChatLoading) ==>
        && sent == None && chatMessages == old(chatMessages)
        && chatInput == old(chatInput) && isChatLoading == old(isChatLoading)
      ensures Trim(old(chatInput)) != "" && !old(isChatLoading) ==>
        && sent == Some(AskRequest(Outgoing(old(chatMessages), pageData, old(chatInput)), syncedPageId, CapturedImages(pageData)))
        && chatMessages == sent.value.messages && chatInput == "" && isChatLoading
    {
      if Trim(chatInput) == "" || isChatLoading {
        return None;
      }
      var currentMsgs := Outgoing(chatMessages, pageData, chatInput);
      OutgoingSpec(chatMessages, pageData, chatInput);
      sent := Some(AskRequest(currentMsgs, syncedPageId, CapturedImages(pageData)));
      chatMessages := currentMsgs;
      chatInput := "";
      isChatLoading := true;
    }

    /** The `ASK_AI` answer to `sent`. Loading ends. A failure adds its error;
        a reply is read by `HandleReply` with the synced page and images the
        question was sent with, and a message outcome is added to the chat. */
    method OnAskReply(response: AskResponse, parse: string -> Parsed, sent: AskRequest)
      returns (outcome: Option<ReplyOutcome>)
      requires Valid()
      modifies this`chatMessages, this`isChatLoading
      ensures Valid() && !isChatLoading
      ensures response.AskFailed? ==>
        outcome == None
        && chatMessages == old(chatMessages) + [ChatMessage(AssistantRole, "Error: " + Interpolate(response.error))]
      ensures response.AskOk? ==> outcome == Some(HandleReply(response.reply, parse, sent.images, sent.synced))
      ensures response.AskOk? && outcome.value.ShowMessage? ==>
        chatMessages == old(chatMessages) + [ChatMessage(AssistantRole, outcome.value.content)]
      ensures response.AskOk? && !outcome.value.ShowMessage? ==> chatMessages == old(chatMessages)
    {
      isChatLoading := false;
      match response
      case AskFailed(error) =>
        chatMessages := chatMessages + [ChatMessage(AssistantRole, "Error: " + Interpolate(error))];
        outcome := None;
      case AskOk(reply) =>
        var o := HandleReply(reply, parse, sent.images, sent.synced);
        if o.ShowMessage? {
          chatMessages := chatMessages + [ChatMessage(AssistantRole, o.content)];
        }
        outcome := Some(o);
    }

    /** `handleAddComment`: without a synced page nothing is sent; otherwise the
        comment goes to the synced page. */
    method AddComment(text: string) returns (message: Option<CommentMessage>)
      ensures message.Some? <==> Present(syncedPageId)
      ensures message.Some? ==> message.value == CommentMessage(syncedPageId.value, text)
    {
      if !Present(syncedPageId) {
        return None;
      }
      message := Some(CommentMessage(syncedPageId.value, text));
    }

    /** The answer to an append request: success or failure, reported in the chat
        after the reply's own text. */
    method OnAppendReply(request: ReplyOutcome, ok: bool, error: Option<string>)
      requires Valid() && !request.ShowMessage?
      modifies this`chatMessages
      ensures Valid()
      ensures chatMessages == old(chatMessages) + [ChatMessage(AssistantRole, AppendReport(request, ok, error))]
    {
      chatMessages := chatMessages + [ChatMessage(AssistantRole, AppendReport(request, ok, error))];
    }
  }
}
