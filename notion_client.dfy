/**
 * Requests the extension sends to the Notion API and the parts of its
 * responses it reads (src/notionClient.ts). Each HTTP call is modelled by
 * the request it issues: verb, URL, headers and JSON body. Whether the call
 * succeeds, and what it returns, are inputs of the model.
 */
module NotionClient {
  import opened Wrappers
  import opened Strings
  import opened Json

  const NotionVersion := "2022-06-28"
  const ApiRoot := "https://api.notion.com/v1/"

  /** The page data a save carries. An absent optional field is the empty string:
      the code only ever tests these fields for truthiness. */
  datatype NotionPageData = NotionPageData(
    url: string,
    title: string,
    description: string,
    tags: seq<string>,
    sessionId: string,
    highlights: string)

  datatype HttpMethod = Post | Patch

  datatype Request = Request(verb: HttpMethod, url: string, headers: map<string, string>, body: Json)

  /** The headers every call carries. */
  function Headers(apiKey: string): map<string, string> {
    map["Authorization" := "Bearer " + apiKey,
        "Notion-Version" := NotionVersion,
        "Content-Type" := "application/json"]
  }

  // ---------------------------------------------------------------------------
  // Page properties
  // ---------------------------------------------------------------------------

  /** A one-element rich-text array `[{ text: { content } }]` (also the shape of a title). */
  function RichText(content: string): Json {
    JArray([Obj1("text", Obj1("content", JString(content)))])
  }

  /** The content of the first element of a rich-text array. */
  function RichTextContent(o: Option<Json>): Option<string> {
    match o
    case Some(JArray(items)) =>
      if |items| > 0 then AsString(Lookup(Get(items[0], "text"), "content")) else None
    case _ => None
  }

  /** `data.title || data.url`. */
  function TitleText(data: NotionPageData): string {
    if data.title != "" then data.title else data.url
  }

  function TextProperty(content: string): Json {
    Obj1("rich_text", RichText(content))
  }

  function TagOptions(tags: seq<string>): seq<Json> {
    seq(|tags|, i requires 0 <= i < |tags| => Obj1("name", JString(tags[i])))
  }

  function RequiredProperties(data: NotionPageData): map<string, Json> {
    map["Title" := Obj1("title", RichText(TitleText(data))),
        "Link" := Obj1("url", JString(data.url)),
        "Status" := Obj1("status", Obj1("name", JString("New")))]
  }

  /** `props[key] = { rich_text: ... }` when `value` is set. */
  function WithText(props: map<string, Json>, key: string, value: string): map<string, Json> {
    if value == "" then props else props[key := TextProperty(value)]
  }

  /** `props["Tags"] = { multi_select: ... }` when there are tags. */
  function WithTags(props: map<string, Json>, tags: seq<string>): map<string, Json> {
    if tags == [] then props else props["Tags" := Obj1("multi_select", JArray(TagOptions(tags)))]
  }

  /** The property dictionary a create or an update sends: the three fixed
      properties, then each optional one only when its field is non-empty. */
  function Properties(data: NotionPageData): map<string, Json> {
    var withDescription := WithText(RequiredProperties(data), "Description", data.description);
    var withTags := WithTags(withDescription, data.tags);
    var withSession := WithText(withTags, "Session ID", data.sessionId);
    WithText(withSession, "Highlights", data.highlights)
  }

  /** `buildProperties`: starts from the fixed properties and assigns each
      optional key in place when its field is set. */
  method BuildProperties(data: NotionPageData) returns (props: map<string, Json>)
    ensures props == Properties(data)
  {
    props := map["Title" := Obj1("title", RichText(TitleText(data))),
                 "Link" := Obj1("url", JString(data.url)),
                 "Status" := Obj1("status", Obj1("name", JString("New")))];
    if data.description != "" {
      props := props["Description" := TextProperty(data.description)];
    }
    if |data.tags| > 0 {
      props := props["Tags" := Obj1("multi_select", JArray(TagOptions(data.tags)))];
    }
    if data.sessionId != "" {
      props := props["Session ID" := TextProperty(data.sessionId)];
    }
    if data.highlights != "" {
      props := props["Highlights" := TextProperty(data.highlights)];
    }
  }

  function Field(props: map<string, Json>, key: string): Option<Json> {
    if key in props then Some(props[key]) else None
  }

  function TextField(props: map<string, Json>, key: string): string {
    RichTextContent(Lookup(Field(props, key), "rich_text")).GetOr("")
  }

  function TagNames(props: map<string, Json>): seq<string> {
    match Lookup(Field(props, "Tags"), "multi_select")
    case Some(JArray(items)) =>
      seq(|items|, i requires 0 <= i < |items| => AsString(Get(items[i], "name")).GetOr(""))
    case _ => []
  }

  /** Reads page data back out of a property dictionary (the inverse of `Properties`). */
  function DecodeProperties(props: map<string, Json>): NotionPageData {
    NotionPageData(
      url := AsString(Lookup(Field(props, "Link"), "url")).GetOr(""),
      title := RichTextContent(Lookup(Field(props, "Title"), "title")).GetOr(""),
      description := TextField(props, "Description"),
      tags := TagNames(props),
      sessionId := TextField(props, "Session ID"),
      highlights := TextField(props, "Highlights"))
  }

  /** The status name a property dictionary sets. */
  function StatusName(props: map<string, Json>): Option<string> {
    AsString(Lookup(Lookup(Field(props, "Status"), "status"), "name"))
  }

  /** What `Properties` holds under each key. */
  lemma PropertiesAt(data: NotionPageData)
    ensures var p := Properties(data);
      && Field(p, "Title") == Some(Obj1("title", RichText(TitleText(data))))
      && Field(p, "Link") == Some(Obj1("url", JString(data.url)))
      && Field(p, "Status") == Some(Obj1("status", Obj1("name", JString("New"))))
      && Field(p, "Description") == (if data.description == "" then None else Some(TextProperty(data.description)))
      && Field(p, "Tags") == (if data.tags == [] then None else Some(Obj1("multi_select", JArray(TagOptions(data.tags)))))
      && Field(p, "Session ID") == (if data.sessionId == "" then None else Some(TextProperty(data.sessionId)))
      && Field(p, "Highlights") == (if data.highlights == "" then None else Some(TextProperty(data.highlights)))
  {
  }

  /** Every field survives the mapping to properties, the title falling back to
      the URL when empty; tags keep their length and order; the status is "New". */
  lemma PropertiesRoundTrip(data: NotionPageData)
    ensures DecodeProperties(Properties(data)) == data.(title := TitleText(data))
    ensures StatusName(Properties(data)) == Some("New")
  {
    PropertiesAt(data);
    DecodeOf(Properties(data), data);
  }

  /** Decoding any dictionary that holds what `Properties` puts under each key. */
  lemma DecodeOf(p: map<string, Json>, data: NotionPageData)
    requires Field(p, "Title") == Some(Obj1("title", RichText(TitleText(data))))
    requires Field(p, "Link") == Some(Obj1("url", JString(data.url)))
    requires Field(p, "Status") == Some(Obj1("status", Obj1("name", JString("New"))))
    requires Field(p, "Description") == (if data.description == "" then None else Some(TextProperty(data.description)))
    requires Field(p, "Tags") == (if data.tags == [] then None else Some(Obj1("multi_select", JArray(TagOptions(data.tags)))))
    requires Field(p, "Session ID") == (if data.sessionId == "" then None else Some(TextProperty(data.sessionId)))
    requires Field(p, "Highlights") == (if data.highlights == "" then None else Some(TextProperty(data.highlights)))
    ensures DecodeProperties(p) == data.(title := TitleText(data))
    ensures StatusName(p) == Some("New")
  {
    TextFieldOf(p, "Description", data.description);
    TextFieldOf(p, "Session ID", data.sessionId);
    TextFieldOf(p, "Highlights", data.highlights);
    TagNamesOf(p, data.tags);
    UrlOf(p, data.url);
    TitleOf(p, TitleText(data));
  }

  lemma UrlOf(p: map<string, Json>, url: string)
    requires Field(p, "Link") == Some(Obj1("url", JString(url)))
    ensures DecodeProperties(p).url == url
  {
  }

  lemma TitleOf(p: map<string, Json>, title: string)
    requires Field(p, "Title") == Some(Obj1("title", RichText(title)))
    ensures DecodeProperties(p).title == title
  {
  }

  lemma TextFieldOf(p: map<string, Json>, key: string, value: string)
    requires Field(p, key) == if value == "" then None else Some(TextProperty(value))
    ensures TextField(p, key) == value
  {
  }

  lemma TagNamesOf(p: map<string, Json>, tags: seq<string>)
    requires Field(p, "Tags") == if tags == [] then None else Some(Obj1("multi_select", JArray(TagOptions(tags))))
    ensures TagNames(p) == tags
  {
  }

  /** Exactly the fixed keys, plus each optional key whose field is non-empty. */
  lemma PropertyKeys(data: NotionPageData)
    ensures Properties(data).Keys
      == {"Title", "Link", "Status"}
       + (if data.description != "" then {"Description"} else {})
       + (if data.tags != [] then {"Tags"} else {})
       + (if data.sessionId != "" then {"Session ID"} else {})
       + (if data.highlights != "" then {"Highlights"} else {})
  {
  }

  /** Emptying an optional field removes its key and changes nothing else. */
  lemma EmptyFieldOnlyDropsItsKey(data: NotionPageData)
    ensures Properties(data.(description := "")) == Properties(data) - {"Description"}
    ensures Properties(data.(tags := [])) == Properties(data) - {"Tags"}
    ensures Properties(data.(sessionId := "")) == Properties(data) - {"Session ID"}
    ensures Properties(data.(highlights := "")) == Properties(data) - {"Highlights"}
  {
    EmptyDescription(data);
    EmptyTags(data);
    EmptySession(data);
    EmptyHighlights(data);
  }

  lemma EmptyDescription(data: NotionPageData)
    ensures Properties(data.(description := "")) == Properties(data) - {"Description"}
  {
    var p, a := Properties(data), Properties(data.(description := ""));
    forall k ensures (k in a <==> k in p - {"Description"}) && (k in a ==> a[k] == p[k]) {
    }
  }

  lemma EmptyTags(data: NotionPageData)
    ensures Properties(data.(tags := [])) == Properties(data) - {"Tags"}
  {
    var p, a := Properties(data), Properties(data.(tags := []));
    forall k ensures (k in a <==> k in p - {"Tags"}) && (k in a ==> a[k] == p[k]) {
    }
  }

  lemma EmptySession(data: NotionPageData)
    ensures Properties(data.(sessionId := "")) == Properties(data) - {"Session ID"}
  {
    var p, a := Properties(data), Properties(data.(sessionId := ""));
    forall k ensures (k in a <==> k in p - {"Session ID"}) && (k in a ==> a[k] == p[k]) {
    }
  }

  lemma EmptyHighlights(data: NotionPageData)
    ensures Properties(data.(highlights := "")) == Properties(data) - {"Highlights"}
  {
    var p, a := Properties(data), Properties(data.(highlights := ""));
    forall k ensures (k in a <==> k in p - {"Highlights"}) && (k in a ==> a[k] == p[k]) {
    }
  }

  // ---------------------------------------------------------------------------
  // Create, update, query and comment requests
  // ---------------------------------------------------------------------------

  /** `savePageToNotion`: POST `pages` with the parent database and the properties. */
  function CreatePageRequest(apiKey: string, databaseId: string, data: NotionPageData): Request {
    Request(Post, ApiRoot + "pages", Headers(apiKey),
      JObject(map["parent" := Obj1("database_id", JString(databaseId)),
                  "properties" := JObject(Properties(data))]))
  }

  /** `updatePageToNotion`: PATCH `pages/{pageId}` with the properties only. */
  function UpdatePageRequest(apiKey: string, pageId: string, data: NotionPageData): Request {
    Request(Patch, ApiRoot + "pages/" + pageId, Headers(apiKey),
      Obj1("properties", JObject(Properties(data))))
  }

  /** Create names the database and update the page; both send the same properties,
      and only create sends a parent. */
  lemma CreateAndUpdateShareProperties(apiKey: string, databaseId: string, pageId: string, data: NotionPageData)
    ensures var c, u := CreatePageRequest(apiKey, databaseId, data), UpdatePageRequest(apiKey, pageId, data);
      && c.verb == Post && c.url == ApiRoot + "pages"
      && u.verb == Patch && u.url == ApiRoot + "pages/" + pageId
      && Get(c.body, "properties") == Get(u.body, "properties") == Some(JObject(Properties(data)))
      && Lookup(Get(c.body, "parent"), "database_id") == Some(JString(databaseId))
      && c.body.fields.Keys == {"parent", "properties"}
      && u.body.fields.Keys == {"properties"}
      && c.headers == u.headers == Headers(apiKey)
  {
  }

  /** The dedup query: POST `databases/{id}/query` filtering `Link` by URL equality. */
  function PageQueryRequest(apiKey: string, databaseId: string, url: string): Request {
    Request(Post, ApiRoot + "databases/" + databaseId + "/query", Headers(apiKey),
      Obj1("filter", JObject(map["property" := JString("Link"),
                                 "url" := Obj1("equals", JString(url))])))
  }

  /** The dedup query asks the database for pages whose `Link` equals the URL. */
  lemma QueryRequestSpec(apiKey: string, databaseId: string, url: string)
    ensures var r := PageQueryRequest(apiKey, databaseId, url);
      && r.verb == Post && r.url == ApiRoot + "databases/" + databaseId + "/query"
      && r.headers == Headers(apiKey)
      && AsString(Lookup(Get(r.body, "filter"), "property")) == Some("Link")
      && AsString(Lookup(Lookup(Get(r.body, "filter"), "url"), "equals")) == Some(url)
  {
  }

  /** `addCommentToPage`: POST `comments` with the page as parent. */
  function CommentRequest(apiKey: string, pageId: string, text: string): Request {
    Request(Post, ApiRoot + "comments", Headers(apiKey),
      JObject(map["parent" := Obj1("page_id", JString(pageId)),
                  "rich_text" := RichText(text)]))
  }

  /** The comment request names the page and carries the text verbatim. */
  lemma CommentRoundTrip(apiKey: string, pageId: string, text: string)
    ensures var r := CommentRequest(apiKey, pageId, text);
      && AsString(Lookup(Get(r.body, "parent"), "page_id")) == Some(pageId)
      && RichTextContent(Get(r.body, "rich_text")) == Some(text)
  {
  }

  // ---------------------------------------------------------------------------
  // Dedup lookup
  // ---------------------------------------------------------------------------

  /** Either the response was not OK, or it was and its body parsed to `body`. */
  datatype QueryResponse = QueryNotOk | QueryOk(body: Json)

  datatype DedupResult = DedupResult(found: bool, summary: string, pageId: Option<string>)

  const NotFound := DedupResult(false, "", None)
  const SavedPrefix := "Zapisano "
  const NoteInfix := " z notatką: \""

  /** `data.results[0]` when `results` is a non-empty array. */
  function FirstResult(body: Json): Option<Json> {
    match Get(body, "results")
    case Some(JArray(items)) => if |items| > 0 then Some(items[0]) else None
    case _ => None
  }

  /** `page.properties?.Description?.rich_text?.[0]?.plain_text || ''`. */
  function StoredNote(page: Json): string {
    match Lookup(Lookup(Get(page, "properties"), "Description"), "rich_text")
    case Some(JArray(items)) =>
      if |items| > 0 then AsString(Get(items[0], "plain_text")).GetOr("") else ""
    case _ => ""
  }

  /** The creation date as the locale prints it, or '' when there is none. */
  function CreatedDate(page: Json, localeDate: Json -> string): string {
    match Get(page, "created_time")
    case Some(t) => if Truthy(t) then localeDate(t) else ""
    case None => ""
  }

  /** The summary shown for an already saved page: the saved marker and the
      date, then `.` when there is no note, or the note in quotes after the
      infix when there is one. */
  function Summary(date: string, note: string): (r: string)
    ensures |SavedPrefix + date| < |r| && r[..|SavedPrefix + date|] == SavedPrefix + date
    ensures note == "" ==> r[|SavedPrefix + date|..] == "."
    ensures note != "" ==> r[|SavedPrefix + date|..] == NoteInfix + note + "\""
    ensures r[|r| - 1] == '.' <==> note == ""
  {
    var head := SavedPrefix + date;
    if note != "" then
      var r := head + NoteInfix + note + "\"";
      assert r[|head|..] == NoteInfix + note + "\"";
      r
    else head + "."
  }

  /** For a given date, the summary tells the note apart: two summaries are
      equal only when their notes are. */
  lemma SummaryDeterminesNote(date: string, note1: string, note2: string)
    requires Summary(date, note1) == Summary(date, note2)
    ensures note1 == note2
  {
    var n := |SavedPrefix + date|;
    var r := Summary(date, note1);
    if note1 != "" && note2 != "" {
      var t1, t2 := NoteInfix + note1 + "\"", NoteInfix + note2 + "\"";
      assert t1 == r[n..] == t2;
      assert note1 == t1[|NoteInfix|..|t1| - 1];
      assert note2 == t2[|NoteInfix|..|t2| - 1];
    }
  }

  /** The messages of the `TypeError`s thrown when the body, or its first result,
      is `null` (V8's wording; the worker answers with `err.message`). */
  const NullBodyError := "Cannot read properties of null (reading 'results')"
  const NullPageError := "Cannot read properties of null (reading 'properties')"

  /** `checkIfPageSaved` after the query returned. A non-OK response, or no
      results, is "not found"; otherwise the first result decides: its id, and
      the summary of its creation date and stored note. Reading a `null` body or
      a `null` first result throws. */
  function CheckIfPageSaved(response: QueryResponse, localeDate: Json -> string): (r: Result<DedupResult>)
    ensures r.Err? <==> response.QueryOk? && (response.body.JNull? || FirstResult(response.body) == Some(JNull))
    ensures r.Ok? ==> (r.value.found <==> response.QueryOk? && FirstResult(response.body).Some?)
    ensures r.Ok? && !r.value.found ==> r.value == NotFound
    ensures r.Ok? && r.value.found ==>
      var page := FirstResult(response.body).value;
      && r.value.pageId == AsString(Get(page, "id"))
      && r.value.summary == Summary(CreatedDate(page, localeDate), StoredNote(page))
  {
    match response
    case QueryNotOk => Ok(NotFound)
    case QueryOk(body) =>
      if body.JNull? then Err(NullBodyError)
      else
        match FirstResult(body)
        case None => Ok(NotFound)
        case Some(page) =>
          if page.JNull? then Err(NullPageError)
          else Ok(DedupResult(true, Summary(CreatedDate(page, localeDate), StoredNote(page)), AsString(Get(page, "id"))))
  }

  /** Only the first match counts: results that agree on their first element give
      the same answer whatever follows it, and a non-null first element is found. */
  lemma FirstMatchWins(first: Json, rest1: seq<Json>, rest2: seq<Json>, localeDate: Json -> string)
    ensures CheckIfPageSaved(QueryOk(Obj1("results", JArray([first] + rest1))), localeDate)
         == CheckIfPageSaved(QueryOk(Obj1("results", JArray([first] + rest2))), localeDate)
    ensures !first.JNull? ==>
      var r := CheckIfPageSaved(QueryOk(Obj1("results", JArray([first] + rest1))), localeDate);
      r.Ok? && r.value.found
  {
  }

  // ---------------------------------------------------------------------------
  // Appending content blocks
  // ---------------------------------------------------------------------------

  /** One external-image block. */
  function ImageBlock(url: string): Json {
    JObject(map["object" := JString("block"),
                "type" := JString("image"),
                "image" := JObject(map["type" := JString("external"),
                                       "external" := Obj1("url", JString(url))])])
  }

  /** The URL of an external-image block. */
  function ExternalImageUrl(block: Json): Option<string> {
    if && Get(block, "object") == Some(JString("block"))
       && Get(block, "type") == Some(JString("image"))
       && Lookup(Get(block, "image"), "type") == Some(JString("external"))
    then AsString(Lookup(Lookup(Get(block, "image"), "external"), "url"))
    else None
  }

  /** `imageUrls.map(...)` in `appendImageBlocks`. */
  function ImageBlocks(urls: seq<string>): seq<Json> {
    seq(|urls|, i requires 0 <= i < |urls| => ImageBlock(urls[i]))
  }

  /** One image block per URL, in order, each pointing at that URL. */
  lemma ImageBlocksRoundTrip(urls: seq<string>)
    ensures |ImageBlocks(urls)| == |urls|
    ensures forall i :: 0 <= i < |urls| ==> ExternalImageUrl(ImageBlocks(urls)[i]) == Some(urls[i])
  {
  }

  /** One paragraph block holding `text`. */
  function ParagraphBlock(text: string): Json {
    JObject(map["object" := JString("block"),
                "type" := JString("paragraph"),
                "paragraph" := Obj1("rich_text", RichText(text))])
  }

  /** The text of a paragraph block. */
  function ParagraphText(block: Json): Option<string> {
    if && Get(block, "object") == Some(JString("block"))
       && Get(block, "type") == Some(JString("paragraph"))
    then RichTextContent(Lookup(Get(block, "paragraph"), "rich_text"))
    else None
  }

  /** `Array.prototype.filter`: the elements that pass `keep`, in order. */
  function Filter<T>(xs: seq<T>, keep: T -> bool): (r: seq<T>)
    ensures |r| <= |xs|
    ensures forall k :: 0 <= k < |r| ==> keep(r[k])
    decreases |xs|
  {
    if xs == [] then [] else (if keep(xs[0]) then [xs[0]] else []) + Filter(xs[1..], keep)
  }

  /** Filtering a concatenation filters each part, keeping their order. */
  lemma {:induction false} FilterAppend<T>(xs: seq<T>, ys: seq<T>, keep: T -> bool)
    ensures Filter(xs + ys, keep) == Filter(xs, keep) + Filter(ys, keep)
    decreases |xs|
  {
    if xs == [] {
      assert xs + ys == ys;
    } else {
      var zs := xs + ys;
      assert zs[0] == xs[0];
      assert zs[1..] == xs[1..] + ys;
      FilterAppend(xs[1..], ys, keep);
    }
  }

  /** Every element a filter keeps comes from its input. */
  lemma {:induction false} FilterFrom<T>(xs: seq<T>, keep: T -> bool, k: nat)
    requires k < |Filter(xs, keep)|
    ensures Filter(xs, keep)[k] in xs
    decreases |xs|
  {
    var head := if keep(xs[0]) then [xs[0]] else [];
    if k >= |head| {
      FilterFrom(xs[1..], keep, k - |head|);
    }
  }

  /** An element that passes is kept, right after what is kept before it. */
  lemma FilterKeepsEvery<T>(xs: seq<T>, keep: T -> bool, i: nat)
    requires i < |xs| && keep(xs[i])
    ensures |Filter(xs[..i], keep)| < |Filter(xs, keep)|
    ensures Filter(xs, keep)[|Filter(xs[..i], keep)|] == xs[i]
  {
    var before, x, after := xs[..i], xs[i], xs[i + 1..];
    assert xs == before + ([x] + after);
    FilterAppend(before, [x] + after, keep);
    assert ([x] + after)[1..] == after;
  }

  /** A filter every element passes keeps them all. */
  lemma {:induction false} FilterAll<T>(xs: seq<T>, keep: T -> bool)
    requires forall i :: 0 <= i < |xs| ==> keep(xs[i])
    ensures Filter(xs, keep) == xs
    decreases |xs|
  {
    if xs != [] {
      FilterAll(xs[1..], keep);
      assert [xs[0]] + xs[1..] == xs;
    }
  }

  predicate NonBlank(line: string) {
    Trim(line) != ""
  }

  /** `.filter(p => p.trim() !== '')`: the lines that are not blank, untrimmed, in order. */
  function NonBlankLines(lines: seq<string>): (r: seq<string>)
    ensures |r| <= |lines|
    ensures forall k :: 0 <= k < |r| ==> Trim(r[k]) != ""
  {
    var r := Filter(lines, NonBlank);
    assert forall k :: 0 <= k < |r| ==> NonBlank(r[k]);
    r
  }

  /** Every kept line is one of the lines. */
  lemma NonBlankLinesFrom(lines: seq<string>, k: nat)
    requires k < |NonBlankLines(lines)|
    ensures NonBlankLines(lines)[k] in lines
  {
    FilterFrom(lines, NonBlank, k);
  }

  /** No non-blank line is dropped: line `i` is kept, right after the lines kept
      from before it. */
  lemma NonBlankLinesKeepsEvery(lines: seq<string>, i: nat)
    requires i < |lines| && Trim(lines[i]) != ""
    ensures |NonBlankLines(lines[..i])| < |NonBlankLines(lines)|
    ensures NonBlankLines(lines)[|NonBlankLines(lines[..i])|] == lines[i]
  {
    FilterKeepsEvery(lines, NonBlank, i);
  }

  /** A text with no blank line keeps all of its lines. */
  lemma NonBlankLinesOfNonBlank(lines: seq<string>)
    requires forall i :: 0 <= i < |lines| ==> Trim(lines[i]) != ""
    ensures NonBlankLines(lines) == lines
  {
    FilterAll(lines, NonBlank);
  }

  /** Filtering the lines of a concatenation filters each part, keeping their order. */
  lemma NonBlankLinesAppend(xs: seq<string>, ys: seq<string>)
    ensures NonBlankLines(xs + ys) == NonBlankLines(xs) + NonBlankLines(ys)
  {
    FilterAppend(xs, ys, NonBlank);
  }

  /** The paragraphs `appendTextBlocks` makes of `text`. */
  function Paragraphs(text: string): seq<string> {
    NonBlankLines(Split(text, '\n'))
  }

  /** The paragraphs of two texts joined by a newline are those of the first
      followed by those of the second: nothing is merged, dropped or reordered. */
  lemma ParagraphsConcat(a: string, b: string)
    ensures Paragraphs(a + "\n" + b) == Paragraphs(a) + Paragraphs(b)
  {
    SplitConcat(a, b, '\n');
    NonBlankLinesAppend(Split(a, '\n'), Split(b, '\n'));
  }

  /** A single line is one paragraph, untrimmed, unless it is blank. */
  lemma ParagraphsOfLine(line: string)
    requires '\n' !in line
    ensures Paragraphs(line) == if Trim(line) != "" then [line] else []
  {
    SplitNoSep(line, '\n');
    assert [line][1..] == [];
  }

  /** `appendTextBlocks`' block list. */
  function TextBlocks(text: string): seq<Json> {
    var ps := Paragraphs(text);
    seq(|ps|, i requires 0 <= i < |ps| => ParagraphBlock(ps[i]))
  }

  /** A paragraph block gives back the text it was built from. */
  lemma ParagraphRoundTrip(text: string)
    ensures ParagraphText(ParagraphBlock(text)) == Some(text)
  {
  }

  /** One paragraph per non-blank line: each holds one whole line of `text`, no
      more blocks than lines, and every non-blank line gets a block. */
  lemma TextBlocksSpec(text: string)
    ensures |TextBlocks(text)| == |Paragraphs(text)| <= Count(text, '\n') + 1
    ensures forall k :: 0 <= k < |TextBlocks(text)| ==>
      ParagraphText(TextBlocks(text)[k]) == Some(Paragraphs(text)[k])
      && Paragraphs(text)[k] in Split(text, '\n')
      && '\n' !in Paragraphs(text)[k] && Trim(Paragraphs(text)[k]) != ""
    ensures forall line :: line in Split(text, '\n') && Trim(line) != "" ==> line in Paragraphs(text)
  {
    TextBlocksCount(text);
    TextBlocksContent(text);
    TextBlocksCover(text);
  }

  lemma TextBlocksCount(text: string)
    ensures |TextBlocks(text)| == |Paragraphs(text)| <= Count(text, '\n') + 1
  {
    SplitCount(text, '\n');
  }

  lemma TextBlocksContent(text: string)
    ensures forall k :: 0 <= k < |TextBlocks(text)| ==>
      ParagraphText(TextBlocks(text)[k]) == Some(Paragraphs(text)[k])
      && Paragraphs(text)[k] in Split(text, '\n')
      && '\n' !in Paragraphs(text)[k] && Trim(Paragraphs(text)[k]) != ""
  {
    var lines, ps := Split(text, '\n'), Paragraphs(text);
    forall k | 0 <= k < |ps|
      ensures ParagraphText(TextBlocks(text)[k]) == Some(ps[k])
      ensures ps[k] in lines && '\n' !in ps[k]
    {
      ParagraphRoundTrip(ps[k]);
      NonBlankLinesFrom(lines, k);
      var i :| 0 <= i < |lines| && lines[i] == ps[k];
    }
  }

  lemma TextBlocksCover(text: string)
    ensures forall line :: line in Split(text, '\n') && Trim(line) != "" ==> line in Paragraphs(text)
  {
    var lines := Split(text, '\n');
    forall line | line in lines && Trim(line) != "" ensures line in Paragraphs(text) {
      var i :| 0 <= i < |lines| && lines[i] == line;
      NonBlankLinesKeepsEvery(lines, i);
      assert Paragraphs(text)[|NonBlankLines(lines[..i])|] == line;
    }
  }

  /** Two non-blank lines give two paragraphs, in order. */
  lemma TwoLineText(a: string, b: string)
    requires '\n' !in a && '\n' !in b && Trim(a) != "" && Trim(b) != ""
    ensures Paragraphs(a + "\n" + b) == [a, b]
  {
    ParagraphsOfLine(a);
    ParagraphsOfLine(b);
    ParagraphsConcat(a, b);
  }

  /** PATCH `blocks/{pageId}/children` with `children`. */
  function AppendChildrenRequest(apiKey: string, pageId: string, blocks: seq<Json>): Request {
    Request(Patch, ApiRoot + "blocks/" + pageId + "/children", Headers(apiKey), Obj1("children", JArray(blocks)))
  }

  function AppendImageBlocksRequest(apiKey: string, pageId: string, urls: seq<string>): Request {
    AppendChildrenRequest(apiKey, pageId, ImageBlocks(urls))
  }

  function AppendTextBlocksRequest(apiKey: string, pageId: string, text: string): Request {
    AppendChildrenRequest(apiKey, pageId, TextBlocks(text))
  }
}
