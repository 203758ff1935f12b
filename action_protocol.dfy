/**
 * How the popup (src/App.tsx, `handleAskAI`) reads a language-model reply:
 * it finds the first `<action>` region, parses the JSON inside it, and either
 * shows a message or asks the background worker to append images or text to
 * the synced Notion page.
 *
 * `JSON.parse` is a parameter: the model computes the exact string handed to
 * it and follows the branches on what it returns.
 */
module ActionProtocol {
  import opened Wrappers
  import opened Strings
  import opened Json

  const OpenTag := "<action>"
  const CloseTag := "</action>"

  // ---------------------------------------------------------------------------
  // The action region
  // ---------------------------------------------------------------------------

  /** `reply` split around its first action region: `before`, the opening tag,
      `body`, the closing tag when `closed`, and `after`. */
  datatype ActionRegion = ActionRegion(before: string, body: string, after: string, closed: bool)

  /** The match of `/<action>([\s\S]*?)(?:<\/action>|$)/`: the region starts at
      the first opening tag and ends at the first closing tag after it, or at the
      end of the reply when there is none. */
  function ExtractAction(reply: string): (r: Option<ActionRegion>)
    ensures r.None? <==> forall j: nat :: !IsAt(reply, OpenTag, j)
    ensures r.Some? ==>
      var a := r.value;
      && reply == a.before + OpenTag + a.body + (if a.closed then CloseTag else "") + a.after
      && IsAt(reply, OpenTag, |a.before|)
      && (forall j: nat :: j < |a.before| ==> !IsAt(reply, OpenTag, j))
      && (forall j: nat :: |a.before| + |OpenTag| <= j < |a.before| + |OpenTag| + |a.body| ==> !IsAt(reply, CloseTag, j))
      && (!a.closed ==> a.after == "" && forall j: nat :: |a.before| + |OpenTag| <= j ==> !IsAt(reply, CloseTag, j))
  {
    match IndexFrom(reply, OpenTag, 0)
    case None => None
    case Some(open) =>
      var start := open + |OpenTag|;
      match IndexFrom(reply, CloseTag, start)
      case Some(close) =>
        Pieces(reply, open, start, close, close + |CloseTag|);
        Some(ActionRegion(reply[..open], reply[start..close], reply[close + |CloseTag|..], true))
      case None =>
        Pieces(reply, open, start, |reply|, |reply|);
        Some(ActionRegion(reply[..open], reply[start..], "", false))
  }

  /** Cutting a string at four points and joining the pieces gives it back. */
  lemma Pieces(s: string, i: nat, j: nat, k: nat, l: nat)
    requires i <= j <= k <= l <= |s|
    ensures s == s[..i] + s[i..j] + s[j..k] + s[k..l] + s[l..]
    ensures s[j..] == s[j..k] + s[k..l] + s[l..]
  {
    assert s[j..] == s[j..k] + s[k..l] + s[l..];
    assert s == s[..i] + s[i..j] + s[j..];
  }

  /** The reply with its first action region removed, trimmed (`textOutsideAction`). */
  function OutsideText(a: ActionRegion): string {
    Trim(a.before + a.after)
  }

  /** `prefixMsg`: the outside text and a blank line, or nothing. */
  function Prefix(outside: string): string {
    if outside != "" then outside + "\n\n" else ""
  }

  /** No opening tag starts in `s` before position `n`. */
  predicate NoOpenBefore(s: string, n: nat) {
    forall j: nat :: j < n ==> !IsAt(s, OpenTag, j)
  }

  /** No closing tag starts in `s` at a position in `[from, to)`. */
  predicate NoCloseIn(s: string, from: nat, to: nat) {
    forall j: nat :: from <= j < to ==> !IsAt(s, CloseTag, j)
  }

  /** The converse of `ExtractAction`'s contract for a closed region: a reply made
      of `lead`, one closed action and `tail`, where no opening tag starts inside
      `lead` and no closing tag starts inside the body, splits back into exactly
      those pieces. */
  lemma ExtractActionOf(lead: string, body: string, tail: string)
    requires NoOpenBefore(lead + OpenTag + body + CloseTag + tail, |lead|)
    requires NoCloseIn(lead + OpenTag + body + CloseTag + tail, |lead| + |OpenTag|, |lead| + |OpenTag| + |body|)
    ensures ExtractAction(lead + OpenTag + body + CloseTag + tail) == Some(ActionRegion(lead, body, tail, true))
  {
    var reply := lead + OpenTag + body + CloseTag + tail;
    var start := |lead| + |OpenTag|;
    var close := start + |body|;
    PiecesOf(lead, OpenTag, body, CloseTag, tail);
    IndexFromExact(reply, OpenTag, 0, |lead|);
    IndexFromExact(reply, CloseTag, start, close);
    ExtractClosed(reply, |lead|, close, lead, body, tail);
  }

  /** The converse for a truncated reply: when no closing tag starts after the
      opening one, the action is still extracted and its body runs to the end of
      the reply. */
  lemma TruncatedActionExtracted(lead: string, body: string)
    requires NoOpenBefore(lead + OpenTag + body, |lead|)
    requires NoCloseIn(lead + OpenTag + body, |lead| + |OpenTag|, |lead| + |OpenTag| + |body|)
    ensures ExtractAction(lead + OpenTag + body) == Some(ActionRegion(lead, body, "", false))
  {
    var reply := lead + OpenTag + body;
    var start := |lead| + |OpenTag|;
    PiecesOf(lead, OpenTag, body, "", "");
    assert reply == lead + OpenTag + body + "" + "";
    IndexFromExact(reply, OpenTag, 0, |lead|);
    assert reply[start..] == body;
    forall j: nat | start <= j ensures !IsAt(reply, CloseTag, j) {
      if j >= |reply| {
        assert j + |CloseTag| > |reply|;
      }
    }
    IndexFromAbsent(reply, CloseTag, start);
  }

  /** The region when both tags are found. */
  lemma ExtractClosed(reply: string, open: nat, close: nat, lead: string, body: string, tail: string)
    requires IndexFrom(reply, OpenTag, 0) == Some(open)
    requires IndexFrom(reply, CloseTag, open + |OpenTag|) == Some(close)
    requires reply[..open] == lead && reply[open + |OpenTag|..close] == body && reply[close + |CloseTag|..] == tail
    ensures ExtractAction(reply) == Some(ActionRegion(lead, body, tail, true))
  {
  }

  /** The pieces of a concatenation are read back by slicing at their lengths. */
  lemma PiecesOf(a: string, b: string, c: string, d: string, e: string)
    ensures var s, i, j := a + b + c + d + e, |a| + |b|, |a| + |b| + |c|;
      && s[..|a|] == a && s[|a|..i] == b && s[i..j] == c
      && s[j..j + |d|] == d && s[j + |d|..] == e
  {
    var s := a + b + c + d + e;
    assert s == a + (b + c + d + e);
    assert s == (a + b) + c + (d + e);
    assert s == (a + b + c) + d + e;
    assert s == (a + b + c + d) + e;
  }

  // ---------------------------------------------------------------------------
  // Fence stripping
  // ---------------------------------------------------------------------------

  const FenceOpen := "```json"
  const Fence := "```"

  /** ASCII lower case: the folding a non-Unicode `/i` regular expression applies
      to the letters of `json`. */
  function AsciiLower(c: char): char {
    if 'A' <= c <= 'Z' then (c as int + 32) as char else c
  }

  /** `s` starts with "```json" in any letter case (`/^```json/i`). */
  predicate StartsWithFenceOpen(s: string) {
    && |s| >= |FenceOpen| && s[..|Fence|] == Fence
    && AsciiLower(s[3]) == 'j' && AsciiLower(s[4]) == 's' && AsciiLower(s[5]) == 'o' && AsciiLower(s[6]) == 'n'
  }

  /** `s` ends with "```" (`/```$/`). */
  predicate EndsWithFence(s: string) {
    |s| >= |Fence| && s[|s| - |Fence|..] == Fence
  }

  /** `.replace(/^```json/i, '')` */
  function DropFenceOpen(t: string): (r: string)
    ensures StartsWithFenceOpen(t) ==> r == t[|FenceOpen|..]
    ensures !StartsWithFenceOpen(t) ==> r == t
  {
    if StartsWithFenceOpen(t) then t[|FenceOpen|..] else t
  }

  /** `.replace(/```$/i, '')` */
  function DropFence(u: string): (r: string)
    ensures EndsWithFence(u) ==> r == u[..|u| - |Fence|]
    ensures !EndsWithFence(u) ==> r == u
  {
    if EndsWithFence(u) then u[..|u| - |Fence|] else u
  }

  /** The JSON text handed to `JSON.parse`: the body trimmed, a leading "```json"
      removed, then a trailing "```" removed, and trimmed again. */
  function StripFence(body: string): (r: string)
    ensures r == [] || (!IsWhitespace(r[0]) && !IsWhitespace(r[|r| - 1]))
  {
    Trim(DropFence(DropFenceOpen(Trim(body))))
  }

  /** Whitespace around the body is removed by the first trim, before any fence
      is looked for. */
  lemma {:induction false} StripFencePadded(pre: string, body: string, post: string)
    requires AllWhitespace(pre) && AllWhitespace(post)
    ensures StripFence(pre + body + post) == StripFence(body)
  {
    TrimAbsorbs(pre, body, post);
  }

  /** A fenced body, with any whitespace around the fences, gives back exactly
      its trimmed content, whatever the letter case of the fence's `json`. */
  lemma {:induction false} FencedRoundTrip(pre: string, open: string, x: string, post: string)
    requires AllWhitespace(pre) && AllWhitespace(post)
    requires |open| == |FenceOpen| && StartsWithFenceOpen(open)
    ensures StripFence(pre + open + x + Fence + post) == Trim(x)
  {
    FencedIsTrimmed(open, x);
    DropFenceOpenOf(open, x);
    DropFenceOf(x);
    StripFencePadded(pre, open + x + Fence, post);
    Wrap(pre, open, x, Fence, post);
  }

  lemma FencedIsTrimmed(open: string, x: string)
    requires |open| == |FenceOpen| && StartsWithFenceOpen(open)
    ensures Trim(open + x + Fence) == open + x + Fence
  {
    var body := open + x + Fence;
    assert open[..3][0] == open[0];
    TrimPadded("", body, "");
    assert "" + body + "" == body;
  }

  lemma DropFenceOpenOf(open: string, x: string)
    requires |open| == |FenceOpen| && StartsWithFenceOpen(open)
    ensures DropFenceOpen(open + x + Fence) == x + Fence
  {
    var body := open + x + Fence;
    assert body[..|open|] == open;
  }

  lemma DropFenceOf(x: string)
    ensures DropFence(x + Fence) == x
  {
    assert (x + Fence)[|x|..] == Fence;
  }

  /** A body that opens a fence, after any whitespace, and never closes it gives
      back its trimmed content, provided that content does not itself end in a fence. */
  lemma {:induction false} OpenFenceOnly(pre: string, open: string, x: string)
    requires AllWhitespace(pre)
    requires |open| == |FenceOpen| && StartsWithFenceOpen(open)
    requires !EndsWithFence(Trim(x))
    ensures StripFence(pre + open + x) == Trim(x)
  {
    OpenedOnly(open, x);
    StripFencePadded(pre, open + x, "");
    Assoc(pre, open, x);
  }

  lemma {:induction false} OpenedOnly(open: string, x: string)
    requires |open| == |FenceOpen| && StartsWithFenceOpen(open)
    requires !EndsWithFence(Trim(x))
    ensures StripFence(open + x) == Trim(x)
  {
    var c := Trim(x);
    var pre, post := TrimParts(x);
    if c == [] {
      OpenedBlank(open, x);
    } else {
      ConcatAssoc(open, pre, c, post);
      OpenedParts(open, pre, c, post);
    }
  }

  lemma ConcatAssoc(a: string, b: string, c: string, d: string)
    ensures a + (b + c + d) == a + b + c + d
  {
  }

  lemma {:induction false} OpenedBlank(open: string, x: string)
    requires |open| == |FenceOpen| && StartsWithFenceOpen(open) && AllWhitespace(x)
    ensures StripFence(open + x) == []
  {
    assert open[..3][0] == open[0];
    TrimPadded("", open, x);
    assert "" + open + x == open + x;
    assert open[|FenceOpen|..] == [];
  }

  lemma {:induction false} OpenedParts(open: string, pre: string, c: string, post: string)
    requires |open| == |FenceOpen| && StartsWithFenceOpen(open)
    requires AllWhitespace(pre) && AllWhitespace(post)
    requires c != [] && !IsWhitespace(c[0]) && !IsWhitespace(c[|c| - 1]) && !EndsWithFence(c)
    ensures StripFence(open + pre + c + post) == c
  {
    OpenedTrim(open, pre, c, post);
    assert open + pre + c == open + (pre + c);
    OpenedDrop(open, pre + c);
    PaddedNotFenced(pre, c);
    TrimPadded(pre, c, "");
    assert pre + c + "" == pre + c;
  }

  lemma {:induction false} OpenedTrim(open: string, pre: string, c: string, post: string)
    requires |open| == |FenceOpen| && StartsWithFenceOpen(open)
    requires AllWhitespace(post) && c != [] && !IsWhitespace(c[|c| - 1])
    ensures Trim(open + pre + c + post) == open + pre + c
  {
    var t := open + pre + c;
    assert open[..3][0] == open[0];
    assert t[0] == open[0] && t[|t| - 1] == c[|c| - 1];
    assert open + pre + c + post == "" + t + post;
    TrimPadded("", t, post);
  }

  lemma {:induction false} OpenedDrop(open: string, rest: string)
    requires |open| == |FenceOpen| && StartsWithFenceOpen(open)
    ensures DropFenceOpen(open + rest) == rest
  {
    var t := open + rest;
    assert t[..|open|] == open;
    assert t[|FenceOpen|..] == rest;
  }

  /** A body that closes a fence it never opened, with any whitespace after it,
      gives back its trimmed content, provided that content does not itself start
      with an opening fence. */
  lemma {:induction false} CloseFenceOnly(x: string, post: string)
    requires AllWhitespace(post)
    requires !StartsWithFenceOpen(Trim(x))
    ensures StripFence(x + Fence + post) == Trim(x)
  {
    ClosedOnly(x);
    StripFencePadded("", x + Fence, post);
    Assoc(x, Fence, post);
  }

  lemma {:induction false} ClosedOnly(x: string)
    requires !StartsWithFenceOpen(Trim(x))
    ensures StripFence(x + Fence) == Trim(x)
  {
    var c := Trim(x);
    var pre, post := TrimParts(x);
    if c == [] {
      ClosedBlank(x);
    } else {
      ClosedParts(pre, c, post);
      assert x + Fence == pre + c + post + Fence;
    }
  }

  lemma {:induction false} ClosedBlank(x: string)
    requires AllWhitespace(x)
    ensures StripFence(x + Fence) == []
  {
    TrimPadded(x, Fence, "");
    assert x + Fence + "" == x + Fence;
    assert Fence[..0] == [];
  }

  lemma {:induction false} ClosedParts(pre: string, c: string, post: string)
    requires AllWhitespace(pre) && AllWhitespace(post)
    requires c != [] && !IsWhitespace(c[0]) && !IsWhitespace(c[|c| - 1]) && !StartsWithFenceOpen(c)
    ensures StripFence(pre + c + post + Fence) == c
  {
    ClosedTrim(pre, c, post);
    NotOpenedPadded(c, post);
    DropFenceOf(c + post);
    TrimPadded("", c, post);
    assert "" + c + post == c + post;
  }

  lemma {:induction false} ClosedTrim(pre: string, c: string, post: string)
    requires AllWhitespace(pre) && c != [] && !IsWhitespace(c[0])
    ensures Trim(pre + c + post + Fence) == c + post + Fence
  {
    var t := c + post + Fence;
    assert t[0] == c[0];
    assert pre + c + post + Fence == pre + t + "";
    TrimPadded(pre, t, "");
  }

  /** Leading whitespace cannot complete a closing fence. */
  lemma {:induction false} PaddedNotFenced(pre: string, c: string)
    requires AllWhitespace(pre) && !EndsWithFence(c)
    ensures !EndsWithFence(pre + c)
  {
    var s := pre + c;
    if |c| >= |Fence| {
      assert s[|s| - |Fence|..] == c[|c| - |Fence|..];
    } else if |s| >= |Fence| {
      var k := |s| - |Fence|;
      assert s[k] == pre[k] && IsWhitespace(s[k]);
      assert s[k..][0] == s[k];
    }
  }

  /** Trailing whitespace and backquotes cannot complete an opening fence. */
  lemma {:induction false} NotOpenedPadded(c: string, post: string)
    requires c != [] && !StartsWithFenceOpen(c) && AllWhitespace(post)
    ensures !StartsWithFenceOpen(c + post + Fence)
  {
    var t := c + post + Fence;
    if |c| >= |FenceOpen| {
      assert t[..|Fence|] == c[..|Fence|];
      assert t[3] == c[3] && t[4] == c[4] && t[5] == c[5] && t[6] == c[6];
    } else if |t| >= |FenceOpen| {
      var p := if |c| < 3 then 3 else |c|;
      assert t[p] == (post + Fence)[p - |c|];
      assert IsWhitespace(t[p]) || t[p] == '`';
    }
  }

  /** A body with no fence at either end is only trimmed. */
  lemma UnfencedUnchanged(body: string)
    requires !StartsWithFenceOpen(Trim(body)) && !EndsWithFence(Trim(body))
    ensures StripFence(body) == Trim(body)
  {
    var t := Trim(body);
    if t != [] {
      TrimPadded("", t, "");
      assert "" + t + "" == t;
    }
  }

  // ---------------------------------------------------------------------------
  // Image references
  // ---------------------------------------------------------------------------

  const RefTag := "IMG_"

  /** The name the system context gives to the image at position `i`. */
  function ImageRef(i: nat): string {
    RefTag + NatToString(i)
  }

  /** An `IMG_` followed by a digit starts at `p`. */
  predicate RefAt(s: string, p: nat) {
    IsAt(s, RefTag, p) && p + |RefTag| < |s| && IsDigit(s[p + |RefTag|])
  }

  /** Where `/IMG_(\d+)/` matches first, at or after `k`. */
  function FindRefFrom(s: string, k: nat): (r: Option<nat>)
    ensures r.Some? ==> k <= r.value && RefAt(s, r.value)
    ensures forall j: nat :: k <= j && (r.None? || j < r.value) ==> !RefAt(s, j)
    decreases |s| - k
  {
    if k + |RefTag| >= |s| then None
    else if RefAt(s, k) then Some(k)
    else FindRefFrom(s, k + 1)
  }

  /** `parseInt(id.match(/IMG_(\d+)/)[1], 10)`, or `None` when there is no match. */
  function FindImgRef(s: string): Option<nat> {
    match FindRefFrom(s, 0)
    case None => None
    case Some(p) => Some(DigitsValue(LeadingDigits(s[p + |RefTag|..])))
  }

  /** The reference the context gives an image reads back as that image's position. */
  lemma ImageRefRoundTrip(i: nat)
    ensures FindImgRef(ImageRef(i)) == Some(i)
  {
    var s := ImageRef(i);
    assert RefAt(s, 0) by {
      assert s[..|RefTag|] == RefTag;
      assert s[|RefTag|] == NatToString(i)[0];
    }
    assert FindRefFrom(s, 0) == Some(0);
    assert s[|RefTag|..] == NatToString(i);
    LeadingDigitsOfDigits(NatToString(i));
    NatToStringValue(i);
  }

  /** `(images || [])[n]` kept when it is truthy. */
  function ImageAt(images: seq<string>, n: nat): Option<string> {
    if n < |images| && images[n] != "" then Some(images[n]) else None
  }

  /** Every entry is a string. */
  predicate AllStrings(ids: seq<Json>) {
    forall i :: 0 <= i < |ids| ==> ids[i].JString?
  }

  /** Every URL is non-empty and one of the captured images. */
  predicate DrawnFrom(urls: seq<string>, images: seq<string>) {
    forall k :: 0 <= k < |urls| ==> urls[k] != "" && urls[k] in images
  }

  /** What resolving the `image_ids` array gives: the image URLs in order, or the
      message of the `TypeError` thrown by `id.match` on a non-string entry. */
  datatype Resolution = Resolved(urls: seq<string>) | IdTypeError(message: string)

  const NullMatchError := "TypeError: Cannot read properties of null (reading 'match')"
  const NotStringMatchError := "TypeError: id.match is not a function"

  /** The URL one entry resolves to; an entry that is not a string throws. */
  function ResolveId(id: Json, images: seq<string>): Result<Option<string>> {
    match id
    case JString(s) => Ok(match FindImgRef(s) case Some(n) => ImageAt(images, n) case None => None)
    case JNull => Err(NullMatchError)
    case _ => Err(NotStringMatchError)
  }

  /** `image_ids.map(...).filter(url => !!url)`. The first entry that is not a
      string aborts the whole map; otherwise the truthy URLs are kept in order. */
  function ResolveIds(ids: seq<Json>, images: seq<string>): (r: Resolution)
    ensures r.Resolved? <==> AllStrings(ids)
    ensures r.Resolved? ==> |r.urls| <= |ids| && DrawnFrom(r.urls, images)
    decreases |ids|
  {
    if ids == [] then Resolved([])
    else
      match ResolveId(ids[0], images)
      case Err(e) => IdTypeError(e)
      case Ok(url) =>
        match ResolveIds(ids[1..], images)
        case IdTypeError(e) =>
          assert forall i :: 0 < i < |ids| ==> ids[i] == ids[1..][i - 1];
          IdTypeError(e)
        case Resolved(rest) =>
          assert forall i :: 0 < i < |ids| ==> ids[i] == ids[1..][i - 1];
          Resolved((if url.Some? then [url.value] else []) + rest)
  }

  /** The images that are not empty, in order. */
  function NonEmpty(images: seq<string>): seq<string>
    decreases |images|
  {
    if images == [] then []
    else (if images[0] != "" then [images[0]] else []) + NonEmpty(images[1..])
  }

  /** The references `IMG_k .. IMG_{n-1}` as JSON strings. */
  function RefsFrom(k: nat, n: nat): (ids: seq<Json>)
    requires k <= n
    ensures |ids| == n - k
    ensures forall i :: 0 <= i < |ids| ==> ids[i] == JString(ImageRef(k + i))
  {
    seq(n - k, i requires 0 <= i < n - k => JString(ImageRef(k + i)))
  }

  /** Asking for images by the names the context lists gives back every
      non-empty image, in order. */
  lemma {:induction false} ListedRefsResolve(images: seq<string>, k: nat)
    requires k <= |images|
    ensures ResolveIds(RefsFrom(k, |images|), images) == Resolved(NonEmpty(images[k..]))
    decreases |images| - k
  {
    var ids := RefsFrom(k, |images|);
    if k < |images| {
      ImageRefRoundTrip(k);
      assert ids[1..] == RefsFrom(k + 1, |images|);
      ListedRefsResolve(images, k + 1);
      assert images[k..][0] == images[k];
      assert images[k..][1..] == images[k + 1..];
    } else {
      assert images[k..] == [];
    }
  }

  /** The name the context gives an image resolves to that image, unless it is empty. */
  lemma RefResolves(i: nat, images: seq<string>)
    ensures ResolveId(JString(ImageRef(i)), images) == Ok(ImageAt(images, i))
  {
    ImageRefRoundTrip(i);
  }

  /** Resolving one more entry in front. */
  lemma ResolveCons(id: Json, rest: seq<Json>, images: seq<string>, url: Option<string>, urls: seq<string>)
    requires ResolveId(id, images) == Ok(url) && ResolveIds(rest, images) == Resolved(urls)
    ensures ResolveIds([id] + rest, images) == Resolved((if url.Some? then [url.value] else []) + urls)
  {
    assert ([id] + rest)[1..] == rest;
  }

  /** Joins the resolutions of two consecutive runs of entries: the first error wins. */
  function Combine(x: Resolution, y: Resolution): Resolution {
    match x
    case IdTypeError(e) => x
    case Resolved(a) =>
      match y
      case IdTypeError(e) => y
      case Resolved(b) => Resolved(a + b)
  }

  /** Resolution works entry by entry: the URLs of consecutive runs are
      concatenated in order, and the first non-string entry decides the error. */
  lemma {:induction false} ResolveAppend(xs: seq<Json>, ys: seq<Json>, images: seq<string>)
    ensures ResolveIds(xs + ys, images) == Combine(ResolveIds(xs, images), ResolveIds(ys, images))
    decreases |xs|
  {
    if xs == [] {
      assert xs + ys == ys;
    } else {
      assert (xs + ys)[0] == xs[0];
      assert (xs + ys)[1..] == xs[1..] + ys;
      ResolveAppend(xs[1..], ys, images);
      match ResolveId(xs[0], images)
      case Err(e) =>
      case Ok(url) =>
        var head := if url.Some? then [url.value] else [];
        match ResolveIds(xs[1..], images)
        case IdTypeError(e) =>
        case Resolved(a) =>
          match ResolveIds(ys, images)
          case IdTypeError(e) =>
          case Resolved(b) =>
            assert head + (a + b) == (head + a) + b;
    }
  }

  /** A string entry with no reference, or with one past the end of the list,
      resolves to nothing and raises nothing. */
  lemma UnresolvableDropped(id: string, images: seq<string>)
    requires FindImgRef(id).None? || FindImgRef(id).value >= |images|
    ensures ResolveIds([JString(id)], images) == Resolved([])
  {
    assert ResolveId(JString(id), images) == Ok(None);
    var ids := [JString(id)];
    assert ids[1..] == [];
    assert ResolveIds(ids[1..], images) == Resolved([]);
  }

  /** Against a page with one image, `IMG_0` resolves to that image and `IMG_99`
      is dropped. */
  lemma OneOfTwoResolves(url: string)
    requires url != ""
    ensures ResolveIds([JString(ImageRef(0)), JString(ImageRef(99))], [url]) == Resolved([url])
  {
    RefResolves(0, [url]);
    ImageRefRoundTrip(99);
    UnresolvableDropped(ImageRef(99), [url]);
    ResolveCons(JString(ImageRef(0)), [JString(ImageRef(99))], [url], Some(url), []);
    assert [JString(ImageRef(0))] + [JString(ImageRef(99))] == [JString(ImageRef(0)), JString(ImageRef(99))];
  }

  // ---------------------------------------------------------------------------
  // Dispatch
  // ---------------------------------------------------------------------------

  /** What `JSON.parse` did with the text: a value, or the text of its error. */
  datatype Parsed = ParseOk(value: Json) | ParseFailed(error: string)

  /** What the popup does with a reply: append a chat message, or send an append
      request for the synced page (its own reply comes later, with `prefix`). */
  datatype ReplyOutcome =
    | ShowMessage(content: string)
    | RequestImages(pageId: string, urls: seq<string>, prefix: string)
    | RequestText(pageId: string, text: Json, prefix: string)

  const NullTypeError := "TypeError: Cannot read properties of null (reading 'type')"

  function ParseFailure(prefix: string, error: string, body: string): string {
    prefix + "[System Error] Failed to parse action (model truncated?): " + error + ", Raw: " + Take(body, 100) + "..."
  }

  function NoValidImages(prefix: string): string {
    prefix + "[System Error] No valid image IDs found in AI response."
  }

  function NotSavedImages(prefix: string): string {
    prefix + "[System Error] Page is not saved in Notion. Save it first before adding images."
  }

  function NotSavedText(prefix: string): string {
    prefix + "[System Error] Page is not saved in Notion. Save it first before adding text."
  }

  function AppendedImages(prefix: string, n: nat): string {
    prefix + "[System] Successfully appended " + NatToString(n) + " image(s) to Notion."
  }

  function FailedImages(prefix: string, error: Option<string>): string {
    prefix + "[System Error] Failed to add images: " + Interpolate(error)
  }

  function AppendedText(prefix: string): string {
    prefix + "[System] Successfully appended the generated text to Notion."
  }

  function FailedText(prefix: string, error: Option<string>): string {
    prefix + "[System Error] Failed to add text: " + Interpolate(error)
  }

  /** `image_ids` when it is an array. */
  function ImageIds(action: Json): Option<seq<Json>> {
    match Get(action, "image_ids")
    case Some(JArray(ids)) => Some(ids)
    case _ => None
  }

  /** `text` when it is truthy. */
  function ActionText(action: Json): Option<Json> {
    match Get(action, "text")
    case Some(t) => if Truthy(t) then Some(t) else None
    case None => None
  }

  /** The branches on the parsed action, in the code's order. */
  function Dispatch(reply: string, action: Json, prefix: string, body: string,
                    images: seq<string>, synced: Option<string>): (o: ReplyOutcome)
    ensures o.RequestImages? ==>
      && Present(synced) && o.pageId == synced.value && o.prefix == prefix
      && ImageIds(action).Some? && ResolveIds(ImageIds(action).value, images) == Resolved(o.urls) && o.urls != []
    ensures o.RequestText? ==>
      && Present(synced) && o.pageId == synced.value && o.prefix == prefix
      && Get(action, "type") == Some(JString("append_text")) && ActionText(action) == Some(o.text)
  {
    if action.JNull? then ShowMessage(ParseFailure(prefix, NullTypeError, body))
    else if Get(action, "type") == Some(JString("append_images")) && ImageIds(action).Some? then
      match ResolveIds(ImageIds(action).value, images)
      case IdTypeError(e) => ShowMessage(ParseFailure(prefix, e, body))
      case Resolved(urls) =>
        if urls == [] then ShowMessage(NoValidImages(prefix))
        else if Present(synced) then RequestImages(synced.value, urls, prefix)
        else ShowMessage(NotSavedImages(prefix))
    else if Get(action, "type") == Some(JString("append_text")) && ActionText(action).Some? then
      if Present(synced) then RequestText(synced.value, ActionText(action).value, prefix)
      else ShowMessage(NotSavedText(prefix))
    else ShowMessage(reply)
  }

  /** The whole reading of one successful reply. */
  function HandleReply(reply: string, parse: string -> Parsed, images: seq<string>, synced: Option<string>): (o: ReplyOutcome)
    ensures !o.ShowMessage? ==> Present(synced) && o.pageId == synced.value
  {
    match ExtractAction(reply)
    case None => ShowMessage(reply)
    case Some(a) =>
      var prefix := Prefix(OutsideText(a));
      match parse(StripFence(a.body))
      case ParseFailed(e) => ShowMessage(ParseFailure(prefix, e, a.body))
      case ParseOk(action) => Dispatch(reply, action, prefix, a.body, images, synced)
  }

  /** A reply with no action tag is shown as it is. */
  lemma NoActionShown(reply: string, parse: string -> Parsed, images: seq<string>, synced: Option<string>)
    requires forall j: nat :: !IsAt(reply, OpenTag, j)
    ensures HandleReply(reply, parse, images, synced) == ShowMessage(reply)
  {
  }

  /** Without a synced page no append is ever requested. */
  lemma UnsyncedNeverAppends(reply: string, parse: string -> Parsed, images: seq<string>, synced: Option<string>)
    requires !Present(synced)
    ensures HandleReply(reply, parse, images, synced).ShowMessage?
  {
  }

  /** An image request carries the URLs its references resolve to, none empty,
      each from the captured list, and the outside text as its prefix. */
  lemma ImageRequestSpec(reply: string, parse: string -> Parsed, images: seq<string>, synced: Option<string>)
    requires HandleReply(reply, parse, images, synced).RequestImages?
    ensures var o := HandleReply(reply, parse, images, synced);
      && ExtractAction(reply).Some?
      && o.prefix == Prefix(OutsideText(ExtractAction(reply).value))
      && parse(StripFence(ExtractAction(reply).value.body)).ParseOk?
      && o.urls != []
      && forall k :: 0 <= k < |o.urls| ==> o.urls[k] != "" && o.urls[k] in images
  {
    var o := HandleReply(reply, parse, images, synced);
    var a := ExtractAction(reply).value;
    var action := parse(StripFence(a.body)).value;
    assert ResolveIds(ImageIds(action).value, images) == Resolved(o.urls);
  }

  /** An action that is not `null` and is neither an append-images action with an
      `image_ids` array nor an append-text action with a truthy text (a number, a
      string, an array, an object of another type, or a known type missing its
      argument) shows the raw reply, prefix and all. */
  lemma UnknownTypeShowsReply(reply: string, parse: string -> Parsed, images: seq<string>, synced: Option<string>)
    requires ExtractAction(reply).Some?
    requires var body := ExtractAction(reply).value.body;
      && parse(StripFence(body)).ParseOk?
      && !parse(StripFence(body)).value.JNull?
      && !(Get(parse(StripFence(body)).value, "type") == Some(JString("append_images"))
           && ImageIds(parse(StripFence(body)).value).Some?)
      && !(Get(parse(StripFence(body)).value, "type") == Some(JString("append_text"))
           && ActionText(parse(StripFence(body)).value).Some?)
    ensures HandleReply(reply, parse, images, synced) == ShowMessage(reply)
  {
    var a := ExtractAction(reply).value;
    var action := parse(StripFence(a.body)).value;
    HandleReplyDispatches(reply, parse, images, synced);
    DispatchOther(reply, action, Prefix(OutsideText(a)), a.body, images, synced);
  }

  /** Every action outside the two gated branches, `null` excepted, shows the raw reply. */
  lemma DispatchOther(reply: string, action: Json, prefix: string, body: string,
                      images: seq<string>, synced: Option<string>)
    requires !action.JNull?
    requires !(Get(action, "type") == Some(JString("append_images")) && ImageIds(action).Some?)
    requires !(Get(action, "type") == Some(JString("append_text")) && ActionText(action).Some?)
    ensures Dispatch(reply, action, prefix, body, images, synced) == ShowMessage(reply)
  {
  }

  /** A `null` action makes `actionJson.type` throw; the error is shown as a parse failure. */
  lemma DispatchNull(reply: string, prefix: string, body: string, images: seq<string>, synced: Option<string>)
    ensures Dispatch(reply, JNull, prefix, body, images, synced) == ShowMessage(ParseFailure(prefix, NullTypeError, body))
  {
  }

  /** A reply whose action parses is decided by `Dispatch`. */
  lemma HandleReplyDispatches(reply: string, parse: string -> Parsed, images: seq<string>, synced: Option<string>)
    requires ExtractAction(reply).Some?
    requires parse(StripFence(ExtractAction(reply).value.body)).ParseOk?
    ensures var a := ExtractAction(reply).value;
      HandleReply(reply, parse, images, synced)
        == Dispatch(reply, parse(StripFence(a.body)).value, Prefix(OutsideText(a)), a.body, images, synced)
  {
  }

  /** A parse failure shows its error with the first 100 characters of the raw body. */
  lemma ParseFailureShown(reply: string, parse: string -> Parsed, images: seq<string>, synced: Option<string>)
    requires ExtractAction(reply).Some?
    requires parse(StripFence(ExtractAction(reply).value.body)).ParseFailed?
    ensures var a := ExtractAction(reply).value;
      HandleReply(reply, parse, images, synced)
        == ShowMessage(ParseFailure(Prefix(OutsideText(a)), parse(StripFence(a.body)).error, a.body))
  {
    var a := ExtractAction(reply).value;
    var prefix := Prefix(OutsideText(a));
    assert parse(StripFence(a.body)) == ParseFailed(parse(StripFence(a.body)).error);
  }

  /** An append-text action with a truthy text is requested for a synced page. */
  lemma DispatchText(reply: string, action: Json, prefix: string, body: string,
                     images: seq<string>, synced: Option<string>)
    requires Get(action, "type") == Some(JString("append_text")) && ActionText(action).Some?
    requires Present(synced)
    ensures Dispatch(reply, action, prefix, body, images, synced)
         == RequestText(synced.value, ActionText(action).value, prefix)
  {
  }

  /** An append-text action shows the not-saved error when no page is synced. */
  lemma DispatchTextUnsynced(reply: string, action: Json, prefix: string, body: string,
                             images: seq<string>, synced: Option<string>)
    requires Get(action, "type") == Some(JString("append_text")) && ActionText(action).Some?
    requires !Present(synced)
    ensures Dispatch(reply, action, prefix, body, images, synced) == ShowMessage(NotSavedText(prefix))
  {
  }

  /** An append-images action whose ids resolve to at least one image is
      requested, with those images in order, for a synced page. */
  lemma DispatchImagesRequested(reply: string, action: Json, prefix: string, body: string,
                                images: seq<string>, synced: Option<string>, urls: seq<string>)
    requires Get(action, "type") == Some(JString("append_images")) && ImageIds(action).Some?
    requires ResolveIds(ImageIds(action).value, images) == Resolved(urls) && urls != []
    requires Present(synced)
    ensures Dispatch(reply, action, prefix, body, images, synced) == RequestImages(synced.value, urls, prefix)
  {
  }

  /** An append-images action none of whose ids resolves reports that there are
      no valid images, whether or not a page is synced. */
  lemma DispatchImagesNone(reply: string, action: Json, prefix: string, body: string,
                           images: seq<string>, synced: Option<string>)
    requires Get(action, "type") == Some(JString("append_images")) && ImageIds(action).Some?
    requires ResolveIds(ImageIds(action).value, images) == Resolved([])
    ensures Dispatch(reply, action, prefix, body, images, synced) == ShowMessage(NoValidImages(prefix))
  {
  }

  /** An append-images action with images to add shows the not-saved error
      when no page is synced. */
  lemma DispatchImagesUnsynced(reply: string, action: Json, prefix: string, body: string,
                               images: seq<string>, synced: Option<string>, urls: seq<string>)
    requires Get(action, "type") == Some(JString("append_images")) && ImageIds(action).Some?
    requires ResolveIds(ImageIds(action).value, images) == Resolved(urls) && urls != []
    requires !Present(synced)
    ensures Dispatch(reply, action, prefix, body, images, synced) == ShowMessage(NotSavedImages(prefix))
  {
  }

  /** An append-images action holding an id that is not a string shows the
      `TypeError` thrown by `id.match` as a parse failure. */
  lemma DispatchImagesTypeError(reply: string, action: Json, prefix: string, body: string,
                                images: seq<string>, synced: Option<string>, error: string)
    requires Get(action, "type") == Some(JString("append_images")) && ImageIds(action).Some?
    requires ResolveIds(ImageIds(action).value, images) == IdTypeError(error)
    ensures Dispatch(reply, action, prefix, body, images, synced) == ShowMessage(ParseFailure(prefix, error, body))
  {
  }

  /** A reply holding one closed append-text action, with prose before and after
      it, asks for that text to be appended to the synced page, prefixed by the
      trimmed prose. */
  lemma TextActionRequested(lead: string, body: string, tail: string, parse: string -> Parsed,
                            images: seq<string>, synced: Option<string>)
    requires NoOpenBefore(lead + OpenTag + body + CloseTag + tail, |lead|)
    requires NoCloseIn(lead + OpenTag + body + CloseTag + tail, |lead| + |OpenTag|, |lead| + |OpenTag| + |body|)
    requires parse(StripFence(body)).ParseOk?
    requires Get(parse(StripFence(body)).value, "type") == Some(JString("append_text"))
    requires ActionText(parse(StripFence(body)).value).Some?
    requires Present(synced)
    ensures HandleReply(lead + OpenTag + body + CloseTag + tail, parse, images, synced)
         == RequestText(synced.value, ActionText(parse(StripFence(body)).value).value, Prefix(Trim(lead + tail)))
  {
    var reply := lead + OpenTag + body + CloseTag + tail;
    ExtractActionOf(lead, body, tail);
    var a := ActionRegion(lead, body, tail, true);
    HandleReplyDispatches(reply, parse, images, synced);
    DispatchText(reply, parse(StripFence(body)).value, Prefix(OutsideText(a)), body, images, synced);
  }
}
