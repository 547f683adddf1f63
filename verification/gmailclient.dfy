/**
 * The Gmail API client's reading of a message resource: the header map, the message body
 * assembled from the payload's parts, the message record, and a thread's messages. The
 * base64url decoding of RFC 4648 section 5 (followed by a lenient UTF-8 decode) is the
 * parameter `decode`.
 */
module GmailClient {
  import opened Common
  import opened OrderedMaps
  import opened PyStr
  import opened Records

  /** One entry of a payload's `headers` list. */
  datatype Header = Header(name: string, value: string)

  /**
   * A message part; the payload is one too. `data` is the part's `body.data`, and is None
   * when the part has no `body` or its body has no `data`. Every other key the resource may
   * leave out is an Option as well; `parts` is `Subparts`, an Option of its own.
   */
  datatype Part = Part(mimeType: Option<string>, headers: Option<seq<Header>>, data: Option<string>,
                       parts: Subparts)

  /** A part's `parts` list, or its absence. */
  datatype Subparts = Absent | Present(items: seq<Part>)

  /** The payload read when a message has none: `{}`. */
  const NoPayload: Part := Part(None, None, None, Absent)

  /** `part.get("body", {}).get("data")` is truthy: present and non-empty. */
  predicate HasData(p: Part) {
    p.data.Some? && p.data.value != ""
  }

  // ---------------------------------------------------------------------------------------
  // The header map
  // ---------------------------------------------------------------------------------------

  /** The names of the headers, in order. */
  function Names(hs: seq<Header>): (r: seq<string>)
    ensures |r| == |hs| && forall i :: 0 <= i < |hs| ==> r[i] == hs[i].name
  {
    if hs == [] then [] else Names(hs[..|hs| - 1]) + [hs[|hs| - 1].name]
  }

  /**
   * `{h["name"]: h["value"] for h in headers}`: built in payload order, so a later header
   * with a name already seen overwrites the value and keeps the name's first position.
   */
  function HeaderMap(hs: seq<Header>): OrderedMap<string, string> {
    if hs == [] then Empty()
    else
      var h := hs[|hs| - 1];
      Put(HeaderMap(hs[..|hs| - 1]), h.name, h.value)
  }

  /** `headers.get(name, "")` */
  function Get(headers: map<string, string>, name: string): string {
    if name in headers then headers[name] else ""
  }

  /** The header at `i` is the last one called `name`. */
  predicate LastNamed(hs: seq<Header>, name: string, i: int) {
    && 0 <= i < |hs| && hs[i].name == name
    && forall j :: i < j < |hs| ==> hs[j].name != name
  }

  /** `v` is the value of the last header called `name`, or "" when no header has that name. */
  ghost predicate HeaderValue(hs: seq<Header>, name: string, v: string) {
    if name in Names(hs) then exists i :: LastNamed(hs, name, i) && v == hs[i].value else v == ""
  }

  /** The map has every header name once, in order of first appearance, and nothing else. */
  lemma {:induction false} HeaderMapKeys(hs: seq<Header>)
    ensures var d := HeaderMap(hs);
      && Valid(d)
      && d.keys == FirstOccurrences(Names(hs))
      && (forall name :: name in d.values <==> name in Names(hs))
  {
    if hs != [] {
      var init := hs[..|hs| - 1];
      HeaderMapKeys(init);
      var names := Names(hs);
      assert names[..|names| - 1] == Names(init);
    }
  }

  /** Looking a name up in the map gives the value of the last header so called, or "". */
  lemma {:induction false} HeaderLookup(hs: seq<Header>, name: string)
    ensures HeaderValue(hs, name, Get(HeaderMap(hs).values, name))
  {
    if hs != [] {
      var init := hs[..|hs| - 1];
      var h := hs[|hs| - 1];
      assert Names(hs) == Names(init) + [h.name];
      if h.name == name {
        assert LastNamed(hs, name, |hs| - 1);
      } else {
        HeaderLookup(init, name);
        if name in Names(init) {
          var i :| LastNamed(init, name, i) && Get(HeaderMap(init).values, name) == init[i].value;
          assert LastNamed(hs, name, i);
        }
      }
    }
  }

  // ---------------------------------------------------------------------------------------
  // The body
  // ---------------------------------------------------------------------------------------

  /**
   * `_extract_body`: the decoded top-level data when there is some, whatever the parts;
   * otherwise the text the parts give; stripped either way.
   */
  function BodyText(p: Part, decode: string -> string): (r: string)
    ensures r == [] || (!IsSpace(r[0]) && !IsSpace(r[|r| - 1]))
    decreases p, 1, 0
  {
    var body :=
      if HasData(p) then decode(p.data.value)
      else if p.parts.Present? then FoldParts(p, |p.parts.items|, decode)
      else "";
    StripBySpec(body, IsSpace);
    Strip(body)
  }

  /**
   * The body the loop over `p`'s parts has built after its first `k` parts: a `text/plain`
   * part with data is appended; a `text/html` part with data replaces the body while it is
   * still empty; any other part with nested parts appends their text.
   */
  function FoldParts(p: Part, k: nat, decode: string -> string): string
    requires p.parts.Present? && k <= |p.parts.items|
    decreases p, 0, k
  {
    if k == 0 then ""
    else
      var body := FoldParts(p, k - 1, decode);
      var part := p.parts.items[k - 1];
      assert part in p.parts.items;
      if part.mimeType == Some("text/plain") && HasData(part) then body + decode(part.data.value)
      else if part.mimeType == Some("text/html") && body == "" && HasData(part) then decode(part.data.value)
      else if part.parts.Present? then body + BodyText(part, decode)
      else body
  }

  /** `_extract_body` as the loop the client runs, with a recursive call for nested parts. */
  method ExtractBody(payload: Part, decode: string -> string) returns (text: string)
    ensures text == BodyText(payload, decode)
    decreases payload
  {
    var body := "";
    if HasData(payload) {
      body := decode(payload.data.value);
    } else if payload.parts.Present? {
      var parts := payload.parts.items;
      for i := 0 to |parts|
        invariant body == FoldParts(payload, i, decode)
      {
        var part := parts[i];
        if part.mimeType == Some("text/plain") && HasData(part) {
          body := body + decode(part.data.value);
        } else if part.mimeType == Some("text/html") && body == "" && HasData(part) {
          body := decode(part.data.value);
        } else if part.parts.Present? {
          assert part in parts;
          var nested := ExtractBody(part, decode);
          body := body + nested;
        }
      }
    }
    text := Strip(body);
  }

  /** When the payload itself has data, its parts are never read. */
  lemma DataIgnoresParts(p: Part, parts: Subparts, decode: string -> string)
    requires HasData(p)
    ensures BodyText(p.(parts := parts), decode) == Strip(decode(p.data.value))
  {
  }

  /** The text collected only grows: what the first parts gave is never replaced or cut. */
  lemma {:induction false} FoldPartsGrows(p: Part, i: nat, j: nat, decode: string -> string)
    requires p.parts.Present? && i <= j <= |p.parts.items|
    ensures StartsWith(FoldParts(p, j, decode), FoldParts(p, i, decode))
    decreases j
  {
    if i < j {
      FoldPartsGrows(p, i, j - 1, decode);
      var before := FoldParts(p, j - 1, decode);
      var after := FoldParts(p, j, decode);
      if before != "" {
        assert after[..|before|] == before;
      }
    }
  }

  /** A `text/plain` part with data. */
  predicate IsPlain(part: Part) {
    part.mimeType == Some("text/plain") && HasData(part)
  }

  /**
   * Once a plain part has given some text, a later `text/html` part no longer replaces the
   * body. When it has a `parts` key it goes through the nested-parts branch, which appends the
   * part's whole extracted body: its own decoded data when it has some, otherwise the text of
   * its nested parts. Without a `parts` key it adds nothing.
   */
  lemma HtmlAfterText(p: Part, i: nat, k: nat, decode: string -> string)
    requires p.parts.Present? && i < k < |p.parts.items|
    requires IsPlain(p.parts.items[i]) && decode(p.parts.items[i].data.value) != ""
    requires p.parts.items[k].mimeType == Some("text/html")
    ensures var part := p.parts.items[k];
      FoldParts(p, k + 1, decode)
        == FoldParts(p, k, decode) + (if part.parts.Present? then BodyText(part, decode) else "")
  {
    FoldPartsGrows(p, i + 1, k, decode);
    assert FoldParts(p, i + 1, decode) != "";
  }

  /** The decoded data of each part, in order. */
  function Decoded(parts: seq<Part>, decode: string -> string): (r: seq<string>)
    ensures |r| == |parts| && forall i :: 0 <= i < |parts| ==> r[i] == decode(parts[i].data.GetOr(""))
  {
    if parts == [] then [] else Decoded(parts[..|parts| - 1], decode) + [decode(parts[|parts| - 1].data.GetOr(""))]
  }

  lemma {:induction false} PlainPartsFold(p: Part, k: nat, decode: string -> string)
    requires p.parts.Present? && k <= |p.parts.items|
    requires forall i :: 0 <= i < |p.parts.items| ==> IsPlain(p.parts.items[i])
    ensures FoldParts(p, k, decode) == Flatten(Decoded(p.parts.items[..k], decode))
  {
    if k > 0 {
      PlainPartsFold(p, k - 1, decode);
      var ds := Decoded(p.parts.items[..k], decode);
      assert p.parts.items[..k][..k - 1] == p.parts.items[..k - 1];
      assert ds[..|ds| - 1] == Decoded(p.parts.items[..k - 1], decode);
    }
  }

  /** A payload without data whose parts are all plain text is their decoded texts joined, stripped. */
  lemma PlainPartsJoined(p: Part, decode: string -> string)
    requires !HasData(p) && p.parts.Present?
    requires forall i :: 0 <= i < |p.parts.items| ==> IsPlain(p.parts.items[i])
    ensures BodyText(p, decode) == Strip(Flatten(Decoded(p.parts.items, decode)))
  {
    PlainPartsFold(p, |p.parts.items|, decode);
    assert p.parts.items[..|p.parts.items|] == p.parts.items;
  }

  // ---------------------------------------------------------------------------------------
  // Messages and threads
  // ---------------------------------------------------------------------------------------

  /** A message resource of the Gmail API; every key may be missing. */
  datatype GmailMessage = GmailMessage(id: Option<string>, threadId: Option<string>,
                                       labelIds: Option<seq<string>>, snippet: Option<string>,
                                       internalDate: Option<string>, payload: Option<Part>)

  /** `message.get("payload", {}).get("headers", [])` */
  function PayloadHeaders(message: GmailMessage): seq<Header> {
    message.payload.GetOr(NoPayload).headers.GetOr([])
  }

  /** `extract_message_data`: the record of a message resource. */
  function ExtractMessageData(message: GmailMessage, decode: string -> string): Message {
    var headers := HeaderMap(PayloadHeaders(message)).values;
    Message(
      message.id.GetOr(""), message.threadId.GetOr(""), message.labelIds.GetOr([]),
      message.snippet.GetOr(""), message.internalDate.GetOr(""), headers,
      Get(headers, "Subject"), Get(headers, "From"), Get(headers, "To"), Get(headers, "Date"),
      BodyText(message.payload.GetOr(NoPayload), decode))
  }

  /**
   * The record carries every header name of the payload; subject, sender, recipients and
   * date are the values of the last `Subject`, `From`, `To` and `Date` headers, or "" when
   * there is none; the labels default to none, the snippet to "", and the body is the
   * payload's text.
   */
  lemma MessageData(message: GmailMessage, decode: string -> string)
    ensures var m := ExtractMessageData(message, decode);
      var hs := PayloadHeaders(message);
      && (forall name :: name in m.headers <==> name in Names(hs))
      && HeaderValue(hs, "Subject", m.subject) && HeaderValue(hs, "From", m.sender)
      && HeaderValue(hs, "To", m.recipients) && HeaderValue(hs, "Date", m.date)
      && m.labelIds == (if message.labelIds.None? then [] else message.labelIds.value)
      && m.snippet == (if message.snippet.None? then "" else message.snippet.value)
      && m.body == BodyText(if message.payload.None? then NoPayload else message.payload.value, decode)
  {
    var hs := PayloadHeaders(message);
    HeaderMapKeys(hs);
    HeaderLookup(hs, "Subject");
    HeaderLookup(hs, "From");
    HeaderLookup(hs, "To");
    HeaderLookup(hs, "Date");
  }

  /** A thread resource; only its `messages` list is read. */
  datatype GmailThread = GmailThread(messages: Option<seq<GmailMessage>>)

  /** `get_thread_messages`: one record per message of the thread, in the thread's order. */
  method GetThreadMessages(thread: GmailThread, decode: string -> string) returns (messages: seq<Message>)
    ensures messages == MapSeq(thread.messages.GetOr([]), m => ExtractMessageData(m, decode))
  {
    var ms := thread.messages.GetOr([]);
    var extract := m => ExtractMessageData(m, decode);
    messages := [];
    for i := 0 to |ms|
      invariant messages == MapSeq(ms[..i], extract)
    {
      assert ms[..i + 1][..i] == ms[..i];
      var messageData := extract(ms[i]);
      messages := messages + [messageData];
    }
    assert ms[..|ms|] == ms;
  }
}
