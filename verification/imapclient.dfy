/**
 * The parsing side of the IMAP mailbox client (src/gmail_summarizer/imap_gmail_client.py):
 * threads built one per message when the server has no Gmail extensions, Gmail's label
 * list turned into API label names, the header/body split of a fetched message, its
 * default fields, and the snippet taken from its body. The IMAP conversation itself,
 * MIME decoding and the two regular-expression searches over the fetch line are
 * parameters or left out.
 */
module ImapClient {
  import opened Common
  import opened OrderedMaps
  import opened PyStr
  import opened Records

  // ---- Threads without Gmail extensions ----

  /** The thread a message forms on its own: `f"thread_{msg_id}"`. */
  function ThreadKey(msgId: string): (k: string)
    ensures |k| == 7 + |msgId| && k[7..] == msgId
  {
    "thread_" + msgId
  }

  /** The fallback grouping after the first ids: each id appended under its own thread key. */
  function GroupedByThread(msgIds: seq<string>): OrderedMap<string, seq<string>> {
    if msgIds == [] then Empty()
    else
      var threads := GroupedByThread(msgIds[..|msgIds| - 1]);
      var msgId := msgIds[|msgIds| - 1];
      var key := ThreadKey(msgId);
      Put(threads, key, (if key in threads.values then threads.values[key] else []) + [msgId])
  }

  /** The ids in order that are equal to the given one. */
  function Occurrences(msgIds: seq<string>, msgId: string): (r: seq<string>)
    ensures forall i :: 0 <= i < |r| ==> r[i] == msgId
  {
    if msgIds == [] then []
    else Occurrences(msgIds[..|msgIds| - 1], msgId) + (if msgIds[|msgIds| - 1] == msgId then [msgId] else [])
  }

  /** The thread keys of the ids, in order. */
  function ThreadKeys(msgIds: seq<string>): (r: seq<string>)
    ensures |r| == |msgIds| && forall i :: 0 <= i < |msgIds| ==> r[i] == ThreadKey(msgIds[i])
  {
    seq(|msgIds|, i requires 0 <= i < |msgIds| => ThreadKey(msgIds[i]))
  }

  /** Different ids give different thread keys. */
  lemma ThreadKeyInjective(a: string, b: string)
    requires ThreadKey(a) == ThreadKey(b)
    ensures a == b
  {
    assert ThreadKey(a)[7..] == ThreadKey(b)[7..];
  }

  /** The grouping's keys are the thread keys in order of first appearance. */
  lemma {:induction false} GroupedKeys(msgIds: seq<string>)
    ensures var g := GroupedByThread(msgIds);
      && Valid(g)
      && g.keys == FirstOccurrences(ThreadKeys(msgIds))
  {
    if msgIds != [] {
      GroupedKeys(msgIds[..|msgIds| - 1]);
      var keys := ThreadKeys(msgIds);
      assert keys[..|keys| - 1] == ThreadKeys(msgIds[..|msgIds| - 1]);
    }
  }

  /** A thread key is present exactly when its id was given. */
  lemma {:induction false} GroupedMembers(msgIds: seq<string>, id: string)
    ensures ThreadKey(id) in GroupedByThread(msgIds).values <==> id in msgIds
  {
    if msgIds != [] {
      var init := msgIds[..|msgIds| - 1];
      var last := msgIds[|msgIds| - 1];
      GroupedMembers(init, id);
      assert id in msgIds <==> id in init || id == last;
      if ThreadKey(id) == ThreadKey(last) {
        ThreadKeyInjective(id, last);
      }
    }
  }

  /** The thread of an id holds every occurrence of that id. */
  lemma {:induction false} GroupedValues(msgIds: seq<string>, id: string)
    requires ThreadKey(id) in GroupedByThread(msgIds).values
    ensures GroupedByThread(msgIds).values[ThreadKey(id)] == Occurrences(msgIds, id)
  {
    var init := msgIds[..|msgIds| - 1];
    var last := msgIds[|msgIds| - 1];
    var g0 := GroupedByThread(init);
    if ThreadKey(id) == ThreadKey(last) {
      ThreadKeyInjective(id, last);
      if ThreadKey(id) in g0.values {
        GroupedValues(init, id);
      } else {
        GroupedMembers(init, id);
        OccurrencesAbsent(init, id);
      }
    } else {
      GroupedValues(init, id);
    }
  }

  /**
   * Without Gmail extensions, the threads are keyed by `thread_<id>` in order of first
   * appearance, one for each id given, and each holds the occurrences of its id; so distinct
   * ids give one thread per message, in id order.
   */
  lemma GroupedByThreadSpec(msgIds: seq<string>)
    ensures var g := GroupedByThread(msgIds);
      && Valid(g)
      && g.keys == FirstOccurrences(ThreadKeys(msgIds))
      && (forall id :: ThreadKey(id) in g.values <==> id in msgIds)
      && (forall id :: ThreadKey(id) in g.values ==> g.values[ThreadKey(id)] == Occurrences(msgIds, id))
  {
    GroupedKeys(msgIds);
    forall id
      ensures ThreadKey(id) in GroupedByThread(msgIds).values <==> id in msgIds
    {
      GroupedMembers(msgIds, id);
    }
    forall id | ThreadKey(id) in GroupedByThread(msgIds).values
      ensures GroupedByThread(msgIds).values[ThreadKey(id)] == Occurrences(msgIds, id)
    {
      GroupedValues(msgIds, id);
    }
  }

  /** With distinct ids, every message is a thread of its own. */
  lemma OneThreadPerMessage(msgIds: seq<string>)
    requires NoDuplicates(msgIds)
    ensures forall i :: 0 <= i < |msgIds| ==>
      ThreadKey(msgIds[i]) in GroupedByThread(msgIds).values && GroupedByThread(msgIds).values[ThreadKey(msgIds[i])] == [msgIds[i]]
  {
    GroupedByThreadSpec(msgIds);
    forall i | 0 <= i < |msgIds|
      ensures Occurrences(msgIds, msgIds[i]) == [msgIds[i]]
    {
      OccurrencesOfUnique(msgIds, i);
    }
  }

  lemma {:induction false} OccurrencesOfUnique(msgIds: seq<string>, i: nat)
    requires NoDuplicates(msgIds) && i < |msgIds|
    ensures Occurrences(msgIds, msgIds[i]) == [msgIds[i]]
  {
    var init := msgIds[..|msgIds| - 1];
    if i == |msgIds| - 1 {
      assert msgIds[i] !in init;
      OccurrencesAbsent(init, msgIds[i]);
    } else {
      assert init[i] == msgIds[i];
      OccurrencesOfUnique(init, i);
    }
  }

  lemma {:induction false} OccurrencesAbsent(msgIds: seq<string>, msgId: string)
    requires msgId !in msgIds
    ensures Occurrences(msgIds, msgId) == []
  {
    if msgIds != [] {
      OccurrencesAbsent(msgIds[..|msgIds| - 1], msgId);
    }
  }

  /** `_group_messages_by_thread` when the server has no Gmail extensions. */
  method GroupMessagesByThread(msgIds: seq<string>) returns (threads: OrderedMap<string, seq<string>>)
    ensures threads == GroupedByThread(msgIds)
  {
    threads := Empty();
    for i := 0 to |msgIds|
      invariant threads == GroupedByThread(msgIds[..i])
    {
      TakeSnoc(msgIds, i);
      var msgId := msgIds[i];
      var threadId := ThreadKey(msgId);
      var current := if threadId in threads.values then threads.values[threadId] else [];
      threads := Put(threads, threadId, current + [msgId]);
    }
    TakeAll(msgIds);
  }

  // ---- Gmail labels ----

  /** One match of the pattern `"([^"]*)"|\S+`: a quoted label, or a run of non-space characters. */
  datatype Token = Quoted(inner: string) | Bare(text: string)

  /** The end of the run of non-whitespace characters that starts at i. */
  function RunEnd(s: string, i: nat): (k: nat)
    requires i <= |s|
    ensures i <= k <= |s|
    ensures forall j :: i <= j < k ==> !IsSpace(s[j])
    ensures k == |s| || IsSpace(s[k])
    decreases |s| - i
  {
    if i == |s| || IsSpace(s[i]) then i else RunEnd(s, i + 1)
  }

  /** The position of the first '"' at or after i, or -1. */
  function QuoteFrom(s: string, i: nat): (k: int)
    requires i <= |s|
    ensures k == -1 ==> forall j :: i <= j < |s| ==> s[j] != '"'
    ensures k != -1 ==> i <= k < |s| && s[k] == '"' && forall j :: i <= j < k ==> s[j] != '"'
    decreases |s| - i
  {
    if i == |s| then -1 else if s[i] == '"' then i else QuoteFrom(s, i + 1)
  }

  /**
   * `re.findall(r'"([^"]*)"|\S+', s[i:])`, match by match: at a '"' with another '"' later
   * the quoted text; otherwise, at any non-space character, the longest run of them;
   * whitespace between matches is skipped.
   */
  function Tokens(s: string, i: nat): (ts: seq<Token>)
    requires i <= |s|
    ensures forall k :: 0 <= k < |ts| && ts[k].Quoted? ==> forall j :: 0 <= j < |ts[k].inner| ==> ts[k].inner[j] != '"'
    ensures forall k :: 0 <= k < |ts| && ts[k].Bare? ==>
      ts[k].text != [] && forall j :: 0 <= j < |ts[k].text| ==> !IsSpace(ts[k].text[j])
    decreases |s| - i
  {
    if i == |s| then []
    else if s[i] == '"' && QuoteFrom(s, i + 1) != -1 then
      var close := QuoteFrom(s, i + 1);
      [Quoted(s[i + 1..close])] + Tokens(s, close + 1)
    else if !IsSpace(s[i]) then
      var end := RunEnd(s, i);
      [Bare(s[i..end])] + Tokens(s, end)
    else Tokens(s, i + 1)
  }

  /**
   * What `re.findall` returns for a match of a pattern with one group: the group's text,
   * and "" when the group took no part in the match.
   */
  function Group1(t: Token): string {
    match t
    case Quoted(inner) => inner
    case Bare(_) => ""
  }

  /** The whole text of a match. */
  function MatchText(t: Token): string {
    match t
    case Quoted(inner) => "\"" + inner + "\""
    case Bare(text) => text
  }

  /** `re.findall(r'"([^"]*)"|\S+', s)` as the source calls it. */
  function FindAllAsWritten(s: string): (parts: seq<string>)
    ensures |parts| == |Tokens(s, 0)| && forall k :: 0 <= k < |parts| ==> parts[k] == Group1(Tokens(s, 0)[k])
  {
    var ts := Tokens(s, 0);
    seq(|ts|, k requires 0 <= k < |ts| => Group1(ts[k]))
  }

  /** The matched labels themselves, which the rest of the parser expects. */
  function FindAllIntended(s: string): (parts: seq<string>)
    ensures |parts| == |Tokens(s, 0)| && forall k :: 0 <= k < |parts| ==> parts[k] == MatchText(Tokens(s, 0)[k])
  {
    var ts := Tokens(s, 0);
    seq(|ts|, k requires 0 <= k < |ts| => MatchText(ts[k]))
  }

  /** The API names of Gmail's system labels. */
  function SystemLabel(labelText: string): Option<string> {
    if labelText == "\\Inbox" then Some("INBOX")
    else if labelText == "\\Sent" then Some("SENT")
    else if labelText == "\\Drafts" then Some("DRAFT")
    else if labelText == "\\Spam" then Some("SPAM")
    else if labelText == "\\Trash" then Some("TRASH")
    else if labelText == "\\Important" then Some("IMPORTANT")
    else if labelText == "\\Starred" then Some("STARRED")
    else None
  }

  /**
   * One label: surrounding quotes removed, then a label starting with a backslash turned into
   * its API name, or stripped of the backslash when it is not a system label.
   */
  function NormalizeLabel(labelText: string): string {
    var unquoted := if |labelText| >= 1 && labelText[0] == '"' && labelText[|labelText| - 1] == '"' then Slice(labelText, 1, -1) else labelText;
    if |unquoted| >= 1 && unquoted[0] == '\\' then
      match SystemLabel(unquoted)
      case Some(name) => name
      case None => unquoted[1..]
    else unquoted
  }

  /** The labels for the given matches: each normalised, or `["INBOX"]` when there are none. */
  function LabelsFrom(labelParts: seq<string>): (labels: seq<string>)
    ensures labelParts == [] ==> labels == ["INBOX"]
    ensures labelParts != [] ==> |labels| == |labelParts|
    ensures labelParts != [] ==> forall k :: 0 <= k < |labelParts| ==> labels[k] == NormalizeLabel(labelParts[k])
  {
    if labelParts == [] then ["INBOX"]
    else seq(|labelParts|, k requires 0 <= k < |labelParts| => NormalizeLabel(labelParts[k]))
  }

  /** The loop of `_parse_gmail_labels` over the matches. */
  method ParseLabelParts(labelParts: seq<string>) returns (labels: seq<string>)
    ensures labels == LabelsFrom(labelParts)
  {
    labels := [];
    for k := 0 to |labelParts|
      invariant |labels| == k && forall j :: 0 <= j < k ==> labels[j] == NormalizeLabel(labelParts[j])
    {
      var labelText := labelParts[k];
      labels := labels + [NormalizeLabel(labelText)];
    }
    if labels == [] {
      labels := ["INBOX"];
    }
  }

  /** `_parse_gmail_labels` as written: the matches are the group's text. */
  method ParseGmailLabelsAsWritten(labelsStr: string) returns (labels: seq<string>)
    ensures labels == LabelsFrom(FindAllAsWritten(labelsStr))
  {
    var labelParts := FindAllAsWritten(labelsStr);
    labels := ParseLabelParts(labelParts);
  }

  /** `_parse_gmail_labels` with the whole match of each label, as its quote handling expects. */
  method ParseGmailLabels(labelsStr: string) returns (labels: seq<string>)
    ensures labels == LabelsFrom(FindAllIntended(labelsStr))
  {
    var labelParts := FindAllIntended(labelsStr);
    labels := ParseLabelParts(labelParts);
  }

  /** The seven system labels become their API names. */
  lemma SystemLabelsNamed()
    ensures NormalizeLabel("\\Inbox") == "INBOX" && NormalizeLabel("\\Sent") == "SENT"
    ensures NormalizeLabel("\\Drafts") == "DRAFT" && NormalizeLabel("\\Spam") == "SPAM"
    ensures NormalizeLabel("\\Trash") == "TRASH" && NormalizeLabel("\\Important") == "IMPORTANT"
    ensures NormalizeLabel("\\Starred") == "STARRED"
  {
  }

  /**
   * Any other label that starts with a backslash loses it; a label that starts with neither
   * a backslash nor a quote is kept as it is.
   */
  lemma OtherLabels(labelText: string)
    ensures |labelText| >= 1 && labelText[0] == '\\' && SystemLabel(labelText).None? ==> NormalizeLabel(labelText) == labelText[1..]
    ensures (|labelText| == 0 || (labelText[0] != '\\' && labelText[0] != '"')) ==> NormalizeLabel(labelText) == labelText
  {
  }

  /** A quoted label and the same label bare come out the same. */
  lemma QuotedLikeBare(inner: string)
    requires forall j :: 0 <= j < |inner| ==> inner[j] != '"'
    ensures NormalizeLabel(MatchText(Quoted(inner))) == NormalizeLabel(inner)
  {
    var m := MatchText(Quoted(inner));
    assert Slice(m, 1, -1) == inner;
    if |inner| >= 1 {
      assert inner[0] != '"';
    }
  }

  /** As written, one label per match, and every unquoted label (system labels included) comes out empty. */
  lemma AsWrittenDropsBareLabels(labelsStr: string)
    ensures var ts := Tokens(labelsStr, 0);
      var labels := LabelsFrom(FindAllAsWritten(labelsStr));
      && |labels| == Max(1, |ts|)
      && forall k :: 0 <= k < |ts| && ts[k].Bare? ==> labels[k] == ""
  {
  }

  /**
   * With whole matches, one label per match: a quoted label is read as its text and
   * normalised like the same text unquoted.
   */
  lemma IntendedLabels(labelsStr: string)
    ensures var ts := Tokens(labelsStr, 0);
      var labels := LabelsFrom(FindAllIntended(labelsStr));
      && |labels| == Max(1, |ts|)
      && (forall k :: 0 <= k < |ts| && ts[k].Bare? ==> labels[k] == NormalizeLabel(ts[k].text))
      && (forall k :: 0 <= k < |ts| && ts[k].Quoted? ==> labels[k] == NormalizeLabel(ts[k].inner))
  {
    var ts := Tokens(labelsStr, 0);
    forall k | 0 <= k < |ts| && ts[k].Quoted?
      ensures NormalizeLabel(MatchText(ts[k])) == NormalizeLabel(ts[k].inner)
    {
      QuotedLikeBare(ts[k].inner);
    }
  }

  /** The input that shows the discrepancy: Gmail's inbox label, unquoted. */
  lemma InboxTokens()
    ensures Tokens("\\Inbox", 0) == [Bare("\\Inbox")]
  {
    var s := "\\Inbox";
    assert RunEnd(s, 6) == 6;
    assert RunEnd(s, 5) == 6;
    assert RunEnd(s, 4) == 6;
    assert RunEnd(s, 3) == 6;
    assert RunEnd(s, 2) == 6;
    assert RunEnd(s, 1) == 6;
    assert RunEnd(s, 0) == 6;
    assert Tokens(s, 6) == [];
    assert s[0..6] == s;
  }

  /** As written, Gmail's `\Inbox` yields an empty label name, ... */
  lemma AsWrittenInbox()
    ensures LabelsFrom(FindAllAsWritten("\\Inbox")) == [""]
  {
    InboxTokens();
  }

  /** ... where the whole match yields `INBOX`. */
  lemma IntendedInbox()
    ensures LabelsFrom(FindAllIntended("\\Inbox")) == ["INBOX"]
  {
    InboxTokens();
    SystemLabelsNamed();
  }

  // ---- Snippet ----

  /** `re.sub(r"\s+", " ", s)`: every run of whitespace replaced by one space. */
  function CollapseSpaces(s: string): (r: string)
    ensures |r| <= |s|
    ensures s != [] && !IsSpace(s[0]) ==> r != [] && r[0] == s[0]
    decreases |s|
  {
    if s == [] then []
    else if IsSpace(s[0]) then " " + CollapseSpaces(LStripBy(s[1..], IsSpace))
    else [s[0]] + CollapseSpaces(s[1..])
  }

  /** The only whitespace is single spaces. */
  predicate Collapsed(r: string) {
    forall i :: 0 <= i < |r| && IsSpace(r[i]) ==> r[i] == ' ' && (i + 1 == |r| || !IsSpace(r[i + 1]))
  }

  /** The characters that are not whitespace, in order. */
  function NonSpace(s: string): (r: string)
    ensures |r| <= |s|
  {
    if s == [] then [] else (if IsSpace(s[0]) then [] else [s[0]]) + NonSpace(s[1..])
  }

  lemma {:induction false} NonSpaceLStrip(s: string)
    ensures NonSpace(LStripBy(s, IsSpace)) == NonSpace(s)
  {
    if s != [] && IsSpace(s[0]) {
      NonSpaceLStrip(s[1..]);
    }
  }

  /** Collapsing leaves single spaces as the only whitespace. */
  lemma {:induction false} CollapsedSpaces(s: string)
    ensures Collapsed(CollapseSpaces(s))
    decreases |s|
  {
    if s != [] {
      var r := CollapseSpaces(s);
      if IsSpace(s[0]) {
        var rest := LStripBy(s[1..], IsSpace);
        LStripBySpec(s[1..], IsSpace);
        CollapsedSpaces(rest);
        var tail := CollapseSpaces(rest);
        assert r == " " + tail;
        forall i | 0 <= i < |r| && IsSpace(r[i])
          ensures r[i] == ' ' && (i + 1 == |r| || !IsSpace(r[i + 1]))
        {
          if i > 0 {
            assert r[i] == tail[i - 1];
          }
        }
      } else {
        CollapsedSpaces(s[1..]);
        var tail := CollapseSpaces(s[1..]);
        assert r == [s[0]] + tail;
        forall i | 0 <= i < |r| && IsSpace(r[i])
          ensures r[i] == ' ' && (i + 1 == |r| || !IsSpace(r[i + 1]))
        {
          assert r[i] == tail[i - 1];
        }
      }
    }
  }

  /** Collapsing keeps every character that is not whitespace, in order. */
  lemma {:induction false} CollapseKeepsText(s: string)
    ensures NonSpace(CollapseSpaces(s)) == NonSpace(s)
    decreases |s|
  {
    if s != [] {
      var r := CollapseSpaces(s);
      if IsSpace(s[0]) {
        var rest := LStripBy(s[1..], IsSpace);
        CollapseKeepsText(rest);
        NonSpaceLStrip(s[1..]);
        assert r == " " + CollapseSpaces(rest);
        assert r[1..] == CollapseSpaces(rest);
      } else {
        CollapseKeepsText(s[1..]);
        assert r == [s[0]] + CollapseSpaces(s[1..]);
        assert r[1..] == CollapseSpaces(s[1..]);
      }
    }
  }

  /** Collapsing a string that ends in a non-space character keeps that end. */
  lemma {:induction false} CollapseSpacesLast(s: string)
    requires s != [] && !IsSpace(s[|s| - 1])
    ensures CollapseSpaces(s) != [] && !IsSpace(CollapseSpaces(s)[|CollapseSpaces(s)| - 1])
    decreases |s|
  {
    var last := s[|s| - 1];
    var t := s[1..];
    if IsSpace(s[0]) {
      assert |s| > 1 && t[|t| - 1] == last;
      var rest := LStripBy(t, IsSpace);
      LStripBySpec(t, IsSpace);
      assert rest != [] && rest[|rest| - 1] == last;
      CollapseSpacesLast(rest);
      var tail := CollapseSpaces(rest);
      assert CollapseSpaces(s) == " " + tail;
    } else if |s| > 1 {
      assert t[|t| - 1] == last;
      CollapseSpacesLast(t);
      var tail := CollapseSpaces(t);
      assert CollapseSpaces(s) == [s[0]] + tail;
    }
  }

  /** `text.rsplit(" ", 1)[0]`: the text before its last space, or all of it. */
  function BeforeLastSpace(text: string): (r: string)
    ensures ' ' !in text ==> r == text
    ensures forall k :: LastAt(text, ' ', k) ==> r == text[..k]
  {
    var k := RFind(text, " ");
    RFindChar(text, ' ');
    if k >= 0 then text[..k] else text
  }

  /**
   * `_create_snippet(body, max_length)`: empty for an empty body; otherwise the body trimmed
   * with its whitespace runs collapsed, and when that is longer than `maxLength`, its first
   * `maxLength` characters cut back to the last space among them, followed by "...".
   */
  function CreateSnippet(body: string, maxLength: nat): (r: string)
    ensures body == [] ==> r == []
  {
    if body == [] then []
    else
      var snippet := CollapseSpaces(Strip(body));
      if |snippet| > maxLength then BeforeLastSpace(snippet[..maxLength]) + "..." else snippet
  }

  /**
   * The text a snippet is taken from has single spaces as its only whitespace, none at
   * either end, and every other character of the body in order.
   */
  lemma SnippetText(body: string)
    ensures var c := CollapseSpaces(Strip(body));
      && Collapsed(c) && NonSpace(c) == NonSpace(body)
      && (c == [] || (!IsSpace(c[0]) && !IsSpace(c[|c| - 1])))
  {
    var t := Strip(body);
    CollapsedSpaces(t);
    CollapseKeepsText(t);
    StripBySpec(body, IsSpace);
    NonSpaceStrip(body);
    if t != [] {
      CollapseSpacesLast(t);
    }
  }

  /**
   * A snippet is that whole text when it fits in `maxLength`; otherwise a prefix of it
   * ending at a space or at `maxLength` characters, followed by "...".
   */
  lemma CreateSnippetSpec(body: string, maxLength: nat)
    ensures var c := CollapseSpaces(Strip(body));
      var r := CreateSnippet(body, maxLength);
      && (body != [] && |c| <= maxLength ==> r == c)
      && (body != [] && |c| > maxLength ==>
            && 3 <= |r| <= maxLength + 3 && r[|r| - 3..] == "..." && r[..|r| - 3] == c[..|r| - 3]
            && (|r| - 3 == maxLength || c[|r| - 3] == ' '))
  {
    var c := CollapseSpaces(Strip(body));
    if body != [] && |c| > maxLength {
      var p := c[..maxLength];
      RFindChar(p, ' ');
      var kept := BeforeLastSpace(p);
      assert CreateSnippet(body, maxLength) == kept + "...";
      if ' ' in p {
        var k := RFind(p, " ");
        assert kept == p[..k] && c[k] == ' ';
      }
    }
  }

  lemma NonSpaceStrip(s: string)
    ensures NonSpace(Strip(s)) == NonSpace(s)
  {
    var l := LStripBy(s, IsSpace);
    NonSpaceLStrip(s);
    NonSpaceRStrip(l);
  }

  lemma {:induction false} NonSpaceRStrip(s: string)
    ensures NonSpace(RStripBy(s, IsSpace)) == NonSpace(s)
    decreases |s|
  {
    if s != [] && IsSpace(s[|s| - 1]) {
      NonSpaceRStrip(s[..|s| - 1]);
      NonSpaceSnoc(s[..|s| - 1], s[|s| - 1]);
      assert s[..|s| - 1] + [s[|s| - 1]] == s;
    }
  }

  lemma {:induction false} NonSpaceSnoc(s: string, c: char)
    ensures NonSpace(s + [c]) == NonSpace(s) + (if IsSpace(c) then [] else [c])
  {
    if s != [] {
      NonSpaceSnoc(s[1..], c);
      assert (s + [c])[1..] == s[1..] + [c];
    }
  }

  // ---- Fetched message ----

  /** The separator between a message's header and its body. */
  const HeaderEnd: seq<Byte> := [13, 10, 13, 10]

  /** The split of a raw response at the first blank line: header and body. */
  function SplitHeaderBody(raw: seq<Byte>): (r: (seq<Byte>, seq<Byte>))
    ensures Find(raw, HeaderEnd) == -1 ==> r == (raw, [])
    ensures Find(raw, HeaderEnd) != -1 ==>
      && r.0 + HeaderEnd + r.1 == raw
      && forall i :: 0 <= i < |r.0| ==> !OccursAt(raw, HeaderEnd, i)
  {
    var headerEnd := Find(raw, HeaderEnd);
    if headerEnd != -1 then
      assert raw[headerEnd..headerEnd + 4] == HeaderEnd;
      assert raw == raw[..headerEnd] + raw[headerEnd..headerEnd + 4] + raw[headerEnd + 4..];
      (raw[..headerEnd], raw[headerEnd + 4..])
    else (raw, [])
  }

  /**
   * What the email parser is given, the header and body joined again by a blank line, is
   * the raw response when it has a blank line, and the raw response with one appended when
   * it has none.
   */
  lemma ParserInput(raw: seq<Byte>)
    ensures var (header, body) := SplitHeaderBody(raw);
      header + HeaderEnd + body == (if Find(raw, HeaderEnd) != -1 then raw else raw + HeaderEnd)
  {
  }

  /** An item of an IMAP fetch response: a (line, payload) pair, a byte string, or anything else. */
  datatype FetchItem = Pair(line: string, payload: seq<Byte>) | Bytes(data: seq<Byte>) | OtherItem

  /** The response parts: the payload of each pair and each byte string, in order. */
  function ResponseParts(data: seq<FetchItem>): seq<seq<Byte>> {
    if data == [] then []
    else
      var item := data[|data| - 1];
      ResponseParts(data[..|data| - 1])
        + (match item
           case Pair(_, payload) => [payload]
           case Bytes(b) => [b]
           case OtherItem => [])
  }

  /** What the email library reads out of a message: the headers, decoded, and the body text. */
  datatype EmailFields = EmailFields(headers: map<string, string>, subject: string, sender: string,
                                     recipients: string, date: string, body: string)

  /** The record a message starts from: its id, its own thread, the inbox label and empty text. */
  function DefaultMessage(msgId: string): (m: Message)
    ensures m.id == msgId && m.threadId == ThreadKey(msgId) && m.labelIds == ["INBOX"]
    ensures m.snippet == "" && m.internalDate == "" && m.headers == map[]
    ensures m.subject == "" && m.sender == "" && m.recipients == "" && m.date == "" && m.body == ""
  {
    Message(msgId, ThreadKey(msgId), ["INBOX"], "", "", map[], "", "", "", "", "")
  }

  /**
   * `_parse_message_response`. The email library is the parameter `readEmail`; the two
   * searches of the first pair's line for `X-GM-LABELS (...)` and `X-GM-THRID <digits>` are
   * `labelsIn` and `threadIdIn`. The header and body are read from the response's parts
   * joined; the snippet comes from the body; labels and thread id keep their defaults
   * unless the first item is a pair whose line carries them.
   */
  method ParseMessageResponse(msgId: string, data: seq<FetchItem>, readEmail: seq<Byte> -> EmailFields,
                              labelsIn: string -> Option<string>, threadIdIn: string -> Option<string>)
    returns (m: Message)
    ensures var (header, body) := SplitHeaderBody(Flatten(ResponseParts(data)));
      var fields := readEmail(header + HeaderEnd + body);
      && m.headers == fields.headers && m.subject == fields.subject && m.sender == fields.sender
      && m.recipients == fields.recipients && m.date == fields.date && m.body == fields.body
    ensures m.id == msgId && m.internalDate == ""
    ensures m.snippet == CreateSnippet(m.body, 150)
    ensures (data == [] || !data[0].Pair? || labelsIn(data[0].line).None?) ==> m.labelIds == ["INBOX"]
    ensures data != [] && data[0].Pair? && labelsIn(data[0].line).Some? ==>
      m.labelIds == LabelsFrom(FindAllIntended(labelsIn(data[0].line).value))
    ensures (data == [] || !data[0].Pair? || threadIdIn(data[0].line).None?) ==> m.threadId == ThreadKey(msgId)
    ensures data != [] && data[0].Pair? && threadIdIn(data[0].line).Some? ==> m.threadId == threadIdIn(data[0].line).value
  {
    m := DefaultMessage(msgId);
    var responseParts := [];
    for i := 0 to |data|
      invariant responseParts == ResponseParts(data[..i])
    {
      TakeSnoc(data, i);
      match data[i]
      case Pair(_, payload) =>
        responseParts := responseParts + [payload];
      case Bytes(b) =>
        responseParts := responseParts + [b];
      case OtherItem =>
    }
    TakeAll(data);
    var rawResponse := Flatten(responseParts);
    var (headerData, bodyData) := SplitHeaderBody(rawResponse);
    var msg := readEmail(headerData + HeaderEnd + bodyData);
    m := m.(headers := msg.headers, subject := msg.subject, sender := msg.sender, recipients := msg.recipients,
            date := msg.date, body := msg.body);
    m := m.(snippet := CreateSnippet(m.body, 150));
    if data != [] && data[0].Pair? {
      var responseLine := data[0].line;
      var labelsMatch := labelsIn(responseLine);
      if labelsMatch.Some? {
        var labels := ParseGmailLabels(labelsMatch.value);
        m := m.(labelIds := labels);
      }
      var threadMatch := threadIdIn(responseLine);
      if threadMatch.Some? {
        m := m.(threadId := threadMatch.value);
      }
    }
  }

  /** A thread object as the client builds it; only its messages are read here. */
  datatype ImapThread = ImapThread(id: string, messages: Option<seq<Message>>)

  /** `get_thread_messages`: the thread's messages as they are, none when the key is missing. */
  function GetThreadMessages(thread: ImapThread): (r: seq<Message>)
    ensures thread.messages.None? ==> r == []
    ensures thread.messages.Some? ==> r == thread.messages.value
  {
    thread.messages.GetOr([])
  }
}
