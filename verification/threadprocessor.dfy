/**
 * The classifier of src/gmail_summarizer/thread_processor.py. A thread goes to the first
 * configured category (in `order` order) whose criteria it meets; the only criteria ever
 * consulted are the `labels`, matched as shell-style wildcards against the labels of the
 * thread's messages, and a category without labels takes every thread. Matched threads are
 * enriched with a subject, participants, newest timestamp and a Gmail link, and grouped by
 * category name in input order, each group optionally cut to its first N threads.
 *
 * `re.search` and the date parser of the standard library are parameters.
 */
module ThreadProcessor {
  import opened Common
  import opened OrderedMaps
  import opened PyStr
  import opened Glob
  import opened UrlQuote
  import opened Records
  import Config

  /**
   * `re.search(pattern, text, re.IGNORECASE)`: whether the pattern is found, or `None` when
   * the pattern does not compile.
   */
  type RegexSearch = (string, string) -> Option<bool>

  /**
   * `int(parsedate_to_datetime(date).timestamp() * 1000)`: the milliseconds of a `Date`
   * header, or `None` when parsing raises.
   */
  type DateParser = string -> Option<int>

  /** A processor: the sorted categories and the important-sender patterns of the configuration. */
  datatype Processor = Processor(
    categories: seq<Category>,
    importantSenders: seq<string>,
    search: RegexSearch,
    parseDate: DateParser)

  /** `ThreadProcessor(config)`: the categories are taken as `get_categories` sorts them. */
  function NewProcessor(configCategories: seq<Category>, importantSenders: seq<string>,
                        search: RegexSearch, parseDate: DateParser): (p: Processor)
    ensures multiset(p.categories) == multiset(configCategories)
    ensures forall i, j :: 0 <= i < j < |p.categories| ==>
      p.categories[i].order.GetOr(999) <= p.categories[j].order.GetOr(999)
  {
    Config.GetCategoriesSpec(configCategories, 0);
    Processor(Config.GetCategories(configCategories), importantSenders, search, parseDate)
  }

  // ---- Label normalisation ----

  /** The Gmail search shorthands and the labels they stand for. */
  const GmailSearchMap: map<string, string> := map[
    "is:important" := "IMPORTANT",
    "is:starred" := "STARRED",
    "is:unread" := "UNREAD",
    "is:read" := "READ",
    "is:sent" := "SENT",
    "is:draft" := "DRAFT",
    "is:inbox" := "INBOX",
    "is:spam" := "SPAM",
    "is:trash" := "TRASH",
    "is:chat" := "CHAT"]

  /** `_normalize_gmail_label`: a shorthand, in any case, becomes its label; anything else is kept. */
  function NormalizeGmailLabel(lbl: string): (r: string)
    ensures AsciiLower(lbl) in GmailSearchMap ==> r == GmailSearchMap[AsciiLower(lbl)]
    ensures AsciiLower(lbl) !in GmailSearchMap ==> r == lbl
  {
    var lower := AsciiLower(lbl);
    if lower in GmailSearchMap then GmailSearchMap[lower] else lbl
  }

  /** No label a shorthand stands for is itself a shorthand. */
  lemma SearchMapValuesAreNotKeys()
    ensures forall k :: k in GmailSearchMap ==> AsciiLower(GmailSearchMap[k]) !in GmailSearchMap
  {
    SearchMapKeys();
    SearchMapValues();
    forall k | k in GmailSearchMap
      ensures AsciiLower(GmailSearchMap[k]) !in GmailSearchMap
    {
      var v := GmailSearchMap[k];
      assert AsciiLower(v)[2] != ':';
    }
  }

  /** Every shorthand has a colon at index 2 (`is:`). */
  lemma SearchMapKeys()
    ensures forall k :: k in GmailSearchMap ==> |k| > 2 && k[2] == ':'
  {
  }

  /** Every label a shorthand stands for has an upper-case letter at index 2. */
  lemma SearchMapValues()
    ensures forall k :: k in GmailSearchMap ==> |GmailSearchMap[k]| > 2 && 'A' <= GmailSearchMap[k][2] <= 'Z'
  {
  }

  /** Normalising twice is normalising once. */
  lemma NormalizeIdempotent(lbl: string)
    ensures NormalizeGmailLabel(NormalizeGmailLabel(lbl)) == NormalizeGmailLabel(lbl)
  {
    SearchMapValuesAreNotKeys();
  }

  /** Shorthands are recognised whatever their case. */
  lemma NormalizeCaseInsensitive(a: string, b: string)
    requires AsciiLower(a) == AsciiLower(b)
    requires AsciiLower(a) in GmailSearchMap
    ensures NormalizeGmailLabel(a) == NormalizeGmailLabel(b)
  {
  }

  // ---- Matching ----

  /** Some label of the message matches the wildcard pattern. */
  predicate AnyLabelMatches(messageLabels: seq<string>, pattern: string) {
    exists j :: 0 <= j < |messageLabels| && FnMatch(messageLabels[j], pattern)
  }

  /** Some message label matches some required label after normalisation. */
  predicate LabelsMatch(messageLabels: seq<string>, required: seq<string>) {
    exists i :: 0 <= i < |required| && AnyLabelMatches(messageLabels, NormalizeGmailLabel(required[i]))
  }

  /** `_is_empty_criteria`: only the `labels` group is looked at. */
  predicate IsEmptyCriteria(c: Criteria) {
    c.labels.GetOr([]) == []
  }

  /** What `_message_matches_criteria` decides. */
  predicate MessageMatches(m: Message, c: Criteria) {
    match c.labels
    case Some(required) => required == [] || LabelsMatch(m.labelIds, required)
    case None => true
  }

  /** `_message_matches_criteria`: the nested loops over required and message labels. */
  method MessageMatchesCriteria(m: Message, c: Criteria) returns (b: bool)
    ensures b == MessageMatches(m, c)
  {
    if c.labels.Some? && c.labels.value != [] {
      var required := c.labels.value;
      var matchResult := false;
      for i := 0 to |required|
        invariant matchResult <==> exists i' :: 0 <= i' < i && AnyLabelMatches(m.labelIds, NormalizeGmailLabel(required[i']))
      {
        var pattern := NormalizeGmailLabel(required[i]);
        ghost var before := matchResult;
        for j := 0 to |m.labelIds|
          invariant matchResult <==> before || exists j' :: 0 <= j' < j && FnMatch(m.labelIds[j'], pattern)
        {
          if FnMatch(m.labelIds[j], pattern) {
            matchResult := true;
          }
        }
      }
      return matchResult;
    }
    return true;
  }

  /** What `_matches_category` decides. */
  predicate CategoryMatches(msgs: seq<Message>, cat: Category) {
    match cat.criteria
    case None => true
    case Some(c) =>
      c == NoCriteria() || IsEmptyCriteria(c) || exists k :: 0 <= k < |msgs| && MessageMatches(msgs[k], c)
  }

  /** `_matches_category`: the loop over the thread's messages. */
  method MatchesCategory(msgs: seq<Message>, cat: Category) returns (b: bool)
    ensures b == CategoryMatches(msgs, cat)
  {
    if cat.criteria.None? {
      return true;
    }
    var c := cat.criteria.value;
    if c == NoCriteria() || IsEmptyCriteria(c) {
      return true;
    }
    for k := 0 to |msgs|
      invariant forall k' :: 0 <= k' < k ==> !MessageMatches(msgs[k'], c)
    {
      var hit := MessageMatchesCriteria(msgs[k], c);
      if hit {
        return true;
      }
    }
    return false;
  }

  /** A category without criteria, or without labels, takes every thread, even one with no messages. */
  lemma CatchAll(msgs: seq<Message>, cat: Category)
    requires cat.criteria.None? || cat.criteria.value.labels.GetOr([]) == []
    ensures CategoryMatches(msgs, cat)
  {
  }

  /** With labels, a thread matches when some message has some label that matches some required label. */
  lemma LabelCategoryMatches(msgs: seq<Message>, cat: Category)
    requires cat.criteria.Some? && cat.criteria.value.labels.Some? && cat.criteria.value.labels.value != []
    ensures CategoryMatches(msgs, cat) <==>
      exists k :: 0 <= k < |msgs| && LabelsMatch(msgs[k].labelIds, cat.criteria.value.labels.value)
  {
  }

  /** The index of the first category the thread matches, or -1. */
  function FirstMatch(msgs: seq<Message>, cats: seq<Category>): (r: int)
    ensures -1 <= r < |cats|
    ensures r == -1 <==> forall i :: 0 <= i < |cats| ==> !CategoryMatches(msgs, cats[i])
    ensures r >= 0 ==> CategoryMatches(msgs, cats[r]) && forall i :: 0 <= i < r ==> !CategoryMatches(msgs, cats[i])
  {
    FirstMatchFrom(msgs, cats, 0)
  }

  function FirstMatchFrom(msgs: seq<Message>, cats: seq<Category>, from: nat): (r: int)
    requires from <= |cats|
    ensures r == -1 || from <= r < |cats|
    ensures r == -1 <==> forall i :: from <= i < |cats| ==> !CategoryMatches(msgs, cats[i])
    ensures r >= 0 ==> CategoryMatches(msgs, cats[r]) && forall i :: from <= i < r ==> !CategoryMatches(msgs, cats[i])
    decreases |cats| - from
  {
    if from == |cats| then -1
    else if CategoryMatches(msgs, cats[from]) then from
    else FirstMatchFrom(msgs, cats, from + 1)
  }

  /** cats[i] is the first category the thread matches. */
  predicate FirstMatchingAt(msgs: seq<Message>, cats: seq<Category>, i: int) {
    && 0 <= i < |cats|
    && CategoryMatches(msgs, cats[i])
    && forall i' :: 0 <= i' < i ==> !CategoryMatches(msgs, cats[i'])
  }

  /** The category `categorize_thread` returns. */
  function Categorize(msgs: seq<Message>, cats: seq<Category>): Option<Category> {
    var i := FirstMatch(msgs, cats);
    if i < 0 then None else Some(cats[i])
  }

  /** The category is the first, in list order, that the thread matches, and `None` exactly when it matches none. */
  lemma CategorizeSpec(msgs: seq<Message>, cats: seq<Category>)
    ensures var r := Categorize(msgs, cats);
      && (r.None? <==> forall i :: 0 <= i < |cats| ==> !CategoryMatches(msgs, cats[i]))
      && (r.Some? ==> exists i :: FirstMatchingAt(msgs, cats, i) && r.value == cats[i])
  {
    var i := FirstMatch(msgs, cats);
    if i >= 0 {
      assert FirstMatchingAt(msgs, cats, i);
    }
  }

  /** `categorize_thread`: the loop over the categories. */
  method CategorizeThread(msgs: seq<Message>, cats: seq<Category>) returns (r: Option<Category>)
    ensures r == Categorize(msgs, cats)
  {
    for i := 0 to |cats|
      invariant forall i' :: 0 <= i' < i ==> !CategoryMatches(msgs, cats[i'])
    {
      var b := MatchesCategory(msgs, cats[i]);
      if b {
        assert FirstMatch(msgs, cats) == i;
        return Some(cats[i]);
      }
    }
    return None;
  }

  /**
   * With the built-in categories, every thread lands in "Important Messages" or in "Jira
   * Updates": the Jira category has no labels, so it takes every thread the first one does not.
   */
  lemma DefaultCategoriesReachTwo(msgs: seq<Message>)
    ensures var cats := Config.GetCategories(Config.DefaultCategories());
      Categorize(msgs, cats) == Some(cats[0]) || Categorize(msgs, cats) == Some(cats[1])
  {
    Config.DefaultCategoriesSorted();
    var cats := Config.DefaultCategories();
    assert CategoryMatches(msgs, cats[1]);
  }

  // ---- Important senders ----

  /** Some pattern is found in the message's sender; patterns that do not compile are skipped. */
  predicate ImportantSender(m: Message, patterns: seq<string>, search: RegexSearch) {
    exists i :: 0 <= i < |patterns| && search(patterns[i], m.sender) == Some(true)
  }

  /** `is_important_sender` */
  method IsImportantSender(m: Message, patterns: seq<string>, search: RegexSearch) returns (b: bool)
    ensures b == ImportantSender(m, patterns, search)
  {
    for i := 0 to |patterns|
      invariant forall i' :: 0 <= i' < i ==> search(patterns[i'], m.sender) != Some(true)
    {
      var found := search(patterns[i], m.sender);
      if found.None? {
        continue;
      }
      if found.value {
        return true;
      }
    }
    return false;
  }

  predicate HasImportantSender(msgs: seq<Message>, patterns: seq<string>, search: RegexSearch) {
    exists k :: 0 <= k < |msgs| && ImportantSender(msgs[k], patterns, search)
  }

  /** `any(is_important_sender(m) for m in messages)` */
  method AnyImportantSender(msgs: seq<Message>, patterns: seq<string>, search: RegexSearch) returns (b: bool)
    ensures b == HasImportantSender(msgs, patterns, search)
  {
    for k := 0 to |msgs|
      invariant forall k' :: 0 <= k' < k ==> !ImportantSender(msgs[k'], patterns, search)
    {
      b := IsImportantSender(msgs[k], patterns, search);
      if b {
        return;
      }
    }
    return false;
  }

  // ---- Subject and participants ----

  /** `_extract_thread_subject` */
  function ThreadSubject(msgs: seq<Message>): (s: string)
    ensures msgs == [] ==> s == "No Subject"
    ensures msgs != [] ==> s == msgs[0].subject
  {
    if msgs == [] then "No Subject" else msgs[0].subject
  }

  function StripEach(parts: seq<string>): (r: seq<string>)
    ensures |r| == |parts| && forall i :: 0 <= i < |parts| ==> r[i] == Strip(parts[i])
  {
    MapSeq(parts, Strip)
  }

  function SenderPart(m: Message): seq<string> {
    if m.sender != "" then [m.sender] else []
  }

  function RecipientPart(m: Message): seq<string> {
    if m.recipients != "" then StripEach(Split(m.recipients, ',')) else []
  }

  /** What one message adds: its non-empty sender, then each comma-separated recipient, stripped. */
  function MessageParticipants(m: Message): seq<string> {
    SenderPart(m) + RecipientPart(m)
  }

  /** x is one of the pieces, stripped. */
  predicate AmongStripped(parts: seq<string>, x: string) {
    exists q :: 0 <= q < |parts| && x == Strip(parts[q])
  }

  /** x is the sender of m, or one of its comma-separated recipients, stripped. */
  predicate IsParticipant(m: Message, x: string) {
    || (m.sender != "" && x == m.sender)
    || (m.recipients != "" && AmongStripped(Split(m.recipients, ','), x))
  }

  /** x takes part in some message of the thread. */
  predicate InSomeMessage(msgs: seq<Message>, x: string) {
    exists k :: 0 <= k < |msgs| && IsParticipant(msgs[k], x)
  }

  /** Everything the messages add, in order, repeats included. */
  function Candidates(msgs: seq<Message>): seq<string> {
    if msgs == [] then [] else Candidates(msgs[..|msgs| - 1]) + MessageParticipants(msgs[|msgs| - 1])
  }

  /**
   * The participants of a thread, each once. Python returns `list(set(...))`, whose order is
   * arbitrary; the model fixes the order of first appearance.
   */
  function Participants(msgs: seq<Message>): seq<string> {
    FirstOccurrences(Candidates(msgs))
  }

  lemma MessageParticipantsSpec(m: Message, x: string)
    ensures x in MessageParticipants(m) <==> IsParticipant(m, x)
  {
    if m.recipients != "" {
      var parts := Split(m.recipients, ',');
      if x in StripEach(parts) {
        var q :| 0 <= q < |parts| && StripEach(parts)[q] == x;
      }
    }
  }

  lemma InSomeMessageSnoc(msgs: seq<Message>, x: string)
    requires msgs != []
    ensures InSomeMessage(msgs, x)
      <==> InSomeMessage(msgs[..|msgs| - 1], x) || IsParticipant(msgs[|msgs| - 1], x)
  {
    var init := msgs[..|msgs| - 1];
    if InSomeMessage(msgs, x) {
      var k :| 0 <= k < |msgs| && IsParticipant(msgs[k], x);
      if k < |init| {
        assert init[k] == msgs[k];
      }
    }
    if InSomeMessage(init, x) {
      var k :| 0 <= k < |init| && IsParticipant(init[k], x);
      assert msgs[k] == init[k];
    }
  }

  lemma {:induction false} CandidatesSpec(msgs: seq<Message>, x: string)
    ensures x in Candidates(msgs) <==> InSomeMessage(msgs, x)
  {
    if msgs != [] {
      CandidatesSpec(msgs[..|msgs| - 1], x);
      MessageParticipantsSpec(msgs[|msgs| - 1], x);
      InSomeMessageSnoc(msgs, x);
    }
  }

  /**
   * The participants are exactly the non-empty senders and the stripped comma-separated
   * recipients of the thread's messages, each listed once.
   */
  lemma ParticipantsSpec(msgs: seq<Message>, x: string)
    ensures NoDuplicates(Participants(msgs))
    ensures x in Participants(msgs) <==> InSomeMessage(msgs, x)
  {
    CandidatesSpec(msgs, x);
  }

  /** `participants.add(x)` on the list that stands for the set. */
  function AddNew(ps: seq<string>, x: string): seq<string> {
    if x in ps then ps else ps + [x]
  }

  lemma FirstOccurrencesSnoc(xs: seq<string>, x: string)
    ensures FirstOccurrences(xs + [x]) == AddNew(FirstOccurrences(xs), x)
  {
    assert (xs + [x])[..|xs|] == xs;
  }

  lemma CandidatesPrefix(msgs: seq<Message>, k: nat)
    requires k < |msgs|
    ensures Candidates(msgs[..k + 1]) == Candidates(msgs[..k]) + MessageParticipants(msgs[k])
  {
    assert msgs[..k + 1][..k] == msgs[..k];
  }

  lemma AppendOne(base: seq<string>, pieces: seq<string>, j: nat)
    requires j < |pieces|
    ensures base + pieces[..j + 1] == (base + pieces[..j]) + [pieces[j]]
  {
  }

  /** `_extract_participants`: the loop over messages and over the pieces of each `to`. */
  method ExtractParticipants(msgs: seq<Message>) returns (ps: seq<string>)
    ensures ps == Participants(msgs)
  {
    ps := [];
    for k := 0 to |msgs|
      invariant ps == FirstOccurrences(Candidates(msgs[..k]))
    {
      var m := msgs[k];
      ghost var seen := Candidates(msgs[..k]);
      ghost var senderPart := SenderPart(m);
      ghost var pieces := RecipientPart(m);
      CandidatesPrefix(msgs, k);
      ConcatAssoc(seen, senderPart, pieces);
      if m.sender != "" {
        FirstOccurrencesSnoc(seen, m.sender);
        ps := AddNew(ps, m.sender);
      } else {
        assert seen + senderPart == seen;
      }
      ghost var base := seen + senderPart;
      if m.recipients != "" {
        var parts := Split(m.recipients, ',');
        ps := AddRecipients(base, ps, parts);
      } else {
        assert base + pieces == base;
      }
    }
    assert msgs[..|msgs|] == msgs;
  }

  /** The inner loop of `_extract_participants`: each comma-separated piece, stripped, added to the set. */
  method AddRecipients(ghost base: seq<string>, ps: seq<string>, parts: seq<string>) returns (r: seq<string>)
    requires ps == FirstOccurrences(base)
    ensures r == FirstOccurrences(base + StripEach(parts))
  {
    ghost var pieces := StripEach(parts);
    r := ps;
    assert base + pieces[..0] == base;
    for j := 0 to |parts|
      invariant r == FirstOccurrences(base + pieces[..j])
    {
      var x := Strip(parts[j]);
      assert x == pieces[j];
      AppendOne(base, pieces, j);
      FirstOccurrencesSnoc(base + pieces[..j], x);
      r := AddNew(r, x);
    }
    TakeAll(pieces);
  }

  // ---- Newest timestamp ----

  /**
   * The timestamp one message contributes: its `internal_date` read as an integer; when that
   * is missing or not an integer, its `Date` header parsed, when there is one.
   */
  function MessageTimestamp(m: Message, parseDate: DateParser): Option<int> {
    var fromInternal := if m.internalDate != "" then ParseInt(m.internalDate) else None;
    if fromInternal.Some? then fromInternal
    else if m.date != "" then parseDate(m.date)
    else None
  }

  /** The newest of the timestamps, starting from 0. */
  function MostRecentDate(msgs: seq<Message>, parseDate: DateParser): (r: int)
    ensures r >= 0
  {
    if msgs == [] then 0
    else
      var prev := MostRecentDate(msgs[..|msgs| - 1], parseDate);
      match MessageTimestamp(msgs[|msgs| - 1], parseDate)
      case Some(t) => if t > prev then t else prev
      case None => prev
  }

  /** No message has a timestamp newer than the thread's. */
  lemma {:induction false} MostRecentIsUpperBound(msgs: seq<Message>, parseDate: DateParser, k: nat)
    requires k < |msgs| && MessageTimestamp(msgs[k], parseDate).Some?
    ensures MessageTimestamp(msgs[k], parseDate).value <= MostRecentDate(msgs, parseDate)
  {
    var init := msgs[..|msgs| - 1];
    MostRecentStep(msgs, parseDate);
    if k < |msgs| - 1 {
      assert init[k] == msgs[k];
      MostRecentIsUpperBound(init, parseDate, k);
    }
  }

  /** The newest timestamp never decreases as messages are added, and covers the added one. */
  lemma MostRecentStep(msgs: seq<Message>, parseDate: DateParser)
    requires msgs != []
    ensures var r := MostRecentDate(msgs, parseDate);
      var t := MessageTimestamp(msgs[|msgs| - 1], parseDate);
      && r >= MostRecentDate(msgs[..|msgs| - 1], parseDate)
      && (t.Some? ==> r >= t.value)
  {
  }

  /** The thread's timestamp is 0 (nothing positive was found) or one of its messages' timestamps. */
  lemma {:induction false} MostRecentIsAttained(msgs: seq<Message>, parseDate: DateParser)
    ensures var r := MostRecentDate(msgs, parseDate);
      r == 0 || exists k :: 0 <= k < |msgs| && MessageTimestamp(msgs[k], parseDate) == Some(r)
  {
    if msgs != [] {
      var init := msgs[..|msgs| - 1];
      MostRecentIsAttained(init, parseDate);
      var r := MostRecentDate(msgs, parseDate);
      if r != 0 && r == MostRecentDate(init, parseDate) {
        var k :| 0 <= k < |init| && MessageTimestamp(init[k], parseDate) == Some(r);
        assert msgs[k] == init[k];
      }
    }
  }

  lemma MostRecentPrefix(msgs: seq<Message>, parseDate: DateParser, k: nat)
    requires k < |msgs|
    ensures var prev := MostRecentDate(msgs[..k], parseDate);
      var t := MessageTimestamp(msgs[k], parseDate);
      MostRecentDate(msgs[..k + 1], parseDate) == if t.Some? && t.value > prev then t.value else prev
  {
    assert msgs[..k + 1][..k] == msgs[..k];
  }

  /** `_extract_most_recent_date` */
  method ExtractMostRecentDate(msgs: seq<Message>, parseDate: DateParser) returns (mostRecent: int)
    ensures mostRecent == MostRecentDate(msgs, parseDate)
  {
    mostRecent := 0;
    for k := 0 to |msgs|
      invariant mostRecent == MostRecentDate(msgs[..k], parseDate)
    {
      MostRecentPrefix(msgs, parseDate, k);
      var m := msgs[k];
      var timestamp: Option<int> := None;
      if m.internalDate != "" {
        timestamp := ParseInt(m.internalDate);
      }
      if timestamp.None? && m.date != "" {
        timestamp := parseDate(m.date);
      }
      if timestamp.Some? && timestamp.value > mostRecent {
        mostRecent := timestamp.value;
      }
    }
    assert msgs[..|msgs|] == msgs;
  }

  /** A message whose `internal_date` is the decimal text of n brings the newest timestamp to at least n. */
  lemma MostRecentAtLeastInternalDate(msgs: seq<Message>, parseDate: DateParser, k: nat, n: nat)
    requires k < |msgs| && msgs[k].internalDate == Decimal(n)
    ensures MostRecentDate(msgs, parseDate) >= n
  {
    ParseDecimal(n);
    assert MessageTimestamp(msgs[k], parseDate) == Some(n);
    MostRecentIsUpperBound(msgs, parseDate, k);
  }

  // ---- Gmail link ----

  const SearchUrl: string := "https://mail.google.com/mail/u/0/#search/"
  const InboxUrl: string := "https://mail.google.com/mail/u/0/#inbox"

  /** `headers.get(name)`, with a missing header read as the empty string (both are false). */
  function Header(headers: map<string, string>, name: string): string {
    if name in headers then headers[name] else ""
  }

  /** The first non-empty of the first message's `Message-ID`, `message-id` and `Message-Id` headers. */
  function MessageIdOf(msgs: seq<Message>): (id: string)
    ensures msgs == [] ==> id == ""
    ensures id != "" ==> id in msgs[0].headers.Values
  {
    if msgs == [] then ""
    else
      var h := msgs[0].headers;
      if Header(h, "Message-ID") != "" then Header(h, "Message-ID")
      else if Header(h, "message-id") != "" then Header(h, "message-id")
      else Header(h, "Message-Id")
  }

  const ReplyPrefixes: seq<string> := ["Re:", "RE:", "Fwd:", "FWD:"]

  /** Each prefix in turn is removed once, if the text then starts with it, and the rest stripped. */
  function StripPrefixes(s: string, prefixes: seq<string>): string
    decreases prefixes
  {
    if prefixes == [] then s
    else
      var p := prefixes[0];
      StripPrefixes(if StartsWith(s, p) then Strip(s[|p|..]) else s, prefixes[1..])
  }

  /** The link `_generate_gmail_url` builds. */
  function GmailUrl(subject: string, msgs: seq<Message>): string {
    var id := MessageIdOf(msgs);
    if id != "" then SearchUrl + "rfc822msgid%3A" + Quote(StripChars(id, "<>"), "")
    else if subject != "" && subject != "No Subject" then
      SearchUrl + "subject%3A(" + Quote(StripPrefixes(subject, ReplyPrefixes), "/") + ")"
    else InboxUrl
  }

  /** `_generate_gmail_url`, with its loop over the reply prefixes. */
  method GenerateGmailUrl(subject: string, msgs: seq<Message>) returns (url: string)
    ensures url == GmailUrl(subject, msgs)
  {
    var id := MessageIdOf(msgs);
    if id != "" {
      var clean := StripChars(id, "<>");
      return SearchUrl + "rfc822msgid%3A" + Quote(clean, "");
    }
    if subject != "" && subject != "No Subject" {
      var clean := subject;
      for i := 0 to |ReplyPrefixes|
        invariant StripPrefixes(clean, ReplyPrefixes[i..]) == StripPrefixes(subject, ReplyPrefixes)
      {
        assert ReplyPrefixes[i..][1..] == ReplyPrefixes[i + 1..];
        var prefix := ReplyPrefixes[i];
        if StartsWith(clean, prefix) {
          clean := Strip(clean[|prefix|..]);
        }
      }
      return SearchUrl + "subject%3A(" + Quote(clean, "/") + ")";
    }
    return InboxUrl;
  }

  /**
   * When the first message has a Message-ID, the link searches for it: the id with its angle
   * brackets stripped, percent-encoded with nothing kept (not even `/`), so that decoding the
   * end of the link gives the id back.
   */
  lemma GmailUrlByMessageId(subject: string, msgs: seq<Message>)
    requires MessageIdOf(msgs) != ""
    ensures var clean := StripChars(MessageIdOf(msgs), "<>");
      exists enc ::
        && GmailUrl(subject, msgs) == SearchUrl + "rfc822msgid%3A" + enc
        && Unquote(enc) == Utf8(clean)
        && '/' !in enc
  {
    var clean := StripChars(MessageIdOf(msgs), "<>");
    var enc := Quote(clean, "");
    UnquoteQuote(clean, "");
    QuoteAlphabet(Utf8(clean), "");
    assert forall i :: 0 <= i < |enc| ==> enc[i] != '/';
  }

  /**
   * Without a Message-ID, a real subject gives a subject search whose encoded part decodes to
   * the subject with its reply prefixes removed; otherwise the link is the inbox.
   */
  lemma GmailUrlBySubject(subject: string, msgs: seq<Message>)
    requires MessageIdOf(msgs) == ""
    ensures subject != "" && subject != "No Subject" ==>
      exists enc ::
        && GmailUrl(subject, msgs) == SearchUrl + "subject%3A(" + enc + ")"
        && Unquote(enc) == Utf8(StripPrefixes(subject, ReplyPrefixes))
    ensures subject == "" || subject == "No Subject" ==> GmailUrl(subject, msgs) == InboxUrl
  {
    if subject != "" && subject != "No Subject" {
      UnquoteQuote(StripPrefixes(subject, ReplyPrefixes), "/");
    }
  }

  // ---- Grouping ----

  /** The record built for a matched thread. */
  function Enrich(p: Processor, thread: Thread, msgs: seq<Message>, cat: Category): EnrichedThread {
    EnrichedThread(
      thread, msgs, cat,
      HasImportantSender(msgs, p.importantSenders, p.search),
      ThreadSubject(msgs),
      Participants(msgs),
      |msgs|,
      MostRecentDate(msgs, p.parseDate),
      GmailUrl(ThreadSubject(msgs), msgs))
  }

  /** The `thread_data` dict of `process_threads`. */
  method EnrichThread(p: Processor, thread: Thread, msgs: seq<Message>, cat: Category) returns (data: EnrichedThread)
    ensures data == Enrich(p, thread, msgs, cat)
  {
    var important := AnyImportantSender(msgs, p.importantSenders, p.search);
    var participants := ExtractParticipants(msgs);
    var newest := ExtractMostRecentDate(msgs, p.parseDate);
    var url := GenerateGmailUrl(ThreadSubject(msgs), msgs);
    data := EnrichedThread(thread, msgs, cat, important, ThreadSubject(msgs), participants, |msgs|, newest, url);
  }

  /** The threads, in input order, whose category is named `name`, enriched. */
  function Bucket(p: Processor, threads: seq<(Thread, seq<Message>)>, name: string): seq<EnrichedThread> {
    if threads == [] then []
    else
      var last := threads[|threads| - 1];
      Bucket(p, threads[..|threads| - 1], name) + Placed(p, last, name)
  }

  /** The one-element group a thread adds to the group `name`, when it is that group's. */
  function Placed(p: Processor, thread: (Thread, seq<Message>), name: string): seq<EnrichedThread> {
    var cat := Categorize(thread.1, p.categories);
    if cat.Some? && cat.value.name == name then [Enrich(p, thread.0, thread.1, cat.value)] else []
  }

  lemma PlacedSome(p: Processor, thread: (Thread, seq<Message>), cat: Category, data: EnrichedThread, name: string)
    requires Categorize(thread.1, p.categories) == Some(cat)
    requires data == Enrich(p, thread.0, thread.1, cat)
    ensures Placed(p, thread, name) == if name == cat.name then [data] else []
  {
  }

  /** One step of the grouping loop: the thread's category gets the thread, every other group stays. */
  lemma GroupsStep(p: Processor, threads: seq<(Thread, seq<Message>)>, t: nat,
                   values: map<string, seq<EnrichedThread>>, cat: Option<Category>)
    requires t < |threads|
    requires cat == Categorize(threads[t].1, p.categories)
    requires forall n :: n in values ==> values[n] == Bucket(p, threads[..t], n)
    requires forall i :: 0 <= i < |p.categories| ==> p.categories[i].name in values
    ensures cat.None? ==> forall n :: n in values ==> values[n] == Bucket(p, threads[..t + 1], n)
    ensures cat.Some? ==> cat.value.name in values
    ensures cat.Some? ==>
      var name := cat.value.name;
      var next := values[name := values[name] + [Enrich(p, threads[t].0, threads[t].1, cat.value)]];
      forall n :: n in next ==> next[n] == Bucket(p, threads[..t + 1], n)
  {
    if cat.Some? {
      var i := FirstMatch(threads[t].1, p.categories);
      assert cat.value == p.categories[i];
    }
    forall n | n in values
      ensures n in values ==> Bucket(p, threads[..t + 1], n) == Bucket(p, threads[..t], n) + Placed(p, threads[t], n)
    {
      BucketPrefix(p, threads, t, n);
    }
  }

  lemma BucketPrefix(p: Processor, threads: seq<(Thread, seq<Message>)>, t: nat, name: string)
    requires t < |threads|
    ensures Bucket(p, threads[..t + 1], name) == Bucket(p, threads[..t], name) + Placed(p, threads[t], name)
  {
    assert threads[..t + 1][..t] == threads[..t];
  }

  /** The first-N cut of `process_threads`, with Python's slice rules. */
  function Cap(bucket: seq<EnrichedThread>, maxThreads: Option<int>): seq<EnrichedThread> {
    if maxThreads.Some? && |bucket| > maxThreads.value then Prefix(bucket, maxThreads.value) else bucket
  }

  /** Without a cap the groups are kept whole; with a cap n ≥ 0 each group keeps its first min(len, n) threads. */
  lemma CapSpec(bucket: seq<EnrichedThread>, maxThreads: Option<int>)
    ensures maxThreads.None? ==> Cap(bucket, maxThreads) == bucket
    ensures maxThreads.Some? && maxThreads.value >= 0 ==>
      Cap(bucket, maxThreads) == bucket[..Min(|bucket|, maxThreads.value)]
  {
  }

  /** The first loop of `process_threads`: an empty group for each name, in order of first appearance. */
  method EmptyGroups(names: seq<string>) returns (groups: OrderedMap<string, seq<EnrichedThread>>)
    ensures Valid(groups)
    ensures groups.keys == FirstOccurrences(names)
    ensures forall n :: n in groups.values ==> groups.values[n] == []
  {
    groups := Empty();
    for i := 0 to |names|
      invariant Valid(groups)
      invariant groups.keys == FirstOccurrences(names[..i])
      invariant forall n :: n in groups.values ==> groups.values[n] == []
    {
      assert names[..i + 1][..i] == names[..i];
      groups := Put(groups, names[i], []);
    }
    TakeAll(names);
  }

  /**
   * `process_threads`: a group for every configured name, empty ones included, in category
   * order; each group holds its threads in input order, cut to the first `maxThreads`.
   */
  method ProcessThreads(p: Processor, threads: seq<(Thread, seq<Message>)>, maxThreads: Option<int>)
    returns (groups: OrderedMap<string, seq<EnrichedThread>>)
    ensures Valid(groups)
    ensures groups.keys == FirstOccurrences(CategoryNames(p.categories))
    ensures forall n :: n in groups.values ==> groups.values[n] == Cap(Bucket(p, threads, n), maxThreads)
  {
    groups := GroupThreads(p, threads);
    groups := CapGroups(groups, maxThreads);
  }

  /** The first two loops of `process_threads`: the groups before the cap. */
  method GroupThreads(p: Processor, threads: seq<(Thread, seq<Message>)>)
    returns (groups: OrderedMap<string, seq<EnrichedThread>>)
    ensures Valid(groups)
    ensures groups.keys == FirstOccurrences(CategoryNames(p.categories))
    ensures forall n :: n in groups.values ==> groups.values[n] == Bucket(p, threads, n)
  {
    var names := CategoryNames(p.categories);
    groups := EmptyGroups(names);

    for t := 0 to |threads|
      invariant Valid(groups)
      invariant groups.keys == FirstOccurrences(names)
      invariant forall n :: n in groups.values ==> groups.values[n] == Bucket(p, threads[..t], n)
    {
      groups := GroupThread(p, threads, t, names, groups);
    }
    TakeAll(threads);
  }

  /** One round of the grouping loop: the t-th thread joins the group of its category, if any. */
  method GroupThread(p: Processor, threads: seq<(Thread, seq<Message>)>, t: nat, ghost names: seq<string>,
                     groups: OrderedMap<string, seq<EnrichedThread>>)
    returns (groups': OrderedMap<string, seq<EnrichedThread>>)
    requires t < |threads| && names == CategoryNames(p.categories)
    requires Valid(groups) && groups.keys == FirstOccurrences(names)
    requires forall n :: n in groups.values ==> groups.values[n] == Bucket(p, threads[..t], n)
    ensures Valid(groups') && groups'.keys == groups.keys
    ensures forall n :: n in groups'.values ==> groups'.values[n] == Bucket(p, threads[..t + 1], n)
  {
    groups' := groups;
    var thread := threads[t].0;
    var msgs := threads[t].1;
    var category := CategorizeThread(msgs, p.categories);
    GroupsStep(p, threads, t, groups.values, category);
    if category.Some? {
      var data := EnrichThread(p, thread, msgs, category.value);
      var name := category.value.name;
      ghost var next := groups.values[name := groups.values[name] + [data]];
      assert forall n :: n in next ==> next[n] == Bucket(p, threads[..t + 1], n);
      groups' := Put(groups, name, groups.values[name] + [data]);
      assert groups'.values == next;
    }
  }

  /** The last loop of `process_threads`: every group longer than the cap keeps its first `maxThreads` threads. */
  method CapGroups(groups: OrderedMap<string, seq<EnrichedThread>>, maxThreads: Option<int>)
    returns (capped: OrderedMap<string, seq<EnrichedThread>>)
    requires Valid(groups)
    ensures Valid(capped) && capped.keys == groups.keys && capped.values.Keys == groups.values.Keys
    ensures forall n :: n in capped.values ==> capped.values[n] == Cap(groups.values[n], maxThreads)
  {
    capped := groups;
    var keys := groups.keys;
    if maxThreads.Some? {
      var max := maxThreads.value;
      for i := 0 to |keys|
        invariant Valid(capped) && capped.keys == keys && capped.values.Keys == groups.values.Keys
        invariant forall j :: 0 <= j < i ==> capped.values[keys[j]] == Cap(groups.values[keys[j]], maxThreads)
        invariant forall j :: i <= j < |keys| ==> capped.values[keys[j]] == groups.values[keys[j]]
      {
        var name := keys[i];
        ghost var before := capped.values;
        if |capped.values[name]| > max {
          capped := Put(capped, name, Prefix(capped.values[name], max));
        }
        assert capped.values[name] == Cap(groups.values[name], maxThreads);
        assert forall j :: 0 <= j < |keys| && j != i ==> capped.values[keys[j]] == before[keys[j]];
      }
      forall n | n in capped.values
        ensures capped.values[n] == Cap(groups.values[n], maxThreads)
      {
        var j :| 0 <= j < |keys| && keys[j] == n;
      }
    }
  }

  /** How many of the threads match some category. */
  function MatchedCount(p: Processor, threads: seq<(Thread, seq<Message>)>): nat {
    if threads == [] then 0
    else
      var matched := Categorize(threads[|threads| - 1].1, p.categories).Some?;
      MatchedCount(p, threads[..|threads| - 1]) + (if matched then 1 else 0)
  }

  /** The sizes of the uncapped groups of the given names, added up. */
  function TotalSize(p: Processor, threads: seq<(Thread, seq<Message>)>, names: seq<string>): nat {
    if names == [] then 0 else |Bucket(p, threads, names[0])| + TotalSize(p, threads, names[1..])
  }

  lemma {:induction false} TotalSizeStep(p: Processor, threads: seq<(Thread, seq<Message>)>, names: seq<string>)
    requires threads != [] && NoDuplicates(names)
    ensures var init := threads[..|threads| - 1];
      var cat := Categorize(threads[|threads| - 1].1, p.categories);
      TotalSize(p, threads, names)
        == TotalSize(p, init, names) + (if cat.Some? && cat.value.name in names then 1 else 0)
  {
    if names != [] {
      TotalSizeStep(p, threads, names[1..]);
    }
  }

  /**
   * Grouping is a partition: over all configured names, the groups hold exactly as many
   * threads as there are threads that match a category. With the input order kept inside
   * each group, every matched thread is in the group of its category and unmatched threads
   * are in none.
   */
  lemma {:induction false} BucketsPartition(p: Processor, threads: seq<(Thread, seq<Message>)>, names: seq<string>)
    requires NoDuplicates(names)
    requires forall i :: 0 <= i < |p.categories| ==> p.categories[i].name in names
    ensures TotalSize(p, threads, names) == MatchedCount(p, threads)
  {
    if threads == [] {
      TotalSizeEmpty(p, names);
    } else {
      var init := threads[..|threads| - 1];
      BucketsPartition(p, init, names);
      TotalSizeStep(p, threads, names);
      var cat := Categorize(threads[|threads| - 1].1, p.categories);
      if cat.Some? {
        var i := FirstMatch(threads[|threads| - 1].1, p.categories);
        assert cat.value == p.categories[i];
      }
    }
  }

  lemma {:induction false} TotalSizeEmpty(p: Processor, names: seq<string>)
    ensures TotalSize(p, [], names) == 0
  {
    if names != [] {
      TotalSizeEmpty(p, names[1..]);
    }
  }

  // ---- Per-category counts ----

  datatype CategoryStats = CategoryStats(totalThreads: nat, importantThreads: nat, totalMessages: nat)

  function CountImportant(threads: seq<EnrichedThread>): (n: nat)
    ensures n <= |threads|
  {
    if threads == [] then 0
    else CountImportant(threads[..|threads| - 1]) + (if threads[|threads| - 1].hasImportantSender then 1 else 0)
  }

  function SumMessages(threads: seq<EnrichedThread>): nat {
    if threads == [] then 0 else SumMessages(threads[..|threads| - 1]) + threads[|threads| - 1].messageCount
  }

  function StatsOf(threads: seq<EnrichedThread>): (s: CategoryStats)
    ensures s.totalThreads == |threads| && s.importantThreads <= s.totalThreads
  {
    CategoryStats(|threads|, CountImportant(threads), SumMessages(threads))
  }

  /** `get_category_summary`: the integer counts of each group, under the same names in the same order. */
  method GetCategorySummary(groups: OrderedMap<string, seq<EnrichedThread>>) returns (summary: OrderedMap<string, CategoryStats>)
    requires Valid(groups)
    ensures Valid(summary) && summary.keys == groups.keys
    ensures forall n :: n in summary.values ==> summary.values[n] == StatsOf(groups.values[n])
  {
    summary := Empty();
    for i := 0 to |groups.keys|
      invariant Valid(summary) && summary.keys == groups.keys[..i]
      invariant forall n :: n in summary.values ==> n in groups.values && summary.values[n] == StatsOf(groups.values[n])
    {
      var name := groups.keys[i];
      assert name !in groups.keys[..i];
      assert groups.keys[..i + 1] == groups.keys[..i] + [name];
      summary := Put(summary, name, StatsOf(groups.values[name]));
    }
    assert groups.keys[..|groups.keys|] == groups.keys;
  }

  /** The message total of a group of enriched threads is the number of messages they carry. */
  lemma {:induction false} SumMessagesCounts(threads: seq<EnrichedThread>)
    requires forall i :: 0 <= i < |threads| ==> threads[i].messageCount == |threads[i].messages|
    ensures SumMessages(threads) == TotalMessages(threads)
  {
    if threads != [] {
      SumMessagesCounts(threads[..|threads| - 1]);
    }
  }

  function TotalMessages(threads: seq<EnrichedThread>): nat {
    if threads == [] then 0 else TotalMessages(threads[..|threads| - 1]) + |threads[|threads| - 1].messages|
  }
}
