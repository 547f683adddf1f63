/**
 * The summariser of src/gmail_summarizer/llm_summarizer.py: the text sent for a thread, the
 * call to the command-line model, the record built from its answer or its error, the
 * sequential and the pooled dispatch over all categorised threads, and the statistics over
 * the outcome.
 *
 * The command-line program is a parameter: it receives the full prompt and completes with
 * its standard output, is not found, or raises with some message. The worker pool is a
 * sequential loop over an arbitrary ordering of the tasks.
 */
module Summarizer {
  import opened Common
  import opened OrderedMaps
  import opened PyStr
  import opened Records
  import opened Caching
  import Fingerprint

  // ---- Thread content ----

  /** A message body as sent: stripped, and cut to 1997 characters plus "..." when over 2000. */
  function ClipBody(body: string): string {
    var stripped := Strip(body);
    if |stripped| > 2000 then stripped[..1997] + "..." else stripped
  }

  /**
   * A body of at most 2000 characters after stripping is sent whole; a longer one is cut to
   * exactly 2000 characters, its first 1997 and an ellipsis.
   */
  lemma ClipBodySpec(body: string)
    ensures |ClipBody(body)| <= 2000
    ensures |Strip(body)| <= 2000 ==> ClipBody(body) == Strip(body)
    ensures |Strip(body)| > 2000 ==>
      |ClipBody(body)| == 2000 && ClipBody(body)[..1997] == Strip(body)[..1997] && ClipBody(body)[1997..] == "..."
  {
  }

  /** The six lines before the messages. */
  function HeaderLines(td: EnrichedThread): seq<string> {
    [ "Subject: " + td.subject,
      "Participants: " + Join(", ", td.participants),
      "Total Messages: " + Decimal(|td.messages|),
      "",
      "Thread Messages:",
      DoubleRule ]
  }

  /** The separator after each message, 30 dashes. */
  const Rule: string := "------------------------------"

  /** The separator before the first message, 50 equals signs. */
  const DoubleRule: string := "=================================================="

  /** The five lines of the i-th message (counting from 1). */
  function MessageLines(i: nat, m: Message): (lines: seq<string>)
    ensures |lines| == 5
  {
    [ "\nMessage " + Decimal(i) + ":",
      "From: " + m.sender,
      "Date: " + m.date,
      "Content: " + ClipBody(m.body),
      Rule ]
  }

  /** The five-line block of each message, numbered from 1. */
  function MessageBlocks(msgs: seq<Message>): (blocks: seq<seq<string>>)
    ensures |blocks| == |msgs| && forall k :: 0 <= k < |msgs| ==> |blocks[k]| == 5
  {
    seq(|msgs|, k requires 0 <= k < |msgs| => MessageLines(k + 1, msgs[k]))
  }

  /** The lines of all messages: their blocks one after another. */
  function MessagesLines(msgs: seq<Message>): seq<string> {
    Flatten(MessageBlocks(msgs))
  }

  function ContentLines(td: EnrichedThread): seq<string> {
    HeaderLines(td) + MessagesLines(td.messages)
  }

  /**
   * The layout of the content: the six header lines, then for the k-th message (from 0) its
   * five lines, numbered k + 1, at 6 + 5k.
   */
  lemma ContentLayout(td: EnrichedThread, k: nat)
    requires k < |td.messages|
    ensures |ContentLines(td)| == 6 + 5 * |td.messages|
    ensures ContentLines(td)[..6] == HeaderLines(td)
    ensures ContentLines(td)[6 + 5 * k..6 + 5 * k + 5] == MessageLines(k + 1, td.messages[k])
  {
    var head := HeaderLines(td);
    var blocks := MessageBlocks(td.messages);
    FlattenAt(blocks, k);
    var ms := Flatten(blocks);
    SliceLeft(head, ms, 0, 6);
    SliceShift(head, ms, 6 + 5 * k, 6 + 5 * k + 5);
  }

  /** `_prepare_thread_content`: the list of lines extended message by message, joined by line breaks. */
  method PrepareThreadContent(td: EnrichedThread) returns (content: string)
    ensures content == Join("\n", ContentLines(td))
  {
    var contentParts := AppendMessageLines(HeaderLines(td), td.messages);
    content := Join("\n", contentParts);
  }

  /** The loop of `_prepare_thread_content`: each message's five lines appended in turn. */
  method AppendMessageLines(head: seq<string>, msgs: seq<Message>) returns (contentParts: seq<string>)
    ensures contentParts == head + MessagesLines(msgs)
  {
    ghost var blocks := MessageBlocks(msgs);
    contentParts := head;
    for i := 0 to |msgs|
      invariant contentParts == head + Flatten(blocks[..i])
    {
      var block := MessageLines(i + 1, msgs[i]);
      assert block == blocks[i];
      FlattenSnoc(blocks, i);
      ConcatAssoc(head, Flatten(blocks[..i]), block);
      contentParts := contentParts + block;
    }
    TakeAll(blocks);
  }

  // ---- The model call ----

  /** What running the command-line program with a prompt on its input gave. */
  datatype RunOutcome =
    | Completed(stdout: string)
    | NotFound
    | Raised(message: string)   // the text of the error raised (timeout, non-zero exit, ...)

  /** The input the program receives. */
  function FullPrompt(prompt: string, content: string): (r: string)
    ensures |r| == |prompt| + 18 + |content|
    ensures r[..|prompt|] == prompt
    ensures r[|prompt|..|prompt| + 18] == "\n\nThread content:\n"
    ensures r[|prompt| + 18..] == content
  {
    prompt + "\n\nThread content:\n" + content
  }

  /**
   * `_call_claude_cli`: the stripped output when there is any; an empty output, a missing
   * program or a raised error is an error with its message.
   */
  function CallClaudeCli(cliPath: string, run: string -> RunOutcome, content: string, prompt: string): Result<string, string> {
    match run(FullPrompt(prompt, content))
    case Completed(stdout) =>
      var summary := Strip(stdout);
      if summary == "" then Err("Claude CLI returned empty response") else Ok(summary)
    case NotFound => Err("Claude CLI not found at '" + cliPath + "'. Please install Claude Code CLI.")
    case Raised(message) => Err(message)
  }

  /**
   * The program's answer is used exactly when it completed with some non-blank output, and
   * then stripped; a blank output and a missing program have their own messages.
   */
  lemma CallClaudeCliSpec(cliPath: string, run: string -> RunOutcome, content: string, prompt: string)
    ensures var outcome, r := run(FullPrompt(prompt, content)), CallClaudeCli(cliPath, run, content, prompt);
      && (r.Ok? <==> outcome.Completed? && Strip(outcome.stdout) != "")
      && (r.Ok? ==> r.value == Strip(outcome.stdout) && r.value != "")
      && (outcome.Completed? && r.Err? ==> r.error == "Claude CLI returned empty response")
      && (outcome.NotFound? ==> r == Err("Claude CLI not found at '" + cliPath + "'. Please install Claude Code CLI."))
      && (outcome.Raised? ==> r == Err(outcome.message))
  {
  }

  // ---- Token budget ----

  /** `_estimate_token_count`: about four characters per token, rounded down. */
  function EstimateTokenCount(text: string): (n: nat)
    ensures 4 * n <= |text| < 4 * n + 4
  {
    |text| / 4
  }

  /** The note put after a content that was cut. */
  const TruncationMarker: string := "\n\n[Content truncated due to length...]"

  /** The separator that opens each message of a thread's content. */
  const MessageBoundary: string := "\nMessage "

  /**
   * `_truncate_content_if_needed`. The slices follow Python's rules, so a budget under 25
   * tokens counts the limit from the end. `charLimit` is a multiple of 4, so halving it
   * rounds the same way as Python's `//`.
   */
  function TruncateContentIfNeeded(content: string, maxTokens: int): string {
    if EstimateTokenCount(content) <= maxTokens then content
    else
      var charLimit := maxTokens * 4;
      var truncated := Prefix(content, charLimit - 100);
      var boundary := RFind(truncated, MessageBoundary);
      (if boundary > charLimit / 2 then Prefix(truncated, boundary) else truncated) + TruncationMarker
  }

  /**
   * Where a content over budget is cut: at the character limit (4·maxTokens − 100, or the
   * content's end), or at the last message boundary before that limit when it lies past
   * half of 4·maxTokens.
   */
  predicate CutAt(content: string, maxTokens: int, k: int) {
    var limit := Min(4 * maxTokens - 100, |content|);
    && 0 <= k <= limit
    && (k == limit
        || (&& k > 2 * maxTokens
            && OccursAt(content[..limit], MessageBoundary, k)
            && forall i :: k < i <= limit ==> !OccursAt(content[..limit], MessageBoundary, i)))
  }

  /**
   * Content within budget is sent unchanged. With a budget of at least 25 tokens, content
   * over budget becomes a prefix cut as `CutAt` says, followed by the marker, and the result
   * is shorter than the content.
   */
  lemma TruncateContentSpec(content: string, maxTokens: int)
    ensures EstimateTokenCount(content) <= maxTokens ==> TruncateContentIfNeeded(content, maxTokens) == content
    ensures EstimateTokenCount(content) > maxTokens && maxTokens >= 25 ==>
      var r := TruncateContentIfNeeded(content, maxTokens);
      && |r| < |content|
      && exists k :: CutAt(content, maxTokens, k) && r == content[..k] + TruncationMarker
  {
    if EstimateTokenCount(content) > maxTokens && maxTokens >= 25 {
      var limit := Min(4 * maxTokens - 100, |content|);
      var truncated := Prefix(content, 4 * maxTokens - 100);
      assert truncated == content[..limit];
      var boundary := RFind(truncated, MessageBoundary);
      var k := if boundary > 2 * maxTokens then boundary else limit;
      assert Prefix(truncated, k) == content[..k];
      assert CutAt(content, maxTokens, k);
    }
  }

  /** The record of a thread whose summary failed with the given message. */
  function ErrorResult(td: EnrichedThread, message: string): (r: SummarizedThread)
    ensures r.data == td && !r.summaryGenerated && r.summaryError == Some(message)
  {
    SummarizedThread(td, "Error generating summary: " + message, false, Some(message))
  }

  /** `category.get("summary_prompt", default)` */
  function CategoryPrompt(category: Category): (p: string)
    ensures category.summaryPrompt.None? ==> p == DefaultSummaryPrompt
    ensures category.summaryPrompt.Some? ==> p == category.summaryPrompt.value
  {
    category.summaryPrompt.GetOr(DefaultSummaryPrompt)
  }

  /**
   * `summarize_thread`: the thread's record with the model's answer, or with the error text
   * both in `summary` (after "Error generating summary: ") and in `summary_error`.
   */
  function SummarizeThread(td: EnrichedThread, prompt: string, cliPath: string, run: string -> RunOutcome): SummarizedThread {
    var content := Join("\n", ContentLines(td));
    match CallClaudeCli(cliPath, run, content, prompt)
    case Ok(summary) => SummarizedThread(td, summary, true, None)
    case Err(message) => ErrorResult(td, message)
  }

  /**
   * The record always carries the thread; it is generated exactly when no error is recorded,
   * then with the program's non-empty answer to the prompt and the thread's content, and
   * otherwise its summary is the error text behind "Error generating summary: ".
   */
  lemma SummarizeThreadSpec(td: EnrichedThread, prompt: string, cliPath: string, run: string -> RunOutcome)
    ensures var r := SummarizeThread(td, prompt, cliPath, run);
      && r.data == td
      && (r.summaryGenerated <==> r.summaryError.None?)
      && (r.summaryGenerated <==> CallClaudeCli(cliPath, run, Join("\n", ContentLines(td)), prompt).Ok?)
      && (r.summaryGenerated ==> r.summary != "" && CallClaudeCli(cliPath, run, Join("\n", ContentLines(td)), prompt) == Ok(r.summary))
      && (!r.summaryGenerated ==> r.summary == "Error generating summary: " + r.summaryError.value)
  {
    CallClaudeCliSpec(cliPath, run, Join("\n", ContentLines(td)), prompt);
  }

  /** The first category with the given name, if any. */
  function FindCategory(categories: seq<Category>, name: string): (r: Option<Category>)
    ensures r.None? <==> forall i :: 0 <= i < |categories| ==> categories[i].name != name
    ensures r.Some? ==> exists i :: FirstNamedAt(categories, name, i) && categories[i] == r.value
  {
    if categories == [] then None
    else if categories[0].name == name then
      assert FirstNamedAt(categories, name, 0);
      Some(categories[0])
    else
      var r := FindCategory(categories[1..], name);
      if r.Some? then
        var i :| FirstNamedAt(categories[1..], name, i) && categories[1..][i] == r.value;
        assert FirstNamedAt(categories, name, i + 1);
        r
      else r
  }

  /** Position i holds the first category with the given name. */
  predicate FirstNamedAt(categories: seq<Category>, name: string, i: int) {
    0 <= i < |categories| && categories[i].name == name && forall j :: 0 <= j < i ==> categories[j].name != name
  }

  /**
   * The prompt a category name is summarised with: that of the first configured category of
   * that name, or the default when there is none or it has no prompt. Throughout this module
   * `categories` is the list `Config.GetCategories` returns, already sorted by `order`, which is
   * the list the summariser searches.
   */
  function PromptFor(categories: seq<Category>, name: string): (p: string)
    ensures (forall i :: 0 <= i < |categories| ==> categories[i].name != name) ==> p == DefaultSummaryPrompt
    ensures forall i :: FirstNamedAt(categories, name, i) ==> p == CategoryPrompt(categories[i])
  {
    match FindCategory(categories, name)
    case None => DefaultSummaryPrompt
    case Some(c) => CategoryPrompt(c)
  }

  // ---- Sequential dispatch ----

  /** Every thread of a group summarised with the same prompt, one for one. */
  function SummarizeAll(threads: seq<EnrichedThread>, prompt: string, cliPath: string, run: string -> RunOutcome): seq<SummarizedThread> {
    seq(|threads|, i requires 0 <= i < |threads| => SummarizeThread(threads[i], prompt, cliPath, run))
  }

  /** What `summarize_threads_batch` returns for the given groups. */
  function BatchResult(groups: OrderedMap<string, seq<EnrichedThread>>, categories: seq<Category>,
                       cliPath: string, run: string -> RunOutcome): OrderedMap<string, seq<SummarizedThread>>
  {
    OrderedMap(groups.keys,
      map n | n in groups.values :: SummarizeAll(groups.values[n], PromptFor(categories, n), cliPath, run))
  }

  /**
   * `summarize_threads_batch`: the same category names in the same order, and under each the
   * summarised threads one for one, each with its category's prompt.
   */
  method SummarizeThreadsBatch(groups: OrderedMap<string, seq<EnrichedThread>>, categories: seq<Category>,
                               cliPath: string, run: string -> RunOutcome)
    returns (summarized: OrderedMap<string, seq<SummarizedThread>>)
    requires Valid(groups)
    ensures Valid(summarized)
    ensures summarized == BatchResult(groups, categories, cliPath, run)
  {
    summarized := Empty();
    for a := 0 to |groups.keys|
      invariant BatchUpTo(groups, categories, cliPath, run, a, summarized)
    {
      var name := groups.keys[a];
      var prompt := PromptFor(categories, name);
      var done := SummarizeGroup(groups.values[name], prompt, cliPath, run);
      BatchStep(groups, categories, cliPath, run, a, summarized);
      summarized := Put(summarized, name, done);
    }
    BatchDone(groups, categories, cliPath, run, summarized);
  }

  /** The batch result after the first `a` categories. */
  ghost predicate BatchUpTo(groups: OrderedMap<string, seq<EnrichedThread>>, categories: seq<Category>,
                            cliPath: string, run: string -> RunOutcome, a: nat,
                            summarized: OrderedMap<string, seq<SummarizedThread>>)
    requires a <= |groups.keys|
  {
    && Valid(summarized) && summarized.keys == groups.keys[..a]
    && forall n :: n in summarized.values ==>
         n in groups.values && summarized.values[n] == SummarizeAll(groups.values[n], PromptFor(categories, n), cliPath, run)
  }

  /** Summarising the a-th category extends the batch result by that category. */
  lemma BatchStep(groups: OrderedMap<string, seq<EnrichedThread>>, categories: seq<Category>,
                  cliPath: string, run: string -> RunOutcome, a: nat,
                  summarized: OrderedMap<string, seq<SummarizedThread>>)
    requires Valid(groups) && a < |groups.keys|
    requires BatchUpTo(groups, categories, cliPath, run, a, summarized)
    ensures var name := groups.keys[a];
      var done := SummarizeAll(groups.values[name], PromptFor(categories, name), cliPath, run);
      BatchUpTo(groups, categories, cliPath, run, a + 1, Put(summarized, name, done))
  {
    assert groups.keys[a] !in groups.keys[..a];
    TakeSnoc(groups.keys, a);
  }

  /** After every category, the batch result is complete. */
  lemma BatchDone(groups: OrderedMap<string, seq<EnrichedThread>>, categories: seq<Category>,
                  cliPath: string, run: string -> RunOutcome,
                  summarized: OrderedMap<string, seq<SummarizedThread>>)
    requires Valid(groups)
    requires BatchUpTo(groups, categories, cliPath, run, |groups.keys|, summarized)
    ensures Valid(summarized) && summarized == BatchResult(groups, categories, cliPath, run)
  {
    TakeAll(groups.keys);
    assert summarized.values == BatchResult(groups, categories, cliPath, run).values;
  }

  /** The inner loop of `summarize_threads_batch`: one category's threads, in order. */
  method SummarizeGroup(threads: seq<EnrichedThread>, prompt: string, cliPath: string, run: string -> RunOutcome)
    returns (done: seq<SummarizedThread>)
    ensures done == SummarizeAll(threads, prompt, cliPath, run)
  {
    done := [];
    for i := 0 to |threads|
      invariant |done| == i
      invariant forall j :: 0 <= j < i ==> done[j] == SummarizeThread(threads[j], prompt, cliPath, run)
    {
      var summarizedThread := SummarizeThread(threads[i], prompt, cliPath, run);
      done := done + [summarizedThread];
    }
  }

  /** The batch keeps the categories and the number of threads under each. */
  lemma BatchKeepsShape(groups: OrderedMap<string, seq<EnrichedThread>>, categories: seq<Category>,
                        cliPath: string, run: string -> RunOutcome, name: string)
    requires name in groups.values
    ensures var r := BatchResult(groups, categories, cliPath, run);
      r.keys == groups.keys && name in r.values && |r.values[name]| == |groups.values[name]|
  {
  }

  // ---- Pooled dispatch ----

  /** The length of a group, 0 for a missing name. */
  function GroupSize(values: map<string, seq<EnrichedThread>>, name: string): nat {
    if name in values then |values[name]| else 0
  }

  /** The (category, index) slots of a category with n threads. */
  function SlotsOf(name: string, n: nat): (r: seq<(string, nat)>)
    ensures |r| == n && forall i :: 0 <= i < n ==> r[i] == (name, i)
  {
    if n == 0 then [] else SlotsOf(name, n - 1) + [(name, n - 1)]
  }

  /** All slots, category by category in key order and within one by thread index: the task list's order. */
  function Slots(keys: seq<string>, values: map<string, seq<EnrichedThread>>): seq<(string, nat)> {
    if keys == [] then []
    else Slots(keys[..|keys| - 1], values) + SlotsOf(keys[|keys| - 1], GroupSize(values, keys[|keys| - 1]))
  }

  /** Each slot names a listed category and an index inside its group. */
  lemma {:induction false} SlotsValid(keys: seq<string>, values: map<string, seq<EnrichedThread>>)
    ensures forall j :: 0 <= j < |Slots(keys, values)| ==>
      Slots(keys, values)[j].0 in keys && Slots(keys, values)[j].1 < GroupSize(values, Slots(keys, values)[j].0)
  {
    if keys != [] {
      var init := keys[..|keys| - 1];
      SlotsValid(init, values);
      forall j | 0 <= j < |Slots(init, values)|
        ensures Slots(init, values)[j].0 in keys
      {
        var n := Slots(init, values)[j].0;
        var q :| 0 <= q < |init| && init[q] == n;
        assert keys[q] == n;
      }
    }
  }

  /** Every index of every listed category has a slot. */
  lemma {:induction false} SlotsCover(keys: seq<string>, values: map<string, seq<EnrichedThread>>, name: string, i: nat)
    requires name in keys && i < GroupSize(values, name)
    ensures (name, i) in Slots(keys, values)
  {
    var init := keys[..|keys| - 1];
    var last := keys[|keys| - 1];
    if name == last {
      assert SlotsOf(last, GroupSize(values, last))[i] == (name, i);
    } else {
      var q :| 0 <= q < |keys| && keys[q] == name;
      assert init[q] == name;
      SlotsCover(init, values, name, i);
    }
  }

  /** With distinct names, no slot is listed twice. */
  lemma {:induction false} SlotsDistinct(keys: seq<string>, values: map<string, seq<EnrichedThread>>)
    requires NoDuplicates(keys)
    ensures NoDuplicates(Slots(keys, values))
  {
    if keys != [] {
      var init := keys[..|keys| - 1];
      var last := keys[|keys| - 1];
      SlotsDistinct(init, values);
      SlotsValid(init, values);
      var a := Slots(init, values);
      var b := SlotsOf(last, GroupSize(values, last));
      assert last !in init;
      forall x, y | 0 <= x < |a| && 0 <= y < |b|
        ensures a[x] != b[y]
      {
        assert a[x].0 in init;
      }
    }
  }

  /** What task building records for one thread. */
  datatype Task = Task(categoryName: string, threadIndex: nat, threadData: EnrichedThread, prompt: string,
                       cachedSummary: Option<SummaryEntry>)

  /**
   * The cache probe of task building: the stored summary entry when the cache holds this
   * thread for its messages and prompt, and nothing otherwise or without a cache.
   */
  function CachedFor(cache: CacheManager?, td: EnrichedThread, prompt: string): Option<SummaryEntry>
    reads cache
  {
    if cache != null && cache.IsThreadCachedWithPrompt(td.thread.id, td.messages, prompt)
    then cache.GetCachedSummary(td.thread.id)
    else None
  }

  /** The task for a slot. */
  function TaskAt(groups: OrderedMap<string, seq<EnrichedThread>>, categories: seq<Category>, cache: CacheManager?,
                  slot: (string, nat)): Task
    requires slot.0 in groups.values && slot.1 < |groups.values[slot.0]|
    reads cache
  {
    var td := groups.values[slot.0][slot.1];
    var prompt := PromptFor(categories, slot.0);
    Task(slot.0, slot.1, td, prompt, CachedFor(cache, td, prompt))
  }

  /** The tasks of one category, one per thread in order. */
  function CategoryTasks(name: string, threads: seq<EnrichedThread>, prompt: string, cache: CacheManager?): (ts: seq<Task>)
    reads cache
    ensures |ts| == |threads|
    ensures forall i :: 0 <= i < |threads| ==> ts[i] == Task(name, i, threads[i], prompt, CachedFor(cache, threads[i], prompt))
  {
    if threads == [] then []
    else
      var init := threads[..|threads| - 1];
      var last := |threads| - 1;
      assert forall i :: 0 <= i < last ==> init[i] == threads[i];
      CategoryTasks(name, init, prompt, cache) + [Task(name, last, threads[last], prompt, CachedFor(cache, threads[last], prompt))]
  }

  /** The task list built by `summarize_threads_parallel`, category by category in key order. */
  function TasksFor(keys: seq<string>, groups: OrderedMap<string, seq<EnrichedThread>>, categories: seq<Category>,
                    cache: CacheManager?): seq<Task>
    reads cache
  {
    if keys == [] then []
    else
      var name := keys[|keys| - 1];
      var threads := if name in groups.values then groups.values[name] else [];
      TasksFor(keys[..|keys| - 1], groups, categories, cache) + CategoryTasks(name, threads, PromptFor(categories, name), cache)
  }

  lemma TasksForSnoc(groups: OrderedMap<string, seq<EnrichedThread>>, categories: seq<Category>, cache: CacheManager?, a: nat)
    requires a < |groups.keys| && groups.keys[a] in groups.values
    ensures TasksFor(groups.keys[..a + 1], groups, categories, cache)
      == TasksFor(groups.keys[..a], groups, categories, cache)
        + CategoryTasks(groups.keys[a], groups.values[groups.keys[a]], PromptFor(categories, groups.keys[a]), cache)
  {
    var keys := groups.keys[..a + 1];
    assert keys[|keys| - 1] == groups.keys[a];
    assert keys[..|keys| - 1] == groups.keys[..a];
  }

  /** There is one task per slot. */
  lemma {:induction false} TasksForLength(keys: seq<string>, groups: OrderedMap<string, seq<EnrichedThread>>,
                                          categories: seq<Category>, cache: CacheManager?)
    ensures |TasksFor(keys, groups, categories, cache)| == |Slots(keys, groups.values)|
  {
    if keys != [] {
      TasksForLength(keys[..|keys| - 1], groups, categories, cache);
    }
  }

  /** The task at position j is the task of the slot at position j. */
  lemma {:induction false} TaskForSlot(keys: seq<string>, groups: OrderedMap<string, seq<EnrichedThread>>,
                                       categories: seq<Category>, cache: CacheManager?, j: nat)
    requires j < |Slots(keys, groups.values)|
    ensures var s := Slots(keys, groups.values)[j];
      && s.0 in groups.values && s.1 < |groups.values[s.0]|
      && j < |TasksFor(keys, groups, categories, cache)|
      && TasksFor(keys, groups, categories, cache)[j] == TaskAt(groups, categories, cache, s)
  {
    var init := keys[..|keys| - 1];
    var name := keys[|keys| - 1];
    TasksForLength(init, groups, categories, cache);
    var front := TasksFor(init, groups, categories, cache);
    var slotsFront := Slots(init, groups.values);
    var threads := if name in groups.values then groups.values[name] else [];
    var back := CategoryTasks(name, threads, PromptFor(categories, name), cache);
    var slotsBack := SlotsOf(name, GroupSize(groups.values, name));
    assert Slots(keys, groups.values) == slotsFront + slotsBack;
    assert TasksFor(keys, groups, categories, cache) == front + back;
    if j < |slotsFront| {
      TaskForSlot(init, groups, categories, cache, j);
      assert (slotsFront + slotsBack)[j] == slotsFront[j];
      assert (front + back)[j] == front[j];
    } else {
      var i := j - |slotsFront|;
      assert (slotsFront + slotsBack)[j] == (name, i);
      assert (front + back)[j] == back[i];
    }
  }

  /** The j-th task is the task of the j-th slot. */
  lemma TasksForAt(keys: seq<string>, groups: OrderedMap<string, seq<EnrichedThread>>,
                   categories: seq<Category>, cache: CacheManager?)
    ensures |TasksFor(keys, groups, categories, cache)| == |Slots(keys, groups.values)|
    ensures forall j :: 0 <= j < |Slots(keys, groups.values)| ==>
      var s := Slots(keys, groups.values)[j];
      s.0 in groups.values && s.1 < |groups.values[s.0]| && TasksFor(keys, groups, categories, cache)[j] == TaskAt(groups, categories, cache, s)
  {
    TasksForLength(keys, groups, categories, cache);
    forall j | 0 <= j < |Slots(keys, groups.values)|
      ensures var s := Slots(keys, groups.values)[j];
        s.0 in groups.values && s.1 < |groups.values[s.0]| && TasksFor(keys, groups, categories, cache)[j] == TaskAt(groups, categories, cache, s)
    {
      TaskForSlot(keys, groups, categories, cache, j);
    }
  }

  /** One thread summarised with a prompt: `summarize_thread` with the program fixed. */
  function ThreadSummarizer(cliPath: string, run: string -> RunOutcome): (EnrichedThread, string) -> SummarizedThread {
    (td, prompt) => SummarizeThread(td, prompt, cliPath, run)
  }

  /** A JSON object is truthy when it has at least one key, whichever of the four it is. */
  predicate IsTruthy(e: SummaryEntry): (b: bool)
    ensures b <==> e != SummaryEntry(None, None, None, None)
  {
    e.summaryData.Some? || e.contentHash.Some? || e.cachedAt.Some? || e.prompt.Some?
  }

  /** Whether the task summarises afresh, and so writes the cache. */
  predicate IsFresh(t: Task) {
    t.cachedSummary.None? || !IsTruthy(t.cachedSummary.value)
  }

  /** What one task produced: the record for its slot, and how it was obtained. */
  datatype Outcome = Outcome(result: SummarizedThread, fromCache: bool, failed: bool)

  /**
   * `summarize_single_task` and the error handler around it: a truthy cached entry gives its
   * `summary_data` (a missing key raises, and the handler records that error); otherwise the
   * thread is summarised afresh.
   */
  function TaskOutcome(t: Task, summarize: (EnrichedThread, string) -> SummarizedThread): (o: Outcome)
    ensures !(o.fromCache && o.failed)
    ensures o.fromCache <==> !IsFresh(t) && t.cachedSummary.value.summaryData.Some?
    ensures o.fromCache ==> o.result == t.cachedSummary.value.summaryData.value
    ensures IsFresh(t) ==> o == Outcome(summarize(t.threadData, t.prompt), false, false)
    ensures o.failed <==> !IsFresh(t) && t.cachedSummary.value.summaryData.None?
    ensures o.failed ==> o.result == ErrorResult(t.threadData, "'summary_data'")
  {
    if !IsFresh(t) then
      match t.cachedSummary.value.summaryData
      case Some(data) => Outcome(data, true, false)
      case None => Outcome(ErrorResult(t.threadData, "'summary_data'"), false, true)
    else Outcome(summarize(t.threadData, t.prompt), false, false)
  }

  /** A cached entry holding only `prompt` is truthy, so it is not summarised afresh: the missing `summary_data` key gives the error record. */
  lemma PromptOnlyEntryFails(t: Task, summarize: (EnrichedThread, string) -> SummarizedThread, p: string)
    requires t.cachedSummary == Some(SummaryEntry(None, None, None, Some(p)))
    ensures !IsFresh(t)
    ensures TaskOutcome(t, summarize) == Outcome(ErrorResult(t.threadData, "'summary_data'"), false, true)
  {
  }

  /** The text passed to the progress callback after the completed-th task. */
  function ProgressMessage(completed: nat, total: nat, o: Outcome): string {
    "Generating summaries (" + Decimal(completed) + "/" + Decimal(total) + ")"
      + (if o.failed then " - Error" else if o.fromCache then " (cached)" else "")
  }

  /** The inner loop of task building: one task per thread of a category, probing the cache. */
  method BuildCategoryTasks(name: string, threads: seq<EnrichedThread>, prompt: string, cache: CacheManager?)
    returns (ts: seq<Task>)
    ensures ts == CategoryTasks(name, threads, prompt, cache)
  {
    ts := [];
    for threadIndex := 0 to |threads|
      invariant |ts| == threadIndex
      invariant forall i :: 0 <= i < threadIndex ==> ts[i] == Task(name, i, threads[i], prompt, CachedFor(cache, threads[i], prompt))
    {
      var threadData := threads[threadIndex];
      var cachedSummary: Option<SummaryEntry> := None;
      if cache != null && cache.IsThreadCachedWithPrompt(threadData.thread.id, threadData.messages, prompt) {
        cachedSummary := cache.GetCachedSummary(threadData.thread.id);
      }
      ts := ts + [Task(name, threadIndex, threadData, prompt, cachedSummary)];
    }
  }

  /** The pre-allocated result after the first `a` categories: a list of `None`s per category. */
  ghost predicate AllocatedUpTo(groups: OrderedMap<string, seq<EnrichedThread>>, a: nat,
                                slots: OrderedMap<string, seq<Option<SummarizedThread>>>)
    requires a <= |groups.keys|
  {
    && Valid(slots) && slots.keys == groups.keys[..a]
    && forall n :: n in slots.values ==> n in groups.values && slots.values[n] == seq(|groups.values[n]|, _ => None)
  }

  /**
   * Task building of `summarize_threads_parallel`: a list of `None`s per category, and the
   * tasks of every category in key order.
   */
  method BuildTasks(groups: OrderedMap<string, seq<EnrichedThread>>, categories: seq<Category>, cache: CacheManager?)
    returns (slots: OrderedMap<string, seq<Option<SummarizedThread>>>, tasks: seq<Task>)
    requires Valid(groups)
    ensures Valid(slots) && slots.keys == groups.keys && slots.values.Keys == groups.values.Keys
    ensures forall n :: n in slots.values ==> slots.values[n] == seq(|groups.values[n]|, _ => None)
    ensures tasks == TasksFor(groups.keys, groups, categories, cache)
  {
    slots := Empty();
    tasks := [];
    for a := 0 to |groups.keys|
      invariant AllocatedUpTo(groups, a, slots)
      invariant tasks == TasksFor(groups.keys[..a], groups, categories, cache)
    {
      slots, tasks := AddCategory(groups, categories, cache, a, slots, tasks);
    }
    AllocatedAll(groups, slots);
  }

  /** Allocation over every category: one list of `None`s per input category, in key order. */
  lemma AllocatedAll(groups: OrderedMap<string, seq<EnrichedThread>>, slots: OrderedMap<string, seq<Option<SummarizedThread>>>)
    requires Valid(groups) && AllocatedUpTo(groups, |groups.keys|, slots)
    ensures groups.keys[..|groups.keys|] == groups.keys
    ensures Valid(slots) && slots.keys == groups.keys && slots.values.Keys == groups.values.Keys
    ensures forall n :: n in slots.values ==> slots.values[n] == seq(|groups.values[n]|, _ => None)
  {
    TakeAll(groups.keys);
  }

  /** One round of task building: the category's `None`s and its tasks. */
  method AddCategory(groups: OrderedMap<string, seq<EnrichedThread>>, categories: seq<Category>, cache: CacheManager?,
                     a: nat, slots: OrderedMap<string, seq<Option<SummarizedThread>>>, tasks: seq<Task>)
    returns (slots': OrderedMap<string, seq<Option<SummarizedThread>>>, tasks': seq<Task>)
    requires Valid(groups) && a < |groups.keys|
    requires AllocatedUpTo(groups, a, slots)
    requires tasks == TasksFor(groups.keys[..a], groups, categories, cache)
    ensures AllocatedUpTo(groups, a + 1, slots')
    ensures tasks' == TasksFor(groups.keys[..a + 1], groups, categories, cache)
  {
    var name := groups.keys[a];
    var threads := groups.values[name];
    AllocateStep(groups, a, slots);
    slots' := Put(slots, name, seq(|threads|, _ => None));
    var prompt := PromptFor(categories, name);
    var categoryTasks := BuildCategoryTasks(name, threads, prompt, cache);
    TasksForSnoc(groups, categories, cache, a);
    tasks' := tasks + categoryTasks;
  }

  /** Pre-allocating the a-th category's `None`s extends the allocation by that category. */
  lemma AllocateStep(groups: OrderedMap<string, seq<EnrichedThread>>, a: nat,
                     slots: OrderedMap<string, seq<Option<SummarizedThread>>>)
    requires Valid(groups) && a < |groups.keys|
    requires AllocatedUpTo(groups, a, slots)
    ensures var name := groups.keys[a];
      AllocatedUpTo(groups, a + 1, Put(slots, name, seq(|groups.values[name]|, _ => None)))
  {
    assert groups.keys[a] !in groups.keys[..a];
    TakeSnoc(groups.keys, a);
  }

  /**
   * No pre-allocated `None` survives: when every slot of the slot list holds a value, so does
   * every position of every category's list.
   */
  lemma {:induction false} EverySlotFilled<X>(keys: seq<string>, values: map<string, seq<EnrichedThread>>,
                                             result: map<string, seq<Option<X>>>)
    requires forall n :: n in values <==> n in keys
    requires result.Keys == values.Keys && forall n :: n in result ==> |result[n]| == |values[n]|
    requires forall j :: 0 <= j < |Slots(keys, values)| ==>
      && Slots(keys, values)[j].0 in result && Slots(keys, values)[j].1 < |result[Slots(keys, values)[j].0]|
      && result[Slots(keys, values)[j].0][Slots(keys, values)[j].1].Some?
    ensures forall n, i :: n in result && 0 <= i < |result[n]| ==> result[n][i].Some?
  {
    forall n, i | n in result && 0 <= i < |result[n]|
      ensures result[n][i].Some?
    {
      SlotsCover(keys, values, n, i);
      var j :| 0 <= j < |Slots(keys, values)| && Slots(keys, values)[j] == (n, i);
    }
  }

  /**
   * `summarize_threads_parallel`: every task is run once, in the order the pool completes
   * them (`order`, any ordering of the task list), and its outcome stored in its own
   * pre-allocated slot. The result has exactly the input's category names, each list as long
   * as its input list, and the slot of the j-th task holds that task's outcome, whatever the
   * order. The j-th task is the task of the j-th slot, (name, i), built from the i-th thread
   * of `name` (`TasksForAt`), and every slot is filled (`EverySlotFilled`). The cache gains
   * exactly the threads summarised afresh (with the prompt-aware extension); the progress
   * callback receives one report per completed task (`ProgressLogAt`). `summarize` is the
   * single-thread summariser, `ThreadSummarizer(cliPath, run)` in the program.
   */
  method SummarizeThreadsParallel(groups: OrderedMap<string, seq<EnrichedThread>>, categories: seq<Category>,
                                  cache: CacheManager?, order: seq<nat>, summarize: (EnrichedThread, string) -> SummarizedThread, now: int)
    returns (summarized: OrderedMap<string, seq<Option<SummarizedThread>>>, progress: seq<(nat, string)>)
    requires Valid(groups)
    requires IsOrdering(order, |Slots(groups.keys, groups.values)|)
    modifies cache
    ensures Valid(summarized) && summarized.keys == groups.keys && summarized.values.Keys == groups.values.Keys
    ensures forall n :: n in summarized.values ==> |summarized.values[n]| == |groups.values[n]|
    ensures var tasks, slotList := old(TasksFor(groups.keys, groups, categories, cache)), Slots(groups.keys, groups.values);
      && TaskSlots(tasks, slotList, summarized)
      && (forall j :: 0 <= j < |tasks| ==>
            summarized.values[slotList[j].0][slotList[j].1] == Some(TaskOutcome(tasks[j], summarize).result))
      && InRange(order, |tasks|)
      && progress == ProgressLog(tasks, order, summarize)
      && (cache != null ==>
            && cache.threads == ThreadsAfter(old(cache.threads), tasks, order, now)
            && cache.summaries == SummariesAfter(old(cache.summaries), tasks, order, summarize, now))
  {
    var tasks;
    summarized, tasks := BuildTasks(groups, categories, cache);
    BuiltTaskSlots(groups, categories, cache, summarized, tasks);
    summarized, progress := RunTasks(summarized, tasks, Slots(groups.keys, groups.values), order, cache, summarize, now);
  }

  /** The built task list lines up with the slot list, and every slot exists in the pre-allocated result. */
  lemma BuiltTaskSlots(groups: OrderedMap<string, seq<EnrichedThread>>, categories: seq<Category>, cache: CacheManager?,
                       slots: OrderedMap<string, seq<Option<SummarizedThread>>>, tasks: seq<Task>)
    requires Valid(groups)
    requires slots.values.Keys == groups.values.Keys
    requires forall n :: n in slots.values ==> |slots.values[n]| == |groups.values[n]|
    requires tasks == TasksFor(groups.keys, groups, categories, cache)
    ensures TaskSlots(tasks, Slots(groups.keys, groups.values), slots)
  {
    TasksForAt(groups.keys, groups, categories, cache);
    SlotsDistinct(groups.keys, groups.values);
  }

  // ---- The cache probe as written ----

  /** Python's message for a three-argument call of the two-parameter `is_thread_cached`. */
  const ProbeTypeError: string := "CacheManager.is_thread_cached() takes 3 positional arguments but 4 were given"

  /** Some category has a thread to summarise. */
  predicate HasThreads(groups: OrderedMap<string, seq<EnrichedThread>>) {
    exists n :: n in groups.values && groups.values[n] != []
  }

  /**
   * The task list `summarize_threads_parallel` builds as written. With a cache manager, the
   * probe of the first thread passes a prompt to `is_thread_cached`, whose signature has no
   * prompt parameter; the `TypeError` is raised outside any `try`, so the whole call fails
   * before a task runs. Without a cache manager the tasks are built as usual.
   */
  function BuildTasksAsWritten(groups: OrderedMap<string, seq<EnrichedThread>>, categories: seq<Category>,
                               cacheGiven: bool): (r: Result<seq<Task>, string>)
    requires Valid(groups)
    ensures r.Err? <==> cacheGiven && HasThreads(groups)
    ensures r.Err? ==> r.error == ProbeTypeError
    ensures r.Ok? ==> r.value == TasksFor(groups.keys, groups, categories, null)
  {
    var tasks := TasksFor(groups.keys, groups, categories, null);
    TasksExist(groups, categories);
    if cacheGiven && tasks != [] then Err(ProbeTypeError) else Ok(tasks)
  }

  /** There is a task exactly when some category has a thread. */
  lemma TasksExist(groups: OrderedMap<string, seq<EnrichedThread>>, categories: seq<Category>)
    requires Valid(groups)
    ensures TasksFor(groups.keys, groups, categories, null) != [] <==> HasThreads(groups)
  {
    TasksForLength(groups.keys, groups, categories, null);
    var slots := Slots(groups.keys, groups.values);
    if HasThreads(groups) {
      var n :| n in groups.values && groups.values[n] != [];
      SlotsCover(groups.keys, groups.values, n, 0);
    }
    if slots != [] {
      SlotsValid(groups.keys, groups.values);
      assert slots[0].1 < GroupSize(groups.values, slots[0].0);
      assert slots[0].0 in groups.values;
    }
  }

  /** Without a cache every task summarises afresh: the pooled result is the sequential one. */
  lemma WithoutCacheAsBatch(groups: OrderedMap<string, seq<EnrichedThread>>, categories: seq<Category>,
                            cliPath: string, run: string -> RunOutcome, n: string, i: nat)
    requires n in groups.values && i < |groups.values[n]|
    ensures TaskOutcome(TaskAt(groups, categories, null, (n, i)), ThreadSummarizer(cliPath, run)).result
      == BatchResult(groups, categories, cliPath, run).values[n][i]
  {
  }

  /** Every listed position names a task. */
  predicate InRange(done: seq<nat>, n: nat) {
    forall k :: 0 <= k < |done| ==> done[k] < n
  }

  /** The progress reports after the tasks in `done` completed, in that order. */
  function ProgressLog(tasks: seq<Task>, done: seq<nat>, summarize: (EnrichedThread, string) -> SummarizedThread): seq<(nat, string)>
    requires InRange(done, |tasks|)
  {
    if done == [] then []
    else
      var k := |done| - 1;
      ProgressLog(tasks, done[..k], summarize) + [(k + 1, ProgressMessage(k + 1, |tasks|, TaskOutcome(tasks[done[k]], summarize)))]
  }

  /** The k-th report counts k + 1 completed tasks out of all and says how the k-th completed one went. */
  lemma {:induction false} ProgressLogAt(tasks: seq<Task>, done: seq<nat>, summarize: (EnrichedThread, string) -> SummarizedThread)
    requires InRange(done, |tasks|)
    ensures |ProgressLog(tasks, done, summarize)| == |done|
    ensures forall k :: 0 <= k < |done| ==>
      ProgressLog(tasks, done, summarize)[k] == (k + 1, ProgressMessage(k + 1, |tasks|, TaskOutcome(tasks[done[k]], summarize)))
  {
    if done != [] {
      var init := done[..|done| - 1];
      ProgressLogAt(tasks, init, summarize);
      assert forall k :: 0 <= k < |init| ==> init[k] == done[k];
    }
  }

  /** The ids of the threads summarised afresh among the tasks in `done`. */
  function FreshIds(tasks: seq<Task>, done: seq<nat>): set<string>
    requires InRange(done, |tasks|)
  {
    if done == [] then {}
    else
      var t := tasks[done[|done| - 1]];
      FreshIds(tasks, done[..|done| - 1]) + (if IsFresh(t) then {t.threadData.thread.id} else {})
  }

  lemma FreshIdsSnoc(tasks: seq<Task>, order: seq<nat>, k: nat)
    requires InRange(order, |tasks|) && k < |order|
    ensures InRange(order[..k], |tasks|) && InRange(order[..k + 1], |tasks|)
    ensures var t := tasks[order[k]];
      FreshIds(tasks, order[..k + 1]) == FreshIds(tasks, order[..k]) + (if IsFresh(t) then {t.threadData.thread.id} else {})
  {
    assert order[..k + 1][..k] == order[..k];
  }

  /** The thread entry a fresh task writes: its prompt-aware fingerprint, its data and the time. */
  function FreshThreadEntry(t: Task, now: int): ThreadEntry {
    ThreadEntry(Some(Fingerprint.ThreadHashWithPrompt(t.threadData.messages, t.prompt)), Some(t.threadData), Some(now))
  }

  /** The summary entry a fresh task writes: its summary, the same fingerprint and the time. */
  function FreshSummaryEntry(t: Task, summarize: (EnrichedThread, string) -> SummarizedThread, now: int): SummaryEntry {
    SummaryEntry(Some(TaskOutcome(t, summarize).result), Some(Fingerprint.ThreadHashWithPrompt(t.threadData.messages, t.prompt)), Some(now), Some(t.prompt))
  }

  /** The threads map after the tasks in `done` completed, in that order: each fresh task overwrites its id. */
  function ThreadsAfter(threads: map<string, ThreadEntry>, tasks: seq<Task>, done: seq<nat>, now: int): map<string, ThreadEntry>
    requires InRange(done, |tasks|)
  {
    if done == [] then threads
    else
      var t := tasks[done[|done| - 1]];
      var previous := ThreadsAfter(threads, tasks, done[..|done| - 1], now);
      if IsFresh(t) then previous[t.threadData.thread.id := FreshThreadEntry(t, now)] else previous
  }

  /** The summaries map after the tasks in `done` completed, in that order. */
  function SummariesAfter(summaries: map<string, SummaryEntry>, tasks: seq<Task>, done: seq<nat>,
                          summarize: (EnrichedThread, string) -> SummarizedThread, now: int): map<string, SummaryEntry>
    requires InRange(done, |tasks|)
  {
    if done == [] then summaries
    else
      var t := tasks[done[|done| - 1]];
      var previous := SummariesAfter(summaries, tasks, done[..|done| - 1], summarize, now);
      if IsFresh(t) then previous[t.threadData.thread.id := FreshSummaryEntry(t, summarize, now)] else previous
  }

  /**
   * The pool's cache writes touch only the ids of fresh tasks: both maps gain exactly those ids,
   * and every other id keeps the entries it had, a cache hit included.
   */
  lemma {:induction false} CacheAfterFrame(threads: map<string, ThreadEntry>, summaries: map<string, SummaryEntry>,
                                           tasks: seq<Task>, done: seq<nat>,
                                           summarize: (EnrichedThread, string) -> SummarizedThread, now: int)
    requires InRange(done, |tasks|)
    ensures ThreadsAfter(threads, tasks, done, now).Keys == threads.Keys + FreshIds(tasks, done)
    ensures SummariesAfter(summaries, tasks, done, summarize, now).Keys == summaries.Keys + FreshIds(tasks, done)
    ensures forall id :: id in threads && id !in FreshIds(tasks, done) ==> ThreadsAfter(threads, tasks, done, now)[id] == threads[id]
    ensures forall id :: id in summaries && id !in FreshIds(tasks, done) ==>
      SummariesAfter(summaries, tasks, done, summarize, now)[id] == summaries[id]
  {
    if done != [] {
      CacheAfterFrame(threads, summaries, tasks, done[..|done| - 1], summarize, now);
    }
  }

  /**
   * Every id a fresh task wrote holds afterwards the entries of one completed fresh task with
   * that id, so it is cached for that task's messages and prompt.
   */
  lemma {:induction false} CacheAfterFresh(threads: map<string, ThreadEntry>, summaries: map<string, SummaryEntry>,
                                           tasks: seq<Task>, done: seq<nat>,
                                           summarize: (EnrichedThread, string) -> SummarizedThread, now: int, id: string)
    requires InRange(done, |tasks|) && id in FreshIds(tasks, done)
    ensures id in ThreadsAfter(threads, tasks, done, now) && id in SummariesAfter(summaries, tasks, done, summarize, now)
    ensures exists k ::
      && 0 <= k < |done| && IsFresh(tasks[done[k]]) && tasks[done[k]].threadData.thread.id == id
      && ThreadsAfter(threads, tasks, done, now)[id] == FreshThreadEntry(tasks[done[k]], now)
      && SummariesAfter(summaries, tasks, done, summarize, now)[id] == FreshSummaryEntry(tasks[done[k]], summarize, now)
  {
    CacheAfterFrame(threads, summaries, tasks, done, summarize, now);
    var last := |done| - 1;
    var t := tasks[done[last]];
    if IsFresh(t) && t.threadData.thread.id == id {
      assert 0 <= last < |done| && IsFresh(tasks[done[last]]) && tasks[done[last]].threadData.thread.id == id;
    } else {
      var init := done[..last];
      CacheAfterFresh(threads, summaries, tasks, init, summarize, now, id);
      var k :| 0 <= k < |init| && IsFresh(tasks[init[k]]) && tasks[init[k]].threadData.thread.id == id
        && ThreadsAfter(threads, tasks, init, now)[id] == FreshThreadEntry(tasks[init[k]], now)
        && SummariesAfter(summaries, tasks, init, summarize, now)[id] == FreshSummaryEntry(tasks[init[k]], summarize, now);
      assert init[k] == done[k];
    }
  }

  /** The fresh ids are exactly those of the fresh tasks among `done`. */
  lemma {:induction false} FreshIdsSpec(tasks: seq<Task>, done: seq<nat>, id: string)
    requires InRange(done, |tasks|)
    ensures id in FreshIds(tasks, done) <==>
      exists k :: 0 <= k < |done| && IsFresh(tasks[done[k]]) && tasks[done[k]].threadData.thread.id == id
  {
    if done != [] {
      var init := done[..|done| - 1];
      FreshIdsSpec(tasks, init, id);
      assert forall k :: 0 <= k < |init| ==> init[k] == done[k];
      if id in FreshIds(tasks, init) {
        var k :| 0 <= k < |init| && IsFresh(tasks[init[k]]) && tasks[init[k]].threadData.thread.id == id;
        assert done[k] == init[k];
      }
    }
  }

  /**
   * The task list against the pre-allocated result: task j fills the distinct slot
   * slotList[j], which exists.
   */
  predicate TaskSlots(tasks: seq<Task>, slotList: seq<(string, nat)>, slots: OrderedMap<string, seq<Option<SummarizedThread>>>) {
    && |tasks| == |slotList| && NoDuplicates(slotList)
    && (forall j :: 0 <= j < |tasks| ==> tasks[j].categoryName == slotList[j].0 && tasks[j].threadIndex == slotList[j].1)
    && (forall j :: 0 <= j < |tasks| ==> slotList[j].0 in slots.values && slotList[j].1 < |slots.values[slotList[j].0]|)
  }

  /** What slot j holds once the tasks in `done` have completed. */
  function Stored(slots: OrderedMap<string, seq<Option<SummarizedThread>>>, tasks: seq<Task>, slotList: seq<(string, nat)>,
                  done: seq<nat>, summarize: (EnrichedThread, string) -> SummarizedThread, j: nat): Option<SummarizedThread>
    requires TaskSlots(tasks, slotList, slots) && j < |tasks|
  {
    if j in done then Some(TaskOutcome(tasks[j], summarize).result) else slots.values[slotList[j].0][slotList[j].1]
  }

  /** The result dictionary once the tasks in `done` have completed: same shape, their slots filled. */
  predicate SlotsAfter(slots: OrderedMap<string, seq<Option<SummarizedThread>>>, tasks: seq<Task>, slotList: seq<(string, nat)>,
                       done: seq<nat>, summarize: (EnrichedThread, string) -> SummarizedThread,
                       filled: OrderedMap<string, seq<Option<SummarizedThread>>>)
    requires TaskSlots(tasks, slotList, slots)
  {
    && filled.keys == slots.keys && filled.values.Keys == slots.values.Keys
    && (forall n :: n in filled.values ==> |filled.values[n]| == |slots.values[n]|)
    && (forall j :: 0 <= j < |tasks| ==> filled.values[slotList[j].0][slotList[j].1] == Stored(slots, tasks, slotList, done, summarize, j))
  }

  /**
   * The completion loop of `summarize_threads_parallel`: for each task in completion order,
   * run it, store the result in its slot, count it and report progress. The threads the
   * cache gains are exactly those summarised afresh.
   */
  method RunTasks(slots: OrderedMap<string, seq<Option<SummarizedThread>>>, tasks: seq<Task>,
                  ghost slotList: seq<(string, nat)>, order: seq<nat>,
                  cache: CacheManager?, summarize: (EnrichedThread, string) -> SummarizedThread, now: int)
    returns (filled: OrderedMap<string, seq<Option<SummarizedThread>>>, progress: seq<(nat, string)>)
    requires Valid(slots) && TaskSlots(tasks, slotList, slots)
    requires IsOrdering(order, |tasks|)
    modifies cache
    ensures Valid(filled) && filled.keys == slots.keys && filled.values.Keys == slots.values.Keys
    ensures forall n :: n in filled.values ==> |filled.values[n]| == |slots.values[n]|
    ensures TaskSlots(tasks, slotList, filled)
    ensures forall j :: 0 <= j < |tasks| ==>
      filled.values[slotList[j].0][slotList[j].1] == Some(TaskOutcome(tasks[j], summarize).result)
    ensures InRange(order, |tasks|) && progress == ProgressLog(tasks, order, summarize)
    ensures cache != null ==>
      && cache.threads == ThreadsAfter(old(cache.threads), tasks, order, now)
      && cache.summaries == SummariesAfter(old(cache.summaries), tasks, order, summarize, now)
  {
    filled := slots;
    progress := [];
    ghost var baseThreads := if cache != null then cache.threads else map[];
    ghost var baseSummaries := if cache != null then cache.summaries else map[];
    for k := 0 to |order|
      invariant Valid(filled) && SlotsAfter(slots, tasks, slotList, order[..k], summarize, filled)
      invariant progress == ProgressLog(tasks, order[..k], summarize)
      invariant InRange(order[..k], |tasks|)
      invariant cache != null ==>
        && cache.threads == ThreadsAfter(baseThreads, tasks, order[..k], now)
        && cache.summaries == SummariesAfter(baseSummaries, tasks, order[..k], summarize, now)
    {
      filled, progress := CompleteTask(slots, tasks, slotList, order, k, cache, summarize, now, baseThreads, baseSummaries, filled, progress);
    }
    TakeAll(order);
    AllStored(slots, tasks, slotList, order, summarize, filled);
  }

  /** Once every task has completed, every task's slot holds its outcome. */
  lemma AllStored(slots: OrderedMap<string, seq<Option<SummarizedThread>>>, tasks: seq<Task>, slotList: seq<(string, nat)>,
                  order: seq<nat>, summarize: (EnrichedThread, string) -> SummarizedThread,
                  filled: OrderedMap<string, seq<Option<SummarizedThread>>>)
    requires TaskSlots(tasks, slotList, slots) && IsOrdering(order, |tasks|)
    requires SlotsAfter(slots, tasks, slotList, order, summarize, filled)
    ensures TaskSlots(tasks, slotList, filled)
    ensures forall j :: 0 <= j < |tasks| ==>
      filled.values[slotList[j].0][slotList[j].1] == Some(TaskOutcome(tasks[j], summarize).result)
  {
    forall j | 0 <= j < |tasks|
      ensures filled.values[slotList[j].0][slotList[j].1] == Some(TaskOutcome(tasks[j], summarize).result)
    {
      assert j in order;
    }
  }

  /**
   * One completed task: its outcome stored in its slot, the completion counted and reported,
   * and a fresh summary cached.
   */
  method CompleteTask(slots: OrderedMap<string, seq<Option<SummarizedThread>>>, tasks: seq<Task>,
                      ghost slotList: seq<(string, nat)>, order: seq<nat>, k: nat,
                      cache: CacheManager?, summarize: (EnrichedThread, string) -> SummarizedThread, now: int,
                      ghost baseThreads: map<string, ThreadEntry>, ghost baseSummaries: map<string, SummaryEntry>,
                      filled: OrderedMap<string, seq<Option<SummarizedThread>>>, progress: seq<(nat, string)>)
    returns (filled': OrderedMap<string, seq<Option<SummarizedThread>>>, progress': seq<(nat, string)>)
    requires TaskSlots(tasks, slotList, slots) && IsOrdering(order, |tasks|) && k < |order|
    requires Valid(filled) && SlotsAfter(slots, tasks, slotList, order[..k], summarize, filled)
    requires progress == ProgressLog(tasks, order[..k], summarize)
    requires InRange(order[..k], |tasks|)
    requires cache != null ==>
      && cache.threads == ThreadsAfter(baseThreads, tasks, order[..k], now)
      && cache.summaries == SummariesAfter(baseSummaries, tasks, order[..k], summarize, now)
    modifies cache
    ensures Valid(filled') && SlotsAfter(slots, tasks, slotList, order[..k + 1], summarize, filled')
    ensures progress' == ProgressLog(tasks, order[..k + 1], summarize)
    ensures InRange(order[..k + 1], |tasks|)
    ensures cache != null ==>
      && cache.threads == ThreadsAfter(baseThreads, tasks, order[..k + 1], now)
      && cache.summaries == SummariesAfter(baseSummaries, tasks, order[..k + 1], summarize, now)
  {
    TakeSnoc(order, k);
    FreshIdsSnoc(tasks, order, k);
    var task := tasks[order[k]];
    var outcome := SummarizeSingleTask(task, cache, summarize, now);
    filled' := Put(filled, task.categoryName, filled.values[task.categoryName][task.threadIndex := Some(outcome.result)]);
    StoreStep(slots, tasks, slotList, order, summarize, k, filled, filled');
    var completedTasks: nat := k + 1;
    var report: (nat, string) := (completedTasks, ProgressMessage(completedTasks, |tasks|, outcome));
    progress' := progress + [report];
  }

  /** Storing the outcome of task order[k] in its slot fills that slot and leaves every other one as it was. */
  lemma StoreStep(slots: OrderedMap<string, seq<Option<SummarizedThread>>>, tasks: seq<Task>, slotList: seq<(string, nat)>,
                  order: seq<nat>, summarize: (EnrichedThread, string) -> SummarizedThread, k: nat,
                  previous: OrderedMap<string, seq<Option<SummarizedThread>>>, next: OrderedMap<string, seq<Option<SummarizedThread>>>)
    requires TaskSlots(tasks, slotList, slots) && IsOrdering(order, |tasks|) && k < |order|
    requires SlotsAfter(slots, tasks, slotList, order[..k], summarize, previous)
    requires var t := tasks[order[k]];
      && next.keys == previous.keys
      && next.values == previous.values[t.categoryName := previous.values[t.categoryName][t.threadIndex := Some(TaskOutcome(t, summarize).result)]]
    ensures SlotsAfter(slots, tasks, slotList, order[..k + 1], summarize, next)
  {
    var m := order[k];
    assert order[..k + 1] == order[..k] + [m];
    assert m !in order[..k];
    forall j | 0 <= j < |tasks|
      ensures next.values[slotList[j].0][slotList[j].1] == Stored(slots, tasks, slotList, order[..k + 1], summarize, j)
    {
      if j != m {
        assert slotList[j] != slotList[m];
      }
    }
  }

  /**
   * `summarize_single_task` with the cache write: the task's outcome, and for a fresh summary
   * the thread and its summary stored under the task's prompt.
   */
  method SummarizeSingleTask(task: Task, cache: CacheManager?, summarize: (EnrichedThread, string) -> SummarizedThread, now: int)
    returns (outcome: Outcome)
    modifies cache
    ensures outcome == TaskOutcome(task, summarize)
    ensures cache != null && IsFresh(task) ==>
      cache.IsThreadCachedWithPrompt(task.threadData.thread.id, task.threadData.messages, task.prompt)
    ensures cache != null && !IsFresh(task) ==> cache.threads == old(cache.threads) && cache.summaries == old(cache.summaries)
    ensures cache != null && IsFresh(task) ==>
      && cache.threads == old(cache.threads)[task.threadData.thread.id := FreshThreadEntry(task, now)]
      && cache.summaries == old(cache.summaries)[task.threadData.thread.id := FreshSummaryEntry(task, summarize, now)]
  {
    outcome := TaskOutcome(task, summarize);
    if IsFresh(task) && cache != null {
      var td := task.threadData;
      cache.CacheThreadAndSummaryWithPrompt(td.thread.id, td.messages, td, outcome.result, task.prompt, now, now);
    }
  }

  // ---- Statistics ----

  /** All summarised threads, category by category in key order. */
  function AllThreads(keys: seq<string>, values: map<string, seq<SummarizedThread>>): seq<SummarizedThread> {
    if keys == [] then []
    else
      var last := keys[|keys| - 1];
      AllThreads(keys[..|keys| - 1], values) + (if last in values then values[last] else [])
  }

  function CountGenerated(ts: seq<SummarizedThread>): (n: nat)
    ensures n <= |ts|
  {
    if ts == [] then 0 else CountGenerated(ts[..|ts| - 1]) + (if ts[|ts| - 1].summaryGenerated then 1 else 0)
  }

  /** The `summary_error` of every failed thread, in order. */
  function FailedErrors(ts: seq<SummarizedThread>): (es: seq<Option<string>>)
    ensures |es| == |ts| - CountGenerated(ts)
  {
    if ts == [] then []
    else FailedErrors(ts[..|ts| - 1]) + (if ts[|ts| - 1].summaryGenerated then [] else [ts[|ts| - 1].summaryError])
  }

  function Count<T(==)>(s: seq<T>, x: T): nat {
    if s == [] then 0 else Count(s[..|s| - 1], x) + (if s[|s| - 1] == x then 1 else 0)
  }

  lemma {:induction false} CountAbsent<T>(s: seq<T>, x: T)
    requires x !in s
    ensures Count(s, x) == 0
  {
    if s != [] {
      CountAbsent(s[..|s| - 1], x);
    }
  }

  /** The sum of the values of a map over the given keys. */
  function SumOver<K>(keys: seq<K>, values: map<K, nat>): nat {
    if keys == [] then 0
    else SumOver(keys[..|keys| - 1], values) + (if keys[|keys| - 1] in values then values[keys[|keys| - 1]] else 0)
  }

  /** Changing the value of a key not listed leaves the sum alone. */
  lemma {:induction false} SumOverOther<K>(keys: seq<K>, values: map<K, nat>, k: K, v: nat)
    requires k !in keys
    ensures SumOver(keys, values[k := v]) == SumOver(keys, values)
  {
    if keys != [] {
      SumOverOther(keys[..|keys| - 1], values, k, v);
    }
  }

  /** Raising one listed key's count by one raises the sum over distinct keys by one. */
  lemma {:induction false} SumOverBump<K>(keys: seq<K>, values: map<K, nat>, k: K)
    requires NoDuplicates(keys) && k in keys && k in values
    ensures SumOver(keys, values[k := values[k] + 1]) == SumOver(keys, values) + 1
  {
    var init := keys[..|keys| - 1];
    var last := keys[|keys| - 1];
    if last == k {
      assert k !in init;
      SumOverOther(init, values, k, values[k] + 1);
    } else {
      assert k in init by {
        var q :| 0 <= q < |keys| && keys[q] == k;
        assert init[q] == k;
      }
      SumOverBump(init, values, k);
    }
  }

  /** Appending a new key with count one raises the sum by one. */
  lemma SumOverNew<K>(keys: seq<K>, values: map<K, nat>, k: K)
    requires k !in keys
    ensures SumOver(keys + [k], values[k := 1]) == SumOver(keys, values) + 1
  {
    assert (keys + [k])[..|keys|] == keys;
    SumOverOther(keys, values, k, 1);
  }

  /**
   * A table counting the items of a list: the distinct items in order of first appearance,
   * each mapped to how often it has been seen. This is the shape `error_types` is built in.
   */
  function Counter<K(==,!new)>(xs: seq<K>): OrderedMap<K, nat> {
    if xs == [] then Empty()
    else
      var d := Counter(xs[..|xs| - 1]);
      var x := xs[|xs| - 1];
      Put(d, x, (if x in d.values then d.values[x] else 0) + 1)
  }

  /** The table's keys are the distinct items in order of first appearance. */
  lemma {:induction false} CounterKeys<K(!new)>(xs: seq<K>)
    ensures Valid(Counter(xs)) && Counter(xs).keys == FirstOccurrences(xs)
  {
    if xs != [] {
      CounterKeys(xs[..|xs| - 1]);
    }
  }

  /** Each item is mapped to its number of occurrences. */
  lemma {:induction false} CounterValues<K(!new)>(xs: seq<K>, y: K)
    requires y in Counter(xs).values
    ensures Counter(xs).values[y] == Count(xs, y)
  {
    var init := xs[..|xs| - 1];
    var x := xs[|xs| - 1];
    var d := Counter(init);
    if y in d.values {
      CounterValues(init, y);
    } else if x == y {
      CounterKeys(init);
      assert y !in init;
      CountAbsent(init, y);
    }
  }

  /** The counts add up to the length of the list. */
  lemma {:induction false} CounterSum<K(!new)>(xs: seq<K>)
    ensures SumOver(Counter(xs).keys, Counter(xs).values) == |xs|
  {
    if xs != [] {
      var init := xs[..|xs| - 1];
      CounterSum(init);
      CounterKeys(init);
      CountOneMore(Counter(init), xs[|xs| - 1]);
    }
  }

  /** Counting one more item in a table without repeated keys raises the sum by one. */
  lemma CountOneMore<K(!new)>(d: OrderedMap<K, nat>, x: K)
    requires Valid(d)
    ensures var d' := Put(d, x, (if x in d.values then d.values[x] else 0) + 1);
      SumOver(d'.keys, d'.values) == SumOver(d.keys, d.values) + 1
  {
    if x in d.values {
      SumOverBump(d.keys, d.values, x);
    } else {
      SumOverNew(d.keys, d.values, x);
    }
  }

  /** The running totals of `get_summarization_stats`. */
  datatype Tally = Tally(total: nat, successful: nat, failed: nat, errorTypes: OrderedMap<Option<string>, nat>)

  /** One thread counted: a success, or a failure under its `summary_error`. */
  function Record(t: Tally, thread: SummarizedThread): Tally {
    if thread.summaryGenerated then Tally(t.total + 1, t.successful + 1, t.failed, t.errorTypes)
    else
      var error := thread.summaryError;
      var seen := if error in t.errorTypes.values then t.errorTypes.values[error] else 0;
      Tally(t.total + 1, t.successful, t.failed + 1, Put(t.errorTypes, error, seen + 1))
  }

  /** The totals after counting the threads in order. */
  function TallyOf(ts: seq<SummarizedThread>): Tally {
    if ts == [] then Tally(0, 0, 0, Empty()) else Record(TallyOf(ts[..|ts| - 1]), ts[|ts| - 1])
  }

  lemma TallyOfSnoc(ts: seq<SummarizedThread>, t: SummarizedThread)
    ensures TallyOf(ts + [t]) == Record(TallyOf(ts), t)
  {
    assert (ts + [t])[..|ts|] == ts;
  }

  /** The totals count every thread, the successes and the failures. */
  lemma {:induction false} TallyCounts(ts: seq<SummarizedThread>)
    ensures TallyOf(ts).total == |ts|
    ensures TallyOf(ts).successful == CountGenerated(ts)
    ensures TallyOf(ts).failed == |ts| - CountGenerated(ts)
  {
    if ts != [] {
      TallyCounts(ts[..|ts| - 1]);
    }
  }

  /** The error table counts the failures' errors. */
  lemma {:induction false} TallyErrors(ts: seq<SummarizedThread>)
    ensures TallyOf(ts).errorTypes == Counter(FailedErrors(ts))
  {
    if ts != [] {
      var init := ts[..|ts| - 1];
      var thread := ts[|ts| - 1];
      TallyErrors(init);
      var es := FailedErrors(ts);
      if thread.summaryGenerated {
        assert es == FailedErrors(init) + [];
        assert es == FailedErrors(init);
        assert TallyOf(ts).errorTypes == TallyOf(init).errorTypes;
      } else {
        assert es == FailedErrors(init) + [thread.summaryError];
        assert es[..|es| - 1] == FailedErrors(init);
      }
    }
  }

  /** What the totals mean. */
  ghost predicate TallyMeans(t: Tally, ts: seq<SummarizedThread>) {
    && t.total == |ts|
    && t.successful == CountGenerated(ts)
    && t.failed == |ts| - CountGenerated(ts)
    && Valid(t.errorTypes)
    && t.errorTypes.keys == FirstOccurrences(FailedErrors(ts))
    && (forall e :: e in t.errorTypes.values ==> t.errorTypes.values[e] == Count(FailedErrors(ts), e))
    && SumOver(t.errorTypes.keys, t.errorTypes.values) == t.failed
  }

  /**
   * Every thread is counted once, as a success exactly when its summary was generated; the
   * error kinds are the failures' `summary_error`s in order of first appearance, each with
   * the number of failures that carry it, and these numbers add up to the failures.
   */
  lemma TallySpec(ts: seq<SummarizedThread>)
    ensures TallyMeans(TallyOf(ts), ts)
  {
    var es := FailedErrors(ts);
    TallyCounts(ts);
    TallyErrors(ts);
    CounterKeys(es);
    CounterSum(es);
    forall e | e in Counter(es).values
      ensures Counter(es).values[e] == Count(es, e)
    {
      CounterValues(es, e);
    }
  }

  /** The numbers `get_summarization_stats` reports. */
  datatype Stats = Stats(totalThreads: nat, successfulSummaries: nat, failedSummaries: nat, successRate: real,
                         errorTypes: OrderedMap<Option<string>, nat>)

  /** The share of successes, and 0 when there is nothing to share. */
  function SuccessRate(successful: nat, total: nat): (r: real)
    requires successful <= total
    ensures total == 0 ==> r == 0.0
    ensures total > 0 ==> r * total as real == successful as real
    ensures 0.0 <= r <= 1.0
  {
    if total > 0 then successful as real / total as real else 0.0
  }

  lemma AllThreadsSnoc(keys: seq<string>, values: map<string, seq<SummarizedThread>>, a: nat)
    requires a < |keys|
    ensures AllThreads(keys[..a + 1], values)
         == AllThreads(keys[..a], values) + (if keys[a] in values then values[keys[a]] else [])
  {
    TakeSnoc(keys, a);
  }

  /**
   * `get_summarization_stats`: the totals over all threads in key order (`TallySpec` says
   * what they mean), and the success rate, 0 when there are no threads.
   */
  method GetSummarizationStats(summarized: OrderedMap<string, seq<SummarizedThread>>) returns (stats: Stats)
    ensures var t := TallyOf(AllThreads(summarized.keys, summarized.values));
      && stats.totalThreads == t.total && stats.successfulSummaries == t.successful
      && stats.failedSummaries == t.failed && stats.errorTypes == t.errorTypes
    ensures stats.successfulSummaries + stats.failedSummaries == stats.totalThreads
    ensures stats.successRate == SuccessRate(stats.successfulSummaries, stats.totalThreads)
  {
    var tally := Tally(0, 0, 0, Empty());
    for a := 0 to |summarized.keys|
      invariant tally == TallyOf(AllThreads(summarized.keys[..a], summarized.values))
    {
      var name := summarized.keys[a];
      AllThreadsSnoc(summarized.keys, summarized.values, a);
      var threads := if name in summarized.values then summarized.values[name] else [];
      tally := TallyThreads(tally, AllThreads(summarized.keys[..a], summarized.values), threads);
    }
    TakeAll(summarized.keys);
    TallyCounts(AllThreads(summarized.keys, summarized.values));
    var rate := SuccessRate(tally.successful, tally.total);
    stats := Stats(tally.total, tally.successful, tally.failed, rate, tally.errorTypes);
  }

  /** The inner loop of `get_summarization_stats`: one category's threads counted in order. */
  method TallyThreads(tally: Tally, ghost seen: seq<SummarizedThread>, threads: seq<SummarizedThread>) returns (tally': Tally)
    requires tally == TallyOf(seen)
    ensures tally' == TallyOf(seen + threads)
  {
    tally' := tally;
    assert seen + threads[..0] == seen;
    for i := 0 to |threads|
      invariant tally' == TallyOf(seen + threads[..i])
    {
      var thread := threads[i];
      TakeSnoc(threads, i);
      ConcatAssoc(seen, threads[..i], [thread]);
      TallyOfSnoc(seen + threads[..i], thread);
      tally' := Record(tally', thread);
    }
    TakeAll(threads);
  }
}
