# gmail-inbox-summary, modelled in Dafny

gmail-inbox-summary fetches recent mail threads over IMAP or the Gmail API. It sorts each
thread into the first configured category that matches it and asks a command-line language
model for a summary of each thread. Summaries of unchanged threads are reused from a cache
keyed by a content fingerprint, and the result becomes an HTML report. This project models
the logic at the centre of that pipeline and proves what it promises:

- **Thread processor** (`ThreadProcessor`, with `Glob` for `fnmatch` and `UrlQuote` for
  percent-encoding): the label classifier, grouping and capping, and the derived fields of
  each thread (subject, participants, newest timestamp, Gmail link).
- **Cache** (`Caching`, `Fingerprint`, `JsonText`): the cache manager as a class with two
  maps that its methods update in place, and the fingerprint text. The fingerprint is each
  message's sorted-key JSON object, one per line. Its JSON escaping follows section 7 of
  RFC 8259, and a reader for it shows that the text determines the hashed fields.
- **Summariser** (`Summarizer`): the text sent for a thread, the call to the command-line
  model, the sequential and the pooled dispatch, and the statistics. The pool is a
  sequential loop over an arbitrary ordering of the tasks. Each slot's result does not
  depend on the completion order; the progress reports and the cache writes are stated for
  the given order.
- **Configuration** (`ConfigModels`, `Config`, `StableSort`): the validators of the
  configuration records, the default category, the getters with their defaults, and the
  stable sort by `order`.
- **Report helpers** (`HtmlGen`): the text filters, the report's category order and thread
  order, and the counts.
- **Mail clients** (`ImapClient`, `GmailClient`): label parsing, snippets, the header/body
  split, fallback thread grouping, the header map and the recursive body assembly.

Shared pieces:

- `Records` holds the message, thread and category records.
- `PyStr` holds the Python string operations the code relies on (`strip`, `split`, `find`,
  slices, `int()`, `str(n)`).
- `OrderedMaps` models dicts whose insertion order the program relies on.

Outside effects become parameters:

- the command-line model is a function from the full prompt to an outcome;
- the clock is an integer `now`;
- regular-expression search and compilation, date parsing, the base64url decoder
  (section 5 of RFC 4648) and the email library are functions passed in.

`config.py` is a loader that reads a directory; only its getters are modelled.

The code departs from what its configuration fields and callers suggest in two places:

- Only the `labels` criteria are consulted. A category whose criteria name no labels
  matches every thread (`ThreadProcessor.CatchAll`).
- The summariser passes a prompt to `is_thread_cached` and `cache_thread_and_summary`, but
  the cache manager's methods take no prompt.
  - As written, a call of `summarize_threads_parallel` with a cache manager and at least one
    thread therefore raises `TypeError` while it builds its tasks, outside any `try`, and
    nothing is summarised (`Summarizer.BuildTasksAsWritten`; see "## Findings").
  - The model keeps the cache's two-argument operations as written.
  - It adds a prompt-aware pair (`Caching.CacheManager.IsThreadCachedWithPrompt`,
    `Caching.CacheManager.CacheThreadAndSummaryWithPrompt`), the behaviour the cache's own
    tests call for. The pair appends the prompt to the fingerprint text as one more JSON line
    and records it in the summary entry. The modelled dispatcher, `Summarizer.SummarizeThreadsParallel`,
    uses this pair.

## Model

| member | source | states |
|---|---|---|
| `ThreadProcessor.NewProcessor` | src/gmail_summarizer/thread_processor.py:15-23 | the processor's categories are a reordering of the configured ones, in non-decreasing `order` (999 when absent) |
| `ThreadProcessor.NormalizeGmailLabel` | src/gmail_summarizer/thread_processor.py:156-189 | a label whose lower-case form is one of the ten `is:` shorthands becomes its upper-case name; any other label comes back unchanged, case kept |
| `ThreadProcessor.NormalizeIdempotent` | src/gmail_summarizer/thread_processor.py:168-189 | normalising twice gives the same label as normalising once |
| `ThreadProcessor.NormalizeCaseInsensitive` | src/gmail_summarizer/thread_processor.py:181-186 | two spellings of a shorthand that differ only in case normalise to the same label |
| `ThreadProcessor.SearchMapValuesAreNotKeys` | src/gmail_summarizer/thread_processor.py:168-179 | no upper-case target name is itself a shorthand, whatever its case |
| `ThreadProcessor.SearchMapKeys` | src/gmail_summarizer/thread_processor.py:168-179 | every shorthand has the form `is:` followed by a name |
| `ThreadProcessor.SearchMapValues` | src/gmail_summarizer/thread_processor.py:168-179 | every target name starts with upper-case letters |
| `ThreadProcessor.MessageMatchesCriteria` | src/gmail_summarizer/thread_processor.py:89-154 | a message matches exactly when the criteria list no labels, or some label of the message `fnmatch`es some normalised required label |
| `ThreadProcessor.MatchesCategory` | src/gmail_summarizer/thread_processor.py:46-87 | a category matches exactly when its criteria are missing or empty or have no labels, or some message of the thread matches them |
| `ThreadProcessor.CatchAll` | src/gmail_summarizer/thread_processor.py:392-403 | a category with no criteria or no labels matches every thread, one with no messages included |
| `ThreadProcessor.LabelCategoryMatches` | src/gmail_summarizer/thread_processor.py:74-76 | with a non-empty label list, a category matches exactly when some message's labels match them |
| `ThreadProcessor.FirstMatch` | src/gmail_summarizer/thread_processor.py:37-44 | the index of the first matching category, with no match before it, or -1 exactly when none matches |
| `ThreadProcessor.FirstMatchFrom` | src/gmail_summarizer/thread_processor.py:37-44 | the first matching index from a given position on, or -1 exactly when none there matches |
| `ThreadProcessor.CategorizeSpec` | src/gmail_summarizer/thread_processor.py:25-44 | no category exactly when none matches; otherwise the first matching category in list order |
| `ThreadProcessor.CategorizeThread` | src/gmail_summarizer/thread_processor.py:37-44 | the loop over the categories returns what `CategorizeSpec` describes |
| `ThreadProcessor.DefaultCategoriesReachTwo` | src/gmail_summarizer/config.py:75-115 | with the built-in categories every thread lands in "Important Messages" or "Jira Updates", because the latter names no labels |
| `ThreadProcessor.IsImportantSender` | src/gmail_summarizer/thread_processor.py:191-213 | true exactly when some pattern finds the sender; a pattern that does not compile counts as no match |
| `ThreadProcessor.AnyImportantSender` | src/gmail_summarizer/thread_processor.py:241-243 | true exactly when some message of the thread has an important sender |
| `ThreadProcessor.ThreadSubject` | src/gmail_summarizer/thread_processor.py:271-283 | the first message's subject, or "No Subject" for a thread without messages |
| `ThreadProcessor.MessageParticipantsSpec` | src/gmail_summarizer/thread_processor.py:296-305 | what one message adds is exactly its non-empty sender and its stripped comma-separated recipients |
| `ThreadProcessor.CandidatesSpec` | src/gmail_summarizer/thread_processor.py:296-305 | a name is gathered from the thread exactly when it is a participant of some message |
| `ThreadProcessor.ParticipantsSpec` | src/gmail_summarizer/thread_processor.py:285-307 | the participants have no repeats and are exactly the participants of the thread's messages |
| `ThreadProcessor.ExtractParticipants` | src/gmail_summarizer/thread_processor.py:285-307 | the loops over messages and recipients build the participant set, as `ParticipantsSpec` describes |
| `ThreadProcessor.AddRecipients` | src/gmail_summarizer/thread_processor.py:302-305 | the inner loop adds each stripped piece that is not yet present, after what came before |
| `ThreadProcessor.MostRecentDate` | src/gmail_summarizer/thread_processor.py:309-361 | the thread's newest timestamp is never negative |
| `ThreadProcessor.MostRecentIsUpperBound` | src/gmail_summarizer/thread_processor.py:318-359 | no message's timestamp exceeds the thread's newest timestamp |
| `ThreadProcessor.MostRecentStep` | src/gmail_summarizer/thread_processor.py:318-359 | adding a message never lowers the newest timestamp, and the result covers the added one |
| `ThreadProcessor.MostRecentIsAttained` | src/gmail_summarizer/thread_processor.py:318-361 | the newest timestamp is 0 or is the timestamp of one of the messages |
| `ThreadProcessor.MostRecentAtLeastInternalDate` | src/gmail_summarizer/thread_processor.py:324-330 | a message whose `internal_date` is the decimal text of n makes the newest timestamp at least n |
| `ThreadProcessor.ExtractMostRecentDate` | src/gmail_summarizer/thread_processor.py:309-361 | the loop keeps the maximum of the parsed timestamps, starting from 0 |
| `ThreadProcessor.MessageIdOf` | src/gmail_summarizer/thread_processor.py:427-434 | empty for a thread without messages; otherwise a non-empty id is one of the first message's header values |
| `ThreadProcessor.GenerateGmailUrl` | src/gmail_summarizer/thread_processor.py:405-456 | the method, with its loop over the reply prefixes, builds the link `GmailUrlByMessageId` and `GmailUrlBySubject` describe |
| `ThreadProcessor.GmailUrlByMessageId` | src/gmail_summarizer/thread_processor.py:436-441 | with a Message-ID the link searches for it: brackets stripped, percent-encoded with no `/` kept, and decoding gives the id's UTF-8 bytes back |
| `ThreadProcessor.GmailUrlBySubject` | src/gmail_summarizer/thread_processor.py:443-456 | otherwise a real subject gives a subject search that decodes to the subject without its reply prefixes; else the link is the inbox |
| `ThreadProcessor.EnrichThread` | src/gmail_summarizer/thread_processor.py:237-251 | the record of a matched thread carries its category, important flag, participants, newest timestamp and link |
| `ThreadProcessor.PlacedSome` | src/gmail_summarizer/thread_processor.py:233-255 | a thread is placed in the group of its category and in no other |
| `ThreadProcessor.GroupsStep` | src/gmail_summarizer/thread_processor.py:233-255 | one grouping step appends the thread to its category's group and leaves every other group alone |
| `ThreadProcessor.BucketPrefix` | src/gmail_summarizer/thread_processor.py:233-255 | each group grows by at most the next thread, keeping input order |
| `ThreadProcessor.CapSpec` | src/gmail_summarizer/thread_processor.py:257-267 | without a cap a group is kept whole; with a cap n ≥ 0 it keeps its first min(length, n) threads |
| `ThreadProcessor.EmptyGroups` | src/gmail_summarizer/thread_processor.py:229-230 | every configured name gets an empty group, in order of first appearance |
| `ThreadProcessor.GroupThreads` | src/gmail_summarizer/thread_processor.py:228-255 | each group holds, in input order, exactly the threads whose category has its name |
| `ThreadProcessor.GroupThread` | src/gmail_summarizer/thread_processor.py:233-255 | one round of the grouping loop keeps that property for one more thread |
| `ThreadProcessor.CapGroups` | src/gmail_summarizer/thread_processor.py:257-267 | the same names in the same order, each group cut as `CapSpec` describes |
| `ThreadProcessor.ProcessThreads` | src/gmail_summarizer/thread_processor.py:215-269 | a group for every configured name, empty ones included, in category order; each holds its matched threads in input order, capped |
| `ThreadProcessor.BucketsPartition` | src/gmail_summarizer/thread_processor.py:233-255 | over all names the groups hold exactly as many threads as match some category, so no thread is in two groups or lost |
| `ThreadProcessor.TotalSizeStep` | src/gmail_summarizer/thread_processor.py:233-255 | a new thread adds one to the total of the groups when its category is among the names, and nothing otherwise |
| `ThreadProcessor.CountImportant` | src/gmail_summarizer/thread_processor.py:376-378 | the important threads never outnumber the threads |
| `ThreadProcessor.StatsOf` | src/gmail_summarizer/thread_processor.py:374-386 | a group's thread count is its length, and at least its important count |
| `ThreadProcessor.GetCategorySummary` | src/gmail_summarizer/thread_processor.py:363-390 | the same names in the same order, each with its group's counts |
| `ThreadProcessor.SumMessagesCounts` | src/gmail_summarizer/thread_processor.py:380-384 | when each record's `message_count` is its number of messages, the group's total is the number of messages it carries |
| `ThreadProcessor.StripEach` | src/gmail_summarizer/thread_processor.py:305 | each piece of the recipient field, stripped, in order |
| `ThreadProcessor.InSomeMessageSnoc` | src/gmail_summarizer/thread_processor.py:296-305 | a name appears in a thread with one more message exactly when it appeared before or is a participant of the new message |
| `ThreadProcessor.FirstOccurrencesSnoc` | src/gmail_summarizer/thread_processor.py:296-305 | one more gathered name is added only when it is new |
| `ThreadProcessor.CandidatesPrefix` | src/gmail_summarizer/thread_processor.py:296-305 | one more message adds its participants after those gathered so far |
| `ThreadProcessor.MostRecentPrefix` | src/gmail_summarizer/thread_processor.py:318-359 | one more message raises the newest timestamp to its own exactly when that is parsed and larger |
| `ThreadProcessor.TotalSizeEmpty` | src/gmail_summarizer/thread_processor.py:229-230 | the freshly made groups hold no threads |
| `Glob.StarMatchesAll` | src/gmail_summarizer/thread_processor.py:125-130 | the pattern `*` accepts every label |
| `Glob.LiteralPatternMatchesItself` | src/gmail_summarizer/thread_processor.py:125-130 | a pattern without wildcards matches exactly the identical label, case-sensitively |
| `Glob.PrefixStarMatchesPrefixed` | src/gmail_summarizer/thread_processor.py:125-130 | a plain prefix followed by `*` matches exactly the labels that start with that prefix |
| `Glob.ClassClose` | src/gmail_summarizer/thread_processor.py:128 | a `[` set closes at a later `]`, after any leading `!` and a `]` that belongs to the set, or is an ordinary character |
| `Glob.LiteralTokens` | src/gmail_summarizer/thread_processor.py:125-130 | a pattern without wildcards is read as one literal per character |
| `Glob.MatchLiteralThen` | src/gmail_summarizer/thread_processor.py:125-130 | literals followed by more tokens match exactly the texts that start with those characters and whose rest matches the tokens |
| `Glob.PrefixStarTokens` | src/gmail_summarizer/thread_processor.py:125-130 | a plain prefix followed by `*` is read as its literals and one wildcard |
| `UrlQuote.UnquoteQuote` | src/gmail_summarizer/thread_processor.py:440 | when `%` is not kept, decoding the quoted text gives its UTF-8 bytes back (section 2.1 of RFC 3986) |
| `UrlQuote.UnquoteQuoteBytes` | src/gmail_summarizer/thread_processor.py:452 | percent-encoding of bytes is undone by decoding |
| `UrlQuote.QuoteAlphabet` | src/gmail_summarizer/thread_processor.py:440 | quoted text holds only kept characters, `%` and upper-case hex digits |
| `UrlQuote.QuoteUnreserved` | src/gmail_summarizer/thread_processor.py:452 | text made only of unreserved ASCII characters is left as it is |
| `UrlQuote.Utf8Char` | src/gmail_summarizer/thread_processor.py:452 | a character takes one to four bytes, one exactly when it is ASCII, and multi-byte sequences hold no ASCII byte |
| `UrlQuote.UnquoteByte` | src/gmail_summarizer/thread_processor.py:452 | decoding reads one encoded byte back, leaving what follows |
| `Caching.CacheManager.constructor` | src/gmail_summarizer/cache_manager.py:43-80 | a missing file gives an empty map; a failure reading either file leaves both maps empty; otherwise the maps hold the files' contents |
| `Caching.CacheManager.IsThreadCached` | src/gmail_summarizer/cache_manager.py:123-139 | false for an id the cache does not hold, and true only when a hash is stored |
| `Caching.CachedExactlyForSameContent` | src/gmail_summarizer/cache_manager.py:133-139 | for a stored fingerprint, a thread counts as cached exactly when its messages agree on id, subject, from, date and body, message by message |
| `Caching.CacheManager.GetCachedSummary` | src/gmail_summarizer/cache_manager.py:141-150 | a summary exactly when one is stored for the id, and then that one |
| `Caching.CacheManager.CacheThreadAndSummary` | src/gmail_summarizer/cache_manager.py:152-181 | both entries of the id are replaced and carry the same hash, and other ids are untouched; afterwards the thread is cached for these messages and the summary is found |
| `Caching.CacheManager.ClearCache` | src/gmail_summarizer/cache_manager.py:205-208 | both maps are empty, no thread is cached and no summary is found |
| `Caching.CacheManager.CleanupOldEntries` | src/gmail_summarizer/cache_manager.py:220-253 | removes exactly the thread entries stored before now − days·86400 (missing time counting as 0) and the summaries of those ids, keeps everything else, orphan summaries included, and returns the number removed |
| `Caching.CacheManager.CollectStale` | src/gmail_summarizer/cache_manager.py:236-241 | the ids of exactly the stale entries, each once |
| `Caching.CacheManager.RemoveEntries` | src/gmail_summarizer/cache_manager.py:243-247 | both maps lose exactly the listed ids, and the count is the number of ids |
| `Caching.DistinctCard` | src/gmail_summarizer/cache_manager.py:243-247 | a list without repeats has as many elements as its set, so the counter equals the number of removed ids |
| `Records.CategoryNames` | src/gmail_summarizer/thread_processor.py:229-230 | the category names, one per category, in order, as both the grouping and the report walk them |
| `Caching.CacheManager.IsThreadCachedWithPrompt` | src/gmail_summarizer/llm_summarizer.py:265-267 | the prompt-aware probe is false for an absent id, and true only when a hash is stored |
| `Caching.CacheManager.CacheThreadAndSummaryWithPrompt` | src/gmail_summarizer/llm_summarizer.py:306-312 | the prompt-aware write replaces both entries with the same hash, the summary entry also recording the prompt, and leaves other ids alone; afterwards the thread is cached for these messages and this prompt |
| `Caching.CachedWithPromptExactly` | src/gmail_summarizer/llm_summarizer.py:265-267 | with the extension a thread counts as cached exactly when both the hashed fields and the prompt match, so a different prompt misses and re-caching evicts the old prompt |
| `OrderedMaps.Put` | src/gmail_summarizer/thread_processor.py:229-230 | assigning a key sets its value; a new key goes at the end of the order and an existing one keeps its place |
| `OrderedMaps.FirstOccurrences` | src/gmail_summarizer/thread_processor.py:229-230 | the keys in order of first appearance, each once, and no others |
| `Fingerprint.AllFields` | src/gmail_summarizer/cache_manager.py:108-116 | each message contributes exactly its id, subject, from, date and body |
| `Fingerprint.MessageLines` | src/gmail_summarizer/cache_manager.py:108-117 | one JSON object per message, in order |
| `Fingerprint.ReadMemberLemma` | src/gmail_summarizer/cache_manager.py:117 | a `"key": value` member is read back as its value, leaving what follows |
| `Fingerprint.ReadMessageJsonLemma` | src/gmail_summarizer/cache_manager.py:110-117 | reading a message's sorted-key JSON object gives its five fields back |
| `Fingerprint.MessageJsonOneLine` | src/gmail_summarizer/cache_manager.py:117 | a message's JSON object is non-empty and holds no line break |
| `Fingerprint.MemberOneLine` | src/gmail_summarizer/cache_manager.py:117 | a JSON member holds no line break |
| `Fingerprint.ReadEachLine` | src/gmail_summarizer/cache_manager.py:120 | reading each line succeeds when each line reads back to its item |
| `Fingerprint.ReadMessageLinesLemma` | src/gmail_summarizer/cache_manager.py:108-120 | the lines read back to the message fields |
| `Fingerprint.SplitJoin` | src/gmail_summarizer/cache_manager.py:120 | joining pieces free of the separator and splitting again gives the pieces back |
| `Fingerprint.MessageLinesOneLine` | src/gmail_summarizer/cache_manager.py:120 | no line of the fingerprint text holds a line break |
| `Fingerprint.ReadContentTextLemma` | src/gmail_summarizer/cache_manager.py:105-120 | the fingerprint text reads back to the list of hashed fields, so it is injective |
| `Fingerprint.JoinNonEmpty` | src/gmail_summarizer/cache_manager.py:120 | a join whose first piece is non-empty is non-empty |
| `Fingerprint.ThreadHashExact` | src/gmail_summarizer/cache_manager.py:96-121 | two message lists have the same fingerprint exactly when they agree on the hashed fields |
| `Fingerprint.ThreadHashWithPromptExact` | src/gmail_summarizer/llm_summarizer.py:306-312 | with the prompt line appended, fingerprints agree exactly when the hashed fields and the prompts agree |
| `Fingerprint.LinesOneLine` | src/gmail_summarizer/llm_summarizer.py:306-312 | with the prompt line added, no line of the fingerprint text holds a line break |
| `JsonText.EscapeChar` | src/gmail_summarizer/cache_manager.py:117 | a character is written as one to twelve characters |
| `JsonText.UnicodeEscape` | src/gmail_summarizer/cache_manager.py:117 | a `\u` escape has six characters |
| `JsonText.SurrogateEscape` | src/gmail_summarizer/cache_manager.py:117 | a character above U+FFFF becomes a twelve-character surrogate pair |
| `JsonText.EscapeCharPrintable` | src/gmail_summarizer/cache_manager.py:117 | every written character is printable ASCII |
| `JsonText.UnicodeEscapePrintable` | src/gmail_summarizer/cache_manager.py:117 | a `\u` escape is printable ASCII |
| `JsonText.QuotedPrintable` | src/gmail_summarizer/cache_manager.py:117 | a written string literal is printable ASCII, so it holds no line break |
| `JsonText.EscapeAllPrintable` | src/gmail_summarizer/cache_manager.py:117 | the escaped body of a literal is printable ASCII |
| `JsonText.HexDigitRoundTrip` | src/gmail_summarizer/cache_manager.py:117 | a lower-case hex digit reads back to its value |
| `JsonText.Hex4Digits` | src/gmail_summarizer/cache_manager.py:117 | a number below 65536 is the value of its four hex digits |
| `JsonText.ReadHex4Escape` | src/gmail_summarizer/cache_manager.py:117 | the four hex digits of a `\u` escape read back to its code |
| `JsonText.ReadBmpEscape` | src/gmail_summarizer/cache_manager.py:117 | a `\u` escape of a non-surrogate code reads back to that character |
| `JsonText.SurrogateHalves` | src/gmail_summarizer/cache_manager.py:117 | the high and low halves of a character above U+FFFF are surrogates that recombine to it |
| `JsonText.ReadPairEscape` | src/gmail_summarizer/cache_manager.py:117 | a high and a low surrogate escape read back as one combined character |
| `JsonText.ReadSurrogatePair` | src/gmail_summarizer/cache_manager.py:117 | a character's surrogate-pair escape reads back to the character |
| `JsonText.ReadShortEscape` | src/gmail_summarizer/cache_manager.py:117 | a two-character escape reads back to its character |
| `JsonText.ReadPlain` | src/gmail_summarizer/cache_manager.py:117 | a printable character written as itself reads back as itself |
| `JsonText.ReadBmp` | src/gmail_summarizer/cache_manager.py:117 | a non-printable character below U+10000 reads back from its `\u` escape |
| `JsonText.ReadAstral` | src/gmail_summarizer/cache_manager.py:117 | a character above U+FFFF reads back from its surrogate pair |
| `JsonText.ReadOneEscapeChar` | src/gmail_summarizer/cache_manager.py:117 | every written character reads back to itself, leaving what follows; it never starts with a closing quote |
| `JsonText.ReadCharsEscapeAll` | src/gmail_summarizer/cache_manager.py:117 | an escaped body followed by a quote reads back to the string |
| `JsonText.ReadQuoted` | src/gmail_summarizer/cache_manager.py:117 | a string literal reads back to its string, leaving what follows |
| `JsonText.QuotedInjective` | src/gmail_summarizer/cache_manager.py:117 | different strings are written as different literals |
| `JsonText.ReadHex4` | src/gmail_summarizer/cache_manager.py:117 | reading four hex digits needs four characters and gives a code below 65536 |
| `JsonText.ReadEscape` | src/gmail_summarizer/cache_manager.py:117 | reading an escape consumes input |
| `JsonText.ReadOne` | src/gmail_summarizer/cache_manager.py:117 | reading a character consumes input |
| `JsonText.HexDigitValue` | src/gmail_summarizer/cache_manager.py:117 | a hex digit's value is below 16 |
| `Summarizer.ClipBodySpec` | src/gmail_summarizer/llm_summarizer.py:111-115 | a stripped body of at most 2000 characters is sent whole; a longer one becomes exactly 2000 characters, its first 1997 and "..." |
| `Summarizer.MessageLines` | src/gmail_summarizer/llm_summarizer.py:117-125 | each message contributes five lines |
| `Summarizer.MessageBlocks` | src/gmail_summarizer/llm_summarizer.py:108-125 | one block of five lines per message |
| `Summarizer.ContentLayout` | src/gmail_summarizer/llm_summarizer.py:99-127 | the content has six header lines and then the k-th message's five lines at 6 + 5k |
| `Summarizer.PrepareThreadContent` | src/gmail_summarizer/llm_summarizer.py:85-127 | the content is the header and message lines joined by line breaks |
| `Summarizer.AppendMessageLines` | src/gmail_summarizer/llm_summarizer.py:108-125 | the loop extends the parts by every message's lines, in order |
| `Summarizer.FullPrompt` | src/gmail_summarizer/llm_summarizer.py:145 | the prompt, then "\n\nThread content:\n", then the content, in that order and nothing else |
| `Summarizer.CallClaudeCliSpec` | src/gmail_summarizer/llm_summarizer.py:129-177 | the answer is used exactly when the program completes with non-blank output, and is then stripped; blank output and a missing program give their own messages; other failures keep theirs |
| `Summarizer.EstimateTokenCount` | src/gmail_summarizer/llm_summarizer.py:452-462 | the estimate is the length divided by four, rounded down |
| `Summarizer.TruncateContentSpec` | src/gmail_summarizer/llm_summarizer.py:464-488 | content within budget is kept; over budget it becomes a prefix of at most 4·max − 100 characters, cut at the limit or at the last message boundary past half of it, plus the marker, and is then shorter |
| `Summarizer.ErrorResult` | src/gmail_summarizer/llm_summarizer.py:69-83 | the failed record keeps the thread, is not generated and carries the error text |
| `Summarizer.CategoryPrompt` | src/gmail_summarizer/llm_summarizer.py:47-49 | the category's prompt, or the default prompt when it has none |
| `Summarizer.SummarizeThreadSpec` | src/gmail_summarizer/llm_summarizer.py:30-83 | the record keeps the thread; it is generated exactly when the call succeeds and then holds the non-empty answer; otherwise its summary is "Error generating summary: " and the error |
| `Summarizer.FindCategory` | src/gmail_summarizer/llm_summarizer.py:198-203 | none exactly when no category has the name; otherwise the first category with that name |
| `Summarizer.PromptFor` | src/gmail_summarizer/llm_summarizer.py:242-264 | the prompt of the first category with that name (its own or the default), and the default for an unknown name; the list searched is the sorted one `Config.GetCategories` returns |
| `Summarizer.SummarizeThreadsBatch` | src/gmail_summarizer/llm_summarizer.py:179-217 | every category of the input, in order, with each of its threads summarised in place with that category's prompt |
| `Summarizer.SummarizeGroup` | src/gmail_summarizer/llm_summarizer.py:212-215 | one summary per thread, in order |
| `Summarizer.BatchKeepsShape` | src/gmail_summarizer/llm_summarizer.py:190-215 | the batch result has the input's categories and each list keeps its length |
| `Summarizer.BatchStep` | src/gmail_summarizer/llm_summarizer.py:192-215 | one round of the category loop adds that category's summaries |
| `Summarizer.BatchDone` | src/gmail_summarizer/llm_summarizer.py:192-217 | after the last category the result is the whole batch result |
| `Summarizer.SlotsOf` | src/gmail_summarizer/llm_summarizer.py:256 | a category with n threads has the slots 0 .. n-1 |
| `Summarizer.SlotsValid` | src/gmail_summarizer/llm_summarizer.py:239-256 | every task slot names a category of the input and an index inside its list |
| `Summarizer.SlotsCover` | src/gmail_summarizer/llm_summarizer.py:239-256 | every thread of every category has a task slot |
| `Summarizer.SlotsDistinct` | src/gmail_summarizer/llm_summarizer.py:239-256 | no two tasks share a slot |
| `Summarizer.CategoryTasks` | src/gmail_summarizer/llm_summarizer.py:256-281 | one task per thread, with its index, the category's prompt and the cache probe's outcome |
| `Summarizer.BuildCategoryTasks` | src/gmail_summarizer/llm_summarizer.py:256-281 | the inner loop builds those tasks, probing the cache in order |
| `Summarizer.TasksForLength` | src/gmail_summarizer/llm_summarizer.py:238-281 | there are as many tasks as slots |
| `Summarizer.TaskForSlot` | src/gmail_summarizer/llm_summarizer.py:256-281 | the j-th task is the one built for the j-th slot's thread |
| `Summarizer.TasksForAt` | src/gmail_summarizer/llm_summarizer.py:238-281 | every task is the one built for its slot |
| `Summarizer.TasksForSnoc` | src/gmail_summarizer/llm_summarizer.py:239-281 | each category appends its own tasks after those of the earlier ones |
| `Summarizer.BuildTasks` | src/gmail_summarizer/llm_summarizer.py:235-281 | one slot list per input category, in order, of the input's length and all empty, and the list of tasks |
| `Summarizer.AddCategory` | src/gmail_summarizer/llm_summarizer.py:239-281 | one round of the category loop allocates that category's slots and appends its tasks |
| `Summarizer.AllocateStep` | src/gmail_summarizer/llm_summarizer.py:240 | pre-allocating one more category keeps the allocated slots empty and of the right length |
| `Summarizer.AllocatedAll` | src/gmail_summarizer/llm_summarizer.py:239-240 | after the loop every category has its empty slot list |
| `Summarizer.TaskOutcome` | src/gmail_summarizer/llm_summarizer.py:286-318 | a truthy cached entry (one with any of its four keys, `prompt` alone included) gives its `summary_data`, or the `'summary_data'` error record when that key is missing; every other task is summarised afresh |
| `Summarizer.PromptOnlyEntryFails` | src/gmail_summarizer/llm_summarizer.py:289-295 | an entry holding only `prompt` is truthy, so the task is not summarised afresh and records the `'summary_data'` error |
| `Summarizer.SummarizeSingleTask` | src/gmail_summarizer/llm_summarizer.py:286-318 | the outcome of a task; a fresh summary overwrites the id's entries in both maps with the prompt-aware fingerprint, the data, the summary, the prompt and `now`, and nothing else changes; a cache hit leaves both maps exactly as they were |
| `Summarizer.SummarizeThreadsParallel` | src/gmail_summarizer/llm_summarizer.py:219-387 | for any completion order, the input's categories and lengths, each slot holding the outcome of the task built for it, one progress report per task counting 1, 2, …, and both cache maps end as the completed fresh tasks' writes leave them, in completion order |
| `Summarizer.BuiltTaskSlots` | src/gmail_summarizer/llm_summarizer.py:239-281 | the built tasks match the pre-allocated slots one for one |
| `Summarizer.RunTasks` | src/gmail_summarizer/llm_summarizer.py:325-384 | completing all tasks in the given order fills every slot with its own task's outcome, logs one report per task, and leaves the cache maps as the fresh tasks' writes make them |
| `Summarizer.CompleteTask` | src/gmail_summarizer/llm_summarizer.py:332-384 | completing one task stores its outcome in its own slot only, adds one progress report, and extends the cache state by that task's write when fresh |
| `Summarizer.StoreStep` | src/gmail_summarizer/llm_summarizer.py:336-341 | storing a result touches its slot and no other |
| `Summarizer.AllStored` | src/gmail_summarizer/llm_summarizer.py:332-384 | once every task has completed, every slot holds its own task's outcome |
| `Summarizer.EverySlotFilled` | src/gmail_summarizer/llm_summarizer.py:240 | when every slot has been written, no pre-allocated `None` is left |
| `Summarizer.WithoutCacheAsBatch` | src/gmail_summarizer/llm_summarizer.py:286-302 | without a cache, a slot's outcome is the thread's sequential batch summary |
| `Summarizer.ProgressLogAt` | src/gmail_summarizer/llm_summarizer.py:343-384 | the k-th progress report says k of total, with " (cached)" or " - Error" for the task that completed k-th |
| `Summarizer.FreshIdsSpec` | src/gmail_summarizer/llm_summarizer.py:304-312 | an id is written to the cache exactly when some completed fresh task has it |
| `Summarizer.FreshIdsSnoc` | src/gmail_summarizer/llm_summarizer.py:304-312 | one more completed task adds its id when it is fresh |
| `Summarizer.CacheAfterFrame` | src/gmail_summarizer/llm_summarizer.py:286-312 | the pool's writes give both maps exactly the fresh tasks' ids as new keys, and every other id, cache hits included, keeps its old entries |
| `Summarizer.CacheAfterFresh` | src/gmail_summarizer/llm_summarizer.py:304-312 | every id written holds afterwards the thread and summary entries of one completed fresh task with that id |
| `Summarizer.BuildTasksAsWritten` | src/gmail_summarizer/llm_summarizer.py:256-267 | as written, building the tasks raises the `TypeError` exactly when a cache manager is given and some category has a thread; otherwise the tasks are built as without a cache |
| `Summarizer.TasksExist` | src/gmail_summarizer/llm_summarizer.py:239-281 | there is a task exactly when some category has a thread |
| `Summarizer.CountGenerated` | src/gmail_summarizer/llm_summarizer.py:409-410 | the successes never outnumber the threads |
| `Summarizer.FailedErrors` | src/gmail_summarizer/llm_summarizer.py:411-414 | one error entry per failed thread |
| `Summarizer.CounterKeys` | src/gmail_summarizer/llm_summarizer.py:414 | the error table's keys are the distinct errors in order of first appearance |
| `Summarizer.CounterValues` | src/gmail_summarizer/llm_summarizer.py:414 | each error's count is the number of times it occurs |
| `Summarizer.CounterSum` | src/gmail_summarizer/llm_summarizer.py:414 | the counts of the error table add up to the number of errors |
| `Summarizer.CountOneMore` | src/gmail_summarizer/llm_summarizer.py:414 | one more counted error adds one to the sum of counts |
| `Summarizer.SumOverBump` | src/gmail_summarizer/llm_summarizer.py:414 | raising one listed count adds one to the sum |
| `Summarizer.SumOverNew` | src/gmail_summarizer/llm_summarizer.py:414 | a new key with count 1 adds one to the sum |
| `Summarizer.SumOverOther` | src/gmail_summarizer/llm_summarizer.py:414 | changing an unlisted key leaves the sum alone |
| `Summarizer.CountAbsent` | src/gmail_summarizer/llm_summarizer.py:414 | an error that does not occur has count 0 |
| `Summarizer.TallyOfSnoc` | src/gmail_summarizer/llm_summarizer.py:406-414 | counting one more thread is one step of the loop |
| `Summarizer.TallyCounts` | src/gmail_summarizer/llm_summarizer.py:405-412 | the total is the number of threads, the successes are the generated ones and the failures the rest |
| `Summarizer.TallyErrors` | src/gmail_summarizer/llm_summarizer.py:411-414 | the error table counts the failed threads' `summary_error`s |
| `Summarizer.TallySpec` | src/gmail_summarizer/llm_summarizer.py:400-414 | every thread is counted once, success exactly when generated; the error kinds are listed in order of first appearance with their counts, and the counts add up to the failures |
| `Summarizer.SuccessRate` | src/gmail_summarizer/llm_summarizer.py:420-422 | 0 when there are no threads; otherwise the rate times the total is the number of successes, and it lies between 0 and 1 |
| `Summarizer.AllThreadsSnoc` | src/gmail_summarizer/llm_summarizer.py:405-406 | the threads of one more category follow those of the earlier ones |
| `Summarizer.GetSummarizationStats` | src/gmail_summarizer/llm_summarizer.py:389-424 | the counts over all categories' threads; successes plus failures make the total, and the rate is as `SuccessRate` says |
| `Summarizer.TallyThreads` | src/gmail_summarizer/llm_summarizer.py:406-414 | the inner loop counts one category's threads on top of those before |
| `ConfigModels.ValidateEmail` | src/gmail_summarizer/config_models.py:23-29 | accepted exactly when non-empty and containing `@`, and then unchanged |
| `ConfigModels.ValidatePort` | src/gmail_summarizer/config_models.py:31-37 | accepted exactly when between 1 and 65535 |
| `ConfigModels.ValidateTimeout` | src/gmail_summarizer/config_models.py:51-57 | accepted exactly when between 1 and 600 |
| `ConfigModels.ValidateConcurrency` | src/gmail_summarizer/config_models.py:59-65 | accepted exactly when between 1 and 20 |
| `ConfigModels.ValidateName` | src/gmail_summarizer/config_models.py:124-130 | accepted exactly when something is left after stripping, and stored stripped |
| `ConfigModels.ValidatePrompt` | src/gmail_summarizer/config_models.py:132-138 | accepted exactly when something is left after stripping, and stored stripped |
| `ConfigModels.ValidateMaxThreads` | src/gmail_summarizer/config_models.py:174-184 | accepted exactly when absent or between 1 and 1000 |
| `ConfigModels.ValidatePatterns` | src/gmail_summarizer/config_models.py:88-99 | accepted exactly when every pattern compiles; otherwise the first bad pattern is reported |
| `ConfigModels.ValidateHeaders` | src/gmail_summarizer/config_models.py:101-112 | accepted exactly when every header pattern compiles; otherwise the first header, in order, whose pattern does not compile is named |
| `ConfigModels.ValidateGmail` | src/gmail_summarizer/config_models.py:11-37 | accepted exactly when the address is present and valid and the port (default 993) is in range; the defaults are filled in |
| `ConfigModels.ValidateClaude` | src/gmail_summarizer/config_models.py:40-65 | accepted exactly when the timeout (default 30) and the concurrency (default 5) are in range; the defaults are filled in |
| `ConfigModels.ValidateCriteria` | src/gmail_summarizer/config_models.py:68-112 | accepted exactly when every pattern group compiles, with missing groups empty |
| `ConfigModels.ValidateCategory` | src/gmail_summarizer/config_models.py:115-138 | accepted exactly when the name and prompt are non-blank and the criteria valid; name and prompt are stored stripped |
| `ConfigModels.ValidateEach` | src/gmail_summarizer/config_models.py:150-152 | a list is accepted exactly when every element is, and is then validated element by element |
| `ConfigModels.ValidateCategoryList` | src/gmail_summarizer/config_models.py:150-152 | the category list is validated category by category |
| `ConfigModels.ValidateUniqueNames` | src/gmail_summarizer/config_models.py:186-196 | accepted exactly when no two categories share a (stripped) name |
| `ConfigModels.ValidateCategories` | src/gmail_summarizer/config_models.py:186-196 | the categories are accepted exactly when each is valid and their names are distinct |
| `ConfigModels.PostInit` | src/gmail_summarizer/config_models.py:198-207 | an empty category list becomes the single catch-all "Everything"; everything else is kept |
| `ConfigModels.ValidateAppConfig` | src/gmail_summarizer/config_models.py:141-209 | accepted exactly when the `gmail` section is present, every field passes its validator and no key is unknown; the accepted value holds the validated sections, the sender patterns, the output file (default "inbox_summary.html"), the cap, and the validated categories or "Everything" when there are none |
| `ConfigModels.FieldErrors` | src/gmail_summarizer/config_models.py:141-209 | a failed field contributes one error and a valid one none |
| `ConfigModels.ExtraErrors` | src/gmail_summarizer/config_models.py:209 | one error per unknown field |
| `ConfigModels.Names` | src/gmail_summarizer/config_models.py:192 | the names of the categories, in order |
| `ConfigModels.EverythingValid` | src/gmail_summarizer/config_models.py:200-207 | the default category is itself valid and unique |
| `ConfigModels.PlainCategoryValid` | src/gmail_summarizer/config_models.py:124-138 | a category whose name and prompt have no surrounding whitespace and whose criteria are empty is valid |
| `ConfigModels.ValidateCategoryOf` | src/gmail_summarizer/config_models.py:115-138 | a valid category, written out as raw fields, validates back to itself |
| `ConfigModels.ValidateRawOf` | src/gmail_summarizer/config_models.py:141-209 | a valid configuration, written out as raw fields, validates back to itself |
| `ConfigModels.RawCategories` | src/gmail_summarizer/config_models.py:150-152 | one raw entry per category |
| `ConfigModels.DefaultCategoryWhenEmpty` | src/gmail_summarizer/config_models.py:198-207 | an accepted configuration with no categories has exactly the "Everything" category |
| `ConfigModels.CategoriesKept` | src/gmail_summarizer/config_models.py:198-207 | an accepted configuration with categories keeps them, validated, in order |
| `Config.GetSection` | src/gmail_summarizer/config.py:128-142 | a missing section reads as empty |
| `Config.GetOr` | src/gmail_summarizer/config.py:148-158 | a key's value, or the default when it is missing |
| `Config.GetImportantSenders` | src/gmail_summarizer/config.py:148-150 | the configured sender patterns, or none when the `highlighting` section or its `important_senders` key is missing |
| `Config.GetMaxThreadsPerCategory` | src/gmail_summarizer/config.py:152-154 | the configured cap, or 50 |
| `Config.GetOutputFilename` | src/gmail_summarizer/config.py:156-158 | the configured file name, or "inbox_summary.html" |
| `Config.GetCategoriesSpec` | src/gmail_summarizer/config.py:144-146 | a reordering of the categories, non-decreasing by `order` (999 when absent), in which categories of equal order keep their relative order |
| `Config.DefaultCategoriesSorted` | src/gmail_summarizer/config.py:75-115 | the built-in list is already sorted, and "Everything Else", with order 999 and empty criteria, comes last |
| `StableSort.Insert` | src/gmail_summarizer/config.py:146 | inserting adds one element |
| `StableSort.SortByKey` | src/gmail_summarizer/config.py:146 | sorting keeps the length |
| `StableSort.WithKey` | src/gmail_summarizer/config.py:146 | the elements with a given key form a subsequence |
| `StableSort.InsertPermutation` | src/gmail_summarizer/config.py:146 | inserting adds exactly the new element |
| `StableSort.InsertSorted` | src/gmail_summarizer/config.py:146 | inserting into a sorted list keeps it sorted |
| `StableSort.SortPermutation` | src/gmail_summarizer/config.py:146 | the sorted list is a reordering of the input |
| `StableSort.SortSorted` | src/gmail_summarizer/config.py:146 | the sorted list is non-decreasing by key |
| `StableSort.WithKeyPrepend` | src/gmail_summarizer/config.py:146 | an element in front comes first among those of its key |
| `StableSort.WithKeyCons` | src/gmail_summarizer/config.py:146 | the elements of a key are the head, when it has that key, then those of the tail |
| `StableSort.WithKeyNone` | src/gmail_summarizer/config.py:146 | a list without the key has no elements of it |
| `StableSort.InsertWithKey` | src/gmail_summarizer/config.py:146 | an inserted element comes after the equal-key elements already there |
| `StableSort.SortStable` | src/gmail_summarizer/config.py:146 | elements with equal keys keep their relative order |
| `StableSort.SortOfSorted` | src/gmail_summarizer/config.py:146 | sorting a sorted list leaves it alone |
| `StableSort.InsertAtEnd` | src/gmail_summarizer/config.py:146 | an element with the largest key goes at the end |
| `HtmlGen.TruncateText` | src/gmail_summarizer/html_generator.py:51-55 | text within the limit is unchanged; longer text becomes a prefix plus "...", of exactly the limit's length when the limit is at least 3 |
| `HtmlGen.FormatEmail` | src/gmail_summarizer/html_generator.py:57-65 | without both `<` and `>` the input is unchanged; otherwise the text between the last `<` and the last `>`, or empty when `>` comes first |
| `HtmlGen.SecondField` | src/gmail_summarizer/html_generator.py:71 | the field after the first `@`, up to the next `@` or the end |
| `HtmlGen.DomainFromEmail` | src/gmail_summarizer/html_generator.py:67-72 | the field after the first `@` of the formatted address, or the formatted address when it has no `@` |
| `HtmlGen.ReportOrder` | src/gmail_summarizer/html_generator.py:177-187 | a reordering of the threads with important senders first, newer first among equals, and ties kept in order |
| `HtmlGen.Included` | src/gmail_summarizer/html_generator.py:172-175 | the configured names that have threads |
| `HtmlGen.ContextThreadsSpec` | src/gmail_summarizer/html_generator.py:167-188 | the report lists exactly the configured categories with threads, in configured order, each with its threads in report order |
| `HtmlGen.ImportantCount` | src/gmail_summarizer/html_generator.py:192-195 | the important threads never outnumber the threads |
| `HtmlGen.ImportantCountFront` | src/gmail_summarizer/html_generator.py:192-195 | a thread in front adds one to the count exactly when it is important |
| `HtmlGen.ImportantCountInsert` | src/gmail_summarizer/html_generator.py:192-195 | inserting a thread adds one to the count exactly when it is important |
| `HtmlGen.ImportantCountSorted` | src/gmail_summarizer/html_generator.py:177-195 | sorting keeps the important count |
| `HtmlGen.TotalsAgree` | src/gmail_summarizer/html_generator.py:190-195 | the totals depend only on each list's length and important count |
| `HtmlGen.PrepareTemplateContext` | src/gmail_summarizer/html_generator.py:155-216 | the sorted categories, the totals over the listed categories, the statistics passed through and the configured cap and senders |
| `HtmlGen.LexIrreflexive` | src/gmail_summarizer/html_generator.py:259 | no string sorts before itself |
| `HtmlGen.LexTransitive` | src/gmail_summarizer/html_generator.py:259 | string order is transitive |
| `HtmlGen.LexTotal` | src/gmail_summarizer/html_generator.py:259 | of two different strings one sorts first |
| `HtmlGen.InsertString` | src/gmail_summarizer/html_generator.py:259 | insertion adds exactly the new string |
| `HtmlGen.InsertStringSorted` | src/gmail_summarizer/html_generator.py:259 | insertion keeps a strictly increasing list strictly increasing |
| `HtmlGen.SortedStrings` | src/gmail_summarizer/html_generator.py:259 | the domains, each once, in increasing order |
| `HtmlGen.ParticipantDomainsSpec` | src/gmail_summarizer/html_generator.py:246-248 | a domain is gathered exactly when some participant with an `@` has it after the first `@` |
| `HtmlGen.ThreadDomainsSpec` | src/gmail_summarizer/html_generator.py:244-248 | a domain is gathered exactly when some thread has a participant with it |
| `HtmlGen.NonEmptyKeys` | src/gmail_summarizer/html_generator.py:231-233 | only listed categories appear |
| `HtmlGen.GenerateCategorySummary` | src/gmail_summarizer/html_generator.py:218-262 | one entry exactly per category with threads, in order, with its exact thread, message, important and success counts, its number of domains and its five smallest domains |
| `HtmlGen.SummarizeCategory` | src/gmail_summarizer/html_generator.py:235-260 | one category's counts and domains, as `GenerateCategorySummary` describes |
| `HtmlGen.CollectDomains` | src/gmail_summarizer/html_generator.py:244-248 | the loops gather exactly the participants' domains |
| `ImapClient.ThreadKey` | src/gmail_summarizer/imap_gmail_client.py:143 | "thread_" followed by the message id |
| `ImapClient.ThreadKeyInjective` | src/gmail_summarizer/imap_gmail_client.py:143 | different message ids give different thread keys |
| `ImapClient.ThreadKeys` | src/gmail_summarizer/imap_gmail_client.py:142-144 | one key per message id, in order |
| `ImapClient.Occurrences` | src/gmail_summarizer/imap_gmail_client.py:142-144 | the ids grouped under one key are all equal to it |
| `ImapClient.GroupedKeys` | src/gmail_summarizer/imap_gmail_client.py:138-145 | the groups' keys are the ids' thread keys in order of first appearance |
| `ImapClient.GroupedMembers` | src/gmail_summarizer/imap_gmail_client.py:138-145 | a thread key is present exactly when its id is among the messages |
| `ImapClient.GroupedValues` | src/gmail_summarizer/imap_gmail_client.py:138-145 | each group holds every occurrence of its id |
| `ImapClient.GroupedByThreadSpec` | src/gmail_summarizer/imap_gmail_client.py:129-145 | the fallback grouping puts each id under its own thread key, in id order |
| `ImapClient.OneThreadPerMessage` | src/gmail_summarizer/imap_gmail_client.py:140-145 | with distinct ids every message is alone in its own thread |
| `ImapClient.OccurrencesOfUnique` | src/gmail_summarizer/imap_gmail_client.py:142-144 | a unique id occurs once |
| `ImapClient.OccurrencesAbsent` | src/gmail_summarizer/imap_gmail_client.py:142-144 | an absent id occurs nowhere |
| `ImapClient.GroupMessagesByThread` | src/gmail_summarizer/imap_gmail_client.py:138-145 | the loop builds the grouping `GroupedByThreadSpec` describes |
| `ImapClient.RunEnd` | src/gmail_summarizer/imap_gmail_client.py:362 | a bare token runs to the next whitespace or the end |
| `ImapClient.QuoteFrom` | src/gmail_summarizer/imap_gmail_client.py:362 | the next double quote from a position, or none |
| `ImapClient.Tokens` | src/gmail_summarizer/imap_gmail_client.py:362 | quoted tokens hold no quote; bare tokens are non-empty runs of non-whitespace |
| `ImapClient.FindAllAsWritten` | src/gmail_summarizer/imap_gmail_client.py:362 | one part per token, the captured group: a quoted token's inside, and empty for a bare token |
| `ImapClient.FindAllIntended` | src/gmail_summarizer/imap_gmail_client.py:362-367 | one part per token, the matched text: a quoted token with its quotes, a bare token whole |
| `ImapClient.LabelsFrom` | src/gmail_summarizer/imap_gmail_client.py:364-385 | ["INBOX"] when there are no parts; otherwise one normalised label per part |
| `ImapClient.ParseLabelParts` | src/gmail_summarizer/imap_gmail_client.py:364-385 | the loop builds the labels `LabelsFrom` describes |
| `ImapClient.ParseGmailLabelsAsWritten` | src/gmail_summarizer/imap_gmail_client.py:359-385 | the labels the code as written returns |
| `ImapClient.ParseGmailLabels` | src/gmail_summarizer/imap_gmail_client.py:359-385 | the labels with every token read whole |
| `ImapClient.SystemLabelsNamed` | src/gmail_summarizer/imap_gmail_client.py:372-381 | the seven system labels map to INBOX, SENT, DRAFT, SPAM, TRASH, IMPORTANT and STARRED |
| `ImapClient.OtherLabels` | src/gmail_summarizer/imap_gmail_client.py:370-383 | any other backslash label loses its backslash, and a plain label is kept |
| `ImapClient.QuotedLikeBare` | src/gmail_summarizer/imap_gmail_client.py:366-367 | a quoted label, its quotes removed, normalises like its inside |
| `ImapClient.AsWrittenDropsBareLabels` | src/gmail_summarizer/imap_gmail_client.py:362-385 | as written, every bare token becomes an empty label |
| `ImapClient.IntendedLabels` | src/gmail_summarizer/imap_gmail_client.py:362-385 | read whole, bare and quoted tokens alike become their normalised labels |
| `ImapClient.InboxTokens` | src/gmail_summarizer/imap_gmail_client.py:362 | `\Inbox` is one bare token |
| `ImapClient.AsWrittenInbox` | src/gmail_summarizer/imap_gmail_client.py:362-385 | as written, `\Inbox` gives [""] |
| `ImapClient.IntendedInbox` | src/gmail_summarizer/imap_gmail_client.py:362-385 | read whole, `\Inbox` gives ["INBOX"] |
| `ImapClient.CollapseSpaces` | src/gmail_summarizer/imap_gmail_client.py:443 | collapsing never lengthens the text and keeps a non-space first character |
| `ImapClient.CollapsedSpaces` | src/gmail_summarizer/imap_gmail_client.py:443 | after collapsing every whitespace is a single space |
| `ImapClient.CollapseKeepsText` | src/gmail_summarizer/imap_gmail_client.py:443 | collapsing keeps every non-space character, in order |
| `ImapClient.CollapseSpacesLast` | src/gmail_summarizer/imap_gmail_client.py:443 | a text ending in a non-space still does after collapsing |
| `ImapClient.NonSpace` | src/gmail_summarizer/imap_gmail_client.py:443 | the non-space characters never outnumber the text |
| `ImapClient.NonSpaceLStrip` | src/gmail_summarizer/imap_gmail_client.py:443 | stripping on the left keeps the non-space characters |
| `ImapClient.NonSpaceRStrip` | src/gmail_summarizer/imap_gmail_client.py:443 | stripping on the right keeps the non-space characters |
| `ImapClient.NonSpaceStrip` | src/gmail_summarizer/imap_gmail_client.py:443 | stripping keeps the non-space characters |
| `ImapClient.NonSpaceSnoc` | src/gmail_summarizer/imap_gmail_client.py:443 | one more character adds itself unless it is whitespace |
| `ImapClient.BeforeLastSpace` | src/gmail_summarizer/imap_gmail_client.py:447 | the text before its last space, or all of it when there is none |
| `ImapClient.CreateSnippet` | src/gmail_summarizer/imap_gmail_client.py:439-440 | an empty body gives an empty snippet |
| `ImapClient.SnippetText` | src/gmail_summarizer/imap_gmail_client.py:443 | the cleaned text has single spaces, no whitespace at either end, and the body's non-space characters |
| `ImapClient.CreateSnippetSpec` | src/gmail_summarizer/imap_gmail_client.py:429-449 | the cleaned text when short enough; otherwise a prefix of it cut at the limit or at a space, then "..." |
| `ImapClient.SplitHeaderBody` | src/gmail_summarizer/imap_gmail_client.py:276-283 | without a blank line the whole response is the header and the body is empty; otherwise header, separator and body rebuild the response, split at the first blank line |
| `ImapClient.ParserInput` | src/gmail_summarizer/imap_gmail_client.py:286 | the text handed to the email library is the response, with the separator added when it had none |
| `ImapClient.DefaultMessage` | src/gmail_summarizer/imap_gmail_client.py:250-262 | a message starts with its id, its own thread, the inbox label and empty text fields |
| `ImapClient.ParseMessageResponse` | src/gmail_summarizer/imap_gmail_client.py:239-321 | the fields come from the email library's reading of the split response, the snippet from the body, and the labels (read by the corrected label parser) and thread id from the first response line when it has them, else the defaults |
| `ImapClient.GetThreadMessages` | src/gmail_summarizer/imap_gmail_client.py:478-487 | the thread's messages, or none |
| `GmailClient.Names` | src/gmail_summarizer/gmail_client.py:158-160 | the header names in payload order |
| `GmailClient.HeaderMapKeys` | src/gmail_summarizer/gmail_client.py:158-160 | the header map holds exactly the header names, in order of first appearance |
| `GmailClient.HeaderLookup` | src/gmail_summarizer/gmail_client.py:158-160 | a name maps to the value of its last occurrence, or to nothing when absent |
| `GmailClient.BodyText` | src/gmail_summarizer/gmail_client.py:179-223 | the assembled body has no whitespace at either end |
| `GmailClient.ExtractBody` | src/gmail_summarizer/gmail_client.py:179-223 | the recursive loop over the parts assembles the body `BodyText` describes |
| `GmailClient.DataIgnoresParts` | src/gmail_summarizer/gmail_client.py:190-195 | a payload with body data is decoded and its parts are ignored |
| `GmailClient.FoldPartsGrows` | src/gmail_summarizer/gmail_client.py:198-221 | the body only grows as the parts are visited |
| `GmailClient.HtmlAfterText` | src/gmail_summarizer/gmail_client.py:207-221 | once plain text was found, a later HTML part no longer replaces the body; with a `parts` key it appends its whole extracted body, which is its own decoded data when it has some, and without one it adds nothing |
| `GmailClient.Decoded` | src/gmail_summarizer/gmail_client.py:204 | each part's data decoded, in order |
| `GmailClient.PlainPartsFold` | src/gmail_summarizer/gmail_client.py:198-206 | plain parts are appended in order |
| `GmailClient.PlainPartsJoined` | src/gmail_summarizer/gmail_client.py:197-223 | a payload of plain parts gives their decoded texts concatenated, then stripped |
| `GmailClient.MessageData` | src/gmail_summarizer/gmail_client.py:149-177 | the header map's names, Subject/From/To/Date or "" when absent, labels defaulting to none, snippet to "", and the assembled body |
| `GmailClient.GetThreadMessages` | src/gmail_summarizer/gmail_client.py:225-240 | one extracted message per message, in order |
| `PyStr.LStripBySpec` | src/gmail_summarizer/config_models.py:128 | left stripping removes exactly the longest prefix of removable characters |
| `PyStr.RStripBySpec` | src/gmail_summarizer/config_models.py:136 | right stripping removes exactly the longest suffix of removable characters |
| `PyStr.StripBySpec` | src/gmail_summarizer/thread_processor.py:305 | a stripped string has no removable character at either end |
| `PyStr.StripByIdempotent` | src/gmail_summarizer/config_models.py:130 | stripping twice is stripping once |
| `PyStr.StripByNothing` | src/gmail_summarizer/thread_processor.py:438 | a string without removable characters is unchanged |
| `PyStr.StripByEnds` | src/gmail_summarizer/thread_processor.py:449 | a string with kept characters at both ends is unchanged |
| `PyStr.Find` | src/gmail_summarizer/imap_gmail_client.py:277 | the first index where the piece occurs, or -1 exactly when it does not |
| `PyStr.FindFrom` | src/gmail_summarizer/imap_gmail_client.py:277 | the first occurrence from a position on, or -1 |
| `PyStr.RFind` | src/gmail_summarizer/html_generator.py:61-62 | the last index where the piece occurs, or -1 exactly when it does not |
| `PyStr.RFindBelow` | src/gmail_summarizer/html_generator.py:61-62 | the last occurrence below a position, or -1 |
| `PyStr.RFindChar` | src/gmail_summarizer/html_generator.py:61-62 | for one character, -1 exactly when absent, else its last position |
| `PyStr.FindChar` | src/gmail_summarizer/html_generator.py:71 | for one character, -1 exactly when absent, else its first position |
| `PyStr.OccursAtChar` | src/gmail_summarizer/html_generator.py:61-62 | a one-character piece occurs exactly where the character is |
| `PyStr.SliceIndex` | src/gmail_summarizer/html_generator.py:64 | Python's reading of a slice bound: negative counts from the end, and out of range is clamped |
| `PyStr.Slice` | src/gmail_summarizer/html_generator.py:64 | in-range bounds give the plain slice; reversed bounds give the empty string |
| `PyStr.Prefix` | src/gmail_summarizer/html_generator.py:55 | `s[:stop]` with Python's rules for negative and large bounds |
| `PyStr.Split` | src/gmail_summarizer/thread_processor.py:304 | at least one piece, none containing the separator |
| `PyStr.SplitNoSep` | src/gmail_summarizer/html_generator.py:70-72 | without the separator the split is the whole string |
| `PyStr.SplitAt` | src/gmail_summarizer/html_generator.py:71 | splitting at the first separator gives the part before it, then the split of the rest |
| `PyStr.JoinSplit` | src/gmail_summarizer/thread_processor.py:304 | joining the pieces with the separator gives the string back |
| `PyStr.SplitHead` | src/gmail_summarizer/html_generator.py:71 | the first piece is a prefix ending at the first separator or the end |
| `PyStr.SplitAtFirst` | src/gmail_summarizer/html_generator.py:71 | with a separator present, the split is the text before its first occurrence, then the rest split |
| `PyStr.AsciiLower` | src/gmail_summarizer/thread_processor.py:182 | each ASCII capital becomes its small letter, and every other character is kept |
| `PyStr.Decimal` | src/gmail_summarizer/llm_summarizer.py:102 | a non-empty run of decimal digits |
| `PyStr.DigitsValueDecimal` | src/gmail_summarizer/llm_summarizer.py:102 | the digits read back to the number |
| `PyStr.UnderscoredDigits` | src/gmail_summarizer/thread_processor.py:327 | digits with single underscores between them give the digits |
| `PyStr.UnderscoredDigitsPlain` | src/gmail_summarizer/thread_processor.py:327 | plain digits are accepted as they are |
| `PyStr.ParseInt` | src/gmail_summarizer/thread_processor.py:327 | a parsed integer comes from non-blank text |
| `PyStr.ParseDecimal` | src/gmail_summarizer/thread_processor.py:327 | `int(str(n))` is n |

## Left out

- Network and mailbox I/O: IMAP login, search and fetch, the Gmail API, OAuth and pagination. The model starts from the fetched records.
- The command-line model's process: the subprocess, its timeout and `test_cli_connection`. The call is a function from the full prompt to an outcome. `_call_claude_cli` re-raises a timeout or failure with its own text as the output, and that text does not reach `str(e)`; the model keeps the outcome's message.
- The worker pool and its locking: tasks complete one at a time, in an arbitrary order given as a permutation.
- Regular expressions (`re.search`, `re.compile`, the `X-GM-LABELS` and `X-GM-THRID` extraction), `parsedate_to_datetime`, the base64url decoder, header decoding and MIME parsing. Each is a function parameter.
- SHA-256: a digest carries the text it hashes, so equal digests mean equal texts. This is the collision freedom the cache assumes. The 64-hex-digit rendering is not modelled.
- The JSON files of the cache: saving, loading, `get_cache_stats` and deleting files on clear. Loading is modelled only as its three outcomes.
- The clock: `now` and the write times are integer parameters. `time.time()` returns a float.
- Floats: the success rate is a Dafny `real`. `avg_messages_per_thread` and `format_date` are not modelled.
- Jinja2 templates, markdown, CSS, logging, the command-line interface in `main.py` and the keychain wrapper.
- The Gmail-extension path of `_group_messages_by_thread`: it fetches each message's thread id from the server.
- pydantic's own behaviour: type coercion, and the exact wording and order of its error messages. Validation errors are lists of strings whose content is only partly fixed.
- `ThreadProcessor.ExtractParticipants` returns the participants in order of first appearance. The source returns `list(set(...))`, whose order is arbitrary, so only the membership and the absence of repeats are promised.
- `ThreadProcessor.MostRecentDate` reads `internal_date` with a model of `int()` that accepts ASCII digits only. Other Unicode digits are not read, and date headers go through the parser parameter.
- `PyStr.AsciiLower` lowers ASCII letters only. The only non-ASCII character that Python's `lower()` maps to ASCII is the Kelvin sign, and no `is:` shorthand contains `k`, so the lookup behaves the same.
- `Summarizer.TruncateContentSpec` describes a cut only for budgets of at least 25 tokens. Below that, Python counts the slice from the end. `TruncateContentIfNeeded` follows those slice rules but no property is stated for them.
- `Caching.CacheManager.IsThreadCached` states only the absent-id case and the need for a stored hash in its own contract. The full condition is `Caching.CachedExactlyForSameContent`.
- Messages always carry every field, as both mail clients fill them in. A key missing from a message dict, which `.get` would read as a default, is not modelled; the thread subject's "No Subject" is the exception.
- The IMAP fetch items keep only the shapes the code distinguishes: a pair, raw bytes, or anything else. A tuple of another length counts as anything else.
- A Gmail message without `id`, `threadId` or `internalDate` would give `None` in Python. The model reads each as an empty string.
- The raw `headers` dict of an IMAP message is a map without order.
- The prompt-aware cache pair is an extension beside the cache's own two-argument operations. The appended prompt line is the model's choice.
- `ImapClient.ParseMessageResponse` reads the labels with the corrected parser `ImapClient.ParseGmailLabels`. The code as written calls the parser of "## Findings", which turns every unquoted label such as `\Inbox` or `\Important` into "". For the labels of such a message the model therefore gives the intended labels, not the ones the code returns.

## Findings

| source | as written | input that shows it | evidently intended | confidence | as-written member | corrected member |
|---|---|---|---|---|---|---|
| src/gmail_summarizer/imap_gmail_client.py:362-385 | `re.findall` with one capture group returns that group for every match, so an unquoted token such as `\Inbox` contributes `""` and is never mapped to a system label | labels text `\Inbox` gives `[""]` | `["INBOX"]`, each token read whole and normalised | not executed | `ImapClient.AsWrittenInbox` | `ImapClient.IntendedInbox` |
| src/gmail_summarizer/llm_summarizer.py:265-267 | `is_thread_cached(thread_id, messages, prompt)` is called with a prompt, but `CacheManager.is_thread_cached` (cache_manager.py:123) takes only the id and the messages, so the call raises `TypeError` outside any `try` | a cache manager and one category with one thread | prompt-aware probing and writing, as the cache's tests of prompts expect | not executed | `Summarizer.BuildTasksAsWritten` | `Summarizer.SummarizeThreadsParallel` |
