/**
 * The records that flow through the program: a thread's messages as the mailbox clients
 * produce them, the category entries of the configuration, the enriched thread the
 * classifier builds, and the summarised thread the summariser returns.
 */
module Records {
  import opened Common

  /**
   * The prompt used wherever a category has none. (Written as two literals so that the
   * verifier can read its first character without unfolding the whole literal.)
   */
  const DefaultSummaryPrompt: string := "Provide a brief summary" + " of this email thread."

  /**
   * A message, with the keys both mailbox clients always fill in: `id`, `thread_id`,
   * `label_ids`, `snippet`, `internal_date`, `headers`, `subject`, `from` (here `sender`),
   * `to` (here `recipients`), `date` and `body`. An `internal_date` the Gmail API leaves out
   * is the empty string here; every reader treats it as absent in both cases.
   */
  datatype Message = Message(
    id: string,
    threadId: string,
    labelIds: seq<string>,
    snippet: string,
    internalDate: string,
    headers: map<string, string>,
    subject: string,
    sender: string,
    recipients: string,
    date: string,
    body: string)

  /** A thread object; the core reads nothing of it but its `id`. */
  datatype Thread = Thread(id: string)

  /**
   * The `criteria` mapping of a category entry. Each group may be absent. Only `labels` is
   * ever consulted when classifying; the other groups are carried but never read.
   */
  datatype Criteria = Criteria(
    labels: Option<seq<string>>,
    fromPatterns: Option<seq<string>>,
    toPatterns: Option<seq<string>>,
    subjectPatterns: Option<seq<string>>,
    contentPatterns: Option<seq<string>>,
    headers: Option<map<string, string>>)

  /** A criteria mapping with no keys at all: `{}`. */
  function NoCriteria(): Criteria {
    Criteria(None, None, None, None, None, None)
  }

  /** A category entry of the configuration: `name` is required, the other keys may be absent. */
  datatype Category = Category(
    name: string,
    order: Option<int>,
    criteria: Option<Criteria>,
    summaryPrompt: Option<string>)

  /** The names of a category list, in order. */
  function CategoryNames(categories: seq<Category>): (names: seq<string>)
    ensures |names| == |categories| && forall i :: 0 <= i < |categories| ==> names[i] == categories[i].name
  {
    seq(|categories|, i requires 0 <= i < |categories| => categories[i].name)
  }

  /** The record the classifier builds for a thread it has placed in a category. */
  datatype EnrichedThread = EnrichedThread(
    thread: Thread,
    messages: seq<Message>,
    category: Category,
    hasImportantSender: bool,
    subject: string,
    participants: seq<string>,
    messageCount: nat,
    mostRecentDate: int,
    gmailUrl: string)

  /** An enriched thread with the three keys the summariser adds. */
  datatype SummarizedThread = SummarizedThread(
    data: EnrichedThread,
    summary: string,
    summaryGenerated: bool,
    summaryError: Option<string>)
}
