/**
 * The configuration getters of src/gmail_summarizer/config.py: settings sections read with
 * defaults, the category list sorted by `order`, and the built-in default categories.
 */
module Config {
  import opened Common
  import opened Records
  import opened StableSort

  /** A settings value as YAML delivers it. */
  datatype Value = Null | Int(i: int) | Str(s: string) | Strs(items: seq<string>)

  type Section = map<string, Value>

  /** The settings file: named sections of key/value pairs. */
  type Settings = map<string, Section>

  /** `settings.get(name, {})` */
  function GetSection(settings: Settings, name: string): (r: Section)
    ensures name !in settings ==> r == map[]
    ensures name in settings ==> r == settings[name]
  {
    if name in settings then settings[name] else map[]
  }

  function GetGmailConfig(settings: Settings): Section { GetSection(settings, "gmail") }
  function GetClaudeConfig(settings: Settings): Section { GetSection(settings, "claude") }
  function GetHighlightingConfig(settings: Settings): Section { GetSection(settings, "highlighting") }
  function GetOutputConfig(settings: Settings): Section { GetSection(settings, "output") }

  /** `section.get(key, default)` */
  function GetOr(section: Section, key: string, default: Value): (r: Value)
    ensures key in section ==> r == section[key]
    ensures key !in section ==> r == default
  {
    if key in section then section[key] else default
  }

  /** The important-sender patterns, `[]` when not configured. */
  function GetImportantSenders(settings: Settings): (r: Value)
    ensures "highlighting" !in settings ==> r == Strs([])
    ensures "highlighting" in settings && "important_senders" !in settings["highlighting"] ==> r == Strs([])
    ensures "highlighting" in settings && "important_senders" in settings["highlighting"]
      ==> r == settings["highlighting"]["important_senders"]
  {
    GetOr(GetHighlightingConfig(settings), "important_senders", Strs([]))
  }

  /** The per-category cap, 50 when not configured. */
  function GetMaxThreadsPerCategory(settings: Settings): (r: Value)
    ensures "output" !in settings ==> r == Int(50)
    ensures "output" in settings && "max_threads_per_category" !in settings["output"] ==> r == Int(50)
    ensures "output" in settings && "max_threads_per_category" in settings["output"]
      ==> r == settings["output"]["max_threads_per_category"]
  {
    GetOr(GetOutputConfig(settings), "max_threads_per_category", Int(50))
  }

  /** The report file name, `inbox_summary.html` when not configured. */
  function GetOutputFilename(settings: Settings): (r: Value)
    ensures "output" !in settings ==> r == Str("inbox_summary.html")
    ensures "output" in settings && "filename" !in settings["output"] ==> r == Str("inbox_summary.html")
    ensures "output" in settings && "filename" in settings["output"] ==> r == settings["output"]["filename"]
  {
    GetOr(GetOutputConfig(settings), "filename", Str("inbox_summary.html"))
  }

  /** The sort key of a category: its `order`, 999 when absent. */
  function OrderKey(c: Category): Key {
    (c.order.GetOr(999), 0)
  }

  /** `sorted(categories, key=lambda x: x.get("order", 999))` */
  function GetCategories(categories: seq<Category>): seq<Category> {
    SortByKey(categories, OrderKey)
  }

  /**
   * The categories come back as a permutation of the configured list, ordered by `order`
   * (999 when absent), with categories of equal order in the order they were configured.
   */
  lemma GetCategoriesSpec(categories: seq<Category>, order: int)
    ensures multiset(GetCategories(categories)) == multiset(categories)
    ensures forall i, j :: 0 <= i < j < |categories| ==>
      GetCategories(categories)[i].order.GetOr(999) <= GetCategories(categories)[j].order.GetOr(999)
    ensures WithKey(GetCategories(categories), OrderKey, (order, 0)) == WithKey(categories, OrderKey, (order, 0))
  {
    SortPermutation(categories, OrderKey);
    SortSorted(categories, OrderKey);
    SortStable(categories, OrderKey, (order, 0));
  }

  /** The summary prompts of the built-in categories. */
  const ImportantPrompt: string := "Summarize this important email thread, highlighting key action items and decisions."
  const JiraPrompt: string := "Summarize this Jira ticket thread, focusing on status changes, assignments, and key updates."
  const CodeReviewPrompt: string := "Summarize this code review thread, noting merge status, feedback, and any blocking issues."
  const MailingListPrompt: string := "Summarize this mailing list discussion, highlighting main topics and conclusions."

  /** The category list written when no category file exists. */
  function DefaultCategories(): seq<Category> {
    [
      Category("Important Messages", Some(1),
        Some(Criteria(Some(["IMPORTANT"]), None, None, None, None, None)),
        Some(ImportantPrompt)),
      Category("Jira Updates", Some(2),
        Some(Criteria(None, Some([".*@atlassian\\.net", "jira@.*"]), None, Some(["\\[JIRA\\]", "\\[.*-\\d+\\]"]), None, None)),
        Some(JiraPrompt)),
      Category("Code Reviews", Some(3),
        Some(Criteria(None, Some(["noreply@github\\.com", "gitlab@.*"]), None, Some(["\\[.*\\] Pull Request", "Merge Request"]), None, None)),
        Some(CodeReviewPrompt)),
      Category("Mailing Lists", Some(4),
        Some(Criteria(None, None, Some([".*@lists\\.", ".*@groups\\."]), None, None, Some(map["List-Id" := ".*"]))),
        Some(MailingListPrompt)),
      Category("Everything Else", Some(999), Some(NoCriteria()), Some(DefaultSummaryPrompt))
    ]
  }

  /**
   * The default list is already in `order` order, so sorting leaves it as it is and
   * "Everything Else", with order 999 and empty criteria, comes last.
   */
  lemma DefaultCategoriesSorted()
    ensures GetCategories(DefaultCategories()) == DefaultCategories()
    ensures var cs := GetCategories(DefaultCategories());
      && |cs| == 5
      && cs[4].name == "Everything Else" && cs[4].order == Some(999) && cs[4].criteria == Some(NoCriteria())
  {
    var cs := DefaultCategories();
    assert Sorted(cs, OrderKey);
    SortOfSorted(cs, OrderKey);
  }
}
