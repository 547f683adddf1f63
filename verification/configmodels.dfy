/**
 * The validated configuration of src/gmail_summarizer/config_models.py. Each model is built
 * from its raw form (what the YAML file gives, every key optional) by a function that either
 * returns the validated value or the list of validation messages, field by field, as the
 * model library collects them. `re.compile` is a parameter: it gives `None` when a pattern
 * compiles and the error text when it does not.
 */
module ConfigModels {
  import opened Common
  import opened PyStr
  import Records

  /** `re.compile(pattern)`: `None` when it compiles, else the text of the `re.error`. */
  type RegexCheck = string -> Option<string>

  datatype GmailConfig = GmailConfig(emailAddress: string, password: Option<string>, imapServer: string, imapPort: int)

  datatype ClaudeConfig = ClaudeConfig(cliPath: string, timeout: int, concurrency: int)

  datatype CategoryCriteria = CategoryCriteria(
    fromPatterns: seq<string>,
    toPatterns: seq<string>,
    subjectPatterns: seq<string>,
    contentPatterns: seq<string>,
    headers: seq<(string, string)>,
    labels: seq<string>)

  datatype CategoryConfig = CategoryConfig(name: string, summaryPrompt: string, criteria: CategoryCriteria)

  datatype AppConfig = AppConfig(
    gmail: GmailConfig,
    claude: ClaudeConfig,
    categories: seq<CategoryConfig>,
    importantSenders: seq<string>,
    outputFile: string,
    maxThreadsPerCategory: Option<int>)

  // ---- Raw input: every key may be missing ----

  datatype RawGmail = RawGmail(emailAddress: Option<string>, password: Option<string>, imapServer: Option<string>, imapPort: Option<int>)

  datatype RawClaude = RawClaude(cliPath: Option<string>, timeout: Option<int>, concurrency: Option<int>)

  datatype RawCriteria = RawCriteria(
    fromPatterns: Option<seq<string>>,
    toPatterns: Option<seq<string>>,
    subjectPatterns: Option<seq<string>>,
    contentPatterns: Option<seq<string>>,
    headers: Option<seq<(string, string)>>,
    labels: Option<seq<string>>)

  datatype RawCategory = RawCategory(name: Option<string>, summaryPrompt: Option<string>, criteria: Option<RawCriteria>)

  /**
   * The top-level mapping. `maxThreadsPerCategory` is `None` both when the key is missing and
   * when it is null; `unknownKeys` lists the keys that name no field.
   */
  datatype RawAppConfig = RawAppConfig(
    gmail: Option<RawGmail>,
    claude: Option<RawClaude>,
    categories: Option<seq<RawCategory>>,
    importantSenders: Option<seq<string>>,
    outputFile: Option<string>,
    maxThreadsPerCategory: Option<int>,
    unknownKeys: seq<string>)

  // ---- Validation messages ----

  const FieldRequired: string := "Field required"
  const InvalidEmail: string := "Invalid email address format"
  const InvalidPort: string := "IMAP port must be between 1 and 65535"
  const InvalidTimeout: string := "Timeout must be between 1 and 600 seconds"
  const InvalidConcurrency: string := "Concurrency must be between 1 and 20"
  const EmptyName: string := "Category name cannot be empty"
  const EmptyPrompt: string := "Summary prompt cannot be empty"
  const InvalidMaxThreads: string := "max_threads_per_category must be between 1 and 1000, or None for unlimited"
  const DuplicateNames: string := "Category names must be unique"

  /** The messages of a failed field, none for a valid one. */
  function FieldErrors<T>(r: Result<T, string>): (errs: seq<string>)
    ensures |errs| == (if r.Err? then 1 else 0)
  {
    if r.Err? then [r.error] else []
  }

  function ModelErrors<T>(r: Result<T, seq<string>>): seq<string> {
    if r.Err? then r.error else []
  }

  /** A required key that is missing. */
  function Required<T>(v: Option<T>, check: T -> Result<T, string>): Result<T, string> {
    match v
    case None => Err(FieldRequired)
    case Some(x) => check(x)
  }

  // ---- Field validators ----

  /** `validate_email` */
  function ValidateEmail(v: string): (r: Result<string, string>)
    ensures r.Ok? <==> v != [] && '@' in v
    ensures r.Ok? ==> r.value == v
    ensures r.Err? ==> r.error == InvalidEmail
  {
    if v == [] || '@' !in v then Err(InvalidEmail) else Ok(v)
  }

  /** `validate_port` */
  function ValidatePort(v: int): (r: Result<int, string>)
    ensures r.Ok? <==> 1 <= v <= 65535
    ensures r.Ok? ==> r.value == v
    ensures r.Err? ==> r.error == InvalidPort
  {
    if 1 <= v <= 65535 then Ok(v) else Err(InvalidPort)
  }

  /** `validate_timeout` */
  function ValidateTimeout(v: int): (r: Result<int, string>)
    ensures r.Ok? <==> 1 <= v <= 600
    ensures r.Ok? ==> r.value == v
    ensures r.Err? ==> r.error == InvalidTimeout
  {
    if 1 <= v <= 600 then Ok(v) else Err(InvalidTimeout)
  }

  /** `validate_concurrency` */
  function ValidateConcurrency(v: int): (r: Result<int, string>)
    ensures r.Ok? <==> 1 <= v <= 20
    ensures r.Ok? ==> r.value == v
    ensures r.Err? ==> r.error == InvalidConcurrency
  {
    if 1 <= v <= 20 then Ok(v) else Err(InvalidConcurrency)
  }

  /** `validate_name`: the name is kept stripped, and must not strip to nothing. */
  function ValidateName(v: string): (r: Result<string, string>)
    ensures r.Ok? <==> Strip(v) != []
    ensures r.Ok? ==> r.value == Strip(v)
    ensures r.Err? ==> r.error == EmptyName
  {
    if Strip(v) == [] then Err(EmptyName) else Ok(Strip(v))
  }

  /** `validate_prompt` */
  function ValidatePrompt(v: string): (r: Result<string, string>)
    ensures r.Ok? <==> Strip(v) != []
    ensures r.Ok? ==> r.value == Strip(v)
    ensures r.Err? ==> r.error == EmptyPrompt
  {
    if Strip(v) == [] then Err(EmptyPrompt) else Ok(Strip(v))
  }

  /** `validate_max_threads`: unlimited, or between 1 and 1000. */
  function ValidateMaxThreads(v: Option<int>): (r: Result<Option<int>, string>)
    ensures r.Ok? <==> v.None? || 1 <= v.value <= 1000
    ensures r.Ok? ==> r.value == v
    ensures r.Err? ==> r.error == InvalidMaxThreads
  {
    if v.None? || 1 <= v.value <= 1000 then Ok(v)
    else Err(InvalidMaxThreads)
  }

  predicate PatternsCompile(ps: seq<string>, compile: RegexCheck) {
    forall i :: 0 <= i < |ps| ==> compile(ps[i]).None?
  }

  /** `ps[i]` is the first pattern that does not compile. */
  predicate FirstBadPattern(ps: seq<string>, compile: RegexCheck, i: int) {
    0 <= i < |ps| && compile(ps[i]).Some? && PatternsCompile(ps[..i], compile)
  }

  /**
   * `validate_regex_patterns` and `validate_sender_patterns`: every pattern must compile; the
   * first one that does not is reported with `what` (`regex` or `sender`) and the error text.
   */
  function ValidatePatterns(ps: seq<string>, compile: RegexCheck, what: string): (r: Result<seq<string>, string>)
    ensures r.Ok? <==> PatternsCompile(ps, compile)
    ensures r.Ok? ==> r.value == ps
    ensures r.Err? ==> exists i :: FirstBadPattern(ps, compile, i) && r.error == "Invalid " + what + " pattern '" + ps[i] + "': " + compile(ps[i]).value
  {
    if ps == [] then Ok([])
    else if compile(ps[0]).Some? then
      assert PatternsCompile(ps[..0], compile);
      Err("Invalid " + what + " pattern '" + ps[0] + "': " + compile(ps[0]).value)
    else
      match ValidatePatterns(ps[1..], compile, what)
      case Ok(_) => Ok(ps)
      case Err(e) =>
        assert exists i :: FirstBadPattern(ps, compile, i) && e == "Invalid " + what + " pattern '" + ps[i] + "': " + compile(ps[i]).value by {
          var j :| FirstBadPattern(ps[1..], compile, j) && e == "Invalid " + what + " pattern '" + ps[1..][j] + "': " + compile(ps[1..][j]).value;
          assert ps[..j + 1] == [ps[0]] + ps[1..][..j];
          assert FirstBadPattern(ps, compile, j + 1);
        }
        Err(e)
  }

  predicate HeadersCompile(hs: seq<(string, string)>, compile: RegexCheck) {
    forall i :: 0 <= i < |hs| ==> compile(hs[i].1).None?
  }

  /** Position i holds the first header whose pattern does not compile. */
  predicate FirstBadHeader(hs: seq<(string, string)>, compile: RegexCheck, i: int) {
    0 <= i < |hs| && compile(hs[i].1).Some? && forall k :: 0 <= k < i ==> compile(hs[k].1).None?
  }

  /** `validate_header_patterns`: the first header whose pattern does not compile is reported. */
  function ValidateHeaders(hs: seq<(string, string)>, compile: RegexCheck): (r: Result<seq<(string, string)>, string>)
    ensures r.Ok? <==> HeadersCompile(hs, compile)
    ensures r.Ok? ==> r.value == hs
    ensures r.Err? ==> exists i :: FirstBadHeader(hs, compile, i) && r.error == "Invalid regex pattern for header '" + hs[i].0 + "': " + compile(hs[i].1).value
  {
    if hs == [] then Ok([])
    else if compile(hs[0].1).Some? then
      assert FirstBadHeader(hs, compile, 0);
      Err("Invalid regex pattern for header '" + hs[0].0 + "': " + compile(hs[0].1).value)
    else
      match ValidateHeaders(hs[1..], compile)
      case Ok(_) => Ok(hs)
      case Err(e) =>
        assert exists i :: FirstBadHeader(hs, compile, i) && e == "Invalid regex pattern for header '" + hs[i].0 + "': " + compile(hs[i].1).value by {
          var j :| FirstBadHeader(hs[1..], compile, j)
            && e == "Invalid regex pattern for header '" + hs[1..][j].0 + "': " + compile(hs[1..][j].1).value;
          assert hs[1..][j] == hs[j + 1];
          assert FirstBadHeader(hs, compile, j + 1);
        }
        Err(e)
  }

  // ---- Models ----

  predicate ValidGmail(g: GmailConfig) {
    '@' in g.emailAddress && 1 <= g.imapPort <= 65535
  }

  /** `GmailConfig(**raw)`: `email_address` is required; the server and port have defaults. */
  function ValidateGmail(raw: RawGmail): (r: Result<GmailConfig, seq<string>>)
    ensures r.Ok? <==> raw.emailAddress.Some? && '@' in raw.emailAddress.value && 1 <= raw.imapPort.GetOr(993) <= 65535
    ensures r.Ok? ==> ValidGmail(r.value)
    ensures r.Ok? ==> r.value == GmailConfig(raw.emailAddress.value, raw.password, raw.imapServer.GetOr("imap.gmail.com"), raw.imapPort.GetOr(993))
    ensures r.Err? ==> r.error != []
  {
    var email := Required(raw.emailAddress, ValidateEmail);
    var port := ValidatePort(raw.imapPort.GetOr(993));
    if email.Ok? && port.Ok? then
      Ok(GmailConfig(email.value, raw.password, raw.imapServer.GetOr("imap.gmail.com"), port.value))
    else Err(FieldErrors(email) + FieldErrors(port))
  }

  predicate ValidClaude(c: ClaudeConfig) {
    1 <= c.timeout <= 600 && 1 <= c.concurrency <= 20
  }

  /** `ClaudeConfig(**raw)`: defaults `claude`, 30 seconds and 5 workers. */
  function ValidateClaude(raw: RawClaude): (r: Result<ClaudeConfig, seq<string>>)
    ensures r.Ok? <==> 1 <= raw.timeout.GetOr(30) <= 600 && 1 <= raw.concurrency.GetOr(5) <= 20
    ensures r.Ok? ==> ValidClaude(r.value)
    ensures r.Ok? ==> r.value == ClaudeConfig(raw.cliPath.GetOr("claude"), raw.timeout.GetOr(30), raw.concurrency.GetOr(5))
    ensures r.Err? ==> r.error != []
  {
    var timeout := ValidateTimeout(raw.timeout.GetOr(30));
    var concurrency := ValidateConcurrency(raw.concurrency.GetOr(5));
    if timeout.Ok? && concurrency.Ok? then Ok(ClaudeConfig(raw.cliPath.GetOr("claude"), timeout.value, concurrency.value))
    else Err(FieldErrors(timeout) + FieldErrors(concurrency))
  }

  predicate ValidCriteria(c: CategoryCriteria, compile: RegexCheck) {
    && PatternsCompile(c.fromPatterns, compile)
    && PatternsCompile(c.toPatterns, compile)
    && PatternsCompile(c.subjectPatterns, compile)
    && PatternsCompile(c.contentPatterns, compile)
    && HeadersCompile(c.headers, compile)
  }

  /** `CategoryCriteria(**raw)`: every group defaults to empty. */
  function ValidateCriteria(raw: RawCriteria, compile: RegexCheck): (r: Result<CategoryCriteria, seq<string>>)
    ensures r.Ok? <==> ValidCriteria(RawCriteriaDefaults(raw), compile)
    ensures r.Ok? ==> r.value == RawCriteriaDefaults(raw)
    ensures r.Err? ==> r.error != []
  {
    var from := ValidatePatterns(raw.fromPatterns.GetOr([]), compile, "regex");
    var to := ValidatePatterns(raw.toPatterns.GetOr([]), compile, "regex");
    var subject := ValidatePatterns(raw.subjectPatterns.GetOr([]), compile, "regex");
    var content := ValidatePatterns(raw.contentPatterns.GetOr([]), compile, "regex");
    var headers := ValidateHeaders(raw.headers.GetOr([]), compile);
    if from.Ok? && to.Ok? && subject.Ok? && content.Ok? && headers.Ok? then
      Ok(CategoryCriteria(from.value, to.value, subject.value, content.value, headers.value, raw.labels.GetOr([])))
    else
      Err(FieldErrors(from) + FieldErrors(to) + FieldErrors(subject) + FieldErrors(content) + FieldErrors(headers))
  }

  function RawCriteriaDefaults(raw: RawCriteria): CategoryCriteria {
    CategoryCriteria(raw.fromPatterns.GetOr([]), raw.toPatterns.GetOr([]), raw.subjectPatterns.GetOr([]),
      raw.contentPatterns.GetOr([]), raw.headers.GetOr([]), raw.labels.GetOr([]))
  }

  function EmptyCriteria(): CategoryCriteria {
    CategoryCriteria([], [], [], [], [], [])
  }

  /** A category as it is stored: name and prompt non-empty and already stripped. */
  predicate ValidCategory(c: CategoryConfig, compile: RegexCheck) {
    && c.name != [] && Strip(c.name) == c.name
    && c.summaryPrompt != [] && Strip(c.summaryPrompt) == c.summaryPrompt
    && ValidCriteria(c.criteria, compile)
  }

  /** `Category(**raw)`: `name` and `summary_prompt` are required, `criteria` defaults to empty. */
  function ValidateCategory(raw: RawCategory, compile: RegexCheck): (r: Result<CategoryConfig, seq<string>>)
    ensures r.Ok? <==> (raw.name.Some? && Strip(raw.name.value) != [] && raw.summaryPrompt.Some? && Strip(raw.summaryPrompt.value) != []
      && (raw.criteria.None? || ValidateCriteria(raw.criteria.value, compile).Ok?))
    ensures r.Ok? ==> r.value.name == Strip(raw.name.value) && r.value.summaryPrompt == Strip(raw.summaryPrompt.value)
    ensures r.Ok? ==> r.value.criteria == (if raw.criteria.None? then EmptyCriteria() else RawCriteriaDefaults(raw.criteria.value))
    ensures r.Ok? ==> ValidCategory(r.value, compile)
    ensures r.Err? ==> r.error != []
  {
    var name := Required(raw.name, ValidateName);
    var prompt := Required(raw.summaryPrompt, ValidatePrompt);
    var criteria := if raw.criteria.None? then Ok(EmptyCriteria()) else ValidateCriteria(raw.criteria.value, compile);
    if name.Ok? && prompt.Ok? && criteria.Ok? then
      StripByIdempotent(raw.name.value, IsSpace);
      StripByIdempotent(raw.summaryPrompt.value, IsSpace);
      Ok(CategoryConfig(name.value, prompt.value, criteria.value))
    else Err(FieldErrors(name) + FieldErrors(prompt) + ModelErrors(criteria))
  }

  /** Validates each entry of a list; the messages of all failing entries are collected. */
  function ValidateEach<R(!new), T>(raws: seq<R>, check: R -> Result<T, seq<string>>): (r: Result<seq<T>, seq<string>>)
    requires forall x :: check(x).Err? ==> check(x).error != []
    ensures r.Ok? <==> forall i :: 0 <= i < |raws| ==> check(raws[i]).Ok?
    ensures r.Ok? ==> |r.value| == |raws| && forall i :: 0 <= i < |raws| ==> r.value[i] == check(raws[i]).value
    ensures r.Err? ==> r.error != []
  {
    if raws == [] then Ok([])
    else
      var head := check(raws[0]);
      var tail := ValidateEach(raws[1..], check);
      if head.Ok? && tail.Ok? then
        assert forall i :: 1 <= i < |raws| ==> raws[i] == raws[1..][i - 1];
        Ok([head.value] + tail.value)
      else
        assert head.Ok? ==> exists i :: 0 <= i < |raws[1..]| && !check(raws[1..][i]).Ok?;
        Err(ModelErrors(head) + ModelErrors(tail))
  }

  /** The entries of the category list, each validated as a `Category`. */
  function ValidateCategoryList(raws: seq<RawCategory>, compile: RegexCheck): (r: Result<seq<CategoryConfig>, seq<string>>)
    ensures r.Ok? <==> forall i :: 0 <= i < |raws| ==> ValidateCategory(raws[i], compile).Ok?
    ensures r.Ok? ==> |r.value| == |raws| && forall i :: 0 <= i < |raws| ==> r.value[i] == ValidateCategory(raws[i], compile).value
    ensures r.Err? ==> r.error != []
  {
    ValidateEach(raws, raw => ValidateCategory(raw, compile))
  }

  function Names(cats: seq<CategoryConfig>): (names: seq<string>)
    ensures |names| == |cats| && forall i :: 0 <= i < |cats| ==> names[i] == cats[i].name
  {
    if cats == [] then [] else [cats[0].name] + Names(cats[1..])
  }

  /** `validate_categories`: the (stripped) names must be pairwise distinct. */
  function ValidateUniqueNames(cats: seq<CategoryConfig>): (r: Result<seq<CategoryConfig>, string>)
    ensures r.Ok? <==> NoDuplicates(Names(cats))
    ensures r.Ok? ==> r.value == cats
    ensures r.Err? ==> r.error == DuplicateNames
  {
    if NoDuplicates(Names(cats)) then Ok(cats) else Err(DuplicateNames)
  }

  /** The category `model_post_init` puts in place of an empty list. */
  function EverythingCategory(): CategoryConfig {
    CategoryConfig("Everything", Records.DefaultSummaryPrompt, EmptyCriteria())
  }

  /** `model_post_init`: an empty category list becomes the single catch-all "Everything". */
  function PostInit(c: AppConfig): (r: AppConfig)
    ensures c.categories == [] ==> r.categories == [EverythingCategory()]
    ensures c.categories != [] ==> r == c
    ensures r.gmail == c.gmail && r.claude == c.claude && r.importantSenders == c.importantSenders
      && r.outputFile == c.outputFile && r.maxThreadsPerCategory == c.maxThreadsPerCategory
  {
    if c.categories == [] then c.(categories := [EverythingCategory()]) else c
  }

  /** Everything a validated configuration satisfies. */
  predicate ValidAppConfig(c: AppConfig, compile: RegexCheck) {
    && ValidGmail(c.gmail)
    && ValidClaude(c.claude)
    && c.categories != []
    && (forall i :: 0 <= i < |c.categories| ==> ValidCategory(c.categories[i], compile))
    && NoDuplicates(Names(c.categories))
    && PatternsCompile(c.importantSenders, compile)
    && (c.maxThreadsPerCategory.None? || 1 <= c.maxThreadsPerCategory.value <= 1000)
  }

  /** The category list with `validate_categories` applied once every entry is valid. */
  function ValidateCategories(raws: seq<RawCategory>, compile: RegexCheck): (r: Result<seq<CategoryConfig>, seq<string>>)
    ensures r.Ok? <==> ValidateCategoryList(raws, compile).Ok? && NoDuplicates(Names(ValidateCategoryList(raws, compile).value))
    ensures r.Ok? ==> r.value == ValidateCategoryList(raws, compile).value
    ensures r.Ok? ==> forall i :: 0 <= i < |r.value| ==> ValidCategory(r.value[i], compile)
    ensures r.Err? ==> r.error != []
  {
    var list := ValidateCategoryList(raws, compile);
    if list.Err? then list
    else
      match ValidateUniqueNames(list.value)
      case Ok(cs) => Ok(cs)
      case Err(e) => Err([e])
  }

  /** One message per key that names no field: unknown keys are forbidden. */
  function ExtraErrors(keys: seq<string>): (errs: seq<string>)
    ensures |errs| == |keys|
  {
    seq(|keys|, _ => "Extra inputs are not permitted")
  }

  /** Every field of the raw configuration passes its own validator and no key is unknown. */
  predicate FieldsAccepted(raw: RawAppConfig, compile: RegexCheck) {
    && raw.gmail.Some?
    && ValidateGmail(raw.gmail.value).Ok?
    && ValidateClaude(raw.claude.GetOr(RawClaude(None, None, None))).Ok?
    && ValidateCategories(raw.categories.GetOr([]), compile).Ok?
    && ValidatePatterns(raw.importantSenders.GetOr([]), compile, "sender").Ok?
    && ValidateMaxThreads(raw.maxThreadsPerCategory).Ok?
    && raw.unknownKeys == []
  }

  /**
   * `AppConfig(**raw)`. A missing `gmail` section fails at once: its default `GmailConfig()`
   * lacks the required address. Otherwise the messages of every failing field are collected,
   * followed by one message per unknown key; a valid result gets the default category when
   * its list is empty.
   */
  function ValidateAppConfig(raw: RawAppConfig, compile: RegexCheck): (r: Result<AppConfig, seq<string>>)
    ensures r.Ok? <==> FieldsAccepted(raw, compile)
    ensures r.Ok? ==> ValidAppConfig(r.value, compile)
    ensures r.Ok? ==>
      && r.value.gmail == ValidateGmail(raw.gmail.value).value
      && r.value.claude == ValidateClaude(raw.claude.GetOr(RawClaude(None, None, None))).value
      && r.value.importantSenders == raw.importantSenders.GetOr([])
      && r.value.outputFile == raw.outputFile.GetOr("inbox_summary.html")
      && r.value.maxThreadsPerCategory == raw.maxThreadsPerCategory
      && var cats := ValidateCategories(raw.categories.GetOr([]), compile).value;
         r.value.categories == if cats == [] then [EverythingCategory()] else cats
    ensures raw.unknownKeys != [] ==> r.Err?
    ensures raw.gmail.None? ==> r == Err([FieldRequired])
    ensures r.Err? ==> r.error != []
  {
    match raw.gmail
    case None => Err([FieldRequired])
    case Some(rawGmail) =>
      var gmail := ValidateGmail(rawGmail);
      var claude := ValidateClaude(raw.claude.GetOr(RawClaude(None, None, None)));
      var categories := ValidateCategories(raw.categories.GetOr([]), compile);
      var senders := ValidatePatterns(raw.importantSenders.GetOr([]), compile, "sender");
      var maxThreads := ValidateMaxThreads(raw.maxThreadsPerCategory);
      if gmail.Ok? && claude.Ok? && categories.Ok? && senders.Ok? && maxThreads.Ok? && raw.unknownKeys == [] then
        EverythingValid(compile);
        Ok(PostInit(AppConfig(gmail.value, claude.value, categories.value, senders.value,
          raw.outputFile.GetOr("inbox_summary.html"), maxThreads.value)))
      else
        Err(ModelErrors(gmail) + ModelErrors(claude) + ModelErrors(categories)
          + FieldErrors(senders) + FieldErrors(maxThreads) + ExtraErrors(raw.unknownKeys))
  }

  lemma EverythingValid(compile: RegexCheck)
    ensures ValidCategory(EverythingCategory(), compile)
    ensures NoDuplicates(Names([EverythingCategory()]))
  {
    var c := EverythingCategory();
    var name := "Everything";
    var prompt := Records.DefaultSummaryPrompt;
    assert name[0] == 'E' && name[|name| - 1] == 'g';
    assert prompt[0] == 'P' && prompt[|prompt| - 1] == '.';
    PlainCategoryValid(c, compile);
  }

  /** A category with empty criteria whose name and prompt have no whitespace at their ends is valid. */
  lemma PlainCategoryValid(c: CategoryConfig, compile: RegexCheck)
    requires c.name != [] && !IsSpace(c.name[0]) && !IsSpace(c.name[|c.name| - 1])
    requires c.summaryPrompt != [] && !IsSpace(c.summaryPrompt[0]) && !IsSpace(c.summaryPrompt[|c.summaryPrompt| - 1])
    requires c.criteria == EmptyCriteria()
    ensures ValidCategory(c, compile)
  {
    assert Strip(c.name) == c.name by {
      StripByEnds(c.name, IsSpace);
    }
    assert Strip(c.summaryPrompt) == c.summaryPrompt by {
      StripByEnds(c.summaryPrompt, IsSpace);
    }
    assert ValidCriteria(c.criteria, compile);
  }

  // ---- Properties ----

  /** The raw form a stored configuration would be written back as. */
  function RawOf(c: AppConfig): RawAppConfig {
    RawAppConfig(
      Some(RawGmail(Some(c.gmail.emailAddress), c.gmail.password, Some(c.gmail.imapServer), Some(c.gmail.imapPort))),
      Some(RawClaude(Some(c.claude.cliPath), Some(c.claude.timeout), Some(c.claude.concurrency))),
      Some(RawCategories(c.categories)),
      Some(c.importantSenders),
      Some(c.outputFile),
      c.maxThreadsPerCategory,
      [])
  }

  function RawCategories(cats: seq<CategoryConfig>): (raws: seq<RawCategory>)
    ensures |raws| == |cats| && forall i :: 0 <= i < |cats| ==> raws[i] == RawCategoryOf(cats[i])
  {
    if cats == [] then [] else [RawCategoryOf(cats[0])] + RawCategories(cats[1..])
  }

  function RawCategoryOf(c: CategoryConfig): RawCategory {
    RawCategory(Some(c.name), Some(c.summaryPrompt), Some(RawCriteria(
      Some(c.criteria.fromPatterns), Some(c.criteria.toPatterns), Some(c.criteria.subjectPatterns),
      Some(c.criteria.contentPatterns), Some(c.criteria.headers), Some(c.criteria.labels))))
  }

  lemma ValidateCategoryOf(c: CategoryConfig, compile: RegexCheck)
    requires ValidCategory(c, compile)
    ensures ValidateCategory(RawCategoryOf(c), compile) == Ok(c)
  {
  }

  /**
   * Validation accepts exactly the valid configurations: any configuration that satisfies
   * every constraint validates, from its raw form, to itself.
   */
  lemma ValidateRawOf(c: AppConfig, compile: RegexCheck)
    requires ValidAppConfig(c, compile)
    ensures ValidateAppConfig(RawOf(c), compile) == Ok(c)
  {
    var raws := RawCategories(c.categories);
    forall i | 0 <= i < |raws|
      ensures ValidateCategory(raws[i], compile) == Ok(c.categories[i])
    {
      ValidateCategoryOf(c.categories[i], compile);
    }
    assert ValidateCategoryList(raws, compile).value == c.categories;
  }

  /** An empty or missing category list becomes exactly the one "Everything" category. */
  lemma DefaultCategoryWhenEmpty(raw: RawAppConfig, compile: RegexCheck)
    requires raw.categories.GetOr([]) == []
    requires ValidateAppConfig(raw, compile).Ok?
    ensures ValidateAppConfig(raw, compile).value.categories == [EverythingCategory()]
  {
  }

  /** A non-empty category list is kept, entry by entry, as validated. */
  lemma CategoriesKept(raw: RawAppConfig, compile: RegexCheck)
    requires raw.categories.Some? && raw.categories.value != []
    requires ValidateAppConfig(raw, compile).Ok?
    ensures var cats := ValidateAppConfig(raw, compile).value.categories;
      |cats| == |raw.categories.value|
      && forall i :: 0 <= i < |cats| ==> cats[i] == ValidateCategory(raw.categories.value[i], compile).value
  {
  }
}
