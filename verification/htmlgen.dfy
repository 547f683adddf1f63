/**
 * The data side of the HTML report (src/gmail_summarizer/html_generator.py): the template
 * filters that shorten text and pick apart addresses, the context handed to the template
 * (categories in configured order, threads sorted for display, the totals) and the
 * per-category summary. Rendering, dates and the markdown filter are left out.
 */
module HtmlGen {
  import opened Common
  import opened OrderedMaps
  import opened PyStr
  import opened Records
  import opened StableSort
  import Config
  import Summarizer

  // ---- Template filters ----

  /**
   * `truncate_text`: the text itself when it fits; otherwise a prefix followed by "...",
   * of exactly `maxLength` characters when `maxLength` is at least 3. (A smaller limit makes
   * the prefix bound negative, which Python reads from the end.)
   */
  function TruncateText(text: string, maxLength: int): (r: string)
    ensures |text| <= maxLength ==> r == text
    ensures |text| > maxLength ==> 3 <= |r| <= |text| + 3 && r[|r| - 3..] == "..." && r[..|r| - 3] == text[..|r| - 3]
    ensures |text| > maxLength >= 3 ==> |r| == maxLength
  {
    if |text| <= maxLength then text else Prefix(text, maxLength - 3) + "..."
  }

  /**
   * `format_email`: for "Name <address>" the text between the last '<' and the last '>'
   * (empty when that '>' comes first); anything without both brackets is returned as it is.
   */
  function FormatEmail(email: string): (r: string)
    ensures '<' !in email || '>' !in email ==> r == email
    ensures forall i, j :: LastAt(email, '<', i) && LastAt(email, '>', j) ==>
      r == (if i < j then email[i + 1..j] else [])
    ensures '<' in email && '>' in email ==> '<' !in r
  {
    if '<' in email && '>' in email then
      var start := RFind(email, "<");
      var end := RFind(email, ">");
      RFindChar(email, '<');
      RFindChar(email, '>');
      if start != -1 && end != -1 then Slice(email, start + 1, end) else email
    else email
  }

  /** r is the field of s after its first '@', up to the next '@' or the end. */
  predicate FieldAfterAt(s: string, i: int, r: string) {
    && FirstAt(s, '@', i)
    && i + 1 + |r| <= |s| && s[i + 1..i + 1 + |r|] == r
    && (i + 1 + |r| == |s| || s[i + 1 + |r|] == '@')
  }

  /** `s.split("@")[1]`: the field after the first '@'. */
  function SecondField(s: string): (r: string)
    requires '@' in s
    ensures '@' !in r
    ensures exists i :: FieldAfterAt(s, i, r)
  {
    SplitAtFirst(s, '@');
    FindChar(s, '@');
    var i := Find(s, "@");
    var rest := s[i + 1..];
    SplitHead(rest, '@');
    var h := Split(rest, '@')[0];
    assert s[i + 1..i + 1 + |h|] == rest[..|h|];
    assert FieldAfterAt(s, i, h);
    Split(s, '@')[1]
  }

  /**
   * `domain_from_email`: the field after the first '@' of the formatted address, or the
   * formatted address itself when it has no '@'.
   */
  function DomainFromEmail(email: string): (r: string)
    ensures '@' !in FormatEmail(email) ==> r == FormatEmail(email)
    ensures '@' in FormatEmail(email) ==> '@' !in r && exists i :: FieldAfterAt(FormatEmail(email), i, r)
  {
    var cleanEmail := FormatEmail(email);
    if '@' in cleanEmail then SecondField(cleanEmail) else cleanEmail
  }

  // ---- Template context ----

  /** The display order key: important senders first (`not important` is False), then newest first. */
  function ReportKey(t: SummarizedThread): Key {
    (if t.data.hasImportantSender then 0 else 1, -t.data.mostRecentDate)
  }

  /**
   * A category's threads as the report shows them: a reordering of the threads in which
   * important senders come first, newer threads come before older ones among equally
   * important threads, and threads that tie on both keep their order.
   */
  lemma ReportOrder(threads: seq<SummarizedThread>, k: Key)
    ensures var r := SortByKey(threads, ReportKey);
      && multiset(r) == multiset(threads)
      && (forall i, j :: 0 <= i < j < |r| ==> r[i].data.hasImportantSender || !r[j].data.hasImportantSender)
      && (forall i, j :: 0 <= i < j < |r| && r[i].data.hasImportantSender == r[j].data.hasImportantSender
            ==> r[i].data.mostRecentDate >= r[j].data.mostRecentDate)
      && WithKey(r, ReportKey, k) == WithKey(threads, ReportKey, k)
  {
    SortPermutation(threads, ReportKey);
    SortSorted(threads, ReportKey);
    SortStable(threads, ReportKey, k);
  }

  /** The category has threads to show. */
  predicate HasThreads(summarized: OrderedMap<string, seq<SummarizedThread>>, name: string) {
    name in summarized.values && summarized.values[name] != []
  }

  /** The names, in order, of the categories that have threads. */
  function Included(names: seq<string>, summarized: OrderedMap<string, seq<SummarizedThread>>): (r: seq<string>)
    ensures forall n :: n in r <==> n in names && HasThreads(summarized, n)
  {
    if names == [] then []
    else
      var prefix := Included(names[..|names| - 1], summarized);
      var name := names[|names| - 1];
      assert forall n :: n in names <==> n in names[..|names| - 1] || n == name;
      if HasThreads(summarized, name) then prefix + [name] else prefix
  }

  /** `sorted_threads` once the given names have been visited. */
  function ContextThreads(names: seq<string>, summarized: OrderedMap<string, seq<SummarizedThread>>)
    : OrderedMap<string, seq<SummarizedThread>>
  {
    if names == [] then Empty()
    else
      var sortedThreads := ContextThreads(names[..|names| - 1], summarized);
      var name := names[|names| - 1];
      if HasThreads(summarized, name) then Put(sortedThreads, name, SortByKey(summarized.values[name], ReportKey))
      else sortedThreads
  }

  /**
   * The report lists, in configured order and each once, exactly the configured categories
   * that have threads; under each, its threads in display order.
   */
  lemma {:induction false} ContextThreadsSpec(names: seq<string>, summarized: OrderedMap<string, seq<SummarizedThread>>)
    ensures var r := ContextThreads(names, summarized);
      && Valid(r)
      && r.keys == FirstOccurrences(Included(names, summarized))
      && (forall n :: n in r.values <==> n in names && HasThreads(summarized, n))
      && (forall n :: n in r.values ==> r.values[n] == SortByKey(summarized.values[n], ReportKey))
  {
    if names != [] {
      var init := names[..|names| - 1];
      ContextThreadsSpec(init, summarized);
      assert forall n :: n in names <==> n in init || n == names[|names| - 1];
      var inc := Included(names, summarized);
      if HasThreads(summarized, names[|names| - 1]) {
        assert inc[..|inc| - 1] == Included(init, summarized);
      }
    }
  }

  /** How many of the threads have an important sender. */
  function ImportantCount(threads: seq<SummarizedThread>): (n: nat)
    ensures n <= |threads|
  {
    if threads == [] then 0
    else ImportantCount(threads[..|threads| - 1]) + (if threads[|threads| - 1].data.hasImportantSender then 1 else 0)
  }

  lemma ImportantCountFront(x: SummarizedThread, s: seq<SummarizedThread>)
    ensures ImportantCount([x] + s) == ImportantCount(s) + (if x.data.hasImportantSender then 1 else 0)
    decreases |s|
  {
    if s != [] {
      assert ([x] + s)[..|s|] == [x] + s[..|s| - 1];
      ImportantCountFront(x, s[..|s| - 1]);
    }
  }

  lemma {:induction false} ImportantCountInsert(x: SummarizedThread, s: seq<SummarizedThread>)
    ensures ImportantCount(Insert(x, s, ReportKey)) == ImportantCount(s) + (if x.data.hasImportantSender then 1 else 0)
  {
    if s == [] {
      assert Insert(x, s, ReportKey) == [x];
      assert [x][..0] == [];
    } else if KeyLe(ReportKey(s[0]), ReportKey(x)) {
      ImportantCountInsert(x, s[1..]);
      ImportantCountFront(s[0], Insert(x, s[1..], ReportKey));
      ImportantCountFront(s[0], s[1..]);
      assert [s[0]] + s[1..] == s;
    } else {
      ImportantCountFront(x, s);
    }
  }

  /** Sorting for display keeps the number of important threads. */
  lemma {:induction false} ImportantCountSorted(s: seq<SummarizedThread>)
    ensures ImportantCount(SortByKey(s, ReportKey)) == ImportantCount(s)
  {
    if s != [] {
      ImportantCountSorted(s[..|s| - 1]);
      ImportantCountInsert(s[|s| - 1], SortByKey(s[..|s| - 1], ReportKey));
    }
  }

  /** The number of threads listed under the given keys. */
  function TotalThreads(keys: seq<string>, values: map<string, seq<SummarizedThread>>): nat {
    if keys == [] then 0
    else
      var name := keys[|keys| - 1];
      TotalThreads(keys[..|keys| - 1], values) + (if name in values then |values[name]| else 0)
  }

  /** The number of important threads listed under the given keys. */
  function ImportantThreads(keys: seq<string>, values: map<string, seq<SummarizedThread>>): nat {
    if keys == [] then 0
    else
      var name := keys[|keys| - 1];
      ImportantThreads(keys[..|keys| - 1], values) + (if name in values then ImportantCount(values[name]) else 0)
  }

  /** Totals over keys that are present in both maps with lists of equal length and importance agree. */
  lemma {:induction false} TotalsAgree(keys: seq<string>, v: map<string, seq<SummarizedThread>>, w: map<string, seq<SummarizedThread>>)
    requires forall k :: k in keys ==> k in v && k in w && |v[k]| == |w[k]| && ImportantCount(v[k]) == ImportantCount(w[k])
    ensures TotalThreads(keys, v) == TotalThreads(keys, w)
    ensures ImportantThreads(keys, v) == ImportantThreads(keys, w)
  {
    if keys != [] {
      TotalsAgree(keys[..|keys| - 1], v, w);
    }
  }

  /** The template context; the two clock readings are left out. */
  datatype Context = Context(
    categorizedThreads: OrderedMap<string, seq<SummarizedThread>>,
    totalThreads: nat,
    successfulSummaries: nat,
    failedSummaries: nat,
    successRate: real,
    importantThreads: nat,
    maxThreadsPerCategory: Config.Value,
    importantSenders: Config.Value,
    errorTypes: OrderedMap<Option<string>, nat>)

  /**
   * `_prepare_template_context`: the categories the configuration lists, sorted by `order`,
   * that have threads, each with its threads in display order; the totals count what is
   * shown, which is every thread of those categories; the other numbers are passed through.
   */
  method PrepareTemplateContext(summarized: OrderedMap<string, seq<SummarizedThread>>, stats: Summarizer.Stats,
                                settings: Config.Settings, categories: seq<Category>)
    returns (context: Context)
    ensures var names := CategoryNames(Config.GetCategories(categories));
      context.categorizedThreads == ContextThreads(names, summarized)
    ensures var shown := FirstOccurrences(Included(CategoryNames(Config.GetCategories(categories)), summarized));
      && context.totalThreads == TotalThreads(shown, summarized.values)
      && context.importantThreads == ImportantThreads(shown, summarized.values)
    ensures context.successfulSummaries == stats.successfulSummaries && context.failedSummaries == stats.failedSummaries
    ensures context.successRate == stats.successRate && context.errorTypes == stats.errorTypes
    ensures context.maxThreadsPerCategory == Config.GetMaxThreadsPerCategory(settings)
    ensures context.importantSenders == Config.GetImportantSenders(settings)
  {
    var categoriesOrder := CategoryNames(Config.GetCategories(categories));
    var sortedThreads := Empty();
    for a := 0 to |categoriesOrder|
      invariant sortedThreads == ContextThreads(categoriesOrder[..a], summarized)
    {
      var categoryName := categoriesOrder[a];
      TakeSnoc(categoriesOrder, a);
      if categoryName in summarized.values {
        var threads := summarized.values[categoryName];
        if threads != [] {
          sortedThreads := Put(sortedThreads, categoryName, SortByKey(threads, ReportKey));
        }
      }
    }
    TakeAll(categoriesOrder);
    ContextThreadsSpec(categoriesOrder, summarized);
    forall k | k in sortedThreads.keys
      ensures k in sortedThreads.values && k in summarized.values
      ensures |sortedThreads.values[k]| == |summarized.values[k]|
      ensures ImportantCount(sortedThreads.values[k]) == ImportantCount(summarized.values[k])
    {
      ImportantCountSorted(summarized.values[k]);
    }
    TotalsAgree(sortedThreads.keys, sortedThreads.values, summarized.values);
    var totalThreads := TotalThreads(sortedThreads.keys, sortedThreads.values);
    var importantThreads := ImportantThreads(sortedThreads.keys, sortedThreads.values);
    context := Context(sortedThreads, totalThreads, stats.successfulSummaries, stats.failedSummaries,
                       stats.successRate, importantThreads, Config.GetMaxThreadsPerCategory(settings),
                       Config.GetImportantSenders(settings), stats.errorTypes);
  }

  // ---- Category summary ----

  /** Python's `<` on strings: code point by code point, a proper prefix first. */
  predicate LexLess(a: string, b: string) {
    if a == [] then b != []
    else if b == [] then false
    else if a[0] != b[0] then a[0] < b[0]
    else LexLess(a[1..], b[1..])
  }

  lemma LexIrreflexive(a: string)
    ensures !LexLess(a, a)
  {
  }

  lemma LexTransitive(a: string, b: string, c: string)
    requires LexLess(a, b) && LexLess(b, c)
    ensures LexLess(a, c)
  {
  }

  lemma {:induction false} LexTotal(a: string, b: string)
    requires a != b
    ensures LexLess(a, b) || LexLess(b, a)
  {
    if a != [] && b != [] && a[0] == b[0] {
      assert a == [a[0]] + a[1..] && b == [b[0]] + b[1..];
      LexTotal(a[1..], b[1..]);
    }
  }

  /** Strictly increasing, so also free of repeats. */
  predicate StrictlySorted(s: seq<string>) {
    forall i, j :: 0 <= i < j < |s| ==> LexLess(s[i], s[j])
  }

  /** Puts x into a strictly increasing list at its place. */
  function InsertString(x: string, s: seq<string>): (r: seq<string>)
    ensures forall y :: y in r <==> y == x || y in s
  {
    if s == [] then [x]
    else if LexLess(x, s[0]) then [x] + s
    else [s[0]] + InsertString(x, s[1..])
  }

  lemma {:induction false} InsertStringSorted(x: string, s: seq<string>)
    requires StrictlySorted(s) && x !in s
    ensures StrictlySorted(InsertString(x, s))
  {
    if s != [] {
      if LexLess(x, s[0]) {
        forall j | 0 < j < |s|
          ensures LexLess(x, s[j])
        {
          LexTransitive(x, s[0], s[j]);
        }
      } else {
        LexTotal(x, s[0]);
        InsertStringSorted(x, s[1..]);
        var tail := InsertString(x, s[1..]);
        forall k | 0 <= k < |tail|
          ensures LexLess(s[0], tail[k])
        {
          assert tail[k] in tail;
          if tail[k] != x {
            var m :| 0 <= m < |s[1..]| && s[1..][m] == tail[k];
            assert s[m + 1] == tail[k];
          }
        }
      }
    }
  }

  /** `sorted(domains)`: the set's elements in increasing order. */
  method SortedStrings(domains: set<string>) returns (r: seq<string>)
    ensures StrictlySorted(r)
    ensures forall d :: d in r <==> d in domains
  {
    r := [];
    var rest := domains;
    while rest != {}
      invariant rest <= domains && StrictlySorted(r)
      invariant forall d :: d in r <==> d in domains && d !in rest
      decreases rest
    {
      var d :| d in rest;
      InsertStringSorted(d, r);
      r := InsertString(d, r);
      rest := rest - {d};
    }
  }

  /**
   * `top` holds the smallest domains in increasing order: all of them when there are at most
   * five, otherwise five, each smaller than every domain left out.
   */
  predicate IsTopDomains(top: seq<string>, domains: set<string>) {
    && StrictlySorted(top)
    && (forall t :: t in top ==> t in domains)
    && (|top| == 5 || forall d :: d in domains ==> d in top)
    && |top| <= 5
    && (forall d, t :: d in domains && d !in top && t in top ==> LexLess(t, d))
  }

  /** The domains of the participants that contain '@'. */
  function ParticipantDomains(participants: seq<string>): set<string> {
    if participants == [] then {}
    else
      var p := participants[|participants| - 1];
      ParticipantDomains(participants[..|participants| - 1]) + (if '@' in p then {SecondField(p)} else {})
  }

  /** The domains of all participants of the threads. */
  function ThreadDomains(threads: seq<SummarizedThread>): set<string> {
    if threads == [] then {}
    else ThreadDomains(threads[..|threads| - 1]) + ParticipantDomains(threads[|threads| - 1].data.participants)
  }

  lemma {:induction false} ParticipantDomainsSpec(participants: seq<string>, d: string)
    ensures d in ParticipantDomains(participants) <==>
      exists j :: 0 <= j < |participants| && '@' in participants[j] && SecondField(participants[j]) == d
  {
    if participants != [] {
      var init := participants[..|participants| - 1];
      ParticipantDomainsSpec(init, d);
      assert forall j :: 0 <= j < |init| ==> init[j] == participants[j];
    }
  }

  /** A domain is listed exactly when some participant of some thread has it after its '@'. */
  lemma {:induction false} ThreadDomainsSpec(threads: seq<SummarizedThread>, d: string)
    ensures d in ThreadDomains(threads) <==>
      exists i :: 0 <= i < |threads| && d in ParticipantDomains(threads[i].data.participants)
  {
    if threads != [] {
      var init := threads[..|threads| - 1];
      ThreadDomainsSpec(init, d);
      assert forall i :: 0 <= i < |init| ==> init[i] == threads[i];
    }
  }

  /** The message counts of the threads added up. */
  function TotalMessages(threads: seq<SummarizedThread>): nat {
    if threads == [] then 0 else TotalMessages(threads[..|threads| - 1]) + threads[|threads| - 1].data.messageCount
  }

  /** One category's entry of `generate_category_summary`; the average, a float, is left out. */
  datatype CategorySummary = CategorySummary(
    threadCount: nat,
    totalMessages: nat,
    importantThreads: nat,
    successfulSummaries: nat,
    uniqueDomains: nat,
    topDomains: seq<string>)

  /** What a category's entry says about its threads. */
  ghost predicate SummaryOf(s: CategorySummary, threads: seq<SummarizedThread>) {
    && s.threadCount == |threads|
    && s.totalMessages == TotalMessages(threads)
    && s.importantThreads == ImportantCount(threads)
    && s.successfulSummaries == Summarizer.CountGenerated(threads)
    && s.uniqueDomains == |ThreadDomains(threads)|
    && IsTopDomains(s.topDomains, ThreadDomains(threads))
  }

  /** The names, in order, whose thread lists are not empty. */
  function NonEmptyKeys(keys: seq<string>, values: map<string, seq<SummarizedThread>>): (r: seq<string>)
    ensures forall n :: n in r ==> n in keys
  {
    if keys == [] then []
    else
      var prefix := NonEmptyKeys(keys[..|keys| - 1], values);
      var name := keys[|keys| - 1];
      if name in values && values[name] != [] then prefix + [name] else prefix
  }

  /**
   * `generate_category_summary`: one entry per category with threads, in the dictionary's
   * order, counting its threads, their messages, the important ones and the generated
   * summaries, with the number of distinct participant domains and the five smallest.
   */
  method GenerateCategorySummary(categorized: OrderedMap<string, seq<SummarizedThread>>)
    returns (summaries: OrderedMap<string, CategorySummary>)
    requires Valid(categorized)
    ensures Valid(summaries)
    ensures summaries.keys == NonEmptyKeys(categorized.keys, categorized.values)
    ensures forall n :: n in summaries.values <==> n in categorized.values && categorized.values[n] != []
    ensures forall n :: n in summaries.values ==> SummaryOf(summaries.values[n], categorized.values[n])
  {
    summaries := Empty();
    for a := 0 to |categorized.keys|
      invariant Valid(summaries) && summaries.keys == NonEmptyKeys(categorized.keys[..a], categorized.values)
      invariant forall n :: n in summaries.values <==>
        n in categorized.keys[..a] && n in categorized.values && categorized.values[n] != []
      invariant forall n :: n in summaries.values ==> SummaryOf(summaries.values[n], categorized.values[n])
    {
      var categoryName := categorized.keys[a];
      TakeSnoc(categorized.keys, a);
      var threads := categorized.values[categoryName];
      if threads != [] {
        assert categoryName !in categorized.keys[..a];
        var summary := SummarizeCategory(threads);
        summaries := Put(summaries, categoryName, summary);
      }
    }
    TakeAll(categorized.keys);
  }

  /** The body of the loop of `generate_category_summary` for a category with threads. */
  method SummarizeCategory(threads: seq<SummarizedThread>) returns (summary: CategorySummary)
    ensures SummaryOf(summary, threads)
  {
    var domains := CollectDomains(threads);
    var sortedDomains := SortedStrings(domains);
    var top := sortedDomains[..Min(5, |sortedDomains|)];
    assert forall k :: 0 <= k < |top| ==> top[k] == sortedDomains[k];
    forall d, t | d in domains && d !in top && t in top
      ensures LexLess(t, d)
    {
      var i :| 0 <= i < |top| && top[i] == t;
      var j :| 0 <= j < |sortedDomains| && sortedDomains[j] == d;
    }
    summary := CategorySummary(|threads|, TotalMessages(threads), ImportantCount(threads),
                               Summarizer.CountGenerated(threads), |domains|, top);
  }

  /** The loops of `generate_category_summary` that gather the participant domains. */
  method CollectDomains(threads: seq<SummarizedThread>) returns (domains: set<string>)
    ensures domains == ThreadDomains(threads)
  {
    domains := {};
    for i := 0 to |threads|
      invariant domains == ThreadDomains(threads[..i])
    {
      TakeSnoc(threads, i);
      var participants := threads[i].data.participants;
      var before := domains;
      for j := 0 to |participants|
        invariant domains == before + ParticipantDomains(participants[..j])
      {
        TakeSnoc(participants, j);
        var participant := participants[j];
        if '@' in participant {
          domains := domains + {SecondField(participant)};
        }
      }
      TakeAll(participants);
    }
    TakeAll(threads);
  }
}
