/**
 * The in-memory side of `CacheManager` (src/gmail_summarizer/cache_manager.py): two maps
 * keyed by thread id, one holding the thread's content fingerprint and data, the other its
 * summary. A thread counts as cached while the fingerprint stored for it equals the
 * fingerprint of its current messages.
 *
 * Reading and writing the JSON files is left out; what the constructor receives is the
 * outcome of reading each file. The clock is a parameter, in whole seconds.
 */
module Caching {
  import opened Common
  import opened Records
  import opened Fingerprint

  /** An entry of the threads map. Entries read back from disk may lack any key. */
  datatype ThreadEntry = ThreadEntry(contentHash: Option<Digest>, threadData: Option<EnrichedThread>, cachedAt: Option<int>)

  /**
   * An entry of the summaries map. Entries read back from disk may lack any key; `prompt` is
   * written only by the prompt-aware extension below.
   */
  datatype SummaryEntry = SummaryEntry(summaryData: Option<SummarizedThread>, contentHash: Option<Digest>, cachedAt: Option<int>, prompt: Option<string>)

  /** What reading one cache file gave: no file, its contents, or an error. */
  datatype LoadOutcome<T> = NoFile | Loaded(entries: map<string, T>) | LoadFailed

  /** The seconds in a day. */
  const SecondsPerDay: int := 24 * 60 * 60

  /** Older than the cutoff; an entry without `cached_at` counts as written at time 0. */
  predicate IsStale(cachedAt: Option<int>, cutoff: int) {
    cachedAt.GetOr(0) < cutoff
  }

  /** The ids of the thread entries older than the cutoff. */
  function StaleIds(threads: map<string, ThreadEntry>, cutoff: int): set<string> {
    set id | id in threads && IsStale(threads[id].cachedAt, cutoff)
  }

  lemma {:induction false} DistinctCard<T>(s: seq<T>)
    requires NoDuplicates(s)
    ensures |set x | x in s| == |s|
  {
    if s != [] {
      var init := s[..|s| - 1];
      var last := s[|s| - 1];
      DistinctCard(init);
      assert last !in init;
      assert (set x | x in s) == (set x | x in init) + {last};
    }
  }

  class CacheManager {
    var threads: map<string, ThreadEntry>
    var summaries: map<string, SummaryEntry>

    /**
     * `__init__` and `_load_caches`: a missing file leaves its map empty; a failure reading
     * either file leaves both maps empty. (The summaries file is not read when the threads
     * file failed.)
     */
    constructor(threadsFile: LoadOutcome<ThreadEntry>, summariesFile: LoadOutcome<SummaryEntry>)
      ensures threadsFile.LoadFailed? || summariesFile.LoadFailed? ==> threads == map[] && summaries == map[]
      ensures !threadsFile.LoadFailed? && !summariesFile.LoadFailed? ==>
        && threads == (if threadsFile.Loaded? then threadsFile.entries else map[])
        && summaries == (if summariesFile.Loaded? then summariesFile.entries else map[])
    {
      threads := map[];
      summaries := map[];
      if threadsFile.LoadFailed? {
        threads := map[];
        summaries := map[];
      } else {
        if threadsFile.Loaded? {
          threads := threadsFile.entries;
        }
        if summariesFile.LoadFailed? {
          threads := map[];
          summaries := map[];
        } else if summariesFile.Loaded? {
          summaries := summariesFile.entries;
        }
      }
    }

    /**
     * `is_thread_cached`: never for an id without an entry; otherwise exactly when the
     * stored fingerprint is the fingerprint of the given messages.
     */
    function IsThreadCached(threadId: string, messages: seq<Message>): (r: bool)
      reads this
      ensures threadId !in threads ==> !r
      ensures r ==> threads[threadId].contentHash.Some?
    {
      threadId in threads && threads[threadId].contentHash == Some(ThreadHash(messages))
    }

    /** `get_cached_summary` */
    function GetCachedSummary(threadId: string): (r: Option<SummaryEntry>)
      reads this
      ensures r.Some? <==> threadId in summaries
      ensures r.Some? ==> r.value == summaries[threadId]
    {
      if threadId in summaries then Some(summaries[threadId]) else None
    }

    /**
     * `cache_thread_and_summary`: both entries for the id are replaced, carry the same
     * fingerprint, and the thread is then cached for these messages; other ids are untouched.
     * The two clock readings are the two parameters.
     */
    method CacheThreadAndSummary(threadId: string, messages: seq<Message>, threadData: EnrichedThread,
                                 summaryData: SummarizedThread, threadTime: int, summaryTime: int)
      modifies this
      ensures threads == old(threads)[threadId := ThreadEntry(Some(ThreadHash(messages)), Some(threadData), Some(threadTime))]
      ensures summaries == old(summaries)[threadId := SummaryEntry(Some(summaryData), Some(ThreadHash(messages)), Some(summaryTime), None)]
      ensures IsThreadCached(threadId, messages)
      ensures GetCachedSummary(threadId).Some? && GetCachedSummary(threadId).value.summaryData == Some(summaryData)
      ensures threads[threadId].contentHash == summaries[threadId].contentHash
    {
      var contentHash := ThreadHash(messages);
      threads := threads[threadId := ThreadEntry(Some(contentHash), Some(threadData), Some(threadTime))];
      summaries := summaries[threadId := SummaryEntry(Some(summaryData), Some(contentHash), Some(summaryTime), None)];
    }

    /** `clear_cache`: both maps emptied, so nothing is cached and no summary is found. */
    method ClearCache()
      modifies this
      ensures threads == map[] && summaries == map[]
      ensures forall id, msgs :: !IsThreadCached(id, msgs)
      ensures forall id :: GetCachedSummary(id) == None
    {
      threads := map[];
      summaries := map[];
    }

    /**
     * `cleanup_old_entries(max_age_days)`: removes exactly the thread entries written before
     * `now - max_age_days` days (an entry without a time counts as written at 0), and the
     * summaries of those ids; keeps the rest and every summary without a thread entry;
     * returns how many thread entries went.
     */
    method CleanupOldEntries(maxAgeDays: int, now: int) returns (removedCount: nat)
      modifies this
      ensures var stale := StaleIds(old(threads), now - maxAgeDays * SecondsPerDay);
        && threads == old(threads) - stale
        && summaries == old(summaries) - stale
        && removedCount == |stale|
    {
      var cutoff := now - maxAgeDays * SecondsPerDay;
      ghost var stale := StaleIds(threads, cutoff);
      var threadsToRemove := CollectStale(cutoff);
      removedCount := RemoveEntries(threadsToRemove);
      assert (set x | x in threadsToRemove) == stale;
      DistinctCard(threadsToRemove);
    }

    /** The second loop of `cleanup_old_entries`: drops the thread entry, and any summary, of each id. */
    method RemoveEntries(ids: seq<string>) returns (removedCount: nat)
      modifies this
      ensures var gone := set x | x in ids;
        && threads == old(threads) - gone
        && summaries == old(summaries) - gone
      ensures removedCount == |ids|
    {
      removedCount := 0;
      ghost var removed: set<string> := {};
      for i := 0 to |ids|
        invariant removedCount == i
        invariant forall id :: id in removed <==> id in ids[..i]
        invariant threads == old(threads) - removed && summaries == old(summaries) - removed
      {
        var threadId := ids[i];
        threads := threads - {threadId};
        if threadId in summaries {
          summaries := summaries - {threadId};
        }
        removedCount := removedCount + 1;
        removed := removed + {threadId};
      }
      assert ids[..|ids|] == ids;
      assert removed == set x | x in ids;
    }

    /** The first loop of `cleanup_old_entries`: the ids of the stale thread entries, each once. */
    method CollectStale(cutoff: int) returns (ids: seq<string>)
      ensures NoDuplicates(ids)
      ensures forall id :: id in ids <==> id in StaleIds(threads, cutoff)
    {
      ids := [];
      var pending := threads.Keys;
      while pending != {}
        invariant pending <= threads.Keys
        invariant NoDuplicates(ids)
        invariant forall id :: id in ids ==> id !in pending
        invariant forall id :: id in ids <==> id in StaleIds(threads, cutoff) && id !in pending
        decreases pending
      {
        var threadId :| threadId in pending;
        if IsStale(threads[threadId].cachedAt, cutoff) {
          ids := ids + [threadId];
        }
        pending := pending - {threadId};
      }
    }

    // ---- Extension: prompt-aware caching ----

    /**
     * Extension, not in the shown cache: cached when the stored fingerprint is that of these
     * messages together with this prompt.
     */
    function IsThreadCachedWithPrompt(threadId: string, messages: seq<Message>, prompt: string): (r: bool)
      reads this
      ensures threadId !in threads ==> !r
      ensures r ==> threads[threadId].contentHash.Some?
    {
      threadId in threads && threads[threadId].contentHash == Some(ThreadHashWithPrompt(messages, prompt))
    }

    /**
     * Extension: `cache_thread_and_summary` with the prompt entering the fingerprint and kept
     * in the summary entry.
     */
    method CacheThreadAndSummaryWithPrompt(threadId: string, messages: seq<Message>, threadData: EnrichedThread,
                                           summaryData: SummarizedThread, prompt: string, threadTime: int, summaryTime: int)
      modifies this
      ensures var h := ThreadHashWithPrompt(messages, prompt);
        && threads == old(threads)[threadId := ThreadEntry(Some(h), Some(threadData), Some(threadTime))]
        && summaries == old(summaries)[threadId := SummaryEntry(Some(summaryData), Some(h), Some(summaryTime), Some(prompt))]
      ensures IsThreadCachedWithPrompt(threadId, messages, prompt)
    {
      var contentHash := ThreadHashWithPrompt(messages, prompt);
      threads := threads[threadId := ThreadEntry(Some(contentHash), Some(threadData), Some(threadTime))];
      summaries := summaries[threadId := SummaryEntry(Some(summaryData), Some(contentHash), Some(summaryTime), Some(prompt))];
    }
  }

  /**
   * Change detection: once a fingerprint of some messages is stored for an id, the id counts
   * as cached for other messages exactly when they agree with those on id, subject, from,
   * date and body, message by message. Changing any of these fields, or adding, dropping
   * or reordering messages, makes the thread uncached.
   */
  lemma CachedExactlyForSameContent(c: CacheManager, threadId: string, stored: seq<Message>, current: seq<Message>)
    requires threadId in c.threads && c.threads[threadId].contentHash == Some(ThreadHash(stored))
    ensures c.IsThreadCached(threadId, current) <==> AllFields(stored) == AllFields(current)
  {
    ThreadHashExact(stored, current);
  }

  /** A stored prompt-aware fingerprint matches other messages and prompt exactly when both are the same. */
  lemma CachedWithPromptExactly(c: CacheManager, threadId: string, stored: seq<Message>, storedPrompt: string,
                                current: seq<Message>, prompt: string)
    requires threadId in c.threads && c.threads[threadId].contentHash == Some(ThreadHashWithPrompt(stored, storedPrompt))
    ensures c.IsThreadCachedWithPrompt(threadId, current, prompt)
      <==> AllFields(stored) == AllFields(current) && storedPrompt == prompt
  {
    ThreadHashWithPromptExact(stored, storedPrompt, current, prompt);
  }
}
