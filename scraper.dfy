/** The scraper object (class BizreachScraper): the browser session it holds,
    the records of the last run, and the batch runner that paces its requests. */
module Scraper {
  import opened Wrappers
  import opened Candidate
  import opened Pacing
  import opened Flatten

  /** An open browser session; the browser itself is not modelled. */
  datatype Driver = Driver(session: nat)

  /** The settle delay a scrape issues: only after driver.get returns. */
  function SettleSleeps(hasDriver: bool, page: Page): seq<Sleep> {
    if Navigates(hasDriver, page) then [Settle] else []
  }

  /** The pacing delay issued after the j-th of n URLs (1-based): none after
      the last URL, and none when computing or sleeping it raises. */
  function PauseSleeps(j: nat, n: nat, pause: Schedule): seq<Sleep> {
    if j < n && pause(j).Success? then [Pacing(pause(j).value)] else []
  }

  /** The time.sleep calls of a run of n URLs once the first k are scraped. */
  function RunSleeps(hasDriver: bool, pages: seq<Page>, n: nat, pause: Schedule, k: nat): seq<Sleep>
    requires k <= |pages|
  {
    if k == 0 then []
    else RunSleeps(hasDriver, pages, n, pause, k - 1) + SettleSleeps(hasDriver, pages[k - 1]) + PauseSleeps(k, n, pause)
  }

  /** The records of the first k URLs, in input order. */
  function RunRecords(hasDriver: bool, pages: seq<Page>, urls: seq<string>, stamps: seq<string>, k: nat): seq<Record>
    requires k <= |pages| && k <= |urls| && k <= |stamps|
  {
    if k == 0 then []
    else RunRecords(hasDriver, pages, urls, stamps, k - 1) + [CandidateRecord(hasDriver, pages[k - 1], urls[k - 1], stamps[k - 1])]
  }

  lemma RunSleepsStep(base: seq<Sleep>, hasDriver: bool, pages: seq<Page>, n: nat, pause: Schedule, k: nat)
    requires k < |pages|
    ensures base + RunSleeps(hasDriver, pages, n, pause, k + 1)
         == base + RunSleeps(hasDriver, pages, n, pause, k) + SettleSleeps(hasDriver, pages[k]) + PauseSleeps(k + 1, n, pause)
  {
  }

  /** One record per scraped URL, in input order, each carrying its own URL. */
  lemma {:induction false} RunRecordsFollowInput(hasDriver: bool, pages: seq<Page>, urls: seq<string>, stamps: seq<string>, k: nat)
    requires k <= |pages| && k <= |urls| && k <= |stamps|
    ensures |RunRecords(hasDriver, pages, urls, stamps, k)| == k
    ensures forall i :: 0 <= i < k ==> RunRecords(hasDriver, pages, urls, stamps, k)[i].url == Some(urls[i])
  {
    if k > 0 {
      RunRecordsFollowInput(hasDriver, pages, urls, stamps, k - 1);
      RecordAlwaysStamped(hasDriver, pages[k - 1], urls[k - 1], stamps[k - 1]);
    }
  }

  /** The number of pacing delays once k of n URLs are scraped: one after
      each of them except the last URL of the input and one whose pause raised. */
  function PacingCount(k: nat, completed: nat): nat {
    if k == 0 then 0 else if k < completed then k else k - 1
  }

  /** The settle sleep is not a pacing delay. */
  lemma SettleHasNoPacing(hasDriver: bool, page: Page)
    ensures PacingSeconds(SettleSleeps(hasDriver, page)) == []
  {
    if Navigates(hasDriver, page) {
      PacingSecondsOfOne(Settle);
    }
  }

  /** The pacing sleep after position j, as a delay length. */
  lemma PauseSleepsSeconds(j: nat, n: nat, pause: Schedule)
    ensures PacingSeconds(PauseSleeps(j, n, pause))
         == if j < n && pause(j).Success? then [pause(j).value] else []
  {
    if j < n && pause(j).Success? {
      PacingSecondsOfOne(Pacing(pause(j).value));
    }
  }

  /** Scraping one more URL adds at most its own pacing delay. */
  lemma RunPacingStep(hasDriver: bool, pages: seq<Page>, n: nat, pause: Schedule, k: nat)
    requires 0 < k <= |pages|
    ensures PacingSeconds(RunSleeps(hasDriver, pages, n, pause, k))
         == PacingSeconds(RunSleeps(hasDriver, pages, n, pause, k - 1))
            + (if k < n && pause(k).Success? then [pause(k).value] else [])
  {
    var prev := RunSleeps(hasDriver, pages, n, pause, k - 1);
    var settle := SettleSleeps(hasDriver, pages[k - 1]);
    var delay := PauseSleeps(k, n, pause);
    PacingSecondsAppend(prev + settle, delay);
    PacingSecondsAppend(prev, settle);
    SettleHasNoPacing(hasDriver, pages[k - 1]);
    PauseSleepsSeconds(k, n, pause);
    assert PacingSeconds(prev + settle) == PacingSeconds(prev);
  }

  /** p holds `count` delays, the j-th (0-based) being the pause computed for
      position j + 1. */
  predicate PacedBy(p: seq<nat>, pause: Schedule, count: nat) {
    |p| == count && forall j :: 0 <= j < |p| ==> pause(j + 1) == Success(p[j])
  }

  /** One step of RunPacing, on the delay lengths alone. */
  lemma PacingExtends(prev: seq<nat>, p: seq<nat>, n: nat, pause: Schedule, k: nat, c: nat)
    requires 1 <= k <= c <= n
    requires forall j :: 1 <= j < c ==> pause(j).Success?
    requires c < n ==> pause(c).Failure?
    requires PacedBy(prev, pause, PacingCount(k - 1, c))
    requires p == prev + (if k < n && pause(k).Success? then [pause(k).value] else [])
    ensures PacedBy(p, pause, PacingCount(k, c))
  {
    if k < c {
      assert p == prev + [pause(k).value];
    } else {
      assert p == prev;
    }
  }

  /** Scraping URL k keeps the run's delays paced by the schedule. */
  lemma RunPacingStepPaced(hasDriver: bool, pages: seq<Page>, n: nat, pause: Schedule, k: nat)
    requires 0 < k <= |pages| && k <= Completed(n, pause)
    requires PacedBy(PacingSeconds(RunSleeps(hasDriver, pages, n, pause, k - 1)), pause, PacingCount(k - 1, Completed(n, pause)))
    ensures PacedBy(PacingSeconds(RunSleeps(hasDriver, pages, n, pause, k)), pause, PacingCount(k, Completed(n, pause)))
  {
    var prev := PacingSeconds(RunSleeps(hasDriver, pages, n, pause, k - 1));
    var p := PacingSeconds(RunSleeps(hasDriver, pages, n, pause, k));
    CompletedIsFirstFailure(n, pause);
    RunPacingStep(hasDriver, pages, n, pause, k);
    PacingExtends(prev, p, n, pause, k, Completed(n, pause));
  }

  /** The pacing delays of a run, in order: the j-th (0-based) is the pause
      computed for position j + 1, and there is one per scraped URL except
      the last URL of the input and one whose pause raised. */
  lemma {:induction false} RunPacing(hasDriver: bool, pages: seq<Page>, n: nat, pause: Schedule, k: nat)
    requires k <= |pages| && k <= Completed(n, pause)
    ensures PacedBy(PacingSeconds(RunSleeps(hasDriver, pages, n, pause, k)), pause, PacingCount(k, Completed(n, pause)))
    decreases k
  {
    if k > 0 {
      RunPacing(hasDriver, pages, n, pause, k - 1);
      RunPacingStepPaced(hasDriver, pages, n, pause, k);
    }
  }

  /** For 0 <= min <= max below the overflow bound, a run of n URLs issues n - 1 pacing delays (none
      for an empty list), the i-th of them min + i mod (max - min + 1)
      seconds, which lies within [min, max]. */
  lemma RunPacingWithValidRange(hasDriver: bool, pages: seq<Page>, lo: int, hi: int)
    requires 0 <= lo <= hi < SleepOverflowSeconds
    ensures var p := PacingSeconds(RunSleeps(hasDriver, pages, |pages|, PauseSchedule(lo, hi), |pages|));
      && |p| == (if |pages| == 0 then 0 else |pages| - 1)
      && forall j :: 0 <= j < |p| ==> p[j] == lo + (j + 1) % (hi - lo + 1) && lo <= p[j] <= hi
  {
    CompletedWhenRangeValid(|pages|, lo, hi);
    RunPacing(hasDriver, pages, |pages|, PauseSchedule(lo, hi), |pages|);
    var p := PacingSeconds(RunSleeps(hasDriver, pages, |pages|, PauseSchedule(lo, hi), |pages|));
    forall j | 0 <= j < |p| ensures p[j] == lo + (j + 1) % (hi - lo + 1) && lo <= p[j] <= hi {
      PauseWithinRange(j + 1, lo, hi);
    }
  }

  /** Two URLs with the wait range (3, 5): exactly one pacing delay, of
      3 + (1 mod 3) = 4 seconds. */
  lemma TwoUrlsPaceOnce(hasDriver: bool, pages: seq<Page>)
    requires |pages| == 2
    ensures PacingSeconds(RunSleeps(hasDriver, pages, 2, PauseSchedule(3, 5), 2)) == [4]
  {
    RunPacingWithValidRange(hasDriver, pages, 3, 5);
  }

  class BizreachScraper {
    /** self.driver: the open session, if any. */
    var driver: Option<Driver>
    /** self.candidate_data: the records of the current or last run. */
    var candidateData: seq<Record>
    /** Every time.sleep call issued, in order. */
    ghost var sleepLog: seq<Sleep>
    /** Every session on which quit() was called, in order. */
    ghost var quitLog: seq<Driver>

    /** __init__ without the browser options: no session and no data. */
    constructor ()
      ensures driver == None && candidateData == []
      ensures sleepLog == [] && quitLog == []
    {
      driver := None;
      candidateData := [];
      sleepLog := [];
      quitLog := [];
    }

    /** The state change of start_browser: the launched session is held. */
    method StartBrowser(session: Driver) returns (started: bool)
      modifies this`driver
      ensures driver == Some(session) && started
    {
      driver := Some(session);
      started := true;
    }

    /** scrape_candidate_page: navigate, settle, then fill the record field
        by field, each field falling back to its own default. */
    method ScrapeCandidatePage(page: Page, url: string, now: string) returns (record: Record)
      modifies this`sleepLog
      ensures record == CandidateRecord(driver.Some?, page, url, now)
      ensures sleepLog == old(sleepLog) + SettleSleeps(driver.Some?, page)
      ensures forall s :: s in sleepLog[|old(sleepLog)|..] ==> Seconds(s) == SettleSeconds
    {
      if driver.None? {
        return ErrorRecord(url, NoDriverMessage, now);
      }
      if page.navigation.NavigationError? {
        return ErrorRecord(url, page.navigation.message, now);
      }
      sleepLog := sleepLog + [Settle];
      var name := if page.nameText.Some? then page.nameText.value else NameUnavailable;
      var age := if page.ageText.Some? then page.ageText.value else AgeUnknown;
      var careerHistory := ExtractList(page.careerItems, CareerEntryOf);
      var skills := ExtractList(page.skillItems, SkillText);
      var education := ExtractList(page.educationItems, EducationEntryOf);
      record := Record(Some(name), Some(age), Some(careerHistory), Some(skills), Some(education),
                       Some(url), Some(now), None);
    }

    /** scrape_multiple_candidates over the wait range (lo, hi): pages[i] is
        what the browser shows for urls[i] and stamps[i] the time it is
        scraped. The data of any earlier run is discarded first. A pause that
        raises ends the run with the records scraped so far kept. */
    method ScrapeMultipleCandidates(urls: seq<string>, pages: seq<Page>, stamps: seq<string>, lo: int, hi: int)
      returns (result: Result<seq<Record>, PauseError>)
      requires |pages| == |urls| && |stamps| == |urls|
      modifies this`candidateData, this`sleepLog
      ensures var k := Completed(|urls|, PauseSchedule(lo, hi));
        && candidateData == RunRecords(driver.Some?, pages, urls, stamps, k)
        && sleepLog == old(sleepLog) + RunSleeps(driver.Some?, pages, |urls|, PauseSchedule(lo, hi), k)
        && (result.Success? <==> k == |urls|)
        && (result.Success? ==> result.value == candidateData)
        && (result.Failure? ==> PauseAfter(k, lo, hi) == Failure(result.error))
    {
      result := ScrapeAll(urls, pages, stamps, PauseSchedule(lo, hi));
    }

    /** The loop of scrape_multiple_candidates, for a schedule giving the
        pause (or the exception) after each 1-based position. */
    method ScrapeAll(urls: seq<string>, pages: seq<Page>, stamps: seq<string>, pause: Schedule)
      returns (result: Result<seq<Record>, PauseError>)
      requires |pages| == |urls| && |stamps| == |urls|
      modifies this`candidateData, this`sleepLog
      ensures var k := Completed(|urls|, pause);
        && candidateData == RunRecords(driver.Some?, pages, urls, stamps, k)
        && sleepLog == old(sleepLog) + RunSleeps(driver.Some?, pages, |urls|, pause, k)
        && (result.Success? <==> k == |urls|)
        && (result.Success? ==> result.value == candidateData)
        && (result.Failure? ==> pause(k) == Failure(result.error))
    {
      var n := |urls|;
      var hasDriver := driver.Some?;
      candidateData := [];
      var i := 0;
      while i < n
        invariant 0 <= i <= n && i <= Completed(n, pause)
        invariant i < n ==> i < Completed(n, pause)
        invariant candidateData == RunRecords(hasDriver, pages, urls, stamps, i)
        invariant sleepLog == old(sleepLog) + RunSleeps(hasDriver, pages, n, pause, i)
      {
        var raised := ScrapeNext(i, urls, pages, stamps, pause);
        RunSleepsStep(old(sleepLog), hasDriver, pages, n, pause, i);
        if raised.Some? {
          CompletedStopsAt(n, pause, i + 1);
          return Failure(raised.value);
        }
        if i + 1 < n {
          CompletedPassesSuccess(n, pause, i + 1);
        }
        i := i + 1;
      }
      result := Success(candidateData);
    }

    /** One turn of that loop: scrape urls[i], then (unless it is the last
        URL) compute the pause and sleep it. The exception the pause raises,
        if any, is returned. */
    method ScrapeNext(i: nat, urls: seq<string>, pages: seq<Page>, stamps: seq<string>, pause: Schedule)
      returns (raised: Option<PauseError>)
      requires i < |urls| && |pages| == |urls| && |stamps| == |urls|
      modifies this`candidateData, this`sleepLog
      ensures candidateData == old(candidateData) + [CandidateRecord(driver.Some?, pages[i], urls[i], stamps[i])]
      ensures sleepLog == old(sleepLog) + SettleSleeps(driver.Some?, pages[i]) + PauseSleeps(i + 1, |urls|, pause)
      ensures raised.Some? <==> i + 1 < |urls| && pause(i + 1).Failure?
      ensures raised.Some? ==> pause(i + 1) == Failure(raised.value)
    {
      var record := ScrapeCandidatePage(pages[i], urls[i], stamps[i]);
      candidateData := candidateData + [record];
      raised := None;
      if i + 1 < |urls| {
        // the pause after the (i + 1)-th URL, then the sleep
        var wait := pause(i + 1);
        if wait.Failure? {
          return Some(wait.error);
        }
        sleepLog := sleepLog + [Pacing(wait.value)];
      }
    }

    /** The loop of save_data_to_csv: one flat row per record, in order. */
    method FlattenCandidateData() returns (flat: seq<Row>)
      ensures |flat| == |candidateData|
      ensures forall i :: 0 <= i < |flat| ==> flat[i] == FlatRow(candidateData[i])
    {
      flat := [];
      var i := 0;
      while i < |candidateData|
        invariant 0 <= i <= |candidateData|
        invariant |flat| == i
        invariant forall j :: 0 <= j < i ==> flat[j] == FlatRow(candidateData[j])
      {
        var row := FlattenCandidate(candidateData[i]);
        flat := flat + [row];
        i := i + 1;
      }
    }

    /** close_browser: quit and drop a held session; without one, do nothing. */
    method CloseBrowser() returns (closed: bool)
      modifies this`driver, this`quitLog
      ensures closed <==> old(driver).Some?
      ensures driver == None
      ensures quitLog == if old(driver).Some? then old(quitLog) + [old(driver).value] else old(quitLog)
    {
      if driver.Some? {
        quitLog := quitLog + [driver.value];
        driver := None;
        return true;
      }
      return false;
    }
  }

  /** Closing a scraper twice: the second call finds no session, reports
      false and leaves the state as the first call left it. */
  method CloseBrowserTwice(scraper: BizreachScraper) returns (first: bool, second: bool)
    modifies scraper`driver, scraper`quitLog
    ensures first <==> old(scraper.driver).Some?
    ensures !second && scraper.driver == None
    ensures scraper.quitLog == if old(scraper.driver).Some? then old(scraper.quitLog) + [old(scraper.driver).value] else old(scraper.quitLog)
  {
    first := scraper.CloseBrowser();
    second := scraper.CloseBrowser();
  }
}
