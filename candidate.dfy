/** One candidate page and the record scraped from it
    (BizreachScraper.scrape_candidate_page). The browser is not modelled: a
    page is the abstract outcome of every lookup the scraper performs on it. */
module Candidate {
  import opened Wrappers

  /** Stored as the name when the name element cannot be found in time. */
  const NameUnavailable: string := "取得できませんでした"
  /** Stored as the age when the age element cannot be found. */
  const AgeUnknown: string := "不明"
  /** str(e) of the AttributeError raised when no browser session is held. */
  const NoDriverMessage: string := "'NoneType' object has no attribute 'get'"

  /** Whether driver.get(url) returned or raised (with the text of the exception). */
  datatype Navigation = Loaded | NavigationError(message: string)

  /** One div.career-history-item: the text of each sub-element, None when that
      find_element (or reading its text) raises. */
  datatype CareerItem = CareerItem(company: Option<string>, period: Option<string>, position: Option<string>)

  /** One div.education-item, in the same way. */
  datatype EducationItem = EducationItem(school: Option<string>, period: Option<string>, degree: Option<string>)

  /** What the browser shows after navigating to a candidate's URL. A list
      lookup is None when find_elements itself raises. */
  datatype Page = Page(
    navigation: Navigation,
    nameText: Option<string>,
    ageText: Option<string>,
    careerItems: Option<seq<CareerItem>>,
    skillItems: Option<seq<Option<string>>>,
    educationItems: Option<seq<EducationItem>>)

  datatype CareerEntry = CareerEntry(company: string, period: string, position: string)
  datatype EducationEntry = EducationEntry(school: string, period: string, degree: string)

  /** A scraped record: a dictionary whose keys are the fields that are Some. */
  datatype Record = Record(
    name: Option<string>,
    age: Option<string>,
    careerHistory: Option<seq<CareerEntry>>,
    skills: Option<seq<string>>,
    education: Option<seq<EducationEntry>>,
    url: Option<string>,
    scrapedAt: Option<string>,
    error: Option<string>)
  {
    /** The keys of the dictionary this record stands for. */
    function Keys(): set<string> {
      (if name.Some? then {"name"} else {})
      + (if age.Some? then {"age"} else {})
      + (if careerHistory.Some? then {"career_history"} else {})
      + (if skills.Some? then {"skills"} else {})
      + (if education.Some? then {"education"} else {})
      + (if url.Some? then {"url"} else {})
      + (if scrapedAt.Some? then {"scraped_at"} else {})
      + (if error.Some? then {"error"} else {})
    }
  }

  const ErrorKeys: set<string> := {"url", "error", "scraped_at"}
  const ProfileKeys: set<string> :=
    {"name", "age", "career_history", "skills", "education", "url", "scraped_at"}

  /** Applies a fallible extraction to every element in order; the first
      failure makes the whole collection fail, as an exception raised inside
      the source's loop abandons the list built so far. */
  function Collected<A, B>(xs: seq<A>, extract: A -> Option<B>): Option<seq<B>>
    decreases |xs|
  {
    if xs == [] then Some([])
    else match Collected(xs[..|xs| - 1], extract)
      case None => None
      case Some(init) =>
        match extract(xs[|xs| - 1])
        case None => None
        case Some(y) => Some(init + [y])
  }

  lemma {:induction false} CollectedPrefixFails<A, B>(xs: seq<A>, i: nat, extract: A -> Option<B>)
    requires i <= |xs| && Collected(xs[..i], extract).None?
    ensures Collected(xs, extract).None?
    decreases |xs| - i
  {
    if i < |xs| {
      assert xs[..i + 1][..i] == xs[..i];
      CollectedPrefixFails(xs, i + 1, extract);
    } else {
      assert xs[..i] == xs;
    }
  }

  /** The collection succeeds exactly when every element's extraction does,
      and then holds one extracted value per element, in order. */
  lemma {:induction false} CollectedAllOrNothing<A, B>(xs: seq<A>, extract: A -> Option<B>)
    ensures Collected(xs, extract).Some? <==> forall i :: 0 <= i < |xs| ==> extract(xs[i]).Some?
    ensures Collected(xs, extract).Some? ==>
      |Collected(xs, extract).value| == |xs| &&
      forall i :: 0 <= i < |xs| ==> extract(xs[i]) == Some(Collected(xs, extract).value[i])
    decreases |xs|
  {
    if xs != [] {
      var init := xs[..|xs| - 1];
      CollectedAllOrNothing(init, extract);
      forall i | 0 <= i < |init| ensures init[i] == xs[i] { }
    }
  }

  /** The three sub-lookups of a career container, all of which must succeed. */
  function CareerEntryOf(item: CareerItem): Option<CareerEntry> {
    if item.company.Some? && item.period.Some? && item.position.Some? then
      Some(CareerEntry(item.company.value, item.period.value, item.position.value))
    else None
  }

  function EducationEntryOf(item: EducationItem): Option<EducationEntry> {
    if item.school.Some? && item.period.Some? && item.degree.Some? then
      Some(EducationEntry(item.school.value, item.period.value, item.degree.value))
    else None
  }

  /** A list-valued field: [] when find_elements raises or any element fails. */
  function ListField<A, B>(items: Option<seq<A>>, extract: A -> Option<B>): seq<B> {
    if items.None? then [] else Collected(items.value, extract).GetOr([])
  }

  function SkillText(text: Option<string>): Option<string> { text }

  function ErrorRecord(url: string, message: string, now: string): Record {
    Record(None, None, None, None, None, Some(url), Some(now), Some(message))
  }

  /** Whether driver.get(url) returns: a session is held and the page loads. */
  predicate Navigates(hasDriver: bool, page: Page) {
    hasDriver && page.navigation.Loaded?
  }

  /** The record scrape_candidate_page returns for `url` at time `now`. */
  function CandidateRecord(hasDriver: bool, page: Page, url: string, now: string): Record {
    if !hasDriver then ErrorRecord(url, NoDriverMessage, now)
    else match page.navigation
      case NavigationError(message) => ErrorRecord(url, message, now)
      case Loaded =>
        Record(
          Some(page.nameText.GetOr(NameUnavailable)),
          Some(page.ageText.GetOr(AgeUnknown)),
          Some(ListField(page.careerItems, CareerEntryOf)),
          Some(ListField(page.skillItems, SkillText)),
          Some(ListField(page.educationItems, EducationEntryOf)),
          Some(url),
          Some(now),
          None)
  }

  /** The loop of the source over the matched containers: extract each one in
      document order, giving up on the whole list at the first failure. */
  method CollectAll<A, B>(xs: seq<A>, extract: A -> Option<B>) returns (r: Option<seq<B>>)
    ensures r == Collected(xs, extract)
  {
    var acc: seq<B> := [];
    var i := 0;
    while i < |xs|
      invariant 0 <= i <= |xs|
      invariant Collected(xs[..i], extract) == Some(acc)
    {
      assert xs[..i + 1][..i] == xs[..i];
      var y := extract(xs[i]);
      if y.None? {
        CollectedPrefixFails(xs, i + 1, extract);
        return None;
      }
      acc := acc + [y.value];
      i := i + 1;
    }
    assert xs[..i] == xs;
    r := Some(acc);
  }

  /** One try block of the source over a list field. */
  method ExtractList<A, B>(items: Option<seq<A>>, extract: A -> Option<B>) returns (field: seq<B>)
    ensures field == ListField(items, extract)
  {
    if items.None? {
      return [];
    }
    var collected := CollectAll(items.value, extract);
    field := if collected.Some? then collected.value else [];
  }

  /** A failed navigation leaves exactly url, error and scraped_at. */
  lemma NavigationFailureRecord(hasDriver: bool, page: Page, url: string, now: string)
    requires !Navigates(hasDriver, page)
    ensures CandidateRecord(hasDriver, page, url, now).Keys() == ErrorKeys
    ensures CandidateRecord(hasDriver, page, url, now).error ==
      Some(if hasDriver then page.navigation.message else NoDriverMessage)
  {
  }

  /** A page that loads always yields every profile key and no error. */
  lemma LoadedRecordKeys(page: Page, url: string, now: string)
    requires page.navigation.Loaded?
    ensures CandidateRecord(true, page, url, now).Keys() == ProfileKeys
  {
  }

  /** Every record carries the URL and the timestamp, whatever failed. */
  lemma RecordAlwaysStamped(hasDriver: bool, page: Page, url: string, now: string)
    ensures CandidateRecord(hasDriver, page, url, now).url == Some(url)
    ensures CandidateRecord(hasDriver, page, url, now).scrapedAt == Some(now)
    ensures {"url", "scraped_at"} <= CandidateRecord(hasDriver, page, url, now).Keys()
  {
  }

  /** A failed name or age lookup falls back to its own placeholder and
      leaves every other field as it would have been. */
  lemma ScalarFallbacksAreIsolated(page: Page, url: string, now: string)
    requires page.navigation.Loaded?
    ensures CandidateRecord(true, page.(nameText := None), url, now)
         == CandidateRecord(true, page, url, now).(name := Some(NameUnavailable))
    ensures CandidateRecord(true, page.(ageText := None), url, now)
         == CandidateRecord(true, page, url, now).(age := Some(AgeUnknown))
  {
  }

  /** career_history holds one entry per container in document order when
      every sub-lookup succeeds, and is [] as soon as one fails. */
  lemma CareerHistoryAllOrNothing(page: Page, url: string, now: string)
    requires page.navigation.Loaded?
    ensures var h := CandidateRecord(true, page, url, now).careerHistory.value;
      if page.careerItems.Some? && forall i :: 0 <= i < |page.careerItems.value| ==> CareerEntryOf(page.careerItems.value[i]).Some?
      then |h| == |page.careerItems.value| &&
           forall i :: 0 <= i < |h| ==> Some(h[i]) == CareerEntryOf(page.careerItems.value[i])
      else h == []
  {
    if page.careerItems.Some? {
      CollectedAllOrNothing(page.careerItems.value, CareerEntryOf);
    }
  }

  /** The same for education. */
  lemma EducationAllOrNothing(page: Page, url: string, now: string)
    requires page.navigation.Loaded?
    ensures var h := CandidateRecord(true, page, url, now).education.value;
      if page.educationItems.Some? && forall i :: 0 <= i < |page.educationItems.value| ==> EducationEntryOf(page.educationItems.value[i]).Some?
      then |h| == |page.educationItems.value| &&
           forall i :: 0 <= i < |h| ==> Some(h[i]) == EducationEntryOf(page.educationItems.value[i])
      else h == []
  {
    if page.educationItems.Some? {
      CollectedAllOrNothing(page.educationItems.value, EducationEntryOf);
    }
  }

  /** skills is the text of every skill element in order, or [] if reading any fails. */
  lemma SkillsAllOrNothing(page: Page, url: string, now: string)
    requires page.navigation.Loaded?
    ensures var s := CandidateRecord(true, page, url, now).skills.value;
      if page.skillItems.Some? && forall i :: 0 <= i < |page.skillItems.value| ==> page.skillItems.value[i].Some?
      then |s| == |page.skillItems.value| &&
           forall i :: 0 <= i < |s| ==> page.skillItems.value[i] == Some(s[i])
      else s == []
  {
    if page.skillItems.Some? {
      CollectedAllOrNothing(page.skillItems.value, SkillText);
    }
  }
}
