/**
 * The search-results reporter: reads up to `max_jobs` job cards off a
 * search-results page into flat listings, then folds the listings into
 * frequency tables (companies, locations, posting times, title keywords),
 * each shown as its ten most common entries.
 */
module Reporter {
  import opened Wrappers
  import opened Text
  import opened Page
  import opened Classify
  import opened Resolve
  import opened Counting
  import opened Sequences

  // ----- one listing per job card -----

  /** A listing as built from one card. Every listing built from a card has a
      title, a company, a location and an extraction time; posted time,
      description and link are present only when found. The aggregator also
      accepts listings that lack any key, which read as `None`. */
  datatype JobListing = JobListing(
    title: Option<string>,
    company: Option<string>,
    location: Option<string>,
    postedTime: Option<string>,
    description: Option<string>,
    jobLink: Option<string>,
    extractedAt: Option<string>)

  const TitleNotFound: string := "Title not found"
  const CompanyNotFound: string := "Company not found"
  const LocationNotFound: string := "Location not found"

  /** Selectors for the job cards themselves, in the order they are tried. */
  const JobCardSelectors: seq<string> := [
    ".jobs-search-results__list-item",
    ".job-card-container",
    ".jobs-search-results-list__item",
    "[data-job-id]",
    ".job-card-list"
  ]

  const TitleSelectors: seq<string> := [
    ".base-search-card__title",
    ".job-card-list__title",
    ".jobs-unified-top-card__job-title",
    ".job-card-container__link",
    "h3 a",
    ".job-card-list__title-link",
    ".job-card-list__title a"
  ]

  const CompanySelectors: seq<string> := [
    ".artdeco-entity-lockup__subtitle",
    ".base-search-card__subtitle",
    ".job-card-container__company-name",
    ".job-card-list__subtitle",
    ".job-card-container__subtitle",
    ".artdeco-entity-lockup__subtitle span",
    "h4",
    ".job-card-list__company-name"
  ]

  const LocationSelectors: seq<string> := [
    ".job-search-card__location",
    ".artdeco-entity-lockup__caption",
    ".job-card-container__metadata-item",
    ".jobs-unified-top-card__bullet",
    ".job-card-container__metadata-wrapper",
    ".job-card-list__metadata",
    ".job-card-container__secondary-description"
  ]

  const TimeSelectors: seq<string> := [
    ".job-card-container__metadata-item time",
    ".jobs-unified-top-card__subtitle-secondary-grouping time",
    ".job-card-list__metadata time",
    "time"
  ]

  const DescriptionSelectors: seq<string> := [
    ".job-card-list__footer-wrapper",
    ".job-card-container__snippet",
    ".job-card-list__snippet"
  ]

  /** The card-wide link selector tried when the title element yields no link. */
  const FallbackLinkSelector: string := "a.base-card__full-link, a[href*='/jobs/view/']"

  /** The cards of the first card selector that matches any. */
  function FirstCards(page: CardPage, selectors: seq<string>): seq<Card> {
    if selectors == [] then []
    else if QueryCards(page, selectors[0]) != [] then QueryCards(page, selectors[0])
    else FirstCards(page, selectors[1..])
  }

  /** The cards come from the first selector that matches any, and there are
      none exactly when no selector matches. */
  lemma {:induction false} FirstCardsIsFirstHit(page: CardPage, selectors: seq<string>)
    ensures FirstCards(page, selectors) == [] <==>
      forall i :: 0 <= i < |selectors| ==> QueryCards(page, selectors[i]) == []
    ensures FirstCards(page, selectors) != [] ==>
      exists i :: 0 <= i < |selectors| && FirstCards(page, selectors) == QueryCards(page, selectors[i]) &&
        forall j :: 0 <= j < i ==> QueryCards(page, selectors[j]) == []
  {
    if selectors != [] && QueryCards(page, selectors[0]) == [] {
      var tail := selectors[1..];
      FirstCardsIsFirstHit(page, tail);
      if FirstCards(page, tail) != [] {
        var i :| 0 <= i < |tail| && FirstCards(page, tail) == QueryCards(page, tail[i]) &&
          forall j :: 0 <= j < i ==> QueryCards(page, tail[j]) == [];
        assert selectors[i + 1] == tail[i];
        forall j | 0 < j < i + 1 ensures QueryCards(page, selectors[j]) == [] {
          assert selectors[j] == tail[j - 1];
        }
      } else {
        forall i | 0 < i < |selectors| ensures QueryCards(page, selectors[i]) == [] {
          assert selectors[i] == tail[i - 1];
        }
      }
    }
  }

  /** The `href` of the first element `selector` matches, if any. */
  function LinkAt(scope: Document, selector: string): Option<Option<string>> {
    var es := Query(scope, selector);
    if es != [] then Some(es[0].href) else None
  }

  /** The job link once the title was read from `selector`: the title element's
      own `href` when it is an anchor, else that of an anchor inside it, else
      that of the card's job-view anchor, else none. */
  function LinkFor(scope: Document, selector: string): (link: Option<string>)
    ensures var es := Query(scope, selector);
      es != [] && es[0].tag == "a" ==> link == es[0].href
    ensures var es, inner := Query(scope, selector), Query(scope, selector + " a");
      !(es != [] && es[0].tag == "a") && inner != [] ==> link == inner[0].href
    ensures var es, inner, card := Query(scope, selector), Query(scope, selector + " a"), Query(scope, FallbackLinkSelector);
      !(es != [] && es[0].tag == "a") && inner == [] && card != [] ==> link == card[0].href
    ensures var es, inner, card := Query(scope, selector), Query(scope, selector + " a"), Query(scope, FallbackLinkSelector);
      !(es != [] && es[0].tag == "a") && inner == [] && card == [] ==> link.None?
  {
    var es := Query(scope, selector);
    if es != [] && es[0].tag == "a" then es[0].href
    else match LinkAt(scope, selector + " a") {
      case Some(href) => href
      case None =>
        match LinkAt(scope, FallbackLinkSelector) {
          case Some(href) => href
          case None => None
        }
    }
  }

  function TitleHit(card: Card): Option<Hit> {
    FirstProbe(CollapsedTitle, card.scope, TitleSelectors)
  }

  function CardTitle(card: Card): string {
    match TitleHit(card) {
      case Some(h) => h.value
      case None => TitleNotFound
    }
  }

  /** A link is looked for only once a title was found. */
  function CardLink(card: Card): Option<string> {
    match TitleHit(card) {
      case Some(h) => LinkFor(card.scope, h.selector)
      case None => None
    }
  }

  function CardCompany(card: Card): string {
    match FirstProbe(CompanyName, card.scope, CompanySelectors) {
      case Some(h) => h.value
      case None => CompanyNotFound
    }
  }

  function CardLocation(card: Card): string {
    match FirstProbe(LocationName, card.scope, LocationSelectors) {
      case Some(h) => h.value
      case None => LocationNotFound
    }
  }

  function CardPostedTime(card: Card): Option<string> {
    ValueOf(FirstProbe(PresentText, card.scope, TimeSelectors))
  }

  function CardDescription(card: Card): Option<string> {
    ValueOf(FirstProbe(Snippet, card.scope, DescriptionSelectors))
  }

  /** The listing read off one card at time `now`. */
  function ListingOf(card: Card, now: string): JobListing {
    JobListing(Some(CardTitle(card)), Some(CardCompany(card)), Some(CardLocation(card)),
      CardPostedTime(card), CardDescription(card), CardLink(card), Some(now))
  }

  /** A card's title is the single-spaced text of the first title selector
      that yields any, or the sentinel, with no link, when every title
      selector misses; either way it is never empty. A link is present only
      when a title was found. */
  lemma TitleOfCard(card: Card)
    ensures CardTitle(card) != [] && Collapsed(CardTitle(card)) && !IsSpace(CardTitle(card)[0])
    ensures FirstHitIs(CollapsedTitle, card.scope, TitleSelectors, CardTitle(card)) ||
      (AllMiss(CollapsedTitle, card.scope, TitleSelectors) && CardTitle(card) == TitleNotFound && CardLink(card) == None)
    ensures CardLink(card).Some? ==> TitleHit(card).Some?
  {
    FirstProbeIsFirstHit(CollapsedTitle, card.scope, TitleSelectors);
    match TitleHit(card) {
      case Some(h) =>
        CollapseSpec(Query(card.scope, h.selector)[0].text);
      case None =>
        assert forall i :: 0 <= i < |TitleNotFound| && i != 5 && i != 9 ==> !IsSpace(TitleNotFound[i]);
    }
  }

  /** A card's company is the first candidate that passes the company-name
      check (non-empty, under 100 characters, no job-title word), or the
      sentinel when none does. */
  lemma CompanyOfCard(card: Card)
    ensures CardCompany(card) == CompanyNotFound || ValidCompany(CardCompany(card))
    ensures FirstHitIs(CompanyName, card.scope, CompanySelectors, CardCompany(card)) ||
      (AllMiss(CompanyName, card.scope, CompanySelectors) && CardCompany(card) == CompanyNotFound)
  {
    FirstProbeIsFirstHit(CompanyName, card.scope, CompanySelectors);
  }

  /** A card's location is the first candidate that passes the location check
      (non-empty, no relative-time word), or the sentinel when none does. */
  lemma LocationOfCard(card: Card)
    ensures CardLocation(card) == LocationNotFound || ValidLocation(CardLocation(card))
    ensures FirstHitIs(LocationName, card.scope, LocationSelectors, CardLocation(card)) ||
      (AllMiss(LocationName, card.scope, LocationSelectors) && CardLocation(card) == LocationNotFound)
  {
    FirstProbeIsFirstHit(LocationName, card.scope, LocationSelectors);
  }

  /** A description is at most 200 characters of the first snippet element's
      stripped text followed by an ellipsis, absent when no snippet selector
      matches; a posted time is present exactly when some time selector matches. */
  lemma SnippetsOfCard(card: Card)
    ensures CardDescription(card).Some? ==>
      var d := CardDescription(card).value; 3 <= |d| <= 203 && d[|d| - 3..] == "..."
    ensures CardDescription(card).None? <==>
      forall i :: 0 <= i < |DescriptionSelectors| ==> Query(card.scope, DescriptionSelectors[i]) == []
    ensures CardPostedTime(card).None? <==>
      forall i :: 0 <= i < |TimeSelectors| ==> Query(card.scope, TimeSelectors[i]) == []
  {
    FirstProbeIsFirstHit(Snippet, card.scope, DescriptionSelectors);
    FirstProbeIsFirstHit(PresentText, card.scope, TimeSelectors);
  }

  /** Python's `len(cards[:limit])`, negative limits counting from the end. */
  function SliceLength(n: nat, limit: int): (r: nat)
    ensures r <= n
    ensures 0 <= limit ==> r == (if limit < n then limit else n)
    ensures limit < 0 ==> r == (if n + limit > 0 then n + limit else 0)
  {
    if limit >= 0 then (if limit < n then limit else n)
    else if n + limit > 0 then n + limit else 0
  }

  /** One card's fields, each by its own fallback loop. */
  method ExtractCard(card: Card, now: string) returns (job: JobListing)
    ensures job == ListingOf(card, now)
  {
    var titleHit := ResolveFirst(CollapsedTitle, card.scope, TitleSelectors);
    var title := TitleNotFound;
    var link: Option<string> := None;
    if titleHit.Some? {
      title := titleHit.value.value;
      link := LinkFor(card.scope, titleHit.value.selector);
    }
    var companyHit := ResolveFirst(CompanyName, card.scope, CompanySelectors);
    var company := if companyHit.Some? then companyHit.value.value else CompanyNotFound;
    var locationHit := ResolveFirst(LocationName, card.scope, LocationSelectors);
    var location := if locationHit.Some? then locationHit.value.value else LocationNotFound;
    var timeHit := ResolveFirst(PresentText, card.scope, TimeSelectors);
    var descriptionHit := ResolveFirst(Snippet, card.scope, DescriptionSelectors);
    job := JobListing(Some(title), Some(company), Some(location),
      ValueOf(timeHit), ValueOf(descriptionHit), link, Some(now));
  }

  /** The card-selector loop: stops at the first selector that matches any card. */
  method FindJobCards(page: CardPage) returns (cards: seq<Card>)
    ensures cards == FirstCards(page, JobCardSelectors)
  {
    cards := [];
    var s := 0;
    while s < |JobCardSelectors|
      invariant 0 <= s <= |JobCardSelectors|
      invariant FirstCards(page, JobCardSelectors) == FirstCards(page, JobCardSelectors[s..])
      invariant cards == []
    {
      assert JobCardSelectors[s..][1..] == JobCardSelectors[s + 1..];
      cards := QueryCards(page, JobCardSelectors[s]);
      if cards != [] {
        assert FirstCards(page, JobCardSelectors[s..]) == cards;
        break;
      }
      s := s + 1;
    }
  }

  /** The listings of the first `maxJobs` cards (Python slice semantics) of the
      first card selector that matches any, in card order; none when no
      selector matches. */
  method ExtractJobListings(page: CardPage, maxJobs: int, now: string) returns (jobs: seq<JobListing>)
    ensures |jobs| == SliceLength(|FirstCards(page, JobCardSelectors)|, maxJobs)
    ensures 0 <= maxJobs ==> |jobs| <= maxJobs
    ensures forall i :: 0 <= i < |jobs| ==> jobs[i] == ListingOf(FirstCards(page, JobCardSelectors)[i], now)
  {
    var cards := FindJobCards(page);
    if cards == [] {
      return [];
    }
    var limit := SliceLength(|cards|, maxJobs);
    jobs := [];
    var i := 0;
    while i < limit
      invariant 0 <= i <= limit && |jobs| == i
      invariant forall k :: 0 <= k < i ==> jobs[k] == ListingOf(cards[k], now)
    {
      var job := ExtractCard(cards[i], now);
      jobs := jobs + [job];
      i := i + 1;
    }
  }

  // ----- analysis -----

  /** The three per-field counters. */
  datatype Field = CompanyField | LocationField | TimeField

  /** The value a field's counter never counts. */
  function Excluded(field: Field): string {
    match field
    case CompanyField => CompanyNotFound
    case LocationField => LocationNotFound
    case TimeField => ""
  }

  /** A listing's entry for a field, `None` when the key is missing. */
  function Raw(field: Field, job: JobListing): Option<string> {
    match field
    case CompanyField => job.company
    case LocationField => job.location
    case TimeField => job.postedTime
  }

  /** What a listing contributes to a field's counter: its value, `"Unknown"`
      when the key is missing, nothing when it is the excluded value. */
  function KeyOf(field: Field, job: JobListing): (k: Option<string>)
    ensures k.Some? ==> k.value != Excluded(field)
    ensures Raw(field, job).None? ==> k == Some("Unknown")
    ensures Raw(field, job).Some? && Raw(field, job).value != Excluded(field) ==> k == Raw(field, job)
    ensures Raw(field, job) == Some(Excluded(field)) ==> k.None?
  {
    var v := Raw(field, job).GetOr("Unknown");
    if v != Excluded(field) then Some(v) else None
  }

  function KeyList(k: Option<string>): seq<string> {
    match k
    case Some(v) => [v]
    case None => []
  }

  /** The keys a field's counter is fed, in listing order. */
  function Keys(field: Field, jobs: seq<JobListing>): (ks: seq<string>)
    ensures |ks| <= |jobs|
    ensures forall i :: 0 <= i < |ks| ==> ks[i] != Excluded(field)
    decreases |jobs|
  {
    if jobs == [] then []
    else Keys(field, jobs[..|jobs| - 1]) + KeyList(KeyOf(field, jobs[|jobs| - 1]))
  }

  /** The number of listings whose value for `field` is `k`. */
  function JobsWith(field: Field, jobs: seq<JobListing>, k: string): (n: nat)
    ensures n <= |jobs|
    decreases |jobs|
  {
    if jobs == [] then 0
    else JobsWith(field, jobs[..|jobs| - 1], k) + (if KeyOf(field, jobs[|jobs| - 1]) == Some(k) then 1 else 0)
  }

  /** A field's counter counts each value once per listing that has it. */
  lemma {:induction false} KeysCountJobs(field: Field, jobs: seq<JobListing>, k: string)
    ensures multiset(Keys(field, jobs))[k] == JobsWith(field, jobs, k)
    decreases |jobs|
  {
    if jobs != [] {
      KeysCountJobs(field, jobs[..|jobs| - 1], k);
    }
  }

  /** The keys counted are exactly the listings' values other than the excluded one. */
  lemma {:induction false} KeysAreJobValues(field: Field, jobs: seq<JobListing>)
    ensures forall k :: k in Keys(field, jobs) <==> exists j :: j in jobs && KeyOf(field, j) == Some(k)
    decreases |jobs|
  {
    if jobs != [] {
      var front, last := jobs[..|jobs| - 1], jobs[|jobs| - 1];
      KeysAreJobValues(field, front);
      assert jobs == front + [last];
      forall k | exists j :: j in jobs && KeyOf(field, j) == Some(k)
        ensures k in Keys(field, jobs)
      {
        var j :| j in jobs && KeyOf(field, j) == Some(k);
        if j != last {
          assert j in front;
        }
      }
    }
  }

  /** `len(counter)`: the number of distinct values, other than the excluded one, among the listings. */
  lemma UniqueCount(field: Field, jobs: seq<JobListing>)
    ensures |Tally(Keys(field, jobs)).keys| ==
      |set j | j in jobs && KeyOf(field, j).Some? :: KeyOf(field, j).value|
  {
    var ks := Keys(field, jobs);
    TallySize(ks);
    KeysAreJobValues(field, jobs);
    assert (set k | k in ks) == (set j | j in jobs && KeyOf(field, j).Some? :: KeyOf(field, j).value);
  }

  /** The title keywords, in the order they are checked. */
  const TitleVocabulary: seq<string> :=
    ["analyst", "senior", "junior", "manager", "engineer", "developer", "specialist", "lead", "principal", "director"]

  lemma VocabularyDistinct()
    ensures Distinct(TitleVocabulary)
  {
  }

  function LoweredTitle(job: JobListing): string {
    Lower(job.title.GetOr(""))
  }

  /** A title is scanned for keywords unless it is empty or the not-found sentinel. */
  predicate TitleCounted(job: JobListing) {
    LoweredTitle(job) != [] && LoweredTitle(job) != "title not found"
  }

  /** The keywords of `vocab` that occur in `title`, in vocabulary order. */
  function KeywordsIn(title: string, vocab: seq<string>): (kws: seq<string>)
    ensures forall i :: 0 <= i < |kws| ==> kws[i] in vocab && Contains(title, kws[i])
    ensures IsSubsequence(kws, vocab)
    decreases |vocab|
  {
    if vocab == [] then []
    else
      var front, kw := vocab[..|vocab| - 1], vocab[|vocab| - 1];
      var found := KeywordsIn(title, front);
      assert vocab == front + [kw];
      SubsequenceSnoc(found, front, kw);
      if Contains(title, kw) then found + [kw] else found
  }

  /** Checking one more keyword appends it exactly when the title contains it. */
  lemma KeywordsInStep(title: string, vocab: seq<string>, k: nat)
    requires k < |vocab|
    ensures KeywordsIn(title, vocab[..k + 1]) ==
      KeywordsIn(title, vocab[..k]) + (if Contains(title, vocab[k]) then [vocab[k]] else [])
  {
    assert vocab[..k + 1][..k] == vocab[..k];
  }

  function TitleKeywords(job: JobListing): seq<string> {
    if TitleCounted(job) then KeywordsIn(LoweredTitle(job), TitleVocabulary) else []
  }

  /** The keywords the keyword counter is fed, in listing order. */
  function KeywordStream(jobs: seq<JobListing>): seq<string>
    decreases |jobs|
  {
    if jobs == [] then [] else KeywordStream(jobs[..|jobs| - 1]) + TitleKeywords(jobs[|jobs| - 1])
  }

  /** The number of listings whose scanned title contains `kw`. */
  function TitlesWith(jobs: seq<JobListing>, kw: string): (n: nat)
    ensures n <= |jobs|
    decreases |jobs|
  {
    if jobs == [] then 0
    else
      var last := jobs[|jobs| - 1];
      TitlesWith(jobs[..|jobs| - 1], kw) + (if TitleCounted(last) && Contains(LoweredTitle(last), kw) then 1 else 0)
  }

  /** Scanning a title yields each vocabulary keyword it contains exactly once. */
  lemma {:induction false} KeywordsInOnce(title: string, vocab: seq<string>, kw: string)
    requires Distinct(vocab)
    ensures multiset(KeywordsIn(title, vocab))[kw] == if kw in vocab && Contains(title, kw) then 1 else 0
    decreases |vocab|
  {
    if vocab != [] {
      var front := vocab[..|vocab| - 1];
      KeywordsInOnce(title, front, kw);
      assert vocab == front + [vocab[|vocab| - 1]];
      assert kw == vocab[|vocab| - 1] ==> kw !in front;
    }
  }

  /** A keyword's count is the number of scanned titles containing it (so at
      most one per listing); a word outside the vocabulary is never counted. */
  lemma {:induction false} KeywordCounts(jobs: seq<JobListing>, kw: string)
    ensures multiset(KeywordStream(jobs))[kw] == if kw in TitleVocabulary then TitlesWith(jobs, kw) else 0
    decreases |jobs|
  {
    if jobs != [] {
      var last := jobs[|jobs| - 1];
      KeywordCounts(jobs[..|jobs| - 1], kw);
      if TitleCounted(last) {
        VocabularyDistinct();
        KeywordsInOnce(LoweredTitle(last), TitleVocabulary, kw);
      }
    }
  }

  /** Each top-ten list has at most this many entries. */
  const TopK: nat := 10

  /** `analyze_job_data`'s result: `{}` for no listings. */
  datatype Analysis =
    | NoJobs
    | Stats(
        totalJobs: nat,
        extractionDate: string,
        companies: seq<(string, nat)>,
        locations: seq<(string, nat)>,
        postingTimes: seq<(string, nat)>,
        titleKeywords: seq<(string, nat)>,
        uniqueCompanies: nat,
        uniqueLocations: nat)

  /** The analysis of `jobs` made at time `now`. */
  function Analyze(jobs: seq<JobListing>, now: string): Analysis {
    if jobs == [] then NoJobs
    else
      var companies := Tally(Keys(CompanyField, jobs));
      var locations := Tally(Keys(LocationField, jobs));
      Stats(|jobs|, now,
        MostCommon(companies, TopK),
        MostCommon(locations, TopK),
        MostCommon(Tally(Keys(TimeField, jobs)), TopK),
        MostCommon(Tally(KeywordStream(jobs)), TopK),
        |companies.keys|, |locations.keys|)
  }

  /** One more listing feeds its key, if any, to the field's counter. */
  lemma KeysStep(field: Field, jobs: seq<JobListing>, i: nat)
    requires i < |jobs|
    ensures Tally(Keys(field, jobs[..i + 1])) ==
      match KeyOf(field, jobs[i]) {
        case Some(k) => Increment(Tally(Keys(field, jobs[..i])), k)
        case None => Tally(Keys(field, jobs[..i]))
      }
  {
    assert jobs[..i + 1][..i] == jobs[..i];
    var ks := Keys(field, jobs[..i]);
    match KeyOf(field, jobs[i]) {
      case Some(k) =>
        TallyAppend(ks, k);
      case None =>
        assert ks + [] == ks;
    }
  }

  /** A field's counting loop. */
  method CountField(field: Field, jobs: seq<JobListing>) returns (c: Counter)
    ensures c == Tally(Keys(field, jobs))
  {
    c := EmptyCounter;
    var i := 0;
    while i < |jobs|
      invariant 0 <= i <= |jobs|
      invariant c == Tally(Keys(field, jobs[..i]))
    {
      KeysStep(field, jobs, i);
      var key := KeyOf(field, jobs[i]);
      if key.Some? {
        c := Increment(c, key.value);
      }
      i := i + 1;
    }
    assert jobs[..i] == jobs;
  }

  /** The inner keyword loop: one scanned title checked against every keyword. */
  method ScanTitle(ghost before: seq<string>, c0: Counter, title: string) returns (c: Counter)
    requires c0 == Tally(before)
    ensures c == Tally(before + KeywordsIn(title, TitleVocabulary))
  {
    c := c0;
    var k := 0;
    assert before + KeywordsIn(title, TitleVocabulary[..0]) == before;
    while k < |TitleVocabulary|
      invariant 0 <= k <= |TitleVocabulary|
      invariant c == Tally(before + KeywordsIn(title, TitleVocabulary[..k]))
    {
      ghost var done := before + KeywordsIn(title, TitleVocabulary[..k]);
      KeywordsInStep(title, TitleVocabulary, k);
      var kw := TitleVocabulary[k];
      if Contains(title, kw) {
        assert before + KeywordsIn(title, TitleVocabulary[..k + 1]) == done + [kw];
        TallyAppend(done, kw);
        c := Increment(c, kw);
      } else {
        assert before + KeywordsIn(title, TitleVocabulary[..k + 1]) == done;
      }
      k := k + 1;
    }
    assert TitleVocabulary[..k] == TitleVocabulary;
  }

  lemma KeywordStreamStep(jobs: seq<JobListing>, i: nat)
    requires i < |jobs|
    ensures KeywordStream(jobs[..i + 1]) == KeywordStream(jobs[..i]) + TitleKeywords(jobs[i])
    ensures !TitleCounted(jobs[i]) ==> KeywordStream(jobs[..i + 1]) == KeywordStream(jobs[..i])
  {
    assert jobs[..i + 1][..i] == jobs[..i];
    assert KeywordStream(jobs[..i]) + [] == KeywordStream(jobs[..i]);
  }

  /** The keyword loop: each scanned title is checked against every keyword in turn. */
  method CountKeywords(jobs: seq<JobListing>) returns (c: Counter)
    ensures c == Tally(KeywordStream(jobs))
  {
    c := EmptyCounter;
    var i := 0;
    while i < |jobs|
      invariant 0 <= i <= |jobs|
      invariant c == Tally(KeywordStream(jobs[..i]))
    {
      KeywordStreamStep(jobs, i);
      var title := LoweredTitle(jobs[i]);
      if title != [] && title != "title not found" {
        c := ScanTitle(KeywordStream(jobs[..i]), c, title);
      }
      i := i + 1;
    }
    assert jobs[..i] == jobs;
  }

  /** `analyze_job_data`: nothing for no listings; otherwise the listing count,
      the time of analysis, the four top-ten lists and the two distinct counts. */
  method AnalyzeJobData(jobs: seq<JobListing>, now: string) returns (a: Analysis)
    ensures a == Analyze(jobs, now)
    ensures a.NoJobs? <==> jobs == []
    ensures a.Stats? ==> a.totalJobs == |jobs| && a.extractionDate == now
  {
    if jobs == [] {
      return NoJobs;
    }
    var companies := CountField(CompanyField, jobs);
    var locations := CountField(LocationField, jobs);
    var times := CountField(TimeField, jobs);
    var keywords := CountKeywords(jobs);
    a := Stats(|jobs|, now,
      MostCommon(companies, TopK),
      MostCommon(locations, TopK),
      MostCommon(times, TopK),
      MostCommon(keywords, TopK),
      |companies.keys|, |locations.keys|);
  }

  // ----- what the top-ten lists mean -----

  /** A field's top-ten list holds at most ten entries, each a value other
      than the field's excluded one (the not-found sentinel, or the empty
      posting time) paired with the number of listings that have it. */
  lemma FieldTableEntries(field: Field, jobs: seq<JobListing>)
    ensures var top := MostCommon(Tally(Keys(field, jobs)), TopK);
      |top| <= TopK &&
      forall i :: 0 <= i < |top| ==>
        top[i].0 != Excluded(field) && top[i].0 in Keys(field, jobs) &&
        0 < top[i].1 == JobsWith(field, jobs, top[i].0)
  {
    var ks := Keys(field, jobs);
    var top := MostCommon(Tally(ks), TopK);
    MostCommonOfTallyEntries(ks, TopK);
    forall i | 0 <= i < |top|
      ensures top[i].0 != Excluded(field) && 0 < top[i].1 == JobsWith(field, jobs, top[i].0)
    {
      var k := top[i].0;
      var p :| 0 <= p < |ks| && ks[p] == k;
      KeysCountJobs(field, jobs, k);
    }
  }

  /** A field's top-ten list is ranked by descending count, ties in order of
      first appearance among the listings. */
  lemma FieldTableOrdered(field: Field, jobs: seq<JobListing>)
    ensures var ks := Keys(field, jobs); var top := MostCommon(Tally(ks), TopK);
      forall i, j :: 0 <= i < j < |top| ==>
        top[i].0 in ks && top[j].0 in ks &&
        (top[i].1 > top[j].1 || (top[i].1 == top[j].1 && FirstIndex(ks, top[i].0) < FirstIndex(ks, top[j].0)))
  {
    MostCommonOfTallyEntries(Keys(field, jobs), TopK);
    MostCommonOfTallyOrdered(Keys(field, jobs), TopK);
  }

  /** A counted value that a field's top-ten list leaves out ranks after
      every value it lists. */
  lemma FieldTableIsTop(field: Field, jobs: seq<JobListing>, k: string)
    requires k in Keys(field, jobs)
    requires forall i :: 0 <= i < |MostCommon(Tally(Keys(field, jobs)), TopK)| ==>
      MostCommon(Tally(Keys(field, jobs)), TopK)[i].0 != k
    ensures var ks := Keys(field, jobs); var top := MostCommon(Tally(ks), TopK);
      forall i :: 0 <= i < |top| ==>
        (top[i].0 in ks &&
         (top[i].1 > JobsWith(field, jobs, k) ||
          (top[i].1 == JobsWith(field, jobs, k) && FirstIndex(ks, top[i].0) < FirstIndex(ks, k))))
  {
    var ks := Keys(field, jobs);
    MostCommonOfTallyEntries(ks, TopK);
    KeysCountJobs(field, jobs, k);
    MostCommonOfTallyIsTop(ks, TopK, k);
  }

  /** The title-keyword top-ten list: each entry a vocabulary keyword paired
      with the number of scanned titles containing it, hence at most the
      number of listings; ranked by descending count, ties in order of first
      appearance. */
  lemma KeywordTable(jobs: seq<JobListing>)
    ensures var top := MostCommon(Tally(KeywordStream(jobs)), TopK);
      forall i :: 0 <= i < |top| ==>
        top[i].0 in TitleVocabulary && 0 < top[i].1 == TitlesWith(jobs, top[i].0) <= |jobs|
    ensures var ks := KeywordStream(jobs); var top := MostCommon(Tally(ks), TopK);
      forall i, j :: 0 <= i < j < |top| ==>
        top[i].0 in ks && top[j].0 in ks &&
        (top[i].1 > top[j].1 || (top[i].1 == top[j].1 && FirstIndex(ks, top[i].0) < FirstIndex(ks, top[j].0)))
  {
    var ks := KeywordStream(jobs);
    var top := MostCommon(Tally(ks), TopK);
    MostCommonOfTallyEntries(ks, TopK);
    MostCommonOfTallyOrdered(ks, TopK);
    forall i | 0 <= i < |top|
      ensures top[i].0 in TitleVocabulary && 0 < top[i].1 == TitlesWith(jobs, top[i].0)
    {
      KeywordCounts(jobs, top[i].0);
    }
  }
}
