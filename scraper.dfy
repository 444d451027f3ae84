/**
 * The single-posting scraper: it detects the page type from the URL, picks the
 * matching selector catalog, resolves every field through the fallback
 * resolver and assembles one job record, or none when the title is missing.
 */
module Scraper {
  import opened Wrappers
  import opened Text
  import opened Page
  import opened Classify
  import opened Resolve
  import opened Sequences

  datatype PageType = Search | View

  const SearchMarker: string := "/jobs/search/"
  const ViewMarker: string := "/jobs/view/"

  /** Classifies a job URL; anything that is not clearly a view page is read
      as a search page, and the search marker is checked first. */
  function DetectPageType(url: string): (t: PageType)
    ensures Contains(url, SearchMarker) ==> t == Search
    ensures t == View <==> !Contains(url, SearchMarker) && Contains(url, ViewMarker)
  {
    if Contains(url, SearchMarker) then Search
    else if Contains(url, ViewMarker) then View
    else Search
  }

  /** A selector catalog: per field key, the selectors to try, most reliable first. */
  type Catalog = map<string, seq<string>>

  /** `catalog.get(key, [])`. */
  function Lookup(catalog: Catalog, key: string): seq<string> {
    if key in catalog then catalog[key] else []
  }

  const ViewPageSelectors: Catalog := map[
    "title" := [
      ".top-card-layout__title",
      ".top-card-layout__title h1",
      "h1.top-card-layout__title",
      ".job-details-jobs-unified-top-card__job-title h1",
      ".job-details-jobs-unified-top-card__job-title"],
    "company_name" := [
      ".top-card-layout__second-subline a.topcard__org-name-link",
      ".topcard__org-name-link",
      ".top-card-layout__second-subline a",
      ".job-details-jobs-unified-top-card__company-name",
      ".job-details-jobs-unified-top-card__company-name a"],
    "location" := [
      ".top-card-layout__second-subline > div:first-child",
      ".topcard__flavor--bullet",
      ".job-details-jobs-unified-top-card__bullet"],
    "description_container" := [
      ".description__text",
      ".jobs-description-content__text",
      ".jobs-description__content",
      ".job-details-jobs-unified-top-card__job-description",
      ".jobs-box__html-content"],
    "description_show_more_button" := [
      ".description__footer-button",
      ".jobs-description__footer-button",
      ".jobs-description-content__footer button",
      "button[data-tracking-control-name='public_jobs_show-more-html-btn']"],
    "criteria_list" := [
      ".description__job-criteria-list li",
      ".job-details-jobs-unified-top-card__job-insight",
      ".jobs-unified-top-card__job-insight",
      ".job-details-jobs-unified-top-card__job-insight-view-model"]
  ]

  const SearchPageSelectors: Catalog := map[
    "details_pane" := [
      ".scaffold-layout__detail",
      ".jobs-search__job-details",
      ".job-details-jobs-unified-top-card"],
    "title" := [
      ".job-details-jobs-unified-top-card__job-title",
      ".job-details-jobs-unified-top-card__job-title h1",
      ".jobs-unified-top-card__job-title",
      ".jobs-unified-top-card__job-title h1"],
    "company_name" := [
      "div.job-details-jobs-unified-top-card__primary-description-container a",
      ".job-details-jobs-unified-top-card__company-name",
      ".job-details-jobs-unified-top-card__company-name a",
      ".jobs-unified-top-card__subtitle-primary-grouping a"],
    "location" := [
      "div.job-details-jobs-unified-top-card__primary-description-container > div:nth-child(2)",
      ".job-details-jobs-unified-top-card__bullet",
      ".jobs-unified-top-card__bullet"],
    "description_container" := [
      ".jobs-description-content__text",
      ".jobs-description__content",
      ".job-details-jobs-unified-top-card__job-description",
      ".jobs-box__html-content"],
    "description_show_more_button" := [
      ".jobs-description__footer-button",
      ".jobs-description-content__footer button",
      "button[data-tracking-control-name='public_jobs_show-more-html-btn']"],
    "criteria_list" := [
      ".job-details-jobs-unified-top-card__job-insight",
      ".jobs-unified-top-card__job-insight",
      ".job-details-jobs-unified-top-card__job-insight-view-model"]
  ]

  /** The field keys the record extractor reads from a catalog. */
  const RecordFields: seq<string> :=
    ["title", "company_name", "location", "description_container", "description_show_more_button", "criteria_list"]

  /** The catalog for a page type: the view table for view pages, the search table otherwise. */
  function SelectorsFor(t: PageType): Catalog {
    if t == Search then SearchPageSelectors else ViewPageSelectors
  }

  /** Neither catalog is misconfigured: every field the extractor reads has at
      least one selector for either page type. */
  lemma CatalogsCoverRecordFields(t: PageType)
    ensures forall key :: key in RecordFields ==> Lookup(SelectorsFor(t), key) != []
  {
  }

  /** Selectors probed for the posting date, the job type and the seniority. */
  const DateSelectors: seq<string> := [
    ".job-details-jobs-unified-top-card__primary-description-container time",
    ".jobs-unified-top-card__posted-date",
    ".job-details-jobs-unified-top-card__posted-date"]

  const InsightSelectors: seq<string> := [
    ".job-details-jobs-unified-top-card__job-insight span",
    ".jobs-unified-top-card__job-insight span"]

  /** Whether an element's stripped, lower-cased text contains one of `keywords`. */
  predicate Mentions(e: Element, keywords: seq<string>) {
    ContainsAny(Lower(Strip(e.text)), keywords)
  }

  /** The stripped text of the first element that mentions a keyword. */
  function FirstMention(elements: seq<Element>, keywords: seq<string>): Option<string> {
    if elements == [] then None
    else if Mentions(elements[0], keywords) then Some(Strip(elements[0].text))
    else FirstMention(elements[1..], keywords)
  }

  /** The stripped text of the last element that mentions a keyword. */
  function LastMention(elements: seq<Element>, keywords: seq<string>): Option<string> {
    if elements == [] then None
    else match LastMention(elements[1..], keywords) {
      case Some(t) => Some(t)
      case None => if Mentions(elements[0], keywords) then Some(Strip(elements[0].text)) else None
    }
  }

  lemma {:induction false} FirstMentionIsFirst(elements: seq<Element>, keywords: seq<string>)
    ensures FirstMention(elements, keywords).None? <==> forall k :: 0 <= k < |elements| ==> !Mentions(elements[k], keywords)
    ensures FirstMention(elements, keywords).Some? ==>
      (exists k :: 0 <= k < |elements| && Mentions(elements[k], keywords) &&
        FirstMention(elements, keywords).value == Strip(elements[k].text) &&
        forall j :: 0 <= j < k ==> !Mentions(elements[j], keywords))
  {
    if elements != [] && !Mentions(elements[0], keywords) {
      var tail := elements[1..];
      FirstMentionIsFirst(tail, keywords);
      assert forall k :: 0 < k < |elements| ==> elements[k] == tail[k - 1];
      if FirstMention(tail, keywords).Some? {
        var k :| 0 <= k < |tail| && Mentions(tail[k], keywords) &&
          FirstMention(tail, keywords).value == Strip(tail[k].text) &&
          forall j :: 0 <= j < k ==> !Mentions(tail[j], keywords);
        assert elements[k + 1] == tail[k];
      }
    }
  }

  lemma {:induction false} LastMentionIsLast(elements: seq<Element>, keywords: seq<string>)
    ensures LastMention(elements, keywords).None? <==> forall k :: 0 <= k < |elements| ==> !Mentions(elements[k], keywords)
    ensures LastMention(elements, keywords).Some? ==>
      (exists k :: 0 <= k < |elements| && Mentions(elements[k], keywords) &&
        LastMention(elements, keywords).value == Strip(elements[k].text) &&
        forall j :: k < j < |elements| ==> !Mentions(elements[j], keywords))
  {
    if elements != [] {
      var tail := elements[1..];
      LastMentionIsLast(tail, keywords);
      assert forall k :: 0 < k < |elements| ==> elements[k] == tail[k - 1];
      if LastMention(tail, keywords).Some? {
        var k :| 0 <= k < |tail| && Mentions(tail[k], keywords) &&
          LastMention(tail, keywords).value == Strip(tail[k].text) &&
          forall j :: k < j < |tail| ==> !Mentions(tail[j], keywords);
        assert elements[k + 1] == tail[k];
      }
    }
  }

  /** Scanning one more element: it wins when it mentions a keyword. */
  lemma {:induction false} LastMentionAppend(elements: seq<Element>, e: Element, keywords: seq<string>)
    ensures LastMention(elements + [e], keywords) ==
      if Mentions(e, keywords) then Some(Strip(e.text)) else LastMention(elements, keywords)
  {
    if elements == [] {
      assert LastMention([e], keywords) == (if Mentions(e, keywords) then Some(Strip(e.text)) else None) by {
        assert [e][1..] == [];
      }
    } else {
      assert (elements + [e])[1..] == elements[1..] + [e];
      LastMentionAppend(elements[1..], e, keywords);
    }
  }

  /** The job type: the first mention of a job-type keyword, searching the
      selectors in order and stopping at the first selector that has one. */
  function JobTypeScan(doc: Document, selectors: seq<string>): Option<string> {
    if selectors == [] then None
    else match FirstMention(Query(doc, selectors[0]), JobTypeKeywords) {
      case Some(t) => Some(t)
      case None => JobTypeScan(doc, selectors[1..])
    }
  }

  /** The seniority level: within the first selector that has any element
      mentioning a seniority keyword, the LAST such element wins, because the
      source's `break` leaves only the keyword loop. */
  function SeniorityScan(doc: Document, selectors: seq<string>): Option<string> {
    if selectors == [] then None
    else match LastMention(Query(doc, selectors[0]), SeniorityKeywords) {
      case Some(t) => Some(t)
      case None => SeniorityScan(doc, selectors[1..])
    }
  }

  lemma {:induction false} JobTypeIsFirstMention(doc: Document, selectors: seq<string>)
    ensures JobTypeScan(doc, selectors).None? <==>
      forall i :: 0 <= i < |selectors| ==> FirstMention(Query(doc, selectors[i]), JobTypeKeywords).None?
    ensures JobTypeScan(doc, selectors).Some? ==>
      exists i :: 0 <= i < |selectors| && JobTypeScan(doc, selectors) == FirstMention(Query(doc, selectors[i]), JobTypeKeywords) &&
        forall j :: 0 <= j < i ==> FirstMention(Query(doc, selectors[j]), JobTypeKeywords).None?
  {
    if selectors != [] && FirstMention(Query(doc, selectors[0]), JobTypeKeywords).None? {
      var tail := selectors[1..];
      JobTypeIsFirstMention(doc, tail);
      assert forall i :: 0 < i < |selectors| ==> selectors[i] == tail[i - 1];
      if JobTypeScan(doc, tail).Some? {
        var i :| 0 <= i < |tail| && JobTypeScan(doc, tail) == FirstMention(Query(doc, tail[i]), JobTypeKeywords) &&
          forall j :: 0 <= j < i ==> FirstMention(Query(doc, tail[j]), JobTypeKeywords).None?;
        assert selectors[i + 1] == tail[i];
      }
    }
  }

  lemma {:induction false} SeniorityIsLastMentionOfFirstSelector(doc: Document, selectors: seq<string>)
    ensures SeniorityScan(doc, selectors).None? <==>
      forall i :: 0 <= i < |selectors| ==> LastMention(Query(doc, selectors[i]), SeniorityKeywords).None?
    ensures SeniorityScan(doc, selectors).Some? ==>
      exists i :: 0 <= i < |selectors| && SeniorityScan(doc, selectors) == LastMention(Query(doc, selectors[i]), SeniorityKeywords) &&
        forall j :: 0 <= j < i ==> LastMention(Query(doc, selectors[j]), SeniorityKeywords).None?
  {
    if selectors != [] && LastMention(Query(doc, selectors[0]), SeniorityKeywords).None? {
      var tail := selectors[1..];
      SeniorityIsLastMentionOfFirstSelector(doc, tail);
      assert forall i :: 0 < i < |selectors| ==> selectors[i] == tail[i - 1];
      if SeniorityScan(doc, tail).Some? {
        var i :| 0 <= i < |tail| && SeniorityScan(doc, tail) == LastMention(Query(doc, tail[i]), SeniorityKeywords) &&
          forall j :: 0 <= j < i ==> LastMention(Query(doc, tail[j]), SeniorityKeywords).None?;
        assert selectors[i + 1] == tail[i];
      }
    }
  }

  /** The optional extras of a record; an absent key is `None`. */
  datatype AdditionalInfo = AdditionalInfo(postedDate: Option<string>, jobType: Option<string>, seniorityLevel: Option<string>)

  /** One scraped posting. `companyName`, `location` and the description may be
      `None`; only the title is required. */
  datatype JobRecord = JobRecord(
    jobTitle: string,
    companyName: Option<string>,
    location: Option<string>,
    salaryInfo: Option<string>,
    jobCriteria: seq<string>,
    descriptionHtml: Option<string>,
    descriptionText: Option<string>,
    url: string,
    scrapedAt: string,
    postedDate: Option<string>,
    jobType: Option<string>,
    seniorityLevel: Option<string>)

  /** A scraper bound to one job URL and to the document the browser rendered
      for it. The page type and the catalog are fixed at construction. */
  class JobScraper {
    const jobUrl: string
    const doc: Document
    const pageType: PageType
    const selectors: Catalog

    constructor (jobUrl: string, doc: Document)
      ensures this.jobUrl == jobUrl && this.doc == doc
      ensures pageType == DetectPageType(jobUrl)
      ensures selectors == SelectorsFor(pageType)
      ensures pageType == View ==> selectors == ViewPageSelectors
      ensures pageType == Search ==> selectors == SearchPageSelectors
    {
      this.jobUrl := jobUrl;
      this.doc := doc;
      var t := DetectPageType(jobUrl);
      this.pageType := t;
      this.selectors := SelectorsFor(t);
    }

    /** The text resolver's answer for a field key. */
    function TextField(key: string): Option<string> {
      ValueOf(FirstProbe(StrippedText, doc, Lookup(selectors, key)))
    }

    /** The innerHTML resolver's answer for a field key. */
    function HtmlField(key: string): Option<string> {
      ValueOf(FirstProbe(StrippedHtml, doc, Lookup(selectors, key)))
    }

    /** The first stripped non-empty text among the key's selectors; never empty. */
    method GetElementTextWithFallbacks(key: string) returns (text: Option<string>)
      ensures text == TextField(key)
      ensures text.Some? ==> text.value != [] && !IsSpace(text.value[0]) && !IsSpace(text.value[|text.value| - 1])
    {
      var hit := ResolveFirst(StrippedText, doc, Lookup(selectors, key));
      text := ValueOf(hit);
      if hit.Some? {
        StripSpec(Query(doc, hit.value.selector)[0].text);
      }
    }

    /** The first stripped non-empty innerHTML among the key's selectors; never empty. */
    method GetElementHtmlWithFallbacks(key: string) returns (html: Option<string>)
      ensures html == HtmlField(key)
      ensures html.Some? ==> html.value != [] && !IsSpace(html.value[0]) && !IsSpace(html.value[|html.value| - 1])
    {
      var hit := ResolveFirst(StrippedHtml, doc, Lookup(selectors, key));
      html := ValueOf(hit);
      if hit.Some? {
        StripSpec(Query(doc, hit.value.selector)[0].innerHtml);
      }
    }

    /** The non-empty texts of the first of the key's selectors that has any. */
    method GetMultipleElementsText(key: string) returns (texts: seq<string>)
      ensures texts == FirstTexts(doc, Lookup(selectors, key))
      ensures forall k :: 0 <= k < |texts| ==> texts[k] != []
    {
      texts := ResolveAll(doc, Lookup(selectors, key));
    }

    /** Fills the extras: the posting date (first present date element, even
        with empty text), the job type and the seniority level. */
    method ExtractAdditionalInfo() returns (info: AdditionalInfo)
      ensures info.postedDate == ValueOf(FirstProbe(PresentText, doc, DateSelectors))
      ensures info.jobType == JobTypeScan(doc, InsightSelectors)
      ensures info.seniorityLevel == SeniorityScan(doc, InsightSelectors)
    {
      var postedDate := FindPostedDate();
      var jobType := FindJobType();
      var seniority := FindSeniority();
      info := AdditionalInfo(postedDate, jobType, seniority);
    }

    /** The posting date: the stripped text of the first date selector whose
        element is present, with no emptiness check. */
    method FindPostedDate() returns (postedDate: Option<string>)
      ensures postedDate == ValueOf(FirstProbe(PresentText, doc, DateSelectors))
    {
      postedDate := None;
      var i := 0;
      while i < |DateSelectors|
        invariant 0 <= i <= |DateSelectors|
        invariant FirstProbe(PresentText, doc, DateSelectors) == FirstProbe(PresentText, doc, DateSelectors[i..])
      {
        assert DateSelectors[i..][1..] == DateSelectors[i + 1..];
        var elements := Query(doc, DateSelectors[i]);
        if elements != [] {
          postedDate := Some(Strip(elements[0].text));
          return;
        }
        i := i + 1;
      }
    }

    /** The job type: the first insight element, over the selectors in order,
        whose text mentions a job-type keyword. */
    method FindJobType() returns (jobType: Option<string>)
      ensures jobType == JobTypeScan(doc, InsightSelectors)
    {
      jobType := None;
      var s := 0;
      while s < |InsightSelectors|
        invariant 0 <= s <= |InsightSelectors| && jobType.None?
        invariant JobTypeScan(doc, InsightSelectors) == JobTypeScan(doc, InsightSelectors[s..])
      {
        assert InsightSelectors[s..][1..] == InsightSelectors[s + 1..];
        var elements := Query(doc, InsightSelectors[s]);
        var k := 0;
        while k < |elements|
          invariant 0 <= k <= |elements| && jobType.None?
          invariant FirstMention(elements, JobTypeKeywords) == FirstMention(elements[k..], JobTypeKeywords)
        {
          assert elements[k..][1..] == elements[k + 1..];
          var text := Strip(elements[k].text);
          if ContainsAny(Lower(text), JobTypeKeywords) {
            jobType := Some(text);
            break;
          }
          k := k + 1;
        }
        if jobType.Some? {
          return;
        }
        s := s + 1;
      }
    }

    /** The seniority level: the keyword loop's `break` leaves only that loop,
        so every matching element of the selector overwrites the previous one. */
    method FindSeniority() returns (seniority: Option<string>)
      ensures seniority == SeniorityScan(doc, InsightSelectors)
    {
      seniority := None;
      var s := 0;
      while s < |InsightSelectors|
        invariant 0 <= s <= |InsightSelectors| && seniority.None?
        invariant SeniorityScan(doc, InsightSelectors) == SeniorityScan(doc, InsightSelectors[s..])
      {
        assert InsightSelectors[s..][1..] == InsightSelectors[s + 1..];
        var elements := Query(doc, InsightSelectors[s]);
        var k := 0;
        while k < |elements|
          invariant 0 <= k <= |elements|
          invariant seniority == LastMention(elements[..k], SeniorityKeywords)
        {
          assert elements[..k + 1] == elements[..k] + [elements[k]];
          LastMentionAppend(elements[..k], elements[k], SeniorityKeywords);
          var text := Lower(Strip(elements[k].text));
          var w := 0;
          ghost var before := seniority;
          while w < |SeniorityKeywords|
            invariant 0 <= w <= |SeniorityKeywords| && seniority == before
            invariant forall j :: 0 <= j < w ==> !Contains(text, SeniorityKeywords[j])
          {
            if Contains(text, SeniorityKeywords[w]) {
              seniority := Some(Strip(elements[k].text));
              break;
            }
            w := w + 1;
          }
          k := k + 1;
        }
        assert elements[..|elements|] == elements;
        if seniority.Some? {
          return;
        }
        s := s + 1;
      }
    }

    /** Extracts one record, or nothing when the title cannot be resolved. */
    method Run(now: string) returns (record: Option<JobRecord>)
      ensures record.None? <==> TextField("title").None?
      ensures record.Some? ==>
        var r := record.value;
        && Some(r.jobTitle) == TextField("title") && r.jobTitle != []
        && r.url == jobUrl && r.scrapedAt == now
        && r.companyName == TextField("company_name")
        && r.location == TextField("location")
        && r.descriptionHtml == HtmlField("description_container")
        && r.descriptionText == TextField("description_container")
        && r.jobCriteria == FirstTexts(doc, Lookup(selectors, "criteria_list"))
        && r.salaryInfo == SalaryOf(r.jobCriteria)
        && r.postedDate == ValueOf(FirstProbe(PresentText, doc, DateSelectors))
        && r.jobType == JobTypeScan(doc, InsightSelectors)
        && r.seniorityLevel == SeniorityScan(doc, InsightSelectors)
    {
      var title := GetElementTextWithFallbacks("title");
      if title.None? {
        return None;
      }
      var companyName := GetElementTextWithFallbacks("company_name");
      var location := GetElementTextWithFallbacks("location");
      var descriptionHtml := GetElementHtmlWithFallbacks("description_container");
      var descriptionText := GetElementTextWithFallbacks("description_container");
      var criteria := GetMultipleElementsText("criteria_list");
      var info := ExtractAdditionalInfo();

      var salary: Option<string> := None;
      var i := 0;
      while i < |criteria|
        invariant 0 <= i <= |criteria| && salary.None?
        invariant SalaryOf(criteria) == SalaryOf(criteria[i..])
      {
        assert criteria[i..][1..] == criteria[i + 1..];
        if MentionsSalary(criteria[i]) {
          salary := Some(criteria[i]);
          break;
        }
        i := i + 1;
      }

      record := Some(JobRecord(
        title.value, companyName, location, salary, criteria, descriptionHtml, descriptionText,
        jobUrl, now, info.postedDate, info.jobType, info.seniorityLevel));
    }
  }

  /** The characters a file name keeps from a title. */
  predicate SafeChar(c: char) {
    IsAlnum(c) || c == ' ' || c == '-' || c == '_'
  }

  /** The title's safe characters, in order. */
  function KeepSafe(title: string): (r: string)
    ensures forall i :: 0 <= i < |r| ==> SafeChar(r[i])
    ensures IsSubsequence(r, title)
    ensures forall c :: SafeChar(c) ==> multiset(r)[c] == multiset(title)[c]
  {
    if title == [] then []
    else
      assert title == [title[0]] + title[1..];
      if SafeChar(title[0]) then [title[0]] + KeepSafe(title[1..])
      else KeepSafe(title[1..])
  }

  /** `safe_title` of the saved file's name: the safe characters of the title
      with trailing whitespace removed. */
  function SafeTitle(title: string): (r: string)
    ensures forall i :: 0 <= i < |r| ==> SafeChar(r[i])
    ensures IsSubsequence(r, title)
    ensures r == [] || r[|r| - 1] != ' '
    ensures |r| <= |KeepSafe(title)|
    ensures r == KeepSafe(title)[..|r|] && forall i :: |r| <= i < |KeepSafe(title)| ==> KeepSafe(title)[i] == ' '
  {
    var kept := KeepSafe(title);
    var r := TrimRight(kept);
    TrimRightSpec(kept);
    PrefixOfSubsequence(kept, title, |r|);
    r
  }

  /** The name of the JSON file a record is saved to, or nothing when there is
      no record or its title is empty (then nothing is written). */
  function SaveFileName(data: Option<JobRecord>, stamp: string): (name: Option<string>)
    ensures name.None? <==> data.None? || data.value.jobTitle == []
    ensures name.Some? ==> name.value == "job_" + SafeTitle(data.value.jobTitle) + "_" + stamp + ".json"
  {
    if data.None? || data.value.jobTitle == [] then None
    else Some("job_" + SafeTitle(data.value.jobTitle) + "_" + stamp + ".json")
  }
}
