/**
 * The heuristic classifiers: keyword tables and the predicates that decide
 * whether a candidate string is a salary line, a company name or a location.
 * All of them are pure checks on text that has already been read.
 */
module Classify {
  import opened Text
  import opened Wrappers

  /** Markers whose presence in a lower-cased criterion marks it as salary information. */
  const SalaryMarkers: seq<string> := ["$", "€", "£", "₹", "salary", "compensation", "pay"]

  /** Keywords that mark an insight line as a job type. */
  const JobTypeKeywords: seq<string> := ["full-time", "part-time", "contract", "internship"]

  /** Keywords that mark an insight line as a seniority level. */
  const SeniorityKeywords: seq<string> := ["entry level", "associate", "mid-senior", "director", "executive"]

  /** Words that betray a job title picked up where a company name was expected. */
  const TitleWords: seq<string> := ["analyst", "engineer", "manager", "developer", "specialist", "intern", "associate"]

  /** Words that betray a posting age picked up where a location was expected. */
  const RelativeTimeWords: seq<string> := ["ago", "hour", "day", "week", "month", "year", "posted", "within"]

  /** A company name must be strictly shorter than this. */
  const MaxCompanyLength: nat := 100

  predicate MentionsSalary(criterion: string) {
    ContainsAny(Lower(criterion), SalaryMarkers)
  }

  /** A candidate company name: non-empty, shorter than 100 characters and free of job-title words. */
  predicate ValidCompany(candidate: string) {
    candidate != [] && |candidate| < MaxCompanyLength && !ContainsAny(Lower(candidate), TitleWords)
  }

  /** A candidate location: non-empty and free of relative-time words. */
  predicate ValidLocation(candidate: string) {
    candidate != [] && !ContainsAny(Lower(candidate), RelativeTimeWords)
  }

  /** The salary field: the first criterion that mentions a salary marker. */
  function SalaryOf(criteria: seq<string>): (r: Option<string>)
    ensures r.Some? ==> r.value in criteria && MentionsSalary(r.value)
  {
    if criteria == [] then None
    else if MentionsSalary(criteria[0]) then Some(criteria[0])
    else SalaryOf(criteria[1..])
  }

  /** The salary field is the first criterion that mentions a salary marker,
      and it is absent exactly when no criterion does. */
  lemma {:induction false} SalaryIsFirstMention(criteria: seq<string>)
    ensures SalaryOf(criteria).None? <==> forall i :: 0 <= i < |criteria| ==> !MentionsSalary(criteria[i])
    ensures SalaryOf(criteria).Some? ==>
      exists i :: 0 <= i < |criteria| && criteria[i] == SalaryOf(criteria).value &&
        MentionsSalary(criteria[i]) && forall j :: 0 <= j < i ==> !MentionsSalary(criteria[j])
  {
    if criteria != [] && !MentionsSalary(criteria[0]) {
      var tail := criteria[1..];
      SalaryIsFirstMention(tail);
      if SalaryOf(tail).Some? {
        var i :| 0 <= i < |tail| && tail[i] == SalaryOf(tail).value &&
          MentionsSalary(tail[i]) && forall j :: 0 <= j < i ==> !MentionsSalary(tail[j]);
        assert criteria[i + 1] == tail[i];
        assert forall j :: 0 <= j < i + 1 ==> !MentionsSalary(criteria[j]) by {
          forall j | 0 < j < i + 1 ensures !MentionsSalary(criteria[j]) {
            assert criteria[j] == tail[j - 1];
          }
        }
      } else {
        forall i | 0 <= i < |criteria| ensures !MentionsSalary(criteria[i]) {
          if i > 0 { assert criteria[i] == tail[i - 1]; }
        }
      }
    }
  }

  // ----- the classifiers on sample candidates -----

  /** A candidate that reads like a job title is refused as a company name. */
  lemma CompanyRefusesTitle(candidate: string)
    requires candidate == "Senior Engineer Team"
    ensures !ValidCompany(candidate)
  {
    LowerSpec(candidate);
    var low := Lower(candidate);
    assert OccursAt(low, "engineer", 7);
    ContainsSpec(low, "engineer");
    assert "engineer" in TitleWords;
  }

  /** A plain organisation name is accepted as a company name. */
  lemma CompanyAcceptsName(candidate: string)
    requires candidate == "Acme Corp"
    ensures ValidCompany(candidate)
  {
    LowerSpec(candidate);
    var low := Lower(candidate);
    assert low == "acme corp";
    forall w | w in TitleWords ensures !Contains(low, w) {
      if Contains(low, w) {
        var c := if w == "developer" then 'd' else if w == "intern" then 'i'
          else if w in ["analyst", "engineer", "manager"] then 'n' else 's';
        ContainsChars(low, w, c);
      }
    }
  }

  /** A posting age is refused as a location. */
  lemma LocationRefusesAge(candidate: string)
    requires candidate == "3 days ago"
    ensures !ValidLocation(candidate)
  {
    LowerSpec(candidate);
    var low := Lower(candidate);
    assert OccursAt(low, "day", 2);
    ContainsSpec(low, "day");
    assert "day" in RelativeTimeWords;
  }

  lemma PlaceLacksLetter(low: string, c: char)
    requires low == "bengaluru, india" && c in "ohmpwy"
    ensures c !in low
  {
  }

  /** A place name is accepted as a location. */
  lemma LocationAcceptsPlace(candidate: string)
    requires candidate == "Bengaluru, India"
    ensures ValidLocation(candidate)
  {
    LowerSpec(candidate);
    var low := Lower(candidate);
    assert low == "bengaluru, india";
    forall w, c | w in RelativeTimeWords && c in w && c in "ohmpwy" ensures c !in low {
      PlaceLacksLetter(low, c);
    }
    forall w | w in RelativeTimeWords ensures !Contains(low, w) {
      if Contains(low, w) {
        var c := if w == "ago" then 'o' else if w == "hour" then 'h' else if w == "month" then 'm'
          else if w == "posted" then 'p' else if w in ["week", "within"] then 'w' else 'y';
        ContainsChars(low, w, c);
      }
    }
  }
}
