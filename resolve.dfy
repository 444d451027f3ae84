/**
 * The field resolver: a field's selectors are tried in order, and the first
 * one whose element is present AND whose extracted value passes the field's
 * acceptance check wins. An element that is present but yields an unacceptable
 * value (typically empty text) does not count as a match.
 */
module Resolve {
  import opened Wrappers
  import opened Text
  import opened Page
  import opened Classify

  /** How a field is read off the first matching element, and what is accepted. */
  datatype Extraction =
    | StrippedText    // `.text.strip()`, accepted when non-empty
    | StrippedHtml    // `get_attribute('innerHTML').strip()`, accepted when non-empty
    | CollapsedTitle  // `' '.join(.text.strip().split())`, accepted when non-empty
    | CompanyName     // collapsed text, accepted when it is a valid company name
    | LocationName    // collapsed text, accepted when it is a valid location
    | PresentText     // `.text.strip()`, accepted whatever it is
    | Snippet         // `.text.strip()[:200] + "..."`, accepted whatever it is

  /** The description snippet of a job card: at most 200 characters and an ellipsis. */
  function Ellipsized(s: string): (r: string)
    ensures 3 <= |r| <= 203 && |r| - 3 <= |s|
    ensures |s| <= 200 ==> |r| == |s| + 3
    ensures |s| > 200 ==> |r| == 203
    ensures r[|r| - 3..] == "..."
    ensures r[..|r| - 3] == s[..|r| - 3]
  {
    (if |s| <= 200 then s else s[..200]) + "..."
  }

  function Extract(how: Extraction, e: Element): string {
    match how
    case StrippedText => Strip(e.text)
    case StrippedHtml => Strip(e.innerHtml)
    case CollapsedTitle => Collapse(e.text)
    case CompanyName => Collapse(e.text)
    case LocationName => Collapse(e.text)
    case PresentText => Strip(e.text)
    case Snippet => Ellipsized(Strip(e.text))
  }

  predicate Accepts(how: Extraction, v: string) {
    match how
    case StrippedText => v != []
    case StrippedHtml => v != []
    case CollapsedTitle => v != []
    case CompanyName => ValidCompany(v)
    case LocationName => ValidLocation(v)
    case PresentText => true
    case Snippet => true
  }

  /** One selector tried once: its first element's value, when present and accepted. */
  function Probe(how: Extraction, doc: Document, selector: string): Option<string> {
    var es := Query(doc, selector);
    if es != [] && Accepts(how, Extract(how, es[0])) then Some(Extract(how, es[0])) else None
  }

  /** The winning selector and the value it produced. */
  datatype Hit = Hit(selector: string, value: string)

  /** The optional value of a resolver hit. */
  function ValueOf(h: Option<Hit>): (v: Option<string>)
    ensures v.Some? <==> h.Some?
    ensures h.Some? ==> v.value == h.value.value
  {
    match h
    case Some(hit) => Some(hit.value)
    case None => None
  }

  /** The resolver's answer: the first selector whose probe succeeds. */
  function FirstProbe(how: Extraction, doc: Document, selectors: seq<string>): (r: Option<Hit>)
    ensures r.Some? ==> r.value.selector in selectors && Accepts(how, r.value.value)
    ensures r.Some? ==> Probe(how, doc, r.value.selector) == Some(r.value.value)
  {
    if selectors == [] then None
    else match Probe(how, doc, selectors[0]) {
      case Some(v) => Some(Hit(selectors[0], v))
      case None => FirstProbe(how, doc, selectors[1..])
    }
  }

  /** `v` is the value of the selector at some position, and every earlier selector misses. */
  predicate FirstHitIs(how: Extraction, doc: Document, selectors: seq<string>, v: string) {
    exists i :: 0 <= i < |selectors| && Probe(how, doc, selectors[i]) == Some(v) &&
      forall j :: 0 <= j < i ==> Probe(how, doc, selectors[j]).None?
  }

  predicate AllMiss(how: Extraction, doc: Document, selectors: seq<string>) {
    forall i :: 0 <= i < |selectors| ==> Probe(how, doc, selectors[i]).None?
  }

  /** The resolver returns the value of the first selector whose element is
      present and acceptable; every earlier selector missed (absent, or present
      with an unacceptable value); nothing is returned exactly when every
      selector misses. */
  lemma {:induction false} FirstProbeIsFirstHit(how: Extraction, doc: Document, selectors: seq<string>)
    ensures FirstProbe(how, doc, selectors).None? <==>
      forall i :: 0 <= i < |selectors| ==> Probe(how, doc, selectors[i]).None?
    ensures FirstProbe(how, doc, selectors).Some? ==>
      exists i :: 0 <= i < |selectors| && selectors[i] == FirstProbe(how, doc, selectors).value.selector &&
        Probe(how, doc, selectors[i]) == Some(FirstProbe(how, doc, selectors).value.value) &&
        forall j :: 0 <= j < i ==> Probe(how, doc, selectors[j]).None?
  {
    if selectors != [] && Probe(how, doc, selectors[0]).None? {
      var tail := selectors[1..];
      FirstProbeIsFirstHit(how, doc, tail);
      if FirstProbe(how, doc, tail).Some? {
        var i :| 0 <= i < |tail| && tail[i] == FirstProbe(how, doc, tail).value.selector &&
          Probe(how, doc, tail[i]) == Some(FirstProbe(how, doc, tail).value.value) &&
          forall j :: 0 <= j < i ==> Probe(how, doc, tail[j]).None?;
        assert selectors[i + 1] == tail[i];
        forall j | 0 < j < i + 1 ensures Probe(how, doc, selectors[j]).None? {
          assert selectors[j] == tail[j - 1];
        }
      } else {
        forall i | 0 < i < |selectors| ensures Probe(how, doc, selectors[i]).None? {
          assert selectors[i] == tail[i - 1];
        }
      }
    }
  }

  /** The fallback loop: waits for each selector in turn and returns on the
      first element whose extracted value is acceptable. */
  method ResolveFirst(how: Extraction, doc: Document, selectors: seq<string>) returns (r: Option<Hit>)
    ensures r == FirstProbe(how, doc, selectors)
  {
    var i := 0;
    while i < |selectors|
      invariant 0 <= i <= |selectors|
      invariant FirstProbe(how, doc, selectors) == FirstProbe(how, doc, selectors[i..])
    {
      assert selectors[i..][1..] == selectors[i + 1..];
      var elements := Query(doc, selectors[i]);
      if elements != [] {
        var value := Extract(how, elements[0]);
        if Accepts(how, value) {
          return Some(Hit(selectors[i], value));
        }
      }
      i := i + 1;
    }
    return None;
  }

  /** An element that is present but empty is passed over for the next selector. */
  lemma SkipsEmptyElement(doc: Document, empty: Element, named: Element)
    requires empty.text == "" && named.text == "Acme"
    requires doc == map[".a" := [empty], ".b" := [named]]
    ensures FirstProbe(StrippedText, doc, [".a", ".b"]) == Some(Hit(".b", "Acme"))
  {
    StripSpec(empty.text);
    StripSpec(named.text);
    assert [".a", ".b"][1..] == [".b"];
  }

  /** The stripped, non-empty texts of `elements`, in order. */
  function NonEmptyTexts(elements: seq<Element>): (texts: seq<string>)
    ensures |texts| <= |elements|
    ensures forall k :: 0 <= k < |texts| ==> texts[k] != []
    ensures texts == [] <==> forall k :: 0 <= k < |elements| ==> Strip(elements[k].text) == []
  {
    if elements == [] then []
    else
      var t := Strip(elements[0].text);
      var rest := NonEmptyTexts(elements[1..]);
      assert forall k :: 0 < k < |elements| ==> elements[k] == elements[1..][k - 1];
      if t != [] then [t] + rest else rest
  }

  /** A single element contributes its stripped text exactly when that is non-empty. */
  lemma NonEmptyTextsOfOne(e: Element)
    ensures NonEmptyTexts([e]) == if Strip(e.text) != [] then [Strip(e.text)] else []
  {
    assert [e][1..] == [];
  }

  /** The texts of two runs of elements are the texts of each, in element
      order; with `NonEmptyTextsOfOne` this fixes every element's contribution. */
  lemma {:induction false} NonEmptyTextsAppend(a: seq<Element>, b: seq<Element>)
    ensures NonEmptyTexts(a + b) == NonEmptyTexts(a) + NonEmptyTexts(b)
    decreases |a|
  {
    if a == [] {
      assert a + b == b;
    } else {
      assert (a + b)[0] == a[0];
      assert (a + b)[1..] == a[1..] + b;
      NonEmptyTextsAppend(a[1..], b);
    }
  }

  /** The multi-element resolver's answer: the non-empty texts of the first
      selector that yields any; never a mix of two selectors' elements. */
  function FirstTexts(doc: Document, selectors: seq<string>): seq<string> {
    if selectors == [] then []
    else
      var texts := NonEmptyTexts(Query(doc, selectors[0]));
      if texts != [] then texts else FirstTexts(doc, selectors[1..])
  }

  lemma {:induction false} FirstTextsIsFirstHit(doc: Document, selectors: seq<string>)
    ensures FirstTexts(doc, selectors) == [] <==>
      forall i :: 0 <= i < |selectors| ==> NonEmptyTexts(Query(doc, selectors[i])) == []
    ensures FirstTexts(doc, selectors) != [] ==>
      exists i :: 0 <= i < |selectors| && FirstTexts(doc, selectors) == NonEmptyTexts(Query(doc, selectors[i])) &&
        forall j :: 0 <= j < i ==> NonEmptyTexts(Query(doc, selectors[j])) == []
  {
    if selectors != [] && NonEmptyTexts(Query(doc, selectors[0])) == [] {
      var tail := selectors[1..];
      FirstTextsIsFirstHit(doc, tail);
      if FirstTexts(doc, tail) != [] {
        var i :| 0 <= i < |tail| && FirstTexts(doc, tail) == NonEmptyTexts(Query(doc, tail[i])) &&
          forall j :: 0 <= j < i ==> NonEmptyTexts(Query(doc, tail[j])) == [];
        assert selectors[i + 1] == tail[i];
        forall j | 0 < j < i + 1 ensures NonEmptyTexts(Query(doc, selectors[j])) == [] {
          assert selectors[j] == tail[j - 1];
        }
      } else {
        forall i | 0 < i < |selectors| ensures NonEmptyTexts(Query(doc, selectors[i])) == [] {
          assert selectors[i] == tail[i - 1];
        }
      }
    }
  }

  /** The multi-element fallback loop. */
  method ResolveAll(doc: Document, selectors: seq<string>) returns (texts: seq<string>)
    ensures texts == FirstTexts(doc, selectors)
    ensures forall k :: 0 <= k < |texts| ==> texts[k] != []
  {
    var i := 0;
    while i < |selectors|
      invariant 0 <= i <= |selectors|
      invariant FirstTexts(doc, selectors) == FirstTexts(doc, selectors[i..])
    {
      assert selectors[i..][1..] == selectors[i + 1..];
      var elements := Query(doc, selectors[i]);
      if elements != [] {
        texts := NonEmptyTexts(elements);
        if texts != [] {
          return;
        }
      }
      i := i + 1;
    }
    return [];
  }
}
