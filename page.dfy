/**
 * The rendered document as the extraction engine sees it. A document maps a
 * CSS selector to the elements it matches, in document order. A selector that
 * matches nothing, a wait that times out and a `find_element` that raises all
 * read as the empty sequence; `find_element` returns the first match.
 */
module Page {
  import opened Wrappers

  /** What the engine reads from one element: its `.text`, its `innerHTML`
      attribute, its tag name and its `href` attribute (absent is `None`). */
  datatype Element = Element(text: string, innerHtml: string, tag: string, href: Option<string>)

  type Document = map<string, seq<Element>>

  /** `find_elements(By.CSS_SELECTOR, selector)`. */
  function Query(doc: Document, selector: string): seq<Element> {
    if selector in doc then doc[selector] else []
  }

  /** One job card of a search-results list: a scope that can be queried in turn. */
  datatype Card = Card(scope: Document)

  /** The search-results page, queried only for job cards. */
  type CardPage = map<string, seq<Card>>

  function QueryCards(page: CardPage, selector: string): seq<Card> {
    if selector in page then page[selector] else []
  }
}
