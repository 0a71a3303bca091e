/**
 * A parsed search-result page, seen only through the two CSS queries the
 * crawlers make: `soup.select(sel)` (all containers a selector matches, in
 * document order) and `item.select_one(sel)` (the first element a selector
 * matches inside one container). Selector semantics themselves are not
 * modelled: a page or container simply records the answer to each query.
 */
module Markup {
  import opened Options

  type Selector = string

  /** A matched element: its text content and its attributes. */
  datatype Element = Element(text: string, attrs: map<string, string>)

  /** One result container: the first element each selector matches inside it (absent: no match). */
  type Container = map<Selector, Element>

  /** A parsed page: the containers each selector matches (absent: no match). */
  type Page = map<Selector, seq<Container>>

  /** `soup.select(sel)`. */
  function Select(page: Page, sel: Selector): seq<Container> {
    if sel in page then page[sel] else []
  }

  /** `item.select_one(sel)`. */
  function SelectOne(item: Container, sel: Selector): Option<Element> {
    if sel in item then Some(item[sel]) else None
  }

  /** `elem.get(name)` / `elem[name]` guarded by `elem.has_attr(name)`. */
  function Attr(e: Element, name: string): Option<string> {
    if name in e.attrs then Some(e.attrs[name]) else None
  }

  /**
   * The container cascade: the containers of the first selector that
   * matches anything; empty when no selector matches.
   */
  function FirstNonEmpty(page: Page, sels: seq<Selector>): (r: seq<Container>)
    ensures r == [] <==> forall i :: 0 <= i < |sels| ==> Select(page, sels[i]) == []
    ensures r != [] ==> exists i :: 0 <= i < |sels| && r == Select(page, sels[i])
                                   && forall j :: 0 <= j < i ==> Select(page, sels[j]) == []
  {
    if sels == [] then []
    else if Select(page, sels[0]) != [] then Select(page, sels[0])
    else
      var r := FirstNonEmpty(page, sels[1..]);
      assert forall i :: 1 <= i < |sels| ==> sels[i] == sels[1..][i - 1];
      r
  }

  /**
   * The per-field fallback `item.select_one(a) or item.select_one(b) or ...`:
   * the element of the first selector that matches; none when none does.
   */
  function FirstMatch(item: Container, sels: seq<Selector>): (r: Option<Element>)
    ensures r.None? <==> forall i :: 0 <= i < |sels| ==> sels[i] !in item
    ensures r.Some? ==> exists i :: 0 <= i < |sels| && sels[i] in item && r.value == item[sels[i]]
                                   && forall j :: 0 <= j < i ==> sels[j] !in item
  {
    if sels == [] then None
    else if sels[0] in item then Some(item[sels[0]])
    else
      var r := FirstMatch(item, sels[1..]);
      assert forall i :: 1 <= i < |sels| ==> sels[i] == sels[1..][i - 1];
      r
  }

  /** The cascade over three selectors, written out as the crawlers' nested `if`s. */
  lemma FirstNonEmptyOfThree(page: Page, a: Selector, b: Selector, c: Selector)
    ensures FirstNonEmpty(page, [a, b, c])
         == if Select(page, a) != [] then Select(page, a)
            else if Select(page, b) != [] then Select(page, b)
            else Select(page, c)
  {
    assert [a, b, c][1..] == [b, c];
    assert [b, c][1..] == [c];
    assert [c][1..] == [];
    assert FirstNonEmpty(page, [c]) == Select(page, c);
    assert FirstNonEmpty(page, [b, c]) == if Select(page, b) != [] then Select(page, b) else Select(page, c);
  }
}
