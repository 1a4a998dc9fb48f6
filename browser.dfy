/**
 * The browser as both scrapers see it, reduced to what they read: for each
 * loaded page, whether the card wait timed out, the successive
 * `document.body.scrollHeight` readings, the cards, and the pagination button.
 * Driver construction, sleeps and waits are not modelled.
 */
module Browser {
  import opened Wrappers

  /**
   * An element looked up inside a card: `Missing` where `find_element` raises
   * NoSuchElementException, else its `.text` and the attribute the scraper
   * reads from it (`href` of the link, `datetime` of the time tag; None when
   * `get_attribute` gives None).
   */
  datatype Element = Missing | Found(text: string, attr: Option<string>)

  /** One `div.base-card`: title, company, location, time tag and link. */
  datatype Card = Card(title: Element, company: Element, location: Element, time: Element, link: Element)

  /** The first `Next` / `Next page` button, if any, and whether it is enabled. */
  datatype NextButton = NoNext | Next(enabled: bool)

  datatype Page = Page(timedOut: bool, heights: seq<int>, cards: seq<Card>, next: NextButton)

  /** A page that never shows a card: what a URL or page index past the site's end yields. */
  const Blank := Page(true, [], [], NoNext)

  /**
   * The `k`-th height reading after scrolling (from 0). Once the recorded
   * readings run out the page has stopped growing: the last one repeats, or 0
   * on a page with none.
   */
  function Reading(heights: seq<int>, k: nat): int {
    if k < |heights| then heights[k] else if heights == [] then 0 else heights[|heights| - 1]
  }

  /** The reading the `k`-th step compares against: the one before it, or 0 before the first. */
  function Previous(heights: seq<int>, k: nat): int {
    if k == 0 then 0 else Reading(heights, k - 1)
  }

  /** Step `k` saw no growth: the loop breaks there. */
  predicate Unchanged(heights: seq<int>, k: nat) {
    Reading(heights, k) == Previous(heights, k)
  }

  /**
   * The scroll loop of both scrapers: up to `steps` scroll-and-measure steps,
   * stopping after the first one whose reading equals the one before it.
   * Returns how many steps ran.
   */
  method Settle(heights: seq<int>, steps: nat) returns (performed: nat)
    ensures performed <= steps
    ensures forall k :: 0 <= k < performed - 1 ==> !Unchanged(heights, k)
    ensures performed == steps || (performed >= 1 && Unchanged(heights, performed - 1))
  {
    var last := 0;
    performed := 0;
    while performed < steps
      invariant performed <= steps
      invariant last == Previous(heights, performed)
      invariant forall k :: 0 <= k < performed ==> !Unchanged(heights, k)
    {
      var newHeight := Reading(heights, performed);
      performed := performed + 1;
      if newHeight == last {
        return;
      }
      last := newHeight;
    }
  }

  /** The Chrome driver, reduced to whether it has been quit. */
  class Driver {
    var quit: bool

    constructor ()
      ensures !quit
    {
      quit := false;
    }

    /** `driver.quit()`. */
    method Quit()
      modifies this
      ensures quit
    {
      quit := true;
    }
  }
}
