/** The `acknowledgedCount` entry in browser storage: written by the inbox
    after each successful acknowledgement, read by the stats cards when the
    stats endpoint is down. The stored value is a string, absent until the
    first write. */
module AckCounter {
  import opened Wrappers
  import opened Numbers

  /** `parseInt(localStorage.getItem('acknowledgedCount') || '0', 10)`:
      an absent or empty entry reads as 0. */
  function ReadCount(stored: Option<string>): (r: JsNumber)
    ensures stored.None? || stored == Some("") ==> r == Num(0)
    ensures stored.Some? && stored.value != "" ==> r == ParseInt(stored.value)
  {
    var text := if stored.Some? && stored.value != "" then stored.value else "0";
    ParseIntToString(0);
    assert IntToString(0) == "0";
    ParseInt(text)
  }

  /** The entry after one acknowledgement: `String(currentCount + 1)`. */
  function Bumped(stored: Option<string>): (r: string)
    ensures ReadCount(Some(r)) == Increment(ReadCount(stored))
    ensures stored.None? ==> r == "1"
  {
    var next := Increment(ReadCount(stored));
    ParseRender(next);
    assert Render(next) != "" by {
      if next.Num? {
        assert |IntToString(next.value)| > 0;
      }
    }
    Render(next)
  }
}
