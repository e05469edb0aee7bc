/** The few string operations the purge executor relies on. */
module Text {
  /** `haystack.contains(needle)`. */
  predicate Contains(haystack: string, needle: string) {
    exists i :: 0 <= i <= |haystack| - |needle| && OccursAt(haystack, needle, i)
  }

  predicate OccursAt(haystack: string, needle: string, i: nat)
    requires i + |needle| <= |haystack|
  {
    haystack[i..i + |needle|] == needle
  }

  /** Wrapping a message keeps what it contains. */
  lemma ContainsInside(before: string, middle: string, after: string, needle: string)
    requires Contains(middle, needle)
    ensures Contains(before + middle + after, needle)
  {
    var i :| 0 <= i <= |middle| - |needle| && OccursAt(middle, needle, i);
    var all := before + middle + after;
    assert all[|before| + i..|before| + i + |needle|] == middle[i..i + |needle|];
    assert OccursAt(all, needle, |before| + i);
  }

  lemma ContainsAfter(before: string, middle: string, needle: string)
    requires Contains(middle, needle)
    ensures Contains(before + middle, needle)
  {
    ContainsInside(before, middle, "", needle);
    assert before + middle + "" == before + middle;
  }

  function Decimal(n: nat): string {
    (if n < 10 then "" else Decimal(n / 10)) + ["0123456789"[n % 10]]
  }

  /** Numbers separated by `separator`. */
  function Join(ids: seq<nat>, separator: string): string {
    if ids == [] then ""
    else if |ids| == 1 then Decimal(ids[0])
    else Decimal(ids[0]) + separator + Join(ids[1..], separator)
  }
}
