/**
 * Character classes and string helpers shared by the suggestion rules and
 * the skills text box. Only ASCII letters take part in case folding: a
 * JavaScript regular expression with the `i` flag and without the `u` flag
 * never folds a non-ASCII character onto an ASCII one, and its `\d` and `\b`
 * know only ASCII digits and word characters.
 */
module Text {

  /** `\d`: an ASCII digit. */
  predicate IsDigit(c: char) {
    '0' <= c <= '9'
  }

  /** A `\w` character: ASCII letter, digit or underscore. */
  predicate IsWordChar(c: char) {
    'a' <= c <= 'z' || 'A' <= c <= 'Z' || IsDigit(c) || c == '_'
  }

  /** ASCII lower-casing of one character; everything else is left alone. */
  function Lower(c: char): char {
    if 'A' <= c <= 'Z' then (c as int + 32) as char else c
  }

  /** ASCII lower-casing of a whole string. */
  function LowerAll(s: string): (r: string)
    ensures |r| == |s|
    ensures forall k :: 0 <= k < |s| ==> r[k] == Lower(s[k])
  {
    if s == [] then [] else [Lower(s[0])] + LowerAll(s[1..])
  }

  /**
   * The lower-case word `w` occurs in `s` at position `i`, ignoring the case
   * of the letters of `s`.
   */
  predicate LowerPrefixAt(s: string, i: int, w: string) {
    0 <= i && i + |w| <= |s| && forall k :: 0 <= k < |w| ==> Lower(s[i + k]) == w[k]
  }

  /** `items.join(sep)`. */
  function Join(items: seq<string>, sep: string): (r: string)
    ensures |items| >= 1 ==> items[0] <= r
    ensures items == [] ==> r == ""
  {
    if |items| == 0 then ""
    else if |items| == 1 then items[0]
    else items[0] + sep + Join(items[1..], sep)
  }

  /** Joining two or more items ends with the separator and the last item. */
  lemma {:induction false} JoinLast(items: seq<string>, sep: string)
    requires |items| >= 2
    ensures Join(items, sep) == Join(items[..|items| - 1], sep) + sep + items[|items| - 1]
  {
    var n := |items|;
    if n > 2 {
      JoinLast(items[1..], sep);
      assert items[1..][..n - 2] == items[..n - 1][1..];
      assert items[1..][n - 2] == items[n - 1];
    }
  }
}
