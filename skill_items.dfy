/**
 * The skills text box of a skill category: it shows the items joined by
 * ", " and reads its text back with `split(", ")` followed by
 * `filter(Boolean)`, which drops the empty pieces.
 */
module SkillItems {
  import opened Text
  import Entries

  const Separator := ", "

  /** The separator ", " starts at position `k` of `x`. */
  predicate SeparatorAt(x: string, k: int) {
    0 <= k < |x| - 1 && x[k] == ',' && x[k + 1] == ' '
  }

  /** `x` contains the separator ", " somewhere. */
  predicate HasSeparator(x: string) {
    exists k :: 0 <= k < |x| && SeparatorAt(x, k)
  }

  /** Dropping the first character of a separator-free text keeps it separator-free. */
  lemma SeparatorFreeTail(x: string)
    requires x != [] && !HasSeparator(x)
    ensures !HasSeparator(x[1..])
  {
    forall k | 0 <= k ensures !SeparatorAt(x[1..], k) {
      assert !SeparatorAt(x, k + 1);
      if k < |x| - 2 { assert x[1..][k] == x[k + 1] && x[1..][k + 1] == x[k + 2]; }
    }
  }

  /**
   * `s.split(", ")`: the pieces between the occurrences of the separator,
   * found from left to right. There is always at least one piece, no piece
   * contains the separator, and the first piece is where `s` starts.
   */
  function Split(s: string): (r: seq<string>)
    ensures |r| >= 1
    ensures r[0] <= s
    decreases |s|
  {
    if |s| < 2 then [s]
    else if s[0] == ',' && s[1] == ' ' then [""] + Split(s[2..])
    else
      var rest := Split(s[1..]);
      [[s[0]] + rest[0]] + rest[1..]
  }

  /** No piece of a split contains the separator. */
  lemma {:induction false} SplitClean(s: string)
    ensures forall j :: 0 <= j < |Split(s)| ==> !HasSeparator(Split(s)[j])
    decreases |s|
  {
    if |s| < 2 {
      assert forall k :: !SeparatorAt(s, k);
    } else if s[0] == ',' && s[1] == ' ' {
      SplitClean(s[2..]);
      assert !SeparatorAt("", 0);
      assert Split(s) == [""] + Split(s[2..]);
    } else {
      var rest := Split(s[1..]);
      SplitClean(s[1..]);
      var head := [s[0]] + rest[0];
      forall k | 0 <= k ensures !SeparatorAt(head, k) {
        if k > 0 && k < |head| - 1 {
          assert head[k] == rest[0][k - 1] && head[k + 1] == rest[0][k];
          assert !SeparatorAt(rest[0], k - 1);
        } else if k == 0 && |head| > 1 {
          assert head[1] == rest[0][0] == s[1];
        }
      }
      assert Split(s) == [head] + rest[1..];
      forall j | 0 <= j < |Split(s)| ensures !HasSeparator(Split(s)[j]) {
        if j > 0 { assert Split(s)[j] == rest[j]; }
      }
    }
  }

  /** How many pieces of `xs` are empty. */
  function EmptyCount(xs: seq<string>): (n: nat)
    ensures n <= |xs|
    ensures n == 0 <==> forall j :: 0 <= j < |xs| ==> xs[j] != ""
  {
    if xs == [] then 0 else (if xs[0] == "" then 1 else 0) + EmptyCount(xs[1..])
  }

  /**
   * `.filter(Boolean)` on strings: exactly the non-empty pieces, in order.
   * No empty piece is left, the survivors keep their order, and only the
   * empty pieces are dropped.
   */
  function RemoveEmpty(xs: seq<string>): (r: seq<string>)
    ensures forall j :: 0 <= j < |r| ==> r[j] != "" && r[j] in xs
    ensures Entries.IsSubsequence(r, xs)
    ensures |r| == |xs| - EmptyCount(xs)
    ensures (forall j :: 0 <= j < |xs| ==> xs[j] != "") ==> r == xs
  {
    if xs == [] then []
    else if xs[0] == "" then RemoveEmpty(xs[1..])
    else [xs[0]] + RemoveEmpty(xs[1..])
  }

  /** What typing `text` into the box stores as the category's items. */
  function Parse(text: string): (items: seq<string>)
    ensures forall j :: 0 <= j < |items| ==> items[j] != "" && !HasSeparator(items[j])
  {
    SplitClean(text);
    RemoveEmpty(Split(text))
  }

  /** What the box shows for `items`. */
  function Format(items: seq<string>): (r: string)
    ensures |items| >= 1 ==> items[0] <= r
    ensures items == [] ==> r == ""
  {
    Join(items, Separator)
  }

  /** An item list the box can show and read back unchanged. */
  predicate Clean(items: seq<string>) {
    forall j :: 0 <= j < |items| ==> items[j] != "" && !HasSeparator(items[j])
  }

  /** Joining the pieces of `s` with the separator gives `s` back. */
  lemma {:induction false} JoinSplit(s: string)
    ensures Join(Split(s), Separator) == s
    decreases |s|
  {
    if |s| >= 2 {
      if s[0] == ',' && s[1] == ' ' {
        JoinSplit(s[2..]);
        assert s == "" + Separator + s[2..];
      } else {
        var rest := Split(s[1..]);
        JoinSplit(s[1..]);
        if |rest| > 1 {
          assert Join(rest, Separator) == rest[0] + Separator + Join(rest[1..], Separator);
          assert s == [s[0]] + s[1..];
        }
      }
    }
  }

  /** A piece with no separator in it splits into itself. */
  lemma {:induction false} SplitPlain(a: string)
    requires !HasSeparator(a)
    ensures Split(a) == [a]
    decreases |a|
  {
    if |a| >= 2 {
      SeparatorFreeTail(a);
      SplitPlain(a[1..]);
      assert !SeparatorAt(a, 0);
      assert Split(a) == [[a[0]] + a[1..]];
      assert [a[0]] + a[1..] == a;
    }
  }

  /**
   * A piece with no separator in it, followed by the separator, is cut
   * exactly there: a trailing ',' of the piece does not pair with the
   * separator's ','.
   */
  lemma {:induction false} SplitAfterPiece(a: string, t: string)
    requires !HasSeparator(a)
    ensures Split(a + Separator + t) == [a] + Split(t)
    decreases |a|
  {
    var s := a + Separator + t;
    if a == [] {
      assert s[0] == ',' && s[1] == ' ' && s[2..] == t;
    } else {
      var tail := a[1..] + Separator + t;
      assert s[1..] == tail;
      SeparatorFreeTail(a);
      SplitAfterPiece(a[1..], t);
      assert s[1] == if |a| == 1 then ',' else a[1];
      assert !SeparatorAt(a, 0);
      assert Split(s) == [[s[0]] + Split(tail)[0]] + Split(tail)[1..];
      assert [a[0]] + a[1..] == a;
    }
  }

  /** Splitting a joined list of separator-free pieces gives the pieces back. */
  lemma {:induction false} SplitJoin(items: seq<string>)
    requires |items| >= 1
    requires forall j :: 0 <= j < |items| ==> !HasSeparator(items[j])
    ensures Split(Join(items, Separator)) == items
  {
    if |items| == 1 {
      SplitPlain(items[0]);
    } else {
      SplitJoin(items[1..]);
      SplitAfterPiece(items[0], Join(items[1..], Separator));
      assert [items[0]] + items[1..] == items;
    }
  }

  /** What the box shows for a clean list reads back as that very list. */
  lemma ParseFormat(items: seq<string>)
    requires Clean(items)
    ensures Parse(Format(items)) == items
  {
    if items != [] {
      SplitJoin(items);
    }
  }

  /**
   * A separator typed at the end of the text is dropped at once: the box
   * shows its items again, so "React, " comes back as "React" and the
   * space after the comma never stays in the box.
   */
  lemma TrailingSeparatorDropped()
    ensures Parse("React, ") == ["React"]
    ensures Format(Parse("React, ")) == "React"
  {
    assert !HasSeparator("React") by {
      forall k | 0 <= k ensures !SeparatorAt("React", k) {}
    }
    SplitAfterPiece("React", "");
    assert "React" + Separator + "" == "React, ";
  }

  /**
   * Empty pieces between two separators are dropped: "React, , Vue", say,
   * stores the two items "React" and "Vue".
   */
  lemma EmptyPieceDropped(a: string, b: string)
    requires a != "" && b != ""
    requires !HasSeparator(a) && !HasSeparator(b)
    ensures Parse(a + Separator + Separator + b) == [a, b]
  {
    SplitTwoSeparators(a, b);
    DropMiddleEmpty(a, b);
  }

  /** Filtering drops the empty piece between two non-empty ones. */
  lemma DropMiddleEmpty(a: string, b: string)
    requires a != "" && b != ""
    ensures RemoveEmpty([a, "", b]) == [a, b]
  {
    var pieces := [a, "", b];
    assert pieces[1..] == ["", b] && pieces[1..][1..] == [b];
  }

  /** Two separators in a row leave an empty piece between them. */
  lemma SplitTwoSeparators(a: string, b: string)
    requires !HasSeparator(a) && !HasSeparator(b)
    ensures Split(a + Separator + Separator + b) == [a, "", b]
  {
    SplitAfterPiece(a, Separator + b);
    SplitAfterPiece("", b);
    SplitPlain(b);
    assert a + Separator + Separator + b == a + Separator + (Separator + b);
    assert "" + Separator + b == Separator + b;
  }

  /** `x` ends in the separator ", ". */
  predicate EndsInSeparator(x: string) {
    |x| >= 2 && x[|x| - 2] == ',' && x[|x| - 1] == ' '
  }

  /** What the box shows for clean items never ends in the separator. */
  lemma ShownCleanEnd(items: seq<string>)
    requires Clean(items)
    ensures !EndsInSeparator(Format(items))
  {
    var r := Format(items);
    if |items| == 1 {
      var x := items[0];
      if |x| >= 2 { assert !SeparatorAt(x, |x| - 2); }
    } else if |items| >= 2 {
      var n := |items|;
      var last := items[n - 1];
      JoinLast(items, Separator);
      var front := Join(items[..n - 1], Separator) + Separator;
      assert r == front + last;
      if |last| >= 2 {
        assert !SeparatorAt(last, |last| - 2);
        assert r[|r| - 2] == last[|last| - 2] && r[|r| - 1] == last[|last| - 1];
      } else {
        assert r[|r| - 2] == front[|front| - 1] == ' ';
      }
    }
  }

  /**
   * Whatever is typed, the box then shows a text that does not end in the
   * separator: a trailing ", " never stays in the box.
   */
  lemma ShownNeverEndsInSeparator(text: string)
    ensures !EndsInSeparator(Format(Parse(text)))
  {
    ShownCleanEnd(Parse(text));
  }

  /** Reading a text and showing the result again is stable from then on. */
  lemma ParseStable(text: string)
    ensures Parse(Format(Parse(text))) == Parse(text)
  {
    ParseFormat(Parse(text));
  }
}
