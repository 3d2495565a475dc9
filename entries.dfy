/**
 * The two copy-on-write operations the form applies to its entry lists,
 * keyed by an entry's id: edit every entry carrying an id (`xs.map`), and
 * drop every entry carrying an id (`xs.filter`). They are written once
 * over any entry type; `idOf` reads the id of an entry.
 */
module Entries {

  /** How many entries of `xs` carry the id `id`. */
  function CountId<T>(xs: seq<T>, idOf: T -> string, id: string): (n: nat)
    ensures n <= |xs|
    ensures n == 0 <==> forall k :: 0 <= k < |xs| ==> idOf(xs[k]) != id
  {
    if xs == [] then 0
    else (if idOf(xs[0]) == id then 1 else 0) + CountId(xs[1..], idOf, id)
  }

  /** `a` is `b` with some entries deleted and the rest in their original order. */
  ghost predicate IsSubsequence<T>(a: seq<T>, b: seq<T>)
    decreases |b|
  {
    a == [] || (b != [] && ((a[0] == b[0] && IsSubsequence(a[1..], b[1..])) || IsSubsequence(a, b[1..])))
  }

  /**
   * `xs.map(x => idOf(x) === id ? f(x) : x)`: the entries carrying `id` are
   * replaced by their edited version, every other entry stays where it was.
   */
  function UpdateById<T>(xs: seq<T>, idOf: T -> string, id: string, f: T -> T): (r: seq<T>)
    ensures |r| == |xs|
    ensures forall k :: 0 <= k < |xs| && idOf(xs[k]) == id ==> r[k] == f(xs[k])
    ensures forall k :: 0 <= k < |xs| && idOf(xs[k]) != id ==> r[k] == xs[k]
  {
    if xs == [] then []
    else [if idOf(xs[0]) == id then f(xs[0]) else xs[0]] + UpdateById(xs[1..], idOf, id, f)
  }

  /**
   * `xs.filter(x => idOf(x) !== id)`: exactly the entries not carrying
   * `id`, in their original order.
   */
  function RemoveById<T>(xs: seq<T>, idOf: T -> string, id: string): (r: seq<T>)
    ensures forall k :: 0 <= k < |r| ==> idOf(r[k]) != id
    ensures IsSubsequence(r, xs)
    ensures |r| == |xs| - CountId(xs, idOf, id)
  {
    if xs == [] then []
    else if idOf(xs[0]) == id then RemoveById(xs[1..], idOf, id)
    else [xs[0]] + RemoveById(xs[1..], idOf, id)
  }

  /** Editing an id no entry carries changes nothing. */
  lemma {:induction false} UpdateAbsent<T>(xs: seq<T>, idOf: T -> string, id: string, f: T -> T)
    requires CountId(xs, idOf, id) == 0
    ensures UpdateById(xs, idOf, id, f) == xs
  {
    var r := UpdateById(xs, idOf, id, f);
    forall k | 0 <= k < |xs| ensures r[k] == xs[k] {
      assert idOf(xs[k]) != id;
    }
  }

  /** Removing an id no entry carries changes nothing. */
  lemma {:induction false} RemoveAbsent<T>(xs: seq<T>, idOf: T -> string, id: string)
    requires CountId(xs, idOf, id) == 0
    ensures RemoveById(xs, idOf, id) == xs
  {
    if xs != [] {
      assert idOf(xs[0]) != id;
      assert CountId(xs[1..], idOf, id) == 0;
      RemoveAbsent(xs[1..], idOf, id);
    }
  }

  /**
   * An entry appended under an id no earlier entry carries is removed again
   * by that id, and nothing else is.
   */
  lemma {:induction false} RemoveAppended<T>(xs: seq<T>, idOf: T -> string, e: T)
    requires CountId(xs, idOf, idOf(e)) == 0
    ensures RemoveById(xs + [e], idOf, idOf(e)) == xs
  {
    if xs == [] {
      assert xs + [e] == [e];
    } else {
      assert (xs + [e])[1..] == xs[1..] + [e];
      assert idOf(xs[0]) != idOf(e);
      assert CountId(xs[1..], idOf, idOf(e)) == 0;
      RemoveAppended(xs[1..], idOf, e);
    }
  }

  /**
   * Editing the entries of an id and then removing that id is the same as
   * removing it straight away, as long as the edit keeps the id.
   */
  lemma {:induction false} RemoveAfterUpdate<T>(xs: seq<T>, idOf: T -> string, id: string, f: T -> T)
    requires forall x :: idOf(f(x)) == idOf(x)
    ensures RemoveById(UpdateById(xs, idOf, id, f), idOf, id) == RemoveById(xs, idOf, id)
  {
    if xs != [] {
      var u := UpdateById(xs, idOf, id, f);
      assert u[1..] == UpdateById(xs[1..], idOf, id, f);
      RemoveAfterUpdate(xs[1..], idOf, id, f);
    }
  }

  /** Removing twice by the same id is the same as removing once. */
  lemma RemoveIdempotent<T>(xs: seq<T>, idOf: T -> string, id: string)
    ensures RemoveById(RemoveById(xs, idOf, id), idOf, id) == RemoveById(xs, idOf, id)
  {
    RemoveAbsent(RemoveById(xs, idOf, id), idOf, id);
  }
}
