/** Sequence and string helpers shared by the browser pages and the server:
    JavaScript's `Array.prototype.filter`, insertion-ordered `Set` de-duplication,
    `String.prototype.includes`, `toLowerCase`, `lastIndexOf`, `substring`, `join`
    and Python's `str.endswith`. */
module Common {

  datatype Option<+T> = None | Some(value: T)

  // ---------------------------------------------------------------------------
  // Sequences
  // ---------------------------------------------------------------------------

  /** `a` can be obtained from `b` by deleting elements (order is kept). */
  ghost predicate IsSubsequence<T>(a: seq<T>, b: seq<T>)
    decreases |b|
  {
    a == [] ||
    (b != [] && ((a[0] == b[0] && IsSubsequence(a[1..], b[1..])) || IsSubsequence(a, b[1..])))
  }

  /** The elements of `xs` that satisfy `p`, in their original order. */
  function Select<T(!new)>(xs: seq<T>, p: T -> bool): (r: seq<T>)
    ensures |r| <= |xs|
    ensures forall x :: x in r <==> x in xs && p(x)
  {
    if xs == [] then []
    else (if p(xs[0]) then [xs[0]] else []) + Select(xs[1..], p)
  }

  lemma {:induction false} SelectIsSubsequence<T(!new)>(xs: seq<T>, p: T -> bool)
    ensures IsSubsequence(Select(xs, p), xs)
  {
    if xs != [] {
      SelectIsSubsequence(xs[1..], p);
      var rest := Select(xs[1..], p);
      if p(xs[0]) {
        assert Select(xs, p) == [xs[0]] + rest;
        assert ([xs[0]] + rest)[1..] == rest;
      } else {
        assert Select(xs, p) == rest;
        if rest != [] {
          assert IsSubsequence(rest, xs[1..]);
        }
      }
    }
  }

  /** Selecting with a predicate every element satisfies gives the input back. */
  lemma {:induction false} SelectAll<T(!new)>(xs: seq<T>, p: T -> bool)
    requires forall i :: 0 <= i < |xs| ==> p(xs[i])
    ensures Select(xs, p) == xs
  {
    if xs != [] {
      SelectAll(xs[1..], p);
      assert [xs[0]] + xs[1..] == xs;
    }
  }

  /** Selecting with two predicates that agree on every element gives the same result. */
  lemma {:induction false} SelectAgreeing<T(!new)>(xs: seq<T>, p: T -> bool, q: T -> bool)
    requires forall i :: 0 <= i < |xs| ==> p(xs[i]) == q(xs[i])
    ensures Select(xs, p) == Select(xs, q)
  {
    if xs != [] {
      SelectAgreeing(xs[1..], p, q);
    }
  }

  /** Selecting with a predicate no element satisfies gives nothing. */
  lemma {:induction false} SelectNone<T(!new)>(xs: seq<T>, p: T -> bool)
    requires forall i :: 0 <= i < |xs| ==> !p(xs[i])
    ensures Select(xs, p) == []
  {
    if xs != [] {
      SelectNone(xs[1..], p);
    }
  }

  /** How many elements of `xs` satisfy `p` (`sum(1 for x in xs if p(x))`). */
  function CountWhere<T>(xs: seq<T>, p: T -> bool): (n: nat)
    ensures n <= |xs|
  {
    if xs == [] then 0 else (if p(xs[0]) then 1 else 0) + CountWhere(xs[1..], p)
  }

  /** The count is 0 exactly when no element satisfies `p`, and is the length
      exactly when every element does. */
  lemma {:induction false} CountWhereExtremes<T>(xs: seq<T>, p: T -> bool)
    ensures CountWhere(xs, p) == 0 <==> forall i :: 0 <= i < |xs| ==> !p(xs[i])
    ensures CountWhere(xs, p) == |xs| <==> forall i :: 0 <= i < |xs| ==> p(xs[i])
  {
    if xs != [] {
      CountWhereExtremes(xs[1..], p);
      assert forall i :: 1 <= i < |xs| ==> xs[1..][i - 1] == xs[i];
    }
  }

  /** Counting over a concatenation adds the counts of the parts. */
  lemma {:induction false} CountWhereConcat<T>(a: seq<T>, b: seq<T>, p: T -> bool)
    ensures CountWhere(a + b, p) == CountWhere(a, p) + CountWhere(b, p)
  {
    if a == [] {
      assert a + b == b;
    } else {
      assert (a + b)[0] == a[0];
      assert (a + b)[1..] == a[1..] + b;
      CountWhereConcat(a[1..], b, p);
    }
  }

  /** The values `f` produces for the elements of `xs`, in order, leaving out
      the elements it produces nothing for: a loop that appends `f(x)` and
      skips the element when `f` fails. */
  function FilterMap<A, B(!new)>(xs: seq<A>, f: A -> Option<B>): (r: seq<B>)
    ensures |r| <= |xs|
    ensures forall y :: y in r <==> exists i :: 0 <= i < |xs| && f(xs[i]) == Some(y)
    decreases |xs|
  {
    if xs == [] then []
    else
      var front := xs[..|xs| - 1];
      assert forall i :: 0 <= i < |front| ==> front[i] == xs[i];
      var rest := FilterMap(front, f);
      match f(xs[|xs| - 1])
      case Some(y) => rest + [y]
      case None => rest
  }

  /** Nothing is produced exactly when `f` fails on every element. */
  lemma {:induction false} FilterMapEmpty<A, B(!new)>(xs: seq<A>, f: A -> Option<B>)
    ensures FilterMap(xs, f) == [] <==> forall i :: 0 <= i < |xs| ==> f(xs[i]).None?
    decreases |xs|
  {
    if xs != [] {
      var front := xs[..|xs| - 1];
      FilterMapEmpty(front, f);
      assert forall i :: 0 <= i < |front| ==> front[i] == xs[i];
    }
  }

  ghost predicate NoDuplicates<T>(xs: seq<T>)
  {
    forall i, j :: 0 <= i < j < |xs| ==> xs[i] != xs[j]
  }

  /** Index of the first occurrence of `x` in `xs`. */
  function FirstIndex<T(==)>(xs: seq<T>, x: T): (k: nat)
    requires x in xs
    ensures k < |xs| && xs[k] == x
    ensures forall j :: 0 <= j < k ==> xs[j] != x
  {
    if xs[0] == x then 0 else 1 + FirstIndex(xs[1..], x)
  }

  lemma {:induction false} FirstIndexOfPrefix<T>(xs: seq<T>, y: T, x: T)
    requires y in xs
    ensures y in xs + [x] && FirstIndex(xs + [x], y) == FirstIndex(xs, y)
  {
    var k := FirstIndex(xs, y);
    var k' := FirstIndex(xs + [x], y);
    assert (xs + [x])[k] == y;
    assert k' <= k;
    assert xs[k'] == y;
  }

  /** The distinct elements of `xs` in order of first occurrence: what
      `Array.from(new Set(xs))` gives, since a JavaScript `Set` iterates in
      insertion order and adding an element already present changes nothing. */
  function Distinct<T(==,!new)>(xs: seq<T>): (r: seq<T>)
    ensures forall x :: x in r <==> x in xs
    ensures NoDuplicates(r)
    decreases |xs|
  {
    if xs == [] then []
    else
      var d := Distinct(xs[..|xs| - 1]);
      var x := xs[|xs| - 1];
      assert xs == xs[..|xs| - 1] + [x];
      if x in d then d else d + [x]
  }

  /** Adding one element at the end: the step a `Set.add` inside a loop takes. */
  lemma DistinctSnoc<T(!new)>(xs: seq<T>, x: T)
    ensures Distinct(xs + [x]) == if x in Distinct(xs) then Distinct(xs) else Distinct(xs) + [x]
  {
    assert (xs + [x])[..|xs + [x]| - 1] == xs;
  }

  /** `Distinct` lists its elements in the order in which they first occur in the input. */
  lemma {:induction false} DistinctFirstOccurrenceOrder<T(!new)>(xs: seq<T>)
    ensures forall i, j :: 0 <= i < j < |Distinct(xs)| ==>
      FirstIndex(xs, Distinct(xs)[i]) < FirstIndex(xs, Distinct(xs)[j])
    decreases |xs|
  {
    if xs != [] {
      var pre := xs[..|xs| - 1];
      var x := xs[|xs| - 1];
      assert xs == pre + [x];
      DistinctFirstOccurrenceOrder(pre);
      var d := Distinct(pre);
      forall i, j | 0 <= i < j < |Distinct(xs)|
        ensures FirstIndex(xs, Distinct(xs)[i]) < FirstIndex(xs, Distinct(xs)[j])
      {
        assert d[i] in pre;
        FirstIndexOfPrefix(pre, d[i], x);
        if j < |d| {
          FirstIndexOfPrefix(pre, d[j], x);
        } else {
          assert x !in d && Distinct(xs)[j] == x;
          assert x !in pre;
          assert FirstIndex(xs, x) == |pre|;
        }
      }
    }
  }

  // ---------------------------------------------------------------------------
  // Strings
  // ---------------------------------------------------------------------------

  /** `toLowerCase` / `str.lower` on one character (ASCII letters only). */
  function LowerChar(c: char): char
  {
    if 'A' <= c <= 'Z' then (c as int + 32) as char else c
  }

  function Lower(s: string): string
  {
    seq(|s|, i requires 0 <= i < |s| => LowerChar(s[i]))
  }

  lemma LowerIdempotent(s: string)
    ensures Lower(Lower(s)) == Lower(s)
  {
  }

  /** `needle` occurs in `hay` starting at index `i`. */
  predicate OccursAt(hay: string, needle: string, i: int)
  {
    0 <= i <= |hay| - |needle| && hay[i..i + |needle|] == needle
  }

  /** `hay.includes(needle)`: `needle` occurs in `hay` at some position. */
  predicate Contains(hay: string, needle: string)
  {
    exists i :: 0 <= i <= |hay| - |needle| && OccursAt(hay, needle, i)
  }

  /** Python's `s.endswith(suffix)`, case-sensitive. */
  predicate EndsWith(s: string, suffix: string)
  {
    |suffix| <= |s| && s[|s| - |suffix|..] == suffix
  }

  /** `s.lastIndexOf(c)`: the last index of `c` in `s`, or -1 when `c` does not occur. */
  function LastIndexOf(s: string, c: char): (r: int)
    ensures -1 <= r < |s|
    ensures r == -1 <==> c !in s
    ensures r >= 0 ==> s[r] == c && forall j :: r < j < |s| ==> s[j] != c
    decreases |s|
  {
    if s == [] then -1
    else if s[|s| - 1] == c then |s| - 1
    else
      assert s == s[..|s| - 1] + [s[|s| - 1]];
      LastIndexOf(s[..|s| - 1], c)
  }

  /** `s.substring(start)`: a negative start counts as 0, one past the end as the end. */
  function Substring(s: string, start: int): string
  {
    if start < 0 then s else if start > |s| then [] else s[start..]
  }

  /** `parts.join(sep)`. */
  function Join(parts: seq<string>, sep: string): string
  {
    if parts == [] then []
    else if |parts| == 1 then parts[0]
    else parts[0] + sep + Join(parts[1..], sep)
  }

  function Min(a: int, b: int): int { if a <= b then a else b }

  function Max(a: int, b: int): int { if a >= b then a else b }
}
