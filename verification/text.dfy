/** The result and option types every module of the model returns. */
module Wrappers {
  datatype Option<+T> = None | Some(value: T)

  datatype Result<+T, +E> = Ok(value: T) | Err(error: E)
}

/** Character classes and string questions the program asks of its inputs. */
module Text {
  import opened Wrappers

  predicate IsAsciiLower(c: char) { 'a' <= c <= 'z' }

  predicate IsAsciiDigit(c: char) { '0' <= c <= '9' }

  predicate IsAsciiAlphanumeric(c: char) {
    IsAsciiLower(c) || 'A' <= c <= 'Z' || IsAsciiDigit(c)
  }

  /** The Unicode control category Cc, which `char::is_control` tests. */
  predicate IsControl(c: char) {
    c as int < 0x20 || 0x7F <= c as int <= 0x9F
  }

  /** The Unicode White_Space property, which `char::is_whitespace` tests. */
  predicate IsWhitespace(c: char) {
    var n := c as int;
    || 0x09 <= n <= 0x0D || n == 0x20 || n == 0x85 || n == 0xA0 || n == 0x1680
    || 0x2000 <= n <= 0x200A || n == 0x2028 || n == 0x2029 || n == 0x202F
    || n == 0x205F || n == 0x3000
  }

  predicate OccursAt(s: string, part: string, i: nat) {
    i <= |s| && part <= s[i..]
  }

  predicate Contains(s: string, part: string) {
    exists i: nat :: i <= |s| && OccursAt(s, part, i)
  }

  predicate StartsWith(s: string, prefix: string) { prefix <= s }

  /** What precedes the first `mark`, and what follows it. */
  function Split(s: string, mark: char): (r: Option<(string, string)>)
    ensures r.Some? ==> |r.value.1| < |s|
  {
    if s == [] then None
    else if s[0] == mark then Some(([], s[1..]))
    else
      var r := Split(s[1..], mark);
      if r.None? then None else Some(([s[0]] + r.value.0, r.value.1))
  }

  lemma {:induction false} SplitFindsTheMark(before: string, mark: char, after: string)
    requires mark !in before
    ensures Split(before + [mark] + after, mark) == Some((before, after))
  {
    var s := before + [mark] + after;
    if before == [] {
      assert s[1..] == after;
    } else {
      assert s[1..] == before[1..] + [mark] + after;
      SplitFindsTheMark(before[1..], mark, after);
      assert before == [before[0]] + before[1..];
    }
  }
}

/**
 * The order of Rust's `String` and the `sort` and `dedup` of a vector of them.
 * Comparing UTF-8 bytes and comparing Unicode scalar values give the same order.
 */
module StringOrder {
  /** Lexicographic, strict. */
  predicate Before(a: string, b: string) {
    |b| != 0 && (|a| == 0 || a[0] < b[0] || (a[0] == b[0] && Before(a[1..], b[1..])))
  }

  lemma {:induction false} BeforeIsTotal(a: string, b: string)
    ensures Before(a, b) || Before(b, a) || a == b
    ensures !(Before(a, b) && Before(b, a))
    ensures !Before(a, a)
  {
    if |a| > 0 {
      BeforeIsTotal(a[1..], if |b| > 0 then b[1..] else []);
      if |b| > 0 && a[0] == b[0] && a[1..] == b[1..] {
        assert a == [a[0]] + a[1..] && b == [b[0]] + b[1..];
      }
    }
  }

  lemma {:induction false} BeforeIsTransitive(a: string, b: string, c: string)
    requires Before(a, b) && Before(b, c)
    ensures Before(a, c)
  {
    if |a| > 0 && a[0] == b[0] == c[0] {
      BeforeIsTransitive(a[1..], b[1..], c[1..]);
    }
  }

  /** Adjacent entries never descend; this is what a sort promises. */
  predicate Sorted(s: seq<string>) {
    forall i :: 0 < i < |s| ==> !Before(s[i], s[i - 1])
  }

  predicate Ascending(s: seq<string>) {
    forall i, j :: 0 <= i < j < |s| ==> Before(s[i], s[j])
  }

  function Insert(x: string, s: seq<string>): (r: seq<string>)
    requires Sorted(s)
    ensures Sorted(r) && multiset(r) == multiset(s) + multiset{x}
    ensures r[0] == x || (s != [] && r[0] == s[0])
  {
    if s == [] then [x]
    else
      BeforeIsTotal(x, s[0]);
      if !Before(s[0], x) then assert s == [s[0]] + s[1..]; [x] + s
      else
        assert s == [s[0]] + s[1..];
        assert Sorted(s[1..]) by {
          forall i | 0 < i < |s[1..]| ensures !Before(s[1..][i], s[1..][i - 1]) {
            assert s[1..][i] == s[i + 1] && s[1..][i - 1] == s[i];
          }
        }
        assert |s| > 1 ==> !Before(s[1], s[0]);
        [s[0]] + Insert(x, s[1..])
  }

  /** `Vec::sort`: ascending, and a permutation of what it was given. */
  function Sort(s: seq<string>): (r: seq<string>)
    ensures Sorted(r) && multiset(r) == multiset(s)
  {
    if s == [] then [] else
      assert s == [s[0]] + s[1..];
      Insert(s[0], Sort(s[1..]))
  }

  /** `Vec::dedup`: drops an entry equal to the one before it. */
  function Dedup(s: seq<string>): (r: seq<string>) {
    if |s| < 2 then s
    else if s[0] == s[1] then Dedup(s[1..])
    else [s[0]] + Dedup(s[1..])
  }

  lemma {:induction false} DedupOfSortedAscends(s: seq<string>)
    requires Sorted(s)
    ensures Ascending(Dedup(s))
    ensures forall x :: x in Dedup(s) <==> x in s
    ensures s != [] ==> Dedup(s) != [] && Dedup(s)[0] == s[0]
  {
    if |s| >= 2 {
      var tail := s[1..];
      assert s == [s[0]] + tail;
      forall i | 0 < i < |tail| ensures !Before(tail[i], tail[i - 1]) {
        assert tail[i] == s[i + 1] && tail[i - 1] == s[i];
      }
      DedupOfSortedAscends(tail);
      if s[0] != s[1] {
        BeforeIsTotal(s[0], s[1]);
        var rest := Dedup(tail);
        forall j | 0 <= j < |rest| ensures Before(s[0], rest[j]) {
          if j > 0 { BeforeIsTransitive(s[0], rest[0], rest[j]); }
        }
      }
    }
  }

  /** A set of strings has one ascending listing. */
  lemma {:induction false} AscendingListingIsUnique(a: seq<string>, b: seq<string>)
    requires Ascending(a) && Ascending(b)
    requires forall x :: x in a <==> x in b
    ensures a == b
  {
    assert |b| > 0 ==> b[0] in b && b[0] in a;
    assert |a| > 0 ==> a[0] in a && a[0] in b;
    if a != [] {
      if a[0] != b[0] {
        var i :| 0 <= i < |b| && b[i] == a[0];
        var j :| 0 <= j < |a| && a[j] == b[0];
        BeforeIsTotal(a[0], b[0]);
      }
      forall x ensures x in a[1..] <==> x in b[1..] {
        BeforeIsTotal(a[0], a[0]);
        if x in a[1..] { assert x in b; }
        if x in b[1..] { assert x in a; }
      }
      AscendingListingIsUnique(a[1..], b[1..]);
      assert a == [a[0]] + a[1..] && b == [b[0]] + b[1..];
    }
  }

  function SortedDistinct(s: seq<string>): seq<string> { Dedup(Sort(s)) }

  /** Sorting and removing duplicates depends only on which strings occur. */
  lemma SortedDistinctDependsOnElements(s: seq<string>, t: seq<string>)
    requires forall x :: x in s <==> x in t
    ensures SortedDistinct(s) == SortedDistinct(t)
  {
    SortedDistinctKeepsElements(s);
    SortedDistinctKeepsElements(t);
    AscendingListingIsUnique(SortedDistinct(s), SortedDistinct(t));
  }

  lemma SortedDistinctKeepsElements(s: seq<string>)
    ensures Ascending(SortedDistinct(s))
    ensures forall x :: x in SortedDistinct(s) <==> x in s
  {
    DedupOfSortedAscends(Sort(s));
    forall x ensures x in Sort(s) <==> x in s {
      assert x in Sort(s) <==> x in multiset(Sort(s));
      assert x in s <==> x in multiset(s);
    }
  }
}
