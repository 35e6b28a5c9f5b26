/** Option, the value that JavaScript writes as `T | null` (or `undefined`). */
module Wrappers {

  datatype Option<+T> = None | Some(value: T) {

    /** The value held, or `default` when there is none (JavaScript's `x || default` on objects). */
    function GetOr(default: T): T {
      match this
      case Some(v) => v
      case None => default
    }
  }
}

/** Sequence helpers for JavaScript's `Array.prototype.filter`, `includes` and friends. */
module Seqs {

  /** `s.filter(p)`: the elements of `s` that satisfy `p`, in their original order. */
  function Filter<T>(s: seq<T>, p: T -> bool): (r: seq<T>)
    ensures |r| <= |s|
    ensures forall i :: 0 <= i < |r| ==> r[i] in s && p(r[i])
    ensures forall i :: 0 <= i < |s| && p(s[i]) ==> s[i] in r
  {
    if s == [] then [] else (if p(s[0]) then [s[0]] else []) + Filter(s[1..], p)
  }

  /** Filtering distributes over concatenation, so the kept elements stay in order. */
  lemma {:induction false} FilterAppend<T>(a: seq<T>, b: seq<T>, p: T -> bool)
    ensures Filter(a + b, p) == Filter(a, p) + Filter(b, p)
  {
    if a == [] {
      assert a + b == b;
    } else {
      assert (a + b)[1..] == a[1..] + b;
      FilterAppend(a[1..], b, p);
    }
  }

  /** A sequence whose every element passes is returned unchanged. */
  lemma {:induction false} FilterKeepsAll<T>(s: seq<T>, p: T -> bool)
    requires forall i :: 0 <= i < |s| ==> p(s[i])
    ensures Filter(s, p) == s
  {
    if s != [] {
      FilterKeepsAll(s[1..], p);
    }
  }

  /** Filtering twice with the same predicate is filtering once. */
  lemma FilterIdempotent<T>(s: seq<T>, p: T -> bool)
    ensures Filter(Filter(s, p), p) == Filter(s, p)
  {
    var f := Filter(s, p);
    FilterKeepsAll(f, p);
  }

  /** Filtering never adds an element and never adds a copy of one. */
  lemma {:induction false} FilterSubMultiset<T>(s: seq<T>, p: T -> bool)
    ensures multiset(Filter(s, p)) <= multiset(s)
  {
    if s != [] {
      FilterSubMultiset(s[1..], p);
      var head: seq<T> := if p(s[0]) then [s[0]] else [];
      assert Filter(s, p) == head + Filter(s[1..], p);
      assert s == [s[0]] + s[1..];
      assert multiset(s) == multiset([s[0]]) + multiset(s[1..]);
      assert multiset(head) <= multiset([s[0]]);
    }
  }

  /** An element is in a filter's result exactly when it is in the input and passes. */
  lemma FilterMembership<T>(s: seq<T>, p: T -> bool)
    ensures forall x :: x in Filter(s, p) <==> x in s && p(x)
  {
  }

  /** Filtering keeps every copy of an element that passes and no copy of one that fails. */
  lemma {:induction false} FilterCount<T>(s: seq<T>, p: T -> bool)
    ensures forall x :: Count(Filter(s, p), x) == if p(x) then Count(s, x) else 0
  {
    if s != [] {
      FilterCount(s[1..], p);
      var head: seq<T> := if p(s[0]) then [s[0]] else [];
      assert Filter(s, p) == head + Filter(s[1..], p);
      forall x
        ensures Count(Filter(s, p), x) == if p(x) then Count(s, x) else 0
      {
        CountAppend(head, Filter(s[1..], p), x);
      }
    }
  }

  /** `a` is `b` with some elements dropped: the elements of `a` occur in `b` in the same order. */
  predicate Subsequence<T(==)>(a: seq<T>, b: seq<T>)
    decreases |b|
  {
    if a == [] then true
    else if b == [] then false
    else (a[0] == b[0] && Subsequence(a[1..], b[1..])) || Subsequence(a, b[1..])
  }

  /** What a filter keeps stays in its original relative order. */
  lemma {:induction false} FilterSubsequence<T>(s: seq<T>, p: T -> bool)
    ensures Subsequence(Filter(s, p), s)
  {
    if s != [] {
      FilterSubsequence(s[1..], p);
      var rest := Filter(s[1..], p);
      if p(s[0]) {
        assert Filter(s, p) == [s[0]] + rest;
        assert Filter(s, p)[1..] == rest;
      } else {
        assert Filter(s, p) == rest;
      }
    }
  }

  /** Number of occurrences of `x` in `s`. */
  function Count<T(==)>(s: seq<T>, x: T): (n: nat)
    ensures n <= |s|
    ensures n == 0 <==> x !in s
  {
    if s == [] then 0 else (if s[0] == x then 1 else 0) + Count(s[1..], x)
  }

  lemma {:induction false} CountAppend<T>(a: seq<T>, b: seq<T>, x: T)
    ensures Count(a + b, x) == Count(a, x) + Count(b, x)
  {
    if a == [] {
      assert a + b == b;
    } else {
      assert (a + b)[1..] == a[1..] + b;
      CountAppend(a[1..], b, x);
    }
  }

  /** The test `y => y !== x`. */
  function Differs<T(==)>(x: T): T -> bool {
    y => y != x
  }

  /** `s.filter(y => y !== x)`: every copy of `x` taken out, the rest kept in order. */
  function RemoveAll<T(==)>(s: seq<T>, x: T): (r: seq<T>)
    ensures x !in r
    ensures forall i :: 0 <= i < |s| && s[i] != x ==> s[i] in r
    ensures forall i :: 0 <= i < |r| ==> r[i] in s
  {
    Filter(s, Differs(x))
  }

  /** Removing `x` shortens the sequence by exactly the number of copies of `x`. */
  lemma {:induction false} RemoveAllLength<T>(s: seq<T>, x: T)
    ensures |RemoveAll(s, x)| == |s| - Count(s, x)
  {
    if s != [] {
      RemoveAllLength(s[1..], x);
    }
  }

  /** Removal leaves the other elements' multiplicities untouched. */
  lemma {:induction false} RemoveAllCount<T>(s: seq<T>, x: T, y: T)
    ensures Count(RemoveAll(s, x), y) == if y == x then 0 else Count(s, y)
  {
    if s != [] {
      RemoveAllCount(s[1..], x, y);
      var head: seq<T> := if s[0] != x then [s[0]] else [];
      assert RemoveAll(s, x) == head + RemoveAll(s[1..], x);
      CountAppend(head, RemoveAll(s[1..], x), y);
    }
  }

  /** Removing twice is removing once. */
  lemma RemoveAllIdempotent<T>(s: seq<T>, x: T)
    ensures RemoveAll(RemoveAll(s, x), x) == RemoveAll(s, x)
  {
    FilterIdempotent(s, Differs(x));
  }

  /** Removal distributes over concatenation. */
  lemma RemoveAllAppend<T>(a: seq<T>, b: seq<T>, x: T)
    ensures RemoveAll(a + b, x) == RemoveAll(a, x) + RemoveAll(b, x)
  {
    FilterAppend(a, b, Differs(x));
  }

  /** The survivors of a removal keep their relative order. */
  lemma RemoveAllSubsequence<T>(s: seq<T>, x: T)
    ensures Subsequence(RemoveAll(s, x), s)
  {
    FilterSubsequence(s, Differs(x));
  }

  /** Removal keeps a duplicate-free sequence duplicate-free. */
  lemma RemoveAllNoDuplicates<T>(s: seq<T>, x: T)
    requires NoDuplicates(s)
    ensures NoDuplicates(RemoveAll(s, x))
  {
    FilterNoDuplicates(s, Differs(x));
  }

  /** No element occurs twice. */
  predicate NoDuplicates<T(==)>(s: seq<T>) {
    forall i, j :: 0 <= i < j < |s| ==> s[i] != s[j]
  }

  lemma {:induction false} NoDuplicatesCount<T>(s: seq<T>, x: T)
    requires NoDuplicates(s)
    ensures Count(s, x) <= 1
  {
    if s != [] {
      NoDuplicatesCount(s[1..], x);
      if s[0] == x {
        assert x !in s[1..] by {
          forall k | 0 <= k < |s[1..]| ensures s[1..][k] != x {
            assert s[1..][k] == s[k + 1];
          }
        }
      }
    }
  }

  /** Filtering keeps a duplicate-free sequence duplicate-free. */
  lemma {:induction false} FilterNoDuplicates<T>(s: seq<T>, p: T -> bool)
    requires NoDuplicates(s)
    ensures NoDuplicates(Filter(s, p))
  {
    if s != [] {
      assert NoDuplicates(s[1..]) by {
        forall i, j | 0 <= i < j < |s[1..]| ensures s[1..][i] != s[1..][j] {
          assert s[1..][i] == s[i + 1] && s[1..][j] == s[j + 1];
        }
      }
      FilterNoDuplicates(s[1..], p);
      var rest := Filter(s[1..], p);
      if p(s[0]) {
        assert s[0] !in s[1..] by {
          forall k | 0 <= k < |s[1..]| ensures s[1..][k] != s[0] {
            assert s[1..][k] == s[k + 1];
          }
        }
        assert s[0] !in rest;
        var r := [s[0]] + rest;
        forall i, j | 0 <= i < j < |r| ensures r[i] != r[j] {
          if i == 0 {
            assert r[j] == rest[j - 1] && r[j] in rest;
          } else {
            assert r[i] == rest[i - 1] && r[j] == rest[j - 1];
          }
        }
      } else {
        assert Filter(s, p) == rest;
      }
    }
  }
}

/** Decimal rendering of JavaScript numbers that hold integers, and the `join`/`split` of strings. */
module Text {

  /** JavaScript's string `length`: UTF-16 code units, two for a character above U+FFFF. */
  function Utf16Length(s: string): (n: nat)
    ensures |s| <= n <= 2 * |s|
    ensures n == |s| <==> forall i :: 0 <= i < |s| ==> s[i] as int < 0x1_0000
  {
    if s == [] then 0 else (if s[0] as int >= 0x1_0000 then 2 else 1) + Utf16Length(s[1..])
  }

  predicate IsDigit(c: char) {
    '0' <= c <= '9'
  }

  function DigitChar(d: int): (c: char)
    requires 0 <= d < 10
    ensures IsDigit(c)
  {
    (48 + d) as char
  }

  function DigitValue(c: char): int {
    c as int - 48
  }

  /** `String(n)` for a non-negative integer `n`: its decimal digits, no leading zero. */
  function NatToString(n: nat): (s: string)
    ensures |s| >= 1
    ensures forall i :: 0 <= i < |s| ==> IsDigit(s[i])
    decreases n
  {
    if n < 10 then [DigitChar(n)] else NatToString(n / 10) + [DigitChar(n % 10)]
  }

  /** `String(i)` for an integer `i`: a minus sign before the digits of a negative value. */
  function IntToString(i: int): (s: string)
    ensures |s| >= 1
  {
    if i < 0 then "-" + NatToString(-i) else NatToString(i)
  }

  /** The number a string of decimal digits denotes. */
  function DigitsValue(s: string): int
    decreases |s|
  {
    if s == [] then 0 else 10 * DigitsValue(s[..|s| - 1]) + DigitValue(s[|s| - 1])
  }

  /** The number an optionally signed decimal string denotes. */
  function IntValue(s: string): int {
    if |s| > 0 && s[0] == '-' then -DigitsValue(s[1..]) else DigitsValue(s)
  }

  lemma {:induction false} NatToStringValue(n: nat)
    ensures DigitsValue(NatToString(n)) == n
    decreases n
  {
    if n >= 10 {
      NatToStringValue(n / 10);
      var s := NatToString(n);
      assert s[..|s| - 1] == NatToString(n / 10);
    }
  }

  /** Reading back the decimal string of an integer gives that integer. */
  lemma IntToStringValue(i: int)
    ensures IntValue(IntToString(i)) == i
  {
    if i < 0 {
      NatToStringValue(-i);
      assert IntToString(i)[1..] == NatToString(-i);
    } else {
      NatToStringValue(i);
      assert IsDigit(NatToString(i)[0]);
    }
  }

  /** Distinct integers have distinct decimal strings. */
  lemma IntToStringInjective(i: int, j: int)
    requires IntToString(i) == IntToString(j)
    ensures i == j
  {
    IntToStringValue(i);
    IntToStringValue(j);
  }

  /** How many digits `String(n)` has, for the ranges the date format cares about. */
  lemma NatToStringLength(n: nat)
    ensures n < 10 ==> |NatToString(n)| == 1
    ensures 10 <= n < 100 ==> |NatToString(n)| == 2
    ensures 1000 <= n < 10000 ==> |NatToString(n)| == 4
  {
    if 1000 <= n < 10000 {
      assert NatToString(n) == NatToString(n / 10) + [DigitChar(n % 10)];
      assert NatToString(n / 10) == NatToString(n / 100) + [DigitChar(n / 10 % 10)];
      assert NatToString(n / 100) == NatToString(n / 1000) + [DigitChar(n / 100 % 10)];
    }
  }

  /** `parts.join(sep)`. */
  function Join(parts: seq<string>, sep: char): string {
    if parts == [] then ""
    else if |parts| == 1 then parts[0]
    else parts[0] + [sep] + Join(parts[1..], sep)
  }

  /** `s.split(sep)`: the pieces between the separators (one empty piece for the empty string). */
  function Split(s: string, sep: char): (r: seq<string>)
    ensures |r| >= 1
  {
    if s == [] then [""]
    else if s[0] == sep then [""] + Split(s[1..], sep)
    else var rest := Split(s[1..], sep); [[s[0]] + rest[0]] + rest[1..]
  }

  lemma {:induction false} SplitPiece(p: string, sep: char)
    requires sep !in p
    ensures Split(p, sep) == [p]
  {
    if p != [] {
      SplitPiece(p[1..], sep);
      assert p[0] != sep;
      assert [p[0]] + p[1..] == p;
    }
  }

  lemma {:induction false} SplitPieceThen(p: string, sep: char, rest: string)
    requires sep !in p
    ensures Split(p + [sep] + rest, sep) == [p] + Split(rest, sep)
  {
    if p == [] {
      assert p + [sep] + rest == [sep] + rest;
    } else {
      assert (p + [sep] + rest)[1..] == p[1..] + [sep] + rest;
      SplitPieceThen(p[1..], sep, rest);
      assert (p + [sep] + rest)[0] == p[0] != sep;
      assert [p[0]] + p[1..] == p;
    }
  }

  /** Splitting a join recovers the parts, provided no part contains the separator. */
  lemma {:induction false} SplitJoin(parts: seq<string>, sep: char)
    requires |parts| >= 1
    requires forall i :: 0 <= i < |parts| ==> sep !in parts[i]
    ensures Split(Join(parts, sep), sep) == parts
  {
    if |parts| == 1 {
      SplitPiece(parts[0], sep);
    } else {
      SplitJoin(parts[1..], sep);
      SplitPieceThen(parts[0], sep, Join(parts[1..], sep));
    }
  }
}

/** The HTTP oracle: what an awaited axios call hands back to a store. */
module Http {

  /** A resolved axios response: the status and the decoded body. */
  datatype Reply<T> = Reply(status: int, data: T)

  /** An awaited call either resolves with a reply or rejects (network failure, or a status axios rejects). */
  datatype Call<T> = Resolved(reply: Reply<T>) | Rejected

  /** How an async store action settles: it returns a value, or its promise rejects. */
  datatype Settled<T> = Returned(value: T) | Threw

  /** axios's default `validateStatus`: only 2xx statuses resolve. */
  predicate IsSuccessStatus(status: int) {
    200 <= status < 300
  }
}
