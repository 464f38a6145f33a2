/** Shared vocabulary of the pipeline model: optional values, the JavaScript string
    primitives the Code nodes rely on, insertion-ordered objects, a stable sort and
    fixed-size batching. */
module Common {

  datatype Option<T> = None | Some(value: T)

  // ------------------------------------------------------------------
  // Numbers
  // ------------------------------------------------------------------

  function Min(a: int, b: int): int { if a <= b then a else b }
  function Max(a: int, b: int): int { if a >= b then a else b }

  function Abs(x: int): nat { if x < 0 then -x else x }

  /** `Math.abs` on reals. */
  function AbsReal(x: real): real { if x < 0.0 then -x else x }

  /** `Math.round`: halves round up. */
  function JsRound(x: real): int
  {
    (x + 0.5).Floor
  }

  /** `Math.max(lo, Math.min(hi, x))` on integers. */
  function Clamp(x: int, lo: int, hi: int): (r: int)
    requires lo <= hi
    ensures lo <= r <= hi
    ensures lo <= x <= hi ==> r == x
    ensures x < lo ==> r == lo
    ensures x > hi ==> r == hi
  {
    Max(lo, Min(hi, x))
  }

  /** `Math.max(lo, Math.min(hi, x))` on reals. */
  function ClampReal(x: real, lo: real, hi: real): (r: real)
    requires lo <= hi
    ensures lo <= r <= hi
    ensures lo <= x <= hi ==> r == x
    ensures x < lo ==> r == lo
    ensures x > hi ==> r == hi
  {
    if x > hi then hi else if x < lo then lo else x
  }

  /** The value of an integer interpreted as a signed 32-bit word (ECMAScript ToInt32). */
  function ToInt32(x: int): (r: int)
    ensures -0x8000_0000 <= r < 0x8000_0000
    ensures (r - x) % 0x1_0000_0000 == 0
  {
    (x + 0x8000_0000) % 0x1_0000_0000 - 0x8000_0000
  }

  // ------------------------------------------------------------------
  // Characters and strings
  // ------------------------------------------------------------------

  /** The characters matched by JavaScript's `\s` and removed by `trim`. */
  predicate IsSpace(c: char)
  {
    c == ' ' || c == '\t' || c == '\n' || c == '\r' || c == '\U{000B}' || c == '\U{000C}'
    || c == '\U{00A0}' || c == '\U{1680}' || ('\U{2000}' <= c <= '\U{200A}')
    || c == '\U{2028}' || c == '\U{2029}' || c == '\U{202F}' || c == '\U{205F}'
    || c == '\U{3000}' || c == '\U{FEFF}'
  }

  predicate IsDigit(c: char) { '0' <= c <= '9' }

  /** Characters of the regular-expression class `\w`. */
  predicate IsWordChar(c: char)
  {
    IsDigit(c) || ('a' <= c <= 'z') || ('A' <= c <= 'Z') || c == '_'
  }

  function ToLowerChar(c: char): char
  {
    if 'A' <= c <= 'Z' then (c as int + 32) as char else c
  }

  /** Lower-casing of the ASCII letters; every other character is kept. */
  function ToLower(s: string): (r: string)
    ensures |r| == |s|
    ensures forall i :: 0 <= i < |s| ==> r[i] == ToLowerChar(s[i])
  {
    if s == [] then [] else [ToLowerChar(s[0])] + ToLower(s[1..])
  }

  /** `String.prototype.trimStart`. */
  function TrimStart(s: string): (r: string)
    ensures |r| <= |s| && r == s[|s| - |r|..]
    ensures r == [] || !IsSpace(r[0])
    ensures forall i :: 0 <= i < |s| - |r| ==> IsSpace(s[i])
  {
    if s != [] && IsSpace(s[0]) then TrimStart(s[1..]) else s
  }

  /** The trailing white space removed by `String.prototype.trimEnd`. */
  function TrimEnd(s: string): (r: string)
    ensures |r| <= |s| && r == s[..|r|]
    ensures r == [] || !IsSpace(r[|r| - 1])
    ensures forall i :: |r| <= i < |s| ==> IsSpace(s[i])
  {
    if s != [] && IsSpace(s[|s| - 1]) then TrimEnd(s[..|s| - 1]) else s
  }

  /** `String.prototype.trim`. */
  function Trim(s: string): (r: string)
    ensures |r| <= |s|
    ensures r == [] || (!IsSpace(r[0]) && !IsSpace(r[|r| - 1]))
  {
    TrimEnd(TrimStart(s))
  }

  /** JavaScript `a || b` on strings: the empty string is falsy. */
  function OrText(a: string, b: string): string { if a != "" then a else b }

  predicate StartsWith(s: string, p: string)
  {
    |p| <= |s| && s[..|p|] == p
  }

  predicate EndsWith(s: string, p: string)
  {
    |p| <= |s| && s[|s| - |p|..] == p
  }

  /** `p` occurs in `s` at index `i`. */
  predicate OccursAt(s: string, p: string, i: int)
  {
    0 <= i && i + |p| <= |s| && s[i..i + |p|] == p
  }

  /** `s.indexOf(p, from)` for a start inside the string: the first occurrence at or
      after `from`, or -1. */
  function IndexOfFrom(s: string, p: string, from: nat): (r: int)
    decreases |s| - from
    ensures r == -1 || (from <= r && OccursAt(s, p, r))
    ensures r == -1 ==> forall i :: from <= i ==> !OccursAt(s, p, i)
    ensures r >= 0 ==> forall i :: from <= i < r ==> !OccursAt(s, p, i)
  {
    if from + |p| > |s| then -1
    else if OccursAt(s, p, from) then from
    else IndexOfFrom(s, p, from + 1)
  }

  function IndexOf(s: string, p: string): int { IndexOfFrom(s, p, 0) }

  /** `s.includes(p)`. */
  predicate Contains(s: string, p: string) { IndexOf(s, p) >= 0 }

  lemma ContainsIff(s: string, p: string)
    ensures Contains(s, p) <==> exists i :: OccursAt(s, p, i)
  {
    if !Contains(s, p) {
      assert forall i :: 0 <= i ==> !OccursAt(s, p, i);
    }
  }

  /** An occurrence inside a prefix is an occurrence in the whole string. */
  lemma OccursInPrefix(s: string, t: string, p: string, i: int)
    requires OccursAt(s, p, i)
    ensures OccursAt(s + t, p, i)
  {
    assert (s + t)[i..i + |p|] == s[i..i + |p|];
  }

  // ------------------------------------------------------------------
  // Sequences
  // ------------------------------------------------------------------

  function Filter<T>(s: seq<T>, p: T -> bool): (r: seq<T>)
    ensures |r| <= |s|
    ensures forall x :: x in r ==> x in s && p(x)
    ensures forall x :: x in s && p(x) ==> x in r
  {
    if s == [] then [] else (if p(s[0]) then [s[0]] else []) + Filter(s[1..], p)
  }

  /** Keeping some elements keeps distinct keys distinct. */
  lemma {:induction false} FilterDistinct<T, K>(s: seq<T>, p: T -> bool, key: T -> K)
    requires forall i, j :: 0 <= i < j < |s| ==> key(s[i]) != key(s[j])
    ensures forall i, j :: 0 <= i < j < |Filter(s, p)| ==> key(Filter(s, p)[i]) != key(Filter(s, p)[j])
  {
    if s != [] {
      var t := Filter(s[1..], p);
      DistinctTail(s, key);
      FilterDistinct(s[1..], p, key);
      if p(s[0]) {
        DistinctHeadFresh(s, key);
        KeysDistinctCons(s[0], t, key);
        assert Filter(s, p) == [s[0]] + t;
      } else {
        assert Filter(s, p) == t;
      }
    }
  }

  lemma DistinctTail<T, K>(s: seq<T>, key: T -> K)
    requires s != [] && forall i, j :: 0 <= i < j < |s| ==> key(s[i]) != key(s[j])
    ensures forall i, j :: 0 <= i < j < |s[1..]| ==> key(s[1..][i]) != key(s[1..][j])
  {
    var tail := s[1..];
    forall i, j | 0 <= i < j < |tail| ensures key(tail[i]) != key(tail[j]) {
      assert tail[i] == s[i + 1] && tail[j] == s[j + 1];
    }
  }

  lemma DistinctHeadFresh<T, K>(s: seq<T>, key: T -> K)
    requires s != [] && forall i, j :: 0 <= i < j < |s| ==> key(s[i]) != key(s[j])
    ensures forall y :: y in s[1..] ==> key(y) != key(s[0])
  {
    forall y | y in s[1..] ensures key(y) != key(s[0]) {
      var k :| 0 <= k < |s[1..]| && s[1..][k] == y;
      assert s[k + 1] == y;
    }
  }

  /** Keys stay distinct when an element whose key no element of `t` has is put in front. */
  lemma KeysDistinctCons<T, K>(h: T, t: seq<T>, key: T -> K)
    requires forall i, j :: 0 <= i < j < |t| ==> key(t[i]) != key(t[j])
    requires forall y :: y in t ==> key(y) != key(h)
    ensures forall i, j :: 0 <= i < j < |[h] + t| ==> key(([h] + t)[i]) != key(([h] + t)[j])
  {
    var r := [h] + t;
    forall i, j | 0 <= i < j < |r| ensures key(r[i]) != key(r[j]) {
      assert r[j] == t[j - 1] && t[j - 1] in t;
      if i > 0 {
        assert r[i] == t[i - 1];
      }
    }
  }

  lemma FilterAppend<T>(a: seq<T>, b: seq<T>, p: T -> bool)
    ensures Filter(a + b, p) == Filter(a, p) + Filter(b, p)
  {
    if a != [] {
      assert (a + b)[1..] == a[1..] + b;
      FilterAppend(a[1..], b, p);
    } else {
      assert a + b == b;
    }
  }

  function Count<T>(s: seq<T>, p: T -> bool): (r: nat)
    ensures r <= |s|
  {
    if s == [] then 0 else (if p(s[0]) then 1 else 0) + Count(s[1..], p)
  }

  lemma CountAppend<T>(a: seq<T>, b: seq<T>, p: T -> bool)
    ensures Count(a + b, p) == Count(a, p) + Count(b, p)
  {
    if a != [] {
      assert (a + b)[1..] == a[1..] + b;
      CountAppend(a[1..], b, p);
    } else {
      assert a + b == b;
    }
  }

  lemma FilterCount<T>(s: seq<T>, p: T -> bool)
    ensures |Filter(s, p)| == Count(s, p)
  {
    if s != [] { FilterCount(s[1..], p); }
  }

  function Flatten<T>(ss: seq<seq<T>>): seq<T>
  {
    if ss == [] then [] else ss[0] + Flatten(ss[1..])
  }

  lemma FlattenCons<T>(x: seq<T>, ss: seq<seq<T>>)
    ensures Flatten([x] + ss) == x + Flatten(ss)
  {
    assert ([x] + ss)[1..] == ss;
  }

  lemma FlattenSnoc<T>(ss: seq<seq<T>>, x: seq<T>)
    ensures Flatten(ss + [x]) == Flatten(ss) + x
  {
    if ss != [] {
      assert (ss + [x])[1..] == ss[1..] + [x];
      FlattenSnoc(ss[1..], x);
    }
  }

  lemma {:induction false} FlattenAppend<T>(a: seq<seq<T>>, b: seq<seq<T>>)
    ensures Flatten(a + b) == Flatten(a) + Flatten(b)
  {
    if a == [] {
      assert a + b == b;
    } else {
      assert (a + b)[1..] == a[1..] + b;
      FlattenAppend(a[1..], b);
    }
  }

  /** JavaScript `arr.slice(0, end)` for an integer end (a negative end counts from the back). */
  function SliceTo<T>(s: seq<T>, end: int): (r: seq<T>)
    ensures |r| <= |s| && r == s[..|r|]
    ensures end >= 0 ==> |r| == Min(end, |s|)
    ensures end < 0 ==> |r| == Max(0, |s| + end)
  {
    if end >= |s| then s else if end >= 0 then s[..end] else if |s| + end >= 0 then s[..|s| + end] else []
  }

  /** `s.map(f)`. */
  function Map<T, U>(s: seq<T>, f: T -> U): (r: seq<U>)
    ensures |r| == |s|
    ensures forall i :: 0 <= i < |s| ==> r[i] == f(s[i])
  {
    if s == [] then [] else Map(s[..|s| - 1], f) + [f(s[|s| - 1])]
  }

  lemma MapSnoc<T, U>(s: seq<T>, x: T, f: T -> U)
    ensures Map(s + [x], f) == Map(s, f) + [f(x)]
  {
    assert (s + [x])[..|s|] == s;
  }

  /** One more element of `s` adds its image to the flattened map of the prefix. */
  lemma FlattenMapPrefix<T, U>(s: seq<T>, i: int, f: T -> seq<U>)
    requires 0 <= i < |s|
    ensures Flatten(Map(s[..i + 1], f)) == Flatten(Map(s[..i], f)) + f(s[i])
  {
    assert s[..i + 1][..i] == s[..i];
    assert Map(s[..i + 1], f) == Map(s[..i], f) + [f(s[i])];
    FlattenSnoc(Map(s[..i], f), f(s[i]));
  }

  /** A non-empty sequence is its prefix followed by its last element. */
  lemma SplitLast<T>(s: seq<T>)
    requires s != []
    ensures s == s[..|s| - 1] + [s[|s| - 1]]
  {
  }

  lemma SplitAt<T>(s: seq<T>, k: nat)
    requires k <= |s|
    ensures s == s[..k] + s[k..]
  {
  }

  lemma AppendAssoc<T>(a: seq<T>, b: seq<T>, c: seq<T>)
    ensures a + (b + c) == (a + b) + c
  {
  }

  /** The index of the last element satisfying `p`, or -1 when there is none. */
  function LastIndex<T>(s: seq<T>, p: T -> bool): (r: int)
    ensures -1 <= r < |s|
    ensures r >= 0 ==> p(s[r]) && forall j :: r < j < |s| ==> !p(s[j])
    ensures r == -1 ==> forall j :: 0 <= j < |s| ==> !p(s[j])
  {
    if s == [] then -1
    else if p(s[|s| - 1]) then |s| - 1
    else LastIndex(s[..|s| - 1], p)
  }

  /** The elements of `s` whose flag in `keep` is set, in order. */
  function Select<T>(s: seq<T>, keep: seq<bool>): seq<T>
    requires |s| == |keep|
  {
    if s == [] then []
    else Select(s[..|s| - 1], keep[..|s| - 1]) + (if keep[|s| - 1] then [s[|s| - 1]] else [])
  }

  ghost predicate Distinct<T>(s: seq<T>)
  {
    forall i, j :: 0 <= i < j < |s| ==> s[i] != s[j]
  }

  /** The pieces `arr[i..i+size]`, `arr[i+size..i+2*size]`, ... of `arr` from index `i` on. */
  function BatchesFrom<T>(arr: seq<T>, size: nat, i: nat): seq<seq<T>>
    requires size >= 1
    decreases |arr| - i
  {
    if i >= |arr| then []
    else [if i + size <= |arr| then arr[i..i + size] else arr[i..]] + BatchesFrom(arr, size, i + size)
  }

  lemma {:induction false} BatchesFromFlatten<T>(arr: seq<T>, size: nat, i: nat)
    requires size >= 1 && i <= |arr|
    ensures Flatten(BatchesFrom(arr, size, i)) == arr[i..]
    decreases |arr| - i
  {
    if i < |arr| {
      var piece := if i + size <= |arr| then arr[i..i + size] else arr[i..];
      if i + size <= |arr| {
        BatchesFromFlatten(arr, size, i + size);
        assert arr[i..] == piece + arr[i + size..];
      }
    }
  }

  lemma {:induction false} BatchesFromCount<T>(arr: seq<T>, size: nat, i: nat)
    requires size >= 1
    ensures i < |arr| ==> |arr| - i <= |BatchesFrom(arr, size, i)| * size < |arr| - i + size
    decreases |arr| - i
  {
    if i >= |arr| { return; }
    var rest := BatchesFrom(arr, size, i + size);
    assert |BatchesFrom(arr, size, i)| == 1 + |rest|;
    assert (1 + |rest|) * size == size + |rest| * size;
    if i + size < |arr| {
      BatchesFromCount(arr, size, i + size);
    }
  }

  lemma {:induction false} BatchesFromPieces<T>(arr: seq<T>, size: nat, i: nat)
    requires size >= 1
    ensures forall k :: 0 <= k < |BatchesFrom(arr, size, i)| ==> 1 <= |BatchesFrom(arr, size, i)[k]| <= size
    ensures forall k :: 0 <= k < |BatchesFrom(arr, size, i)| - 1 ==> |BatchesFrom(arr, size, i)[k]| == size
    decreases |arr| - i
  {
    if i < |arr| {
      var piece := if i + size <= |arr| then arr[i..i + size] else arr[i..];
      var rest := BatchesFrom(arr, size, i + size);
      var r := BatchesFrom(arr, size, i);
      BatchesFromPieces(arr, size, i + size);
      assert r == [piece] + rest;
      forall k | 0 <= k < |r|
        ensures 1 <= |r[k]| <= size && (k < |r| - 1 ==> |r[k]| == size)
      {
        if k > 0 {
          assert r[k] == rest[k - 1];
          assert 1 <= |rest[k - 1]| <= size;
          assert k - 1 < |rest| - 1 ==> |rest[k - 1]| == size;
        } else {
          assert r[0] == piece;
          assert 1 <= |piece| <= size;
          assert |r| > 1 ==> |piece| == size;
        }
      }
    }
  }

  /** `arr` cut into consecutive pieces of `size` elements, as the `chunk` helper of the
      ranking and semantic-dedupe nodes does: every piece is full except possibly the last,
      and together they spell `arr`. */
  function Batches<T>(arr: seq<T>, size: nat): (r: seq<seq<T>>)
    requires size >= 1
    ensures Flatten(r) == arr
    ensures |arr| <= |r| * size < |arr| + size
    ensures forall k :: 0 <= k < |r| ==> 1 <= |r[k]| <= size
    ensures forall k :: 0 <= k < |r| - 1 ==> |r[k]| == size
  {
    BatchesFromFlatten(arr, size, 0);
    BatchesFromCount(arr, size, 0);
    BatchesFromPieces(arr, size, 0);
    BatchesFrom(arr, size, 0)
  }

  /** The `chunk` helper: `for (i = 0; i < arr.length; i += size) chunks.push(arr.slice(i, i + size))`. */
  method Chunk<T>(arr: seq<T>, size: nat) returns (chunks: seq<seq<T>>)
    requires size >= 1
    ensures chunks == Batches(arr, size)
  {
    chunks := [];
    var i := 0;
    while i < |arr|
      invariant chunks + BatchesFrom(arr, size, i) == Batches(arr, size)
      decreases |arr| - i
    {
      var piece := if i + size <= |arr| then arr[i..i + size] else arr[i..];
      ghost var rest := BatchesFrom(arr, size, i + size);
      assert (chunks + [piece]) + rest == chunks + ([piece] + rest);
      chunks := chunks + [piece];
      i := i + size;
    }
  }

  // ------------------------------------------------------------------
  // A stable descending sort (Array.prototype.sort with a numeric comparator
  // `(a, b) => key(b) - key(a)`; ECMAScript requires the sort to be stable)
  // ------------------------------------------------------------------

  ghost predicate SortedDesc<T>(s: seq<T>, key: T -> real)
  {
    forall i, j :: 0 <= i < j < |s| ==> key(s[i]) >= key(s[j])
  }

  /** Puts `x` after every element whose key is at least its own. */
  function InsertDesc<T>(x: T, s: seq<T>, key: T -> real): (r: seq<T>)
    ensures |r| == |s| + 1
    ensures multiset(r) == multiset(s) + multiset{x}
  {
    if s == [] then [x]
    else if key(x) > key(s[0]) then [x] + s
    else
      assert s == [s[0]] + s[1..];
      [s[0]] + InsertDesc(x, s[1..], key)
  }

  lemma {:induction false} InsertDescSorted<T>(x: T, s: seq<T>, key: T -> real)
    requires SortedDesc(s, key)
    ensures SortedDesc(InsertDesc(x, s, key), key)
  {
    if s != [] && key(x) <= key(s[0]) {
      var rest := InsertDesc(x, s[1..], key);
      SortedTail(s, key);
      InsertDescSorted(x, s[1..], key);
      SortedHeadBound(s, key);
      InsertDescBound(x, s[1..], key, key(s[0]));
      SortedCons(s[0], rest, key);
      assert InsertDesc(x, s, key) == [s[0]] + rest;
    }
  }

  lemma SortedTail<T>(s: seq<T>, key: T -> real)
    requires SortedDesc(s, key) && s != []
    ensures SortedDesc(s[1..], key)
  {
    var tail := s[1..];
    forall i, j | 0 <= i < j < |tail| ensures key(tail[i]) >= key(tail[j]) {
      assert tail[i] == s[i + 1] && tail[j] == s[j + 1];
    }
  }

  lemma SortedHeadBound<T>(s: seq<T>, key: T -> real)
    requires SortedDesc(s, key) && s != []
    ensures forall y :: y in s[1..] ==> key(y) <= key(s[0])
  {
    forall y | y in s[1..] ensures key(y) <= key(s[0]) {
      var k :| 0 <= k < |s[1..]| && s[1..][k] == y;
      assert s[k + 1] == y;
    }
  }

  /** Inserting an element no larger than a bound keeps every element within the bound. */
  lemma InsertDescBound<T>(x: T, s: seq<T>, key: T -> real, bound: real)
    requires key(x) <= bound && forall y :: y in s ==> key(y) <= bound
    ensures forall y :: y in InsertDesc(x, s, key) ==> key(y) <= bound
  {
    var r := InsertDesc(x, s, key);
    forall y | y in r ensures key(y) <= bound {
      assert y in multiset(r);
      if y != x {
        assert y in multiset(s);
      }
    }
  }

  lemma SortedCons<T>(h: T, rest: seq<T>, key: T -> real)
    requires SortedDesc(rest, key) && forall y :: y in rest ==> key(y) <= key(h)
    ensures SortedDesc([h] + rest, key)
  {
    var r := [h] + rest;
    forall i, j | 0 <= i < j < |r| ensures key(r[i]) >= key(r[j]) {
      assert r[j] == rest[j - 1] && rest[j - 1] in rest;
      if i > 0 {
        assert r[i] == rest[i - 1];
      }
    }
  }

  function SortDesc<T>(s: seq<T>, key: T -> real): (r: seq<T>)
    ensures |r| == |s|
    ensures multiset(r) == multiset(s)
    ensures SortedDesc(r, key)
  {
    if s == [] then []
    else
      assert s == s[..|s| - 1] + [s[|s| - 1]];
      InsertDescSorted(s[|s| - 1], SortDesc(s[..|s| - 1], key), key);
      InsertDesc(s[|s| - 1], SortDesc(s[..|s| - 1], key), key)
  }

  /** In a descending sequence, nothing after position `n` has a larger key than anything before it. */
  lemma SortedSplit<T>(s: seq<T>, key: T -> real, n: int)
    requires SortedDesc(s, key) && 0 <= n <= |s|
    ensures forall d, e :: d in s[n..] && e in s[..n] ==> key(d) <= key(e)
  {
    forall d, e | d in s[n..] && e in s[..n] ensures key(d) <= key(e) {
      var a :| 0 <= a < n && s[a] == e;
      var b :| n <= b < |s| && s[b] == d;
    }
  }

  lemma SortedMember<T>(s: seq<T>, key: T -> real, k: int)
    requires SortedDesc(s, key) && 0 <= k < |s|
    ensures forall j :: k <= j < |s| ==> key(s[k]) >= key(s[j])
  {
  }

  // ------------------------------------------------------------------
  // Insertion-ordered objects: a JavaScript object or Map as a list of
  // (key, value) entries with distinct keys, in key-insertion order
  // ------------------------------------------------------------------

  ghost predicate DistinctKeys<K(!new), V>(m: seq<(K, V)>)
  {
    forall i, j :: 0 <= i < j < |m| ==> m[i].0 != m[j].0
  }

  function KeySet<K(!new), V>(m: seq<(K, V)>): (r: set<K>)
    ensures forall k :: k in r <==> exists i :: 0 <= i < |m| && m[i].0 == k
  {
    if m == [] then {} else {m[0].0} + KeySet(m[1..])
  }

  function Lookup<K(==,!new), V>(m: seq<(K, V)>, k: K): (r: Option<V>)
    ensures r.None? <==> k !in KeySet(m)
    ensures r.Some? ==> exists i :: 0 <= i < |m| && m[i] == (k, r.value)
  {
    if m == [] then None else if m[0].0 == k then Some(m[0].1) else Lookup(m[1..], k)
  }

  lemma {:induction false} LookupAt<K(!new), V>(m: seq<(K, V)>, i: int)
    requires DistinctKeys(m) && 0 <= i < |m|
    ensures Lookup(m, m[i].0) == Some(m[i].1)
  {
    if i > 0 { LookupAt(m[1..], i - 1); }
  }

  /** `obj[k] = v`: an existing key keeps its position, a new key goes last. */
  function Put<K(==,!new), V>(m: seq<(K, V)>, k: K, v: V): (r: seq<(K, V)>)
    ensures KeySet(r) == KeySet(m) + {k}
    ensures k !in KeySet(m) ==> r == m + [(k, v)]
    ensures |r| == if k in KeySet(m) then |m| else |m| + 1
  {
    if m == [] then [(k, v)]
    else if m[0].0 == k then
      assert ([(k, v)] + m[1..])[1..] == m[1..];
      [(k, v)] + m[1..]
    else
      var rest := Put(m[1..], k, v);
      assert ([m[0]] + rest)[1..] == rest;
      [m[0]] + rest
  }

  lemma {:induction false} PutLookup<K(!new), V>(m: seq<(K, V)>, k: K, v: V)
    ensures Lookup(Put(m, k, v), k) == Some(v)
    ensures forall k' :: k' != k ==> Lookup(Put(m, k, v), k') == Lookup(m, k')
  {
    if m != [] && m[0].0 != k { PutLookup(m[1..], k, v); }
  }

  lemma {:induction false} PutDistinct<K(!new), V>(m: seq<(K, V)>, k: K, v: V)
    requires DistinctKeys(m)
    ensures DistinctKeys(Put(m, k, v))
  {
    if m != [] {
      assert m == [m[0]] + m[1..];
      DistinctUncons(m[0], m[1..]);
      if m[0].0 != k {
        PutDistinct(m[1..], k, v);
        DistinctCons(m[0], Put(m[1..], k, v));
      } else {
        DistinctCons((k, v), m[1..]);
      }
    }
  }

  lemma DistinctCons<K(!new), V>(x: (K, V), m: seq<(K, V)>)
    requires DistinctKeys(m) && x.0 !in KeySet(m)
    ensures DistinctKeys([x] + m)
  {
    var r := [x] + m;
    forall i, j | 0 <= i < j < |r| ensures r[i].0 != r[j].0 {
      if i == 0 { assert r[j] == m[j - 1]; }
    }
  }

  lemma DistinctUncons<K(!new), V>(x: (K, V), m: seq<(K, V)>)
    requires DistinctKeys([x] + m)
    ensures DistinctKeys(m) && x.0 !in KeySet(m)
  {
    var r := [x] + m;
    forall i, j | 0 <= i < j < |m| ensures m[i].0 != m[j].0 {
      assert m[i] == r[i + 1] && m[j] == r[j + 1];
    }
    forall j | 0 <= j < |m| ensures m[j].0 != x.0 {
      assert m[j] == r[j + 1] && x == r[0];
    }
  }

  /** `delete obj[k]`. */
  function RemoveKey<K(==,!new), V>(m: seq<(K, V)>, k: K): seq<(K, V)>
  {
    if m == [] then []
    else if m[0].0 == k then RemoveKey(m[1..], k)
    else [m[0]] + RemoveKey(m[1..], k)
  }

  lemma {:induction false} RemoveAbsentKey<K(!new), V>(m: seq<(K, V)>, k: K)
    requires k !in KeySet(m)
    ensures RemoveKey(m, k) == m
  {
    if m != [] { RemoveAbsentKey(m[1..], k); }
  }

  lemma {:induction false} RemoveKeyAppend<K(!new), V>(a: seq<(K, V)>, b: seq<(K, V)>, k: K)
    ensures RemoveKey(a + b, k) == RemoveKey(a, k) + RemoveKey(b, k)
  {
    if a != [] {
      assert (a + b)[1..] == a[1..] + b;
      RemoveKeyAppend(a[1..], b, k);
    } else {
      assert a + b == b;
    }
  }
}
