/**
 * `ORDER BY <key> DESC` over the rows a query selects: the selected ids, each
 * once, with keys non-increasing along the result. Ties come out in some order,
 * as they do from the database.
 */
module Listing {
  ghost predicate TotalPreorder<K(!new)>(le: (K, K) -> bool) {
    && (forall a, b :: le(a, b) || le(b, a))
    && (forall a, b, c :: le(a, b) && le(b, c) ==> le(a, c))
  }

  predicate Descending<K>(ids: seq<int>, key: int -> K, le: (K, K) -> bool) {
    forall i, j :: 0 <= i < j < |ids| ==> le(key(ids[j]), key(ids[i]))
  }

  predicate Distinct(ids: seq<int>) {
    forall i, j :: 0 <= i < j < |ids| ==> ids[i] != ids[j]
  }

  /** `x` placed before the first id whose key it does not exceed. */
  function Insert<K(!new)>(x: int, ids: seq<int>, key: int -> K, le: (K, K) -> bool): (r: seq<int>)
    ensures forall y :: y in r <==> y == x || y in ids
    ensures x !in ids && Distinct(ids) ==> Distinct(r)
    ensures TotalPreorder(le) && Descending(ids, key, le) ==> Descending(r, key, le)
  {
    if ids == [] then [x]
    else if le(key(ids[0]), key(x)) then [x] + ids
    else
      var rest := Insert(x, ids[1..], key, le);
      assert forall y :: y in ids <==> y == ids[0] || y in ids[1..];
      ConsDistinct(ids[0], rest);
      ConsDescending(ids[0], rest, key, le);
      assert TotalPreorder(le) && Descending(ids, key, le) ==>
        forall y :: y in rest ==> le(key(y), key(ids[0]));
      [ids[0]] + rest
  }

  lemma ConsDistinct(h: int, rest: seq<int>)
    ensures h !in rest && Distinct(rest) ==> Distinct([h] + rest)
  {
    if h !in rest && Distinct(rest) {
      forall i, j | 0 <= i < j < |[h] + rest| ensures ([h] + rest)[i] != ([h] + rest)[j] {
        if i > 0 {
          assert ([h] + rest)[i] == rest[i - 1];
        }
        assert ([h] + rest)[j] == rest[j - 1];
      }
    }
  }

  lemma ConsDescending<K>(h: int, rest: seq<int>, key: int -> K, le: (K, K) -> bool)
    ensures Descending(rest, key, le) && (forall y :: y in rest ==> le(key(y), key(h)))
      ==> Descending([h] + rest, key, le)
  {
    if Descending(rest, key, le) && (forall y :: y in rest ==> le(key(y), key(h))) {
      forall i, j | 0 <= i < j < |[h] + rest| ensures le(key(([h] + rest)[j]), key(([h] + rest)[i])) {
        assert ([h] + rest)[j] == rest[j - 1];
        if i > 0 {
          assert ([h] + rest)[i] == rest[i - 1];
        }
      }
    }
  }

  /** The ids of `selected` in `[0, n)`, each once, in descending key order. */
  function SortDesc<K(!new)>(selected: set<int>, n: nat, key: int -> K, le: (K, K) -> bool): (r: seq<int>)
    ensures forall id :: id in r <==> id in selected && 0 <= id < n
    ensures Distinct(r)
    ensures TotalPreorder(le) ==> Descending(r, key, le)
  {
    if n == 0 then []
    else
      var rest := SortDesc(selected, n - 1, key, le);
      if n - 1 in selected then Insert(n - 1, rest, key, le) else rest
  }

  predicate IntLe(a: int, b: int) {
    a <= b
  }

  lemma IntLeTotalPreorder()
    ensures TotalPreorder(IntLe)
  {
  }

  /** Lexicographic order on strings by code point: how the `date` text column compares. */
  predicate StrLe(a: string, b: string) {
    |a| == 0 || (|b| > 0 && (a[0] < b[0] || (a[0] == b[0] && StrLe(a[1..], b[1..]))))
  }

  lemma {:induction false} StrLeTotal(a: string, b: string)
    ensures StrLe(a, b) || StrLe(b, a)
  {
    if |a| > 0 && |b| > 0 && a[0] == b[0] {
      StrLeTotal(a[1..], b[1..]);
    }
  }

  lemma {:induction false} StrLeTrans(a: string, b: string, c: string)
    requires StrLe(a, b) && StrLe(b, c)
    ensures StrLe(a, c)
  {
    if |a| > 0 && a[0] == b[0] && b[0] == c[0] {
      StrLeTrans(a[1..], b[1..], c[1..]);
    }
  }

  lemma StrLeTotalPreorder()
    ensures TotalPreorder(StrLe)
  {
    forall a, b ensures StrLe(a, b) || StrLe(b, a) {
      StrLeTotal(a, b);
    }
    forall a, b, c | StrLe(a, b) && StrLe(b, c) ensures StrLe(a, c) {
      StrLeTrans(a, b, c);
    }
  }
}
