/** Shared vocabulary: optional values, document identities and the
    "first element that matches" search every store lookup relies on. */
module Common {

  datatype Option<+T> = None | Some(value: T)

  /** A document identity (a MongoDB ObjectId, kept as its hex string). */
  type Id = string

  /** Milliseconds since the epoch, as JavaScript's Date keeps them. */
  type Millis = int

  /** Index of the first element of `s` that satisfies `p`, or -1 when none
      does: Array.prototype.findIndex, and the order in which `findOne` and
      `findById` return the first matching document of a store. */
  function FirstIndex<T>(s: seq<T>, p: T -> bool): (r: int)
    ensures -1 <= r < |s|
    ensures r == -1 <==> forall i :: 0 <= i < |s| ==> !p(s[i])
    ensures 0 <= r ==> p(s[r]) && forall i :: 0 <= i < r ==> !p(s[i])
  {
    if |s| == 0 then -1
    else if p(s[0]) then 0
    else
      var k := FirstIndex(s[1..], p);
      if k == -1 then -1 else k + 1
  }

  /** The first match depends only on which positions match. */
  lemma {:induction false} FirstIndexPointwise<T>(s: seq<T>, t: seq<T>, p: T -> bool, q: T -> bool)
    requires |s| == |t|
    requires forall i :: 0 <= i < |s| ==> p(s[i]) == q(t[i])
    ensures FirstIndex(s, p) == FirstIndex(t, q)
  {
    if |s| > 0 {
      FirstIndexPointwise(s[1..], t[1..], p, q);
    }
  }

  /** The first element satisfying `p`, if any (Array.prototype.find, `findOne`). */
  function Find<T>(s: seq<T>, p: T -> bool): (r: Option<T>)
    ensures r.None? <==> forall i :: 0 <= i < |s| ==> !p(s[i])
    ensures r.Some? ==> exists k :: 0 <= k < |s| && s[k] == r.value && p(s[k])
                                    && forall i :: 0 <= i < k ==> !p(s[i])
  {
    var k := FirstIndex(s, p);
    if k == -1 then None else Some(s[k])
  }

  /** The elements of `s` that satisfy `p`, in their original order
      (what a `find` query returns from a store kept in natural order). */
  function Filter<T>(s: seq<T>, p: T -> bool): (r: seq<T>)
    ensures |r| <= |s|
    ensures forall i :: 0 <= i < |r| ==> r[i] in s && p(r[i])
    ensures forall i :: 0 <= i < |s| && p(s[i]) ==> s[i] in r
  {
    if |s| == 0 then []
    else if p(s[0]) then [s[0]] + Filter(s[1..], p)
    else Filter(s[1..], p)
  }

  /** Number of elements of `s` that satisfy `p` (`countDocuments`). */
  function Count<T>(s: seq<T>, p: T -> bool): (n: nat)
    ensures n <= |s|
    ensures n == 0 <==> forall i :: 0 <= i < |s| ==> !p(s[i])
  {
    if |s| == 0 then 0
    else (if p(s[0]) then 1 else 0) + Count(s[1..], p)
  }

  /** Replacing one element changes the count by what the old element
      contributed and what the new one contributes. */
  lemma {:induction false} CountUpdate<T>(s: seq<T>, p: T -> bool, i: nat, x: T)
    requires i < |s|
    ensures Count(s[i := x], p) + (if p(s[i]) then 1 else 0)
         == Count(s, p) + (if p(x) then 1 else 0)
  {
    if i > 0 {
      assert s[i := x][1..] == s[1..][i - 1 := x];
      CountUpdate(s[1..], p, i - 1, x);
    }
  }

  /** Count over a concatenation is the sum of the counts. */
  lemma {:induction false} CountAppend<T>(s: seq<T>, t: seq<T>, p: T -> bool)
    ensures Count(s + t, p) == Count(s, p) + Count(t, p)
  {
    if |s| > 0 {
      assert (s + t)[1..] == s[1..] + t;
      CountAppend(s[1..], t, p);
    } else {
      assert s + t == t;
    }
  }

  /** Counting with a predicate that agrees with another on every element
      gives the same number. */
  lemma {:induction false} CountPointwise<T>(s: seq<T>, p: T -> bool, q: T -> bool)
    requires forall i :: 0 <= i < |s| ==> p(s[i]) == q(s[i])
    ensures Count(s, p) == Count(s, q)
  {
    if |s| > 0 {
      CountPointwise(s[1..], p, q);
    }
  }

  /** Counting a disjoint union is adding the two counts. */
  lemma {:induction false} CountSplit<T>(s: seq<T>, p: T -> bool, q: T -> bool, r: T -> bool)
    requires forall i :: 0 <= i < |s| ==> (r(s[i]) <==> p(s[i]) || q(s[i]))
    requires forall i :: 0 <= i < |s| ==> !(p(s[i]) && q(s[i]))
    ensures Count(s, r) == Count(s, p) + Count(s, q)
  {
    if |s| > 0 {
      CountSplit(s[1..], p, q, r);
    }
  }

  /** `s.map(f)`, and the `$array.field` path of an aggregation. */
  function Map<T, U>(s: seq<T>, f: T -> U): (r: seq<U>)
    ensures |r| == |s|
    ensures forall i :: 0 <= i < |s| ==> r[i] == f(s[i])
  {
    seq(|s|, i requires 0 <= i < |s| => f(s[i]))
  }

  /** No element occurs twice. */
  predicate Distinct<T(==)>(s: seq<T>)
  {
    forall i, j :: 0 <= i < j < |s| ==> s[i] != s[j]
  }

  /** No identity occurs twice among the keys `key(s[i])`. */
  predicate KeysUnique<T>(s: seq<T>, key: T -> Id)
  {
    forall i, j :: 0 <= i < j < |s| ==> key(s[i]) != key(s[j])
  }

  /** Appending an element whose key is new keeps the keys unique. */
  lemma AppendKeepsKeysUnique<T>(s: seq<T>, x: T, key: T -> Id)
    requires KeysUnique(s, key)
    requires forall i :: 0 <= i < |s| ==> key(s[i]) != key(x)
    ensures KeysUnique(s + [x], key)
  {
    var t := s + [x];
    forall i, j | 0 <= i < j < |t|
      ensures key(t[i]) != key(t[j])
    {
      if j < |s| {
        assert t[i] == s[i] && t[j] == s[j];
      } else {
        assert t[i] == s[i] && t[j] == x;
      }
    }
  }

  /** Replacing an element by one with the same key keeps the keys unique. */
  lemma UpdateKeepsKeysUnique<T>(s: seq<T>, k: nat, x: T, key: T -> Id)
    requires KeysUnique(s, key) && k < |s| && key(x) == key(s[k])
    ensures KeysUnique(s[k := x], key)
  {
    var t := s[k := x];
    forall i, j | 0 <= i < j < |t|
      ensures key(t[i]) != key(t[j])
    {
      assert key(t[i]) == key(s[i]) && key(t[j]) == key(s[j]);
    }
  }

  /** With unique keys, position `k` is the only one carrying its key. */
  lemma OnlyIndexWithKey<T>(s: seq<T>, key: T -> Id, k: nat)
    requires KeysUnique(s, key) && k < |s|
    ensures forall j :: 0 <= j < |s| && key(s[j]) == key(s[k]) ==> j == k
  {
  }

  /** Among elements with unique keys, at most one has key `k`. */
  lemma {:induction false} CountUniqueKey<T>(s: seq<T>, key: T -> Id, k: Id, q: T -> bool)
    requires KeysUnique(s, key)
    requires forall i :: 0 <= i < |s| ==> (q(s[i]) <==> key(s[i]) == k)
    ensures Count(s, q) == if exists i :: 0 <= i < |s| && key(s[i]) == k then 1 else 0
  {
    if |s| > 0 {
      CountUniqueKey(s[1..], key, k, q);
      if key(s[0]) == k {
        assert forall i :: 0 <= i < |s[1..]| ==> key(s[1..][i]) != k by {
          forall i | 0 <= i < |s[1..]|
            ensures key(s[1..][i]) != k
          {
            assert s[1..][i] == s[i + 1];
          }
        }
      } else if exists i :: 0 <= i < |s| && key(s[i]) == k {
        var i :| 0 <= i < |s| && key(s[i]) == k;
        assert s[1..][i - 1] == s[i];
      }
    }
  }
}
