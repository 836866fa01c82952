/** The collection primitives both stores are built from: `Array.prototype.filter`,
    the stable `Array.prototype.sort` (and SQL `ORDER BY`, see README), `slice(0, n)`,
    and the byte order SQLite uses to compare text. */
module Collections {
  import opened SensorTypes

  /** A comparator that every pair of elements can be ranked by, consistently. */
  ghost predicate TotalPreorder<T(!new)>(le: (T, T) -> bool) {
    && (forall a, b :: le(a, b) || le(b, a))
    && (forall a, b, c :: le(a, b) && le(b, c) ==> le(a, c))
  }

  ghost predicate Sorted<T>(s: seq<T>, le: (T, T) -> bool) {
    forall i, j :: 0 <= i < j < |s| ==> le(s[i], s[j])
  }

  /** `s.filter(p)`: the elements satisfying `p`, each as often as in `s`, in order. */
  function Filter<T(!new)>(s: seq<T>, p: T -> bool): (r: seq<T>)
    ensures |r| <= |s|
    ensures forall x :: multiset(r)[x] == if p(x) then multiset(s)[x] else 0
    ensures forall k :: 0 <= k < |r| ==> p(r[k])
  {
    if s == [] then []
    else
      var rest := Filter(s[1..], p);
      assert s == [s[0]] + s[1..];
      if p(s[0]) then [s[0]] + rest else rest
  }

  lemma ConcatAssociative<T>(a: seq<T>, b: seq<T>, c: seq<T>)
    ensures (a + b) + c == a + (b + c)
  {
  }

  /** Filtering a sequence that starts with `x`. */
  lemma FilterCons<T(!new)>(x: T, s: seq<T>, p: T -> bool)
    ensures Filter([x] + s, p) == if p(x) then [x] + Filter(s, p) else Filter(s, p)
  {
    assert ([x] + s)[1..] == s;
  }

  /** Filtering distributes over concatenation: relative order is kept. */
  lemma {:induction false} FilterAppend<T(!new)>(a: seq<T>, b: seq<T>, p: T -> bool)
    ensures Filter(a + b, p) == Filter(a, p) + Filter(b, p)
  {
    if a == [] {
      assert a + b == b;
    } else {
      var x, rest := a[0], a[1..];
      assert a + b == [x] + (rest + b);
      assert a == [x] + rest;
      FilterCons(x, rest + b, p);
      FilterCons(x, rest, p);
      FilterAppend(rest, b, p);
      if p(x) {
        calc {
          Filter(a + b, p);
          [x] + Filter(rest + b, p);
          [x] + (Filter(rest, p) + Filter(b, p));
          { ConcatAssociative([x], Filter(rest, p), Filter(b, p)); }
          ([x] + Filter(rest, p)) + Filter(b, p);
          Filter(a, p) + Filter(b, p);
        }
      }
    }
  }

  /** Filtering by a stricter predicate after a looser one is filtering by the
      stricter one alone; in particular filtering twice by the same predicate is
      filtering once. */
  lemma {:induction false} FilterSubsumed<T(!new)>(s: seq<T>, p: T -> bool, q: T -> bool)
    requires forall x :: q(x) ==> p(x)
    ensures Filter(Filter(s, p), q) == Filter(s, q)
  {
    if s != [] {
      FilterSubsumed(s[1..], p, q);
      if p(s[0]) {
        assert Filter(s, p) == [s[0]] + Filter(s[1..], p);
        assert Filter(s, p)[1..] == Filter(s[1..], p);
      }
    }
  }

  /** `s.map(f)` */
  function MapSeq<A, B>(s: seq<A>, f: A -> B): (r: seq<B>)
    ensures |r| == |s|
    ensures forall i :: 0 <= i < |s| ==> r[i] == f(s[i])
  {
    seq(|s|, i requires 0 <= i < |s| => f(s[i]))
  }

  lemma MapSeqAppend<A, B>(a: seq<A>, b: seq<A>, f: A -> B)
    ensures MapSeq(a + b, f) == MapSeq(a, f) + MapSeq(b, f)
  {
    assert forall k :: 0 <= k < |a| ==> (a + b)[k] == a[k];
    assert forall k :: |a| <= k < |a| + |b| ==> (a + b)[k] == b[k - |a|];
  }

  /** Taking out the element at `k`. */
  lemma RemoveAt<A, B>(b: seq<A>, k: nat, f: A -> B)
    requires k < |b|
    ensures multiset(b) == multiset(b[..k] + b[k + 1..]) + multiset{b[k]}
    ensures multiset(MapSeq(b, f)) == multiset(MapSeq(b[..k] + b[k + 1..], f)) + multiset{f(b[k])}
  {
    var before, after := b[..k], b[k + 1..];
    assert b == before + [b[k]] + after;
    MapSeqAppend(before + [b[k]], after, f);
    MapSeqAppend(before, [b[k]], f);
    MapSeqAppend(before, after, f);
  }

  /** Mapping two permutations of each other gives permutations of each other. */
  lemma {:induction false} MapSeqPermutation<A, B>(a: seq<A>, b: seq<A>, f: A -> B)
    requires multiset(a) == multiset(b)
    ensures multiset(MapSeq(a, f)) == multiset(MapSeq(b, f))
  {
    if a != [] {
      var x := a[0];
      assert x in multiset(b);
      var k :| 0 <= k < |b| && b[k] == x;
      var rest := b[..k] + b[k + 1..];
      RemoveAt(b, k, f);
      assert a == [x] + a[1..];
      assert multiset(a[1..]) + multiset{x} == multiset(rest) + multiset{x};
      forall y ensures multiset(a[1..])[y] == multiset(rest)[y] {
        assert (multiset(a[1..]) + multiset{x})[y] == (multiset(rest) + multiset{x})[y];
      }
      assert multiset(a[1..]) == multiset(rest);
      MapSeqPermutation(a[1..], rest, f);
      MapSeqAppend([x], a[1..], f);
      assert MapSeq([x], f) == [f(x)];
      calc {
        multiset(MapSeq(a, f));
        multiset(MapSeq([x], f) + MapSeq(a[1..], f));
        multiset{f(x)} + multiset(MapSeq(a[1..], f));
        multiset{f(x)} + multiset(MapSeq(rest, f));
        multiset(MapSeq(b, f));
      }
    }
  }

  lemma MapSeqPrefix<A, B>(a: seq<A>, b: seq<A>, f: A -> B)
    requires a <= b
    ensures MapSeq(a, f) <= MapSeq(b, f)
  {
    assert forall k :: 0 <= k < |a| ==> a[k] == b[k];
  }

  /** Inserts `x` in front of the first element it ranks before or equal to. */
  function Insert<T>(x: T, s: seq<T>, le: (T, T) -> bool): (r: seq<T>)
    ensures multiset(r) == multiset(s) + multiset{x}
    ensures |r| == |s| + 1
  {
    if s == [] then [x]
    else if le(x, s[0]) then [x] + s
    else
      assert s == [s[0]] + s[1..];
      [s[0]] + Insert(x, s[1..], le)
  }

  /** Insertion sort. An element taken from further left is inserted in front of the
      elements it ties with, so ties keep their input order, as in a stable sort. */
  function SortBy<T>(s: seq<T>, le: (T, T) -> bool): (r: seq<T>)
    ensures multiset(r) == multiset(s)
    ensures |r| == |s|
  {
    if s == [] then []
    else
      assert s == [s[0]] + s[1..];
      Insert(s[0], SortBy(s[1..], le), le)
  }

  lemma {:induction false} InsertSorted<T(!new)>(x: T, s: seq<T>, le: (T, T) -> bool)
    requires TotalPreorder(le) && Sorted(s, le)
    ensures Sorted(Insert(x, s, le), le)
  {
    if s != [] && !le(x, s[0]) {
      var tail := Insert(x, s[1..], le);
      InsertSorted(x, s[1..], le);
      assert le(s[0], x);
      forall k | 0 <= k < |tail| ensures le(s[0], tail[k]) {
        assert tail[k] in multiset(tail);
        assert tail[k] == x || tail[k] in multiset(s[1..]);
        if tail[k] != x {
          var m :| 0 <= m < |s[1..]| && s[1..][m] == tail[k];
          assert s[m + 1] == tail[k];
        }
      }
    } else if s != [] {
      forall i, j | 0 <= i < j < |s| + 1 ensures le(([x] + s)[i], ([x] + s)[j]) {
        if i == 0 {
          assert le(x, s[0]);
          if j > 1 { assert le(s[0], s[j - 1]); }
        }
      }
    }
  }

  lemma {:induction false} SortBySorted<T(!new)>(s: seq<T>, le: (T, T) -> bool)
    requires TotalPreorder(le)
    ensures Sorted(SortBy(s, le), le)
  {
    if s != [] {
      SortBySorted(s[1..], le);
      InsertSorted(s[0], SortBy(s[1..], le), le);
    }
  }

  /** Ranks `a` before `b` when it is at least as recent. */
  function Later<T>(time: T -> int): (T, T) -> bool
  {
    (a: T, b: T) => time(a) >= time(b)
  }

  /** Newest first by a millisecond `time` key (`sort((a, b) => time(b) - time(a))`,
      or `ORDER BY timestamp DESC`): a permutation of `s`, ordered by decreasing time. */
  function NewestFirst<T(!new)>(s: seq<T>, time: T -> int): (r: seq<T>)
    ensures multiset(r) == multiset(s) && |r| == |s|
    ensures forall i, j :: 0 <= i < j < |r| ==> time(r[i]) >= time(r[j])
  {
    assert TotalPreorder(Later(time));
    SortBySorted(s, Later(time));
    SortBy(s, Later(time))
  }

  /** Reference definition: the first element of `s` whose time no other element
      exceeds. */
  function Newest<T>(s: seq<T>, time: T -> int): (x: T)
    requires s != []
  {
    if |s| == 1 then s[0]
    else
      var rest := Newest(s[1..], time);
      if time(s[0]) >= time(rest) then s[0] else rest
  }

  /** The head of the newest-first order is the earliest of the newest elements: the
      sort is stable. */
  lemma {:induction false} NewestFirstHead<T(!new)>(s: seq<T>, time: T -> int)
    requires s != []
    ensures NewestFirst(s, time)[0] == Newest(s, time)
  {
    var le := Later(time);
    if |s| > 1 {
      NewestFirstHead(s[1..], time);
      var sorted := SortBy(s[1..], le);
      assert sorted != [] && sorted[0] == Newest(s[1..], time);
      assert SortBy(s, le) == Insert(s[0], sorted, le);
    }
  }

  /** Reference definition by a single scan: the first of the newest elements
      satisfying `p`, or none when no element does. */
  function LatestWhere<T>(s: seq<T>, p: T -> bool, time: T -> int): Option<T>
  {
    if s == [] then None
    else
      var rest := LatestWhere(s[1..], p, time);
      if !p(s[0]) then rest
      else if rest.None? || time(s[0]) >= time(rest.value) then Some(s[0])
      else rest
  }

  /** The scan picks an element satisfying `p` that no other such element is newer
      than, and every such element before it is strictly older. */
  lemma {:induction false} LatestWhereSpec<T>(s: seq<T>, p: T -> bool, time: T -> int)
    ensures LatestWhere(s, p, time).None? <==> forall k :: 0 <= k < |s| ==> !p(s[k])
    ensures LatestWhere(s, p, time).Some? ==>
              var v := LatestWhere(s, p, time).value;
              && p(v)
              && (forall k :: 0 <= k < |s| && p(s[k]) ==> time(s[k]) <= time(v))
              && exists i :: 0 <= i < |s| && s[i] == v
                             && forall j :: 0 <= j < i && p(s[j]) ==> time(s[j]) < time(v)
  {
    if s != [] {
      var rest := LatestWhere(s[1..], p, time);
      LatestWhereSpec(s[1..], p, time);
      assert forall k :: 1 <= k < |s| ==> s[k] == s[1..][k - 1];
      var takesHead := p(s[0]) && (rest.None? || time(s[0]) >= time(rest.value));
      if !takesHead && rest.Some? {
        var v := rest.value;
        var i :| 0 <= i < |s[1..]| && s[1..][i] == v
                 && forall j :: 0 <= j < i && p(s[1..][j]) ==> time(s[1..][j]) < time(v);
        forall j | 0 <= j < i + 1 && p(s[j]) ensures time(s[j]) < time(v) {
          if j > 0 {
            assert s[j] == s[1..][j - 1];
          }
        }
        assert s[i + 1] == v;
      }
    }
  }

  /** The scan agrees with the head of the newest-first order of the elements
      satisfying `p`. */
  lemma {:induction false} LatestWhereIsNewest<T(!new)>(s: seq<T>, p: T -> bool, time: T -> int)
    ensures LatestWhere(s, p, time) == if Filter(s, p) == [] then None else Some(Newest(Filter(s, p), time))
  {
    if s != [] {
      LatestWhereIsNewest(s[1..], p, time);
      var tail := Filter(s[1..], p);
      if p(s[0]) {
        var mine := [s[0]] + tail;
        assert Filter(s, p) == mine;
        assert mine[1..] == tail;
        if tail != [] {
          assert Newest(mine, time) == if time(s[0]) >= time(Newest(tail, time)) then s[0] else Newest(tail, time);
        }
      } else {
        assert Filter(s, p) == tail;
      }
    }
  }

  /** `s.slice(0, end)` for an integer `end`: a negative end counts back from the
      length, and both ends are clamped to the sequence. */
  function SliceTo<T>(s: seq<T>, end: int): (r: seq<T>)
    ensures r <= s
    ensures 0 <= end ==> |r| == if end < |s| then end else |s|
    ensures end < 0 ==> |r| == if |s| + end < 0 then 0 else |s| + end
  {
    if end < 0 then (if |s| + end < 0 then [] else s[..|s| + end])
    else if end < |s| then s[..end] else s
  }

  /** Text order under SQLite's BINARY collation: code points compared left to right,
      a proper prefix first. */
  predicate TextLe(a: string, b: string)
  {
    a == [] || (b != [] && (a[0] < b[0] || (a[0] == b[0] && TextLe(a[1..], b[1..]))))
  }

  lemma {:induction false} TextLeTotal(a: string, b: string)
    ensures TextLe(a, b) || TextLe(b, a)
  {
    if a != [] && b != [] && a[0] == b[0] {
      TextLeTotal(a[1..], b[1..]);
    }
  }

  lemma {:induction false} TextLeTransitive(a: string, b: string, c: string)
    requires TextLe(a, b) && TextLe(b, c)
    ensures TextLe(a, c)
  {
    if a != [] && b != [] && c != [] && a[0] == b[0] && b[0] == c[0] {
      TextLeTransitive(a[1..], b[1..], c[1..]);
    }
  }

  /** Ordering records by a text field is a total preorder. */
  lemma TextKeyTotalPreorder<T(!new)>(key: T -> string, le: (T, T) -> bool)
    requires forall a, b :: le(a, b) == TextLe(key(a), key(b))
    ensures TotalPreorder(le)
  {
    forall a, b ensures le(a, b) || le(b, a) { TextLeTotal(key(a), key(b)); }
    forall a, b, c | le(a, b) && le(b, c) ensures le(a, c) {
      TextLeTransitive(key(a), key(b), key(c));
    }
  }
}
