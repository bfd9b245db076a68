/**
 * The collection view engine shared by the list screens: filtering a loaded
 * collection with `Array.prototype.filter`, the sort toggle, the comparator the
 * screens pass to `Array.prototype.sort`, and the stable sort itself (ECMA-262
 * requires `sort` to be stable since the 2019 edition, section 22.1.3.27).
 */
module Views {
  import opened Wrappers

  // ---------------------------------------------------------------- filter

  /** `s.filter(p)`: the elements satisfying `p`, in their original order. */
  function Keep<T>(s: seq<T>, p: T -> bool): seq<T>
  {
    if |s| == 0 then [] else Keep(s[..|s| - 1], p) + (if p(s[|s| - 1]) then [s[|s| - 1]] else [])
  }

  /** An element is kept exactly when it is in the input and satisfies the predicate;
      the kept elements are a sub-multiset of the input. */
  lemma {:induction false} KeepMembers<T>(s: seq<T>, p: T -> bool)
    ensures forall x :: x in Keep(s, p) <==> x in s && p(x)
    ensures multiset(Keep(s, p)) <= multiset(s)
    ensures |Keep(s, p)| <= |s|
  {
    if |s| > 0 {
      KeepMembers(s[..|s| - 1], p);
      assert s == s[..|s| - 1] + [s[|s| - 1]];
    }
  }

  /** Filtering keeps every copy of an element that passes and drops every copy of
      one that does not. */
  lemma {:induction false} KeepMultiset<T>(s: seq<T>, p: T -> bool)
    ensures forall x :: multiset(Keep(s, p))[x] == if p(x) then multiset(s)[x] else 0
  {
    if |s| > 0 {
      KeepMultiset(s[..|s| - 1], p);
      assert s == s[..|s| - 1] + [s[|s| - 1]];
    }
  }

  /** Filtering distributes over concatenation: the kept elements keep their relative order. */
  lemma {:induction false} KeepConcat<T>(a: seq<T>, b: seq<T>, p: T -> bool)
    ensures Keep(a + b, p) == Keep(a, p) + Keep(b, p)
    decreases |b|
  {
    if |b| == 0 {
      assert a + b == a;
    } else {
      var b' := b[..|b| - 1];
      KeepConcat(a, b', p);
      assert (a + b)[..|a + b| - 1] == a + b';
    }
  }

  /** When every element passes, filtering returns the collection unchanged. */
  lemma {:induction false} KeepAll<T>(s: seq<T>, p: T -> bool)
    requires forall x :: x in s ==> p(x)
    ensures Keep(s, p) == s
  {
    if |s| > 0 {
      KeepAll(s[..|s| - 1], p);
      assert s == s[..|s| - 1] + [s[|s| - 1]];
    }
  }

  /** Filtering twice with the same predicate is filtering once. */
  lemma {:induction false} KeepIdempotent<T>(s: seq<T>, p: T -> bool)
    ensures Keep(Keep(s, p), p) == Keep(s, p)
  {
    if |s| > 0 {
      var init := s[..|s| - 1];
      KeepIdempotent(init, p);
      if p(s[|s| - 1]) {
        KeepConcat(Keep(init, p), [s[|s| - 1]], p);
        assert Keep([s[|s| - 1]], p) == [s[|s| - 1]];
      } else {
        assert Keep(s, p) == Keep(init, p);
      }
    }
  }

  /** Two predicates that agree on every element filter alike. */
  lemma {:induction false} KeepAgree<T>(s: seq<T>, p: T -> bool, q: T -> bool)
    requires forall x :: x in s ==> p(x) == q(x)
    ensures Keep(s, p) == Keep(s, q)
  {
    if |s| > 0 {
      KeepAgree(s[..|s| - 1], p, q);
      assert s[|s| - 1] in s;
    }
  }

  /** `arr.filter(p).length`. */
  function Count<T>(s: seq<T>, p: T -> bool): nat {
    |Keep(s, p)|
  }

  /** Elements of two predicates that no element satisfies together are counted at
      most once between them. */
  lemma {:induction false} CountDisjoint<T>(s: seq<T>, p: T -> bool, q: T -> bool)
    requires forall x :: x in s ==> !(p(x) && q(x))
    ensures Count(s, p) + Count(s, q) <= |s|
  {
    if |s| > 0 {
      var init := s[..|s| - 1];
      assert forall x :: x in init ==> x in s;
      CountDisjoint(init, p, q);
      assert s[|s| - 1] in s;
    }
  }

  // ---------------------------------------------------------------- reduce

  /** `s.reduce((sum, x) => sum + w(x), 0)`. */
  function SumOf<T>(s: seq<T>, w: T -> int): int {
    if |s| == 0 then 0 else SumOf(s[..|s| - 1], w) + w(s[|s| - 1])
  }

  lemma {:induction false} SumOfConcat<T>(a: seq<T>, b: seq<T>, w: T -> int)
    ensures SumOf(a + b, w) == SumOf(a, w) + SumOf(b, w)
    decreases |b|
  {
    if |b| == 0 {
      assert a + b == a;
    } else {
      SumOfConcat(a, b[..|b| - 1], w);
      assert (a + b)[..|a + b| - 1] == a + b[..|b| - 1];
    }
  }

  /** A sum does not depend on the order of its terms. */
  lemma {:induction false} SumOfPermutation<T>(a: seq<T>, b: seq<T>, w: T -> int)
    requires multiset(a) == multiset(b)
    ensures SumOf(a, w) == SumOf(b, w)
    decreases |a|
  {
    if |a| > 0 {
      var init, x := a[..|a| - 1], a[|a| - 1];
      DropLast(a);
      assert x in multiset(b);
      var k :| 0 <= k < |b| && b[k] == x;
      RemoveAt(b, k);
      SumOfPermutation(init, b[..k] + b[k + 1..], w);
      SumOfRemove(b, k, w);
    } else {
      assert |b| == |multiset(b)| == 0;
    }
  }

  /** Removing the element at `k` removes one occurrence of it from the multiset. */
  lemma RemoveAt<T>(b: seq<T>, k: nat)
    requires k < |b|
    ensures multiset(b[..k] + b[k + 1..]) == multiset(b) - multiset{b[k]}
  {
    Around(b, k);
  }

  /** Dropping the last element removes one occurrence of it from the multiset. */
  lemma DropLast<T>(a: seq<T>)
    requires |a| > 0
    ensures multiset(a[..|a| - 1]) == multiset(a) - multiset{a[|a| - 1]}
  {
    assert a == a[..|a| - 1] + [a[|a| - 1]];
  }

  /** A sequence split around its element at `k`. */
  lemma Around<T>(b: seq<T>, k: nat)
    requires k < |b|
    ensures b == b[..k] + [b[k]] + b[k + 1..]
  {
  }

  /** Removing the element at `k` removes its weight from the sum. */
  lemma SumOfRemove<T>(b: seq<T>, k: nat, w: T -> int)
    requires k < |b|
    ensures SumOf(b, w) == SumOf(b[..k] + b[k + 1..], w) + w(b[k])
  {
    var b1, b2 := b[..k], b[k + 1..];
    calc {
      SumOf(b, w);
      { Around(b, k); }
      SumOf((b1 + [b[k]]) + b2, w);
      { SumOfConcat(b1 + [b[k]], b2, w); }
      SumOf(b1 + [b[k]], w) + SumOf(b2, w);
      { SumOfConcat(b1, [b[k]], w); SumOfSingle(b[k], w); }
      SumOf(b1, w) + w(b[k]) + SumOf(b2, w);
      { SumOfConcat(b1, b2, w); }
      SumOf(b1 + b2, w) + w(b[k]);
    }
  }

  lemma SumOfSingle<T>(x: T, w: T -> int)
    ensures SumOf([x], w) == w(x)
  {
    assert [x][..0] == [];
  }

  /** Summing the kept elements is summing every element with the others weighted 0. */
  lemma {:induction false} SumOfKeep<T>(s: seq<T>, p: T -> bool, w: T -> int, v: T -> int)
    requires forall x :: v(x) == if p(x) then w(x) else 0
    ensures SumOf(Keep(s, p), w) == SumOf(s, v)
    decreases |s|
  {
    if |s| > 0 {
      var init, x := s[..|s| - 1], s[|s| - 1];
      SumOfKeep(init, p, w, v);
      SumOfConcat(Keep(init, p), if p(x) then [x] else [], w);
      assert SumOf([x], w) == w(x) by {
        assert [x][..0] == [];
      }
      assert SumOf([], w) == 0;
    }
  }

  // ---------------------------------------------------------------- find

  /** The index `Array.prototype.find` stops at: the first element satisfying `p`. */
  function FindIndex<T>(s: seq<T>, p: T -> bool): (r: Option<nat>)
    ensures r.Some? ==> r.value < |s| && p(s[r.value])
    ensures r.Some? ==> forall j :: 0 <= j < r.value ==> !p(s[j])
    ensures r.None? <==> forall j :: 0 <= j < |s| ==> !p(s[j])
  {
    if |s| == 0 then None
    else if p(s[0]) then Some(0)
    else match FindIndex(s[1..], p)
      case None => None
      case Some(i) => Some(i + 1)
  }

  /** The label of the first element satisfying `p`, as `find(...)` followed by
      `x ? name(x) : 'Unknown'`; 'Unknown' when no element satisfies `p`. */
  function LabelOf<T>(s: seq<T>, p: T -> bool, name: T -> string): (r: string)
    ensures (forall i :: 0 <= i < |s| ==> !p(s[i])) ==> r == "Unknown"
    ensures (exists i :: 0 <= i < |s| && p(s[i])) ==>
      exists i :: 0 <= i < |s| && p(s[i]) && (forall j :: 0 <= j < i ==> !p(s[j])) && r == name(s[i])
  {
    match FindIndex(s, p)
    case None => "Unknown"
    case Some(i) => name(s[i])
  }

  /** The first element satisfying `p` is the one `FindIndex` stops at. */
  lemma {:induction false} FindIndexFirst<T>(s: seq<T>, p: T -> bool, k: nat)
    requires k < |s| && p(s[k])
    requires forall j :: 0 <= j < k ==> !p(s[j])
    ensures FindIndex(s, p) == Some(k)
  {
    if k > 0 {
      assert !p(s[0]);
      forall j | 0 <= j < k - 1
        ensures !p(s[1..][j])
      {
        assert s[1..][j] == s[j + 1];
      }
      FindIndexFirst(s[1..], p, k - 1);
    }
  }

  // ---------------------------------------------------------------- sort keys

  /** A field value as the comparator sees it: a number or a string. */
  datatype Key = Num(n: int) | Str(s: string)

  datatype Direction = Asc | Desc

  /** `sortConfig`: the field to sort by (`null` when none) and the direction. */
  datatype SortConfig<K> = SortConfig(key: Option<K>, direction: Direction)

  /** `handleSort(k)`: a repeated click on the ascending key flips to descending;
      any other click selects `k` ascending. */
  function NextSort<K(==)>(prev: SortConfig<K>, k: K): (next: SortConfig<K>)
    ensures next.key == Some(k)
    ensures next.direction == Desc <==> prev.key == Some(k) && prev.direction == Asc
  {
    SortConfig(Some(k), if prev.key == Some(k) && prev.direction == Asc then Desc else Asc)
  }

  /** Three clicks on one key end where the first click did: asc, desc, asc. */
  lemma NextSortCycle<K>(prev: SortConfig<K>, k: K)
    ensures NextSort(NextSort(prev, k), k).direction != NextSort(prev, k).direction
    ensures NextSort(NextSort(NextSort(prev, k), k), k) == NextSort(prev, k)
  {
  }

  /** Lexicographic order on strings by character code, as JavaScript's `<` on strings. */
  predicate StrLess(a: string, b: string)
    decreases |a|
  {
    if |a| == 0 then |b| > 0
    else if |b| == 0 then false
    else if a[0] != b[0] then a[0] < b[0]
    else StrLess(a[1..], b[1..])
  }

  /** JavaScript's `a < b` on two values of one field. Every record of an entity has
      the same type in a given field, so numbers are never compared with strings;
      the model puts numbers first there only to keep the order total. */
  predicate KeyLess(a: Key, b: Key) {
    match (a, b)
    case (Num(x), Num(y)) => x < y
    case (Str(x), Str(y)) => StrLess(x, y)
    case (Num(_), Str(_)) => true
    case (Str(_), Num(_)) => false
  }

  lemma {:induction false} StrLessIrreflexive(a: string)
    ensures !StrLess(a, a)
    decreases |a|
  {
    if |a| > 0 {
      StrLessIrreflexive(a[1..]);
    }
  }

  lemma {:induction false} StrLessTransitive(a: string, b: string, c: string)
    requires StrLess(a, b) && StrLess(b, c)
    ensures StrLess(a, c)
    decreases |a|
  {
    if |a| > 0 && |b| > 0 && |c| > 0 && a[0] == b[0] && b[0] == c[0] {
      StrLessTransitive(a[1..], b[1..], c[1..]);
    }
  }

  lemma {:induction false} StrLessTotal(a: string, b: string)
    ensures a == b || StrLess(a, b) || StrLess(b, a)
    decreases |a|
  {
    if |a| > 0 && |b| > 0 && a[0] == b[0] {
      StrLessTotal(a[1..], b[1..]);
      if a[1..] == b[1..] {
        assert a == [a[0]] + a[1..] && b == [b[0]] + b[1..];
      }
    }
  }

  /** JavaScript's `<` on the keys of one field is a strict total order. */
  lemma KeyLessOrder(a: Key, b: Key, c: Key)
    ensures !KeyLess(a, a)
    ensures KeyLess(a, b) && KeyLess(b, c) ==> KeyLess(a, c)
    ensures a == b || KeyLess(a, b) || KeyLess(b, a)
  {
    if a.Str? {
      StrLessIrreflexive(a.s);
      if b.Str? {
        StrLessTotal(a.s, b.s);
        if c.Str? && KeyLess(a, b) && KeyLess(b, c) {
          StrLessTransitive(a.s, b.s, c.s);
        }
      }
    }
  }

  /** The comparator the screens pass to `sort`: -1, 1 or 0 by `<` and `>` on the key,
      with the signs swapped for a descending sort. */
  function Compare(dir: Direction, a: Key, b: Key): int {
    if KeyLess(a, b) then (if dir == Asc then -1 else 1)
    else if KeyLess(b, a) then (if dir == Asc then 1 else -1)
    else 0
  }

  /** The comparator is antisymmetric, it answers 0 only on equal keys, and the
      descending comparator is the ascending one negated: descending inverts strict
      comparisons and leaves ties as ties. */
  lemma CompareProperties(dir: Direction, a: Key, b: Key)
    ensures Compare(dir, a, b) == -Compare(dir, b, a)
    ensures Compare(dir, a, b) == 0 <==> a == b
    ensures Compare(Desc, a, b) == -Compare(Asc, a, b)
  {
    KeyLessOrder(a, b, a);
    KeyLessOrder(b, a, b);
  }

  /** `sort` places `a` after `b` when the comparator is positive. */
  predicate After(dir: Direction, a: Key, b: Key) {
    Compare(dir, a, b) > 0
  }

  lemma AfterOrder(dir: Direction, a: Key, b: Key, c: Key)
    ensures !After(dir, a, a)
    ensures After(dir, a, b) ==> !After(dir, b, a) && a != b
    ensures !After(dir, a, b) && !After(dir, b, c) ==> !After(dir, a, c)
  {
    KeyLessOrder(a, b, a);
    KeyLessOrder(b, a, b);
    KeyLessOrder(a, b, c);
    KeyLessOrder(c, b, a);
    KeyLessOrder(a, c, b);
    KeyLessOrder(b, a, c);
    KeyLessOrder(b, c, a);
    KeyLessOrder(c, a, b);
  }

  // ---------------------------------------------------------------- stable sort

  /** The comparator as a relation: `Behind(key, dir)(a, b)` when `sort` places `a` after `b`. */
  function Behind<T>(key: T -> Key, dir: Direction): (T, T) -> bool {
    (a, b) => After(dir, key(a), key(b))
  }

  /** Insert `x` into `s` after every element that is not behind it. */
  function Insert<T>(s: seq<T>, x: T, behind: (T, T) -> bool): (r: seq<T>)
    ensures |r| == |s| + 1
    decreases |s|
  {
    if |s| == 0 then [x]
    else if behind(s[|s| - 1], x) then
      assert s == s[..|s| - 1] + [s[|s| - 1]];
      Insert(s[..|s| - 1], x, behind) + [s[|s| - 1]]
    else s + [x]
  }

  /** Insertion sort by the relation `behind`, inserting each element after its equals. */
  function Sort<T>(s: seq<T>, behind: (T, T) -> bool): (r: seq<T>)
    ensures |r| == |s|
    decreases |s|
  {
    if |s| == 0 then []
    else
      assert s == s[..|s| - 1] + [s[|s| - 1]];
      Insert(Sort(s[..|s| - 1], behind), s[|s| - 1], behind)
  }

  /** Inserting adds exactly `x` to the elements. */
  lemma {:induction false} InsertPermutes<T>(s: seq<T>, x: T, behind: (T, T) -> bool)
    ensures multiset(Insert(s, x, behind)) == multiset(s) + multiset{x}
    decreases |s|
  {
    if |s| > 0 && behind(s[|s| - 1], x) {
      InsertPermutes(s[..|s| - 1], x, behind);
      assert s == s[..|s| - 1] + [s[|s| - 1]];
    }
  }

  /** Sorting rearranges the elements and neither adds nor drops any. */
  lemma {:induction false} SortPermutes<T>(s: seq<T>, behind: (T, T) -> bool)
    ensures multiset(Sort(s, behind)) == multiset(s)
    decreases |s|
  {
    if |s| > 0 {
      var init, last := s[..|s| - 1], s[|s| - 1];
      assert s == init + [last];
      assert multiset(s) == multiset(init) + multiset{last};
      SortPermutes(init, behind);
      InsertPermutes(Sort(init, behind), last, behind);
    }
  }

  /** The result of a stable sort of `s` by `key` in direction `dir`; a permutation of `s`. */
  function SortBy<T>(s: seq<T>, key: T -> Key, dir: Direction): (r: seq<T>)
    ensures multiset(r) == multiset(s)
  {
    SortPermutes(s, Behind(key, dir));
    Sort(s, Behind(key, dir))
  }

  /** In comparator order: no element is placed after a later one. */
  predicate Ordered<T>(s: seq<T>, key: T -> Key, dir: Direction) {
    forall i, j :: 0 <= i < j < |s| ==> !After(dir, key(s[i]), key(s[j]))
  }

  lemma {:induction false} InsertOrdered<T>(s: seq<T>, x: T, key: T -> Key, dir: Direction)
    requires Ordered(s, key, dir)
    ensures Ordered(Insert(s, x, Behind(key, dir)), key, dir)
    decreases |s|
  {
    if |s| > 0 {
      var s', l := s[..|s| - 1], s[|s| - 1];
      var r := Insert(s, x, Behind(key, dir));
      if After(dir, key(l), key(x)) {
        var r' := Insert(s', x, Behind(key, dir));
        InsertOrdered(s', x, key, dir);
        assert r == r' + [l];
        InsertPermutes(s', x, Behind(key, dir));
        forall i | 0 <= i < |r'|
          ensures !After(dir, key(r'[i]), key(l))
        {
          assert r'[i] in multiset(r');
          if r'[i] == x {
            AfterOrder(dir, key(l), key(x), key(x));
          } else {
            assert r'[i] in multiset(s');
            var k :| 0 <= k < |s'| && s'[k] == r'[i];
            assert s[k] == s'[k];
          }
        }
      } else {
        assert r == s + [x];
        forall i | 0 <= i < |s|
          ensures !After(dir, key(s[i]), key(x))
        {
          AfterOrder(dir, key(s[i]), key(l), key(x));
        }
      }
    }
  }

  /** The sorted view is in comparator order. */
  lemma {:induction false} SortByOrdered<T>(s: seq<T>, key: T -> Key, dir: Direction)
    ensures Ordered(SortBy(s, key, dir), key, dir)
    decreases |s|
  {
    if |s| > 0 {
      SortByOrdered(s[..|s| - 1], key, dir);
      InsertOrdered(SortBy(s[..|s| - 1], key, dir), s[|s| - 1], key, dir);
    }
  }

  /** Selects the elements whose key is `k`. */
  function HasKey<T>(key: T -> Key, k: Key): T -> bool {
    x => key(x) == k
  }

  lemma {:induction false} InsertKeepsTies<T>(s: seq<T>, x: T, key: T -> Key, dir: Direction, k: Key)
    ensures Keep(Insert(s, x, Behind(key, dir)), HasKey(key, k))
         == Keep(s, HasKey(key, k)) + (if key(x) == k then [x] else [])
    decreases |s|
  {
    var r := Insert(s, x, Behind(key, dir));
    if |s| == 0 {
      assert r == [x];
      assert r[..0] == [];
    } else {
      var s', l := s[..|s| - 1], s[|s| - 1];
      if After(dir, key(l), key(x)) {
        var r' := Insert(s', x, Behind(key, dir));
        InsertKeepsTies(s', x, key, dir, k);
        AfterOrder(dir, key(l), key(x), key(x));
        assert r[..|r| - 1] == r' && r[|r| - 1] == l;
      } else {
        assert r == s + [x];
        assert r[..|r| - 1] == s;
      }
    }
  }

  /** Stability: for every key value, the elements with that key appear in the
      sorted view in the same relative order as in the input. */
  lemma {:induction false} SortByStable<T>(s: seq<T>, key: T -> Key, dir: Direction, k: Key)
    ensures Keep(SortBy(s, key, dir), HasKey(key, k)) == Keep(s, HasKey(key, k))
    decreases |s|
  {
    if |s| > 0 {
      SortByStable(s[..|s| - 1], key, dir, k);
      InsertKeepsTies(SortBy(s[..|s| - 1], key, dir), s[|s| - 1], key, dir, k);
    }
  }

  /** Sorting a collection already in comparator order leaves it as it is. */
  lemma {:induction false} SortByOrderedInput<T>(s: seq<T>, key: T -> Key, dir: Direction)
    requires Ordered(s, key, dir)
    ensures SortBy(s, key, dir) == s
    decreases |s|
  {
    if |s| > 0 {
      var s' := s[..|s| - 1];
      assert Ordered(s', key, dir);
      SortByOrderedInput(s', key, dir);
      if |s'| > 0 {
        assert s'[|s'| - 1] == s[|s| - 2];
      }
    }
  }

  /** Sorting twice by the same key and direction is sorting once. */
  lemma SortByIdempotent<T>(s: seq<T>, key: T -> Key, dir: Direction)
    ensures SortBy(SortBy(s, key, dir), key, dir) == SortBy(s, key, dir)
  {
    SortByOrdered(s, key, dir);
    SortByOrderedInput(SortBy(s, key, dir), key, dir);
  }

  /** Sorting ascending and then descending by one key (two clicks on a column)
      leaves the elements of each key value in their input order. */
  lemma AscThenDescKeepsTies<T>(s: seq<T>, key: T -> Key, k: Key)
    ensures Keep(SortBy(SortBy(s, key, Asc), key, Desc), HasKey(key, k)) == Keep(s, HasKey(key, k))
  {
    SortByStable(s, key, Asc, k);
    SortByStable(SortBy(s, key, Asc), key, Desc, k);
  }

  // ---------------------------------------------------------------- in-place sort

  lemma {:induction false} InsertSplit<T>(s: seq<T>, x: T, behind: (T, T) -> bool, j: nat)
    requires j <= |s|
    requires forall m :: j <= m < |s| ==> behind(s[m], x)
    ensures Insert(s, x, behind) == Insert(s[..j], x, behind) + s[j..]
    decreases |s| - j
  {
    if j < |s| {
      InsertSplit(s[..|s| - 1], x, behind, j);
      assert s[..|s| - 1][..j] == s[..j];
      assert s[..|s| - 1][j..] + [s[|s| - 1]] == s[j..];
    } else {
      assert s[..j] == s;
    }
  }

  /** Inserting into a prefix whose last element is not behind `x` appends `x`. */
  lemma InsertAtEnd<T>(s: seq<T>, x: T, behind: (T, T) -> bool, j: nat)
    requires j <= |s|
    requires j == 0 || !behind(s[j - 1], x)
    ensures Insert(s[..j], x, behind) == s[..j] + [x]
  {
    if j > 0 {
      assert s[..j][j - 1] == s[j - 1];
    }
  }

  /** Where the insertion stops: after the last element that is not behind `x`. */
  lemma InsertAtGap<T>(s: seq<T>, x: T, behind: (T, T) -> bool, j: nat)
    requires j <= |s|
    requires forall m :: j <= m < |s| ==> behind(s[m], x)
    requires j == 0 || !behind(s[j - 1], x)
    ensures Insert(s, x, behind) == s[..j] + [x] + s[j..]
  {
    InsertAtEnd(s, x, behind, j);
    InsertSplit(s, x, behind, j);
  }

  /** Two sequences that agree below `j` have the same prefix of length `j`. */
  lemma PrefixAgrees<T>(b: seq<T>, sorted: seq<T>, j: nat)
    requires j <= |sorted| && j <= |b|
    requires forall m :: 0 <= m < j ==> b[m] == sorted[m]
    ensures b[..j] == sorted[..j]
  {
  }

  /** The elements shifted one place right, read back from one place further on. */
  lemma ShiftedAgrees<T>(b: seq<T>, sorted: seq<T>, j: nat)
    requires j <= |sorted| < |b|
    requires forall m :: j < m <= |sorted| ==> b[m] == sorted[m - 1]
    ensures b[j + 1..|sorted| + 1] == sorted[j..]
  {
    forall m | 0 <= m < |sorted| - j
      ensures b[j + 1..|sorted| + 1][m] == sorted[j..][m]
    {
      assert b[j + 1 + m] == sorted[j + m];
    }
  }

  /** A prefix split around one of its elements. */
  lemma SplitAround<T>(b: seq<T>, j: nat, n: nat)
    requires j < n <= |b|
    ensures b[..n] == b[..j] + [b[j]] + b[j + 1..n]
  {
  }

  /** After the shifting loop the array holds the prefix up to the gap, `x`, and the
      shifted elements: exactly the insertion of `x` into the sorted prefix. */
  lemma GapFilled<T>(b: seq<T>, sorted: seq<T>, x: T, behind: (T, T) -> bool, j: nat)
    requires j <= |sorted| < |b|
    requires forall m :: 0 <= m < j ==> b[m] == sorted[m]
    requires b[j] == x
    requires forall m :: j < m <= |sorted| ==> b[m] == sorted[m - 1]
    requires forall m :: j <= m < |sorted| ==> behind(sorted[m], x)
    requires j == 0 || !behind(sorted[j - 1], x)
    ensures b[..|sorted| + 1] == Insert(sorted, x, behind)
  {
    PrefixAgrees(b, sorted, j);
    ShiftedAgrees(b, sorted, j);
    SplitAround(b, j, |sorted| + 1);
    InsertAtGap(sorted, x, behind, j);
  }

  /** The shifting loop of one insertion step: moves the elements of the sorted
      prefix `a[..i]` that are behind `x` one place right and returns the gap. */
  method ShiftRight<T>(a: array<T>, i: nat, x: T, behind: (T, T) -> bool) returns (j: nat)
    requires i < a.Length
    modifies a
    ensures j <= i
    ensures forall m :: 0 <= m < j ==> a[m] == old(a[m])
    ensures forall m :: j < m <= i ==> a[m] == old(a[m - 1])
    ensures forall m :: i < m < a.Length ==> a[m] == old(a[m])
    ensures forall m :: j <= m < i ==> behind(old(a[m]), x)
    ensures j == 0 || !behind(old(a[j - 1]), x)
  {
    j := i;
    while j > 0 && behind(a[j - 1], x)
      invariant j <= i
      invariant forall m :: 0 <= m < j ==> a[m] == old(a[m])
      invariant forall m :: j < m <= i ==> a[m] == old(a[m - 1])
      invariant forall m :: i < m < a.Length ==> a[m] == old(a[m])
      invariant forall m :: j <= m < i ==> behind(old(a[m]), x)
    {
      a[j] := a[j - 1];
      j := j - 1;
    }
  }

  /** One step of the insertion sort: drop `a[i]` into the gap `ShiftRight` leaves. */
  method InsertInPlace<T>(a: array<T>, i: nat, behind: (T, T) -> bool)
    requires i < a.Length
    modifies a
    ensures a[..i + 1] == Insert(old(a[..i]), old(a[i]), behind)
    ensures a[i + 1..] == old(a[i + 1..])
  {
    ghost var sorted := a[..i];
    var x := a[i];
    var j := ShiftRight(a, i, x, behind);
    a[j] := x;
    GapFilled(a[..], sorted, x, behind, j);
    assert a[..][..i + 1] == a[..i + 1];
  }

  /** Two sequences that agree from `i` on agree at `i` and from `i + 1` on. */
  lemma SuffixStep<T>(b: seq<T>, input: seq<T>, i: nat)
    requires i < |b| == |input| && b[i..] == input[i..]
    ensures b[i] == input[i] && b[i + 1..] == input[i + 1..]
  {
    assert b[i] == b[i..][0] && input[i] == input[i..][0];
    assert b[i + 1..] == b[i..][1..] && input[i + 1..] == input[i..][1..];
  }

  /**
   * `arr.sort(comparator)`, in place. The algorithm inside the JavaScript engine is
   * not part of this model; a stable insertion sort stands for it. The comparator is
   * a strict weak order, so equal keys tie, and a sort that is also stable has a
   * single possible result: it ends in the same state as the engine's.
   */
  method SortInPlace<T>(a: array<T>, behind: (T, T) -> bool)
    modifies a
    ensures a[..] == Sort(old(a[..]), behind)
  {
    ghost var input := a[..];
    var i := 0;
    while i < a.Length
      invariant 0 <= i <= a.Length
      invariant a[..i] == Sort(input[..i], behind)
      invariant a[i..] == input[i..]
    {
      ghost var before := a[..];
      InsertInPlace(a, i, behind);
      assert before[..i] == Sort(input[..i], behind);
      SuffixStep(before, input, i);
      assert input[..i + 1][..i] == input[..i];
      i := i + 1;
    }
    assert a[..] == a[..a.Length] && input == input[..a.Length];
  }

  // ---------------------------------------------------------------- the view

  /** The recomputed view: the filtered collection, stably sorted when a sort key is set. */
  function View<T>(s: seq<T>, p: T -> bool, key: Option<T -> Key>, dir: Direction): seq<T> {
    if key.Some? then SortBy(Keep(s, p), key.value, dir) else Keep(s, p)
  }

  /** What every screen's view promises: a permutation of the filtered collection;
      with no sort key exactly the filtered collection in input order; with a sort
      key in comparator order, with ties in filtered order. */
  lemma ViewProperties<T>(s: seq<T>, p: T -> bool, key: Option<T -> Key>, dir: Direction)
    ensures multiset(View(s, p, key, dir)) == multiset(Keep(s, p))
    ensures forall x :: x in View(s, p, key, dir) <==> x in s && p(x)
    ensures key.None? ==> View(s, p, key, dir) == Keep(s, p)
    ensures key.Some? ==> Ordered(View(s, p, key, dir), key.value, dir)
    ensures key.Some? ==> forall k :: Keep(View(s, p, key, dir), HasKey(key.value, k)) == Keep(Keep(s, p), HasKey(key.value, k))
  {
    KeepMembers(s, p);
    var v := View(s, p, key, dir);
    forall x ensures x in v <==> x in Keep(s, p) {
      assert x in v <==> x in multiset(v);
      assert x in Keep(s, p) <==> x in multiset(Keep(s, p));
    }
    if key.Some? {
      SortByOrdered(Keep(s, p), key.value, dir);
      forall k ensures Keep(v, HasKey(key.value, k)) == Keep(Keep(s, p), HasKey(key.value, k)) {
        SortByStable(Keep(s, p), key.value, dir, k);
      }
    }
  }

  /** `filterAndSort…`: filter into a fresh array, sort it in place when a key is set. */
  method Recompute<T>(s: seq<T>, p: T -> bool, key: Option<T -> Key>, dir: Direction) returns (view: seq<T>)
    ensures view == View(s, p, key, dir)
  {
    var filtered := Keep(s, p);
    if key.Some? {
      var a := new T[|filtered|](i requires 0 <= i < |filtered| => filtered[i]);
      assert a[..] == filtered;
      SortInPlace(a, Behind(key.value, dir));
      filtered := a[..];
    }
    view := filtered;
  }
}
