/** Map keys in lexicographic order (`getSortedKeys`). */
module SortedKeys {
  import opened Types

  predicate LexLe(a: string, b: string) {
    a == [] || (b != [] && (a[0] < b[0] || (a[0] == b[0] && LexLe(a[1..], b[1..]))))
  }

  lemma {:induction false} LexTotal(a: string, b: string)
    ensures LexLe(a, b) || LexLe(b, a)
    ensures LexLe(a, b) && LexLe(b, a) ==> a == b
  {
    if a != [] && b != [] && a[0] == b[0] {
      LexTotal(a[1..], b[1..]);
      assert a == [a[0]] + a[1..] && b == [b[0]] + b[1..];
    }
  }

  lemma {:induction false} LexTransitive(a: string, b: string, c: string)
    requires LexLe(a, b) && LexLe(b, c)
    ensures LexLe(a, c)
  {
    if a != [] && a[0] == b[0] == c[0] { LexTransitive(a[1..], b[1..], c[1..]); }
  }

  /** `a` is a prefix of `b`, or has the smaller character where they first differ. */
  lemma {:induction false} LexLeExactly(a: string, b: string)
    ensures LexLe(a, b) <==> a <= b || exists i :: FirstSmaller(a, b, i)
  {
    if a != [] && b != [] && a[0] == b[0] {
      LexLeExactly(a[1..], b[1..]);
      assert a == [a[0]] + a[1..] && b == [b[0]] + b[1..];
      if i :| FirstSmaller(a, b, i) { assert FirstSmaller(a[1..], b[1..], i - 1); }
      if i :| FirstSmaller(a[1..], b[1..], i) { assert FirstSmaller(a, b, i + 1); }
    } else if a != [] && b != [] && a[0] < b[0] {
      assert FirstSmaller(a, b, 0);
    }
  }

  predicate FirstSmaller(a: string, b: string, i: int) {
    0 <= i < |a| && i < |b| && a[i] < b[i] && forall j | 0 <= j < i :: a[j] == b[j]
  }

  predicate Ascending(keys: seq<string>) {
    forall i, j | 0 <= i < j < |keys| :: LexLe(keys[i], keys[j])
  }

  /** The one ascending enumeration of `s`. */
  ghost predicate SortedEnumeration(keys: seq<string>, s: set<string>) {
    Ascending(keys) && Enumerates(keys, s)
  }

  /** A set has only one ascending enumeration, so the order a map is walked in is lost. */
  lemma {:induction false} SortedEnumerationUnique(a: seq<string>, b: seq<string>, s: set<string>)
    requires SortedEnumeration(a, s) && SortedEnumeration(b, s)
    ensures a == b
  {
    EmptyEnumeration(a, s);
    EmptyEnumeration(b, s);
    if s != {} {
      assert a[0] in b && b[0] in a;
      LexReflexive(a[0]);
      LexReflexive(b[0]);
      LexTotal(a[0], b[0]);
      TailEnumerates(a, s);
      TailEnumerates(b, s);
      SortedEnumerationUnique(a[1..], b[1..], s - {a[0]});
      assert a == [a[0]] + a[1..] && b == [b[0]] + b[1..];
    }
  }

  lemma LexReflexive(a: string)
    ensures LexLe(a, a)
  {
    LexTotal(a, a);
  }

  lemma TailEnumerates(a: seq<string>, s: set<string>)
    requires SortedEnumeration(a, s) && a != []
    ensures SortedEnumeration(a[1..], s - {a[0]})
  {
    assert a == [a[0]] + a[1..];
    forall x | x in a[1..] ensures x in s && x != a[0] {
      var i :| 0 <= i < |a[1..]| && a[1..][i] == x;
      assert a[i + 1] == x && a[0] != a[i + 1];
    }
  }

  /** `sort.Strings`, as insertion. */
  function Insert(k: string, keys: seq<string>): seq<string> {
    if keys == [] || LexLe(k, keys[0]) then [k] + keys else [keys[0]] + Insert(k, keys[1..])
  }

  lemma {:induction false} InsertSorts(k: string, keys: seq<string>, s: set<string>)
    requires SortedEnumeration(keys, s) && k !in s
    ensures SortedEnumeration(Insert(k, keys), s + {k})
  {
    if keys == [] {
    } else if LexLe(k, keys[0]) {
      forall i | 0 <= i < |keys| ensures LexLe(k, keys[i]) {
        if i > 0 { LexTransitive(k, keys[0], keys[i]); }
      }
    } else {
      TailEnumerates(keys, s);
      var rest := Insert(k, keys[1..]);
      InsertSorts(k, keys[1..], s - {keys[0]});
      LexTotal(k, keys[0]);
      assert keys[0] in s && keys[0] != k;
      forall x | x in rest ensures LexLe(keys[0], x) && x != keys[0] {
        if x != k {
          assert x in keys[1..];
          var i :| 0 <= i < |keys[1..]| && keys[1..][i] == x;
          assert keys[i + 1] == x;
        }
      }
      assert Insert(k, keys) == [keys[0]] + rest;
      assert forall i | 0 <= i < |rest| :: rest[i] in rest;
    }
  }

  /** The keys of a map, in ascending order, whatever order the map is walked in. */
  method GetSortedKeys<V>(m: map<string, V>) returns (keys: seq<string>)
    ensures SortedEnumeration(keys, m.Keys)
  {
    keys := [];
    var rest := m.Keys;
    while rest != {}
      invariant rest <= m.Keys
      invariant SortedEnumeration(keys, m.Keys - rest)
      decreases rest
    {
      var k :| k in rest;
      InsertSorts(k, keys, m.Keys - rest);
      keys := Insert(k, keys);
      assert m.Keys - (rest - {k}) == m.Keys - rest + {k};
      rest := rest - {k};
    }
    assert m.Keys - rest == m.Keys;
  }

  /** The ascending enumeration itself. */
  ghost function Sorted(s: set<string>): (keys: seq<string>)
    ensures SortedEnumeration(keys, s)
  {
    if s == {} then []
    else
      var k :| k in s;
      InsertSorts(k, Sorted(s - {k}), s - {k});
      assert s - {k} + {k} == s;
      Insert(k, Sorted(s - {k}))
  }
}
