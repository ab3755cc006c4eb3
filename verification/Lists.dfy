/** Facts about sequences shared by the models of the Go code: removal of a value,
    occurrence counts, and `strings.Split` / `strings.Contains`. */
module Lists {

  /** `s` with every occurrence of `x` dropped, the order of the rest kept. */
  function Without<T(==)>(s: seq<T>, x: T): (r: seq<T>)
    ensures |r| <= |s|
  {
    if s == [] then []
    else if s[0] == x then Without(s[1..], x)
    else [s[0]] + Without(s[1..], x)
  }

  function Count<T(==)>(s: seq<T>, x: T): (n: nat)
    ensures n <= |s|
  {
    if s == [] then 0 else (if s[0] == x then 1 else 0) + Count(s[1..], x)
  }

  /** Index of the last occurrence of `x`. */
  function LastIndex<T(==)>(s: seq<T>, x: T): (i: nat)
    requires x in s
    ensures i < |s| && s[i] == x
    ensures forall j :: i < j < |s| ==> s[j] != x
  {
    if s[|s| - 1] == x then |s| - 1 else LastIndex(s[..|s| - 1], x)
  }

  ghost predicate NoDuplicates<T>(s: seq<T>) {
    forall i, j :: 0 <= i < j < |s| ==> s[i] != s[j]
  }

  lemma {:induction false} WithoutAppend<T>(s: seq<T>, t: seq<T>, x: T)
    ensures Without(s + t, x) == Without(s, x) + Without(t, x)
  {
    if s == [] {
      assert s + t == t;
    } else {
      assert (s + t)[1..] == s[1..] + t;
      WithoutAppend(s[1..], t, x);
    }
  }

  lemma {:induction false} CountAppend<T>(s: seq<T>, t: seq<T>, x: T)
    ensures Count(s + t, x) == Count(s, x) + Count(t, x)
  {
    if s == [] {
      assert s + t == t;
    } else {
      assert (s + t)[1..] == s[1..] + t;
      CountAppend(s[1..], t, x);
    }
  }

  lemma CountLast<T>(s: seq<T>, x: T)
    requires s != []
    ensures Count(s, x) == Count(s[..|s| - 1], x) + if s[|s| - 1] == x then 1 else 0
  {
    CountAppend(s[..|s| - 1], [s[|s| - 1]], x);
    assert s == s[..|s| - 1] + [s[|s| - 1]];
  }

  lemma {:induction false} CountPositive<T>(s: seq<T>, x: T)
    ensures Count(s, x) > 0 <==> x in s
  {
    if s != [] {
      CountPositive(s[1..], x);
      assert s == [s[0]] + s[1..];
    }
  }

  lemma SplitAt<T>(s: seq<T>, q: nat, x: T)
    requires q <= |s|
    ensures Count(s, x) == Count(s[..q], x) + Count(s[q..], x)
    ensures Without(s, x) == Without(s[..q], x) + Without(s[q..], x)
  {
    assert s == s[..q] + s[q..];
    CountAppend(s[..q], s[q..], x);
    WithoutAppend(s[..q], s[q..], x);
  }

  lemma {:induction false} CountIsMultiplicity<T>(s: seq<T>, x: T)
    ensures Count(s, x) == multiset(s)[x]
  {
    if s != [] {
      CountIsMultiplicity(s[1..], x);
      assert s == [s[0]] + s[1..];
    }
  }

  /** What `Without` keeps is every other value, each as often as before. */
  lemma {:induction false} WithoutCounts<T>(s: seq<T>, x: T, y: T)
    ensures Count(Without(s, x), y) == if y == x then 0 else Count(s, y)
    ensures |Without(s, x)| == |s| - Count(s, x)
  {
    if s != [] {
      WithoutCounts(s[1..], x, y);
      if s[0] != x {
        assert Without(s, x)[1..] == Without(s[1..], x);
      }
    }
  }

  lemma {:induction false} WithoutLacks<T>(s: seq<T>, x: T)
    ensures x !in Without(s, x)
  {
    if s != [] {
      WithoutLacks(s[1..], x);
    }
  }

  lemma {:induction false} WithoutAbsent<T>(s: seq<T>, x: T)
    requires x !in s
    ensures Without(s, x) == s
  {
    if s != [] {
      WithoutAbsent(s[1..], x);
      assert s == [s[0]] + s[1..];
    }
  }

  /** The elements of `s` that belong to `members`, in order. */
  function Within<T(==)>(s: seq<T>, members: set<T>): seq<T> {
    if s == [] then []
    else if s[0] in members then [s[0]] + Within(s[1..], members)
    else Within(s[1..], members)
  }

  lemma {:induction false} WithinAppend<T>(s: seq<T>, t: seq<T>, members: set<T>)
    ensures Within(s + t, members) == Within(s, members) + Within(t, members)
  {
    if s == [] {
      assert s + t == t;
    } else {
      assert (s + t)[1..] == s[1..] + t;
      WithinAppend(s[1..], t, members);
    }
  }

  lemma {:induction false} WithinCounts<T>(s: seq<T>, members: set<T>, x: T)
    ensures Count(Within(s, members), x) == if x in members then Count(s, x) else 0
  {
    if s != [] {
      WithinCounts(s[1..], members, x);
      if s[0] in members {
        assert Within(s, members)[1..] == Within(s[1..], members);
      }
    }
  }

  lemma {:induction false} WithinAll<T>(s: seq<T>, members: set<T>)
    requires forall i :: 0 <= i < |s| ==> s[i] in members
    ensures Within(s, members) == s
  {
    if s != [] {
      WithinAll(s[1..], members);
      assert s == [s[0]] + s[1..];
    }
  }

  // ---- strings.Split with a one-character separator ----

  /** `strings.Split(s, sep)` for a separator of length one: never empty, and the
      empty input gives one empty part. */
  function Split<T(==)>(s: seq<T>, sep: T): (parts: seq<seq<T>>)
    ensures |parts| >= 1
    ensures forall p :: p in parts ==> sep !in p
  {
    if s == [] then [[]]
    else if s[0] == sep then [[]] + Split(s[1..], sep)
    else
      var rest := Split(s[1..], sep);
      [[s[0]] + rest[0]] + rest[1..]
  }

  function Join<T>(parts: seq<seq<T>>, sep: T): seq<T>
    requires |parts| >= 1
  {
    if |parts| == 1 then parts[0] else parts[0] + [sep] + Join(parts[1..], sep)
  }

  /** A character put before the first part comes before the whole. */
  lemma JoinPrefix<T>(parts: seq<seq<T>>, x: T, sep: T)
    requires |parts| >= 1
    ensures Join([[x] + parts[0]] + parts[1..], sep) == [x] + Join(parts, sep)
  {
  }

  lemma {:induction false} JoinSplit<T>(s: seq<T>, sep: T)
    ensures Join(Split(s, sep), sep) == s
  {
    if s != [] {
      JoinSplit(s[1..], sep);
      var rest := Split(s[1..], sep);
      assert s == [s[0]] + s[1..];
      if s[0] == sep {
        assert Split(s, sep)[1..] == rest;
      } else {
        JoinPrefix(rest, s[0], sep);
      }
    }
  }

  /** Splitting at the first separator after a part that has none. */
  lemma {:induction false} SplitHead<T>(a: seq<T>, rest: seq<T>, sep: T)
    requires sep !in a
    ensures Split(a + [sep] + rest, sep) == [a] + Split(rest, sep)
  {
    var s := a + [sep] + rest;
    if a == [] {
      assert s == [sep] + rest;
      assert s[1..] == rest;
    } else {
      assert s[1..] == a[1..] + [sep] + rest;
      SplitHead(a[1..], rest, sep);
      assert a == [a[0]] + a[1..];
    }
  }

  lemma {:induction false} SplitPlain<T>(a: seq<T>, sep: T)
    requires sep !in a
    ensures Split(a, sep) == [a]
  {
    if a != [] {
      SplitPlain(a[1..], sep);
      assert a == [a[0]] + a[1..];
    }
  }

  /** The number of parts is one more than the number of separators. */
  lemma {:induction false} SplitLength<T>(s: seq<T>, sep: T)
    ensures |Split(s, sep)| == Count(s, sep) + 1
  {
    if s != [] {
      SplitLength(s[1..], sep);
    }
  }

  predicate Occurs<T(==)>(s: seq<T>, sub: seq<T>, i: int)
    requires 0 <= i <= |s| - |sub|
  {
    s[i..i + |sub|] == sub
  }

  /** `strings.Contains(s, sub)`. */
  predicate Contains<T(==)>(s: seq<T>, sub: seq<T>) {
    exists i :: 0 <= i <= |s| - |sub| && Occurs(s, sub, i)
  }

  lemma ContainsIff<T>(s: seq<T>, sub: seq<T>)
    ensures Contains(s, sub) <==> exists a, b :: s == a + sub + b
  {
    if Contains(s, sub) {
      var i :| 0 <= i <= |s| - |sub| && Occurs(s, sub, i);
      assert s == s[..i] + sub + s[i + |sub|..];
    }
    forall a, b | s == a + sub + b ensures Contains(s, sub) {
      assert Occurs(s, sub, |a|);
    }
  }
}
