/**
 * The ordering Rust's `Ord` gives `String`: lexicographic, character by
 * character, a proper prefix coming first (comparing UTF-8 bytes orders
 * strings the same way as comparing code points), and what `Vec::sort`
 * followed by `Vec::dedup` leaves of a list of strings.
 */
module StrOrder {

  /** `a < b` for Rust strings. */
  predicate Below(a: string, b: string)
    decreases |a|
  {
    if a == [] then b != []
    else b != [] && (a[0] < b[0] || (a[0] == b[0] && Below(a[1..], b[1..])))
  }

  lemma {:induction false} BelowIrreflexive(a: string)
    ensures !Below(a, a)
    decreases |a|
  {
    if a != [] {
      BelowIrreflexive(a[1..]);
    }
  }

  lemma {:induction false} BelowTransitive(a: string, b: string, c: string)
    requires Below(a, b) && Below(b, c)
    ensures Below(a, c)
    decreases |a|
  {
    if a != [] && a[0] == b[0] && b[0] == c[0] {
      BelowTransitive(a[1..], b[1..], c[1..]);
    }
  }

  /** Any two different strings are ordered one way. */
  lemma {:induction false} BelowTotal(a: string, b: string)
    requires a != b
    ensures Below(a, b) || Below(b, a)
    decreases |a|
  {
    if a != [] && b != [] && a[0] == b[0] {
      assert a == [a[0]] + a[1..] && b == [b[0]] + b[1..];
      BelowTotal(a[1..], b[1..]);
    }
  }

  lemma BelowAsymmetric(a: string, b: string)
    requires Below(a, b)
    ensures !Below(b, a)
  {
    if Below(b, a) {
      BelowTransitive(a, b, a);
      BelowIrreflexive(a);
    }
  }

  /** Sorted with no two equal neighbours: every earlier string is below
      every later one. */
  predicate StrictlyIncreasing(s: seq<string>) {
    forall i, j :: 0 <= i < j < |s| ==> Below(s[i], s[j])
  }

  /** `x` put into its place in the strictly increasing `s`, unless it is
      already there. */
  function InsertSorted(s: seq<string>, x: string): (r: seq<string>)
    requires StrictlyIncreasing(s)
    ensures StrictlyIncreasing(r)
    ensures forall y :: y in r <==> y in s || y == x
    decreases |s|
  {
    if s == [] then [x]
    else if x == s[0] then s
    else if Below(x, s[0]) then
      InsertFront(x, s);
      [x] + s
    else
      BelowTotal(x, s[0]);
      var t := InsertSorted(s[1..], x);
      HeadBelowTail(s, x, t);
      [s[0]] + t
  }

  /** Putting a string below the head of `s` in front keeps the order. */
  lemma InsertFront(x: string, s: seq<string>)
    requires StrictlyIncreasing(s) && s != [] && Below(x, s[0])
    ensures StrictlyIncreasing([x] + s)
  {
    var r := [x] + s;
    forall i, j | 0 <= i < j < |r|
      ensures Below(r[i], r[j])
    {
      if i == 0 && j > 1 {
        BelowTransitive(x, s[0], s[j - 1]);
      }
    }
  }

  /** The head of `s` stays below the rest after `x`, itself above the head,
      joins the rest. */
  lemma HeadBelowTail(s: seq<string>, x: string, t: seq<string>)
    requires StrictlyIncreasing(s) && s != [] && Below(s[0], x)
    requires StrictlyIncreasing(t)
    requires forall y :: y in t <==> y in s[1..] || y == x
    ensures StrictlyIncreasing([s[0]] + t)
  {
    var r := [s[0]] + t;
    forall i, j | 0 <= i < j < |r|
      ensures Below(r[i], r[j])
    {
      if i == 0 {
        assert r[j] in t;
        if r[j] != x {
          var k :| 0 <= k < |s[1..]| && s[1..][k] == r[j];
          assert s[k + 1] == r[j];
        }
      } else {
        assert r[i] == t[i - 1] && r[j] == t[j - 1];
      }
    }
  }

  /** `models.sort(); models.dedup();`: the distinct strings of `models`,
      strictly increasing. */
  function SortDedup(models: seq<string>): (r: seq<string>)
    ensures StrictlyIncreasing(r)
    ensures forall y :: y in r <==> y in models
    decreases |models|
  {
    if models == [] then []
    else
      var init := models[..|models| - 1];
      var r := InsertSorted(SortDedup(init), models[|models| - 1]);
      assert forall y :: y in models <==> y in init || y == models[|models| - 1] by {
        assert models == init + [models[|models| - 1]];
      }
      r
  }

  /** There is only one strictly increasing arrangement of a set of
      strings, so `SortDedup` is what sorting and then removing adjacent
      duplicates yields, whatever sorting algorithm is used. */
  lemma {:induction false} IncreasingIsUnique(a: seq<string>, b: seq<string>)
    requires StrictlyIncreasing(a) && StrictlyIncreasing(b)
    requires forall y :: y in a <==> y in b
    ensures a == b
    decreases |a|
  {
    if a != [] && b != [] {
      if a[0] != b[0] {
        BelowTotal(a[0], b[0]);
        if Below(a[0], b[0]) {
          LeastIsHead(b, a[0]);
        } else {
          LeastIsHead(a, b[0]);
        }
      }
      forall y
        ensures y in a[1..] <==> y in b[1..]
      {
        TailMembers(a, y);
        TailMembers(b, y);
      }
      IncreasingIsUnique(a[1..], b[1..]);
      assert a == [a[0]] + a[1..] && b == [b[0]] + b[1..];
    } else if a != [] {
      NonEmptyHasMember(a, b);
    } else if b != [] {
      NonEmptyHasMember(b, a);
    }
  }

  /** Something in `s` is in anything with the same members. */
  lemma NonEmptyHasMember(s: seq<string>, t: seq<string>)
    requires s != [] && forall y :: y in s <==> y in t
    ensures t != []
  {
    assert s[0] in t;
  }

  /** Nothing in a strictly increasing sequence is below its head. */
  lemma LeastIsHead(s: seq<string>, y: string)
    requires StrictlyIncreasing(s) && s != [] && Below(y, s[0])
    ensures y !in s
  {
    if y in s {
      var k :| 0 <= k < |s| && s[k] == y;
      if k == 0 {
        BelowIrreflexive(y);
      } else {
        BelowAsymmetric(y, s[0]);
      }
    }
  }

  /** The tail of a strictly increasing sequence holds everything but its head. */
  lemma TailMembers(s: seq<string>, y: string)
    requires StrictlyIncreasing(s) && s != []
    ensures y in s[1..] <==> y in s && y != s[0]
  {
    if y in s[1..] {
      var k :| 0 <= k < |s[1..]| && s[1..][k] == y;
      assert s[k + 1] == y;
      BelowIrreflexive(y);
    }
    if y in s && y != s[0] {
      var k :| 0 <= k < |s| && s[k] == y;
      assert s[1..][k - 1] == y;
    }
  }

  /** Sorting and deduplicating a list that already is strictly increasing
      changes nothing. */
  lemma SortDedupKeepsIncreasing(models: seq<string>)
    requires StrictlyIncreasing(models)
    ensures SortDedup(models) == models
  {
    IncreasingIsUnique(SortDedup(models), models);
  }
}
