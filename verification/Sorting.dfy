/** The byte order on strings and sorted listings of sets, for everything the
    program reads out of a Go map and sorts. */
module Sorting {
  predicate Less(a: string, b: string)
  {
    if b == "" then false
    else if a == "" then true
    else a[0] < b[0] || (a[0] == b[0] && Less(a[1..], b[1..]))
  }

  lemma {:induction false} LessTotal(a: string, b: string)
    ensures a == b || Less(a, b) || Less(b, a)
    ensures !(Less(a, b) && Less(b, a)) && !Less(a, a)
  {
    if a != "" && b != "" {
      LessTotal(a[1..], b[1..]);
      assert a[0] == b[0] && a[1..] == b[1..] ==> a == [a[0]] + a[1..] == b;
    }
    if a != "" { LessTotal(a[1..], a[1..]); }
  }

  lemma {:induction false} LessTransitive(a: string, b: string, c: string)
    requires Less(a, b) && Less(b, c)
    ensures Less(a, c)
  {
    if a != "" && a[0] == b[0] && b[0] == c[0] {
      LessTransitive(a[1..], b[1..], c[1..]);
    }
  }

  // The first difference decides, and a proper prefix comes first.
  lemma {:induction false} LessExactly(a: string, b: string)
    ensures Less(a, b) <==>
            exists i :: 0 <= i <= |a| && i < |b| && a[..i] == b[..i] && (i == |a| || a[i] < b[i])
  {
    if b == "" {
    } else if a == "" {
      assert a[..0] == b[..0];
    } else {
      var x, y := a[1..], b[1..];
      LessExactly(x, y);
      assert a[..0] == b[..0];
      if a[0] == b[0] {
        if i :| 0 <= i <= |x| && i < |y| && x[..i] == y[..i] && (i == |x| || x[i] < y[i]) {
          assert a[..i + 1] == [a[0]] + x[..i] && b[..i + 1] == [b[0]] + y[..i];
        }
        if i :| 0 < i <= |a| && i < |b| && a[..i] == b[..i] && (i == |a| || a[i] < b[i]) {
          assert x[..i - 1] == a[..i][1..] && y[..i - 1] == b[..i][1..];
        }
      } else {
        forall i | 0 < i <= |a| && i < |b|
          ensures a[..i] != b[..i]
        {
          assert a[..i][0] != b[..i][0];
        }
      }
    }
  }

  ghost predicate Ascending(s: seq<string>)
  {
    forall i, j | 0 <= i < j < |s| :: Less(s[i], s[j])
  }

  function Elements<T>(s: seq<T>): set<T> { set x | x in s }

  ghost predicate Lists(s: seq<string>, keys: set<string>) { Ascending(s) && Elements(s) == keys }

  // A set has only one ascending listing, so sorting hides iteration order.
  lemma {:induction false} ListingUnique(s: seq<string>, t: seq<string>, keys: set<string>)
    requires Lists(s, keys) && Lists(t, keys)
    ensures s == t
    decreases |s|
  {
    EmptyListing(s, keys);
    EmptyListing(t, keys);
    if s != [] {
      assert s[0] in keys && t[0] in keys;
      assert t[0] in s && s[0] in t;
      Smallest(s, t[0]);
      Smallest(t, s[0]);
      LessTotal(s[0], t[0]);
      Rest(s, keys);
      Rest(t, keys);
      ListingUnique(s[1..], t[1..], keys - {s[0]});
      assert s == [s[0]] + s[1..] && t == [t[0]] + t[1..];
    }
  }

  lemma EmptyListing(s: seq<string>, keys: set<string>)
    requires Lists(s, keys)
    ensures s == [] <==> keys == {}
  {
    if s != [] { assert s[0] in keys; }
  }

  lemma Smallest(s: seq<string>, x: string)
    requires Ascending(s) && x in s
    ensures s != [] && (x == s[0] || Less(s[0], x))
  {
  }

  lemma Rest(s: seq<string>, keys: set<string>)
    requires Lists(s, keys) && s != []
    ensures Lists(s[1..], keys - {s[0]})
  {
    LessTotal(s[0], s[0]);
    assert s == [s[0]] + s[1..];
    assert forall x | x in s[1..] :: x in keys && Less(s[0], x);
  }

  lemma {:induction false} ListingSize(s: seq<string>, keys: set<string>)
    requires Lists(s, keys)
    ensures |s| == |keys|
    decreases |s|
  {
    EmptyListing(s, keys);
    if s != [] {
      assert s[0] in keys;
      Rest(s, keys);
      ListingSize(s[1..], keys - {s[0]});
    }
  }

  function Insert(s: seq<string>, x: string): (r: seq<string>)
    ensures |r| == |s| + 1
  {
    if s == [] then [x]
    else if Less(x, s[0]) then [x] + s
    else [s[0]] + Insert(s[1..], x)
  }

  lemma {:induction false} InsertLists(s: seq<string>, x: string, keys: set<string>)
    requires Lists(s, keys) && x !in keys
    ensures Lists(Insert(s, x), keys + {x})
  {
    var r := Insert(s, x);
    if s != [] {
      assert s[0] in keys;
      LessTotal(x, s[0]);
      if Less(x, s[0]) {
        forall j | 0 <= j < |s|
          ensures Less(x, s[j])
        {
          if j > 0 { LessTransitive(x, s[0], s[j]); }
        }
        assert Elements([x] + s) == {x} + Elements(s);
      } else {
        Rest(s, keys);
        InsertLists(s[1..], x, keys - {s[0]});
        var rest := Insert(s[1..], x);
        forall j | 0 <= j < |rest|
          ensures Less(s[0], rest[j])
        {
          assert rest[j] in Elements(rest);
        }
        assert forall y | y in s[1..] :: Less(s[0], y);
        assert Elements([s[0]] + Insert(s[1..], x)) == {s[0]} + Elements(Insert(s[1..], x));
      }
    }
  }

  // Ranging over a map's keys in any order, then sorting.
  method SortedKeys(keys: set<string>) returns (r: seq<string>)
    ensures Lists(r, keys)
  {
    r := [];
    var left := keys;
    while left != {}
      invariant left <= keys && Lists(r, keys - left)
      decreases left
    {
      var k :| k in left;
      InsertLists(r, k, keys - left);
      r := Insert(r, k);
      assert keys - left + {k} == keys - (left - {k});
      left := left - {k};
    }
    assert keys - left == keys;
  }
}
