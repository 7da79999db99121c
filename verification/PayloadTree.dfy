/** The tree of an audit event's payload: fields by dotted path, as nested maps
    (encodePayload in internal/audit/msgpack.go). A char stands for a byte. */
module PayloadTree {
  import opened Wrappers

  type Uint64 = n: int | 0 <= n < 0x1_0000_0000_0000_0000

  datatype Value = Text(text: string) | Uint(n: Uint64) | Flag(flag: bool) | Bytes(bytes: string) | Unsupported

  datatype Node = Leaf(value: Value) | Inner(children: map<string, Node>)

  type Path = seq<string>

  /** Dotted paths. */

  function Split(path: string): (r: Path)
    ensures r != []
  {
    if path == "" then [""]
    else if path[0] == '.' then [""] + Split(path[1..])
    else var rest := Split(path[1..]); [[path[0]] + rest[0]] + rest[1..]
  }

  function Join(segs: Path): string
    requires segs != []
  {
    if |segs| == 1 then segs[0] else segs[0] + "." + Join(segs[1..])
  }

  lemma {:induction false} SplitJoins(path: string)
    ensures Join(Split(path)) == path
  {
    if path != "" {
      SplitJoins(path[1..]);
      var rest := Split(path[1..]);
      if path[0] == '.' {
        assert ([""] + rest)[1..] == rest;
      } else {
        var segs := [[path[0]] + rest[0]] + rest[1..];
        assert segs[1..] == rest[1..];
        assert Join(segs) == [path[0]] + Join(rest);
      }
      assert path == [path[0]] + path[1..];
    }
  }

  lemma SplitInjective(p: string, q: string)
    requires Split(p) == Split(q)
    ensures p == q
  {
    SplitJoins(p);
    SplitJoins(q);
  }

  lemma SplitCons(p: string)
    requires p != ""
    ensures var rest := Split(p[1..]);
      Split(p) == if p[0] == '.' then [""] + rest else [[p[0]] + rest[0]] + rest[1..]
  {
  }

  lemma {:induction false} SplitAppend(p: string, r: string)
    ensures Split(p + "." + r) == Split(p) + Split(r)
  {
    if p == "" {
      assert (p + "." + r)[1..] == r;
    } else {
      var t, c := p + "." + r, p[0];
      assert t[0] == c && t[1..] == p[1..] + "." + r;
      SplitAppend(p[1..], r);
      var rest, more := Split(p[1..]), Split(r);
      SplitCons(t);
      SplitCons(p);
      hide Split;
      if c == '.' {
        assert [""] + (rest + more) == [""] + rest + more;
      } else {
        assert (rest + more)[0] == rest[0] && (rest + more)[1..] == rest[1..] + more;
        assert [[c] + rest[0]] + (rest[1..] + more) == [[c] + rest[0]] + rest[1..] + more;
      }
    }
  }

  lemma {:induction false} JoinAppend(a: Path, b: Path)
    requires a != [] && b != []
    ensures Join(a + b) == Join(a) + "." + Join(b)
  {
    if |a| == 1 {
      assert (a + b)[1..] == b;
    } else {
      assert (a + b)[1..] == a[1..] + b;
      JoinAppend(a[1..], b);
    }
  }

  // One path continues another exactly when it starts with it and a dot.
  lemma DottedPrefix(p: string, q: string)
    ensures Split(p) < Split(q) <==> p + "." <= q
  {
    hide Split, Join;
    SplitJoins(p);
    SplitJoins(q);
    if Split(p) < Split(q) {
      var rest := Split(q)[|Split(p)|..];
      assert Split(q) == Split(p) + rest;
      JoinAppend(Split(p), rest);
      assert q == p + "." + Join(rest);
    }
    if p + "." <= q {
      var r := q[|p| + 1..];
      assert q == p + "." + r;
      SplitAppend(p, r);
    }
  }

  /** The tree and what it holds. */

  predicate Has(n: Node, segs: Path, v: Value)
  {
    match n
    case Leaf(w) => segs == [] && v == w
    case Inner(children) => segs != [] && segs[0] in children && Has(children[segs[0]], segs[1..], v)
  }

  // No map below the root is empty.
  predicate Full(n: Node)
  {
    match n
    case Leaf(_) => true
    case Inner(children) => children != map[] && forall k | k in children :: Full(children[k])
  }

  predicate Rooted(n: Node) { n.Inner? && forall k | k in n.children :: Full(n.children[k]) }

  // One field's walk down the tree.
  function Insert(n: Node, segs: Path, v: Value): Option<Node>
    requires segs != []
    decreases |segs|
  {
    var s := segs[0];
    if s == "" || n.Leaf? then None
    else
      var child := if s in n.children then n.children[s] else Inner(map[]);
      if |segs| == 1 then
        if child.Inner? && child.children != map[] then None else Some(Inner(n.children[s := Leaf(v)]))
      else match Insert(child, segs[1..], v)
        case None => None
        case Some(c) => Some(Inner(n.children[s := c]))
  }

  lemma {:induction false} FullHolds(n: Node) returns (segs: Path, v: Value)
    requires Full(n)
    ensures Has(n, segs, v)
    decreases n
  {
    match n
    case Leaf(w) =>
      segs, v := [], w;
    case Inner(children) =>
      var k :| k in children;
      var rest, w := FullHolds(children[k]);
      segs, v := [k] + rest, w;
      assert segs[1..] == rest;
  }

  // A path neither continues nor is continued by another in the tree.
  ghost predicate Clear(n: Node, segs: Path)
  {
    forall q, w | Has(n, q, w) :: !(q < segs) && !(segs < q)
  }

  function Child(n: Node, s: string): Node
    requires n.Inner?
  {
    if s in n.children then n.children[s] else Inner(map[])
  }

  lemma HasChild(n: Node, s: string, q: Path, w: Value)
    requires n.Inner?
    ensures Has(n, [s] + q, w) <==> Has(Child(n, s), q, w)
  {
    assert ([s] + q)[1..] == q;
  }

  lemma ClearChild(n: Node, segs: Path)
    requires n.Inner? && segs != []
    ensures Clear(n, segs) <==> Clear(Child(n, segs[0]), segs[1..])
  {
    var s, rest := segs[0], segs[1..];
    assert segs == [s] + rest;
    if Clear(n, segs) {
      forall q, w | Has(Child(n, s), q, w)
        ensures !(q < rest) && !(rest < q)
      {
        HasChild(n, s, q, w);
        assert q < rest ==> [s] + q < segs;
        assert rest < q ==> segs < [s] + q;
      }
    }
    if Clear(Child(n, s), rest) {
      forall q, w | Has(n, q, w)
        ensures !(q < segs) && !(segs < q)
      {
        assert q == [q[0]] + q[1..];
        if q[0] == s {
          HasChild(n, s, q[1..], w);
          assert (q < segs <==> q[1..] < rest) && (segs < q <==> rest < q[1..]);
        }
      }
    }
  }

  // A field goes in exactly when its path has no empty segment and stands clear
  // of the others; then the tree holds it beside what it held.
  lemma {:induction false} InsertSome(n: Node, segs: Path, v: Value)
    requires Rooted(n) && segs != []
    ensures Insert(n, segs, v).Some? <==> "" !in segs && Clear(n, segs)
    ensures Insert(n, segs, v).Some? ==> Rooted(Insert(n, segs, v).value) && Full(Insert(n, segs, v).value)
    decreases |segs|
  {
    var s, rest := segs[0], segs[1..];
    var child := Child(n, s);
    assert segs == [s] + rest;
    ClearChild(n, segs);
    if |segs| == 1 {
      assert rest == [];
      LastSlot(child);
    } else if child.Leaf? {
      assert Has(child, [], child.value) && [] < rest;
    } else {
      InsertSome(child, rest, v);
    }
    if Insert(n, segs, v).Some? {
      var after := Insert(n, segs, v).value;
      forall k | k in after.children
        ensures Full(after.children[k])
      {
        if k != s {
          assert after.children[k] == n.children[k];
        } else if |segs| == 1 {
          assert after.children[k] == Leaf(v);
        } else {
          assert after.children[k] == Insert(child, rest, v).value;
        }
      }
      assert s in after.children;
    }
  }

  lemma LastSlot(child: Node)
    requires Full(child) || child == Inner(map[])
    ensures Clear(child, []) <==> !(child.Inner? && child.children != map[])
  {
    if child.Inner? && child.children != map[] {
      var q, w := FullHolds(child);
      assert [] < q;
    }
  }

  lemma {:induction false} InsertHas(n: Node, segs: Path, v: Value, q: Path, w: Value)
    requires segs != [] && Insert(n, segs, v).Some? && Clear(n, segs)
    ensures Has(Insert(n, segs, v).value, q, w) <==> if q == segs then w == v else Has(n, q, w)
    decreases |segs|
  {
    var s, rest := segs[0], segs[1..];
    var child, after := Child(n, s), Insert(n, segs, v).value;
    assert segs == [s] + rest;
    ClearChild(n, segs);
    if q != [] && q[0] == s {
      assert q == [s] + q[1..] && (q == segs <==> q[1..] == rest);
      HasChild(n, s, q[1..], w);
      HasChild(after, s, q[1..], w);
      if |segs| == 1 {
        assert Child(after, s) == Leaf(v) && rest == [];
      } else {
        InsertHas(child, rest, v, q[1..], w);
      }
    }
  }

  // A tree is determined by what it holds.
  lemma {:induction false} TreeIsUnique(a: Node, b: Node)
    requires (Full(a) && Full(b)) || (Rooted(a) && Rooted(b))
    requires forall q, w :: Has(a, q, w) <==> Has(b, q, w)
    ensures a == b
    decreases a
  {
    if a.Leaf? {
      assert Has(a, [], a.value);
    } else if b.Leaf? {
      assert Has(b, [], b.value);
    } else {
      SameKeys(a, b);
      SameKeys(b, a);
      forall k | k in a.children
        ensures a.children[k] == b.children[k]
      {
        forall q, w
          ensures Has(a.children[k], q, w) <==> Has(b.children[k], q, w)
        {
          HasChild(a, k, q, w);
          HasChild(b, k, q, w);
        }
        TreeIsUnique(a.children[k], b.children[k]);
      }
    }
  }

  lemma SameKeys(a: Node, b: Node)
    requires a.Inner? && b.Inner? && (forall k | k in a.children :: Full(a.children[k]))
    requires forall q, w :: Has(a, q, w) <==> Has(b, q, w)
    ensures a.children.Keys <= b.children.Keys
  {
    forall k | k in a.children
      ensures k in b.children
    {
      var q, w := FullHolds(a.children[k]);
      HasChild(a, k, q, w);
    }
  }

  /** The whole payload. */

  // The tree of a set of fields.
  ghost predicate TreeOf(n: Node, fields: map<string, Value>)
  {
    && Rooted(n)
    && forall q, w :: Has(n, q, w) <==> exists p :: p in fields && Split(p) == q && fields[p] == w
  }

  predicate NoEmptySegment(fields: map<string, Value>) { forall p | p in fields :: "" !in Split(p) }

  // No field is both a value and the map another continues into.
  predicate NoDottedPrefix(fields: map<string, Value>)
  {
    forall p, q | p in fields && q in fields :: !(p + "." <= q)
  }

  method BuildTree(fields: map<string, Value>) returns (r: Option<Node>)
    ensures r.Some? <==> NoEmptySegment(fields) && NoDottedPrefix(fields)
    ensures r.Some? ==> TreeOf(r.value, fields)
  {
    hide Split, Has, Insert, Clear;
    var root := Inner(map[]);
    ghost var done: map<string, Value> := map[];
    EmptyTree();
    var left := fields.Keys;
    while left != {}
      invariant left <= fields.Keys && done == map p | p in fields && p !in left :: fields[p]
      invariant TreeOf(root, done) && NoEmptySegment(done) && NoDottedPrefix(done)
      decreases left
    {
      var p :| p in left;
      ghost var next := done[p := fields[p]];
      OneMoreField(root, done, p, fields[p]);
      var after := Insert(root, Split(p), fields[p]);
      if after.None? {
        assert forall x | x in next :: x in fields;
        return None;
      }
      root, left, done := after.value, left - {p}, next;
    }
    assert done == fields;
    return Some(root);
  }

  lemma EmptyTree()
    ensures TreeOf(Inner(map[]), map[])
  {
  }

  lemma OneMoreField(root: Node, done: map<string, Value>, p: string, v: Value)
    requires TreeOf(root, done) && NoEmptySegment(done) && NoDottedPrefix(done) && p !in done
    ensures Insert(root, Split(p), v).Some? <==> NoEmptySegment(done[p := v]) && NoDottedPrefix(done[p := v])
    ensures Insert(root, Split(p), v).Some? ==> TreeOf(Insert(root, Split(p), v).value, done[p := v])
  {
    hide Has, Insert, Split;
    var segs, next := Split(p), done[p := v];
    InsertSome(root, segs, v);
    ClearMeans(root, done, p);
    assert NoDottedPrefix(next) <==> Clear(root, segs) by {
      assert !(p + "." <= p);
      assert forall a, b | a in next && b in next :: (a in done || a == p) && (b in done || b == p);
      assert forall a | a in done :: a in next;
      assert p in next;
    }
    assert NoEmptySegment(next) <==> "" !in segs by {
      assert p in next && forall a | a in done :: a in next;
    }
    if Insert(root, segs, v).Some? {
      var after := Insert(root, segs, v).value;
      forall q, w
        ensures Has(after, q, w) <==> exists a :: a in next && Split(a) == q && next[a] == w
      {
        InsertHas(root, segs, v, q, w);
        if q == segs {
          forall a | a in next && Split(a) == q
            ensures a == p
          {
            SplitInjective(a, p);
          }
          assert p in next;
        } else {
          forall a | a in done
            ensures a in next && next[a] == done[a]
          {
          }
        }
      }
    }
  }

  lemma ClearMeans(root: Node, done: map<string, Value>, p: string)
    requires TreeOf(root, done)
    ensures Clear(root, Split(p)) <==> forall a | a in done :: !(a + "." <= p) && !(p + "." <= a)
  {
    hide Has, Split;
    forall a | a in done
      ensures Has(root, Split(a), done[a])
      ensures Split(a) < Split(p) <==> a + "." <= p
      ensures Split(p) < Split(a) <==> p + "." <= a
    {
      DottedPrefix(a, p);
      DottedPrefix(p, a);
    }
  }
}
