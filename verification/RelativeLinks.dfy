/** The body of a claim symlink (RelativeTarget in internal/claims/claims.go). */
module RelativeLinks {
  // Path components; empty ones are dropped.
  function Components(path: string): seq<string>
  {
    ComponentsFrom(path, "")
  }

  function ComponentsFrom(path: string, pending: string): seq<string>
  {
    if path == "" then Flush(pending)
    else if path[0] == '/' then Flush(pending) + ComponentsFrom(path[1..], "")
    else ComponentsFrom(path[1..], pending + [path[0]])
  }

  function Flush(pending: string): seq<string> { if pending == "" then [] else [pending] }

  function Render(components: seq<string>): string
  {
    if components == [] then "."
    else if |components| == 1 then components[0]
    else components[0] + "/" + Render(components[1..])
  }

  // filepath.Rel on cleaned absolute paths: drop the common part, climb out of the
  // rest of the base, descend to the target.
  function Rel(base: seq<string>, target: seq<string>): seq<string>
  {
    if base != [] && target != [] && base[0] == target[0] then Rel(base[1..], target[1..])
    else seq(|base|, i => "..") + target
  }

  function Body(path: string, target: string): string
  {
    var at := Components(path);
    Render(Rel(if at == [] then [] else at[..|at| - 1], Components(target)))
  }

  // Walking a relative path from a directory. At the top, going up stays there.
  function Resolve(dir: seq<string>, rel: seq<string>): seq<string>
    decreases |rel|
  {
    if rel == [] then dir
    else if rel[0] == "." then Resolve(dir, rel[1..])
    else if rel[0] == ".." then Resolve(if dir == [] then [] else dir[..|dir| - 1], rel[1..])
    else Resolve(dir + [rel[0]], rel[1..])
  }

  // The link leads to its target wherever the root is mounted: under any prefix
  // the walk never leaves the root.
  lemma {:induction false} RelResolves(prefix: seq<string>, base: seq<string>, target: seq<string>)
    requires ".." !in target && "." !in target
    ensures Resolve(prefix + base, Rel(base, target)) == prefix + target
    decreases |base|
  {
    if base != [] && target != [] && base[0] == target[0] {
      RelResolves(prefix + [base[0]], base[1..], target[1..]);
      assert prefix + [base[0]] + base[1..] == prefix + base;
      assert prefix + [base[0]] + target[1..] == prefix + target;
    } else {
      Climb(prefix, base, target);
    }
  }

  lemma {:induction false} Climb(prefix: seq<string>, base: seq<string>, target: seq<string>)
    requires ".." !in target && "." !in target
    ensures Resolve(prefix + base, seq(|base|, i => "..") + target) == prefix + target
    decreases |base|
  {
    if base == [] {
      assert seq(|base|, i => "..") + target == target;
      assert prefix + base == prefix;
      Descend(prefix, target);
    } else {
      var rel := seq(|base|, i => "..") + target;
      var front := base[..|base| - 1];
      assert rel[1..] == seq(|front|, i => "..") + target;
      assert (prefix + base)[..|prefix + base| - 1] == prefix + front;
      Climb(prefix, front, target);
    }
  }

  lemma {:induction false} Descend(dir: seq<string>, target: seq<string>)
    requires ".." !in target && "." !in target
    ensures Resolve(dir, target) == dir + target
    decreases |target|
  {
    if target != [] {
      Descend(dir + [target[0]], target[1..]);
      assert dir + [target[0]] + target[1..] == dir + target;
    } else {
      assert dir + target == dir;
    }
  }

  predicate Clean(c: string) { c != "" && forall k | k in c :: k != '/' }

  // The rendered body reads back as the components it was rendered from.
  lemma {:induction false} RenderParses(cs: seq<string>)
    requires cs != [] && forall c | c in cs :: Clean(c)
    ensures Components(Render(cs)) == cs
    decreases |cs|
  {
    var rest := if |cs| == 1 then "" else "/" + Render(cs[1..]);
    assert Render(cs) == cs[0] + rest by {
      if |cs| > 1 { assert cs[0] + "/" + Render(cs[1..]) == cs[0] + ("/" + Render(cs[1..])); }
      else { assert cs[0] + "" == cs[0]; }
    }
    assert cs[0] in cs && Clean(cs[0]);
    Collect(cs[0], rest, "");
    assert "" + cs[0] == cs[0];
    if |cs| > 1 {
      assert forall c | c in cs[1..] :: c in cs;
      RenderParses(cs[1..]);
      assert rest[1..] == Render(cs[1..]);
      assert cs == [cs[0]] + cs[1..];
    } else {
      assert cs == [cs[0]];
    }
  }

  lemma {:induction false} Collect(c: string, rest: string, pending: string)
    requires forall k | k in c :: k != '/'
    ensures ComponentsFrom(c + rest, pending) == ComponentsFrom(rest, pending + c)
    decreases |c|
  {
    if c == "" {
      assert c + rest == rest && pending + c == pending;
    } else {
      assert c[0] in c;
      assert (c + rest)[1..] == c[1..] + rest;
      assert forall k | k in c[1..] :: k in c;
      Collect(c[1..], rest, pending + [c[0]]);
      assert pending + [c[0]] + c[1..] == pending + c;
    }
  }

  /** The body of a link. */

  // An absolute path, from the names on the way.
  function Absolute(names: seq<string>): string
  {
    if names == [] then "" else Absolute(names[..|names| - 1]) + "/" + names[|names| - 1]
  }

  // A name as it stands in a cleaned path.
  predicate Name(c: string) { Clean(c) && c != "." && c != ".." }

  predicate AllNames(names: seq<string>) { forall c | c in names :: Name(c) }

  lemma {:induction false} ReadSlash(a: string, c: string, pending: string)
    requires Clean(c)
    ensures ComponentsFrom(a + "/" + c, pending) == ComponentsFrom(a, pending) + [c]
    decreases |a|
  {
    var s := a + "/" + c;
    if a == "" {
      assert s == "/" + c && s[1..] == c;
      assert c + "" == c && "" + c == c;
      Collect(c, "", "");
      assert ComponentsFrom(s, pending) == Flush(pending) + [c];
    } else {
      assert s[0] == a[0] && s[1..] == a[1..] + "/" + c;
      if a[0] == '/' {
        ReadSlash(a[1..], c, "");
        assert Flush(pending) + (ComponentsFrom(a[1..], "") + [c]) == Flush(pending) + ComponentsFrom(a[1..], "") + [c];
      } else {
        ReadSlash(a[1..], c, pending + [a[0]]);
      }
    }
  }

  lemma {:induction false} AbsoluteParses(names: seq<string>)
    requires AllNames(names)
    ensures Components(Absolute(names)) == names
  {
    if names != [] {
      var n := |names| - 1;
      assert names[n] in names && forall c | c in names[..n] :: c in names;
      AbsoluteParses(names[..n]);
      ReadSlash(Absolute(names[..n]), names[n], "");
      assert names[..n] + [names[n]] == names;
    }
  }

  lemma {:induction false} RelNames(base: seq<string>, target: seq<string>)
    requires AllNames(target)
    ensures forall c | c in Rel(base, target) :: Clean(c)
    decreases |base|
  {
    if base != [] && target != [] && base[0] == target[0] {
      assert forall c | c in target[1..] :: c in target;
      RelNames(base[1..], target[1..]);
    }
  }

  // Read from the directory of the link, under any mount point, its body leads to the
  // target.
  lemma BodyResolves(mount: seq<string>, dir: seq<string>, name: string, target: seq<string>)
    requires AllNames(dir) && Name(name) && AllNames(target)
    ensures var body := Body(Absolute(dir + [name]), Absolute(target));
      Resolve(mount + dir, Components(body)) == mount + target && body != "" && body[0] != '/'
  {
    hide Rel, Resolve;
    var at := dir + [name];
    AbsoluteParses(at);
    AbsoluteParses(target);
    assert at[..|at| - 1] == dir;
    var rel := Rel(dir, target);
    RelResolves(mount, dir, target);
    RelNames(dir, target);
    if rel == [] {
      StaysThere(mount + dir);
    } else {
      RenderParses(rel);
      assert rel[0] in rel && Clean(rel[0]) && rel[0][0] in rel[0];
    }
  }

  // A link to its own directory.
  lemma StaysThere(dir: seq<string>)
    ensures Resolve(dir, Components(Render([]))) == dir == Resolve(dir, [])
  {
    assert "."[1..] == "" && "" + ['.'] == ".";
    assert Components(".") == ["."];
  }
}
