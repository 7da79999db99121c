/** Claim materialisation (internal/claims/claims.go): which symlinks should
    exist, and the plan that turns the recorded ones into those. */
module Claims {
  import opened Wrappers
  import opened Sorting

  /** The claim-relevant part of a manifest. An empty string is "not declared". */

  datatype ClaimSlot = ClaimSlot(path: string, target: string)
  datatype Provide = Provide(name: string, claims: map<string, ClaimSlot>)
  datatype Dependency = Dependency(name: string, claims: map<string, ClaimSlot>)
  datatype Manifest = Manifest(provided: seq<Provide>, dependencies: seq<Dependency>,
                               optionalDependencies: seq<Dependency>)

  datatype Installed = Installed(name: string, manifest: Manifest)

  datatype Link = Link(path: string, role: string, slot: string, target: string)

  const MAX_CLAIM_PATHS_PER_ROLE := 256

  /** What the source reads out of manifests. */

  // The first provides entry for the role decides.
  function ProvidesFor(ps: seq<Provide>, role: string): map<string, ClaimSlot>
  {
    if ps == [] then map[] else if ps[0].name == role then ps[0].claims else ProvidesFor(ps[1..], role)
  }

  function DependencyPaths(deps: seq<Dependency>, role: string, slot: string): set<string>
  {
    set d | d in deps && d.name == role && slot in d.claims && d.claims[slot].path != "" :: d.claims[slot].path
  }

  function ConsumerPaths(m: Manifest, role: string, slot: string): set<string>
  {
    DependencyPaths(m.dependencies, role, slot) + DependencyPaths(m.optionalDependencies, role, slot)
  }

  // byName: the last entry of a name wins.
  function Find(installed: seq<Installed>, name: string): Option<Manifest>
  {
    if installed == [] then None
    else if installed[|installed| - 1].name == name then Some(installed[|installed| - 1].manifest)
    else Find(installed[..|installed| - 1], name)
  }

  predicate EligibleProvider(m: Manifest, role: string)
  {
    exists p | p in m.provided :: p.name == role && exists slot | slot in p.claims :: p.claims[slot].target != ""
  }

  /** The specification: a link belongs to the desired set when its role is held
      by an installed package that fills its slot with its target, and its path is
      the holder's default or some installed consumer's. */

  ghost predicate PathFor(installed: seq<Installed>, desc: ClaimSlot, role: string, slot: string, path: string)
  {
    || (path == desc.path && path != "")
    || exists p | p in installed :: path in ConsumerPaths(p.manifest, role, slot)
  }

  ghost predicate Wanted(installed: seq<Installed>, holders: map<string, string>, l: Link)
  {
    && l.role in holders
    && Find(installed, holders[l.role]).Some?
    && var slots := ProvidesFor(Find(installed, holders[l.role]).value.provided, l.role);
      && l.slot in slots
      && slots[l.slot].target != ""
      && l.target == slots[l.slot].target
      && PathFor(installed, slots[l.slot], l.role, l.slot, l.path)
  }

  ghost predicate NoConflict(installed: seq<Installed>, holders: map<string, string>)
  {
    forall a, b | Wanted(installed, holders, a) && Wanted(installed, holders, b) && a.path == b.path :: a == b
  }

  // All the paths wanted for a role.
  ghost predicate RolePaths(installed: seq<Installed>, holders: map<string, string>, role: string, paths: set<string>)
  {
    forall p :: p in paths <==> exists l: Link :: l.role == role && l.path == p && Wanted(installed, holders, l)
  }

  ghost predicate WithinLimit(installed: seq<Installed>, holders: map<string, string>)
  {
    forall role, paths | RolePaths(installed, holders, role, paths) :: |paths| <= MAX_CLAIM_PATHS_PER_ROLE
  }

  // The links are exactly the wanted ones, ascending by path.
  ghost predicate IsDesired(installed: seq<Installed>, holders: map<string, string>, links: seq<Link>)
  {
    && (forall l: Link :: l in links <==> Wanted(installed, holders, l))
    && (forall i, j | 0 <= i < j < |links| :: Less(links[i].path, links[j].path))
  }

  /** Desired. Maps are ranged over in an arbitrary order. */

  type Result = map<string, Link>

  ghost predicate ByPath(result: Result) { forall p | p in result :: result[p].path == p }

  ghost predicate Holds(result: Result, l: Link) { l.path in result && result[l.path] == l }

  method SlotPaths(installed: seq<Installed>, desc: ClaimSlot, role: string, slot: string)
    returns (paths: set<string>)
    ensures forall p :: p in paths <==> PathFor(installed, desc, role, slot, p)
  {
    paths := if desc.path != "" then {desc.path} else {};
    for i := 0 to |installed|
      invariant forall p :: p in paths <==> PathFor(installed[..i], desc, role, slot, p)
    {
      assert installed[..i + 1] == installed[..i] + [installed[i]];
      paths := paths + ConsumerPaths(installed[i].manifest, role, slot);
    }
    assert installed[..|installed|] == installed;
  }

  // One slot's links, added unless a path already carries another link.
  method AddSlot(result: Result, paths: set<string>, role: string, slot: string, target: string)
    returns (ok: bool, next: Result)
    requires ByPath(result)
    ensures ByPath(next)
    ensures ok ==> forall l: Link :: Holds(next, l) <==>
              Holds(result, l) || (l.path in paths && l == Link(l.path, role, slot, target))
    ensures !ok ==> exists p | p in paths :: p in result && result[p] != Link(p, role, slot, target)
  {
    next := result;
    var left := paths;
    while left != {}
      invariant left <= paths && ByPath(next)
      invariant forall l: Link :: Holds(next, l) <==>
                  Holds(result, l) || (l.path in paths - left && l == Link(l.path, role, slot, target))
      invariant forall p | p in left :: (p in next <==> p in result) && (p in next ==> next[p] == result[p])
      decreases left
    {
      var p :| p in left;
      var link := Link(p, role, slot, target);
      if p in next && next[p] != link {
        return false, next;
      }
      ghost var was := next;
      next := next[p := link];
      assert Holds(next, link);
      assert forall l: Link :: l.path != p ==> Holds(next, l) == Holds(was, l);
      assert forall l: Link | l.path == p :: Holds(next, l) <==> l == link;
      assert forall l: Link | l.path == p && Holds(was, l) :: l == link;
      left := left - {p};
    }
    return true, next;
  }

  // A link of `role` wanted by one of the slots `done`.
  ghost predicate OfSlots(installed: seq<Installed>, slots: map<string, ClaimSlot>, role: string,
                          done: set<string>, l: Link)
  {
    && l.role == role
    && l.slot in done && l.slot in slots
    && slots[l.slot].target != ""
    && l.target == slots[l.slot].target
    && PathFor(installed, slots[l.slot], role, l.slot, l.path)
  }

  datatype Added = Added(next: Result, perRole: set<string>) | Clash(path: string, one: Link, two: Link)

  method AddRole(installed: seq<Installed>, slots: map<string, ClaimSlot>, role: string, result: Result)
    returns (r: Added)
    requires ByPath(result)
    ensures r.Added? ==> ByPath(r.next)
    ensures r.Added? ==> forall l: Link :: Holds(r.next, l) <==>
              Holds(result, l) || OfSlots(installed, slots, role, slots.Keys, l)
    ensures r.Added? ==> forall p :: p in r.perRole <==>
              exists l: Link :: l.path == p && OfSlots(installed, slots, role, slots.Keys, l)
    ensures r.Clash? ==> r.one != r.two && r.one.path == r.two.path == r.path
    ensures r.Clash? ==> OfSlots(installed, slots, role, slots.Keys, r.one)
    ensures r.Clash? ==> Holds(result, r.two) || OfSlots(installed, slots, role, slots.Keys, r.two)
  {
    var next, perRole, left := result, {}, slots.Keys;
    while left != {}
      invariant left <= slots.Keys && ByPath(next)
      invariant forall l: Link :: Holds(next, l) <==>
                  Holds(result, l) || OfSlots(installed, slots, role, slots.Keys - left, l)
      invariant forall p | p in perRole :: exists l: Link ::
                l.path == p && OfSlots(installed, slots, role, slots.Keys - left, l)
      invariant forall l: Link | OfSlots(installed, slots, role, slots.Keys - left, l) :: l.path in perRole
      decreases left
    {
      var slot :| slot in left;
      if slots[slot].target != "" {
        var paths := SlotPaths(installed, slots[slot], role, slot);
        var ok, more := AddSlot(next, paths, role, slot, slots[slot].target);
        if !ok {
          var p :| p in paths && p in next && next[p] != Link(p, role, slot, slots[slot].target);
          assert Holds(next, next[p]);
          return Clash(p, Link(p, role, slot, slots[slot].target), next[p]);
        }
        forall p | p in paths
          ensures OfSlots(installed, slots, role, slots.Keys - (left - {slot}), Link(p, role, slot, slots[slot].target))
        {
        }
        perRole := perRole + paths;
        next := more;
      }
      left := left - {slot};
    }
    return Added(next, perRole);
  }

  // The desired links, or nothing when two of them want one path or a role
  // wants too many.
  method Desired(installed: seq<Installed>, holders: map<string, string>) returns (r: Option<seq<Link>>)
    ensures r.Some? <==> NoConflict(installed, holders) && WithinLimit(installed, holders)
    ensures r.Some? ==> IsDesired(installed, holders, r.value)
  {
    var roles := SortedKeys(holders.Keys);
    var result: Result := map[];
    for i := 0 to |roles|
      invariant ByPath(result)
      invariant forall l: Link :: Holds(result, l) <==> Wanted(installed, holders, l) && l.role in roles[..i]
      invariant forall role, paths | role in roles[..i] && RolePaths(installed, holders, role, paths) ::
                  |paths| <= MAX_CLAIM_PATHS_PER_ROLE
    {
      var role := roles[i];
      assert role in Elements(roles);
      assert roles[..i + 1] == roles[..i] + [role];
      if Find(installed, holders[role]).Some? {
        var slots := ProvidesFor(Find(installed, holders[role]).value.provided, role);
        assert forall l: Link :: OfSlots(installed, slots, role, slots.Keys, l) <==>
                 l.role == role && Wanted(installed, holders, l);
        var added := AddRole(installed, slots, role, result);
        if added.Clash? {
          return None;
        }
        assert RolePaths(installed, holders, role, added.perRole);
        if |added.perRole| > MAX_CLAIM_PATHS_PER_ROLE {
          return None;
        }
        OnePathSet(installed, holders, role, added.perRole);
        result := added.next;
      } else {
        assert RolePaths(installed, holders, role, {});
        OnePathSet(installed, holders, role, {});
      }
    }
    assert forall l: Link | Wanted(installed, holders, l) :: l.role in Elements(roles);
    assert forall l: Link :: Holds(result, l) <==> Wanted(installed, holders, l);
    forall role, paths | RolePaths(installed, holders, role, paths)
      ensures |paths| <= MAX_CLAIM_PATHS_PER_ROLE
    {
      if role !in holders {
        assert RolePaths(installed, holders, role, {});
        OnePathSet(installed, holders, role, {});
      } else {
        assert role in Elements(roles);
      }
    }
    var links := SortLinks(result);
    return Some(links);
  }

  lemma OnePathSet(installed: seq<Installed>, holders: map<string, string>, role: string, these: set<string>)
    requires RolePaths(installed, holders, role, these)
    ensures forall paths | RolePaths(installed, holders, role, paths) :: paths == these
  {
    forall paths | RolePaths(installed, holders, role, paths)
      ensures paths == these
    {
      assert forall p :: p in paths <==> p in these;
    }
  }

  method SortLinks(result: Result) returns (links: seq<Link>)
    requires ByPath(result)
    ensures forall l: Link :: l in links <==> Holds(result, l)
    ensures forall i, j | 0 <= i < j < |links| :: Less(links[i].path, links[j].path)
  {
    var keys := SortedKeys(result.Keys);
    assert forall k | k in keys :: k in Elements(keys);
    links := seq(|keys|, i requires 0 <= i < |keys| => result[keys[i]]);
    forall l: Link | Holds(result, l)
      ensures l in links
    {
      assert l.path in Elements(keys);
      var i :| 0 <= i < |keys| && keys[i] == l.path;
      assert links[i] == l;
    }
  }

  /** The answer depends on nothing but the set of installed packages. */

  lemma DesiredUnique(installed: seq<Installed>, holders: map<string, string>, xs: seq<Link>, ys: seq<Link>)
    requires IsDesired(installed, holders, xs) && IsDesired(installed, holders, ys)
    ensures xs == ys
  {
    SameLinks(xs, ys);
  }

  lemma {:induction false} SameLinks(xs: seq<Link>, ys: seq<Link>)
    requires forall l: Link :: l in xs <==> l in ys
    requires forall i, j | 0 <= i < j < |xs| :: Less(xs[i].path, xs[j].path)
    requires forall i, j | 0 <= i < j < |ys| :: Less(ys[i].path, ys[j].path)
    ensures xs == ys
  {
    var ps, qs := Paths(xs), Paths(ys);
    assert Elements(ps) == Elements(qs) by {
      forall i | 0 <= i < |xs|
        ensures ps[i] in qs
      {
        assert xs[i] in ys;
        var j :| 0 <= j < |ys| && ys[j] == xs[i];
        assert qs[j] == ps[i];
      }
      forall j | 0 <= j < |ys|
        ensures qs[j] in ps
      {
        assert ys[j] in xs;
        var i :| 0 <= i < |xs| && xs[i] == ys[j];
        assert ps[i] == qs[j];
      }
    }
    ListingUnique(ps, qs, Elements(ps));
    forall i | 0 <= i < |xs|
      ensures xs[i] == ys[i]
    {
      assert xs[i] in ys;
      var j :| 0 <= j < |ys| && ys[j] == xs[i];
      assert ps[i] == qs[i] == xs[i].path && qs[j] == ys[j].path;
      if i < j { LessTotal(qs[i], qs[j]); } else if j < i { LessTotal(qs[j], qs[i]); }
    }
  }

  function Paths(links: seq<Link>): seq<string>
  {
    seq(|links|, i requires 0 <= i < |links| => links[i].path)
  }

  ghost predicate DistinctNames(installed: seq<Installed>)
  {
    forall i, j | 0 <= i < j < |installed| :: installed[i].name != installed[j].name
  }

  lemma {:induction false} FindMember(installed: seq<Installed>, name: string)
    requires DistinctNames(installed)
    ensures forall m :: Find(installed, name) == Some(m) <==> Installed(name, m) in installed
  {
    if installed != [] {
      var rest, last := installed[..|installed| - 1], installed[|installed| - 1];
      FindMember(rest, name);
      assert installed == rest + [last];
      if last.name == name {
        assert forall p | p in rest :: p.name != name;
      }
    }
  }

  // Listing the installed packages in another order changes no link.
  lemma OrderIrrelevant(xs: seq<Installed>, ys: seq<Installed>, holders: map<string, string>)
    requires DistinctNames(xs) && DistinctNames(ys) && multiset(xs) == multiset(ys)
    ensures forall l: Link :: Wanted(xs, holders, l) <==> Wanted(ys, holders, l)
  {
    forall p
      ensures p in xs <==> p in ys
    {
      assert p in multiset(xs) <==> p in multiset(ys);
    }
    forall l: Link
      ensures Wanted(xs, holders, l) <==> Wanted(ys, holders, l)
    {
      if l.role in holders {
        FindMember(xs, holders[l.role]);
        FindMember(ys, holders[l.role]);
        var m, n := Find(xs, holders[l.role]), Find(ys, holders[l.role]);
        assert m == n by {
          if m.Some? { assert n == Some(m.value); }
          if n.Some? { assert m == Some(n.value); }
        }
      }
    }
  }

  /** Reconcile: the plan from the recorded links to the desired ones. */

  datatype Plan = Plan(create: seq<Link>, repoint: seq<Link>, remove: seq<Link>)

  ghost predicate DistinctPaths(links: seq<Link>)
  {
    forall i, j | 0 <= i < j < |links| :: links[i].path != links[j].path
  }

  function PathSet(links: seq<Link>): set<string> { set l | l in links :: l.path }

  method IndexByPath(links: seq<Link>) returns (m: map<string, Link>)
    requires DistinctPaths(links)
    ensures m.Keys == PathSet(links)
    ensures forall l | l in links :: m[l.path] == l
    ensures forall p | p in m :: m[p] in links && m[p].path == p
  {
    m := map[];
    for i := 0 to |links|
      invariant m.Keys == PathSet(links[..i])
      invariant forall l | l in links[..i] :: m[l.path] == l
      invariant forall p | p in m :: m[p] in links[..i] && m[p].path == p
    {
      assert links[..i + 1] == links[..i] + [links[i]];
      m := m[links[i].path := links[i]];
    }
    assert links[..|links|] == links;
  }

  // What the plan does to a set of links.
  function Carried(links: set<Link>, plan: Plan): set<Link>
  {
    (set l | l in links && l.path !in PathSet(plan.repoint) + PathSet(plan.remove))
    + Elements(plan.create) + Elements(plan.repoint)
  }

  // Carrying the plan out on the recorded links gives the desired links, and the
  // plan does no more than it must.
  method Reconcile(actual: seq<Link>, desired: seq<Link>) returns (plan: Plan)
    requires DistinctPaths(actual) && DistinctPaths(desired)
    ensures Carried(Elements(actual), plan) == Elements(desired)
    ensures forall l: Link :: l in plan.create <==> l in desired && l.path !in PathSet(actual)
    ensures forall l: Link :: l in plan.repoint <==> l in desired && l.path in PathSet(actual) && l !in actual
    ensures forall l: Link :: l in plan.remove <==> l in actual && l.path !in PathSet(desired)
  {
    var actualByPath := IndexByPath(actual);
    var desiredByPath := IndexByPath(desired);
    plan := Plan([], [], []);
    for i := 0 to |desired|
      invariant plan.remove == []
      invariant forall l: Link :: l in plan.create <==> l in desired[..i] && l.path !in PathSet(actual)
      invariant forall l: Link :: l in plan.repoint <==> l in desired[..i] && l.path in PathSet(actual) && l !in actual
    {
      var d := desired[i];
      assert desired[..i + 1] == desired[..i] + [d];
      if d.path !in actualByPath {
        plan := plan.(create := plan.create + [d]);
      } else if actualByPath[d.path] != d {
        plan := plan.(repoint := plan.repoint + [d]);
      }
    }
    assert desired[..|desired|] == desired;
    for i := 0 to |actual|
      invariant forall l: Link :: l in plan.create <==> l in desired && l.path !in PathSet(actual)
      invariant forall l: Link :: l in plan.repoint <==> l in desired && l.path in PathSet(actual) && l !in actual
      invariant forall l: Link :: l in plan.remove <==> l in actual[..i] && l.path !in PathSet(desired)
    {
      var a := actual[i];
      assert actual[..i + 1] == actual[..i] + [a];
      if a.path !in desiredByPath {
        plan := plan.(remove := plan.remove + [a]);
      }
    }
    assert actual[..|actual|] == actual;
    PlanCarries(actual, desired, plan);
  }

  lemma PlanCarries(actual: seq<Link>, desired: seq<Link>, plan: Plan)
    requires DistinctPaths(actual) && DistinctPaths(desired)
    requires forall l: Link :: l in plan.create <==> l in desired && l.path !in PathSet(actual)
    requires forall l: Link :: l in plan.repoint <==> l in desired && l.path in PathSet(actual) && l !in actual
    requires forall l: Link :: l in plan.remove <==> l in actual && l.path !in PathSet(desired)
    ensures Carried(Elements(actual), plan) == Elements(desired)
  {
    forall l: Link
      ensures l in Carried(Elements(actual), plan) <==> l in desired
    {
      if l in actual && l.path in PathSet(desired) {
        var d :| d in desired && d.path == l.path;
        assert d != l ==> d in plan.repoint by {
          if d in actual { assert d == l; }
        }
      }
      assert l in desired ==> forall r | r in plan.repoint && r.path == l.path :: r == l;
    }
  }

  /** Read off the manifests. */

  // The first entry that provides the role.
  ghost predicate FirstEntry(ps: seq<Provide>, role: string, i: int)
  {
    0 <= i < |ps| && ps[i].name == role && forall j | 0 <= j < i :: ps[j].name != role
  }

  lemma {:induction false} ProvidesForIs(ps: seq<Provide>, role: string, slot: string)
    ensures slot in ProvidesFor(ps, role) <==> exists i :: FirstEntry(ps, role, i) && slot in ps[i].claims
    ensures forall i | FirstEntry(ps, role, i) :: ProvidesFor(ps, role) == ps[i].claims
  {
    if ps != [] {
      var tail := ps[1..];
      ProvidesForIs(tail, role, slot);
      if ps[0].name == role {
        assert FirstEntry(ps, role, 0);
      } else {
        forall i | FirstEntry(ps, role, i)
          ensures FirstEntry(tail, role, i - 1) && tail[i - 1] == ps[i]
        {
        }
        forall i | FirstEntry(tail, role, i)
          ensures FirstEntry(ps, role, i + 1) && tail[i] == ps[i + 1]
        {
          assert forall j | 0 < j < i + 1 :: ps[j] == tail[j - 1];
        }
      }
    }
  }

  // The last installed entry of a name.
  ghost predicate LastNamed(installed: seq<Installed>, name: string, i: int)
  {
    0 <= i < |installed| && installed[i].name == name && forall j | i < j < |installed| :: installed[j].name != name
  }

  lemma {:induction false} FindIs(installed: seq<Installed>, name: string, m: Manifest)
    ensures Find(installed, name) == Some(m) <==>
            exists i :: LastNamed(installed, name, i) && installed[i].manifest == m
  {
    if installed != [] {
      var n := |installed| - 1;
      var front := installed[..n];
      if installed[n].name == name {
        assert LastNamed(installed, name, n);
      } else {
        FindIs(front, name, m);
        assert forall i :: LastNamed(installed, name, i) <==> LastNamed(front, name, i);
        assert forall i | 0 <= i < n :: front[i] == installed[i];
      }
    }
  }

  // A consumer, by a dependency of either kind, asks for the slot at the path.
  ghost predicate Asked(installed: seq<Installed>, role: string, slot: string, path: string)
  {
    exists p, d ::
      && p in installed && (d in p.manifest.dependencies || d in p.manifest.optionalDependencies)
      && d.name == role && slot in d.claims && d.claims[slot].path == path && path != ""
  }

  lemma AskedIs(installed: seq<Installed>, role: string, slot: string, path: string)
    ensures (exists p | p in installed :: path in ConsumerPaths(p.manifest, role, slot)) <==>
            Asked(installed, role, slot, path)
  {
    if p :| p in installed && path in ConsumerPaths(p.manifest, role, slot) {
      if path in DependencyPaths(p.manifest.dependencies, role, slot) {
        var d :| d in p.manifest.dependencies && d.name == role && slot in d.claims && d.claims[slot].path == path
                 && path != "";
      } else {
        var d :| d in p.manifest.optionalDependencies && d.name == role && slot in d.claims
                 && d.claims[slot].path == path && path != "";
      }
    }
  }

  // A link is wanted exactly when its role is held, the holder's first entry for the
  // role gives its slot its target, and its path is that entry's own or asked for.
  lemma WantedExactly(installed: seq<Installed>, holders: map<string, string>, l: Link)
    ensures Wanted(installed, holders, l) <==>
            && l.role in holders && l.target != ""
            && exists h, i ::
                 && LastNamed(installed, holders[l.role], h) && FirstEntry(installed[h].manifest.provided, l.role, i)
                 && var slots := installed[h].manifest.provided[i].claims;
                    && l.slot in slots && slots[l.slot].target == l.target
                    && ((l.path == slots[l.slot].path && l.path != "") || Asked(installed, l.role, l.slot, l.path))
  {
    hide Find, ProvidesFor, ConsumerPaths, Asked;
    AskedIs(installed, l.role, l.slot, l.path);
    if Wanted(installed, holders, l) {
      var m := Find(installed, holders[l.role]).value;
      FindIs(installed, holders[l.role], m);
      ProvidesForIs(m.provided, l.role, l.slot);
      var h :| LastNamed(installed, holders[l.role], h) && installed[h].manifest == m;
      var i :| FirstEntry(m.provided, l.role, i) && l.slot in m.provided[i].claims;
    }
    if l.role in holders && l.target != "" {
      forall h, i | LastNamed(installed, holders[l.role], h) && FirstEntry(installed[h].manifest.provided, l.role, i)
        ensures Find(installed, holders[l.role]) == Some(installed[h].manifest)
        ensures ProvidesFor(installed[h].manifest.provided, l.role) == installed[h].manifest.provided[i].claims
      {
        FindIs(installed, holders[l.role], installed[h].manifest);
        ProvidesForIs(installed[h].manifest.provided, l.role, l.slot);
      }
    }
  }

  // 256 paths are allowed for one role, and 257 are not.
  lemma LimitIs256(installed: seq<Installed>, holders: map<string, string>)
    ensures WithinLimit(installed, holders) <==>
            !exists role, paths :: RolePaths(installed, holders, role, paths) && |paths| >= 257
  {
  }

  // Whoever may hold a role fills one of its slots, where a role is provided once.
  lemma EligibleExactly(m: Manifest, role: string)
    requires forall i, j | 0 <= i < j < |m.provided| :: m.provided[i].name != m.provided[j].name
    ensures EligibleProvider(m, role) <==>
            exists slot | slot in ProvidesFor(m.provided, role) :: ProvidesFor(m.provided, role)[slot].target != ""
  {
    if p :| p in m.provided && p.name == role {
      var i :| 0 <= i < |m.provided| && m.provided[i] == p;
      assert FirstEntry(m.provided, role, i);
      ProvidesForIs(m.provided, role, "");
      assert ProvidesFor(m.provided, role) == p.claims;
      forall q | q in m.provided && q.name == role
        ensures q == p
      {
        var j :| 0 <= j < |m.provided| && m.provided[j] == q;
        assert !(i < j) && !(j < i);
      }
    } else {
      assert forall i :: !FirstEntry(m.provided, role, i);
      forall slot
        ensures slot !in ProvidesFor(m.provided, role)
      {
        ProvidesForIs(m.provided, role, slot);
      }
    }
  }
}
