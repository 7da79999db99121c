/** Who holds each role after a transaction (computeHolders and Claim in
    internal/install/claims.go). */
module Holders {
  import opened Wrappers
  import opened Sorting
  import opened Claims
  import opened Tables
  import opened Metadata
  import opened RowsAfter
  import opened Planning
  import opened Upgrade

  datatype Directive = Directive(noClaim: bool, all: bool, roles: seq<string>)

  function ProvidedRoles(m: Manifest): set<string>
  {
    set p | p in m.provided && EligibleProvider(m, p.name) :: p.name
  }

  predicate Offers(plan: seq<PkgOp>, role: string, name: string)
  {
    exists q | q in plan :: q.kind != OpRemove && q.name == name && role in ProvidedRoles(q.pkg.manifest)
  }

  // The in-flight provider of each offered role: the smallest name.
  ghost predicate FirstProviders(plan: seq<PkgOp>, providers: map<string, string>)
  {
    && (forall r | r in providers :: Offers(plan, r, providers[r]))
    && (forall r, n | Offers(plan, r, n) :: r in providers && (providers[r] == n || Less(providers[r], n)))
  }

  // What a package of the plan offers: the roles it declares a target for.
  lemma OffersExactly(plan: seq<PkgOp>, role: string, name: string)
    ensures Offers(plan, role, name) <==>
            exists q, p, slot ::
              && q in plan && q.kind != OpRemove && q.name == name && p in q.pkg.manifest.provided
              && p.name == role && slot in p.claims && p.claims[slot].target != ""
  {
    if q :| q in plan && q.kind != OpRemove && q.name == name && role in ProvidedRoles(q.pkg.manifest) {
      var p :| p in q.pkg.manifest.provided && p.name == role
               && exists slot | slot in p.claims :: p.claims[slot].target != "";
    }
  }

  function Removing(plan: seq<PkgOp>): set<string> { set q | q in plan && q.kind == OpRemove :: q.name }

  // A forced role goes to its in-flight provider; a role that keeps its holder
  // stays; an unheld role is claimed unless that is suppressed.
  ghost predicate PostHolders(current: map<string, string>, plan: seq<PkgOp>, dir: Directive, post: map<string, string>)
  {
    exists providers :: FirstProviders(plan, providers) && PostGiven(current, plan, dir, providers, post)
  }

  ghost predicate PostGiven(current: map<string, string>, plan: seq<PkgOp>, dir: Directive,
                            providers: map<string, string>, post: map<string, string>)
  {
    && (forall r | r in providers && (dir.all || r in dir.roles) :: r in post && post[r] == providers[r])
    && (forall r | r in current && current[r] !in Removing(plan) && !(r in providers && (dir.all || r in dir.roles)) ::
          r in post && post[r] == current[r])
    && (forall r | r in providers && !(dir.all || r in dir.roles) && !(r in current && current[r] !in Removing(plan)) ::
          if dir.noClaim then r !in post else r in post && post[r] == providers[r])
    && (forall r | r in post :: r in providers || (r in current && current[r] !in Removing(plan)))
  }

  // One package's offers, the smaller name winning each role.
  ghost predicate Merged(was: map<string, string>, name: string, roles: set<string>, now: map<string, string>)
  {
    && now.Keys == was.Keys + roles
    && (forall r | r in was && r !in roles :: now[r] == was[r])
    && (forall r | r in roles :: now[r] == if r in was && !Less(name, was[r]) then was[r] else name)
  }

  method Merge(was: map<string, string>, name: string, roles: set<string>) returns (now: map<string, string>)
    ensures Merged(was, name, roles, now)
  {
    now := was;
    var left := roles;
    while left != {}
      invariant left <= roles && Merged(was, name, roles - left, now)
      decreases left
    {
      var role :| role in left;
      if role !in now || Less(name, now[role]) {
        now := now[role := name];
      }
      left := left - {role};
    }
    assert roles - left == roles;
  }

  method ProviderOf(plan: seq<PkgOp>) returns (providers: map<string, string>)
    ensures FirstProviders(plan, providers)
  {
    providers := map[];
    for i := 0 to |plan|
      invariant FirstProviders(plan[..i], providers)
    {
      assert plan[..i + 1] == plan[..i] + [plan[i]];
      var roles := if plan[i].kind == OpRemove then {} else ProvidedRoles(plan[i].pkg.manifest);
      var now := Merge(providers, plan[i].name, roles);
      StillFirst(plan[..i], plan[i], providers, now);
      providers := now;
    }
    assert plan[..|plan|] == plan;
  }

  lemma OffersSnoc(plan: seq<PkgOp>, q: PkgOp, role: string, name: string)
    ensures Offers(plan + [q], role, name) <==>
            Offers(plan, role, name) || (q.kind != OpRemove && q.name == name && role in ProvidedRoles(q.pkg.manifest))
  {
    assert q in plan + [q];
    if Offers(plan, role, name) {
      var o :| o in plan && o.kind != OpRemove && o.name == name && role in ProvidedRoles(o.pkg.manifest);
      assert o in plan + [q];
    }
  }

  lemma StillFirst(plan: seq<PkgOp>, q: PkgOp, was: map<string, string>, now: map<string, string>)
    requires FirstProviders(plan, was)
    requires Merged(was, q.name, if q.kind == OpRemove then {} else ProvidedRoles(q.pkg.manifest), now)
    ensures FirstProviders(plan + [q], now)
  {
    hide Offers, ProvidedRoles;
    forall r | r in now
      ensures Offers(plan + [q], r, now[r])
    {
      OffersSnoc(plan, q, r, now[r]);
    }
    forall r, n | Offers(plan + [q], r, n)
      ensures r in now && (now[r] == n || Less(now[r], n))
    {
      OffersSnoc(plan, q, r, n);
      if r in was {
        LessTotal(q.name, was[r]);
        if Less(q.name, was[r]) && Less(was[r], n) { LessTransitive(q.name, was[r], n); }
      }
    }
  }

  // What one offered role becomes, given what it is kept at.
  ghost predicate RoleGiven(kept: map<string, string>, dir: Directive, providers: map<string, string>,
                            post: map<string, string>, role: string)
    requires role in providers
  {
    if dir.all || role in dir.roles then role in post && post[role] == providers[role]
    else if role in kept then role in post && post[role] == kept[role]
    else if dir.noClaim then role !in post
    else role in post && post[role] == providers[role]
  }

  method GiveRoles(kept: map<string, string>, dir: Directive, providers: map<string, string>)
    returns (post: map<string, string>)
    ensures forall role | role in providers :: RoleGiven(kept, dir, providers, post, role)
    ensures forall role | role !in providers ::
            (role in post <==> role in kept) && (role in post ==> post[role] == kept[role])
  {
    post := kept;
    var left := providers.Keys;
    while left != {}
      invariant left <= providers.Keys
      invariant forall role | role in left || role !in providers ::
                  (role in post <==> role in kept) && (role in post ==> post[role] == kept[role])
      invariant forall role | role in providers.Keys - left :: RoleGiven(kept, dir, providers, post, role)
      decreases left
    {
      var role :| role in left;
      ghost var was := post;
      if dir.all || role in dir.roles {
        post := post[role := providers[role]];
      } else if !dir.noClaim && role !in post {
        post := post[role := providers[role]];
      }
      forall r | r in providers.Keys - (left - {role})
        ensures RoleGiven(kept, dir, providers, post, r)
      {
        assert r != role ==> RoleGiven(kept, dir, providers, was, r);
      }
      left := left - {role};
    }
  }

  method ComputeHolders(current: map<string, string>, plan: seq<PkgOp>, dir: Directive)
    returns (r: Option<map<string, string>>)
    ensures r.None? <==> exists role | role in dir.roles :: NoOffer(plan, role)
    ensures r.Some? ==> PostHolders(current, plan, dir, r.value)
  {
    hide Offers;
    var removing := Removing(plan);
    var kept := map role | role in current && current[role] !in removing :: current[role];
    var providers := ProviderOf(plan);
    for i := 0 to |dir.roles|
      invariant forall role | role in dir.roles[..i] :: role in providers
    {
      if dir.roles[i] !in providers {
        assert NoOffer(plan, dir.roles[i]);
        return None;
      }
    }
    assert forall role | role in dir.roles :: Offers(plan, role, providers[role]);
    var post := GiveRoles(kept, dir, providers);
    assert PostGiven(current, plan, dir, providers, post);
    return Some(post);
  }

  ghost predicate NoOffer(plan: seq<PkgOp>, role: string) { forall n :: !Offers(plan, role, n) }

  // Every holder is a package that is installed once the transaction is over, so
  // the holder rows can be written.
  lemma HoldersInstalled(db: Db, plan: seq<PkgOp>, dir: Directive, post: map<string, string>, d: Db)
    requires ValidDb(db) && PlanNamed(plan) && RowsAre(db, StagedRows(plan), d)
    requires PostHolders(db.holders, plan, dir, post)
    ensures forall r | r in post :: post[r] in d.packages
  {
    StagedRowsNamed(plan);
    var providers :| FirstProviders(plan, providers) && PostGiven(db.holders, plan, dir, providers, post);
    forall r | r in post
      ensures post[r] in d.packages
    {
      if r in providers && post[r] == providers[r] {
        var q :| q in plan && q.kind != OpRemove && q.name == post[r];
        PlanInstalls(plan, q, db, d);
      } else {
        assert post[r] == db.holders[r] && post[r] !in Removing(plan);
        if post[r] in PlanNames(plan) {
          var q :| q in plan && q.name == post[r];
          PlanInstalls(plan, q, db, d);
        }
      }
    }
  }

  lemma PlanInstalls(plan: seq<PkgOp>, q: PkgOp, db: Db, d: Db)
    requires q in plan && q.kind != OpRemove && RowsAre(db, StagedRows(plan), d)
    ensures q.name in d.packages
  {
    var i :| 0 <= i < |plan| && plan[i] == q;
    assert StagedRows(plan)[i] in StagedRows(plan);
  }
}
