/** What a commit writes (applyMetadata, applyClaimMetadata), and the payload a
    recovery replays instead (internal/install/journal.go, claims.go, payload.go). */
module Metadata {
  import opened Wrappers
  import opened Claims
  import opened Tables

  datatype OpKind = OpInstall | OpUpgrade | OpDowngrade | OpRemove

  // The database side of one planned package operation.
  datatype StagedOp = StagedOp(kind: OpKind, name: string, pkg: Pkg, files: seq<PackageFile>)

  datatype ClaimWork = ClaimWork(setHolders: map<string, string>, delHolders: seq<string>,
                                 delLinks: seq<string>, insLinks: seq<Link>)

  /** The live commit, as a function of the database. */

  function ApplyOp(db: Db, s: StagedOp): Option<Db>
  {
    if s.kind == OpRemove then Some(DeletePackage(db, s.name))
    else
      var base := if s.kind == OpInstall then db else DeletePackage(db, s.name);
      match InsertPackage(base, s.pkg)
      case None => None
      case Some(d) => InsertPackageFiles(d, s.files)
  }

  function ApplyMetadata(db: Db, staged: seq<StagedOp>): Option<Db>
  {
    if staged == [] then Some(db)
    else match ApplyMetadata(db, staged[..|staged| - 1])
      case None => None
      case Some(d) => ApplyOp(d, staged[|staged| - 1])
  }

  function DeleteHolders(db: Db, roles: seq<string>): Db
  {
    if roles == [] then db else DeleteClaimHolder(DeleteHolders(db, roles[..|roles| - 1]), roles[|roles| - 1])
  }

  // Setting every holder at once: no order can matter.
  function SetHolders(db: Db, m: map<string, string>): Option<Db>
  {
    if forall r | r in m :: m[r] in db.packages then Some(db.(holders := db.holders + m)) else None
  }

  function DeleteLinks(db: Db, paths: seq<string>): Db
  {
    if paths == [] then db else DeleteClaimLink(DeleteLinks(db, paths[..|paths| - 1]), paths[|paths| - 1])
  }

  function ApplyClaims(db: Db, w: ClaimWork): Option<Db>
  {
    match SetHolders(DeleteHolders(db, w.delHolders), w.setHolders)
    case None => None
    case Some(d) => InsertClaimLinks(DeleteLinks(d, w.delLinks), w.insLinks)
  }

  function Commit(db: Db, staged: seq<StagedOp>, w: ClaimWork): Option<Db>
  {
    match ApplyMetadata(db, staged)
    case None => None
    case Some(d) => ApplyClaims(d, w)
  }

  /** The payload of a cross-root transaction. */

  const PAYLOAD_VERSION := 1

  datatype PayloadOp = PayloadOp(kind: string, name: string, pkg: Option<Pkg>, files: seq<PackageFile>)

  datatype CommitPayload = CommitPayload(version: int, ops: seq<PayloadOp>, claims: ClaimWork)

  function KindString(k: OpKind): string
  {
    match k
    case OpInstall => "install"
    case OpUpgrade => "upgrade"
    case OpDowngrade => "downgrade"
    case OpRemove => "remove"
  }

  function PayloadOf(s: StagedOp): PayloadOp
  {
    if s.kind == OpRemove then PayloadOp(KindString(s.kind), s.name, None, [])
    else PayloadOp(KindString(s.kind), s.name, Some(s.pkg), s.files)
  }

  predicate PayloadFor(cp: CommitPayload, staged: seq<StagedOp>, w: ClaimWork)
  {
    && cp.version == PAYLOAD_VERSION && cp.claims == w
    && |cp.ops| == |staged| && forall i | 0 <= i < |staged| :: cp.ops[i] == PayloadOf(staged[i])
  }

  method BuildCommitPayload(staged: seq<StagedOp>, w: ClaimWork) returns (cp: CommitPayload)
    ensures PayloadFor(cp, staged, w)
  {
    var ops := [];
    for i := 0 to |staged|
      invariant |ops| == i && forall j | 0 <= j < i :: ops[j] == PayloadOf(staged[j])
    {
      ops := ops + [PayloadOf(staged[i])];
    }
    return CommitPayload(PAYLOAD_VERSION, ops, w);
  }

  function ReplayOp(db: Db, op: PayloadOp): Option<Db>
  {
    if op.kind == KindString(OpRemove) then Some(DeletePackage(db, op.name))
    else
      var base := if op.kind == KindString(OpInstall) then db else DeletePackage(db, op.name);
      if op.pkg.None? then None
      else match InsertPackage(base, op.pkg.value)
        case None => None
        case Some(d) => InsertPackageFiles(d, op.files)
  }

  function ReplayOps(db: Db, ops: seq<PayloadOp>): Option<Db>
  {
    if ops == [] then Some(db)
    else match ReplayOps(db, ops[..|ops| - 1])
      case None => None
      case Some(d) => ReplayOp(d, ops[|ops| - 1])
  }

  function Replay(db: Db, cp: CommitPayload): Option<Db>
  {
    match ReplayOps(db, cp.ops)
    case None => None
    case Some(d) => ApplyClaims(d, cp.claims)
  }

  // Replaying the stored payload writes what the live commit would have written,
  // and fails where it would have failed.
  lemma RollForwardRefinesCommit(db: Db, staged: seq<StagedOp>, w: ClaimWork, cp: CommitPayload)
    requires PayloadFor(cp, staged, w)
    ensures Replay(db, cp) == Commit(db, staged, w)
  {
    ReplayOpsRefine(db, staged, cp.ops);
  }

  lemma {:induction false} ReplayOpsRefine(db: Db, staged: seq<StagedOp>, ops: seq<PayloadOp>)
    requires |ops| == |staged| && forall i | 0 <= i < |staged| :: ops[i] == PayloadOf(staged[i])
    ensures ReplayOps(db, ops) == ApplyMetadata(db, staged)
  {
    if staged != [] {
      var n := |staged| - 1;
      ReplayOpsRefine(db, staged[..n], ops[..n]);
      assert ops[n].kind == KindString(staged[n].kind);
      assert KindString(OpInstall)[0] == 'i' && KindString(OpUpgrade)[0] == 'u';
      assert KindString(OpDowngrade)[0] == 'd' && KindString(OpRemove)[0] == 'r';
    }
  }

  /** The two transactions, statement by statement. */

  class Store {
    var tables: Db

    // Loops over rows in the source; a failing statement abandons the rest.
    method ApplyMetadataRows(staged: seq<StagedOp>) returns (ok: bool)
      modifies this
      ensures ok <==> ApplyMetadata(old(tables), staged).Some?
      ensures ok ==> Some(tables) == ApplyMetadata(old(tables), staged)
    {
      for i := 0 to |staged|
        invariant ApplyMetadata(old(tables), staged[..i]) == Some(tables)
      {
        var s := staged[i];
        assert staged[..i + 1][..i] == staged[..i];
        var after := ApplyOp(tables, s);
        if after.None? {
          NoneStays(old(tables), staged, i + 1);
          return false;
        }
        tables := after.value;
      }
      assert staged[..|staged|] == staged;
      return true;
    }

    method DeleteHolderRows(roles: seq<string>)
      modifies this
      ensures tables == DeleteHolders(old(tables), roles)
    {
      for i := 0 to |roles|
        invariant tables == DeleteHolders(old(tables), roles[..i])
      {
        assert roles[..i + 1][..i] == roles[..i];
        tables := DeleteClaimHolder(tables, roles[i]);
      }
      assert roles[..|roles|] == roles;
    }

    // The map is ranged over in whatever order.
    method SetHolderRows(m: map<string, string>) returns (ok: bool)
      modifies this
      ensures ok <==> SetHolders(old(tables), m).Some?
      ensures ok ==> Some(tables) == SetHolders(old(tables), m)
    {
      var left, done := m.Keys, map[];
      assert tables.holders + done == tables.holders;
      while left != {}
        invariant left <= m.Keys && done == map r | r in m && r !in left :: m[r]
        invariant forall r | r in done :: m[r] in old(tables).packages
        invariant tables == old(tables).(holders := old(tables).holders + done)
        decreases left
      {
        var role :| role in left;
        var after := SetClaimHolder(tables, role, m[role]);
        if after.None? { return false; }
        assert old(tables).holders + done[role := m[role]] == (old(tables).holders + done)[role := m[role]];
        tables, left, done := after.value, left - {role}, done[role := m[role]];
      }
      assert done == m;
      return true;
    }

    method DeleteLinkRows(paths: seq<string>)
      modifies this
      ensures tables == DeleteLinks(old(tables), paths)
    {
      for i := 0 to |paths|
        invariant tables == DeleteLinks(old(tables), paths[..i])
      {
        assert paths[..i + 1][..i] == paths[..i];
        tables := DeleteClaimLink(tables, paths[i]);
      }
      assert paths[..|paths|] == paths;
    }

    method ApplyClaimRows(w: ClaimWork) returns (ok: bool)
      modifies this
      ensures ok <==> ApplyClaims(old(tables), w).Some?
      ensures ok ==> Some(tables) == ApplyClaims(old(tables), w)
    {
      DeleteHolderRows(w.delHolders);
      ok := SetHolderRows(w.setHolders);
      if !ok { return false; }
      DeleteLinkRows(w.delLinks);
      var after := InsertClaimLinks(tables, w.insLinks);
      if after.None? { return false; }
      tables := after.value;
      return true;
    }

    // One SQLite transaction: a failure leaves the tables as they were.
    method CommitLive(staged: seq<StagedOp>, w: ClaimWork) returns (ok: bool)
      modifies this
      ensures ok <==> Commit(old(tables), staged, w).Some?
      ensures tables == if ok then Commit(old(tables), staged, w).value else old(tables)
    {
      var saved := tables;
      ok := ApplyMetadataRows(staged);
      if ok { ok := ApplyClaimRows(w); }
      if !ok { tables := saved; }
    }

    // Roll-forward: the same transaction from the stored payload.
    method CommitStored(cp: CommitPayload) returns (ok: bool)
      modifies this
      ensures ok <==> cp.version == PAYLOAD_VERSION && Replay(old(tables), cp).Some?
      ensures tables == if ok then Replay(old(tables), cp).value else old(tables)
    {
      if cp.version != PAYLOAD_VERSION { return false; }
      var saved := tables;
      for i := 0 to |cp.ops|
        invariant ReplayOps(saved, cp.ops[..i]) == Some(tables)
      {
        assert cp.ops[..i + 1][..i] == cp.ops[..i];
        var after := ReplayOp(tables, cp.ops[i]);
        if after.None? {
          NoReplay(saved, cp.ops, i + 1);
          tables := saved;
          return false;
        }
        tables := after.value;
      }
      assert cp.ops[..|cp.ops|] == cp.ops;
      ok := ApplyClaimRows(cp.claims);
      if !ok { tables := saved; }
    }
  }

  lemma {:induction false} NoneStays(db: Db, staged: seq<StagedOp>, i: nat)
    requires i <= |staged| && ApplyMetadata(db, staged[..i]).None?
    ensures ApplyMetadata(db, staged).None?
    decreases |staged|
  {
    if i == |staged| {
      assert staged[..i] == staged;
    } else {
      assert staged[..|staged| - 1][..i] == staged[..i];
      NoneStays(db, staged[..|staged| - 1], i);
    }
  }

  lemma {:induction false} NoReplay(db: Db, ops: seq<PayloadOp>, i: nat)
    requires i <= |ops| && ReplayOps(db, ops[..i]).None?
    ensures ReplayOps(db, ops).None?
    decreases |ops|
  {
    if i == |ops| {
      assert ops[..i] == ops;
    } else {
      assert ops[..|ops| - 1][..i] == ops[..i];
      NoReplay(db, ops[..|ops| - 1], i);
    }
  }
}
