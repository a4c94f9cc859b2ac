/**
 * A job's asset rows and their manifest (planning/services.py, lines 42-142;
 * control/services/agentgigs_assets.py, lines 90-120).
 *
 * Rows are in creation order; a row's identifier is its position. Paths are resolved; the storage,
 * symlink and content checks on a file are one oracle, `acceptable`.
 */
module JobAssets {
  import opened Prelude

  datatype Status = Staged | Verified | Blocked

  datatype Asset = Asset(externalId: string, role: string, path: string, sha: string, size: nat, status: Status,
                         duplicateOf: Option<nat>, reasons: seq<string>)

  /** A file to stage: where it is, what it holds, and whether the content checks accept it. */
  datatype File = File(path: string, sha: string, size: nat, role: string, acceptable: bool)

  /** The environment's limits, before clamping to at least one. */
  datatype Limits = Limits(files: int, totalBytes: int, fileBytes: int)

  function AtLeastOne(n: int): (r: int)
    ensures 1 <= r && n <= r && (r == 1 || r == n)
  {
    if n > 1 then n else 1
  }

  // ---------------------------------------------------------------- the manifest

  datatype Item = Item(id: nat, role: string, sha: string, size: nat)

  datatype Manifest = Manifest(verified: bool, count: nat, total: nat, material: seq<Item>,
                               roles: map<string, seq<nat>>, reasons: seq<string>)

  /** A verified row that duplicates no other. */
  predicate Counts(a: Asset) {
    a.status.Verified? && a.duplicateOf.None?
  }

  function Material(assets: seq<Asset>): seq<Item> {
    if assets == [] then []
    else
      var i, a := |assets| - 1, assets[|assets| - 1];
      Material(assets[..i]) + if Counts(a) then [Item(i, a.role, a.sha, a.size)] else []
  }

  function TotalBytes(assets: seq<Asset>): nat {
    if assets == [] then 0
    else TotalBytes(assets[..|assets| - 1]) + if Counts(assets[|assets| - 1]) then assets[|assets| - 1].size else 0
  }

  /** The counted rows by role, in order. */
  function Roles(assets: seq<Asset>): map<string, seq<nat>> {
    if assets == [] then map[]
    else
      var i, a := |assets| - 1, assets[|assets| - 1];
      var roles := Roles(assets[..i]);
      if Counts(a) then roles[a.role := (if a.role in roles then roles[a.role] else []) + [i]] else roles
  }

  function BlockedReasons(assets: seq<Asset>): seq<string> {
    if assets == [] then []
    else
      var last := assets[|assets| - 1];
      BlockedReasons(assets[..|assets| - 1]) + if last.status.Blocked? then NonEmpty(last.reasons) else []
  }

  function NonEmpty(codes: seq<string>): seq<string> {
    if codes == [] then []
    else NonEmpty(codes[..|codes| - 1]) + if codes[|codes| - 1] != "" then [codes[|codes| - 1]] else []
  }

  predicate AnyBlocked(assets: seq<Asset>) {
    exists i | 0 <= i < |assets| :: assets[i].status.Blocked?
  }

  function Complaints(assets: seq<Asset>, l: Limits): seq<string> {
    (if |Material(assets)| > AtLeastOne(l.files) then ["ASSET_FILE_COUNT_LIMIT"] else [])
    + (if TotalBytes(assets) > AtLeastOne(l.totalBytes) then ["ASSET_TOTAL_BYTES_LIMIT"] else [])
    + (if AnyBlocked(assets) then ["ASSET_BLOCKED"] + BlockedReasons(assets) else [])
  }

  function Rebuilt(assets: seq<Asset>, l: Limits): Manifest {
    var material, reasons := Material(assets), Complaints(assets, l);
    Manifest(material != [] && reasons == [], |material|, TotalBytes(assets), material, Roles(assets),
             if reasons != [] then reasons else if material != [] then [] else ["NO_VERIFIED_ASSETS"])
  }

  /** The manifest is verified exactly when some row counts, none is blocked, and both quotas hold. */
  lemma ManifestVerifiedIff(assets: seq<Asset>, l: Limits)
    ensures Rebuilt(assets, l).verified <==>
      && (exists a :: a in assets && Counts(a))
      && (forall a :: a in assets ==> !a.status.Blocked?)
      && Rebuilt(assets, l).count <= AtLeastOne(l.files) && TotalBytes(assets) <= AtLeastOne(l.totalBytes)
  {
  }

  lemma {:induction false} MaterialMembers(assets: seq<Asset>)
    ensures forall i: nat :: i < |assets| && Counts(assets[i]) ==>
              Item(i, assets[i].role, assets[i].sha, assets[i].size) in Material(assets)
    ensures forall x :: x in Material(assets) ==> x.id < |assets| && Counts(assets[x.id])
  {
    if assets != [] { MaterialMembers(assets[..|assets| - 1]); }
  }

  /** The material lists, in order, exactly the verified rows that duplicate no other. */
  lemma {:induction false} MaterialInOrder(assets: seq<Asset>) returns (p: seq<nat>)
    ensures Enumerates(p, |assets|, (k: nat) =>
              k < |assets| && assets[k].status == Verified && assets[k].duplicateOf == None)
    ensures |p| == |Material(assets)|
    ensures forall i :: 0 <= i < |p| ==>
              && p[i] < |assets|
              && Material(assets)[i] == Item(p[i], assets[p[i]].role, assets[p[i]].sha, assets[p[i]].size)
  {
    if assets == [] {
      p := [];
    } else {
      var n := |assets| - 1;
      p := MaterialInOrder(assets[..n]);
      if assets[n].status == Verified && assets[n].duplicateOf == None { p := p + [n]; }
    }
  }

  function SizeOf(items: seq<Item>): nat {
    if items == [] then 0 else SizeOf(items[1..]) + items[0].size
  }

  lemma {:induction false} SizeOfExtended(items: seq<Item>, item: Item)
    ensures SizeOf(items + [item]) == SizeOf(items) + item.size
  {
    if items == [] {
      assert [item][1..] == [];
    } else {
      assert (items + [item])[1..] == items[1..] + [item];
      SizeOfExtended(items[1..], item);
    }
  }

  /** The bytes that count are those of the material, and so is the number of files. */
  lemma {:induction false} BytesAreOfMaterial(assets: seq<Asset>, l: Limits)
    ensures TotalBytes(assets) == SizeOf(Material(assets))
    ensures Rebuilt(assets, l).count == |Material(assets)| && Rebuilt(assets, l).total == SizeOf(Material(assets))
  {
    if assets != [] {
      var n := |assets| - 1;
      BytesAreOfMaterial(assets[..n], l);
      SizeOfExtended(Material(assets[..n]), Item(n, assets[n].role, assets[n].sha, assets[n].size));
      assert Material(assets[..n]) + [] == Material(assets[..n]);
    }
  }

  lemma {:induction false} NonEmptyMembers(codes: seq<string>)
    ensures forall code :: code in NonEmpty(codes) <==> code in codes && |code| > 0
  {
    if codes != [] {
      NonEmptyMembers(codes[..|codes| - 1]);
      assert codes == codes[..|codes| - 1] + [codes[|codes| - 1]];
    }
  }

  lemma {:induction false} BlockedReasonsMembers(assets: seq<Asset>)
    ensures forall code :: code in BlockedReasons(assets) <==>
              |code| > 0 && exists a :: a in assets && a.status == Blocked && code in a.reasons
  {
    if assets != [] {
      var front, last := assets[..|assets| - 1], assets[|assets| - 1];
      BlockedReasonsMembers(front);
      NonEmptyMembers(last.reasons);
      assert assets == front + [last];
    }
  }

  /** Which reasons a manifest gives: each kind exactly in its case, and those of the blocked rows. */
  lemma ManifestReasons(assets: seq<Asset>, l: Limits, code: string)
    ensures var m := Rebuilt(assets, l);
            var many := m.count > 1 && m.count > l.files;
            var large := m.total > 1 && m.total > l.totalBytes;
            var blocked := exists a :: a in assets && a.status == Blocked;
            code in m.reasons <==>
              || (code == "ASSET_FILE_COUNT_LIMIT" && many)
              || (code == "ASSET_TOTAL_BYTES_LIMIT" && large)
              || (code == "ASSET_BLOCKED" && blocked)
              || (|code| > 0 && exists a :: a in assets && a.status == Blocked && code in a.reasons)
              || (code == "NO_VERIFIED_ASSETS" && |m.material| == 0 && !many && !large && !blocked)
  {
    ComplaintsMembers(assets, l, code);
    BytesAreOfMaterial(assets, l);
    hide Complaints, Material, TotalBytes, Roles;
    if |Complaints(assets, l)| == 0 { ComplaintsWhenNone(assets, l); }
    if |Complaints(assets, l)| > 0 { ComplaintsWhenSome(assets, l); }
  }

  lemma ComplaintsMembers(assets: seq<Asset>, l: Limits, code: string)
    ensures code in Complaints(assets, l) <==>
              || (code == "ASSET_FILE_COUNT_LIMIT" && |Material(assets)| > AtLeastOne(l.files))
              || (code == "ASSET_TOTAL_BYTES_LIMIT" && TotalBytes(assets) > AtLeastOne(l.totalBytes))
              || (code == "ASSET_BLOCKED" && exists a :: a in assets && a.status == Blocked)
              || (|code| > 0 && exists a :: a in assets && a.status == Blocked && code in a.reasons)
  {
    hide BlockedReasons, Material, TotalBytes, AnyBlocked;
    BlockedReasonsMembers(assets);
    AnyBlockedIff(assets);
    var first := if |Material(assets)| > AtLeastOne(l.files) then ["ASSET_FILE_COUNT_LIMIT"] else [];
    var second := if TotalBytes(assets) > AtLeastOne(l.totalBytes) then ["ASSET_TOTAL_BYTES_LIMIT"] else [];
    var third := if AnyBlocked(assets) then ["ASSET_BLOCKED"] + BlockedReasons(assets) else [];
    assert Complaints(assets, l) == first + second + third;
    hide Complaints;
    assert code in first + second + third <==> code in first || code in second || code in third;
  }

  lemma AnyBlockedIff(assets: seq<Asset>)
    ensures AnyBlocked(assets) <==> exists a :: a in assets && a.status == Blocked
  {
  }

  lemma ComplaintsWhenNone(assets: seq<Asset>, l: Limits)
    requires |Complaints(assets, l)| == 0
    ensures |Material(assets)| <= AtLeastOne(l.files) && TotalBytes(assets) <= AtLeastOne(l.totalBytes)
    ensures forall a :: a in assets ==> a.status != Blocked
  {
    hide BlockedReasons, Material, TotalBytes;
    assert !AnyBlocked(assets);
  }

  lemma ComplaintsWhenSome(assets: seq<Asset>, l: Limits)
    requires |Complaints(assets, l)| > 0
    ensures || |Material(assets)| > AtLeastOne(l.files) || TotalBytes(assets) > AtLeastOne(l.totalBytes)
            || exists a :: a in assets && a.status == Blocked
  {
    hide BlockedReasons, Material, TotalBytes;
  }

  ghost predicate Increasing(ids: seq<nat>) {
    forall i, j :: 0 <= i < j < |ids| ==> ids[i] < ids[j]
  }

  /** Each role lists the counted rows of that role, each once and in order, and nothing else. */
  lemma {:induction false} RolesListCountedRows(assets: seq<Asset>, i: nat)
    requires i < |assets|
    ensures var roles := Roles(assets);
            Counts(assets[i]) <==> assets[i].role in roles && i in roles[assets[i].role]
    ensures forall r :: r in Roles(assets) ==>
              Increasing(Roles(assets)[r]) && forall k :: k in Roles(assets)[r] ==> k < |assets| && assets[k].role == r
  {
    RolesInRange(assets);
    RolesAreIncreasing(assets);
    if i < |assets| - 1 {
      RolesListCountedRows(assets[..|assets| - 1], i);
    } else {
      RolesInRange(assets[..|assets| - 1]);
    }
  }

  lemma {:induction false} RolesInRange(assets: seq<Asset>)
    ensures forall r :: r in Roles(assets) ==> forall k :: k in Roles(assets)[r] ==> k < |assets| && assets[k].role == r
  {
    if assets != [] { RolesInRange(assets[..|assets| - 1]); }
  }

  lemma {:induction false} RolesAreIncreasing(assets: seq<Asset>)
    ensures forall r :: r in Roles(assets) ==> Increasing(Roles(assets)[r])
  {
    if assets != [] {
      var before := Roles(assets[..|assets| - 1]);
      RolesInRange(assets[..|assets| - 1]);
      RolesAreIncreasing(assets[..|assets| - 1]);
      forall r | r in Roles(assets) ensures Increasing(Roles(assets)[r]) {
        if r in before {
          var ids := before[r];
          assert forall k :: 0 <= k < |ids| ==> ids[k] in ids;
          assert Increasing(ids) && Increasing(ids + [|assets| - 1]);
        }
      }
    }
  }

  // ---------------------------------------------------------------- staging and blocking

  function FindExternal(assets: seq<Asset>, externalId: string): (i: nat)
    ensures i <= |assets| && (i < |assets| ==> assets[i].externalId == externalId)
    ensures forall k :: 0 <= k < i ==> assets[k].externalId != externalId
  {
    if assets == [] || assets[0].externalId == externalId then 0
    else
      assert forall k :: 1 <= k < |assets| ==> assets[k] == assets[1..][k - 1];
      1 + FindExternal(assets[1..], externalId)
  }

  /** The newest row with this path, or the length. */
  function FindPath(assets: seq<Asset>, path: string): (i: nat)
    ensures i <= |assets| && (i < |assets| ==> assets[i].path == path)
  {
    if assets == [] then 0
    else if assets[|assets| - 1].path == path then |assets| - 1
    else
      var i := FindPath(assets[..|assets| - 1], path);
      if i == |assets| - 1 then |assets| else i
  }

  predicate IsDuplicate(a: Asset, file: File) {
    a.sha == file.sha && a.status.Verified? && a.path != file.path
  }

  function FindDuplicate(assets: seq<Asset>, file: File): (i: nat)
    ensures i <= |assets| && (i < |assets| ==> IsDuplicate(assets[i], file))
    ensures forall k :: 0 <= k < i ==> !IsDuplicate(assets[k], file)
  {
    if assets == [] || IsDuplicate(assets[0], file) then 0
    else
      assert forall k :: 1 <= k < |assets| ==> assets[k] == assets[1..][k - 1];
      1 + FindDuplicate(assets[1..], file)
  }

  function Put(assets: seq<Asset>, i: nat, a: Asset): (r: seq<Asset>)
    requires i <= |assets|
    ensures i < |r| && r[i] == a && |assets| <= |r| <= |assets| + 1
    ensures forall k :: 0 <= k < |assets| && k != i ==> r[k] == assets[k]
  {
    if i < |assets| then assets[i := a] else assets + [a]
  }

  function RowFor(assets: seq<Asset>, file: File, externalId: string): (i: nat)
    ensures i <= |assets|
  {
    if externalId != "" then FindExternal(assets, externalId) else FindPath(assets, file.path)
  }

  function StagedRow(assets: seq<Asset>, file: File, externalId: string): Asset {
    var duplicate, i := FindDuplicate(assets, file), RowFor(assets, file, externalId);
    var isDuplicate := duplicate < |assets|;
    Asset(if i < |assets| then assets[i].externalId else externalId, file.role, file.path, file.sha, file.size,
          if isDuplicate then Blocked else Verified, if isDuplicate then Some(duplicate) else None,
          if isDuplicate then ["ASSET_DUPLICATE"] else [])
  }

  predicate Stageable(file: File, l: Limits) {
    file.acceptable && file.size <= AtLeastOne(l.fileBytes)
  }

  function AfterStage(assets: seq<Asset>, file: File, externalId: string): seq<Asset> {
    Put(assets, RowFor(assets, file, externalId), StagedRow(assets, file, externalId))
  }

  function BlockedRow(assets: seq<Asset>, externalId: string, size: nat, code: string): Asset {
    var i := FindExternal(assets, externalId);
    var duplicateOf := if i < |assets| then assets[i].duplicateOf else None;
    Asset(externalId, "other-approved", "", "", size, Blocked, duplicateOf, [code])
  }

  function AfterBlock(assets: seq<Asset>, externalId: string, size: nat, code: string): seq<Asset> {
    Put(assets, FindExternal(assets, externalId), BlockedRow(assets, externalId, size, code))
  }

  /** The job's work plan, as far as staging writes to it. */
  datatype Plan = Plan(status: string, reasons: seq<string>, error: string)

  /** New inputs send a plan that failed or was blocked back to planning. */
  function InputsChanged(plan: Option<Plan>): Option<Plan> {
    if plan.Some? && plan.value.status in {"FAILED", "BLOCKED"}
    then Some(Plan("BLOCKED", ["INPUT_ASSET_CHANGED_REPLAN_REQUIRED"], ""))
    else plan
  }

  /** The row an upload goes to: that of the external identifier if there is one, else the newest with its path. */
  lemma RowForSays(assets: seq<Asset>, file: File, externalId: string)
    ensures var i := RowFor(assets, file, externalId);
            if |externalId| > 0 then
              && (i < |assets| ==> assets[i].externalId == externalId)
              && forall k :: 0 <= k < i && k < |assets| ==> assets[k].externalId != externalId
            else
              && (i < |assets| ==> assets[i].path == file.path)
              && forall k :: i < k < |assets| ==> assets[k].path != file.path
    ensures RowFor(assets, file, externalId) == |assets| <==>
              forall a :: a in assets ==> if |externalId| > 0 then a.externalId != externalId else a.path != file.path
  {
    if externalId == "" { FindPathIsNewest(assets, file.path); }
    hide FindPath;
  }

  lemma {:induction false} FindPathIsNewest(assets: seq<Asset>, path: string)
    ensures var i := FindPath(assets, path);
            && (forall k :: i < k < |assets| ==> assets[k].path != path)
            && (i == |assets| <==> forall a :: a in assets ==> a.path != path)
  {
    if assets != [] && assets[|assets| - 1].path != path {
      var front := assets[..|assets| - 1];
      assert assets == front + [assets[|assets| - 1]];
      FindPathIsNewest(front, path);
    }
  }

  /**
   * What staging writes: the file as it is, blocked as a duplicate of the oldest verified row with its
   * content elsewhere.
   */
  lemma StagedRowSays(assets: seq<Asset>, file: File, externalId: string)
    ensures var after, i := AfterStage(assets, file, externalId), RowFor(assets, file, externalId);
            var row := after[i];
            var copies := set k | 0 <= k < |assets| && assets[k].sha == file.sha && assets[k].status == Verified
                                  && assets[k].path != file.path;
            && |after| == (if i < |assets| then |assets| else |assets| + 1)
            && (forall k :: 0 <= k < |assets| && k != i ==> after[k] == assets[k])
            && row.role == file.role && row.path == file.path && row.sha == file.sha && row.size == file.size
            && row.externalId == (if i < |assets| then assets[i].externalId else externalId)
            && (copies == {} ==> row.status == Verified && row.duplicateOf == None && row.reasons == [])
            && (copies != {} ==>
                  && row.status == Blocked && row.reasons == ["ASSET_DUPLICATE"]
                  && row.duplicateOf.Some? && row.duplicateOf.value in copies
                  && forall k :: k in copies ==> row.duplicateOf.value <= k)
  {
    var copies := set k | 0 <= k < |assets| && assets[k].sha == file.sha && assets[k].status == Verified
                          && assets[k].path != file.path;
    var d := FindDuplicate(assets, file);
    if d < |assets| { assert d in copies; }
    hide FindDuplicate, RowFor;
  }

  /** What blocking writes: an empty row of the reference with its reason; an old duplicate link stays. */
  lemma BlockedRowSays(assets: seq<Asset>, externalId: string, size: nat, code: string)
    ensures var after, i := AfterBlock(assets, externalId, size, code), FindExternal(assets, externalId);
            && (i < |assets| <==> exists a :: a in assets && a.externalId == externalId)
            && |after| == (if i < |assets| then |assets| else |assets| + 1)
            && (forall k :: 0 <= k < |assets| && k != i ==> after[k] == assets[k])
            && after[i].externalId == externalId && after[i].status == Blocked && after[i].reasons == [code]
            && after[i].size == size && after[i].role == "other-approved" && |after[i].path| == 0 && |after[i].sha| == 0
            && after[i].duplicateOf == (if i < |assets| then assets[i].duplicateOf else None)
  {
    hide FindExternal;
  }

  /** New inputs send back exactly a plan that failed or was blocked. */
  lemma InputsChangedSays(plan: Option<Plan>)
    ensures var sentBack := plan.Some? && (plan.value.status == "FAILED" || plan.value.status == "BLOCKED");
            && (sentBack ==> InputsChanged(plan) == Some(Plan("BLOCKED", ["INPUT_ASSET_CHANGED_REPLAN_REQUIRED"], "")))
            && (!sentBack ==> InputsChanged(plan) == plan)
  {
  }

  class AssetDesk {
    const limits: Limits
    var assets: seq<Asset>
    var manifest: Option<Manifest>
    var plan: Option<Plan>

    /** The manifest is that of the rows. */
    predicate Fresh()
      reads this
    {
      manifest == Some(Rebuilt(assets, limits))
    }

    constructor (limits: Limits, plan: Option<Plan>)
      ensures this.limits == limits && assets == [] && manifest == None && this.plan == plan
    {
      this.limits := limits;
      assets, manifest, this.plan := [], None, plan;
    }

    method CollectReasons() returns (reasons: seq<string>)
      ensures reasons == (if AnyBlocked(assets) then ["ASSET_BLOCKED"] + BlockedReasons(assets) else [])
    {
      var any := false;
      var codes: seq<string> := [];
      for i := 0 to |assets|
        invariant any == AnyBlocked(assets[..i])
        invariant codes == BlockedReasons(assets[..i])
      {
        assert assets[..i + 1][..i] == assets[..i];
        if assets[i].status == Blocked {
          assert assets[..i + 1][i].status.Blocked?;
          any := true;
          codes := codes + NonEmpty(assets[i].reasons);
        } else {
          assert forall k :: 0 <= k < i ==> assets[..i + 1][k] == assets[..i][k];
        }
      }
      assert assets[..|assets|] == assets;
      reasons := if any then ["ASSET_BLOCKED"] + codes else [];
    }

    method RebuildManifest()
      modifies this`manifest
      ensures Fresh()
    {
      var material: seq<Item> := [];
      var total := 0;
      var roles: map<string, seq<nat>> := map[];
      for i := 0 to |assets|
        invariant material == Material(assets[..i]) && total == TotalBytes(assets[..i]) && roles == Roles(assets[..i])
      {
        assert assets[..i + 1][..i] == assets[..i];
        var row := assets[i];
        if row.status == Verified && row.duplicateOf == None {
          material := material + [Item(i, row.role, row.sha, row.size)];
          total := total + row.size;
          roles := roles[row.role := (if row.role in roles then roles[row.role] else []) + [i]];
        }
      }
      assert assets[..|assets|] == assets;
      var blocked := CollectReasons();
      var reasons := if |material| > AtLeastOne(limits.files) then ["ASSET_FILE_COUNT_LIMIT"] else [];
      reasons := reasons + (if total > AtLeastOne(limits.totalBytes) then ["ASSET_TOTAL_BYTES_LIMIT"] else []);
      reasons := reasons + blocked;
      manifest := Some(Manifest(material != [] && reasons == [], |material|, total, material, roles,
                                if reasons != [] then reasons
                                else if material != [] then [] else ["NO_VERIFIED_ASSETS"]));
    }

    /** None when the file is refused; otherwise the row. */
    method StageLocalAsset(file: File, externalId: string) returns (row: Option<nat>)
      modifies this
      ensures row.Some? <==> Stageable(file, limits)
      ensures row.Some? ==> assets == AfterStage(old(assets), file, externalId) && Fresh()
      ensures row.Some? ==> row.value == RowFor(old(assets), file, externalId) && plan == InputsChanged(old(plan))
      ensures row.None? ==> assets == old(assets) && manifest == old(manifest) && plan == old(plan)
    {
      hide Counts, Material, TotalBytes, Roles, Complaints;
      if !file.acceptable || file.size > AtLeastOne(limits.fileBytes) {
        return None;
      }
      var duplicate := FindDuplicate(assets, file);
      var isDuplicate := duplicate < |assets|;
      var i := if externalId != "" then FindExternal(assets, externalId) else FindPath(assets, file.path);
      var a := Asset(if i < |assets| then assets[i].externalId else externalId,
                     file.role, file.path, file.sha, file.size,
                     if isDuplicate then Blocked else Verified, if isDuplicate then Some(duplicate) else None,
                     if isDuplicate then ["ASSET_DUPLICATE"] else []);
      assets := if i < |assets| then assets[i := a] else assets + [a];
      RebuildManifest();
      if plan.Some? && (plan.value.status == "FAILED" || plan.value.status == "BLOCKED") {
        plan := Some(Plan("BLOCKED", ["INPUT_ASSET_CHANGED_REPLAN_REQUIRED"], ""));
      }
      row := Some(i);
    }

    method BlockAsset(externalId: string, size: nat, code: string)
      modifies this`assets, this`manifest
      ensures assets == AfterBlock(old(assets), externalId, size, code) && Fresh()
    {
      hide Counts, Material, TotalBytes, Roles, Complaints;
      var i := FindExternal(assets, externalId);
      if i < |assets| {
        assets := assets[i := assets[i].(role := "other-approved", path := "", sha := "", size := size,
                                         status := Blocked, reasons := [code])];
      } else {
        assets := assets + [Asset(externalId, "other-approved", "", "", size, Blocked, None, [code])];
      }
      RebuildManifest();
    }
  }

  // ---------------------------------------------------------------- what every operation keeps

  /** Both rows are verified and hold the same bytes. */
  predicate SameContent(a: Asset, b: Asset) {
    a.status.Verified? && b.status.Verified? && a.sha == b.sha
  }

  /** One path per verified content; verified rows duplicate nothing; external identifiers are unique. */
  ghost predicate Sound(assets: seq<Asset>) {
    && (forall i :: 0 <= i < |assets| && assets[i].status.Verified? ==> assets[i].duplicateOf.None?)
    && (forall i, j :: 0 <= i < |assets| && 0 <= j < |assets| && SameContent(assets[i], assets[j]) ==>
        assets[i].path == assets[j].path)
    && (forall i, j :: 0 <= i < j < |assets| && assets[i].externalId == assets[j].externalId ==>
        assets[i].externalId == "")
  }

  lemma StageKeepsSound(assets: seq<Asset>, file: File, externalId: string)
    requires Sound(assets)
    ensures Sound(AfterStage(assets, file, externalId))
  {
  }

  lemma BlockKeepsSound(assets: seq<Asset>, externalId: string, size: nat, code: string)
    requires Sound(assets)
    ensures Sound(AfterBlock(assets, externalId, size, code))
  {
  }

  function Weight(a: Asset): nat {
    if Counts(a) then a.size else 0
  }

  lemma {:induction false} TotalAfterPut(assets: seq<Asset>, i: nat, a: Asset)
    requires i <= |assets|
    ensures TotalBytes(Put(assets, i, a))
         == TotalBytes(assets) + Weight(a) - if i < |assets| then Weight(assets[i]) else 0
  {
    var r := Put(assets, i, a);
    if i == |assets| {
      assert r[..|r| - 1] == assets;
    } else if i < |assets| - 1 {
      TotalAfterPut(assets[..|assets| - 1], i, a);
      assert r[..|r| - 1] == Put(assets[..|assets| - 1], i, a);
    } else {
      assert r[..|r| - 1] == assets[..|assets| - 1];
    }
  }

  /** Blocking never adds counted bytes; staging adds at most the file. */
  lemma BytesAfterOperations(assets: seq<Asset>, file: File, externalId: string, size: nat, code: string)
    ensures TotalBytes(AfterBlock(assets, externalId, size, code)) <= TotalBytes(assets)
    ensures TotalBytes(AfterStage(assets, file, externalId)) <= TotalBytes(assets) + file.size
  {
    TotalAfterPut(assets, FindExternal(assets, externalId), BlockedRow(assets, externalId, size, code));
    TotalAfterPut(assets, RowFor(assets, file, externalId), StagedRow(assets, file, externalId));
  }

  /** A staged file is verified exactly when no verified row holds the same content at another path. */
  lemma StagedIsVerifiedIff(assets: seq<Asset>, file: File, externalId: string)
    ensures var after, i := AfterStage(assets, file, externalId), RowFor(assets, file, externalId);
            && (after[i].status.Verified? <==>
                  forall a :: a in assets && a.status.Verified? && a.sha == file.sha ==> a.path == file.path)
            && (!after[i].status.Verified? ==> after[i].status.Blocked? && after[i].duplicateOf.Some?)
  {
  }

  /**
   * The row that is being restaged takes part in the search: the same external asset with the same
   * content at a new path is a duplicate of itself, and if its row was the only verified one with
   * that content, none is left.
   */
  lemma RestagingElsewhereLosesContent(assets: seq<Asset>, file: File, externalId: string)
    requires Sound(assets) && externalId != ""
    requires var i := FindExternal(assets, externalId);
             i < |assets| && assets[i].status.Verified? && assets[i].sha == file.sha && assets[i].path != file.path
             && forall k :: 0 <= k < |assets| && k != i && assets[k].status.Verified? ==> assets[k].sha != file.sha
    ensures var i, after := FindExternal(assets, externalId), AfterStage(assets, file, externalId);
            && after[i].status.Blocked? && after[i].duplicateOf == Some(i)
            && forall a :: a in after && a.status.Verified? ==> a.sha != file.sha
  {
  }
}
