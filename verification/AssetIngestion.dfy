/**
 * Ingesting a job's remote attachments (control/services/agentgigs_assets.py, lines 123-248): one
 * pass over the references under a byte budget, each one ingested, found to exist, blocked or failed.
 *
 * Downloads and the file system are oracles. A download larger than the limit it was given fails,
 * as the downloader's own check makes it; the file that was written is the file that is staged.
 */
module AssetIngestion {
  import opened Prelude
  import opened JobAssets

  datatype Ref = Ref(externalId: string, name: string, size: nat, semanticRole: string)

  /** What a download yields, and whether the content checks accept the file. */
  datatype Fetch = NotFetched | Fetched(size: nat, sha: string, acceptable: bool)

  /**
   * The world as one reference meets it: the size of the file at the row's path if there is one,
   * whether the name is supported, the target path and whether it is inside the root.
   */
  datatype World = World(present: Option<nat>, supported: bool, target: string, inside: bool, fetch: Fetch)

  datatype Setup = Setup(limits: Limits, sourceBytes: int, roles: map<string, string>, valid: set<string>)

  function Checked(role: string, setup: Setup): Result<string, string> {
    if role in setup.valid then Ok(role) else Err("ASSET_ROLE_NOT_APPROVED")
  }

  function RoleOf(ref: Ref, refs: nat, setup: Setup): Result<string, string> {
    if ref.semanticRole != "" then Checked(ref.semanticRole, setup)
    else if ref.externalId in setup.roles then Checked(setup.roles[ref.externalId], setup)
    else if ref.name in setup.roles then Checked(setup.roles[ref.name], setup)
    else if refs == 1 then Ok("source")
    else Err("ASSET_ROLE_AMBIGUOUS")
  }

  datatype Tally = Tally(ingested: nat, existing: nat, blocked: nat, failed: nat)

  /** The rows, the byte counter of the loop, the tally, and whether an exception left the loop. */
  datatype Progress = Progress(assets: seq<Asset>, current: int, tally: Tally, raised: bool)

  function Blocking(p: Progress, ref: Ref, code: string): Progress {
    p.(assets := AfterBlock(p.assets, ref.externalId, ref.size, code),
       tally := p.tally.(blocked := p.tally.blocked + 1))
  }

  function Failing(p: Progress, ref: Ref): Progress {
    p.(assets := AfterBlock(p.assets, ref.externalId, ref.size, "SOURCE_DOWNLOAD_FAILED"),
       tally := p.tally.(failed := p.tally.failed + 1))
  }

  predicate AlreadyThere(p: Progress, ref: Ref, w: World) {
    var i := FindExternal(p.assets, ref.externalId);
    && i < |p.assets| && p.assets[i].status.Verified? && p.assets[i].path != ""
    && w.present.Some? && (ref.size == 0 || w.present.value == ref.size)
  }

  function Remaining(p: Progress, setup: Setup): int {
    AtLeastOne(setup.limits.totalBytes) - p.current
  }

  function Min(a: int, b: int): int { if a < b then a else b }

  function Downloaded(p: Progress, ref: Ref, w: World, role: string, setup: Setup): Progress {
    if !w.inside || w.fetch.NotFetched? || w.fetch.size > Min(AtLeastOne(setup.sourceBytes), Remaining(p, setup)) then
      Failing(p, ref)
    else if ref.size != 0 && w.fetch.size != ref.size then Blocking(p, ref, "SOURCE_SIZE_MISMATCH")
    else
      var file := File(w.target, w.fetch.sha, w.fetch.size, role, w.fetch.acceptable);
      if !Stageable(file, setup.limits) then p.(raised := true)
      else
        Progress(AfterStage(p.assets, file, ref.externalId), p.current + w.fetch.size,
                 p.tally.(ingested := p.tally.ingested + 1), false)
  }

  /** The loop body. */
  function Visit(p: Progress, ref: Ref, refs: nat, w: World, setup: Setup): Progress {
    if p.raised then p
    else
      var role := RoleOf(ref, refs, setup);
      if role.Err? then Blocking(p, ref, role.error)
      else if AlreadyThere(p, ref, w) then p.(tally := p.tally.(existing := p.tally.existing + 1))
      else if !w.supported then Blocking(p, ref, "UNSUPPORTED_SOURCE_FILE_TYPE")
      else if ref.size > AtLeastOne(setup.sourceBytes) then Blocking(p, ref, "SOURCE_FILE_TOO_LARGE")
      else if Remaining(p, setup) <= 0 || (ref.size != 0 && ref.size > Remaining(p, setup)) then
        Blocking(p, ref, "ASSET_TOTAL_BYTES_LIMIT")
      else Downloaded(p, ref, w, role.value, setup)
  }

  /**
   * The role of a reference: its own, or that configured for its identifier, or for its name, if approved;
   * else a single reference is the source, and several are ambiguous.
   */
  lemma RoleSays(ref: Ref, refs: nat, setup: Setup)
    ensures var configured := ref.externalId in setup.roles || ref.name in setup.roles;
            var role := if |ref.semanticRole| > 0 then ref.semanticRole
                        else if ref.externalId in setup.roles then setup.roles[ref.externalId]
                        else if ref.name in setup.roles then setup.roles[ref.name] else "";
            if |ref.semanticRole| > 0 || configured
            then RoleOf(ref, refs, setup) == if role in setup.valid then Ok(role) else Err("ASSET_ROLE_NOT_APPROVED")
            else RoleOf(ref, refs, setup) == if refs == 1 then Ok("source") else Err("ASSET_ROLE_AMBIGUOUS")
  {
  }

  /** When a reference is already there: its row is verified and its file is present, of the declared size if one is. */
  lemma AlreadyThereIff(p: Progress, ref: Ref, w: World)
    ensures AlreadyThere(p, ref, w) <==>
              && w.present.Some? && (ref.size > 0 ==> w.present.value == ref.size)
              && exists i :: 0 <= i < |p.assets| && p.assets[i].externalId == ref.externalId
                   && (forall k :: 0 <= k < i ==> p.assets[k].externalId != ref.externalId)
                   && p.assets[i].status == Verified && |p.assets[i].path| > 0
  {
    var i := FindExternal(p.assets, ref.externalId);
    if i < |p.assets| && |p.assets[i].path| == 0 { assert p.assets[i].path == ""; }
    hide FindExternal;
  }

  /** How one reference ends, case by case, and what it leaves in the rows. */
  lemma VisitSays(p: Progress, ref: Ref, refs: nat, w: World, setup: Setup)
    requires !p.raised
    ensures var q, role := Visit(p, ref, refs, w, setup), RoleOf(ref, refs, setup);
            var budget := Remaining(p, setup);
            var blocked := (code: string) =>
              q == p.(assets := AfterBlock(p.assets, ref.externalId, ref.size, code),
                      tally := p.tally.(blocked := p.tally.blocked + 1));
            if role.Err? then blocked(role.error)
            else if AlreadyThere(p, ref, w) then q == p.(tally := p.tally.(existing := p.tally.existing + 1))
            else if !w.supported then blocked("UNSUPPORTED_SOURCE_FILE_TYPE")
            else if ref.size > 1 && ref.size > setup.sourceBytes then blocked("SOURCE_FILE_TOO_LARGE")
            else if budget <= 0 || ref.size > budget then blocked("ASSET_TOTAL_BYTES_LIMIT")
            else if !w.inside || w.fetch == NotFetched || w.fetch.size > budget
                    || (w.fetch.size > 1 && w.fetch.size > setup.sourceBytes) then
              q == p.(assets := AfterBlock(p.assets, ref.externalId, ref.size, "SOURCE_DOWNLOAD_FAILED"),
                      tally := p.tally.(failed := p.tally.failed + 1))
            else if ref.size > 0 && w.fetch.size != ref.size then blocked("SOURCE_SIZE_MISMATCH")
            else if !w.fetch.acceptable || (w.fetch.size > 1 && w.fetch.size > setup.limits.fileBytes) then
              q == p.(raised := true)
            else
              && q.tally == p.tally.(ingested := p.tally.ingested + 1)
              && q.current == p.current + w.fetch.size && !q.raised
              && var file := File(w.target, w.fetch.sha, w.fetch.size, role.value, true);
                 q.assets == AfterStage(p.assets, file, ref.externalId)
  {
    hide AfterBlock, AfterStage, RoleOf, AlreadyThere;
  }

  /** After the first `n` references. */
  function Visited(p: Progress, refs: seq<Ref>, n: nat, worlds: nat -> World, setup: Setup): Progress
    requires n <= |refs|
  {
    if n == 0 then p else Visit(Visited(p, refs, n - 1, worlds, setup), refs[n - 1], |refs|, worlds(n - 1), setup)
  }

  function AllBlocked(assets: seq<Asset>, refs: seq<Ref>, n: nat, code: string): seq<Asset>
    requires n <= |refs|
  {
    if n == 0 then assets
    else AfterBlock(AllBlocked(assets, refs, n - 1, code), refs[n - 1].externalId, refs[n - 1].size, code)
  }

  function DeclaredBytes(refs: seq<Ref>): nat {
    if refs == [] then 0 else DeclaredBytes(refs[..|refs| - 1]) + refs[|refs| - 1].size
  }

  /** Why every reference is blocked before the loop, if so. */
  function Refusal(refs: seq<Ref>, setup: Setup): Option<string> {
    if |refs| > AtLeastOne(setup.limits.files) then Some("ASSET_FILE_COUNT_LIMIT")
    else if DeclaredBytes(refs) > AtLeastOne(setup.limits.totalBytes) then Some("ASSET_TOTAL_BYTES_LIMIT")
    else None
  }

  function Ingested(assets: seq<Asset>, refs: seq<Ref>, worlds: nat -> World, setup: Setup): Progress {
    var refusal := Refusal(refs, setup);
    if refusal.Some? then
      Progress(AllBlocked(assets, refs, |refs|, refusal.value), TotalBytes(assets), Tally(0, 0, |refs|, 0), false)
    else Visited(Progress(assets, TotalBytes(assets), Tally(0, 0, 0, 0), false), refs, |refs|, worlds, setup)
  }

  lemma DeclaredBytesAdd(refs: seq<Ref>, ref: Ref)
    ensures DeclaredBytes([]) == 0 && DeclaredBytes(refs + [ref]) == DeclaredBytes(refs) + ref.size
  {
    assert (refs + [ref])[..|refs|] == refs;
  }

  /** A batch is refused as a whole exactly for too many references or too many declared bytes. */
  lemma RefusalSays(refs: seq<Ref>, setup: Setup)
    ensures var many := |refs| > 1 && |refs| > setup.limits.files;
            var large := DeclaredBytes(refs) > 1 && DeclaredBytes(refs) > setup.limits.totalBytes;
            && (many ==> Refusal(refs, setup) == Some("ASSET_FILE_COUNT_LIMIT"))
            && (!many && large ==> Refusal(refs, setup) == Some("ASSET_TOTAL_BYTES_LIMIT"))
            && (!many && !large ==> Refusal(refs, setup) == None)
  {
    hide DeclaredBytes;
  }

  /** Then every reference gets a blocked row with the reason, no other row changes, and nothing is ingested. */
  lemma {:induction false} RefusedBatchIsBlocked(assets: seq<Asset>, refs: seq<Ref>, n: nat, code: string)
    requires n <= |refs|
    ensures var after := AllBlocked(assets, refs, n, code);
            && |assets| <= |after|
            && (forall k :: 0 <= k < |assets| ==>
                  after[k] == assets[k] || exists i :: 0 <= i < n && refs[i].externalId == assets[k].externalId)
            && (forall k :: 0 <= k < |assets| ==> after[k].externalId == assets[k].externalId)
            && forall i :: 0 <= i < n ==>
                 exists k :: 0 <= k < |after| && after[k].externalId == refs[i].externalId
                             && after[k].status == Blocked && after[k].reasons == [code]
  {
    if n > 0 {
      var before, ref := AllBlocked(assets, refs, n - 1, code), refs[n - 1];
      RefusedBatchIsBlocked(assets, refs, n - 1, code);
      BlockedRowSays(before, ref.externalId, ref.size, code);
      hide AfterBlock, AllBlocked, FindExternal;
      var after, at := AfterBlock(before, ref.externalId, ref.size, code), FindExternal(before, ref.externalId);
      forall i | 0 <= i < n
        ensures exists k :: 0 <= k < |after| && after[k].externalId == refs[i].externalId
                            && after[k].status == Blocked && after[k].reasons == [code]
      {
        if i == n - 1 || refs[i].externalId == ref.externalId {
          assert after[at].status == Blocked;
        } else {
          var k :| 0 <= k < |before| && before[k].externalId == refs[i].externalId
                   && before[k].status == Blocked && before[k].reasons == [code];
          assert after[k] == before[k];
        }
      }
      assert AllBlocked(assets, refs, n, code) == after by { AllBlockedStep(assets, refs, n, code); }
    }
  }

  lemma AllBlockedStep(assets: seq<Asset>, refs: seq<Ref>, n: nat, code: string)
    requires 0 < n <= |refs|
    ensures AllBlocked(assets, refs, n, code)
         == AfterBlock(AllBlocked(assets, refs, n - 1, code), refs[n - 1].externalId, refs[n - 1].size, code)
  {
  }

  /** The whole call, by cases. */
  lemma IngestedSays(assets: seq<Asset>, refs: seq<Ref>, worlds: nat -> World, setup: Setup)
    ensures var p, refusal := Ingested(assets, refs, worlds, setup), Refusal(refs, setup);
            if refusal.Some?
            then
              && p.assets == AllBlocked(assets, refs, |refs|, refusal.value)
              && p.tally == Tally(0, 0, |refs|, 0) && !p.raised
            else
              var start := Progress(assets, TotalBytes(assets), Tally(0, 0, 0, 0), false);
              p == Visited(start, refs, |refs|, worlds, setup)
  {
  }

  class Ingestor {
    const desk: AssetDesk

    constructor (desk: AssetDesk)
      ensures this.desk == desk
    {
      this.desk := desk;
    }

    method SumDeclared(refs: seq<Ref>) returns (total: nat)
      ensures total == DeclaredBytes(refs)
    {
      total := 0;
      for i := 0 to |refs|
        invariant total == DeclaredBytes(refs[..i])
      {
        assert refs[..i + 1][..i] == refs[..i];
        total := total + refs[i].size;
      }
      assert refs[..|refs|] == refs;
    }

    method BlockAll(refs: seq<Ref>, code: string)
      modifies desk`assets, desk`manifest
      ensures desk.assets == AllBlocked(old(desk.assets), refs, |refs|, code)
      ensures old(desk.Fresh()) ==> desk.Fresh()
    {
      hide AfterBlock, Rebuilt;
      for i := 0 to |refs|
        invariant desk.assets == AllBlocked(old(desk.assets), refs, i, code)
        invariant old(desk.Fresh()) ==> desk.Fresh()
      {
        desk.BlockAsset(refs[i].externalId, refs[i].size, code);
      }
    }

    /** One download attempt: its effect on the counters; `raised` means the exception is not caught. */
    method Download(ref: Ref, w: World, role: string, ghost p: Progress, remaining: int, setup: Setup)
      returns (bytes: nat, ingested: bool, blocked: bool, failed: bool, raised: bool)
      requires desk.limits == setup.limits && p.assets == desk.assets && !p.raised && remaining == Remaining(p, setup)
      modifies desk
      ensures var q := Downloaded(p, ref, w, role, setup);
              && q.assets == desk.assets && q.raised == raised && q.current == p.current + bytes
              && q.tally == Tally(p.tally.ingested + (if ingested then 1 else 0), p.tally.existing,
                                  p.tally.blocked + (if blocked then 1 else 0),
                                  p.tally.failed + (if failed then 1 else 0))
      ensures desk.plan == if ingested then InputsChanged(old(desk.plan)) else old(desk.plan)
      ensures old(desk.Fresh()) ==> desk.Fresh()
    {
      hide AfterBlock, AfterStage, Rebuilt, Stageable;
      bytes, ingested, blocked, failed, raised := 0, false, false, false, false;
      if !w.inside || w.fetch.NotFetched? || w.fetch.size > Min(AtLeastOne(setup.sourceBytes), remaining) {
        desk.BlockAsset(ref.externalId, ref.size, "SOURCE_DOWNLOAD_FAILED");
        failed := true;
        return;
      }
      if ref.size != 0 && w.fetch.size != ref.size {
        desk.BlockAsset(ref.externalId, ref.size, "SOURCE_SIZE_MISMATCH");
        blocked := true;
        return;
      }
      var row := desk.StageLocalAsset(File(w.target, w.fetch.sha, w.fetch.size, role, w.fetch.acceptable),
                                      ref.externalId);
      if row.None? {
        raised := true;
        return;
      }
      bytes, ingested := w.fetch.size, true;
    }

    /** None when an exception leaves the loop. The manifest stays that of the rows either way. */
    method Ingest(refs: seq<Ref>, worlds: nat -> World, setup: Setup) returns (r: Option<Tally>)
      requires desk.limits == setup.limits
      modifies desk
      ensures var p := Ingested(old(desk.assets), refs, worlds, setup);
              && desk.assets == p.assets && r == (if p.raised then None else Some(p.tally))
              && desk.plan == if p.tally.ingested > 0 then InputsChanged(old(desk.plan)) else old(desk.plan)
      ensures old(desk.Fresh()) ==> desk.Fresh()
    {
      hide Visit, AfterBlock, Rebuilt, TotalBytes, AllBlocked, DeclaredBytes;
      if |refs| > AtLeastOne(setup.limits.files) {
        BlockAll(refs, "ASSET_FILE_COUNT_LIMIT");
        return Some(Tally(0, 0, |refs|, 0));
      }
      var declared := SumDeclared(refs);
      if declared > AtLeastOne(setup.limits.totalBytes) {
        BlockAll(refs, "ASSET_TOTAL_BYTES_LIMIT");
        return Some(Tally(0, 0, |refs|, 0));
      }
      var tally := Tally(0, 0, 0, 0);
      var current: int := TotalBytes(desk.assets);
      ghost var start := Progress(desk.assets, current, tally, false);
      for i := 0 to |refs|
        invariant Visited(start, refs, i, worlds, setup) == Progress(desk.assets, current, tally, false)
        invariant desk.plan == if tally.ingested > 0 then InputsChanged(old(desk.plan)) else old(desk.plan)
        invariant old(desk.Fresh()) ==> desk.Fresh()
      {
        ghost var p := Progress(desk.assets, current, tally, false);
        var raised;
        current, tally, raised := VisitOne(p, refs[i], |refs|, worlds(i), current, tally, setup);
        if raised {
          RaisedStays(start, refs, i + 1, worlds, setup);
          return None;
        }
      }
      r := Some(tally);
    }

    method VisitOne(ghost p: Progress, ref: Ref, refs: nat, w: World, current: int, tally: Tally, setup: Setup)
      returns (current': int, tally': Tally, raised: bool)
      requires desk.limits == setup.limits && p == Progress(desk.assets, current, tally, false)
      modifies desk
      ensures Visit(p, ref, refs, w, setup) == Progress(desk.assets, current', tally', raised)
      ensures tally'.ingested >= tally.ingested
      ensures desk.plan == if tally'.ingested > tally.ingested then InputsChanged(old(desk.plan)) else old(desk.plan)
      ensures old(desk.Fresh()) ==> desk.Fresh()
    {
      hide AfterBlock, AfterStage, Rebuilt, Downloaded;
      current', tally', raised := current, tally, false;
      var role := RoleOf(ref, refs, setup);
      if role.Err? {
        desk.BlockAsset(ref.externalId, ref.size, role.error);
        tally' := tally.(blocked := tally.blocked + 1);
        return;
      }
      var i := FindExternal(desk.assets, ref.externalId);
      if i < |desk.assets| && desk.assets[i].status == Verified && desk.assets[i].path != "" {
        if w.present.Some? && (ref.size == 0 || w.present.value == ref.size) {
          tally' := tally.(existing := tally.existing + 1);
          return;
        }
      }
      var remaining := AtLeastOne(setup.limits.totalBytes) - current;
      var code := "";
      if !w.supported {
        code := "UNSUPPORTED_SOURCE_FILE_TYPE";
      } else if ref.size > AtLeastOne(setup.sourceBytes) {
        code := "SOURCE_FILE_TOO_LARGE";
      } else if remaining <= 0 || (ref.size != 0 && ref.size > remaining) {
        code := "ASSET_TOTAL_BYTES_LIMIT";
      }
      if code != "" {
        desk.BlockAsset(ref.externalId, ref.size, code);
        tally' := tally.(blocked := tally.blocked + 1);
        return;
      }
      var bytes, ingested, blocked, failed, stopped := Download(ref, w, role.value, p, remaining, setup);
      current', raised := current + bytes, stopped;
      tally' := Tally(tally.ingested + (if ingested then 1 else 0), tally.existing,
                      tally.blocked + (if blocked then 1 else 0), tally.failed + (if failed then 1 else 0));
    }
  }

  lemma {:induction false} RaisedStays(p: Progress, refs: seq<Ref>, n: nat, worlds: nat -> World, setup: Setup)
    requires n <= |refs| && Visited(p, refs, n, worlds, setup).raised
    ensures Visited(p, refs, |refs|, worlds, setup) == Visited(p, refs, n, worlds, setup)
    decreases |refs| - n
  {
    if n < |refs| { RaisedStays(p, refs, n + 1, worlds, setup); }
  }

  // ---------------------------------------------------------------- conservation and quota

  function Sum(t: Tally): nat {
    t.ingested + t.existing + t.blocked + t.failed
  }

  /** The loop counter never underestimates the counted bytes, and neither passes the larger of limit and start. */
  ghost predicate Budgeted(p: Progress, most: int) {
    TotalBytes(p.assets) <= p.current <= most
  }

  /** One more reference is counted, and what was sound and budgeted stays so. */
  ghost predicate Advances(p: Progress, q: Progress, most: int) {
    && Sound(q.assets) && Budgeted(q, most)
    && (!q.raised ==> !p.raised && Sum(q.tally) == Sum(p.tally) + 1)
  }

  lemma BlockingAdvances(p: Progress, ref: Ref, code: string, most: int)
    requires Sound(p.assets) && Budgeted(p, most) && !p.raised
    ensures Advances(p, Blocking(p, ref, code), most)
  {
    hide AfterBlock, Sound, TotalBytes;
    BlockKeepsSound(p.assets, ref.externalId, ref.size, code);
    BlockingBytes(p.assets, ref, code);
  }

  lemma DownloadedAdvances(p: Progress, ref: Ref, w: World, role: string, setup: Setup, most: int)
    requires Sound(p.assets) && Budgeted(p, most) && !p.raised && most >= AtLeastOne(setup.limits.totalBytes)
    ensures Advances(p, Downloaded(p, ref, w, role, setup), most)
              || Downloaded(p, ref, w, role, setup) == p.(raised := true)
  {
    hide AfterBlock, AfterStage, Sound, TotalBytes, Stageable;
    BlockingAdvances(p, ref, "SOURCE_SIZE_MISMATCH", most);
    BlockKeepsSound(p.assets, ref.externalId, ref.size, "SOURCE_DOWNLOAD_FAILED");
    BlockingBytes(p.assets, ref, "SOURCE_DOWNLOAD_FAILED");
    if w.fetch.Fetched? {
      var file := File(w.target, w.fetch.sha, w.fetch.size, role, w.fetch.acceptable);
      StageKeepsSound(p.assets, file, ref.externalId);
      BytesAfterOperations(p.assets, file, ref.externalId, 0, "");
    }
  }

  lemma VisitKeeps(p: Progress, ref: Ref, refs: nat, w: World, setup: Setup, most: int)
    requires Sound(p.assets) && Budgeted(p, most) && most >= AtLeastOne(setup.limits.totalBytes)
    ensures var q := Visit(p, ref, refs, w, setup);
            && Sound(q.assets) && Budgeted(q, most)
            && (!q.raised ==> !p.raised && Sum(q.tally) == Sum(p.tally) + 1)
  {
    hide Blocking, Downloaded, TotalBytes, Sound, RoleOf, FindExternal;
    if !p.raised {
      var role := RoleOf(ref, refs, setup);
      if role.Err? {
        BlockingAdvances(p, ref, role.error, most);
      } else {
        BlockingAdvances(p, ref, "UNSUPPORTED_SOURCE_FILE_TYPE", most);
        BlockingAdvances(p, ref, "SOURCE_FILE_TOO_LARGE", most);
        BlockingAdvances(p, ref, "ASSET_TOTAL_BYTES_LIMIT", most);
        DownloadedAdvances(p, ref, w, role.value, setup, most);
      }
    }
  }

  lemma BlockingBytes(assets: seq<Asset>, ref: Ref, code: string)
    ensures TotalBytes(AfterBlock(assets, ref.externalId, ref.size, code)) <= TotalBytes(assets)
  {
    BytesAfterOperations(assets, File("", "", 0, "", true), ref.externalId, ref.size, code);
  }

  lemma {:induction false} VisitedKeeps(p: Progress, refs: seq<Ref>, n: nat, worlds: nat -> World, setup: Setup,
                                        most: int)
    requires Sound(p.assets) && Budgeted(p, most) && most >= AtLeastOne(setup.limits.totalBytes) && n <= |refs|
    ensures var q := Visited(p, refs, n, worlds, setup);
            Sound(q.assets) && Budgeted(q, most) && (!q.raised ==> !p.raised && Sum(q.tally) == Sum(p.tally) + n)
  {
    hide Sound, Budgeted, Visit;
    if n > 0 {
      VisitedKeeps(p, refs, n - 1, worlds, setup, most);
      VisitKeeps(Visited(p, refs, n - 1, worlds, setup), refs[n - 1], |refs|, worlds(n - 1), setup, most);
    }
  }

  lemma {:induction false} AllBlockedKeeps(assets: seq<Asset>, refs: seq<Ref>, n: nat, code: string)
    requires Sound(assets) && n <= |refs|
    ensures Sound(AllBlocked(assets, refs, n, code))
              && TotalBytes(AllBlocked(assets, refs, n, code)) <= TotalBytes(assets)
  {
    hide Sound, TotalBytes, AfterBlock;
    if n > 0 {
      var before := AllBlocked(assets, refs, n - 1, code);
      AllBlockedKeeps(assets, refs, n - 1, code);
      BlockKeepsSound(before, refs[n - 1].externalId, refs[n - 1].size, code);
      BlockingBytes(before, refs[n - 1], code);
    }
  }

  /** On every normal return each reference was ingested, existing, blocked or failed, and counted once. */
  lemma EveryReferenceIsCounted(assets: seq<Asset>, refs: seq<Ref>, worlds: nat -> World, setup: Setup)
    requires Sound(assets)
    ensures var p := Ingested(assets, refs, worlds, setup); !p.raised ==> |refs| == Sum(p.tally)
  {
    var limit := AtLeastOne(setup.limits.totalBytes);
    var most := if TotalBytes(assets) > limit then TotalBytes(assets) else limit;
    VisitedKeeps(Progress(assets, TotalBytes(assets), Tally(0, 0, 0, 0), false), refs, |refs|, worlds, setup, most);
  }

  /**
   * After every reference, even when an exception cuts the loop short: counted bytes within the
   * limit stay within it, and above it they do not grow; verified rows with the same content have
   * the same path.
   */
  lemma BytesStayWithinLimit(assets: seq<Asset>, refs: seq<Ref>, n: nat, worlds: nat -> World, setup: Setup)
    requires Sound(assets) && n <= |refs|
    ensures var p := Visited(Progress(assets, TotalBytes(assets), Tally(0, 0, 0, 0), false), refs, n, worlds, setup);
            var limit := AtLeastOne(setup.limits.totalBytes);
            && (TotalBytes(assets) <= limit ==> TotalBytes(p.assets) <= limit)
            && (TotalBytes(assets) > limit ==> TotalBytes(p.assets) <= TotalBytes(assets))
            && Sound(p.assets)
  {
    var limit := AtLeastOne(setup.limits.totalBytes);
    var most := if TotalBytes(assets) > limit then TotalBytes(assets) else limit;
    VisitedKeeps(Progress(assets, TotalBytes(assets), Tally(0, 0, 0, 0), false), refs, n, worlds, setup, most);
  }

  /** The whole call, the refused batches included. */
  lemma IngestionKeepsQuota(assets: seq<Asset>, refs: seq<Ref>, worlds: nat -> World, setup: Setup)
    requires Sound(assets) && TotalBytes(assets) <= AtLeastOne(setup.limits.totalBytes)
    ensures var p := Ingested(assets, refs, worlds, setup);
            Sound(p.assets) && TotalBytes(p.assets) <= AtLeastOne(setup.limits.totalBytes)
  {
    BytesStayWithinLimit(assets, refs, |refs|, worlds, setup);
    var refusal := Refusal(refs, setup);
    if refusal.Some? { AllBlockedKeeps(assets, refs, |refs|, refusal.value); }
  }

  /** The exception that is not caught: a file that was downloaded as declared but is refused by the content checks. */
  lemma RefusedFileAbortsIngestion(p: Progress, ref: Ref, refs: nat, w: World, setup: Setup)
    requires !p.raised
    ensures var q := Visit(p, ref, refs, w, setup);
            q.raised <==>
              && RoleOf(ref, refs, setup).Ok? && !AlreadyThere(p, ref, w) && w.supported && w.inside
              && ref.size <= AtLeastOne(setup.sourceBytes) && ref.size <= Remaining(p, setup) && Remaining(p, setup) > 0
              && w.fetch.Fetched? && w.fetch.size <= Min(AtLeastOne(setup.sourceBytes), Remaining(p, setup))
              && (ref.size == 0 || w.fetch.size == ref.size)
              && (!w.fetch.acceptable || w.fetch.size > AtLeastOne(setup.limits.fileBytes))
  {
  }
}
