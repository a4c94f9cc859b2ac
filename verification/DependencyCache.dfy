/**
 * The dependency-volume cache (sandbox_broker/server.py, lines 75-86, 128-208 and 231-245): a
 * bounded number of immutable volumes under a byte quota, prepared one at a time under a lock.
 *
 * Docker is an oracle: every command may fail, and what the preparation container writes is
 * observed by polling. Volumes are listed in creation order.
 */
module DependencyCache {
  import opened Prelude

  datatype Volume = Volume(name: string, files: nat, size: nat, ready: bool, createdAt: int)

  /** The environment's values, before clamping. */
  datatype Settings = Settings(cacheBytes: int, cacheFiles: int, cacheVolumes: int, totalBytes: int)

  datatype Limits = Limits(bytes: nat, files: nat, volumes: nat, quota: nat)

  function Clamp(low: nat, n: int, high: nat): (r: nat)
    ensures low <= high ==> low <= r <= high
  {
    var capped := if n < high then n else high;
    if capped > low then capped else low
  }

  function LimitsOf(s: Settings): (l: Limits)
    ensures 1 <= l.volumes <= 100 && l.bytes <= l.quota && 100 <= l.files
  {
    var bytes := Clamp(1048576, s.cacheBytes, 2147483648);
    Limits(bytes, Clamp(100, s.cacheFiles, 200000), Clamp(1, s.cacheVolumes, 100),
           if s.totalBytes > bytes then s.totalBytes else bytes)
  }

  function Total(volumes: seq<Volume>): (n: nat) {
    if volumes == [] then 0 else Total(volumes[..|volumes| - 1]) + volumes[|volumes| - 1].size
  }

  function Names(volumes: seq<Volume>): set<string> {
    set i | 0 <= i < |volumes| :: volumes[i].name
  }

  function Without(volumes: seq<Volume>, name: string): seq<Volume> {
    if volumes == [] then []
    else
      var last := volumes[|volumes| - 1];
      Without(volumes[..|volumes| - 1], name) + if last.name == name then [] else [last]
  }

  /** The first position with this name, or the length. */
  function Find(volumes: seq<Volume>, name: string): (i: nat)
    ensures i <= |volumes| && (i < |volumes| ==> volumes[i].name == name)
    ensures forall k :: 0 <= k < i ==> volumes[k].name != name
    ensures name in Names(volumes) <==> i < |volumes|
  {
    if volumes == [] then 0
    else if volumes[0].name == name then 0
    else
      assert forall k :: 1 <= k < |volumes| ==> volumes[k] == volumes[1..][k - 1];
      1 + Find(volumes[1..], name)
  }

  predicate Usable(v: Volume, l: Limits) {
    v.ready && v.files <= l.files && v.size <= l.bytes
  }

  /** The limits that settings amount to. */
  lemma LimitsAre(s: Settings)
    ensures var l := LimitsOf(s);
            && (if s.cacheBytes < 1048576 then l.bytes == 1048576
                else if s.cacheBytes > 2147483648 then l.bytes == 2147483648 else l.bytes == s.cacheBytes)
            && (if s.cacheFiles < 100 then l.files == 100
                else if s.cacheFiles > 200000 then l.files == 200000 else l.files == s.cacheFiles)
            && (if s.cacheVolumes < 1 then l.volumes == 1
                else if s.cacheVolumes > 100 then l.volumes == 100 else l.volumes == s.cacheVolumes)
            && (if s.totalBytes < l.bytes then l.quota == l.bytes else l.quota == s.totalBytes)
  {
  }

  datatype Container = Gone | Running | Exited(ok: bool)

  /** `measured` says that the statistics of the volume could be read. */
  datatype Poll = Poll(container: Container, measured: bool, files: nat, size: nat, late: bool)

  datatype Stats = Stats(files: nat, size: nat, ready: bool)

  /** A creation that fails may have made the volume all the same, when only its answer was lost. */
  datatype Creation = Made | Refused | Unanswered

  /**
   * How Docker behaves during one call: which commands succeed, which volumes' statistics can be
   * read, what is observed. An inspection that fails reads as an absent volume. `interrupted`: a
   * command before the creation ran into its time limit. `final` is what the volume holds in the
   * end, measured or not.
   */
  datatype Docker = Docker(inspects: bool, measures: string -> bool, removesStale: bool, lists: bool,
                           interrupted: bool, creation: Creation, starts: bool, polls: seq<Poll>,
                           final: Stats, measuresFinal: bool, removesFailed: bool, now: int)

  datatype BrokerError =
    | StatisticsInvalid | Interrupted | CapacityExhausted | CreateFailed | StartFailed
    | Disappeared | ExceedsBounds | PreparationFailed | TimedOut

  /** The polling loop from poll `i` on; a container that is never seen to end times out. */
  function Awaited(polls: seq<Poll>, i: nat, l: Limits): Option<BrokerError>
    requires i <= |polls|
    decreases |polls| - i
  {
    if i == |polls| then Some(TimedOut)
    else
      var p := polls[i];
      if p.container.Gone? then Some(Disappeared)
      else if !p.measured then Some(StatisticsInvalid)
      else if p.files > l.files || p.size > l.bytes then Some(ExceedsBounds)
      else if p.container.Exited? then if p.container.ok then None else Some(PreparationFailed)
      else if p.late then Some(TimedOut)
      else Awaited(polls, i + 1, l)
  }

  /** Why filling the new volume fails, if it does. */
  function FillError(d: Docker, l: Limits): Option<BrokerError> {
    if !d.starts then Some(StartFailed)
    else if Awaited(d.polls, 0, l).Some? then Awaited(d.polls, 0, l)
    else if !d.measuresFinal then Some(StatisticsInvalid)
    else if !d.final.ready || d.final.files > l.files || d.final.size > l.bytes then Some(ExceedsBounds)
    else None
  }

  function Filled(v: Volume, s: Stats): Volume {
    v.(files := s.files, size := s.size, ready := s.ready)
  }

  datatype Prepared = Prepared(volumes: seq<Volume>, result: Result<bool, BrokerError>)

  /** The volumes that count against the limits: those Docker lists. */
  function Listed(volumes: seq<Volume>, d: Docker): seq<Volume> {
    if d.lists then volumes else []
  }

  function FirstHundred(volumes: seq<Volume>): seq<Volume> {
    volumes[..if |volumes| < 100 then |volumes| else 100]
  }

  /** The statistics of every volume that is summed up can be read. */
  predicate Measured(listed: seq<Volume>, d: Docker) {
    forall i | 0 <= i < |FirstHundred(listed)| :: d.measures(FirstHundred(listed)[i].name)
  }

  predicate HasRoom(listed: seq<Volume>, l: Limits) {
    |listed| < l.volumes && Total(FirstHundred(listed)) + l.bytes <= l.quota
  }

  function Created(volumes: seq<Volume>, name: string, now: int): (r: seq<Volume>)
    ensures name in Names(r)
  {
    if name in Names(volumes) then volumes
    else
      var r := volumes + [Volume(name, 0, 0, false, now)];
      assert r[|volumes|].name == name;
      r
  }

  /** Where the call sees the volume, or the length. */
  function Seen(volumes: seq<Volume>, name: string, d: Docker): (at: nat)
    ensures at <= |volumes|
    ensures at < |volumes| <==> d.inspects && name in Names(volumes)
    ensures at < |volumes| ==> volumes[at].name == name
  {
    if d.inspects then Find(volumes, name) else |volumes|
  }

  /** Ok(true) is a cache hit. A volume that exists unseen is created to no effect and filled again. */
  function Prepare(volumes: seq<Volume>, name: string, l: Limits, d: Docker): Prepared {
    var at := Seen(volumes, name, d);
    if at < |volumes| && !d.measures(name) then Prepared(volumes, Err(StatisticsInvalid))
    else if at < |volumes| && Usable(volumes[at], l) then Prepared(volumes, Ok(true))
    else
      var before := if at < |volumes| && d.removesStale then Without(volumes, name) else volumes;
      if d.interrupted then Prepared(before, Err(Interrupted))
      else if !Measured(Listed(before, d), d) then Prepared(before, Err(StatisticsInvalid))
      else if !HasRoom(Listed(before, d), l) then Prepared(before, Err(CapacityExhausted))
      else if d.creation.Refused? then Prepared(before, Err(CreateFailed))
      else if d.creation.Unanswered? then Prepared(Created(before, name, d.now), Err(CreateFailed))
      else
        var created := Created(before, name, d.now);
        var i := Find(created, name);
        var filled := created[i := Filled(created[i], d.final)];
        var error := FillError(d, l);
        if error.None? then Prepared(filled, Ok(false))
        else Prepared(if d.removesFailed then Without(filled, name) else filled, Err(error.value))
  }

  /** Old volumes go if Docker lets them: a volume in use stays. */
  function CleanedUp(volumes: seq<Volume>, now: int, retention: int, removable: string -> bool): seq<Volume> {
    if volumes == [] then []
    else
      var last := volumes[|volumes| - 1];
      CleanedUp(volumes[..|volumes| - 1], now, retention, removable)
      + if |volumes| <= 1000 && now - last.createdAt >= retention && removable(last.name) then [] else [last]
  }

  /**
   * How a call ends, step by step: with a hit on a volume that is seen and usable, and otherwise at the
   * first step that fails. A volume that is seen and not usable makes room first, if Docker removes it.
   */
  lemma PrepareSays(volumes: seq<Volume>, name: string, l: Limits, d: Docker)
    ensures var p := Prepare(volumes, name, l, d);
            var seen := d.inspects && name in Names(volumes);
            var usable := seen && Usable(volumes[Find(volumes, name)], l);
            var others := if seen && d.removesStale then Without(volumes, name) else volumes;
            var counted := if d.lists then others else [];
            var summed := if |counted| <= 100 then counted else counted[..100];
            var measured := forall v :: v in summed ==> d.measures(v.name);
            if seen && !d.measures(name) then p == Prepared(volumes, Err(StatisticsInvalid))
            else if usable then p == Prepared(volumes, Ok(true))
            else if d.interrupted then p == Prepared(others, Err(Interrupted))
            else if !measured then p == Prepared(others, Err(StatisticsInvalid))
            else if |counted| >= l.volumes || Total(summed) + l.bytes > l.quota
            then p == Prepared(others, Err(CapacityExhausted))
            else if d.creation == Refused then p == Prepared(others, Err(CreateFailed))
            else if d.creation == Unanswered then p == Prepared(Created(others, name, d.now), Err(CreateFailed))
            else (p.result == if FillError(d, l) == None then Ok(false) else Err(FillError(d, l).value))
  {
    hide Total, Without, Names, Usable, FillError, Created, Filled;
    var at := Seen(volumes, name, d);
    var before := if at < |volumes| && d.removesStale then Without(volumes, name) else volumes;
    var summed := FirstHundred(Listed(before, d));
    var counted := Listed(before, d);
    assert summed == if |counted| <= 100 then counted else counted[..100];
    assert Measured(counted, d) <==> forall v :: v in summed ==> d.measures(v.name) by { MeasuredIff(counted, d); }
    hide Measured, FirstHundred;
  }

  lemma MeasuredIff(listed: seq<Volume>, d: Docker)
    ensures Measured(listed, d) <==> forall v :: v in FirstHundred(listed) ==> d.measures(v.name)
  {
  }

  /** Nothing to decide at this poll: the container runs, within bounds and in time. */
  predicate Quiet(p: Poll, l: Limits) {
    p.container == Running && p.measured && p.files <= l.files && p.size <= l.bytes && !p.late
  }

  /**
   * How polling ends: at the first poll `k` that decides. A container that exited with success, its
   * volume measured and within bounds, succeeds; nothing else does.
   */
  lemma {:induction false} AwaitedFrom(polls: seq<Poll>, i: nat, l: Limits) returns (k: nat)
    requires i <= |polls|
    ensures i <= k <= |polls| && (forall j :: i <= j < k ==> Quiet(polls[j], l))
    ensures Awaited(polls, i, l) == None <==>
              && k < |polls| && polls[k].container == Exited(true)
              && polls[k].measured && polls[k].files <= l.files && polls[k].size <= l.bytes
    ensures k == |polls| ==> Awaited(polls, i, l) == Some(TimedOut)
    ensures k < |polls| ==>
              var p, e := polls[k], Awaited(polls, i, l);
              && !Quiet(p, l)
              && (e == Some(Disappeared) <==> p.container == Gone)
              && (e == Some(StatisticsInvalid) <==> p.container != Gone && !p.measured)
              && (e == Some(ExceedsBounds) <==>
                    p.container != Gone && p.measured && (p.files > l.files || p.size > l.bytes))
              && (e == Some(PreparationFailed) <==>
                    p.container == Exited(false) && p.measured && p.files <= l.files && p.size <= l.bytes)
              && (e == Some(TimedOut) <==>
                    p.container == Running && p.measured && p.files <= l.files && p.size <= l.bytes)
    decreases |polls| - i
  {
    if i == |polls| || !Quiet(polls[i], l) {
      k := i;
    } else {
      k := AwaitedFrom(polls, i + 1, l);
    }
  }

  /** When the new volume is filled: the container starts, ends well, and leaves a ready volume within bounds. */
  lemma FilledIff(d: Docker, l: Limits)
    ensures FillError(d, l) == None <==>
              && d.starts && Awaited(d.polls, 0, l) == None && d.measuresFinal
              && d.final.ready && d.final.files <= l.files && d.final.size <= l.bytes
    ensures !d.starts ==> FillError(d, l) == Some(StartFailed)
    ensures d.starts && Awaited(d.polls, 0, l).Some? ==> FillError(d, l) == Awaited(d.polls, 0, l)
    ensures d.starts && Awaited(d.polls, 0, l).None? && !d.measuresFinal ==> FillError(d, l) == Some(StatisticsInvalid)
    ensures d.starts && Awaited(d.polls, 0, l).None? && d.measuresFinal ==>
              FillError(d, l) in {None, Some(ExceedsBounds)}
  {
  }

  /** Cleaning up keeps, in order, every volume but the old removable ones among the first thousand. */
  lemma {:induction false} CleanupRemovesOld(volumes: seq<Volume>, now: int, retention: int, removable: string -> bool)
    returns (p: seq<nat>)
    ensures Enumerates(p, |volumes|, Stays(volumes, now, retention, removable))
    ensures var kept := CleanedUp(volumes, now, retention, removable);
            |p| == |kept| && forall i :: 0 <= i < |p| ==> p[i] < |volumes| && kept[i] == volumes[p[i]]
  {
    if volumes == [] {
      p := [];
    } else {
      var n := |volumes| - 1;
      p := CleanupRemovesOld(volumes[..n], now, retention, removable);
      var before, after := Stays(volumes[..n], now, retention, removable), Stays(volumes, now, retention, removable);
      EnumeratesOneMore(p, n, before, after);
      hide Enumerates;
      if after(n) { p := p + [n]; }
    }
  }

  /** The positions of the volumes that stay: past the first thousand, too young, or in use. */
  function Stays(volumes: seq<Volume>, now: int, retention: int, removable: string -> bool): nat -> bool {
    (k: nat) =>
      && k < |volumes|
      && (k >= 1000 || now - volumes[k].createdAt < retention || !removable(volumes[k].name))
  }

  class Broker {
    var volumes: seq<Volume>

    constructor ()
      ensures volumes == []
    {
      volumes := [];
    }

    /** The bytes of the first hundred volumes; None when the statistics of one cannot be read. */
    method Usage(existing: seq<Volume>, d: Docker) returns (usage: Option<nat>)
      ensures usage == if Measured(existing, d) then Some(Total(FirstHundred(existing))) else None
    {
      var total := 0;
      var counted := FirstHundred(existing);
      for i := 0 to |counted|
        invariant total == Total(counted[..i])
        invariant forall j :: 0 <= j < i ==> d.measures(counted[j].name)
      {
        if !d.measures(counted[i].name) {
          return None;
        }
        assert counted[..i + 1][..i] == counted[..i];
        total := total + counted[i].size;
      }
      assert counted[..|counted|] == counted;
      usage := Some(total);
    }

    method Await(polls: seq<Poll>, l: Limits) returns (error: Option<BrokerError>)
      ensures error == Awaited(polls, 0, l)
    {
      var i := 0;
      while i < |polls|
        invariant i <= |polls| && Awaited(polls, 0, l) == Awaited(polls, i, l)
      {
        var p := polls[i];
        if p.container.Gone? {
          return Some(Disappeared);
        }
        if !p.measured {
          return Some(StatisticsInvalid);
        }
        if p.files > l.files || p.size > l.bytes {
          return Some(ExceedsBounds);
        }
        if p.container.Exited? {
          if !p.container.ok {
            return Some(PreparationFailed);
          }
          return None;
        }
        if p.late {
          return Some(TimedOut);
        }
        i := i + 1;
      }
      error := Some(TimedOut);
    }

    method PrepareDependencies(name: string, l: Limits, d: Docker) returns (r: Result<bool, BrokerError>)
      modifies this
      ensures volumes == Prepare(old(volumes), name, l, d).volumes
      ensures r == Prepare(old(volumes), name, l, d).result
    {
      hide Total, Without, Names, Awaited, Measured, FirstHundred, Usable, Created;
      if d.inspects {
        var at := Find(volumes, name);
        if at < |volumes| {
          if !d.measures(name) {
            return Err(StatisticsInvalid);
          }
          if Usable(volumes[at], l) {
            return Ok(true);
          }
          if d.removesStale {
            volumes := Without(volumes, name);
          }
        }
      }
      if d.interrupted {
        return Err(Interrupted);
      }
      var existing := Listed(volumes, d);
      var usage := Usage(existing, d);
      if usage.None? {
        return Err(StatisticsInvalid);
      }
      if |existing| >= l.volumes || usage.value + l.bytes > l.quota {
        return Err(CapacityExhausted);
      }
      if d.creation.Refused? {
        return Err(CreateFailed);
      }
      volumes := Created(volumes, name, d.now);
      if d.creation.Unanswered? {
        return Err(CreateFailed);
      }
      var i := Find(volumes, name);
      volumes := volumes[i := Filled(volumes[i], d.final)];
      var error;
      if !d.starts {
        error := Some(StartFailed);
      } else {
        error := Await(d.polls, l);
        if error.None? && !d.measuresFinal {
          error := Some(StatisticsInvalid);
        } else if error.None? && (!d.final.ready || d.final.files > l.files || d.final.size > l.bytes) {
          error := Some(ExceedsBounds);
        }
      }
      if error.Some? {
        if d.removesFailed {
          volumes := Without(volumes, name);
        }
        return Err(error.value);
      }
      r := Ok(false);
    }

    method CleanupVolumes(now: int, retention: int, removable: string -> bool) returns (removed: nat)
      modifies this
      ensures volumes == CleanedUp(old(volumes), now, retention, removable)
      ensures removed == |old(volumes)| - |volumes|
    {
      var kept: seq<Volume> := [];
      removed := 0;
      for i := 0 to |volumes|
        invariant volumes == old(volumes)
        invariant kept == CleanedUp(volumes[..i], now, retention, removable)
        invariant removed == i - |kept|
      {
        assert volumes[..i + 1][..i] == volumes[..i];
        if i < 1000 && now - volumes[i].createdAt >= retention && removable(volumes[i].name) {
          removed := removed + 1;
        } else {
          kept := kept + [volumes[i]];
        }
      }
      assert volumes[..|volumes|] == volumes;
      volumes := kept;
    }
  }

  // ---------------------------------------------------------------- quotas

  ghost predicate DistinctNames(volumes: seq<Volume>) {
    forall i, j :: 0 <= i < j < |volumes| ==> volumes[i].name != volumes[j].name
  }

  /** The cache is within its quota and holds only finished volumes within their bounds. */
  ghost predicate Within(volumes: seq<Volume>, l: Limits) {
    && DistinctNames(volumes)
    && |volumes| <= l.volumes && Total(volumes) <= l.quota
    && forall v :: v in volumes ==> Usable(v, l)
  }

  /** `a` is what is left of `b` after dropping some volumes. */
  ghost predicate Left(a: seq<Volume>, b: seq<Volume>) {
    && (forall v :: v in a ==> v in b)
    && |a| <= |b| && Total(a) <= Total(b)
    && (DistinctNames(b) ==> DistinctNames(a))
  }

  lemma LeftKeepsWithin(a: seq<Volume>, b: seq<Volume>, l: Limits)
    requires Left(a, b) && Within(b, l)
    ensures Within(a, l)
  {
  }

  lemma DistinctFront(front: seq<Volume>, last: Volume)
    requires DistinctNames(front + [last])
    ensures DistinctNames(front) && forall v :: v in front ==> v.name != last.name
  {
    var all := front + [last];
    assert forall i :: 0 <= i < |front| ==> all[i] == front[i];
    assert all[|front|] == last;
  }

  lemma LeftExtended(a: seq<Volume>, b: seq<Volume>, v: Volume)
    requires Left(a, b)
    ensures Left(a + [v], b + [v]) && Left(a, b + [v])
  {
    hide Total;
    TotalAppended(a, v);
    TotalAppended(b, v);
    assert forall u :: u in b ==> u in b + [v];
    assert v in b + [v];
    if DistinctNames(b + [v]) {
      DistinctFront(b, v);
      assert forall i :: 0 <= i < |a| ==> a[i] in b;
    }
  }

  lemma TotalAppended(volumes: seq<Volume>, v: Volume)
    ensures Total(volumes + [v]) == Total(volumes) + v.size
  {
  }

  lemma NothingLeft()
    ensures Left([], [])
  {
  }

  lemma {:induction false} WithoutIsLeft(volumes: seq<Volume>, name: string)
    ensures Left(Without(volumes, name), volumes)
    ensures forall v :: v in Without(volumes, name) ==> v.name != name
  {
    hide Left;
    if volumes == [] {
      NothingLeft();
    } else {
      var front, last := volumes[..|volumes| - 1], volumes[|volumes| - 1];
      WithoutIsLeft(front, name);
      LeftExtended(Without(front, name), front, last);
      assert volumes == front + [last];
      assert Without(front, name) + [] == Without(front, name);
    }
  }

  lemma {:induction false} CleanedUpIsLeft(volumes: seq<Volume>, now: int, retention: int, removable: string -> bool)
    ensures Left(CleanedUp(volumes, now, retention, removable), volumes)
  {
    hide Left;
    if volumes == [] {
      NothingLeft();
    } else {
      var front, last := volumes[..|volumes| - 1], volumes[|volumes| - 1];
      CleanedUpIsLeft(front, now, retention, removable);
      LeftExtended(CleanedUp(front, now, retention, removable), front, last);
      assert volumes == front + [last];
      assert CleanedUp(front, now, retention, removable) + [] == CleanedUp(front, now, retention, removable);
    }
  }

  lemma {:induction false} WithoutAbsent(volumes: seq<Volume>, name: string)
    requires name !in Names(volumes)
    ensures Without(volumes, name) == volumes
  {
    if volumes != [] {
      var front, last := volumes[..|volumes| - 1], volumes[|volumes| - 1];
      assert volumes == front + [last];
      assert forall i :: 0 <= i < |volumes| ==> volumes[i].name in Names(volumes);
      assert forall i :: 0 <= i < |front| ==> front[i] == volumes[i];
      WithoutAbsent(front, name);
    }
  }

  lemma WithoutAppended(volumes: seq<Volume>, v: Volume)
    requires v.name !in Names(volumes)
    ensures Without(volumes + [v], v.name) == volumes
  {
    WithoutAbsent(volumes, v.name);
    assert (volumes + [v])[..|volumes|] == volumes;
  }

  lemma CreatedAtEnd(volumes: seq<Volume>, name: string, now: int, s: Stats)
    requires name !in Names(volumes)
    ensures var created := Created(volumes, name, now);
            && Find(created, name) == |volumes| < |created|
            && created[|volumes| := Filled(created[|volumes|], s)]
               == volumes + [Volume(name, s.files, s.size, s.ready, now)]
  {
  }

  /** The call goes as far as creating the volume. */
  predicate Reaches(volumes: seq<Volume>, name: string, l: Limits, d: Docker) {
    && !(d.inspects && name in Names(volumes))
    && !d.interrupted && Measured(Listed(volumes, d), d) && HasRoom(Listed(volumes, d), l)
  }

  /** The volume once it is created, or found there, and filled. */
  function Refilled(volumes: seq<Volume>, name: string, d: Docker): seq<Volume> {
    var created := Created(volumes, name, d.now);
    var i := Find(created, name);
    created[i := Filled(created[i], d.final)]
  }

  /** From a cache within its limits: what one call does. A hit needs the volume to be there and seen. */
  lemma PrepareFromWithin(volumes: seq<Volume>, name: string, l: Limits, d: Docker)
    requires Within(volumes, l)
    ensures var p := Prepare(volumes, name, l, d);
            && (p.result == Ok(true) <==> name in Names(volumes) && d.inspects && d.measures(name))
            && p.volumes == (
                 if !Reaches(volumes, name, l, d) || d.creation.Refused? then volumes
                 else if d.creation.Unanswered? then Created(volumes, name, d.now)
                 else if FillError(d, l).Some? && d.removesFailed then Without(volumes, name)
                 else Refilled(volumes, name, d))
  {
    hide Total, FillError, HasRoom, Measured, Without, Names;
    var at := Seen(volumes, name, d);
    if at < |volumes| {
      assert Usable(volumes[at], l);
    } else {
      WithoutRefilled(volumes, name, d);
    }
  }

  lemma WithoutRefilled(volumes: seq<Volume>, name: string, d: Docker)
    ensures Without(Refilled(volumes, name, d), name) == Without(volumes, name)
  {
    if name in Names(volumes) {
      var i := Find(volumes, name);
      WithoutSplit(volumes, name, i);
      WithoutSplit(Refilled(volumes, name, d), name, i);
    } else {
      CreatedAtEnd(volumes, name, d.now, d.final);
      WithoutAbsent(volumes, name);
      WithoutAppended(volumes, Volume(name, d.final.files, d.final.size, d.final.ready, d.now));
    }
  }

  /** Dropping a name from a list that holds it at `i`. */
  lemma {:induction false} WithoutSplit(volumes: seq<Volume>, name: string, i: nat)
    requires i < |volumes| && volumes[i].name == name
    ensures Without(volumes, name) == Without(volumes[..i] + volumes[i + 1..], name)
    decreases |volumes|
  {
    var front, last := volumes[..|volumes| - 1], volumes[|volumes| - 1];
    if i == |front| {
      assert volumes[..i] + volumes[i + 1..] == front;
      assert Without(front, name) + [] == Without(front, name);
    } else {
      WithoutSplit(front, name, i);
      var rest := volumes[..i] + volumes[i + 1..];
      assert rest[..|rest| - 1] == front[..i] + front[i + 1..] && rest[|rest| - 1] == last;
    }
  }

  /** A volume of this size finds its place among what is really there. */
  predicate Fits(volumes: seq<Volume>, size: nat, l: Limits) {
    |volumes| < l.volumes && Total(volumes) + size <= l.quota
  }

  /**
   * One call keeps the cache within its limits exactly if the volume exists and is seen, or the
   * call stops before creating one, or a creation without an answer hits an existing one, or the
   * volume is filled and Docker had listed the others or it fits anyway, or filling it fails and
   * Docker removes it or what is left is usable and fits.
   */
  lemma PrepareKeepsWithinIff(volumes: seq<Volume>, name: string, l: Limits, d: Docker)
    requires Within(volumes, l) && 1 <= l.volumes <= 100
    ensures var others, s := Without(volumes, name), d.final;
            Within(Prepare(volumes, name, l, d).volumes, l) <==>
              || (name in Names(volumes) && d.inspects)
              || d.interrupted || !Measured(Listed(volumes, d), d) || !HasRoom(Listed(volumes, d), l)
              || d.creation.Refused?
              || (if d.creation.Unanswered? then name in Names(volumes)
                  else if FillError(d, l).None? then d.lists || Fits(others, s.size, l)
                  else d.removesFailed
                       || (s.ready && s.files <= l.files && s.size <= l.bytes && Fits(others, s.size, l)))
  {
    PrepareFromWithin(volumes, name, l, d);
    FillErrorBounds(d, l);
    RoomFits(volumes, name, d, l);
    WithoutKeepsWithin(volumes, name, l);
    RefilledWithinIff(volumes, name, l, d);
    UnansweredWithinIff(volumes, name, l, d);
    hide Prepare, Total, HasRoom, Measured, Names, Within, FillError, Fits, Listed, Refilled, Without, Created;
  }

  lemma FillErrorBounds(d: Docker, l: Limits)
    ensures FillError(d, l).None? ==> d.final.ready && d.final.files <= l.files && d.final.size <= l.bytes
  {
  }

  lemma RoomFits(volumes: seq<Volume>, name: string, d: Docker, l: Limits)
    requires |volumes| <= l.volumes <= 100
    ensures d.lists && HasRoom(Listed(volumes, d), l) && d.final.size <= l.bytes ==>
              Fits(Without(volumes, name), d.final.size, l)
  {
    WithoutIsLeft(volumes, name);
    assert FirstHundred(volumes) == volumes;
  }

  lemma WithoutKeepsWithin(volumes: seq<Volume>, name: string, l: Limits)
    requires Within(volumes, l)
    ensures Within(Without(volumes, name), l)
  {
    WithoutIsLeft(volumes, name);
    LeftKeepsWithin(Without(volumes, name), volumes, l);
  }

  lemma UnansweredWithinIff(volumes: seq<Volume>, name: string, l: Limits, d: Docker)
    requires Within(volumes, l)
    ensures Within(Created(volumes, name, d.now), l) <==> name in Names(volumes)
  {
    hide Total, DistinctNames;
    if name !in Names(volumes) {
      var r := Created(volumes, name, d.now);
      assert r[|volumes|] in r && !Usable(r[|volumes|], l);
    }
  }

  lemma RefilledWithinIff(volumes: seq<Volume>, name: string, l: Limits, d: Docker)
    requires Within(volumes, l)
    ensures Within(Refilled(volumes, name, d), l) <==>
              && d.final.ready && d.final.files <= l.files && d.final.size <= l.bytes
              && Fits(Without(volumes, name), d.final.size, l)
  {
    var s := d.final;
    if name in Names(volumes) {
      var i := Find(volumes, name);
      ReplaceKeepsWithinIff(volumes, i, Filled(volumes[i], s), l);
      WithoutOne(volumes, i);
    } else {
      CreatedAtEnd(volumes, name, d.now, s);
      WithoutAbsent(volumes, name);
      AppendKeepsWithinIff(volumes, Volume(name, s.files, s.size, s.ready, d.now), l);
    }
  }

  lemma AppendKeepsWithinIff(volumes: seq<Volume>, v: Volume, l: Limits)
    requires Within(volumes, l) && v.name !in Names(volumes)
    ensures Within(volumes + [v], l) <==> Usable(v, l) && Fits(volumes, v.size, l)
  {
  }

  lemma ReplaceKeepsWithinIff(volumes: seq<Volume>, i: nat, v: Volume, l: Limits)
    requires Within(volumes, l) && i < |volumes| && v.name == volumes[i].name
    ensures Within(volumes[i := v], l) <==>
              Usable(v, l) && Total(volumes) - volumes[i].size + v.size <= l.quota
  {
    TotalReplaced(volumes, i, v);
    var r := volumes[i := v];
    assert r[i] in r;
    hide Total;
  }

  lemma {:induction false} TotalReplaced(volumes: seq<Volume>, i: nat, v: Volume)
    requires i < |volumes|
    ensures Total(volumes[i := v]) == Total(volumes) - volumes[i].size + v.size
  {
    var n := |volumes| - 1;
    if i < n {
      TotalReplaced(volumes[..n], i, v);
      assert volumes[i := v][..n] == volumes[..n][i := v];
    } else {
      assert volumes[i := v][..n] == volumes[..n];
    }
  }

  /** With distinct names, dropping a name drops one volume and its bytes. */
  lemma {:induction false} WithoutOne(volumes: seq<Volume>, i: nat)
    requires DistinctNames(volumes) && i < |volumes|
    ensures |Without(volumes, volumes[i].name)| == |volumes| - 1
    ensures Total(Without(volumes, volumes[i].name)) == Total(volumes) - volumes[i].size
  {
    var front, last := volumes[..|volumes| - 1], volumes[|volumes| - 1];
    assert volumes == front + [last];
    DistinctFront(front, last);
    if i < |front| {
      WithoutOne(front, i);
      assert volumes[i].name != last.name;
      TotalAppended(Without(front, volumes[i].name), last);
    } else {
      WithoutAbsent(front, last.name);
      assert Without(volumes, last.name) == front + [] == front;
    }
  }

  /**
   * An existing, ready volume whose inspection fails is filled again over its contents: if it ends
   * up out of bounds and cannot be removed, the cache is outside its limits.
   */
  lemma UnseenVolumeIsSpoiled(volumes: seq<Volume>, name: string, l: Limits, d: Docker)
    requires Within(volumes, l) && 1 <= l.volumes <= 100 && name in Names(volumes) && !d.inspects
    requires d.lists && !d.interrupted && Measured(volumes, d) && HasRoom(volumes, l) && d.creation.Made?
    requires FillError(d, l) == Some(ExceedsBounds) && d.final.size > l.bytes
    ensures Within(Prepare(volumes, name, l, d).volumes, l) <==> d.removesFailed
    ensures name in Names(Prepare(volumes, name, l, d).volumes) <==> !d.removesFailed
  {
    PrepareKeepsWithinIff(volumes, name, l, d);
    PrepareFromWithin(volumes, name, l, d);
    WithoutIsLeft(volumes, name);
    hide Prepare, Total, HasRoom, Measured, Within, FillError, Without, Listed;
    var r := Refilled(volumes, name, d);
    assert r[Find(volumes, name)].name == name;
  }

  /** With Docker listing the volumes and removing what failed, every call keeps the cache within its limits. */
  lemma PrepareKeepsWithin(volumes: seq<Volume>, name: string, l: Limits, d: Docker)
    requires Within(volumes, l) && 1 <= l.volumes <= 100
    requires d.lists && !d.creation.Unanswered? && d.removesFailed
    ensures Within(Prepare(volumes, name, l, d).volumes, l)
  {
    PrepareKeepsWithinIff(volumes, name, l, d);
    hide Prepare, Within, Total;
  }

  /**
   * A failed call adds nothing, whatever the cache was, provided Docker removes what failed; only
   * a creation whose answer was lost leaves an empty volume.
   */
  lemma FailedPrepareAddsNothing(volumes: seq<Volume>, name: string, l: Limits, d: Docker)
    requires Prepare(volumes, name, l, d).result.Err? && d.removesFailed
    ensures forall v :: v in Prepare(volumes, name, l, d).volumes ==>
              v in volumes || (d.creation.Unanswered? && v == Volume(name, 0, 0, false, d.now))
  {
    hide Without, Total, HasRoom, FillError, Left, Names;
    var at := Seen(volumes, name, d);
    var before := if at < |volumes| && d.removesStale then Without(volumes, name) else volumes;
    WithoutMembers(volumes, name);
    var created := Created(before, name, d.now);
    var i := Find(created, name);
    var filled := created[i := Filled(created[i], d.final)];
    WithoutMembers(filled, name);
    forall v | v in Without(filled, name) ensures v in before {
      var k :| 0 <= k < |filled| && filled[k] == v;
      assert k != i && created[k] == v;
    }
  }

  lemma WithoutMembers(volumes: seq<Volume>, name: string)
    ensures forall v :: v in Without(volumes, name) ==> v in volumes && v.name != name
    ensures |Without(volumes, name)| <= |volumes|
  {
  }

  /** The number of volumes never passes the maximum as long as Docker lists them, even if every removal fails. */
  lemma CountStaysBounded(volumes: seq<Volume>, name: string, l: Limits, d: Docker)
    requires |volumes| <= l.volumes && d.lists
    ensures |Prepare(volumes, name, l, d).volumes| <= l.volumes
  {
    var at := Seen(volumes, name, d);
    var before := if at < |volumes| && d.removesStale then Without(volumes, name) else volumes;
    CreatedGrows(before, name, d.now);
    hide Without, Total, FillError, Created, Names, Measured, Usable, FirstHundred;
    WithoutMembers(volumes, name);
    var created := Created(before, name, d.now);
    var i := Find(created, name);
    WithoutMembers(created[i := Filled(created[i], d.final)], name);
  }

  lemma CreatedGrows(volumes: seq<Volume>, name: string, now: int)
    ensures |volumes| <= |Created(volumes, name, now)| <= |volumes| + 1
  {
  }

  datatype Action =
    | PrepareVolume(name: string, docker: Docker)
    | Cleanup(now: int, retention: int, removable: string -> bool)

  function Next(volumes: seq<Volume>, a: Action, l: Limits): seq<Volume> {
    match a
    case PrepareVolume(name, docker) => Prepare(volumes, name, l, docker).volumes
    case Cleanup(now, retention, removable) => CleanedUp(volumes, now, retention, removable)
  }

  function Run(actions: seq<Action>, l: Limits): seq<Volume> {
    if actions == [] then [] else Next(Run(actions[..|actions| - 1], l), actions[|actions| - 1], l)
  }

  lemma RunOneMore(actions: seq<Action>, a: Action, l: Limits)
    ensures Run([], l) == [] && Run(actions + [a], l) == Next(Run(actions, l), a, l)
  {
    assert (actions + [a])[..|actions|] == actions;
  }

  /**
   * Docker lists the volumes, answers what it creates and removes what failed; anything else may
   * go wrong, inspections included.
   */
  predicate Cooperative(a: Action) {
    a.PrepareVolume? ==> a.docker.lists && !a.docker.creation.Unanswered? && a.docker.removesFailed
  }

  /** After every call the cache is within its limits: count, bytes, and every volume ready and bounded. */
  lemma {:induction false} QuotaHolds(actions: seq<Action>, settings: Settings)
    requires forall a :: a in actions ==> Cooperative(a)
    ensures Within(Run(actions, LimitsOf(settings)), LimitsOf(settings))
  {
    if actions != [] {
      hide Within, Left, Next;
      var l := LimitsOf(settings);
      var front, last := actions[..|actions| - 1], actions[|actions| - 1];
      QuotaHolds(front, settings);
      assert Cooperative(last);
      NextKeepsWithin(Run(front, l), last, l);
    }
  }

  lemma NextKeepsWithin(volumes: seq<Volume>, a: Action, l: Limits)
    requires Within(volumes, l) && 1 <= l.volumes <= 100 && Cooperative(a)
    ensures Within(Next(volumes, a, l), l)
  {
    hide Within, Left, Prepare, CleanedUp;
    match a
    case PrepareVolume(name, docker) => PrepareKeepsWithin(volumes, name, l, docker);
    case Cleanup(now, retention, removable) =>
      CleanedUpIsLeft(volumes, now, retention, removable);
      LeftKeepsWithin(CleanedUp(volumes, now, retention, removable), volumes, l);
  }

  /** When Docker cannot list the volumes they count as none: a full cache takes one more. */
  lemma UnlistedVolumesDoNotCount(volumes: seq<Volume>, name: string, l: Limits, d: Docker)
    requires Within(volumes, l) && |volumes| == l.volumes && name !in Names(volumes) && l.bytes <= l.quota
               && 1 <= l.volumes
    requires !d.lists && !d.interrupted && !d.creation.Refused?
    requires d.creation.Unanswered? || (FillError(d, l).None? || !d.removesFailed)
    ensures |Prepare(volumes, name, l, d).volumes| == l.volumes + 1
  {
  }
}
