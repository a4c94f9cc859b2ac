/**
 * Job leases with fencing tokens (control/services/locks.py, lines 11-45), and every history
 * of them under a nondecreasing clock. The watchdog (control/services/recovery.py, lines
 * 97-102) first selects expired rows and later deletes them by primary key, without looking
 * again: anything may happen in between.
 */
module JobLocks {
  import opened Prelude

  type Node = string

  datatype LockRow = LockRow(node: Node, leaseUntil: int, token: nat)

  datatype LockError = JobLockUnavailable | NoSuchRow

  // ---------------------------------------------------------------- the three transactions

  function AcquiredRow(row: Option<LockRow>, now: int, node: Node, lease: int): Result<LockRow, LockError> {
    if row.None? then Ok(LockRow(node, now + lease, 1))
    else if row.value.leaseUntil > now && row.value.node != node then Err(JobLockUnavailable)
    else Ok(LockRow(node, now + lease, row.value.token + 1))
  }

  /** Renewal reads the clock twice: to check the lease, then to extend it. */
  function RenewedRow(row: Option<LockRow>, now: int, later: int, node: Node, token: nat, lease: int)
    : Result<LockRow, LockError>
  {
    if row.None? then Err(NoSuchRow)
    else if row.value.node != node || row.value.token != token || row.value.leaseUntil <= now then
      Err(JobLockUnavailable)
    else Ok(row.value.(leaseUntil := later + lease))
  }

  /** Releasing a missing row is silent; Ok holds the row that is left. */
  function ReleasedRow(row: Option<LockRow>, node: Node, token: nat): Result<Option<LockRow>, LockError> {
    if row.None? then Ok(None)
    else if row.value.node != node || row.value.token != token then Err(JobLockUnavailable)
    else Ok(None)
  }

  /** Exactly who may take the lock, and what the row is then. */
  lemma AcquiredIff(row: Option<LockRow>, now: int, node: Node, lease: int)
    ensures var r := AcquiredRow(row, now, node, lease);
            && (r.Ok? <==> row == None || row.value.leaseUntil <= now || row.value.node == node)
            && (r.Ok? ==>
                  && r.value.node == node && r.value.leaseUntil - lease == now
                  && r.value.token == if row == None then 1 else 1 + row.value.token)
            && (r.Err? ==> r.error == JobLockUnavailable)
  {
  }

  /** Exactly who may renew: the node and token in the row before its lease ends. The lease then counts from later. */
  lemma RenewedIff(row: Option<LockRow>, now: int, later: int, node: Node, token: nat, lease: int)
    ensures var r := RenewedRow(row, now, later, node, token, lease);
            && (r.Ok? <==>
                  row.Some? && row.value.node == node && row.value.token == token && now < row.value.leaseUntil)
            && (r.Ok? ==> r.value == LockRow(node, later + lease, token))
            && (row == None ==> r == Err(NoSuchRow))
            && (row.Some? && r.Err? ==> r.error == JobLockUnavailable)
  {
  }

  /** Exactly who may release: the node and token in the row; without a row there is nothing to release. */
  lemma ReleasedIff(row: Option<LockRow>, node: Node, token: nat)
    ensures var r := ReleasedRow(row, node, token);
            && (r.Ok? <==> row.Some? ==> row.value.node == node && row.value.token == token)
            && (r.Err? ==> r.error == JobLockUnavailable)
  {
  }

  /** The lock row of one job. */
  class JobLock {
    var row: Option<LockRow>

    constructor ()
      ensures row == None
    {
      row := None;
    }

    method Acquire(now: int, node: Node, lease: int) returns (r: Result<LockRow, LockError>)
      modifies this
      ensures r == AcquiredRow(old(row), now, node, lease)
      ensures row == if r.Ok? then Some(r.value) else old(row)
    {
      var leaseUntil := now + lease;
      if row.None? {
        row := Some(LockRow(node, leaseUntil, 1));
        return Ok(row.value);
      }
      if row.value.leaseUntil > now && row.value.node != node {
        return Err(JobLockUnavailable);
      }
      row := Some(row.value.(node := node, leaseUntil := leaseUntil, token := row.value.token + 1));
      r := Ok(row.value);
    }

    method Renew(now: int, later: int, node: Node, token: nat, lease: int) returns (r: Result<LockRow, LockError>)
      modifies this
      ensures r == RenewedRow(old(row), now, later, node, token, lease)
      ensures row == if r.Ok? then Some(r.value) else old(row)
    {
      if row.None? {
        return Err(NoSuchRow);
      }
      if row.value.node != node || row.value.token != token || row.value.leaseUntil <= now {
        return Err(JobLockUnavailable);
      }
      row := Some(row.value.(leaseUntil := later + lease));
      r := Ok(row.value);
    }

    method Release(node: Node, token: nat) returns (r: Result<Option<LockRow>, LockError>)
      modifies this
      ensures r == ReleasedRow(old(row), node, token)
      ensures row == if r.Ok? then None else old(row)
    {
      if row.None? {
        return Ok(None);
      }
      if row.value.node != node || row.value.token != token {
        return Err(JobLockUnavailable);
      }
      row := None;
      r := Ok(None);
    }
  }

  // ---------------------------------------------------------------- histories

  /** A successful acquisition: who, with which token, in which life of the row, until when. */
  datatype Handle = Handle(node: Node, token: nat, life: nat, leaseUntil: int, released: bool)

  /** A row's primary key is its life; `selected` are the rows the watchdog is about to delete. */
  datatype History = History(now: int, row: Option<LockRow>, life: nat, handles: seq<Handle>, selected: set<nat>)

  datatype LockAction =
    | Tick(elapsed: nat)
    | Acquire(node: Node, lease: int)
    | Renew(node: Node, token: nat, elapsed: nat, lease: int)
    | Release(node: Node, token: nat)
    | Select
    | DeleteSelected(life: nat)

  function Start(now: int): History {
    History(now, None, 0, [], {})
  }

  /** The last handle renewed until `leaseUntil`, or released. */
  function RenewLast(handles: seq<Handle>, leaseUntil: int): seq<Handle> {
    if handles == [] then [] else handles[|handles| - 1 := handles[|handles| - 1].(leaseUntil := leaseUntil)]
  }

  function ReleaseLast(handles: seq<Handle>): seq<Handle> {
    if handles == [] then [] else handles[|handles| - 1 := handles[|handles| - 1].(released := true)]
  }

  /** The selected row still exists: it goes, whoever holds it by now. */
  predicate Deletes(h: History, life: nat) {
    life in h.selected && h.row.Some? && h.life == life
  }

  function Next(h: History, a: LockAction): History {
    match a
    case Tick(elapsed) => h.(now := h.now + elapsed)
    case Acquire(node, lease) =>
      (match AcquiredRow(h.row, h.now, node, lease)
       case Err(_) => h
       case Ok(row) =>
         var life := if h.row.None? then h.life + 1 else h.life;
         h.(row := Some(row), life := life,
            handles := h.handles + [Handle(node, row.token, life, row.leaseUntil, false)]))
    case Renew(node, token, elapsed, lease) =>
      (match RenewedRow(h.row, h.now, h.now + elapsed, node, token, lease)
       case Err(_) => h.(now := h.now + elapsed)
       case Ok(row) => h.(now := h.now + elapsed, row := Some(row), handles := RenewLast(h.handles, row.leaseUntil)))
    case Release(node, token) =>
      if h.row.Some? && ReleasedRow(h.row, node, token).Ok? then h.(row := None, handles := ReleaseLast(h.handles))
      else h
    case Select =>
      if h.row.Some? && h.row.value.leaseUntil < h.now then h.(selected := h.selected + {h.life}) else h
    case DeleteSelected(life) =>
      h.(row := if Deletes(h, life) then None else h.row, selected := h.selected - {life})
  }

  function Play(h: History, actions: seq<LockAction>): History {
    if actions == [] then h else Next(Play(h, actions[..|actions| - 1]), actions[|actions| - 1])
  }

  /** A later acquisition in the same life of the row took over from handle `i`. */
  ghost predicate Superseded(h: History, i: nat)
    requires i < |h.handles|
  {
    i + 1 < |h.handles| && h.handles[i + 1].life == h.handles[i].life
  }

  ghost predicate Expired(h: History, i: nat)
    requires i < |h.handles|
  {
    h.handles[i].leaseUntil <= h.now
  }

  ghost predicate Over(h: History, i: nat)
    requires i < |h.handles|
  {
    h.handles[i].released || Superseded(h, i) || Expired(h, i)
  }

  /** Handle `i` still gives its node the exclusive right to work on the job. */
  ghost predicate Live(h: History, i: nat) {
    i < |h.handles| && !Over(h, i)
  }

  /** Tokens grow within a life, and the row is the newest handle's. */
  ghost predicate Ordered(h: History) {
    && (forall i :: 0 <= i < |h.handles| ==> 1 <= h.handles[i].life <= h.life)
    && (forall i, j :: 0 <= i < j < |h.handles| ==>
          h.handles[i].life < h.handles[j].life
          || (h.handles[i].life == h.handles[j].life && h.handles[i].token < h.handles[j].token))
    && (h.row.Some? ==>
          && h.handles != []
          && var last := h.handles[|h.handles| - 1];
             last.life == h.life && !last.released
             && h.row.value == LockRow(last.node, last.leaseUntil, last.token))
  }

  /** Besides, every handle but the one in the row is over. */
  ghost predicate Consistent(h: History) {
    && Ordered(h)
    && (forall i {:trigger Over(h, i)} :: 0 <= i < |h.handles| - 1 ==> Over(h, i))
    && (h.row.None? && h.handles != [] ==> Over(h, |h.handles| - 1))
  }

  /** Handles are never dropped, and keep who, which token and which life. */
  ghost predicate Extends(h: History, t: History) {
    && h.now <= t.now && h.life <= t.life && |h.handles| <= |t.handles|
    && forall i :: 0 <= i < |h.handles| ==>
         && t.handles[i].node == h.handles[i].node && t.handles[i].token == h.handles[i].token
         && t.handles[i].life == h.handles[i].life
  }

  lemma AcquireKeepsOrdered(h: History, node: Node, lease: int)
    requires Ordered(h)
    ensures Ordered(Next(h, Acquire(node, lease))) && Extends(h, Next(h, Acquire(node, lease)))
  {
  }

  lemma RenewKeepsOrdered(h: History, node: Node, token: nat, elapsed: nat, lease: int)
    requires Ordered(h)
    ensures Ordered(Next(h, Renew(node, token, elapsed, lease)))
    ensures Extends(h, Next(h, Renew(node, token, elapsed, lease)))
  {
  }

  lemma ReleaseKeepsOrdered(h: History, node: Node, token: nat)
    requires Ordered(h)
    ensures Ordered(Next(h, Release(node, token))) && Extends(h, Next(h, Release(node, token)))
  {
  }

  /** The order of tokens holds even when a deletion comes late. */
  lemma NextKeepsOrdered(h: History, a: LockAction)
    requires Ordered(h)
    ensures Ordered(Next(h, a)) && Extends(h, Next(h, a))
  {
    match a
    case Acquire(node, lease) => AcquireKeepsOrdered(h, node, lease);
    case Renew(node, token, elapsed, lease) => RenewKeepsOrdered(h, node, token, elapsed, lease);
    case Release(node, token) => ReleaseKeepsOrdered(h, node, token);
    case _ => hide AcquiredRow, RenewedRow, ReleasedRow;
  }

  /** Handles before the last stay over while the last changes, others are appended and time passes. */
  lemma OverStaysOver(h: History, t: History)
    requires Consistent(h) && Extends(h, t)
    requires forall i :: 0 <= i < |h.handles| - 1 ==> t.handles[i] == h.handles[i]
    ensures forall i :: 0 <= i < |h.handles| - 1 ==> Over(t, i)
  {
    forall i | 0 <= i < |h.handles| - 1 ensures Over(t, i) {
      assert Over(h, i) && t.handles[i + 1].life == h.handles[i + 1].life;
    }
  }

  lemma AcquireOutcome(h: History, node: Node, lease: int)
    requires Consistent(h)
    ensures var r := AcquiredRow(h.row, h.now, node, lease);
            r.Ok? ==>
              && r.value.node == node && r.value.leaseUntil == h.now + lease
              && (h.row.None? ==> r.value.token == 1)
              && (h.row.Some? ==>
                    && r.value.token == h.row.value.token + 1
                    && (h.row.value.leaseUntil <= h.now || h.row.value.node == node))
  {
  }

  lemma AcquireKeepsConsistent(h: History, node: Node, lease: int)
    requires Consistent(h)
    ensures Consistent(Next(h, Acquire(node, lease))) && Extends(h, Next(h, Acquire(node, lease)))
  {
    var t := Next(h, Acquire(node, lease));
    OverStaysOver(h, t);
    hide AcquiredRow;
    AcquireOutcome(h, node, lease);
    if h.handles != [] && |t.handles| > |h.handles| {
      assert Over(t, |h.handles| - 1);
    }
  }

  lemma RenewKeepsConsistent(h: History, node: Node, token: nat, elapsed: nat, lease: int)
    requires Consistent(h)
    ensures Consistent(Next(h, Renew(node, token, elapsed, lease)))
    ensures Extends(h, Next(h, Renew(node, token, elapsed, lease)))
  {
    var t := Next(h, Renew(node, token, elapsed, lease));
    RenewKeepsOrdered(h, node, token, elapsed, lease);
    hide Ordered;
    OverStaysOver(h, t);
    if h.row.None? && h.handles != [] { assert Over(h, |h.handles| - 1) && Over(t, |h.handles| - 1); }
  }

  lemma ReleaseKeepsConsistent(h: History, node: Node, token: nat)
    requires Consistent(h)
    ensures Consistent(Next(h, Release(node, token))) && Extends(h, Next(h, Release(node, token)))
  {
    OverStaysOver(h, Next(h, Release(node, token)));
  }

  lemma TickKeepsConsistent(h: History, elapsed: nat)
    requires Consistent(h)
    ensures Consistent(Next(h, Tick(elapsed))) && Extends(h, Next(h, Tick(elapsed)))
  {
    OverStaysOver(h, Next(h, Tick(elapsed)));
    if h.handles != [] && Over(h, |h.handles| - 1) { assert Over(Next(h, Tick(elapsed)), |h.handles| - 1); }
  }

  /** The watchdog deletes the row only while it is expired. */
  predicate Punctual(h: History, a: LockAction) {
    a.DeleteSelected? && Deletes(h, a.life) ==> h.row.value.leaseUntil <= h.now
  }

  ghost predicate AllPunctual(h: History, actions: seq<LockAction>) {
    actions == []
    || (AllPunctual(h, actions[..|actions| - 1]) && Punctual(Play(h, actions[..|actions| - 1]), actions[|actions| - 1]))
  }

  lemma SelectKeepsConsistent(h: History)
    requires Consistent(h)
    ensures Consistent(Next(h, Select)) && Extends(h, Next(h, Select))
  {
    OverStaysOver(h, Next(h, Select));
  }

  /** Deleting the row keeps the handles consistent exactly if its lease is over by then. */
  lemma DeletionKeepsConsistentIff(h: History, life: nat)
    requires Consistent(h)
    ensures Consistent(Next(h, DeleteSelected(life))) <==> Punctual(h, DeleteSelected(life))
    ensures Extends(h, Next(h, DeleteSelected(life)))
  {
    var t := Next(h, DeleteSelected(life));
    OverStaysOver(h, t);
    if h.handles != [] { assert Over(t, |h.handles| - 1) <==> Over(h, |h.handles| - 1); }
  }

  /** At most one acquisition is live. */
  ghost predicate Exclusive(h: History) {
    forall i: nat, j: nat {:trigger Live(h, i), Live(h, j)} :: Live(h, i) && Live(h, j) ==> i == j
  }

  lemma ConsistentIsExclusive(h: History)
    requires Consistent(h)
    ensures Exclusive(h)
  {
  }

  /**
   * A deletion is harmless, whoever acquires next, exactly if the row is still expired: after a
   * late one the holder and any node that acquires are both live.
   */
  lemma DeletionIsHarmlessIff(h: History, life: nat, node: Node, lease: int)
    requires Consistent(h) && lease > 0
    ensures Exclusive(Next(Next(h, DeleteSelected(life)), Acquire(node, lease))) <==> Punctual(h, DeleteSelected(life))
  {
    var d := Next(h, DeleteSelected(life));
    var t := Next(d, Acquire(node, lease));
    DeletionKeepsConsistentIff(h, life);
    if Punctual(h, DeleteSelected(life)) {
      AcquireKeepsConsistent(d, node, lease);
      ConsistentIsExclusive(t);
    } else {
      LateDeletion(h, life, node, lease);
    }
  }

  lemma LateDeletion(h: History, life: nat, node: Node, lease: int)
    requires Consistent(h) && lease > 0 && !Punctual(h, DeleteSelected(life))
    ensures var t := Next(Next(h, DeleteSelected(life)), Acquire(node, lease));
            h.handles != [] && Live(t, |h.handles| - 1) && Live(t, |h.handles|)
  {
    var n := |h.handles|;
    var t := Next(Next(h, DeleteSelected(life)), Acquire(node, lease));
    assert t.handles[..n] == h.handles && t.handles[n] == Handle(node, 1, h.life + 1, h.now + lease, false);
  }

  lemma NextKeepsConsistent(h: History, a: LockAction)
    requires Consistent(h) && Punctual(h, a)
    ensures Consistent(Next(h, a)) && Extends(h, Next(h, a))
  {
    hide Consistent, Extends, Next, Punctual;
    match a
    case Acquire(node, lease) => AcquireKeepsConsistent(h, node, lease);
    case Renew(node, token, elapsed, lease) => RenewKeepsConsistent(h, node, token, elapsed, lease);
    case Release(node, token) => ReleaseKeepsConsistent(h, node, token);
    case Tick(elapsed) => TickKeepsConsistent(h, elapsed);
    case Select => SelectKeepsConsistent(h);
    case DeleteSelected(life) => DeletionKeepsConsistentIff(h, life);
  }

  lemma {:induction false} PlayIsConsistent(now: int, actions: seq<LockAction>)
    requires AllPunctual(Start(now), actions)
    ensures Consistent(Play(Start(now), actions))
  {
    if actions != [] {
      hide Consistent, Next, Punctual;
      PlayIsConsistent(now, actions[..|actions| - 1]);
      NextKeepsConsistent(Play(Start(now), actions[..|actions| - 1]), actions[|actions| - 1]);
    } else {
      assert Consistent(Start(now));
    }
  }

  /** Mutual exclusion: while no deletion comes late, no two acquisitions are live. */
  lemma AtMostOneLiveHandle(now: int, actions: seq<LockAction>, i: nat, j: nat)
    requires AllPunctual(Start(now), actions)
    ensures var h := Play(Start(now), actions);
            Live(h, i) && Live(h, j) ==> i == j
  {
    PlayIsConsistent(now, actions);
  }

  /** When a node acquires, every other node's unreleased, unsuperseded handle has expired. */
  lemma AcquireIsSafe(now: int, actions: seq<LockAction>, node: Node, lease: int, i: nat)
    requires AllPunctual(Start(now), actions)
    requires var h := Play(Start(now), actions);
             AcquiredRow(h.row, h.now, node, lease).Ok? && i < |h.handles| && h.handles[i].node != node
    ensures var h := Play(Start(now), actions);
            h.handles[i].released || Superseded(h, i) || Expired(h, i)
  {
    PlayIsConsistent(now, actions);
    hide Play, AllPunctual;
    var h := Play(Start(now), actions);
    if i < |h.handles| - 1 { assert Over(h, i); }
  }

  /** A live handle keeps every other node out: acquisition fails exactly while one is live. */
  lemma AcquireFailsIffOtherLive(now: int, actions: seq<LockAction>, node: Node, lease: int)
    requires AllPunctual(Start(now), actions)
    ensures var h := Play(Start(now), actions);
            AcquiredRow(h.row, h.now, node, lease).Err? <==> exists i: nat :: Live(h, i) && h.handles[i].node != node
  {
    PlayIsConsistent(now, actions);
    FailsIffOtherLive(Play(Start(now), actions), node, lease);
  }

  lemma FailsIffOtherLive(h: History, node: Node, lease: int)
    requires Consistent(h)
    ensures AcquiredRow(h.row, h.now, node, lease).Err? <==> exists i: nat :: Live(h, i) && h.handles[i].node != node
  {
    if AcquiredRow(h.row, h.now, node, lease).Err? {
      assert Live(h, |h.handles| - 1) && h.handles[|h.handles| - 1].node != node;
    }
  }

  /**
   * The holder keeps the lease by renewing: whoever has the live handle succeeds, at any time before the
   * lease ends, its lease then ends one lease after the renewal, and nothing else changes.
   */
  lemma LiveHandleRenews(now: int, actions: seq<LockAction>, i: nat, elapsed: nat, lease: int)
    requires AllPunctual(Start(now), actions) && Live(Play(Start(now), actions), i)
    ensures var h := Play(Start(now), actions);
            var x := h.handles[i];
            var t := Next(h, Renew(x.node, x.token, elapsed, lease));
            && i == |h.handles| - 1 && t.handles == h.handles[i := x.(leaseUntil := h.now + elapsed + lease)]
            && t.row == Some(LockRow(x.node, h.now + elapsed + lease, x.token))
            && t.now == h.now + elapsed && t.life == h.life
            && (lease > 0 ==> Live(t, i))
  {
    PlayIsConsistent(now, actions);
    RenewsLive(Play(Start(now), actions), i, elapsed, lease);
  }

  lemma RenewsLive(h: History, i: nat, elapsed: nat, lease: int)
    requires Consistent(h) && Live(h, i)
    ensures var x := h.handles[i];
            var t := Next(h, Renew(x.node, x.token, elapsed, lease));
            && i == |h.handles| - 1 && t.handles == h.handles[i := x.(leaseUntil := h.now + elapsed + lease)]
            && t.row == Some(LockRow(x.node, h.now + elapsed + lease, x.token))
            && t.now == h.now + elapsed && t.life == h.life
            && (lease > 0 ==> Live(t, i))
  {
  }

  /** The watchdog selects the row exactly while it is expired, and deletes exactly a selected row of the same life. */
  lemma WatchdogActs(h: History, life: nat)
    ensures var s, d := Next(h, Select), Next(h, DeleteSelected(life));
            var expired := h.row.Some? && h.row.value.leaseUntil < h.now;
            && s.selected == (if expired then h.selected + {h.life} else h.selected)
            && s == h.(selected := s.selected)
            && (h.row.Some? && d.row == None <==> h.row.Some? && life == h.life && life in h.selected)
            && (d.row.Some? ==> d.row == h.row) && life !in d.selected && d.handles == h.handles && d.now == h.now
  {
  }

  /** Time passes with the clock and while a renewal is under way, and only then. */
  lemma TimePasses(h: History, a: LockAction)
    ensures Next(h, a).now - h.now == if a.Tick? || a.Renew? then a.elapsed else 0
  {
  }

  // Fencing holds even when a deletion comes late.

  lemma {:induction false} PlayExtends(h: History, actions: seq<LockAction>)
    requires Ordered(h)
    ensures Ordered(Play(h, actions)) && Extends(h, Play(h, actions))
  {
    if actions != [] {
      hide Ordered, Next;
      PlayExtends(h, actions[..|actions| - 1]);
      NextKeepsOrdered(Play(h, actions[..|actions| - 1]), actions[|actions| - 1]);
    }
  }

  /**
   * Fencing: for the rest of the row's life a superseded handle can neither renew nor release,
   * whatever happens in between, a late watchdog included.
   */
  lemma SupersededIsFencedOff(h: History, actions: seq<LockAction>, i: nat, now: int, later: int, lease: int)
    requires Ordered(h) && i < |h.handles| && Superseded(h, i)
    requires Play(h, actions).life == h.handles[i].life && Play(h, actions).row.Some?
    ensures var t, x := Play(h, actions), h.handles[i];
            RenewedRow(t.row, now, later, x.node, x.token, lease).Err? && ReleasedRow(t.row, x.node, x.token).Err?
  {
    PlayExtends(h, actions);
    var t := Play(h, actions);
    assert t.handles[i].token < t.handles[i + 1].token <= t.handles[|t.handles| - 1].token;
  }

  /**
   * Exactly when a handle can release a row that exists: node and token match. Then the row is
   * the handle's own, or it belongs to a later life in which the same node drew the same token.
   */
  lemma ReleaseReachesOwnRowOrSameNodeLater(now: int, actions: seq<LockAction>, i: nat)
    requires i < |Play(Start(now), actions).handles| && Play(Start(now), actions).row.Some?
    ensures var h := Play(Start(now), actions);
            var x, last := h.handles[i], |h.handles| - 1;
            && (ReleasedRow(h.row, x.node, x.token).Ok? <==>
                h.handles[last].node == x.node && h.handles[last].token == x.token)
            && (ReleasedRow(h.row, x.node, x.token).Ok? ==> i == last || x.life < h.handles[last].life)
  {
    PlayExtends(Start(now), actions);
  }

  /**
   * Tokens fence within one life only: deleting the row restarts them at 1, so a handle from
   * an earlier life releases a live lease that another process of the same node holds.
   */
  lemma TokensRepeatAcrossLives(node: Node)
    ensures var h := Play(Start(0), [Acquire(node, 10), Tick(11), Select, DeleteSelected(1), Acquire(node, 10)]);
            && |h.handles| == 2 && Live(h, 1) && Expired(h, 0)
            && h.handles[0].life < h.handles[1].life
            && Next(h, Release(node, h.handles[0].token)).row.None?
  {
    hide Play, Next, AllPunctual;
    PlayFive(Start(0), Acquire(node, 10), Tick(11), Select, DeleteSelected(1), Acquire(node, 10));
    RepeatSteps(node);
  }

  lemma RepeatSteps(node: Node)
    ensures var h2 := Next(Next(Start(0), Acquire(node, 10)), Tick(11));
            var h := Next(Next(Next(h2, Select), DeleteSelected(1)), Acquire(node, 10));
            && |h.handles| == 2 && Live(h, 1) && Expired(h, 0)
            && h.handles[0].life < h.handles[1].life
            && Next(h, Release(node, h.handles[0].token)).row.None?
  {
    var h2 := Next(Next(Start(0), Acquire(node, 10)), Tick(11));
    assert h2 == History(11, Some(LockRow(node, 10, 1)), 1, [Handle(node, 1, 1, 10, false)], {});
    assert Next(h2, Select).selected == {1};
  }

  /**
   * The late watchdog, run from the start: `a` expires and is selected, `b` takes the lease over,
   * the watchdog deletes it, `c` acquires; `b` and `c` are both live, whoever they are.
   */
  lemma LateWatchdogBreaksExclusion(a: Node, b: Node, c: Node)
    ensures var actions := [Acquire(a, 10), Tick(11), Select, Acquire(b, 10), DeleteSelected(1)];
            && !AllPunctual(Start(0), actions)
            && var h := Next(Play(Start(0), actions), Acquire(c, 10));
               |h.handles| == 3 && h.handles[1].node == b && h.handles[2].node == c && Live(h, 1) && Live(h, 2)
  {
    hide Play, Next, AllPunctual;
    PlayFive(Start(0), Acquire(a, 10), Tick(11), Select, Acquire(b, 10), DeleteSelected(1));
    LateSteps(a, b, c);
  }

  lemma LateSteps(a: Node, b: Node, c: Node)
    ensures var h2 := Next(Next(Start(0), Acquire(a, 10)), Tick(11));
            var h4 := Next(Next(h2, Select), Acquire(b, 10));
            var h := Next(Next(h4, DeleteSelected(1)), Acquire(c, 10));
            && !Punctual(h4, DeleteSelected(1))
            && |h.handles| == 3 && h.handles[1].node == b && h.handles[2].node == c && Live(h, 1) && Live(h, 2)
  {
    var h2 := Next(Next(Start(0), Acquire(a, 10)), Tick(11));
    assert h2 == History(11, Some(LockRow(a, 10, 1)), 1, [Handle(a, 1, 1, 10, false)], {});
    var h3 := Next(h2, Select);
    assert h3 == h2.(selected := {1});
    var h4 := Next(h3, Acquire(b, 10));
    assert h4 == History(11, Some(LockRow(b, 21, 2)), 1, [Handle(a, 1, 1, 10, false), Handle(b, 2, 1, 21, false)], {1});
  }

  lemma PlayFive(h: History, a: LockAction, b: LockAction, c: LockAction, d: LockAction, e: LockAction)
    ensures Play(h, [a, b, c, d, e]) == Next(Next(Next(Next(Next(h, a), b), c), d), e)
    ensures AllPunctual(h, [a, b, c, d, e]) ==> Punctual(Next(Next(Next(Next(h, a), b), c), d), e)
  {
    hide Next, Punctual;
    assert [a, b, c, d, e][..4] == [a, b, c, d] && [a, b, c, d][..3] == [a, b, c] && [a, b, c][..2] == [a, b];
    assert [a, b][..1] == [a] && [a][..0] == [];
    assert Play(h, [a]) == Next(h, a);
    assert Play(h, [a, b]) == Next(Play(h, [a]), b);
    assert Play(h, [a, b, c]) == Next(Play(h, [a, b]), c);
    assert Play(h, [a, b, c, d]) == Next(Play(h, [a, b, c]), d);
  }
}
