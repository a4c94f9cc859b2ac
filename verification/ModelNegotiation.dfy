/**
 * Negotiating a web-search session (workers/genx_support.py, lines 436-511): a bounded loop that
 * moves to another model only after a failure that is recorded as free.
 *
 * The gateway is an oracle. A request key identifies one ledger row: either the gateway opens a
 * row for a model of the list it was given, or the key was used before and the old row comes back
 * without a provider payload. A reserved row gets the next ledger position.
 */
module ModelNegotiation {
  import opened Prelude
  import opened ModelCandidates

  datatype Ended =
    | Session(row: nat, remote: Option<Remote>)
    | GatewayError(found: Option<nat>)   // the row stored under the request key, if any

  datatype Turn = Turn(reserved: Option<Call>, audits: seq<Audit>, ended: Ended)

  type Gateway = (nat, World, seq<string>) -> Turn

  function After(w: World, turn: Turn): World {
    World(w.calls + (if turn.reserved.Some? then [turn.reserved.value] else []), w.audits + turn.audits)
  }

  /** What the gateway guarantees: see the module comment. */
  predicate Honest(w: World, eligible: seq<string>, turn: Turn) {
    && (turn.reserved.Some? ==> turn.reserved.value.model in eligible)
    && (forall a :: a in turn.audits ==> a.call == |w.calls|)
    && match turn.ended
       case Session(row, remote) => if turn.reserved.Some? then row == |w.calls| else row < |w.calls| && remote.None?
       case GatewayError(found) =>
         if turn.reserved.Some? then found == Some(|w.calls|) else found.Some? ==> found.value < |w.calls|
  }

  ghost predicate HonestGateway(gateway: Gateway) {
    forall k, w, eligible :: Honest(w, eligible, gateway(k, w, eligible))
  }

  datatype NegotiationError =
    | NoCandidate(reason: CandidateError)
    | NoSafeEvidence
    | UnexpectedState
    | Gateway
    | Exhausted

  /** After one turn: the row to use, the row whose model is given up, or an error. */
  datatype Verdict = Use(row: nat) | GiveUp(row: nat) | Raise(error: NegotiationError)

  function Judged(w: World, ended: Ended, now: int): (World, Verdict)
    requires ended.Session? ==> ended.row < |w.calls|
    requires ended.GatewayError? && ended.found.Some? ==> ended.found.value < |w.calls|
  {
    match ended
    case GatewayError(found) =>
      if found.Some? && ConfirmedRejection(w.audits, found.value, w.calls[found.value]) then (w, GiveUp(found.value))
      else (w, Raise(Gateway))
    case Session(row, remote) =>
      var call := w.calls[row];
      if call.status.Failed? then
        if AcceptedFailure(call, remote, false).Some? then (Recorded(w, row, remote, false, now), GiveUp(row))
        else if AcceptedFailure(call, remote, true).Some? then (Recorded(w, row, remote, true, now), GiveUp(row))
        else (w, Raise(NoSafeEvidence))
      else if call.status.OtherStatus? then (w, Raise(UnexpectedState))
      else (w, Use(row))
  }

  /** Exactly how each ending of an attempt is judged, and what the ledger is afterwards. */
  lemma JudgedSays(w: World, ended: Ended, now: int)
    requires ended.Session? ==> ended.row < |w.calls|
    requires ended.GatewayError? && ended.found.Some? ==> ended.found.value < |w.calls|
    ensures var (t, verdict) := Judged(w, ended, now);
            match ended
            case GatewayError(found) =>
              && t == w
              && (if found.Some? && ConfirmedRejection(w.audits, found.value, w.calls[found.value])
                  then verdict == GiveUp(found.value) else verdict == Raise(Gateway))
            case Session(row, remote) =>
              var status := w.calls[row].status;
              && (status == Completed || status == Blank <==> verdict == Use(row))
              && (status == OtherStatus <==> verdict == Raise(UnexpectedState))
              && (status == Failed && AcceptedFailure(w.calls[row], remote, false).Some? ==>
                    verdict == GiveUp(row) && t == Recorded(w, row, remote, false, now))
              && (status == Failed && AcceptedFailure(w.calls[row], remote, true).Some? ==>
                    verdict == GiveUp(row) && t == Recorded(w, row, remote, true, now))
              && (verdict == Raise(NoSafeEvidence) <==>
                    && status == Failed && AcceptedFailure(w.calls[row], remote, false).None?
                    && AcceptedFailure(w.calls[row], remote, true).None?)
              && (!verdict.GiveUp? ==> t == w)
  {
    if ended.Session? && ended.remote.Some? {
      var c, s := w.calls[ended.row], ended.remote.value.httpStatus;
      if AcceptedFailure(c, ended.remote, false).Some? {
        AcceptedFailureIff(c, ended.remote, false, AcceptedFailure(c, ended.remote, false).value);
      }
      if AcceptedFailure(c, ended.remote, true).Some? {
        AcceptedFailureIff(c, ended.remote, true, AcceptedFailure(c, ended.remote, true).value);
      }
    }
    hide Recorded, ConfirmedRejection;
  }

  /**
   * `tried` are the models of the rows reserved in this run, `given` the rows given up; `left` holds
   * every row as the gateway left it, before anything was recorded on it.
   */
  datatype Run = Run(world: World, left: seq<Call>, excluded: set<string>, tried: seq<string>, given: seq<nat>,
                     attempts: nat)

  datatype Setup = Setup(rows: seq<Row>, life: Lifetimes, maxModels: int, clock: nat -> int)

  function Reserved(turn: Turn): seq<Call> {
    if turn.reserved.Some? then [turn.reserved.value] else []
  }

  function Tried(turn: Turn): seq<string> {
    if turn.reserved.Some? then [turn.reserved.value.model] else []
  }

  /** The loop from attempt `run.attempts` on. */
  function Negotiated(run: Run, setup: Setup, gateway: Gateway): (Run, Result<nat, NegotiationError>)
    requires HonestGateway(gateway)
    decreases AtLeastOne(setup.maxModels) - run.attempts
  {
    if run.attempts >= AtLeastOne(setup.maxModels) then (run, Err(Exhausted))
    else
      var now := setup.clock(run.attempts);
      var eligible := Candidates(run.world, setup.rows, run.excluded, setup.life, now);
      match eligible
      case Err(e) => (run, Err(NoCandidate(e)))
      case Ok(models) =>
        var turn := gateway(run.attempts, run.world, models);
        assert Honest(run.world, models, turn);
        var (world, verdict) := Judged(After(run.world, turn), turn.ended, now);
        var next := Run(world, run.left + Reserved(turn), run.excluded, run.tried + Tried(turn), run.given,
                        run.attempts + 1);
        match verdict
        case Raise(e) => (next, Err(e))
        case Use(row) => (next, Ok(row))
        case GiveUp(row) =>
          Negotiated(next.(excluded := run.excluded + {world.calls[row].model}, given := run.given + [row]),
                     setup, gateway)
  }

  function Beginning(world: World): Run {
    Run(world, world.calls, {}, [], [], 0)
  }

  class Researcher {
    const ledger: Ledger

    constructor (ledger: Ledger)
      ensures this.ledger == ledger
    {
      this.ledger := ledger;
    }

    /** The gateway's answer is stored and judged. */
    method Judge(turn: Turn, now: int) returns (verdict: Verdict)
      requires turn.ended.Session? ==> turn.ended.row < |After(ledger.View(), turn).calls|
      requires turn.ended.GatewayError? && turn.ended.found.Some? ==>
                 turn.ended.found.value < |After(ledger.View(), turn).calls|
      modifies ledger
      ensures (ledger.View(), verdict) == Judged(After(old(ledger.View()), turn), turn.ended, now)
    {
      hide Recorded, ConfirmedRejection, AcceptedFailure;
      ledger.calls := ledger.calls + (if turn.reserved.Some? then [turn.reserved.value] else []);
      ledger.audits := ledger.audits + turn.audits;
      match turn.ended
      case GatewayError(found) =>
        if found.None? || !ConfirmedRejection(ledger.audits, found.value, ledger.calls[found.value]) {
          return Raise(Gateway);
        }
        verdict := GiveUp(found.value);
      case Session(row, remote) =>
        if ledger.calls[row].status == Failed {
          var recorded := ledger.RecordToolRejection(row, remote, now);
          if !recorded {
            recorded := ledger.RecordProviderTransient(row, remote, now);
          }
          return if recorded then GiveUp(row) else Raise(NoSafeEvidence);
        }
        if ledger.calls[row].status == OtherStatus {
          return Raise(UnexpectedState);
        }
        verdict := Use(row);
    }

    /** The negotiation loop over the ledger. */
    method Negotiate(setup: Setup, gateway: Gateway) returns (r: Result<nat, NegotiationError>, ghost run: Run)
      requires HonestGateway(gateway)
      modifies ledger
      ensures (run, r) == Negotiated(Beginning(old(ledger.View())), setup, gateway)
      ensures ledger.View() == run.world
    {
      hide Candidates, Judged, After;
      ghost var start := Beginning(ledger.View());
      run := start;
      var excluded: set<string> := {};
      var attempt := 0;
      while attempt < AtLeastOne(setup.maxModels)
        invariant run.attempts == attempt && run.excluded == excluded && run.world == ledger.View()
        invariant Negotiated(start, setup, gateway) == Negotiated(run, setup, gateway)
        decreases AtLeastOne(setup.maxModels) - attempt
      {
        var now := setup.clock(attempt);
        var eligible := ledger.ResearchModelIds(setup.rows, excluded, setup.life, now);
        if eligible.Err? {
          r := Err(NoCandidate(eligible.error));
          return;
        }
        var turn := gateway(attempt, World(ledger.calls, ledger.audits), eligible.value);
        HonestTurn(run.world, eligible.value, turn);
        var verdict := Judge(turn, now);
        JudgedRow(After(run.world, turn), turn.ended, now);
        attempt := attempt + 1;
        run := Run(ledger.View(), run.left + Reserved(turn), excluded, run.tried + Tried(turn), run.given, attempt);
        match verdict {
          case Raise(e) =>
            r := Err(e);
            return;
          case Use(row) =>
            r := Ok(row);
            return;
          case GiveUp(row) =>
            excluded := excluded + {ledger.calls[row].model};
            run := run.(excluded := excluded, given := run.given + [row]);
        }
      }
      r := Err(Exhausted);
    }
  }

  lemma HonestTurn(w: World, eligible: seq<string>, turn: Turn)
    requires Honest(w, eligible, turn)
    ensures turn.ended.Session? ==> turn.ended.row < |After(w, turn).calls|
    ensures turn.ended.GatewayError? && turn.ended.found.Some? ==> turn.ended.found.value < |After(w, turn).calls|
  {
  }

  lemma JudgedRow(w: World, ended: Ended, now: int)
    requires ended.Session? ==> ended.row < |w.calls|
    requires ended.GatewayError? && ended.found.Some? ==> ended.found.value < |w.calls|
    ensures var (t, v) := Judged(w, ended, now);
            |t.calls| == |w.calls| && (v.GiveUp? || v.Use? ==> v.row < |t.calls|)
  {
  }

  // ---------------------------------------------------------------- what a negotiation guarantees

  /** The row is a failure that the ledger proves to be free. */
  predicate ProvenFree(w: World, row: nat) {
    && row < |w.calls| && FreeFailure(w.calls[row])
    && (ConfirmedRejection(w.audits, row, w.calls[row]) || ConfirmedTransient(w.audits, row, w.calls[row]))
  }

  lemma AfterKeepsEvidence(w: World, eligible: seq<string>, turn: Turn, row: nat)
    requires Honest(w, eligible, turn) && row < |w.calls|
    ensures After(w, turn).calls[row] == w.calls[row]
    ensures ProvenFree(w, row) ==> ProvenFree(After(w, turn), row)
  {
    EvidenceIgnoresOthers(w.audits, turn.audits, row, w.calls[row]);
  }

  lemma JudgedKeepsEvidence(w: World, eligible: seq<string>, turn: Turn, now: int, row: nat)
    requires Honest(w, eligible, turn) && row < |w.calls|
    ensures var t := (HonestTurn(w, eligible, turn); Judged(After(w, turn), turn.ended, now).0);
            && |w.calls| <= |t.calls| && t.calls[row] == w.calls[row]
            && (ProvenFree(w, row) ==> ProvenFree(t, row))
  {
    HonestTurn(w, eligible, turn);
    AfterKeepsEvidence(w, eligible, turn, row);
    var a := After(w, turn);
    var t := Judged(a, turn.ended, now).0;
    if t != a {
      var last := t.audits[|t.audits| - 1];
      assert t.audits == a.audits + [last];
      EvidenceIgnoresOthers(a.audits, [last], row, w.calls[row]);
    }
  }

  lemma JudgedProvesFree(w: World, eligible: seq<string>, turn: Turn, now: int)
    requires Honest(w, eligible, turn)
    ensures var (t, v) := (HonestTurn(w, eligible, turn); Judged(After(w, turn), turn.ended, now));
            v.GiveUp? ==>
              ProvenFree(t, v.row) && (turn.reserved.Some? ==> t.calls[v.row].model == turn.reserved.value.model)
  {
  }

  lemma JudgedUses(w: World, ended: Ended, now: int)
    requires ended.Session? ==> ended.row < |w.calls|
    requires ended.GatewayError? && ended.found.Some? ==> ended.found.value < |w.calls|
    ensures var (t, v) := Judged(w, ended, now);
            && (v.Use? ==> v.row < |t.calls| && (t.calls[v.row].status.Completed? || t.calls[v.row].status.Blank?))
            && (v.Raise? ==> v.error != Exhausted)
  {
  }

  /** So far every attempt was given up on a free failure and its model is out. */
  ghost predicate Clean(run: Run) {
    && run.attempts == |run.given| && |run.tried| <= run.attempts && NoDuplicates(run.tried)
    && (forall m :: m in run.tried ==> m in run.excluded)
    && (forall g :: g in run.given ==> ProvenFree(run.world, g))
  }

  ghost predicate Settled(run: Run, r: Result<nat, NegotiationError>, setup: Setup) {
    && NoDuplicates(run.tried)
    && |run.tried| <= run.attempts <= AtLeastOne(setup.maxModels)
    && |run.given| <= run.attempts <= |run.given| + 1
    && (forall g :: g in run.given ==> ProvenFree(run.world, g))
    && match r
       case Ok(row) =>
         row < |run.world.calls| && (run.world.calls[row].status.Completed? || run.world.calls[row].status.Blank?)
       case Err(e) => e == Exhausted ==> |run.given| == AtLeastOne(setup.maxModels)
  }

  /** A candidate was not excluded, so it was not tried. */
  lemma CandidateIsNew(run: Run, setup: Setup, now: int, m: string)
    requires "" !in TextModels(setup.rows) + WebModels(setup.rows) && Clean(run)
    requires var c := Candidates(run.world, setup.rows, run.excluded, setup.life, now); c.Ok? && m in c.value
    ensures m !in run.tried
  {
  }

  lemma GivenStaysFree(run: Run, eligible: seq<string>, turn: Turn, now: int)
    requires Clean(run) && Honest(run.world, eligible, turn)
    ensures var t := (HonestTurn(run.world, eligible, turn); Judged(After(run.world, turn), turn.ended, now).0);
            forall g :: g in run.given ==> ProvenFree(t, g)
  {
    HonestTurn(run.world, eligible, turn);
    hide Judged, After, Honest;
    forall g | g in run.given ensures ProvenFree(Judged(After(run.world, turn), turn.ended, now).0, g) {
      assert ProvenFree(run.world, g);
      JudgedKeepsEvidence(run.world, eligible, turn, now, g);
    }
  }

  lemma {:induction false} NegotiationSettles(run: Run, setup: Setup, gateway: Gateway)
    requires HonestGateway(gateway) && "" !in TextModels(setup.rows) + WebModels(setup.rows)
    requires Clean(run) && run.attempts <= AtLeastOne(setup.maxModels)
    ensures var (end, r) := Negotiated(run, setup, gateway); Settled(end, r, setup)
    decreases AtLeastOne(setup.maxModels) - run.attempts
  {
    hide Candidates, Judged, After, ProvenFree;
    var now := setup.clock(run.attempts);
    var eligible := Candidates(run.world, setup.rows, run.excluded, setup.life, now);
    if run.attempts < AtLeastOne(setup.maxModels) && eligible.Ok? {
      var turn := gateway(run.attempts, run.world, eligible.value);
      assert Honest(run.world, eligible.value, turn);
      HonestTurn(run.world, eligible.value, turn);
      GivenStaysFree(run, eligible.value, turn, now);
      JudgedProvesFree(run.world, eligible.value, turn, now);
      JudgedUses(After(run.world, turn), turn.ended, now);
      var (world, verdict) := Judged(After(run.world, turn), turn.ended, now);
      var tried := run.tried + Tried(turn);
      if turn.reserved.Some? {
        CandidateIsNew(run, setup, now, turn.reserved.value.model);
      }
      if verdict.GiveUp? {
        JudgedRow(After(run.world, turn), turn.ended, now);
        NegotiationSettles(Run(world, run.left + Reserved(turn), run.excluded + {world.calls[verdict.row].model}, tried,
                               run.given + [verdict.row], run.attempts + 1),
                           setup, gateway);
      }
    }
  }

  /**
   * A negotiation never opens two sessions with the same model and makes at most the configured
   * number of attempts; every attempt before the last one is, in the final ledger, a failed call
   * proven free; a row that is used is complete.
   */
  lemma NegotiationIsBoundedAndFree(world: World, setup: Setup, gateway: Gateway)
    requires HonestGateway(gateway) && "" !in TextModels(setup.rows) + WebModels(setup.rows)
    ensures var (run, r) := Negotiated(Beginning(world), setup, gateway);
            && NoDuplicates(run.tried) && |run.tried| <= run.attempts <= AtLeastOne(setup.maxModels)
            && run.attempts <= |run.given| + 1
            && (forall g :: g in run.given ==>
                g < |run.world.calls| && run.world.calls[g].status.Failed? && run.world.calls[g].billing.NotApplicable?)
            && (r.Ok? ==>
                  && r.value < |run.world.calls|
                  && (run.world.calls[r.value].status.Completed? || run.world.calls[r.value].status.Blank?))
  {
    hide Negotiated;
    NegotiationSettles(Beginning(world), setup, gateway);
    var (run, r) := Negotiated(Beginning(world), setup, gateway);
    forall g | g in run.given
      ensures g < |run.world.calls| && run.world.calls[g].status.Failed? && run.world.calls[g].billing.NotApplicable?
    {
      assert ProvenFree(run.world, g);
    }
  }

  // ---------------------------------------------------------------- nothing paid is given up

  /** The row as it is now, against how the gateway left it: the same, or recorded as free when it had cost nothing. */
  ghost predicate KeepsCharge(left: Call, now: Call) {
    && now.credits == left.credits && now.model == left.model && now.status == left.status
    && (now.cost == left.cost || (left.cost == None && now.cost == Some(0)))
    && (now.billing == Actual <==> left.billing == Actual)
    && (now != left ==> Uncharged(left))
  }

  /** Charges stand as the gateway left them, and what was given up had cost nothing. */
  ghost predicate Fair(run: Run) {
    && |run.left| == |run.world.calls|
    && (forall i :: 0 <= i < |run.left| ==> KeepsCharge(run.left[i], run.world.calls[i]))
    && (forall g :: g in run.given ==>
          g < |run.left| && (Uncharged(run.left[g]) || run.left[g].billing == NotApplicable))
  }

  lemma JudgedKeepsCharges(w: World, ended: Ended, now: int, i: nat)
    requires ended.Session? ==> ended.row < |w.calls|
    requires ended.GatewayError? && ended.found.Some? ==> ended.found.value < |w.calls|
    requires i < |w.calls|
    ensures var (t, v) := Judged(w, ended, now);
            && |t.calls| == |w.calls| && KeepsCharge(w.calls[i], t.calls[i])
            && (v.GiveUp? && v.row == i ==> Uncharged(w.calls[i]) || w.calls[i].billing == NotApplicable)
  {
    if ended.Session? {
      RecordingKeepsCharges(w, ended.row, ended.remote, false, now, i);
      RecordingKeepsCharges(w, ended.row, ended.remote, true, now, i);
      var c := w.calls[ended.row];
      if AcceptedFailure(c, ended.remote, false).Some? {
        AcceptedFailureIff(c, ended.remote, false, AcceptedFailure(c, ended.remote, false).value);
      }
      if AcceptedFailure(c, ended.remote, true).Some? {
        AcceptedFailureIff(c, ended.remote, true, AcceptedFailure(c, ended.remote, true).value);
      }
    }
    hide Recorded, AcceptedFailure;
  }

  lemma ChargesCompose(a: Call, b: Call, c: Call)
    requires KeepsCharge(a, b) && KeepsCharge(b, c)
    ensures KeepsCharge(a, c)
  {
  }

  lemma TurnKeepsFair(run: Run, eligible: seq<string>, turn: Turn, now: int)
    requires Fair(run) && Honest(run.world, eligible, turn)
    ensures var (world, v) := (HonestTurn(run.world, eligible, turn); Judged(After(run.world, turn), turn.ended, now));
            var left := run.left + Reserved(turn);
            && |left| == |world.calls|
            && (forall i :: 0 <= i < |left| ==> KeepsCharge(left[i], world.calls[i]))
            && (v.GiveUp? ==> v.row < |left| && (Uncharged(left[v.row]) || left[v.row].billing == NotApplicable))
  {
    HonestTurn(run.world, eligible, turn);
    var w := After(run.world, turn);
    var left := run.left + Reserved(turn);
    var (world, v) := Judged(w, turn.ended, now);
    JudgedRow(w, turn.ended, now);
    assert |left| == |w.calls|;
    forall i: nat | i < |left|
      ensures KeepsCharge(left[i], world.calls[i])
      ensures v.GiveUp? && v.row == i ==> Uncharged(left[i]) || left[i].billing == NotApplicable
    {
      JudgedKeepsCharges(w, turn.ended, now, i);
      assert KeepsCharge(left[i], w.calls[i]) by {
        if i < |run.left| { assert KeepsCharge(run.left[i], run.world.calls[i]); }
      }
      hide Judged;
      ChargesCompose(left[i], w.calls[i], world.calls[i]);
    }
  }

  /** The row is one that the gateway opened. */
  ghost predicate Opened(gateway: Gateway, call: Call) {
    exists k, w, eligible :: gateway(k, w, eligible).reserved == Some(call)
  }

  lemma {:induction false} NegotiatedIsFair(run: Run, setup: Setup, gateway: Gateway)
    requires HonestGateway(gateway) && Fair(run)
    ensures Fair(Negotiated(run, setup, gateway).0)
    decreases AtLeastOne(setup.maxModels) - run.attempts
  {
    hide Candidates, Judged, After, Uncharged;
    var now := setup.clock(run.attempts);
    var eligible := Candidates(run.world, setup.rows, run.excluded, setup.life, now);
    if run.attempts < AtLeastOne(setup.maxModels) && eligible.Ok? {
      var turn := gateway(run.attempts, run.world, eligible.value);
      assert Honest(run.world, eligible.value, turn);
      TurnKeepsFair(run, eligible.value, turn, now);
      HonestTurn(run.world, eligible.value, turn);
      JudgedRow(After(run.world, turn), turn.ended, now);
      var (world, verdict) := Judged(After(run.world, turn), turn.ended, now);
      hide Honest, KeepsCharge;
      if verdict.GiveUp? {
        NegotiatedIsFair(Run(world, run.left + Reserved(turn), run.excluded + {world.calls[verdict.row].model},
                             run.tried + Tried(turn), run.given + [verdict.row], run.attempts + 1),
                         setup, gateway);
      }
    }
  }

  /** The rows that are added are the gateway's, and the models that are tried are theirs. */
  lemma {:induction false} NegotiatedOpens(run: Run, setup: Setup, gateway: Gateway)
    requires HonestGateway(gateway)
    ensures var end := Negotiated(run, setup, gateway).0;
            && run.left <= end.left && run.tried <= end.tried
            && |end.tried| - |run.tried| == |end.left| - |run.left|
            && forall i :: |run.left| <= i < |end.left| ==>
                 Opened(gateway, end.left[i]) && end.tried[i - |run.left| + |run.tried|] == end.left[i].model
    decreases AtLeastOne(setup.maxModels) - run.attempts
  {
    hide Candidates, Judged, After;
    var now := setup.clock(run.attempts);
    var eligible := Candidates(run.world, setup.rows, run.excluded, setup.life, now);
    if run.attempts < AtLeastOne(setup.maxModels) && eligible.Ok? {
      var turn := gateway(run.attempts, run.world, eligible.value);
      assert Honest(run.world, eligible.value, turn);
      HonestTurn(run.world, eligible.value, turn);
      JudgedRow(After(run.world, turn), turn.ended, now);
      var (world, verdict) := Judged(After(run.world, turn), turn.ended, now);
      assert turn.reserved.Some? ==> Opened(gateway, turn.reserved.value);
      hide Honest, Opened;
      if verdict.GiveUp? {
        NegotiatedOpens(Run(world, run.left + Reserved(turn), run.excluded + {world.calls[verdict.row].model},
                            run.tried + Tried(turn), run.given + [verdict.row], run.attempts + 1),
                        setup, gateway);
      }
    }
  }

  /**
   * A negotiation never moves on from a call that was charged: every row it gave up had cost nothing as
   * the gateway left it, and at the end every row of the ledger shows the charge it was left with. The
   * models it tried are those of the rows that the gateway opened.
   */
  lemma OnlyFreeFailuresAreGivenUp(world: World, setup: Setup, gateway: Gateway)
    requires HonestGateway(gateway)
    ensures var run := Negotiated(Beginning(world), setup, gateway).0;
            && |run.left| == |run.world.calls| && world.calls <= run.left
            && |run.tried| == |run.left| - |world.calls|
            && (forall i :: |world.calls| <= i < |run.left| ==>
                  Opened(gateway, run.left[i]) && run.tried[i - |world.calls|] == run.left[i].model)
            && (forall i :: 0 <= i < |run.left| ==>
                  && run.world.calls[i].credits == run.left[i].credits
                  && (run.world.calls[i].cost == run.left[i].cost
                      || (run.left[i].cost == None && run.world.calls[i].cost == Some(0)))
                  && (run.world.calls[i].billing == Actual <==> run.left[i].billing == Actual))
            && (forall g :: g in run.given ==>
                  && g < |run.left|
                  && (run.left[g].billing == NotApplicable
                      || (run.left[g].credits == 0 && run.left[g].cost in {None, Some(0)}
                          && run.left[g].billing != Actual)))
  {
    hide Negotiated, Opened, HonestGateway;
    assert Fair(Beginning(world));
    NegotiatedIsFair(Beginning(world), setup, gateway);
    NegotiatedOpens(Beginning(world), setup, gateway);
  }
}
