/**
 * Which models may serve a web-search session (workers/genx_support.py, lines 82-93, 101-167 and
 * 170-385): live evidence in the call ledger overrides what the catalogue claims.
 *
 * A call is identified by its position in the ledger, which is in creation order; audit records
 * are in creation order too. Keyword matching and the parsing of provider payloads are oracles:
 * a catalogue row says whether it matches, a payload already holds its HTTP status (0 when absent).
 */
module ModelCandidates {
  import opened Prelude

  datatype Status = Completed | Failed | Blank | OtherStatus

  datatype Truth = Actual | NotApplicable | OtherTruth

  /** `research` says that the task class is research_web; credits and cost are scaled integers. */
  datatype Call = Call(model: string, research: bool, status: Status, createdAt: int, credits: int, cost: Option<int>,
                       billing: Truth, remoteJob: string, externalJob: string)

  datatype Kind = SessionFailed | ToolRejected | ProviderTransient | OtherKind

  datatype Phase = SendMessage | PollRemoteJob | OtherPhase

  datatype Audit = Audit(kind: Kind, call: nat, at: int, httpStatus: int, phase: Phase, remoteJob: string)

  /** The remote job of a provider response; None when there is no such object. */
  datatype Remote = Remote(failed: bool, httpStatus: int, jobId: string)

  datatype World = World(calls: seq<Call>, audits: seq<Audit>)

  // ---------------------------------------------------------------- evidence

  /** The newest audit record about the call of one of the kinds. */
  function Latest(audits: seq<Audit>, call: nat, kinds: set<Kind>): Option<Audit> {
    if audits == [] then None
    else
      var last := audits[|audits| - 1];
      if last.call == call && last.kind in kinds then Some(last) else Latest(audits[..|audits| - 1], call, kinds)
  }

  predicate CompatibilityStatus(status: int) {
    status == 400 || status == 422
  }

  predicate TransientStatus(status: int) {
    500 <= status <= 599
  }

  /** A failed research call that is known to cost nothing. */
  predicate FreeFailure(call: Call) {
    call.research && call.status.Failed? && call.billing.NotApplicable?
  }

  predicate ConfirmedRejection(audits: seq<Audit>, id: nat, call: Call) {
    && FreeFailure(call)
    && var event := Latest(audits, id, {SessionFailed, ToolRejected});
    && event.Some?
    && CompatibilityStatus(event.value.httpStatus)
    && if event.value.kind.SessionFailed? then call.remoteJob == "" && event.value.phase.SendMessage?
       else call.remoteJob != "" && event.value.phase.PollRemoteJob?
  }

  function TransientObservedAt(audits: seq<Audit>, id: nat, call: Call): Option<int> {
    if !FreeFailure(call) || call.remoteJob == "" then None
    else
      var event := Latest(audits, id, {ProviderTransient});
      if event.Some? && TransientStatus(event.value.httpStatus) && event.value.phase.PollRemoteJob?
         && event.value.remoteJob == call.remoteJob
      then Some(event.value.at) else None
  }

  predicate ConfirmedTransient(audits: seq<Audit>, id: nat, call: Call) {
    TransientObservedAt(audits, id, call).Some?
  }

  datatype Observation = Supported(at: int) | Rejected(at: int) | Transient(at: int)

  function ObservationOf(audits: seq<Audit>, id: nat, call: Call): Option<Observation> {
    if call.status.Completed? then Some(Supported(call.createdAt))
    else if ConfirmedRejection(audits, id, call) then Some(Rejected(call.createdAt))
    else
      var at := TransientObservedAt(audits, id, call);
      if at.Some? then Some(Transient(at.value)) else None
  }

  /** The audit record at `i` is the newest one about the call of one of the kinds. */
  ghost predicate NewestAbout(audits: seq<Audit>, call: nat, kinds: set<Kind>, i: nat) {
    && i < |audits| && audits[i].call == call && audits[i].kind in kinds
    && forall j :: i < j < |audits| ==> audits[j].call != call || audits[j].kind !in kinds
  }

  lemma {:induction false} LatestIsNewest(audits: seq<Audit>, call: nat, kinds: set<Kind>)
    ensures match Latest(audits, call, kinds)
            case Some(e) => exists i: nat :: NewestAbout(audits, call, kinds, i) && audits[i] == e
            case None => forall i :: 0 <= i < |audits| ==> audits[i].call != call || audits[i].kind !in kinds
  {
    if audits != [] {
      var n := |audits| - 1;
      if audits[n].call == call && audits[n].kind in kinds {
        assert NewestAbout(audits, call, kinds, n);
      } else {
        LatestIsNewest(audits[..n], call, kinds);
        if Latest(audits[..n], call, kinds).Some? {
          var e := Latest(audits[..n], call, kinds).value;
          var i: nat :| NewestAbout(audits[..n], call, kinds, i) && audits[..n][i] == e;
          assert NewestAbout(audits, call, kinds, i);
        }
      }
    }
  }

  lemma NewestIsLatest(audits: seq<Audit>, call: nat, kinds: set<Kind>, i: nat)
    requires NewestAbout(audits, call, kinds, i)
    ensures Latest(audits, call, kinds) == Some(audits[i])
  {
    LatestIsNewest(audits, call, kinds);
  }

  /**
   * What confirms that a model rejects the tool: a failed research call that cost nothing, and as
   * the newest word on it a 400 or 422, either to the message itself, before a remote job existed,
   * or from the remote job.
   */
  lemma ConfirmedRejectionIff(audits: seq<Audit>, id: nat, call: Call)
    ensures ConfirmedRejection(audits, id, call) <==>
              && call.research && call.status == Failed && call.billing == NotApplicable
              && exists i: nat :: NewestAbout(audits, id, {SessionFailed, ToolRejected}, i)
                   && (audits[i].httpStatus == 400 || audits[i].httpStatus == 422)
                   && ((audits[i].kind == SessionFailed && |call.remoteJob| == 0 && audits[i].phase == SendMessage)
                       || (audits[i].kind == ToolRejected && |call.remoteJob| > 0 && audits[i].phase == PollRemoteJob))
  {
    LatestIsNewest(audits, id, {SessionFailed, ToolRejected});
    forall i: nat | NewestAbout(audits, id, {SessionFailed, ToolRejected}, i)
      ensures Latest(audits, id, {SessionFailed, ToolRejected}) == Some(audits[i])
    {
      NewestIsLatest(audits, id, {SessionFailed, ToolRejected}, i);
    }
    hide Latest;
  }

  /** What confirms a passing trouble of the provider, and when it was seen. */
  lemma TransientObservedIff(audits: seq<Audit>, id: nat, call: Call, at: int)
    ensures TransientObservedAt(audits, id, call) == Some(at) <==>
              && call.research && call.status == Failed && call.billing == NotApplicable && |call.remoteJob| > 0
              && exists i: nat :: NewestAbout(audits, id, {ProviderTransient}, i) && audits[i].at == at
                   && 500 <= audits[i].httpStatus < 600
                   && audits[i].phase == PollRemoteJob && audits[i].remoteJob == call.remoteJob
  {
    LatestIsNewest(audits, id, {ProviderTransient});
    forall i: nat | NewestAbout(audits, id, {ProviderTransient}, i)
      ensures Latest(audits, id, {ProviderTransient}) == Some(audits[i])
    {
      NewestIsLatest(audits, id, {ProviderTransient}, i);
    }
    hide Latest;
  }

  /** What a call says about its model, and as of when: success, else a rejection, else a passing trouble. */
  lemma ObservationSays(audits: seq<Audit>, id: nat, call: Call)
    ensures match ObservationOf(audits, id, call)
            case Some(Supported(at)) => call.status == Completed && at == call.createdAt
            case Some(Rejected(at)) => ConfirmedRejection(audits, id, call) && at == call.createdAt
            case Some(Transient(at)) =>
              TransientObservedAt(audits, id, call) == Some(at) && !ConfirmedRejection(audits, id, call)
            case None =>
              && call.status != Completed && !ConfirmedRejection(audits, id, call)
              && TransientObservedAt(audits, id, call) == None
    ensures call.status == Completed ==> ObservationOf(audits, id, call) == Some(Supported(call.createdAt))
  {
  }

  // ---------------------------------------------------------------- recording evidence

  /** The remote job identifier when the failure is unambiguous and free, else None. */
  function AcceptedFailure(call: Call, remote: Option<Remote>, transient: bool): Option<string> {
    if !call.research || !call.status.Failed? then None
    else if remote.None? || !remote.value.failed then None
    else if transient && !TransientStatus(remote.value.httpStatus) then None
    else if !transient && !CompatibilityStatus(remote.value.httpStatus) then None
    else
      var job := if call.remoteJob != "" then call.remoteJob else call.externalJob;
      if job == "" || (remote.value.jobId != "" && remote.value.jobId != job) then None
      else if call.credits != 0 || (call.cost.Some? && call.cost.value != 0) || call.billing.Actual? then None
      else Some(job)
  }

  /** Nothing was charged for the call, as far as its row says. */
  predicate Uncharged(call: Call) {
    call.credits == 0 && (call.cost == None || call.cost == Some(0)) && call.billing != Actual
  }

  /**
   * Exactly which remote failures are accepted: the terminal failure of a failed, uncharged research
   * call, with a status of the kind asked for, about the call's own remote job.
   */
  lemma AcceptedFailureIff(call: Call, remote: Option<Remote>, transient: bool, job: string)
    ensures AcceptedFailure(call, remote, transient) == Some(job) <==>
              && call.research && call.status == Failed && Uncharged(call)
              && remote.Some? && remote.value.failed
              && (if transient then 500 <= remote.value.httpStatus < 600
                  else remote.value.httpStatus == 400 || remote.value.httpStatus == 422)
              && |job| > 0 && (job == call.remoteJob || (|call.remoteJob| == 0 && job == call.externalJob))
              && (|remote.value.jobId| == 0 || remote.value.jobId == job)
  {
    if |call.remoteJob| == 0 { assert call.remoteJob == ""; }
  }

  /** Recording changes no charge: whatever the failure, every row keeps what it had cost. */
  lemma RecordingKeepsCharges(w: World, id: nat, remote: Option<Remote>, transient: bool, now: int, i: nat)
    requires id < |w.calls| && i < |w.calls|
    ensures var before, after := w.calls[i], Recorded(w, id, remote, transient, now).calls[i];
            && after.credits == before.credits && (after.billing == Actual <==> before.billing == Actual)
            && (after.cost == before.cost || (before.cost == None && after.cost == Some(0)))
            && after.model == before.model && after.status == before.status && after.createdAt == before.createdAt
            && (after != before ==>
                  i == id && Uncharged(before) && after.cost == Some(0) && after.billing == NotApplicable)
  {
  }

  /** The audit record that recording leaves. */
  lemma RecordingLeavesRecord(w: World, id: nat, remote: Option<Remote>, transient: bool, now: int)
    requires id < |w.calls|
    ensures var t := Recorded(w, id, remote, transient, now);
            if AcceptedFailure(w.calls[id], remote, transient) == None then t.audits == w.audits
            else
              && |t.audits| == |w.audits| + 1 && t.audits[..|w.audits|] == w.audits
              && var a := t.audits[|w.audits|];
                 && a.call == id && a.at == now && a.phase == PollRemoteJob && a.remoteJob == t.calls[id].remoteJob
                 && a.kind == (if transient then ProviderTransient else ToolRejected)
                 && remote.Some? && a.httpStatus == remote.value.httpStatus
  {
  }

  function FreeOfCharge(call: Call, job: string): Call {
    call.(credits := 0, cost := Some(0), billing := NotApplicable, remoteJob := job)
  }

  /** The ledger after recording, unchanged when the failure is not accepted. */
  function Recorded(w: World, id: nat, remote: Option<Remote>, transient: bool, now: int): (t: World)
    requires id < |w.calls|
    ensures |t.calls| == |w.calls|
    ensures AcceptedFailure(w.calls[id], remote, transient).None? ==> t == w
  {
    var job := AcceptedFailure(w.calls[id], remote, transient);
    if job.None? then w
    else World(w.calls[id := FreeOfCharge(w.calls[id], job.value)],
               w.audits + [Audit(if transient then ProviderTransient else ToolRejected, id, now,
                                 remote.value.httpStatus, PollRemoteJob, job.value)])
  }

  /** What is recorded as a rejection reads back as a confirmed rejection. */
  lemma RejectionRoundTrip(w: World, id: nat, remote: Option<Remote>, now: int)
    requires id < |w.calls| && AcceptedFailure(w.calls[id], remote, false).Some?
    ensures var t := Recorded(w, id, remote, false, now);
            && ConfirmedRejection(t.audits, id, t.calls[id])
            && ObservationOf(t.audits, id, t.calls[id]) == Some(Rejected(w.calls[id].createdAt))
  {
  }

  lemma {:induction false} LatestOfKind(audits: seq<Audit>, call: nat, kinds: set<Kind>)
    ensures var e := Latest(audits, call, kinds);
            e.Some? ==> e.value in audits && e.value.call == call && e.value.kind in kinds
  {
    if audits != [] { LatestOfKind(audits[..|audits| - 1], call, kinds); }
  }

  /**
   * What is recorded as transient reads back with its time. It counts as an observation unless
   * the same call was recorded as rejected by the provider before.
   */
  lemma TransientRoundTrip(w: World, id: nat, remote: Option<Remote>, now: int)
    requires id < |w.calls| && AcceptedFailure(w.calls[id], remote, true).Some?
    ensures var t := Recorded(w, id, remote, true, now);
            && TransientObservedAt(t.audits, id, t.calls[id]) == Some(now)
            && ((forall a :: a in w.audits && a.call == id ==> !a.kind.ToolRejected?) ==>
                  ObservationOf(t.audits, id, t.calls[id]) == Some(Transient(now)))
  {
    var t := Recorded(w, id, remote, true, now);
    assert t.audits[..|w.audits|] == w.audits;
    LatestOfKind(w.audits, id, {SessionFailed, ToolRejected});
  }

  /** Records about other calls change nothing for this one. */
  lemma {:induction false} LatestIgnoresOthers(audits: seq<Audit>, more: seq<Audit>, id: nat, kinds: set<Kind>)
    requires forall a :: a in more ==> a.call != id
    ensures Latest(audits + more, id, kinds) == Latest(audits, id, kinds)
  {
    if more == [] {
      assert audits + more == audits;
    } else {
      var front := more[..|more| - 1];
      assert more[|more| - 1] in more && (audits + more)[..|audits + more| - 1] == audits + front;
      LatestIgnoresOthers(audits, front, id, kinds);
    }
  }

  lemma EvidenceIgnoresOthers(audits: seq<Audit>, more: seq<Audit>, id: nat, call: Call)
    requires forall a :: a in more ==> a.call != id
    ensures ConfirmedRejection(audits + more, id, call) == ConfirmedRejection(audits, id, call)
    ensures TransientObservedAt(audits + more, id, call) == TransientObservedAt(audits, id, call)
  {
    LatestIgnoresOthers(audits, more, id, {SessionFailed, ToolRejected});
    LatestIgnoresOthers(audits, more, id, {ProviderTransient});
  }

  // ---------------------------------------------------------------- candidates

  /** An active catalogue row: is its category text, does it match web_search. */
  datatype Row = Row(id: string, text: bool, webSearch: bool)

  datatype Lifetimes = Lifetimes(supported: int, rejected: int, transient: int)

  datatype CandidateError = NoTextModel | NoModelLeft

  const HOUR := 3600000000
  const MINUTE := 60000000

  function AtLeastOne(n: int): (r: int)
    ensures 1 <= r && n <= r && (r == 1 || r == n)
  {
    if n > 1 then n else 1
  }

  function Max(a: int, b: int): int { if a > b then a else b }

  function Min(a: int, b: int): int { if a < b then a else b }

  function TextModels(rows: seq<Row>): set<string> {
    set i | 0 <= i < |rows| && rows[i].text :: rows[i].id
  }

  function WebModels(rows: seq<Row>): set<string> {
    set i | 0 <= i < |rows| && rows[i].webSearch :: rows[i].id
  }

  function SupportedCutoff(life: Lifetimes, now: int): int { now - AtLeastOne(life.supported) * HOUR }

  function RejectedCutoff(life: Lifetimes, now: int): int { now - AtLeastOne(life.rejected) * HOUR }

  function TransientCutoff(life: Lifetimes, now: int): int { now - AtLeastOne(life.transient) * MINUTE }

  function OldestCutoff(life: Lifetimes, now: int): int {
    Min(now - Max(AtLeastOne(life.supported), AtLeastOne(life.rejected)) * HOUR, TransientCutoff(life, now))
  }

  /** The newest conclusive observation of the model among the first `n` calls. */
  function LatestObservation(w: World, model: string, cutoff: int, n: nat): Option<Observation>
    requires n <= |w.calls|
  {
    if n == 0 then None
    else
      var call := w.calls[n - 1];
      var seen := ObservationOf(w.audits, n - 1, call);
      if call.research && call.model == model && call.createdAt >= cutoff && seen.Some? then seen
      else LatestObservation(w, model, cutoff, n - 1)
  }

  function Observed(w: World, model: string, life: Lifetimes, now: int): Option<Observation> {
    LatestObservation(w, model, OldestCutoff(life, now), |w.calls|)
  }

  predicate KnownSupported(w: World, model: string, life: Lifetimes, now: int) {
    var o := Observed(w, model, life, now);
    o.Some? && o.value.Supported? && o.value.at >= SupportedCutoff(life, now)
  }

  /** Ruled out by live evidence: rejected or briefly failing. */
  predicate KnownBad(w: World, model: string, life: Lifetimes, now: int) {
    var o := Observed(w, model, life, now);
    && o.Some?
    && ((o.value.Rejected? && o.value.at >= RejectedCutoff(life, now))
        || (o.value.Transient? && o.value.at >= TransientCutoff(life, now)))
  }

  /** Evidence is only collected about text models. */
  function Unavailable(w: World, rows: seq<Row>, excluded: set<string>, life: Lifetimes, now: int): set<string> {
    (set m | m in excluded && m != "") + (set m | m in TextModels(rows) && KnownBad(w, m, life, now))
  }

  function Proven(w: World, rows: seq<Row>, life: Lifetimes, now: int): set<string> {
    set m | m in TextModels(rows) && KnownSupported(w, m, life, now)
  }

  /** Proven models first, then advertised ones, then any text model. */
  function Choice(proven: set<string>, web: set<string>, text: set<string>, bad: set<string>)
    : Result<set<string>, CandidateError>
  {
    if text == {} then Err(NoTextModel)
    else if proven - bad != {} then Ok(proven - bad)
    else if web - bad != {} then Ok(web - bad)
    else if text - bad != {} then Ok(text - bad)
    else Err(NoModelLeft)
  }

  function Candidates(w: World, rows: seq<Row>, excluded: set<string>, life: Lifetimes, now: int)
    : Result<seq<string>, CandidateError>
  {
    var choice := Choice(Proven(w, rows, life, now), WebModels(rows), TextModels(rows),
                         Unavailable(w, rows, excluded, life, now));
    match choice
    case Err(e) => Err(e)
    case Ok(models) => Ok(SortedKeys(models))
  }

  /** The lifetimes in microseconds, each at least one unit, and how far back calls are looked at. */
  lemma CutoffsAre(life: Lifetimes, now: int)
    ensures now - SupportedCutoff(life, now) == 3600000000 * (if life.supported >= 1 then life.supported else 1)
    ensures now - RejectedCutoff(life, now) == 3600000000 * (if life.rejected >= 1 then life.rejected else 1)
    ensures now - TransientCutoff(life, now) == 60000000 * (if life.transient >= 1 then life.transient else 1)
    ensures var oldest := OldestCutoff(life, now);
            && oldest <= SupportedCutoff(life, now) && oldest <= RejectedCutoff(life, now)
            && oldest <= TransientCutoff(life, now)
            && (oldest == SupportedCutoff(life, now) || oldest == RejectedCutoff(life, now)
                || oldest == TransientCutoff(life, now))
  {
  }

  /** The call at `n` is a research call of the model, recent enough, that says something about it. */
  ghost predicate Conclusive(w: World, model: string, cutoff: int, n: nat) {
    && n < |w.calls| && w.calls[n].research && w.calls[n].model == model && w.calls[n].createdAt >= cutoff
    && ObservationOf(w.audits, n, w.calls[n]) != None
  }

  /** The newest conclusive call is the one that counts. */
  lemma {:induction false} LatestObservationIsNewest(w: World, model: string, cutoff: int, n: nat)
    requires n <= |w.calls|
    ensures match LatestObservation(w, model, cutoff, n)
            case Some(o) =>
              exists i: nat :: i < n && Conclusive(w, model, cutoff, i)
                && ObservationOf(w.audits, i, w.calls[i]) == Some(o)
                && forall j: nat :: i < j < n ==> !Conclusive(w, model, cutoff, j)
            case None => forall i: nat :: i < n ==> !Conclusive(w, model, cutoff, i)
  {
    hide ObservationOf;
    if n > 0 {
      LatestObservationIsNewest(w, model, cutoff, n - 1);
      assert Conclusive(w, model, cutoff, n - 1)
             || LatestObservation(w, model, cutoff, n) == LatestObservation(w, model, cutoff, n - 1);
    }
  }

  /** The newest conclusive call among all is this observation. */
  ghost predicate Shows(w: World, model: string, life: Lifetimes, now: int, o: Observation) {
    exists i: nat :: Conclusive(w, model, OldestCutoff(life, now), i)
      && ObservationOf(w.audits, i, w.calls[i]) == Some(o)
      && forall j: nat :: i < j ==> !Conclusive(w, model, OldestCutoff(life, now), j)
  }

  lemma ObservedIff(w: World, model: string, life: Lifetimes, now: int, o: Observation)
    ensures Observed(w, model, life, now) == Some(o) <==> Shows(w, model, life, now, o)
  {
    var cutoff := OldestCutoff(life, now);
    LatestObservationIsNewest(w, model, cutoff, |w.calls|);
    hide LatestObservation, ObservationOf, OldestCutoff;
    if Shows(w, model, life, now, o) {
      var i: nat :| Conclusive(w, model, cutoff, i) && ObservationOf(w.audits, i, w.calls[i]) == Some(o)
                    && forall j: nat :: i < j ==> !Conclusive(w, model, cutoff, j);
      assert LatestObservation(w, model, cutoff, |w.calls|).Some?;
    }
  }

  /**
   * Which models are out: those excluded by name, and the text models whose newest evidence is a
   * rejection or a passing trouble that has not lapsed.
   */
  lemma UnavailableIff(w: World, rows: seq<Row>, excluded: set<string>, life: Lifetimes, now: int, model: string)
    ensures model in Unavailable(w, rows, excluded, life, now) <==>
              || (model in excluded && |model| > 0)
              || ((exists i :: 0 <= i < |rows| && rows[i].text && rows[i].id == model)
                  && exists o :: Shows(w, model, life, now, o)
                       && ((o.Rejected? && o.at >= RejectedCutoff(life, now))
                           || (o.Transient? && o.at >= TransientCutoff(life, now))))
  {
    EvidenceShown(w, model, life, now);
    hide Observed, Shows, RejectedCutoff, TransientCutoff;
  }

  lemma EvidenceShown(w: World, model: string, life: Lifetimes, now: int)
    ensures forall o :: Observed(w, model, life, now) == Some(o) <==> Shows(w, model, life, now, o)
  {
    forall o ensures Observed(w, model, life, now) == Some(o) <==> Shows(w, model, life, now, o) {
      ObservedIff(w, model, life, now, o);
    }
  }

  /** Which models are proven: the text models whose newest evidence is a success that has not lapsed. */
  lemma ProvenIff(w: World, rows: seq<Row>, life: Lifetimes, now: int, model: string)
    ensures model in Proven(w, rows, life, now) <==>
              && (exists i :: 0 <= i < |rows| && rows[i].text && rows[i].id == model)
              && exists o :: Shows(w, model, life, now, o) && o.Supported? && o.at >= SupportedCutoff(life, now)
  {
    EvidenceShown(w, model, life, now);
    hide Observed, Shows, SupportedCutoff;
  }

  /** Which models are offered: proven ones if any is available, else advertised ones, else any text model. */
  lemma CandidatesPrefer(w: World, rows: seq<Row>, excluded: set<string>, life: Lifetimes, now: int, model: string)
    requires Candidates(w, rows, excluded, life, now).Ok?
    ensures var bad, proven := Unavailable(w, rows, excluded, life, now), Proven(w, rows, life, now);
            var offered := model in Candidates(w, rows, excluded, life, now).value;
            var text := exists i :: 0 <= i < |rows| && rows[i].text && rows[i].id == model;
            var web := exists i :: 0 <= i < |rows| && rows[i].webSearch && rows[i].id == model;
            if exists m :: m in proven && m !in bad then offered <==> model in proven && model !in bad
            else if exists i :: 0 <= i < |rows| && rows[i].webSearch && rows[i].id !in bad
            then offered <==> web && model !in bad
            else offered <==> text && model !in bad
  {
    hide Unavailable, Proven, SortedKeys;
    var bad, proven := Unavailable(w, rows, excluded, life, now), Proven(w, rows, life, now);
    Minus(proven, bad);
    Minus(WebModels(rows), bad);
    if i :| 0 <= i < |rows| && rows[i].webSearch && rows[i].id !in bad { assert rows[i].id in WebModels(rows); }
  }

  lemma Minus(a: set<string>, b: set<string>)
    ensures a - b == {} <==> a <= b
  {
    assert forall x :: x in a && x !in b ==> x in a - b;
  }

  lemma ChoiceIsUsable(proven: set<string>, web: set<string>, text: set<string>, bad: set<string>)
    requires proven <= text
    ensures var r := Choice(proven, web, text, bad);
            && (r.Ok? ==> r.value != {} && r.value <= text + web && r.value !! bad)
            && (r == Err(NoTextModel) <==> text == {})
            && (text != {} ==> (r == Err(NoModelLeft) <==> text + web <= bad))
  {
    Minus(proven, bad);
    Minus(web, bad);
    Minus(text, bad);
  }

  /**
   * The candidate list is sorted, nonempty, known to the catalogue and free of unavailable
   * models; with a text model in the catalogue it fails exactly when every catalogue model that
   * could serve is unavailable.
   */
  lemma CandidatesAreUsable(w: World, rows: seq<Row>, excluded: set<string>, life: Lifetimes, now: int)
    ensures var r := Candidates(w, rows, excluded, life, now);
            var all, bad := TextModels(rows) + WebModels(rows), Unavailable(w, rows, excluded, life, now);
            && (r.Ok? ==>
                  StrictlySorted(r.value) && r.value != [] && forall m :: m in r.value ==> m in all && m !in bad)
            && (r == Err(NoTextModel) <==> TextModels(rows) == {})
            && (TextModels(rows) != {} ==> (r == Err(NoModelLeft) <==> all <= bad))
  {
    hide Observed, KnownSupported, Unavailable, TextModels, WebModels, Choice, StrictlySorted, SortedKeys;
    var text, web, bad := TextModels(rows), WebModels(rows), Unavailable(w, rows, excluded, life, now);
    ChoiceIsUsable(Proven(w, rows, life, now), web, text, bad);
    var choice := Choice(Proven(w, rows, life, now), web, text, bad);
    if choice.Ok? { SortedKeysAreSorted(choice.value); }
  }

  /** A text model without conclusive bad evidence and not excluded keeps the negotiation alive. */
  lemma UntriedTextModelSuffices(w: World, rows: seq<Row>, excluded: set<string>, life: Lifetimes, now: int,
                                 model: string)
    requires model in TextModels(rows) && model !in excluded && !KnownBad(w, model, life, now)
    ensures Candidates(w, rows, excluded, life, now).Ok?
  {
    assert model !in Unavailable(w, rows, excluded, life, now);
    CandidatesAreUsable(w, rows, excluded, life, now);
  }

  /**
   * Evidence is not looked up for models outside the text category: an advertised one stays a
   * candidate whatever was observed about it, as long as no text model is proven.
   */
  lemma EvidenceSparesNonTextModels(w: World, rows: seq<Row>, excluded: set<string>, life: Lifetimes, now: int,
                                    model: string)
    requires TextModels(rows) != {} && model in WebModels(rows) && model !in TextModels(rows) && model !in excluded
    ensures var r := Candidates(w, rows, excluded, life, now);
            r.Ok? && (model in r.value <==> Proven(w, rows, life, now) <= Unavailable(w, rows, excluded, life, now))
  {
    hide KnownBad, KnownSupported, TextModels, WebModels;
    var bad := Unavailable(w, rows, excluded, life, now);
    assert model in WebModels(rows) - bad;
    Minus(Proven(w, rows, life, now), bad);
  }

  class Ledger {
    var calls: seq<Call>
    var audits: seq<Audit>

    ghost function View(): World
      reads this
    {
      World(calls, audits)
    }

    constructor ()
      ensures View() == World([], [])
    {
      calls, audits := [], [];
    }

    /** The shared part of both recorders: accept the failure or leave everything as it is. */
    method RecordRemoteFailure(id: nat, remote: Option<Remote>, transient: bool) returns (job: Option<string>)
      requires id < |calls|
      ensures job == AcceptedFailure(calls[id], remote, transient)
    {
      var call := calls[id];
      if !call.research || call.status != Failed {
        return None;
      }
      if remote.None? || !remote.value.failed {
        return None;
      }
      var status := remote.value.httpStatus;
      var allowed := if transient then TransientStatus(status) else CompatibilityStatus(status);
      if !allowed {
        return None;
      }
      var remoteJob := call.remoteJob;
      if remoteJob == "" {
        remoteJob := call.externalJob;
      }
      if remoteJob == "" || (remote.value.jobId != "" && remote.value.jobId != remoteJob) {
        return None;
      }
      if call.credits != 0 {
        return None;
      }
      if call.cost.Some? && call.cost.value != 0 {
        return None;
      }
      if call.billing == Actual {
        return None;
      }
      job := Some(remoteJob);
    }

    method RecordToolRejection(id: nat, remote: Option<Remote>, now: int) returns (recorded: bool)
      requires id < |calls|
      modifies this
      ensures recorded == AcceptedFailure(old(calls)[id], remote, false).Some?
      ensures View() == Recorded(old(View()), id, remote, false, now)
    {
      var job := RecordRemoteFailure(id, remote, false);
      if job.None? {
        return false;
      }
      calls := calls[id := calls[id].(billing := NotApplicable, remoteJob := job.value, credits := 0, cost := Some(0))];
      audits := audits + [Audit(ToolRejected, id, now, remote.value.httpStatus, PollRemoteJob, job.value)];
      recorded := true;
    }

    method RecordProviderTransient(id: nat, remote: Option<Remote>, now: int) returns (recorded: bool)
      requires id < |calls|
      modifies this
      ensures recorded == AcceptedFailure(old(calls)[id], remote, true).Some?
      ensures View() == Recorded(old(View()), id, remote, true, now)
    {
      var job := RecordRemoteFailure(id, remote, true);
      if job.None? {
        return false;
      }
      calls := calls[id := calls[id].(billing := NotApplicable, remoteJob := job.value, credits := 0, cost := Some(0))];
      audits := audits + [Audit(ProviderTransient, id, now, remote.value.httpStatus, PollRemoteJob, job.value)];
      recorded := true;
    }

    /** Newest call first; the first conclusive observation of a model stays. */
    method LatestObservations(text: set<string>, cutoff: int) returns (latest: map<string, Observation>)
      ensures forall m :: m in text ==>
                LatestObservation(View(), m, cutoff, |calls|) == if m in latest then Some(latest[m]) else None
      ensures forall m :: m in latest ==> m in text
    {
      latest := map[];
      var n := |calls|;
      while n > 0
        invariant 0 <= n <= |calls|
        invariant forall m :: m in latest ==> m in text
        invariant forall m :: m in text ==>
                    LatestObservation(View(), m, cutoff, |calls|)
                    == if m in latest then Some(latest[m]) else LatestObservation(View(), m, cutoff, n)
      {
        n := n - 1;
        var call := calls[n];
        if call.research && call.model in text && call.createdAt >= cutoff && call.model !in latest {
          if call.status == Completed {
            latest := latest[call.model := Supported(call.createdAt)];
          } else if ConfirmedRejection(audits, n, call) {
            latest := latest[call.model := Rejected(call.createdAt)];
          } else {
            var observed := TransientObservedAt(audits, n, call);
            if observed.Some? {
              latest := latest[call.model := Transient(observed.value)];
            }
          }
        }
      }
    }

    method ResearchModelIds(rows: seq<Row>, excluded: set<string>, life: Lifetimes, now: int)
      returns (r: Result<seq<string>, CandidateError>)
      ensures r == Candidates(View(), rows, excluded, life, now)
    {
      var text := TextModels(rows);
      if text == {} {
        return Err(NoTextModel);
      }
      var web := WebModels(rows);
      var latest := LatestObservations(text, OldestCutoff(life, now));
      var supported := set m | m in text && m in latest && latest[m].Supported?
        && latest[m].at >= SupportedCutoff(life, now);
      var rejected := set m | m in text && m in latest && latest[m].Rejected?
        && latest[m].at >= RejectedCutoff(life, now);
      var transient := set m | m in text && m in latest && latest[m].Transient?
        && latest[m].at >= TransientCutoff(life, now);
      var unavailable := (set m | m in excluded && m != "") + rejected + transient;
      assert unavailable == Unavailable(View(), rows, excluded, life, now);
      assert supported == Proven(View(), rows, life, now);
      Minus(web, unavailable);
      var proven := supported - unavailable;
      if proven != {} {
        return Ok(SortedKeys(proven));
      }
      var preferred := (if web != {} then web else text) - unavailable;
      if preferred != {} {
        return Ok(SortedKeys(preferred));
      }
      if web != {} {
        var fallback := text - unavailable;
        if fallback != {} {
          return Ok(SortedKeys(fallback));
        }
      }
      r := Err(NoModelLeft);
    }
  }
}
