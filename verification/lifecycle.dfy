/** The group lifecycle (`createGroup`, `closeGroup`) and the whole
    coordinator as one step function over the events that reach it, with
    the ledger's append-only property over any run. */
module Lifecycle {
  import opened Wrappers
  import opened AppState
  import opened Display
  import opened Gateway
  import opened Scheduler

  /** The result of submitting `createGroup` and waiting for it; on
      confirmation, the phase read that follows (None when it failed) and
      the next execution time read. */
  datatype CreateOutcome = CreateFailed | Created(phase: Option<nat>, next: TimeRead)

  /** The result of submitting `closeGroup` and waiting for it; on
      confirmation, the phase read that follows (None when it failed).
      Closing does not refresh the next execution time. */
  datatype CloseOutcome = CloseFailed | Closed(phase: Option<nat>)

  /** `createGroup`: after a confirmed transaction, mirror the phase and
      refresh the next execution time; the ledger is not touched. */
  function CreateGroup(s: State, outcome: CreateOutcome): (r: State)
    ensures outcome.CreateFailed? ==> r == s
    ensures outcome.Created? && outcome.phase.Some? ==>
      r.currentPhase == outcome.phase.value && MirrorConsistent(r)
    ensures outcome.Created? && outcome.phase.None? ==>
      r.currentPhase == s.currentPhase && r.activeGroup == s.activeGroup
    ensures outcome.Created? ==>
      r.displayNextVoteTime == UpdateNextVoteTime(s, outcome.next).displayNextVoteTime
    // only the phase, the flag and the next-time text can change
    ensures r == s.(currentPhase := r.currentPhase, activeGroup := r.activeGroup,
                    displayNextVoteTime := r.displayNextVoteTime)
  {
    match outcome
    case CreateFailed => s
    case Created(phase, next) => UpdateNextVoteTime(FetchCurrentPhase(s, phase), next)
  }

  /** `closeGroup`: after a confirmed transaction, re-read the phase and
      empty the ledger. The phase read handles its own failure, so the
      ledger is emptied even when that read fails. */
  function CloseGroup(s: State, outcome: CloseOutcome): (r: State)
    ensures outcome.CloseFailed? ==> r == s
    ensures outcome.Closed? ==> r.voteData == []
    ensures outcome.Closed? && outcome.phase.Some? ==>
      r.currentPhase == outcome.phase.value && MirrorConsistent(r)
    ensures outcome.Closed? && outcome.phase.None? ==> r == s.(voteData := [])
    // only the phase, the flag and the ledger can change
    ensures r == s.(currentPhase := r.currentPhase, activeGroup := r.activeGroup, voteData := r.voteData)
  {
    match outcome
    case CloseFailed => s
    case Closed(phase) => FetchCurrentPhase(s, phase).(voteData := [])
  }

  /** Everything that can reach the coordinator. */
  datatype Event =
    | Inbound(message: Message)
    | PhaseRefresh(phaseRead: Option<nat>)
    | DisplayWebView
    | CloseWebView
    | PollInterval(tick: TickReads)
    | Create(createOutcome: CreateOutcome)
    | Close(closeOutcome: CloseOutcome)

  function Step(s: State, e: Event): State {
    match e
    case Inbound(m) => ReceiveMessage(s, m).state
    case PhaseRefresh(p) => FetchCurrentPhase(s, p)
    case DisplayWebView => OnDisplayWebView(s)
    case CloseWebView => OnCloseWebView(s)
    case PollInterval(t) => PollTick(s, t).state
    case Create(o) => CreateGroup(s, o)
    case Close(o) => CloseGroup(s, o)
  }

  function Run(s: State, es: seq<Event>): State
    decreases |es|
  {
    if es == [] then s else Run(Step(s, es[0]), es[1..])
  }

  /** The one event that removes records: a confirmed close. */
  predicate ClearsLedger(e: Event) {
    e.Close? && e.closeOutcome.Closed?
  }

  /** Every event other than a confirmed close keeps the whole ledger as a
      prefix of the new one and adds at most one record; a confirmed close
      empties it. */
  lemma StepLedger(s: State, e: Event)
    ensures !ClearsLedger(e) ==> s.voteData <= Step(s, e).voteData
    ensures !ClearsLedger(e) ==> |Step(s, e).voteData| <= |s.voteData| + 1
    ensures ClearsLedger(e) ==> Step(s, e).voteData == []
  {
  }

  /** Over any run without a confirmed close, no record is removed or
      altered: the starting ledger is a prefix of the final one. */
  lemma {:induction false} RunWithoutCloseOnlyAppends(s: State, es: seq<Event>)
    requires forall i :: 0 <= i < |es| ==> !ClearsLedger(es[i])
    ensures s.voteData <= Run(s, es).voteData
    decreases |es|
  {
    if es != [] {
      StepLedger(s, es[0]);
      RunWithoutCloseOnlyAppends(Step(s, es[0]), es[1..]);
    }
  }

  /** Conversely, a run whose final ledger does not extend its starting one
      contains a confirmed close. */
  lemma LostRecordsMeanClose(s: State, es: seq<Event>)
    requires !(s.voteData <= Run(s, es).voteData)
    ensures exists i :: 0 <= i < |es| && ClearsLedger(es[i])
  {
    if forall i :: 0 <= i < |es| ==> !ClearsLedger(es[i]) {
      RunWithoutCloseOnlyAppends(s, es);
    }
  }

  /** Whatever came before, a run ending in a confirmed close whose phase
      read returns Idle leaves an empty ledger, Idle phase and no active
      group, which also stops the poll ticks. */
  lemma {:induction false} CloseResetsToIdle(s: State, es: seq<Event>)
    ensures var r := Run(s, es + [Close(Closed(Some(IdlePhase)))]);
      r.voteData == [] && r.currentPhase == IdlePhase && !r.activeGroup
    decreases |es|
  {
    var close := Close(Closed(Some(IdlePhase)));
    if es == [] {
      assert es + [close] == [close];
    } else {
      assert (es + [close])[1..] == es[1..] + [close];
      CloseResetsToIdle(Step(s, es[0]), es[1..]);
    }
  }

  /** The hooks' starting values: Idle with no group, flag and phase in
      agreement, no view embedded, an empty ledger, and no polling until a
      group becomes active. */
  lemma InitialIsIdle(obs: TickReads)
    ensures MirrorConsistent(Initial) && !Initial.activeGroup
    ensures Rendered(Initial) == None && Initial.voteData == []
    ensures PollTick(Initial, obs) == Tick(Initial, false)
  {
  }

  /** The flag and the phase stay in agreement across every event except a
      poll tick whose advance lands on Idle. */
  lemma StepKeepsMirror(s: State, e: Event)
    requires MirrorConsistent(s)
    requires !(e.PollInterval? && PollTick(s, e.tick).advanceRequested
               && e.tick.advance.Advanced? && e.tick.advance.phase == IdlePhase)
    ensures MirrorConsistent(Step(s, e))
  {
    if e.PollInterval? && PollTick(s, e.tick).advanceRequested && e.tick.advance.Advanced? {
      AdvanceToIdleBreaksMirror(s, e.tick);
    }
  }
}
