/** One tick of the polling interval the App component runs while a group
    is active: read the chain clock, show it, read the next execution time
    and, when it is due, run `checkAndUpdate`. */
module Scheduler {
  import opened Wrappers
  import opened AppState
  import opened Display

  /** What one tick reads from the chain. `BlockUnavailable`: the block
      number or block read failed. Otherwise the block timestamp and its
      local clock face, the next execution time (None when the read
      failed), and the outcome `checkAndUpdate` would have if it ran. */
  datatype TickReads =
    | BlockUnavailable
    | BlockRead(timestamp: nat, face: ClockFace, next: Option<nat>, advance: AdvanceOutcome)

  datatype Tick = Tick(state: State, advanceRequested: bool)

  /** The trigger rule: an advance is due once the chain clock has reached
      the next execution time, and only while a group is active. */
  predicate AdvanceDue(activeGroup: bool, currentTime: nat, nextTime: nat) {
    activeGroup && currentTime >= nextTime
  }

  /** One poll tick. No interval exists while the group is inactive, so
      such a tick does nothing; nothing remembers an earlier advance. */
  function PollTick(s: State, obs: TickReads): (r: Tick)
    ensures !s.activeGroup ==> r == Tick(s, false)
    // a failed block read is caught before the clock text is shown
    ensures obs.BlockUnavailable? ==> r == Tick(s, false)
    ensures r.advanceRequested <==>
      obs.BlockRead? && obs.next.Some? && obs.next.value <= MaxSafeInteger
      && AdvanceDue(s.activeGroup, obs.timestamp, obs.next.value)
    ensures r.advanceRequested ==> r.state == CheckAndUpdate(s.(displayCurrentTime := r.state.displayCurrentTime), obs.advance)
    ensures !r.advanceRequested ==> r.state == s.(displayCurrentTime := r.state.displayCurrentTime)
    ensures s.activeGroup && obs.BlockRead? ==> r.state.displayCurrentTime == FaceText(obs.face)
    ensures r.state.activeGroup == s.activeGroup && r.state.voteData == s.voteData
  {
    if !s.activeGroup then Tick(s, false)
    else
      match obs
      case BlockUnavailable => Tick(s, false)
      case BlockRead(now, face, next, advance) =>
        var shown := s.(displayCurrentTime := FaceText(face));
        if next.None? || next.value > MaxSafeInteger then Tick(shown, false)
        else if now >= next.value then Tick(CheckAndUpdate(shown, advance), true)
        else Tick(shown, false)
  }

  /** There is no at-most-once guard: a second tick that sees the same
      chain time and the same next execution time as a tick that requested
      an advance requests another one, whatever the first advance did. */
  lemma NoRepeatGuard(s: State, first: TickReads, second: TickReads)
    requires first.BlockRead? && second.BlockRead?
    requires second.timestamp == first.timestamp && second.next == first.next
    requires PollTick(s, first).advanceRequested
    ensures PollTick(PollTick(s, first).state, second).advanceRequested
  {
  }

  /** A stored voting URL followed by a tick that advances into a voting
      phase embeds exactly that URL. */
  lemma StoredUrlShownInVotingPhase(s: State, url: Option<string>, obs: TickReads)
    requires s.votingUrl == url && s.activeGroup
    requires obs.BlockRead? && obs.next.Some? && obs.next.value <= MaxSafeInteger
    requires obs.timestamp >= obs.next.value
    requires obs.advance.Advanced? && (obs.advance.phase == 1 || obs.advance.phase == 4)
    ensures Rendered(PollTick(s, obs).state) == Some(url)
  {
  }

  /** The flag and the phase can drift apart: the check-and-update path
      mirrors the phase but not the flag, so an advance that lands on Idle
      leaves a consistent state inconsistent, and every other advance keeps
      it consistent. */
  lemma AdvanceToIdleBreaksMirror(s: State, obs: TickReads)
    requires MirrorConsistent(s)
    requires PollTick(s, obs).advanceRequested && obs.advance.Advanced?
    ensures MirrorConsistent(PollTick(s, obs).state) <==> obs.advance.phase != IdlePhase
  {
  }
}
