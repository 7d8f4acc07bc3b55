/** Phase mirroring and surface selection: `fetchCurrentPhaseActiveGroup`,
    `updateNextVoteTime`, the decision at the end of `checkAndUpdate`, the
    two contract-event handlers and `renderPhaseMessage`. Remote reads are
    inputs: None for a read that failed. */
module Display {
  import opened Wrappers
  import opened Text
  import opened AppState

  /** `Number.MAX_SAFE_INTEGER`; `BigNumber.toNumber()` throws above it. */
  const MaxSafeInteger: nat := 0x1F_FFFF_FFFF_FFFF

  /** The local clock face of an epoch time, as `Date` reports it. */
  datatype ClockFace = ClockFace(hours: nat, minutes: nat, seconds: nat)

  /** A read of the contract's next execution time: the epoch seconds and
      the local clock face they convert to. */
  datatype TimeRead = TimeUnavailable | TimeRead(epochSeconds: nat, face: ClockFace)

  /** The result of submitting `checkAndUpdateExecution`, waiting for it and
      reading the phase back; any failure along that path is one outcome. */
  datatype AdvanceOutcome = AdvanceFailed | Advanced(phase: nat, next: TimeRead)

  /** The surface class `checkAndUpdate` picks for a phase. */
  datatype Surface = NoSurface | AdminSurface | VotingSurface

  function FaceText(f: ClockFace): string {
    ClockText(f.hours, f.minutes, f.seconds)
  }

  /** `fetchCurrentPhaseActiveGroup` given the outcome of the phase read. */
  function FetchCurrentPhase(s: State, read: Option<nat>): (r: State)
    ensures read.None? ==> r == s
    ensures read.Some? ==> r.currentPhase == read.value && r.activeGroup == (read.value != IdlePhase)
    ensures read.Some? ==> MirrorConsistent(r)
    ensures r == s.(currentPhase := r.currentPhase, activeGroup := r.activeGroup)
  {
    match read
    case None => s
    case Some(p) => s.(activeGroup := p != IdlePhase, currentPhase := p)
  }

  /** `updateNextVoteTime`: shows the next execution time as clock text;
      a failed read, or a value `toNumber()` refuses, changes nothing. */
  function UpdateNextVoteTime(s: State, read: TimeRead): (r: State)
    ensures r == s.(displayNextVoteTime := r.displayNextVoteTime)
    ensures read.TimeRead? && read.epochSeconds <= MaxSafeInteger ==>
      r.displayNextVoteTime == FaceText(read.face)
    ensures read.TimeUnavailable? || read.epochSeconds > MaxSafeInteger ==> r == s
  {
    match read
    case TimeUnavailable => s
    case TimeRead(secs, face) =>
      if secs > MaxSafeInteger then s else s.(displayNextVoteTime := FaceText(face))
  }

  /** The surface `checkAndUpdate` picks for a phase: set-up phases (2, 3)
      show the administrative surface, submission and voting windows (1, 4)
      the voting surface, everything else nothing. */
  function PolicyFor(phase: nat): Surface {
    if phase == 2 || phase == 3 then AdminSurface
    else if phase == 1 || phase == 4 then VotingSurface
    else NoSurface
  }

  /** The decision at the end of `checkAndUpdate` for a freshly read phase. */
  function ApplyDisplayPolicy(s: State, phase: nat): (r: State)
    ensures (phase == 2 || phase == 3) ==> r.iframeSrc == Some(AdminSurfaceUrl) && r.showWebView
    ensures (phase == 1 || phase == 4) ==> r.iframeSrc == s.votingUrl && r.showWebView
    ensures !(1 <= phase <= 4) ==> r == s.(showWebView := false)
    ensures r == s.(iframeSrc := r.iframeSrc, showWebView := r.showWebView)
  {
    if phase == 2 || phase == 3 then s.(iframeSrc := Some(AdminSurfaceUrl), showWebView := true)
    else if phase == 1 || phase == 4 then s.(iframeSrc := s.votingUrl, showWebView := true)
    else s.(showWebView := false)
  }

  /** What the page embeds: None when the web view is hidden, otherwise the
      iframe's source (itself None when that source is undefined). */
  function Rendered(s: State): Option<Option<string>> {
    if s.showWebView then Some(s.iframeSrc) else None
  }

  /** The URL a surface class stands for, given the stored voting URL. */
  function SurfaceUrl(surface: Surface, votingUrl: Option<string>): Option<Option<string>> {
    match surface
    case NoSurface => None
    case AdminSurface => Some(Some(AdminSurfaceUrl))
    case VotingSurface => Some(votingUrl)
  }

  /** After the decision, what is embedded is exactly the surface the phase
      policy names, resolved against the stored voting URL. */
  lemma DisplayFollowsPolicy(s: State, phase: nat)
    ensures Rendered(ApplyDisplayPolicy(s, phase)) == SurfaceUrl(PolicyFor(phase), s.votingUrl)
  {
  }

  /** The voting branch has no empty-URL guard: a voting phase with an
      empty stored URL still shows the web view, with an empty source. */
  lemma VotingSurfaceWithEmptyUrl(s: State, phase: nat)
    requires phase == 1 || phase == 4
    requires s.votingUrl == Some("")
    ensures Rendered(ApplyDisplayPolicy(s, phase)) == Some(Some(""))
  {
  }

  /** `checkAndUpdate`: after a confirmed advance, mirror the phase (but
      not the active-group flag), refresh the next execution time, then
      pick the surface; a failure anywhere before that changes nothing. */
  function CheckAndUpdate(s: State, outcome: AdvanceOutcome): (r: State)
    ensures outcome.AdvanceFailed? ==> r == s
    ensures outcome.Advanced? ==> r.currentPhase == outcome.phase
    ensures outcome.Advanced? ==> Rendered(r) == SurfaceUrl(PolicyFor(outcome.phase), s.votingUrl)
    ensures outcome.Advanced? && !(1 <= outcome.phase <= 4) ==> r.iframeSrc == s.iframeSrc
    ensures outcome.Advanced? ==>
      r.displayNextVoteTime == UpdateNextVoteTime(s, outcome.next).displayNextVoteTime
    // nothing but the phase, the next-time text and the display changes; the flag in particular stays
    ensures r == s.(currentPhase := r.currentPhase, displayNextVoteTime := r.displayNextVoteTime,
                    iframeSrc := r.iframeSrc, showWebView := r.showWebView)
  {
    match outcome
    case AdvanceFailed => s
    case Advanced(p, next) =>
      DisplayFollowsPolicy(UpdateNextVoteTime(s.(currentPhase := p), next), p);
      ApplyDisplayPolicy(UpdateNextVoteTime(s.(currentPhase := p), next), p)
  }

  /** The `DisplayWebView` contract event: shows the view, keeps the source. */
  function OnDisplayWebView(s: State): (r: State)
    ensures r.showWebView && r == s.(showWebView := true)
    ensures Rendered(r) == Some(s.iframeSrc)
  {
    s.(showWebView := true)
  }

  /** The `CloseWebView` contract event: hides the view, keeps the source. */
  function OnCloseWebView(s: State): (r: State)
    ensures !r.showWebView && r == s.(showWebView := false)
    ensures Rendered(r) == None
  {
    s.(showWebView := false)
  }

  /** The contract events choose only whether the view is visible, never
      which source it embeds: after a phase decision that hid the view, a
      `DisplayWebView` event shows again whatever source was embedded
      before that decision, and a `CloseWebView` after an admin or voting
      decision leaves the chosen source in place for the next show. */
  lemma PushEventsKeepSurface(s: State, phase: nat)
    ensures !(1 <= phase <= 4) ==> Rendered(OnDisplayWebView(ApplyDisplayPolicy(s, phase))) == Some(s.iframeSrc)
    ensures 1 <= phase <= 4 ==>
      Rendered(OnDisplayWebView(OnCloseWebView(ApplyDisplayPolicy(s, phase)))) == Rendered(ApplyDisplayPolicy(s, phase))
    ensures OnDisplayWebView(s).iframeSrc == s.iframeSrc && OnCloseWebView(s).iframeSrc == s.iframeSrc
  {
  }

  /** Hiding and showing again undoes itself: from a shown view, a close
      followed by a display event restores the state exactly, and from a
      hidden view the reverse order does. */
  lemma PushEventsInverse(s: State)
    ensures s.showWebView ==> OnDisplayWebView(OnCloseWebView(s)) == s
    ensures !s.showWebView ==> OnCloseWebView(OnDisplayWebView(s)) == s
  {
  }

  /** The label `renderPhaseMessage` puts before the next execution time. */
  function PhaseLabel(phase: nat): string {
    if phase == 1 then "Next submission: "
    else if phase == 2 then "End of submission: "
    else if phase == 3 then "Next vote: "
    else if phase == 4 then "End of vote: "
    else ""
  }

  /** `renderPhaseMessage`: a banner for the four non-idle phases, nothing
      (`null`) otherwise. */
  function RenderPhaseMessage(s: State): (r: Option<string>)
    ensures r.Some? <==> 1 <= s.currentPhase <= 4
    ensures s.currentPhase == 1 ==> r == Some("Next submission: " + s.displayNextVoteTime)
    ensures s.currentPhase == 2 ==> r == Some("End of submission: " + s.displayNextVoteTime)
    ensures s.currentPhase == 3 ==> r == Some("Next vote: " + s.displayNextVoteTime)
    ensures s.currentPhase == 4 ==> r == Some("End of vote: " + s.displayNextVoteTime)
    ensures r.Some? ==> EndsWith(r.value, s.displayNextVoteTime)
    ensures r.Some? ==> EndsWith(r.value[..|r.value| - |s.displayNextVoteTime|], ": ")
  {
    if 1 <= s.currentPhase <= 4 then
      var r := PhaseLabel(s.currentPhase) + s.displayNextVoteTime;
      assert r[|r| - |s.displayNextVoteTime|..] == s.displayNextVoteTime;
      assert r[..|r| - |s.displayNextVoteTime|] == PhaseLabel(s.currentPhase);
      Some(r)
    else None
  }

  /** The banner tells the four phases apart: two states showing the same
      next execution time but different non-idle phases get different
      banners, and the time is recovered from the banner's end. */
  lemma PhaseBannersDistinct(s: State, t: State)
    requires 1 <= s.currentPhase <= 4 && 1 <= t.currentPhase <= 4
    requires s.displayNextVoteTime == t.displayNextVoteTime
    ensures RenderPhaseMessage(s) == RenderPhaseMessage(t) <==> s.currentPhase == t.currentPhase
  {
    var a, b := RenderPhaseMessage(s).value, RenderPhaseMessage(t).value;
    var n := |s.displayNextVoteTime|;
    if a == b {
      assert a[..|a| - n] == PhaseLabel(s.currentPhase);
      assert b[..|b| - n] == PhaseLabel(t.currentPhase);
    }
  }
}
