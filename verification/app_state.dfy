/** The coordinator's local state: the React state hooks of the App
    component, gathered into one immutable record. */
module AppState {
  import opened Wrappers

  /** The only origin whose cross-window messages are acted upon, and the
      prefix put in front of a vote record's document path. */
  const TrustedOrigin: string := "http://127.0.0.1:5000"

  /** The fixed administrative surface shown in the set-up phases. */
  const AdminSurfaceUrl: string := "http://127.0.0.1:5000/vote_admin"

  /** The phase number the remote contract reports for Idle. */
  const IdlePhase: nat := 0

  /** One row of the vote table: when it arrived (the last clock text the
      poller displayed), the document link, the proof hash and the
      transaction link. */
  datatype VoteRecord = VoteRecord(time: string, pdf: string, proof: string, txOnBlockchain: string)

  /** `votingUrl` and `iframeSrc` are optional because a message may carry
      no `voteUrl` at all, and that absent value is stored as it is. */
  datatype State = State(
    currentPhase: nat,
    activeGroup: bool,
    showWebView: bool,
    displayCurrentTime: string,
    displayNextVoteTime: string,
    votingUrl: Option<string>,
    iframeSrc: Option<string>,
    voteData: seq<VoteRecord>)

  /** The state every hook starts from. */
  const Initial: State := State(IdlePhase, false, false, "", "", Some(""), Some(""), [])

  /** The derived flag agrees with the mirrored phase. */
  predicate MirrorConsistent(s: State) {
    s.activeGroup == (s.currentPhase != IdlePhase)
  }
}
