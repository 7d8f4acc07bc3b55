/** The cross-window message handler (`receiveMessage` in App.js): origin
    check, dispatch on the message type, validation of vote data and the
    append to the vote ledger. */
module Gateway {
  import opened Wrappers
  import opened Text
  import opened AppState

  const SetVotingUrlType: string := "SET_VOTING_URL"
  const VoteDataType: string := "VOTE_DATA"

  /** The fields of `event.data` the handler reads; None stands for a
      field that is `undefined`. */
  datatype Payload = Payload(
    kind: Option<string>,
    voteUrl: Option<string>,
    hashValue: Option<string>,
    pdfUrl: Option<string>,
    subscanUrl: Option<string>)

  /** An inbound message event; `data` is None when `event.data` is null
      or undefined. */
  datatype Message = Message(origin: string, data: Option<Payload>)

  /** What the handler did with a message. `Threw` is a TypeError raised
      inside the listener, which aborts it before any state update. */
  datatype Disposition = UntrustedOrigin | VotingUrlStored | VoteRecorded | VoteIncomplete | Ignored | Threw

  datatype Handled = Handled(state: State, disposition: Disposition)

  /** JavaScript truthiness of a string-or-undefined value. */
  predicate Truthy(v: Option<string>) {
    v.Some? && v.value != ""
  }

  /** How a template literal renders a string-or-undefined value. */
  function TemplateText(v: Option<string>): string {
    match v
    case Some(x) => x
    case None => "undefined"
  }

  /** The transaction link says the submission failed or never happened. */
  predicate MarksFailure(subscanUrl: string) {
    EndsWith(subscanUrl, "/None") || EndsWith(subscanUrl, "/error")
  }

  /** The record appended for accepted vote data, stamped with the clock
      text currently displayed. */
  function NewRecord(s: State, d: Payload): VoteRecord
    requires d.subscanUrl.Some?
  {
    VoteRecord(s.displayCurrentTime, TrustedOrigin + TemplateText(d.pdfUrl),
               TemplateText(d.hashValue), d.subscanUrl.value)
  }

  /** The handler for one `message` event. */
  function ReceiveMessage(s: State, m: Message): (r: Handled)
    // an untrusted sender changes nothing, whatever it sends
    ensures m.origin != TrustedOrigin ==> r == Handled(s, UntrustedOrigin)
    // nothing but the voting URL and the ledger ever changes
    ensures r.state == s.(votingUrl := r.state.votingUrl, voteData := r.state.voteData)
    // a trusted SET_VOTING_URL stores the payload's URL, unvalidated
    ensures m.origin == TrustedOrigin && m.data.Some? && m.data.value.kind == Some(SetVotingUrlType) ==>
      r.state == s.(votingUrl := m.data.value.voteUrl) && r.disposition == VotingUrlStored
    // the URL is stored exactly for a trusted SET_VOTING_URL, so only that touches the voting URL
    ensures r.disposition == VotingUrlStored <==>
      m.origin == TrustedOrigin && m.data.Some? && m.data.value.kind == Some(SetVotingUrlType)
    ensures r.state.votingUrl != s.votingUrl ==> r.disposition == VotingUrlStored
    // dropped, ignored, incomplete and throwing messages leave the state as it was
    ensures r.disposition in {Threw, VoteIncomplete, Ignored, UntrustedOrigin} ==> r.state == s
    // a throw happens exactly for null data, or a truthy hash with no transaction link
    ensures r.disposition == Threw <==>
      m.origin == TrustedOrigin && (m.data.None? ||
        (m.data.value.kind == Some(VoteDataType) && Truthy(m.data.value.hashValue) && m.data.value.subscanUrl.None?))
    // the ledger either stays as it is or gains exactly one record at its end
    ensures r.state.voteData == s.voteData
      || (|r.state.voteData| == |s.voteData| + 1 && r.state.voteData[..|s.voteData|] == s.voteData)
    ensures r.state.voteData != s.voteData <==> r.disposition == VoteRecorded
  {
    if m.origin != TrustedOrigin then Handled(s, UntrustedOrigin)
    else if m.data.None? then Handled(s, Threw)
    else
      var d := m.data.value;
      if d.kind == Some(SetVotingUrlType) then
        Handled(s.(votingUrl := d.voteUrl), VotingUrlStored)
      else if d.kind == Some(VoteDataType) then
        if !Truthy(d.hashValue) then Handled(s, VoteIncomplete)
        else if d.subscanUrl.None? then Handled(s, Threw)
        else if MarksFailure(d.subscanUrl.value) then Handled(s, VoteIncomplete)
        else Handled(s.(voteData := s.voteData + [NewRecord(s, d)]), VoteRecorded)
      else Handled(s, Ignored)
  }

  /** The acceptance rule for vote data, stated on its own: trusted sender,
      VOTE_DATA type, a non-empty proof hash, and a transaction link that
      is present and is not `<anything>/None` or `<anything>/error`. */
  ghost predicate AcceptableVote(m: Message) {
    && m.origin == TrustedOrigin
    && m.data.Some?
    && m.data.value.kind == Some(VoteDataType)
    && m.data.value.hashValue.Some? && |m.data.value.hashValue.value| > 0
    && m.data.value.subscanUrl.Some?
    && var u := m.data.value.subscanUrl.value;
       (forall p :: p + "/None" != u) && (forall p :: p + "/error" != u)
  }

  /** The ledger gains a record exactly for acceptable vote data, and that
      record carries the message's fields and the displayed clock text;
      anything else leaves the ledger as it was. */
  lemma LedgerGrowsIffAcceptable(s: State, m: Message)
    ensures AcceptableVote(m) ==>
      ReceiveMessage(s, m).state.voteData == s.voteData + [NewRecord(s, m.data.value)]
    ensures AcceptableVote(m) ==>
      var d, v := m.data.value, ReceiveMessage(s, m).state.voteData[|s.voteData|];
      && v.pdf == TrustedOrigin + TemplateText(d.pdfUrl)
      && v.proof == d.hashValue.value
      && v.txOnBlockchain == d.subscanUrl.value
      && v.time == s.displayCurrentTime
    ensures !AcceptableVote(m) ==> ReceiveMessage(s, m).state.voteData == s.voteData
  {
    if m.origin == TrustedOrigin && m.data.Some? && m.data.value.subscanUrl.Some? {
      var u := m.data.value.subscanUrl.value;
      EndsWithDecomposition(u, "/None");
      EndsWithDecomposition(u, "/error");
    }
  }

  /** The records a burst of messages appends, in arrival order, when they
      are all handled at the same displayed clock text. */
  ghost function AcceptedRecords(s: State, ms: seq<Message>): seq<VoteRecord> {
    if ms == [] then []
    else
      (if AcceptableVote(ms[0]) then [NewRecord(s, ms[0].data.value)] else [])
      + AcceptedRecords(s, ms[1..])
  }

  /** Handles a sequence of message events in arrival order. */
  function ReceiveAll(s: State, ms: seq<Message>): State
    decreases |ms|
  {
    if ms == [] then s else ReceiveAll(ReceiveMessage(s, ms[0]).state, ms[1..])
  }

  /** Over any burst of messages the ledger keeps every earlier record and
      gains the accepted ones, in the order they arrived. */
  lemma {:induction false} ReceiveAllAppendsInOrder(s: State, ms: seq<Message>)
    ensures ReceiveAll(s, ms).voteData == s.voteData + AcceptedRecords(s, ms)
    decreases |ms|
  {
    if ms != [] {
      var s1 := ReceiveMessage(s, ms[0]).state;
      LedgerGrowsIffAcceptable(s, ms[0]);
      assert s1.displayCurrentTime == s.displayCurrentTime;
      assert AcceptedRecords(s1, ms[1..]) == AcceptedRecords(s, ms[1..]) by {
        SameClockSameRecords(s1, s, ms[1..]);
      }
      ReceiveAllAppendsInOrder(s1, ms[1..]);
    }
  }

  /** The records appended depend on the state only through its clock text. */
  lemma {:induction false} SameClockSameRecords(s: State, t: State, ms: seq<Message>)
    requires s.displayCurrentTime == t.displayCurrentTime
    ensures AcceptedRecords(s, ms) == AcceptedRecords(t, ms)
    decreases |ms|
  {
    if ms != [] {
      SameClockSameRecords(s, t, ms[1..]);
    }
  }
}
