/** The autonomous agent on its deterministic path: a loop that recommends and performs actions while
    the SDK's events change the snapshot between any two awaits. Every chain-facing call may fail. */
module AgentLoop {
  import opened Common
  import opened Wrappers

  datatype Role = Buyer | Seller

  datatype Action =
    | Wait | PostOffer | BrowseAndAcceptOffer | CompletePrivateAgreement | AutoFundPrivateDeal
    | SendEncryptedDelivery | CheckEncryptedDelivery | ConfirmPrivateDelivery
    | CompleteUmbraLifecycle | Stop

  /** The phase strings the agent distinguishes; the server may send any other. */
  datatype Phase =
    | Idle | RollupNegotiation | EscrowCreated | CreatedAwaitingDeposits | Delivery
    | AwaitingBuyerReleaseConfirmation | UmbraLifecyclePending | AwaitingSettlementPlanApprovals
    | AwaitingReleaseApprovals | Completed | Settled | Failed | Cancelled | Disputed | Other(name: string)

  /** The agent's settings: what counts as evidence that a deal is complete. */
  datatype Config = Config(role: Role, privateMode: bool, fullUmbra: bool, encryptedDelivery: bool, privateRelease: bool)

  /** The agent's own part of the deal so far. */
  datatype Done = Done(agreed: bool, funded: bool, deliverySent: bool, deliveryReceived: bool, deliveryConfirmed: bool)

  datatype Snapshot = Snapshot(
    activeOffer: bool, activeTicket: Option<Ticket>, currentPhase: Phase, rollupReady: bool, done: Done,
    releaseRequestPending: bool, umbraPending: bool, umbraComplete: bool, dealCompleted: bool)

  const INITIAL := Snapshot(false, None, Idle, false, Done(false, false, false, false, false), false, false, false, false)

  predicate FailedTerminal(phase: Phase) {
    phase.Failed? || phase.Cancelled? || phase.Disputed?
  }

  predicate SuccessfulTerminal(phase: Phase) {
    phase.Completed? || phase.Settled?
  }

  predicate Terminal(phase: Phase) {
    FailedTerminal(phase) || SuccessfulTerminal(phase)
  }

  predicate RequiresUmbra(c: Config) {
    c.privateMode && c.fullUmbra
  }

  predicate EvidenceSatisfied(c: Config, s: Snapshot) {
    if RequiresUmbra(c) && !s.umbraComplete then false
    else if c.privateMode && c.encryptedDelivery && c.role == Seller && !s.done.deliverySent then false
    else if c.privateMode && c.encryptedDelivery && c.role == Buyer && !s.done.deliveryReceived then false
    else if c.privateMode && c.privateRelease && c.role == Buyer && !s.done.deliveryConfirmed then false
    else true
  }

  predicate DeliveryWindowOpen(s: Snapshot) {
    || s.releaseRequestPending || s.umbraPending
    || s.currentPhase.Delivery? || s.currentPhase.AwaitingBuyerReleaseConfirmation? || s.currentPhase.EscrowCreated?
    || s.currentPhase.CreatedAwaitingDeposits? || s.currentPhase.UmbraLifecyclePending?
    || s.currentPhase.AwaitingSettlementPlanApprovals? || s.currentPhase.AwaitingReleaseApprovals?
  }

  function Recommend(c: Config, s: Snapshot): Action {
    if FailedTerminal(s.currentPhase) then Stop
    else if (s.dealCompleted || Terminal(s.currentPhase)) && EvidenceSatisfied(c, s) then Stop
    else if s.activeTicket.None? then
      if c.role == Buyer then BrowseAndAcceptOffer
      else if !s.activeOffer then PostOffer
      else Wait
    else if !s.rollupReady then Wait
    else if !s.done.agreed then CompletePrivateAgreement
    else if !s.done.funded then AutoFundPrivateDeal
    else if c.role == Seller then
      if DeliveryWindowOpen(s) && !s.done.deliverySent then SendEncryptedDelivery
      else if RequiresUmbra(c) && s.umbraPending && !s.umbraComplete then CompleteUmbraLifecycle
      else Wait
    else if !s.done.deliveryReceived then CheckEncryptedDelivery
    else if !s.done.deliveryConfirmed then ConfirmPrivateDelivery
    else if RequiresUmbra(c) && s.umbraPending && !s.umbraComplete then CompleteUmbraLifecycle
    else Wait
  }

  /** Where the loop is; `Acting` holds the deal the action took when it began. */
  datatype Place =
    | Top
    | Deciding
    | Acting(action: Action, deal: Option<Ticket>)
    | Stopped

  datatype Success = Success(action: Action, ticket: Ticket)

  /** `log` lists the deal actions that succeeded and `umbraRequests` counts the relevant requests. */
  datatype State = State(
    snapshot: Snapshot, currentDeal: Option<Ticket>, place: Place, log: seq<Success>, umbraRequests: nat)

  const START := State(INITIAL, None, Top, [], 0)

  /** What a listener, or the status refresh, has to say about a ticket. */
  datatype News =
    | NewPhase(phase: Phase)
    | RollupSessionReady
    | FundingRequest
    | ReleaseRequest
    | UmbraRequest
    | DealComplete

  datatype Step =
    | Matched(ticket: Ticket)
    | Notice(about: Ticket, news: News)
    | PhaseChanged(named: Option<Ticket>, phase: Option<Phase>)
    | StatusRefreshed(status: Phase)
    | DealRecovered(ticket: Ticket)
    | LoopTop
    | Decide
    | ActionEnds(ok: bool, found: Ticket)
    | LoopsExhausted

  predicate Relevant(s: State, t: Ticket) {
    if s.currentDeal.Some? then s.currentDeal.value == t else s.snapshot.activeTicket == Some(t)
  }

  function SetActiveDeal(s: State, t: Ticket): State {
    s.(currentDeal := Some(t), snapshot := s.snapshot.(activeTicket := Some(t), currentPhase := RollupNegotiation))
  }

  /** A snapshot whose completion flag says that its phase is a success and the evidence is there. */
  function Judged(c: Config, s: Snapshot): Snapshot {
    s.(dealCompleted := SuccessfulTerminal(s.currentPhase) && EvidenceSatisfied(c, s))
  }

  function Told(c: Config, s: Snapshot, t: Ticket, news: News): Snapshot {
    match news
    case NewPhase(p) => Judged(c, s.(activeTicket := Some(t), currentPhase := p))
    case RollupSessionReady => s.(activeTicket := Some(t), rollupReady := true)
    case FundingRequest => s.(activeTicket := Some(t))
    case ReleaseRequest =>
      s.(activeTicket := Some(t), releaseRequestPending := true,
         currentPhase := if s.currentPhase == Idle then AwaitingBuyerReleaseConfirmation else s.currentPhase)
    case UmbraRequest => s.(activeTicket := Some(t), umbraPending := true, umbraComplete := false)
    case DealComplete => Judged(c, s.(activeTicket := Some(t), currentPhase := Completed))
  }

  /** News about another ticket than the agent's is ignored. */
  function Hear(c: Config, s: State, t: Ticket, news: News): State {
    if !Relevant(s, t) then s
    else s.(snapshot := Told(c, s.snapshot, t, news),
            umbraRequests := s.umbraRequests + One(news == UmbraRequest))
  }

  /** What a successful action writes; checking for a delivery that is not there writes nothing. */
  function Performed(c: Config, s: Snapshot, a: Action): Snapshot {
    match a
    case PostOffer => s.(activeOffer := true)
    case CompletePrivateAgreement => s.(done := s.done.(agreed := true))
    case AutoFundPrivateDeal => s.(done := s.done.(funded := true))
    case SendEncryptedDelivery => s.(done := s.done.(deliverySent := true))
    case CheckEncryptedDelivery => s.(done := s.done.(deliveryReceived := true))
    case ConfirmPrivateDelivery => s.(done := s.done.(deliveryConfirmed := true), releaseRequestPending := false)
    case CompleteUmbraLifecycle =>
      Judged(c, s.(umbraPending := false, umbraComplete := true))
    case _ => s
  }

  predicate OnDeal(a: Action) {
    a !in {Wait, Stop, PostOffer, BrowseAndAcceptOffer}
  }

  function AfterAction(s: State): State {
    s.(place := if s.snapshot.dealCompleted then Stopped else Top)
  }

  function EndAction(c: Config, s: State, a: Action, deal: Option<Ticket>, ok: bool, found: Ticket): State {
    if !ok || (OnDeal(a) && deal.None?) then AfterAction(s)
    else if a == BrowseAndAcceptOffer then
      var s1 := SetActiveDeal(s, found);
      AfterAction(s1.(snapshot := s1.snapshot.(activeOffer := true)))
    else
      AfterAction(s.(snapshot := Performed(c, s.snapshot, a),
                     log := if OnDeal(a) then s.log + [Success(a, deal.value)] else s.log))
  }

  function Decision(c: Config, s: State): State {
    match Recommend(c, s.snapshot)
    case Stop => s.(place := Stopped)
    case Wait => AfterAction(s)
    case a => s.(place := Acting(a, s.currentDeal))
  }

  /** What comes from outside the loop. */
  predicate Arrival(step: Step) {
    step.Matched? || step.Notice? || step.PhaseChanged? || step.StatusRefreshed? || step.DealRecovered?
  }

  function Arrive(c: Config, s: State, step: Step): State
    requires Arrival(step)
  {
    match step
    case Matched(t) => SetActiveDeal(s, t)
    case Notice(t, news) => Hear(c, s, t, news)
    case PhaseChanged(named, phase) =>
      var t := if named.Some? then named else s.currentDeal;
      if t.None? then s
      else Hear(c, s, t.value, NewPhase(if phase.Some? then phase.value else s.snapshot.currentPhase))
    case StatusRefreshed(p) =>
      if s.place != Top || s.currentDeal.None? then s else Hear(c, s, s.currentDeal.value, NewPhase(p))
    case DealRecovered(t) =>
      if s.place != Top || c.role == Buyer || !s.snapshot.activeOffer then s else SetActiveDeal(s, t)
  }

  function CheckTop(s: State): State {
    s.(place := if s.snapshot.dealCompleted then Stopped else Deciding)
  }

  /** One step, LoopsExhausted also for a refresh that fails for good; a step that cannot happen where the loop is changes nothing. */
  function Next(c: Config, s: State, step: Step): State {
    if s.place == Stopped then s
    else if Arrival(step) then Arrive(c, s, step)
    else match step
      case LoopTop => if s.place == Top then CheckTop(s) else s
      case Decide => if s.place == Deciding then Decision(c, s) else s
      case ActionEnds(ok, found) =>
        if s.place.Acting? then EndAction(c, s, s.place.action, s.place.deal, ok, found) else s
      case LoopsExhausted => if s.place == Top then s.(place := Stopped) else s
  }

  function Run(c: Config, s: State, steps: seq<Step>): State
    decreases |steps|
  {
    if steps == [] then s else Run(c, Next(c, s, steps[0]), steps[1..])
  }

  lemma {:induction false} RunJoin(c: Config, s: State, a: seq<Step>, b: seq<Step>)
    ensures Run(c, s, a + b) == Run(c, Run(c, s, a), b)
    decreases |a|
  {
    if a == [] {
      assert a + b == b;
    } else {
      assert (a + b)[1..] == a[1..] + b;
      RunJoin(c, Next(c, s, a[0]), a[1..], b);
    }
  }

  lemma {:induction false} StoppedStays(c: Config, s: State, steps: seq<Step>)
    requires s.place == Stopped
    ensures Run(c, s, steps) == s
    decreases |steps|
  {
    if steps != [] {
      StoppedStays(c, s, steps[1..]);
    }
  }
}
