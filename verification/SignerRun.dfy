/** The signer as a step system. One event is one atomic step of a process that
    may stop between any two of them: starting up, checking a request, replacing
    the state file, updating memory, signing. Every theorem at the end of the
    module is about every list of events. */
module SignerRun {
  import opened Wrappers
  import opened ChainState

  datatype Config = Config(chainId: string, maxHeight: Option<nat>)

  datatype Request =
    | SignProposal(chainId: string, proposal: Proposal)
    | SignVote(chainId: string, vote: Vote)
    | ShowPublicKey(chainId: string)
    | ReplyPing

  predicate IsSigning(req: Request) {
    req.SignProposal? || req.SignVote?
  }

  function RequestState(req: Request): ConsensusState
    requires IsSigning(req)
  {
    if req.SignProposal? then ProposalState(req.proposal) else VoteState(req.vote)
  }

  predicate WithinMaxHeight(config: Config, height: nat) {
    config.maxHeight.Some? ==> height <= config.maxHeight.value
  }

  datatype Signature = Signature(chainId: string, state: ConsensusState)

  /** Where a running process is inside the handling of a request. */
  datatype Work =
    | Idle
    | Checked(req: Request)
    | Stored(req: Request)
    | Updated(req: Request)

  datatype Process = Down | Up(memory: ConsensusState, work: Work)

  /** `disk` is the state file. `diskLine` and `memoryLine` are the accepted
      histories that led to the file and to the memory, `written` every state the
      file ever held, `signed` every signature ever made. */
  datatype Machine = Machine(
    config: Config,
    process: Process,
    disk: Option<ConsensusState>,
    memoryLine: seq<ConsensusState>,
    diskLine: seq<ConsensusState>,
    written: seq<ConsensusState>,
    signed: seq<Signature>)

  datatype Event =
    | Boot(outcome: PersistOutcome)
    | Receive(req: Request)
    | Persist(outcome: PersistOutcome)
    | Commit
    | Sign
    | GiveUp
    | Crash

  function Start(config: Config, file: Option<ConsensusState>): Machine {
    var history := if file.Some? then [file.value] else [];
    Machine(config, Down, file, [], history, history, [])
  }

  predicate Permitted(config: Config, memory: ConsensusState, req: Request) {
    IsSigning(req)
    && req.chainId == config.chainId
    && WithinMaxHeight(config, RequestState(req).height)
    && Accepts(memory, RequestState(req))
  }

  function ReplaceFile(m: Machine, line: seq<ConsensusState>, state: ConsensusState): Machine {
    m.(disk := Some(state), diskLine := line + [state], written := m.written + [state])
  }

  /** Loading the state at start-up, which creates the file when it is missing. */
  function BootStep(m: Machine, outcome: PersistOutcome): Machine {
    if m.disk.Some? then
      m.(process := Up(m.disk.value, Idle), memoryLine := m.diskLine)
    else
      var m' := if outcome.FailedUnwritten? then m else ReplaceFile(m, [], INITIAL);
      if outcome.Written? then m'.(process := Up(INITIAL, Idle), memoryLine := m'.diskLine) else m'
  }

  function PersistStep(m: Machine, outcome: PersistOutcome): Machine
    requires m.process.Up? && m.process.work.Checked? && IsSigning(m.process.work.req)
  {
    var req := m.process.work.req;
    var m' := if outcome.FailedUnwritten? then m
              else ReplaceFile(m, m.memoryLine, RequestState(req));
    m'.(process := Up(m.process.memory, if outcome.Written? then Stored(req) else Idle))
  }

  /** One step. An event that the process is not ready for changes nothing. */
  function Next(m: Machine, e: Event): Machine {
    match e
    case Crash => m.(process := Down)
    case Boot(outcome) => if m.process.Down? then BootStep(m, outcome) else m
    case Receive(req) =>
      if m.process.Up? && m.process.work.Idle? && Permitted(m.config, m.process.memory, req)
      then m.(process := Up(m.process.memory, Checked(req))) else m
    case Persist(outcome) =>
      if m.process.Up? && m.process.work.Checked? && IsSigning(m.process.work.req)
      then PersistStep(m, outcome) else m
    case Commit =>
      if m.process.Up? && m.process.work.Stored? && IsSigning(m.process.work.req) then
        var state := RequestState(m.process.work.req);
        m.(process := Up(state, Updated(m.process.work.req)), memoryLine := m.memoryLine + [state])
      else m
    case Sign =>
      if m.process.Up? && m.process.work.Updated? && IsSigning(m.process.work.req) then
        var req := m.process.work.req;
        m.(process := Up(m.process.memory, Idle),
           signed := m.signed + [Signature(req.chainId, RequestState(req))])
      else m
    case GiveUp =>
      if m.process.Up? && m.process.work.Updated? then m.(process := Up(m.process.memory, Idle)) else m
  }

  function Run(m: Machine, events: seq<Event>): Machine
    decreases |events|
  {
    if events == [] then m else Run(Next(m, events[0]), events[1..])
  }

  lemma {:induction false} RunConcat(m: Machine, es: seq<Event>, fs: seq<Event>)
    ensures Run(m, es + fs) == Run(Run(m, es), fs)
    decreases |es|
  {
    if es == [] {
      assert es + fs == fs;
    } else {
      assert (es + fs)[1..] == es[1..] + fs;
      RunConcat(Next(m, es[0]), es[1..], fs);
    }
  }

  // ----- what every step keeps

  function Last(line: seq<ConsensusState>): ConsensusState
    requires line != []
  {
    line[|line| - 1]
  }

  /** The history that a crash now would lose nothing of. */
  function SafeLine(m: Machine): seq<ConsensusState> {
    if m.process.Up? then m.memoryLine else m.diskLine
  }

  /** Everything after the state the file started with came from a permitted request. */
  ghost predicate FromRequests(config: Config, line: seq<ConsensusState>) {
    forall i :: 1 <= i < |line| ==> VoteStep(line[i]) && WithinMaxHeight(config, line[i].height)
  }

  /** `places` says where in `whole` the states of `line` are, in order. */
  ghost predicate Embedding(line: seq<ConsensusState>, whole: seq<ConsensusState>, places: seq<nat>) {
    && |places| == |line|
    && (forall i :: 0 <= i < |line| ==> places[i] < |whole| && whole[places[i]] == line[i])
    && (forall i, j :: 0 <= i < j < |places| ==> places[i] < places[j])
  }

  ghost predicate Embedded(line: seq<ConsensusState>, whole: seq<ConsensusState>) {
    exists places: seq<nat> :: Embedding(line, whole, places)
  }

  lemma EmbeddedPush(line: seq<ConsensusState>, whole: seq<ConsensusState>, s: ConsensusState)
    requires Embedded(line, whole)
    ensures Embedded(line + [s], whole + [s])
  {
    var places: seq<nat> :| Embedding(line, whole, places);
    assert Embedding(line + [s], whole + [s], places + [|whole|]);
  }

  lemma EmbeddedPrefix(line: seq<ConsensusState>, whole: seq<ConsensusState>, prefix: seq<ConsensusState>)
    requires Embedded(line, whole) && prefix <= line
    ensures Embedded(prefix, whole)
  {
    var places: seq<nat> :| Embedding(line, whole, places);
    assert Embedding(prefix, whole, places[..|prefix|]);
  }

  lemma EmbeddedSingle(whole: seq<ConsensusState>)
    ensures Embedded([], whole)
    ensures |whole| == 1 ==> Embedded(whole, whole)
  {
    assert Embedding([], whole, []);
    assert |whole| == 1 ==> Embedding(whole, whole, [0]);
  }

  ghost predicate DiskInv(m: Machine) {
    && (m.disk.None? <==> m.diskLine == [])
    && (m.disk.Some? ==> Last(m.diskLine) == m.disk.value)
    && Line(m.diskLine)
    && FromRequests(m.config, m.diskLine)
    && Embedded(m.diskLine, m.written)
  }

  ghost predicate WorkInv(m: Machine)
    requires m.process.Up?
  {
    match m.process.work
    case Idle => true
    case Checked(req) => Permitted(m.config, m.process.memory, req)
    case Stored(req) =>
      Permitted(m.config, m.process.memory, req) && m.diskLine == m.memoryLine + [RequestState(req)]
    case Updated(req) =>
      IsSigning(req) && req.chainId == m.config.chainId
      && m.diskLine == m.memoryLine && |m.memoryLine| >= 2
      && m.process.memory == RequestState(req)
  }

  ghost predicate ProcessInv(m: Machine) {
    m.process.Up? ==>
      && m.memoryLine != []
      && Last(m.memoryLine) == m.process.memory
      && m.memoryLine <= m.diskLine
      && |m.diskLine| <= |m.memoryLine| + 1
      && WorkInv(m)
  }

  ghost predicate SignedInv(m: Machine) {
    && (forall g :: g in m.signed ==> g.chainId == m.config.chainId)
    && (forall g :: g in m.signed ==> g.state in SafeLine(m))
    && (forall g :: g in m.signed ==> VoteStep(g.state) && WithinMaxHeight(m.config, g.state.height))
    && (forall i, j :: 0 <= i < j < |m.signed| ==> NotAfter(m.signed[i].state, m.signed[j].state))
  }

  ghost predicate Inv(m: Machine) {
    DiskInv(m) && ProcessInv(m) && SignedInv(m)
  }

  lemma LineExtends(config: Config, line: seq<ConsensusState>, req: Request)
    requires line != [] && Line(line) && FromRequests(config, line)
    requires Permitted(config, Last(line), req)
    ensures Line(line + [RequestState(req)]) && FromRequests(config, line + [RequestState(req)])
  {
    LinePush(line, RequestState(req));
  }

  lemma LinePrefix(config: Config, line: seq<ConsensusState>, prefix: seq<ConsensusState>)
    requires prefix <= line && Line(line) && FromRequests(config, line)
    ensures Line(prefix) && FromRequests(config, prefix)
  {
    LineTake(line, prefix);
  }

  lemma LineCovers(line: seq<ConsensusState>, s: ConsensusState)
    requires Line(line) && s in line
    ensures NotAfter(s, Last(line))
  {
    var i :| 0 <= i < |line| && line[i] == s;
    LineIsOrdered(line, i, |line| - 1);
  }

  lemma SignKeepsInv(m: Machine)
    requires Inv(m) && m.process.Up? && m.process.work.Updated?
    ensures Inv(Next(m, Sign))
  {
    LinePrefix(m.config, m.diskLine, m.memoryLine);
    forall g | g in m.signed ensures NotAfter(g.state, m.process.memory) {
      LineCovers(m.memoryLine, g.state);
    }
  }

  lemma PersistKeepsInv(m: Machine, outcome: PersistOutcome)
    requires Inv(m) && m.process.Up? && m.process.work.Checked?
    ensures Inv(Next(m, Persist(outcome)))
  {
    LinePrefix(m.config, m.diskLine, m.memoryLine);
    LineExtends(m.config, m.memoryLine, m.process.work.req);
    EmbeddedPrefix(m.diskLine, m.written, m.memoryLine);
    EmbeddedPush(m.memoryLine, m.written, RequestState(m.process.work.req));
  }

  lemma BootKeepsInv(m: Machine, outcome: PersistOutcome)
    requires Inv(m) && m.process.Down?
    ensures Inv(Next(m, Boot(outcome)))
  {
    if m.disk.None? {
      EmbeddedSingle(m.written);
      EmbeddedPush([], m.written, INITIAL);
    }
  }

  lemma CommitKeepsInv(m: Machine)
    requires Inv(m) && m.process.Up? && m.process.work.Stored?
    ensures Inv(Next(m, Commit))
  {
  }

  lemma NextKeepsInv(m: Machine, e: Event)
    requires Inv(m)
    ensures Inv(Next(m, e))
  {
    match e
    case Boot(outcome) => if m.process.Down? { BootKeepsInv(m, outcome); }
    case Persist(outcome) => if m.process.Up? && m.process.work.Checked? { PersistKeepsInv(m, outcome); }
    case Commit => if m.process.Up? && m.process.work.Stored? { CommitKeepsInv(m); }
    case Sign => if m.process.Up? && m.process.work.Updated? { SignKeepsInv(m); }
    case Receive(_) =>
    case GiveUp =>
    case Crash =>
  }

  lemma {:induction false} RunKeepsInv(m: Machine, events: seq<Event>)
    requires Inv(m)
    ensures Inv(Run(m, events))
    decreases |events|
  {
    if events == [] {
    } else {
      NextKeepsInv(m, events[0]);
      RunKeepsInv(Next(m, events[0]), events[1..]);
    }
  }

  lemma {:induction false} RunKeepsConfig(m: Machine, events: seq<Event>)
    ensures Run(m, events).config == m.config
    decreases |events|
  {
    if events == [] {
    } else {
      RunKeepsConfig(Next(m, events[0]), events[1..]);
    }
  }

  lemma StartHasInv(config: Config, file: Option<ConsensusState>)
    ensures Inv(Start(config, file))
  {
    EmbeddedSingle(Start(config, file).written);
  }

  // ----- what holds of every run

  /** No run, with crashes and failed writes anywhere, signs two blocks for one
      height, round and step. */
  lemma NeverEquivocates(config: Config, file: Option<ConsensusState>, events: seq<Event>,
                         a: Signature, b: Signature)
    requires a in Run(Start(config, file), events).signed
    requires b in Run(Start(config, file), events).signed
    requires SamePoint(a.state, b.state)
    ensures a == b
  {
    var m := Run(Start(config, file), events);
    StartHasInv(config, file);
    RunKeepsInv(Start(config, file), events);
    if m.process.Up? { LinePrefix(m.config, m.diskLine, m.memoryLine); }
    OneBlockPerPoint(SafeLine(m), a.state, b.state);
  }

  /** What a request asks to be signed for, as the request itself says it. */
  datatype Duty =
    | Propose(height: nat, round: nat)
    | Prevote(height: nat, round: nat)
    | Precommit(height: nat, round: nat)

  function DutyOf(req: Request): Duty
    requires IsSigning(req)
  {
    match req
    case SignProposal(_, p) => Propose(p.height, p.round)
    case SignVote(_, v) => if v.isPrecommit then Precommit(v.height, v.round) else Prevote(v.height, v.round)
  }

  function BlockOf(req: Request): Option<BlockId>
    requires IsSigning(req)
  {
    if req.SignProposal? then req.proposal.blockId else req.vote.blockId
  }

  /** The state kept for a request says all that was asked: no two requests for the same
      duty or for different blocks look alike to the guard. */
  lemma StateTellsRequest(a: Request, b: Request)
    requires IsSigning(a) && IsSigning(b)
    ensures SamePoint(RequestState(a), RequestState(b)) <==> DutyOf(a) == DutyOf(b)
    ensures RequestState(a) == RequestState(b) <==> DutyOf(a) == DutyOf(b) && BlockOf(a) == BlockOf(b)
    ensures RequestState(a).height == DutyOf(a).height
  {
  }

  /** A round goes from its proposal to the prevote to the precommit. */
  predicate DutyBefore(a: Duty, b: Duty) {
    a.height < b.height
    || (a.height == b.height && a.round < b.round)
    || (a.height == b.height && a.round == b.round
        && ((a.Propose? && !b.Propose?) || (a.Prevote? && b.Precommit?)))
  }

  /** Two requests of one round that name different blocks. */
  predicate NameTwoBlocks(a: Request, b: Request)
    requires IsSigning(a) && IsSigning(b)
  {
    && DutyOf(a).height == DutyOf(b).height && DutyOf(a).round == DutyOf(b).round
    && BlockOf(a).Some? && BlockOf(b).Some? && BlockOf(a) != BlockOf(b)
  }

  /** What is permitted after a request, in terms of the two requests: the same again, or
      a later duty that does not name a second block in the round. */
  lemma PermittedExactly(config: Config, last: Request, req: Request)
    requires IsSigning(last) && IsSigning(req)
    ensures Permitted(config, RequestState(last), req) <==>
              && req.chainId == config.chainId
              && (config.maxHeight.Some? ==> DutyOf(req).height <= config.maxHeight.value)
              && ((DutyOf(req) == DutyOf(last) && BlockOf(req) == BlockOf(last))
                  || (DutyBefore(DutyOf(last), DutyOf(req)) && !NameTwoBlocks(last, req)))
  {
    AcceptsExactly(RequestState(last), RequestState(req));
  }

  /** A signer that starts without a file permits every request of its chain, except a
      proposal of a block in round 0 of height 0, which does not exist. */
  lemma FreshSignerPermits(config: Config, req: Request)
    requires IsSigning(req)
    ensures Permitted(config, INITIAL, req) <==>
              && req.chainId == config.chainId
              && (config.maxHeight.Some? ==> DutyOf(req).height <= config.maxHeight.value)
              && !(DutyOf(req) == Propose(0, 0) && BlockOf(req).Some?)
  {
  }

  /** In every run, the requests that are signed for one duty are the same request:
      no two proposals of a round, no two prevotes, no two precommits for different
      blocks. */
  lemma NeverSignsTwoBlocks(config: Config, file: Option<ConsensusState>, events: seq<Event>,
                            i: nat, a: Request, s: nat, j: nat, b: Request, u: nat)
    requires SignedAt(Start(config, file), events, i, a, s)
    requires SignedAt(Start(config, file), events, j, b, u)
    requires DutyOf(a) == DutyOf(b)
    ensures a == b
  {
    var signed := Run(Start(config, file), events).signed;
    StateTellsRequest(a, b);
    NeverEquivocates(config, file, events, signed[s], signed[u]);
  }

  /** Signatures are made in the order of height, round and step, across restarts. */
  lemma SignsInOrder(config: Config, file: Option<ConsensusState>, events: seq<Event>, i: nat, j: nat)
    requires i < j < |Run(Start(config, file), events).signed|
    ensures NotAfter(Run(Start(config, file), events).signed[i].state,
                     Run(Start(config, file), events).signed[j].state)
  {
    StartHasInv(config, file);
    RunKeepsInv(Start(config, file), events);
  }

  /** Two signatures of one round for different blocks are a proposal and a
      precommit, and the state file held a nil prevote of that round after the
      one and before the other. */
  lemma SignedConflictShape(config: Config, file: Option<ConsensusState>, events: seq<Event>,
                            a: Signature, b: Signature)
    returns (p: nat, q: nat, r: nat)
    requires a in Run(Start(config, file), events).signed
    requires b in Run(Start(config, file), events).signed
    requires Conflicting(a.state, b.state) && a.state.step <= b.state.step
    ensures a.state.step == 0 && b.state.step == 2
    ensures p < q < r < |Run(Start(config, file), events).written|
    ensures Run(Start(config, file), events).written[p] == a.state
    ensures Run(Start(config, file), events).written[q]
            == ConsensusState(a.state.height, a.state.round, 1, None)
    ensures Run(Start(config, file), events).written[r] == b.state
  {
    var m := Run(Start(config, file), events);
    StartHasInv(config, file);
    RunKeepsInv(Start(config, file), events);
    if m.process.Up? {
      LinePrefix(m.config, m.diskLine, m.memoryLine);
      EmbeddedPrefix(m.diskLine, m.written, m.memoryLine);
    }
    var i, k, j := ConflictShape(SafeLine(m), a.state, b.state);
    var places: seq<nat> :| Embedding(SafeLine(m), m.written, places);
    p, q, r := places[i], places[k], places[j];
  }

  /** At most three different states of one height and round are ever signed. */
  lemma SignsAtMostThreePerRound(config: Config, file: Option<ConsensusState>, events: seq<Event>,
                                 states: set<ConsensusState>)
    requires forall s :: s in states ==> exists g :: g in Run(Start(config, file), events).signed && g.state == s
    requires forall a, b :: a in states && b in states ==> SameRound(a, b)
    ensures |states| <= 3
  {
    var m := Run(Start(config, file), events);
    StartHasInv(config, file);
    RunKeepsInv(Start(config, file), events);
    if m.process.Up? { LinePrefix(m.config, m.diskLine, m.memoryLine); }
    AtMostThreePerRound(SafeLine(m), states);
  }

  /** Event number i is a file write that succeeded, for the state of the checked request. */
  ghost predicate PersistedAt(start: Machine, events: seq<Event>, i: nat, req: Request) {
    && i < |events|
    && events[i] == Persist(Written)
    && IsSigning(req)
    && var m := Run(start, events[..i]); m.process.Up? && m.process.work == Checked(req)
  }

  /** Event number j makes signature number s, and the signature is for the request. */
  ghost predicate SignedAt(start: Machine, events: seq<Event>, j: nat, req: Request, s: nat) {
    && j < |events|
    && events[j] == Sign
    && IsSigning(req)
    && (var m := Run(start, events[..j]);
        m.process.Up? && m.process.work == Updated(req) && |m.signed| == s)
    && s < |Run(start, events).signed|
    && Run(start, events).signed[s] == Signature(req.chainId, RequestState(req))
  }

  ghost predicate HasPersisted(start: Machine, events: seq<Event>, req: Request) {
    exists i: nat :: PersistedAt(start, events, i, req)
  }

  ghost predicate SignedAfterPersist(start: Machine, events: seq<Event>, s: nat) {
    exists i: nat, j: nat, req ::
      i < j && PersistedAt(start, events, i, req) && SignedAt(start, events, j, req, s)
  }

  lemma RunLast(m: Machine, events: seq<Event>, e: Event)
    ensures Run(m, events + [e]) == Next(Run(m, events), e)
  {
    RunConcat(m, events, [e]);
  }

  lemma NextSigned(m: Machine, e: Event)
    ensures m.signed <= Next(m, e).signed
    ensures |Next(m, e).signed| > |m.signed| ==>
              e.Sign? && m.process.Up? && m.process.work.Updated? && IsSigning(m.process.work.req)
              && var req := m.process.work.req;
                 Next(m, e).signed == m.signed + [Signature(req.chainId, RequestState(req))]
  {
  }

  lemma PersistedKept(start: Machine, events: seq<Event>, e: Event, i: nat, req: Request)
    requires PersistedAt(start, events, i, req)
    ensures PersistedAt(start, events + [e], i, req)
  {
    assert (events + [e])[..i] == events[..i];
  }

  lemma SignedKept(start: Machine, events: seq<Event>, e: Event, s: nat)
    requires SignedAfterPersist(start, events, s)
    ensures SignedAfterPersist(start, events + [e], s)
  {
    var i: nat, j: nat, req :|
      i < j && PersistedAt(start, events, i, req) && SignedAt(start, events, j, req, s);
    PersistedKept(start, events, e, i, req);
    RunLast(start, events, e);
    NextSigned(Run(start, events), e);
    assert (events + [e])[..j] == events[..j];
    assert SignedAt(start, events + [e], j, req, s);
  }

  /** A process that has stored or taken over a state got past a write that succeeded. */
  ghost predicate WorkPersisted(start: Machine, events: seq<Event>) {
    var m := Run(start, events);
    m.process.Up? && (m.process.work.Stored? || m.process.work.Updated?) ==>
      HasPersisted(start, events, m.process.work.req)
  }

  lemma WorkPersistedNext(start: Machine, events: seq<Event>, e: Event)
    requires WorkPersisted(start, events)
    ensures WorkPersisted(start, events + [e])
  {
    var m := Run(start, events);
    var m' := Next(m, e);
    RunLast(start, events, e);
    if m'.process.Up? && (m'.process.work.Stored? || m'.process.work.Updated?) {
      var req := m'.process.work.req;
      if m.process.Up? && m.process.work.Checked? {
        assert (events + [e])[..|events|] == events;
        assert PersistedAt(start, events + [e], |events|, req);
      } else {
        var i: nat :| PersistedAt(start, events, i, req);
        PersistedKept(start, events, e, i, req);
      }
    }
  }

  lemma NewSignature(start: Machine, events: seq<Event>, e: Event)
    requires WorkPersisted(start, events)
    requires |Run(start, events).signed| < |Next(Run(start, events), e).signed|
    ensures SignedAfterPersist(start, events + [e], |Run(start, events).signed|)
  {
    var m := Run(start, events);
    NextSigned(m, e);
    var req := m.process.work.req;
    var i: nat :| PersistedAt(start, events, i, req);
    PersistedKept(start, events, e, i, req);
    RunLast(start, events, e);
    assert (events + [e])[..|events|] == events;
    assert SignedAt(start, events + [e], |events|, req, |m.signed|);
  }

  lemma {:induction false} SignsAfterPersisting(start: Machine, events: seq<Event>)
    requires start.process.Down? && start.signed == []
    ensures WorkPersisted(start, events)
    ensures forall s :: 0 <= s < |Run(start, events).signed| ==> SignedAfterPersist(start, events, s)
    decreases |events|
  {
    if events == [] {
    } else {
      var front, e := events[..|events| - 1], events[|events| - 1];
      assert events == front + [e];
      SignsAfterPersisting(start, front);
      WorkPersistedNext(start, front, e);
      RunLast(start, front, e);
      NextSigned(Run(start, front), e);
      forall s | 0 <= s < |Run(start, events).signed| ensures SignedAfterPersist(start, events, s) {
        if s < |Run(start, front).signed| {
          SignedKept(start, front, e, s);
        } else {
          NewSignature(start, front, e);
        }
      }
    }
  }

  lemma SignedIsPermitted(config: Config, file: Option<ConsensusState>, events: seq<Event>, s: nat)
    requires s < |Run(Start(config, file), events).signed|
    ensures var g := Run(Start(config, file), events).signed[s];
            g.chainId == config.chainId && WithinMaxHeight(config, g.state.height)
  {
    StartHasInv(config, file);
    RunKeepsInv(Start(config, file), events);
    RunKeepsConfig(Start(config, file), events);
    var signed := Run(Start(config, file), events).signed;
    assert signed[s] in signed;
  }

  lemma PersistedIsWritten(start: Machine, events: seq<Event>, i: nat, req: Request)
    requires PersistedAt(start, events, i, req)
    ensures RequestState(req) in Run(start, events[..i + 1]).written
  {
    assert events[..i + 1] == events[..i] + [events[i]];
    RunLast(start, events[..i], events[i]);
  }

  /** Every signature is for the configured chain and within the configured height,
      and it was made after the file was successfully replaced by the state of the
      very request it answers. */
  lemma SignsOnlyWhatIsAllowed(config: Config, file: Option<ConsensusState>, events: seq<Event>, s: nat)
    returns (i: nat, j: nat, req: Request)
    requires s < |Run(Start(config, file), events).signed|
    ensures i < j
    ensures PersistedAt(Start(config, file), events, i, req)
    ensures SignedAt(Start(config, file), events, j, req, s)
    ensures req.chainId == config.chainId && WithinMaxHeight(config, RequestState(req).height)
    ensures config.maxHeight.Some? ==> DutyOf(req).height <= config.maxHeight.value
    ensures RequestState(req) in Run(Start(config, file), events[..i + 1]).written
  {
    var start := Start(config, file);
    SignsAfterPersisting(start, events);
    assert SignedAfterPersist(start, events, s);
    i, j, req :| i < j && PersistedAt(start, events, i, req) && SignedAt(start, events, j, req, s);
    SignedIsPermitted(config, file, events, s);
    PersistedIsWritten(start, events, i, req);
  }

  lemma DiskCovers(m: Machine, g: Signature)
    requires Inv(m) && g in m.signed
    ensures m.disk.Some? && NotAfter(g.state, m.disk.value)
  {
    assert g.state in SafeLine(m);
    assert g.state in m.diskLine;
    LineCovers(m.diskLine, g.state);
  }

  /** At every moment the file is at least as far as every signature, so a
      restart never goes back behind one. */
  lemma FileCoversSignatures(config: Config, file: Option<ConsensusState>, events: seq<Event>,
                             g: Signature)
    requires g in Run(Start(config, file), events).signed
    ensures Run(Start(config, file), events).disk.Some?
    ensures NotAfter(g.state, Run(Start(config, file), events).disk.value)
  {
    StartHasInv(config, file);
    RunKeepsInv(Start(config, file), events);
    DiskCovers(Run(Start(config, file), events), g);
  }

  /** A request whose answer was lost to a crash after its state was stored is
      accepted again after the restart. */
  lemma StoredRequestCanBeRetried(m: Machine, outcome: PersistOutcome)
    requires Inv(m) && m.process.Up? && m.process.work.Stored?
    ensures var m' := Run(m, [Crash, Boot(outcome), Receive(m.process.work.req)]);
            m'.process == Up(RequestState(m.process.work.req), Checked(m.process.work.req))
  {
    var req := m.process.work.req;
    var m1 := Next(m, Crash);
    var m2 := Next(m1, Boot(outcome));
    var m3 := Next(m2, Receive(req));
    RunConcat(m, [Crash], [Boot(outcome), Receive(req)]);
    RunConcat(m1, [Boot(outcome)], [Receive(req)]);
    assert [Crash] + [Boot(outcome), Receive(req)] == [Crash, Boot(outcome), Receive(req)];
    assert [Boot(outcome)] + [Receive(req)] == [Boot(outcome), Receive(req)];
    assert Last(m.diskLine) == RequestState(req);
    assert m3.process == Up(RequestState(req), Checked(req));
  }
}
