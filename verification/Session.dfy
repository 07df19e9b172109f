/** The running signer: the file-backed state holder and the session that
    answers a validator's requests. Each method is proved against the step
    system of SignerRun, so what holds of every run holds of every session. */
module Session {
  import opened Wrappers
  import opened ChainState
  import opened SignerRun

  datatype Response =
    | SignedVote(vote: Vote)
    | SignedVoteError(code: int)
    | SignedProposal(proposal: Proposal)
    | SignedProposalError(code: int)
    | Ping
    | PublicKey
    | PublicKeyError(code: int)

  const CHAIN_ID_CODE := 1
  const DOUBLE_SIGN_CODE := 2

  datatype SessionError =
    | ReadFailed
    | ExceedMaxHeight(requestHeight: nat, maxHeight: nat)
    | NotSignable
    | SigningState(error: StateError)
    | NotEncodable
    | WriteFailed

  /** What the outside world does during one pass of the request loop. */
  datatype Turn = Turn(
    read: Option<Request>,
    persist: PersistOutcome,
    signable: bool,
    encodable: bool,
    delivered: bool)

  /** A response of the request's own kind, about the request's own content. */
  predicate Answers(req: Request, resp: Response) {
    match req
    case SignProposal(_, p) => resp == SignedProposal(p) || resp.SignedProposalError?
    case SignVote(_, v) => resp == SignedVote(v) || resp.SignedVoteError?
    case ShowPublicKey(_) => resp.PublicKey? || resp.PublicKeyError?
    case ReplyPing => resp.Ping?
  }

  predicate IsSignature(resp: Response) {
    resp.SignedVote? || resp.SignedProposal?
  }

  /** The steps that one pass of the loop tries, in order. Those the process is
      not ready for change nothing, so this covers every early exit too. */
  function TurnEvents(turn: Turn): seq<Event> {
    if turn.read.None? then []
    else [Receive(turn.read.value), Persist(turn.persist), Commit,
          if turn.signable then Sign else GiveUp]
  }

  function LoopEvents(turns: seq<Turn>): seq<Event> {
    if turns == [] then [] else LoopEvents(turns[..|turns| - 1]) + TurnEvents(turns[|turns| - 1])
  }

  ghost predicate AnsweredInOrder(turns: seq<Turn>, responses: seq<Response>) {
    |turns| == |responses|
    && forall i :: 0 <= i < |turns| ==> turns[i].read.Some? && Answers(turns[i].read.value, responses[i])
  }

  /** How many passes a loop made that sent the given number of responses: one
      more, the one that ended it, if there was something left to read. */
  function PassesMade(turns: seq<Turn>, answered: nat): (n: nat)
    ensures n <= |turns|
  {
    if answered < |turns| then answered + 1 else |turns|
  }

  lemma TailStep(turns: seq<Turn>, n: nat)
    requires n <= |turns|
    ensures n == |turns| ==> turns[n..] == []
    ensures n < |turns| ==> turns[n..][0] == turns[n] && turns[n..][1..] == turns[n + 1..]
  {
  }

  /** Of these requests every one but the last that was read was answered, in order,
      with these responses. */
  ghost predicate Served(turns: seq<Turn>, log: seq<Response>) {
    |log| <= |turns| && AnsweredInOrder(turns[..|log|], log)
  }

  lemma NothingServed(turns: seq<Turn>, sent: seq<Response>)
    ensures Served(turns, []) && LoopEvents(turns[..0]) == [] && turns[0..] == turns && sent + [] == sent
  {
  }

  lemma SentOneMore(sent: seq<Response>, log: seq<Response>, sending: seq<Response>)
    ensures sent + log + sending == sent + (log + sending)
  {
  }

  lemma ServedOneMore(turns: seq<Turn>, log: seq<Response>, sending: seq<Response>)
    requires Served(turns, log) && |log| < |turns| && |sending| == 1
    requires turns[|log|].read.Some? && Answers(turns[|log|].read.value, sending[0])
    ensures Served(turns, log + sending)
  {
    var all := log + sending;
    assert turns[..|all|][..|log|] == turns[..|log|];
    forall i | 0 <= i < |all| ensures turns[i].read.Some? && Answers(turns[i].read.value, all[i]) {
      if i < |log| {
        assert turns[..|log|][i] == turns[i];
      }
    }
  }

  lemma LoopEventsStep(m: Machine, turns: seq<Turn>, n: nat)
    requires n < |turns|
    ensures Run(m, LoopEvents(turns[..n + 1])) == Run(Run(m, LoopEvents(turns[..n])), TurnEvents(turns[n]))
  {
    assert turns[..n + 1][..n] == turns[..n] && turns[..n + 1][n] == turns[n];
    RunConcat(m, LoopEvents(turns[..n]), TurnEvents(turns[n]));
  }

  lemma RunFour(m: Machine, a: Event, b: Event, c: Event, d: Event)
    ensures Run(m, [a, b, c, d]) == Next(Next(Next(Next(m, a), b), c), d)
  {
    RunConcat(m, [a, b], [c, d]);
    RunConcat(m, [a], [b]);
    RunConcat(Next(Next(m, a), b), [c], [d]);
    assert [a, b] + [c, d] == [a, b, c, d] && [a] + [b] == [a, b] && [c] + [d] == [c, d];
  }

  /** What one pass does to the machine, for a request that is turned away,
      one whose state cannot be stored, and one that is carried out. */
  lemma TurnEffect(m: Machine, turn: Turn)
    requires m.process.Up? && m.process.work.Idle? && turn.read.Some?
    ensures var req := turn.read.value;
            var m' := Run(m, TurnEvents(turn));
            if !Permitted(m.config, m.process.memory, req) then m' == m
            else if !turn.persist.Written? then
              m' == if turn.persist.FailedUnwritten? then m
                    else ReplaceFile(m, m.memoryLine, RequestState(req))
            else
              && m'.process == Up(RequestState(req), Idle)
              && m'.disk == Some(RequestState(req))
              && m'.config == m.config
              && m'.signed == if turn.signable
                              then m.signed + [Signature(req.chainId, RequestState(req))] else m.signed
  {
    var req := turn.read.value;
    RunFour(m, Receive(req), Persist(turn.persist), Commit, if turn.signable then Sign else GiveUp);
  }

  function SigningTurn(config: Config, memory: ConsensusState, req: Request, turn: Turn): Option<SessionError>
    requires IsSigning(req) && req.chainId == config.chainId
  {
    var proposed := RequestState(req);
    var check := CheckConsensusState(memory, proposed);
    if !WithinMaxHeight(config, proposed.height) then Some(ExceedMaxHeight(proposed.height, config.maxHeight.value))
    else if check.Err? then (if check.error.DoubleSign? then None else Some(SigningState(check.error)))
    else if !turn.persist.Written? then Some(SigningState(SyncError))
    else if !turn.signable then Some(NotSignable)
    else None
  }

  /** The error that a pass of the loop ends in; none if it ends with a response. */
  function PassError(config: Config, memory: ConsensusState, turn: Turn): Option<SessionError> {
    if turn.read.None? then Some(ReadFailed)
    else
      var req := turn.read.value;
      var refused := if IsSigning(req) && req.chainId == config.chainId
                     then SigningTurn(config, memory, req, turn) else None;
      if refused.Some? then refused
      else if !turn.encodable then Some(NotEncodable)
      else if !turn.delivered then Some(WriteFailed)
      else None
  }

  function ErrorOf(e: Option<SessionError>): SessionError {
    if e.Some? then e.value else ReadFailed
  }

  // ----- responses and signatures

  /** The request that a signature response answers. */
  function AnsweredRequest(chainId: string, resp: Response): (req: Request)
    requires IsSignature(resp)
    ensures IsSigning(req) && Answers(req, resp)
  {
    if resp.SignedVote? then SignVote(chainId, resp.vote) else SignProposal(chainId, resp.proposal)
  }

  /** A signature that was sent is one that the machine made. */
  ghost predicate Told(m: Machine, resp: Response) {
    IsSignature(resp) ==>
      Signature(m.config.chainId, RequestState(AnsweredRequest(m.config.chainId, resp))) in m.signed
  }

  ghost predicate AllTold(m: Machine, log: seq<Response>) {
    forall i :: 0 <= i < |log| ==> Told(m, log[i])
  }

  lemma {:induction false} RunKeepsSigned(m: Machine, events: seq<Event>)
    ensures m.signed <= Run(m, events).signed && Run(m, events).config == m.config
    decreases |events|
  {
    if events == [] {
    } else {
      NextSigned(m, events[0]);
      RunKeepsSigned(Next(m, events[0]), events[1..]);
    }
  }

  /** It stays so whatever the machine does later, crashes included. */
  lemma ToldIsKept(m: Machine, events: seq<Event>, log: seq<Response>)
    requires AllTold(m, log)
    ensures AllTold(Run(m, events), log)
  {
    RunKeepsSigned(m, events);
    forall i | 0 <= i < |log| ensures Told(Run(m, events), log[i]) {
      assert Told(m, log[i]);
    }
  }

  /** What the passes up to number n told, the next one does not take back. */
  lemma TurnKeepsTold(before: Machine, turns: seq<Turn>, n: nat, after: Machine, start: Machine, log: seq<Response>)
    requires n <= |turns| && before == Run(start, LoopEvents(turns[..n])) && AllTold(before, log)
    requires after == Run(start, LoopEvents(turns[..PassesMade(turns, n)]))
    ensures AllTold(after, log)
  {
    if n < |turns| {
      LoopEventsStep(start, turns, n);
      ToldIsKept(before, TurnEvents(turns[n]), log);
    }
  }

  lemma ToldOneMore(m: Machine, log: seq<Response>, sending: seq<Response>)
    requires AllTold(m, log) && AllTold(m, sending)
    ensures AllTold(m, log + sending)
  {
  }

  /** Two signatures that were sent for one duty, a proposal, a prevote or a precommit of
      a height and round, are for the same block. */
  predicate Consistent(chainId: string, a: Response, b: Response) {
    (&& IsSignature(a) && IsSignature(b)
     && DutyOf(AnsweredRequest(chainId, a)) == DutyOf(AnsweredRequest(chainId, b))) ==> a == b
  }

  lemma ToldIsConsistent(m: Machine, a: Response, b: Response)
    requires Inv(m) && Told(m, a) && Told(m, b)
    ensures Consistent(m.config.chainId, a, b)
  {
    if IsSignature(a) && IsSignature(b) {
      var id := m.config.chainId;
      var x, y := AnsweredRequest(id, a), AnsweredRequest(id, b);
      StateTellsRequest(x, y);
      if DutyOf(x) == DutyOf(y) {
        if m.process.Up? { LinePrefix(m.config, m.diskLine, m.memoryLine); }
        OneBlockPerPoint(SafeLine(m), RequestState(x), RequestState(y));
      }
    }
  }

  /** So in every run, from any file and with crashes anywhere, nothing the validator is
      sent is an equivocation. */
  lemma NothingSentEquivocates(config: Config, file: Option<ConsensusState>, events: seq<Event>,
                               a: Response, b: Response)
    requires Told(Run(Start(config, file), events), a) && Told(Run(Start(config, file), events), b)
    ensures Consistent(config.chainId, a, b)
  {
    StartHasInv(config, file);
    RunKeepsInv(Start(config, file), events);
    RunKeepsConfig(Start(config, file), events);
    ToldIsConsistent(Run(Start(config, file), events), a, b);
  }

  function GoodTurn(req: Request): Turn {
    Turn(Some(req), Written, true, true, true)
  }

  lemma GoodTurnSigns(m: Machine, req: Request)
    requires m.process.Up? && m.process.work.Idle? && Permitted(m.config, m.process.memory, req)
    ensures var m' := Run(m, TurnEvents(GoodTurn(req)));
            && m'.process == Up(RequestState(req), Idle)
            && m'.config == m.config
            && m'.signed == m.signed + [Signature(req.chainId, RequestState(req))]
  {
    TurnEffect(m, GoodTurn(req));
  }

  /** A validator that sticks to one block gets a whole round signed: its proposal, its
      prevote and its precommit. */
  lemma RoundIsSigned(m: Machine, height: nat, round: nat, block: Option<BlockId>)
    requires m.process.Up? && m.process.work.Idle?
    requires m.config.maxHeight.Some? ==> height <= m.config.maxHeight.value
    requires var s := m.process.memory; s.height < height || (s.height == height && s.round < round)
    ensures var id := m.config.chainId;
            var r1 := SignProposal(id, Proposal(height, round, block));
            var r2 := SignVote(id, Vote(false, height, round, block));
            var r3 := SignVote(id, Vote(true, height, round, block));
            Run(m, TurnEvents(GoodTurn(r1)) + TurnEvents(GoodTurn(r2)) + TurnEvents(GoodTurn(r3))).signed
            == m.signed + [Signature(id, RequestState(r1))] + [Signature(id, RequestState(r2))]
               + [Signature(id, RequestState(r3))]
  {
    var id := m.config.chainId;
    var r1 := SignProposal(id, Proposal(height, round, block));
    var r2 := SignVote(id, Vote(false, height, round, block));
    var r3 := SignVote(id, Vote(true, height, round, block));
    var e1, e2, e3 := TurnEvents(GoodTurn(r1)), TurnEvents(GoodTurn(r2)), TurnEvents(GoodTurn(r3));
    AcceptsExactly(m.process.memory, RequestState(r1));
    GoodTurnSigns(m, r1);
    PermittedExactly(m.config, r1, r2);
    GoodTurnSigns(Run(m, e1), r2);
    PermittedExactly(m.config, r2, r3);
    GoodTurnSigns(Run(Run(m, e1), e2), r3);
    RunConcat(m, e1, e2);
    RunConcat(m, e1 + e2, e3);
  }

  lemma ConflictFrom(m: Machine, height: nat, round: nat, x: BlockId, y: BlockId) returns (events: seq<Event>)
    requires x != y && WithinMaxHeight(m.config, height) && m.signed == []
    requires m.process.Up? && m.process.work.Idle? && m.process.memory.height < height
    ensures var signed := Run(m, events).signed;
            |signed| == 3 && Conflicting(signed[0].state, signed[2].state)
  {
    var id := m.config.chainId;
    var r1 := SignProposal(id, Proposal(height, round, Some(x)));
    var r2 := SignVote(id, Vote(false, height, round, None));
    var r3 := SignVote(id, Vote(true, height, round, Some(y)));
    var e1, e2, e3 := TurnEvents(GoodTurn(r1)), TurnEvents(GoodTurn(r2)), TurnEvents(GoodTurn(r3));
    GoodTurnSigns(m, r1);
    GoodTurnSigns(Run(m, e1), r2);
    GoodTurnSigns(Run(Run(m, e1), e2), r3);
    RunConcat(m, e1, e2);
    RunConcat(m, e1 + e2, e3);
    events := e1 + e2 + e3;
  }

  /** A session can sign for two blocks in one round: as a proposal and a
      precommit, with the nil prevote between them that makes it possible. */
  lemma ConflictDoesOccur(config: Config, height: nat, round: nat, x: BlockId, y: BlockId)
    requires x != y && height > 0 && WithinMaxHeight(config, height)
    ensures exists events ::
              var signed := Run(Start(config, None), events).signed;
              |signed| == 3 && Conflicting(signed[0].state, signed[2].state)
  {
    var m := Start(config, None);
    var events := ConflictFrom(Next(m, Boot(Written)), height, round, x, y);
    RunConcat(m, [Boot(Written)], events);
    assert Run(m, [Boot(Written)]) == Next(m, Boot(Written));
    assert |Run(m, [Boot(Written)] + events).signed| == 3;
  }

  /** What comes of reading the state file at start-up: an error other than that
      it is missing, text that does not decode, or its state. A missing file has
      no text. */
  datatype Reading = Unreadable | Undecodable | Decoded

  predicate LoadFails(reading: Reading, file: Option<ConsensusState>) {
    reading.Unreadable? || (reading.Undecodable? && file.Some?)
  }

  /** The softsign provider's state file. */
  class StateHolder {
    var file: Option<ConsensusState>

    constructor (file: Option<ConsensusState>)
      ensures this.file == file
    {
      this.file := file;
    }

    method PersistState(state: ConsensusState, outcome: PersistOutcome) returns (r: Result<(), StateError>)
      modifies this
      ensures file == if outcome.FailedUnwritten? then old(file) else Some(state)
      ensures r == if outcome.Written? then Ok(()) else Err(SyncError)
    {
      if !outcome.FailedUnwritten? {
        file := Some(state);
      }
      r := if outcome.Written? then Ok(()) else Err(SyncError);
    }

    method WriteInitialState(outcome: PersistOutcome) returns (r: Result<ConsensusState, StateError>)
      modifies this
      ensures file == if outcome.FailedUnwritten? then old(file) else Some(INITIAL)
      ensures r == if outcome.Written? then Ok(INITIAL) else Err(SyncError)
    {
      var p := PersistState(INITIAL, outcome);
      r := if p.Err? then Err(p.error) else Ok(INITIAL);
    }

    /** Loading after a crash is the Boot step of the machine, unless the file
        cannot be read or does not decode: then it is left as it is. */
    method LoadState(reading: Reading, outcome: PersistOutcome, ghost before: Machine)
      returns (r: Result<ConsensusState, StateError>)
      requires before.process.Down? && before.disk == file
      modifies this
      ensures reading.Unreadable? ==> r == Err(SyncError) && file == old(file)
      ensures reading.Undecodable? && old(file).Some? ==> r == Err(SyncEncDecError) && file == old(file)
      ensures !LoadFails(reading, old(file)) ==>
                var after := Next(before, Boot(outcome));
                file == after.disk
                && (if r.Ok? then after.process == Up(r.value, Idle)
                    else after.process.Down? && r == Err(SyncError) && old(file).None?)
    {
      if reading.Unreadable? {
        r := Err(SyncError);
      } else if file.Some? {
        r := if reading.Undecodable? then Err(SyncEncDecError) else Ok(file.value);
      } else {
        r := WriteInitialState(outcome);
      }
    }
  }

  /** A connection: what will still be read from it, and what was sent on it. */
  class Connection {
    var turns: seq<Turn>
    var sent: seq<Response>

    constructor (turns: seq<Turn>)
      ensures this.turns == turns && sent == []
    {
      this.turns := turns;
      sent := [];
    }
  }

  class Session {
    const config: Config
    var connection: Connection
    var state: ConsensusState
    const syncer: StateHolder
    /** The machine this session has been driving. */
    ghost var trace: Machine

    ghost predicate Valid()
      reads this, syncer
    {
      && trace.config == config
      && trace.process == Up(state, Idle)
      && trace.disk == syncer.file
    }

    constructor (config: Config, connection: Connection, state: ConsensusState, syncer: StateHolder,
                 ghost trace: Machine)
      requires trace.config == config && trace.process == Up(state, Idle)
      requires trace.disk == syncer.file
      ensures Valid() && this.trace == trace && this.connection == connection
      ensures this.syncer == syncer && this.config == config
    {
      this.config, this.connection, this.state, this.syncer := config, connection, state, syncer;
      this.trace := trace;
    }

    method ResetConnection(connection: Connection)
      requires Valid()
      modifies this`connection
      ensures Valid() && this.connection == connection
    {
      this.connection := connection;
    }

    method CheckChainId(chainId: string) returns (ok: bool)
      ensures ok == (chainId == config.chainId)
    {
      ok := chainId == config.chainId;
    }

    method CheckMaxHeight(height: nat) returns (r: Result<(), SessionError>)
      ensures r.Ok? <==> WithinMaxHeight(config, height)
      ensures r.Err? ==> config.maxHeight.Some? && r.error == ExceedMaxHeight(height, config.maxHeight.value)
    {
      if config.maxHeight.Some? && height > config.maxHeight.value {
        return Err(ExceedMaxHeight(height, config.maxHeight.value));
      }
      r := Ok(());
    }

    /** Check, then persist, then update: memory moves only after the file. */
    method CheckUpdateConsensusState(proposed: ConsensusState, outcome: PersistOutcome)
      returns (r: Result<(), StateError>)
      modifies this`state, syncer
      ensures old(CheckConsensusState(state, proposed)).Err? ==>
                r == old(CheckConsensusState(state, proposed)) && state == old(state) && syncer.file == old(syncer.file)
      ensures old(Accepts(state, proposed)) ==>
                && r == (if outcome.Written? then Ok(()) else Err(SyncError))
                && state == (if outcome.Written? then proposed else old(state))
                && syncer.file == (if outcome.FailedUnwritten? then old(syncer.file) else Some(proposed))
    {
      r := CheckConsensusState(state, proposed);
      if r.Ok? {
        r := syncer.PersistState(proposed, outcome);
        if r.Ok? {
          state := proposed;
        }
      }
    }

    /** The signing arm of the dispatch, shared by proposals and votes. */
    method HandleSigning(req: Request, turn: Turn) returns (r: Result<Response, SessionError>)
      requires Valid() && IsSigning(req) && turn.read == Some(req)
      modifies this`state, this`trace, syncer
      ensures Valid() && trace == Run(old(trace), TurnEvents(turn))
      ensures r.Ok? ==> Answers(req, r.value)
      ensures (r.Ok? && IsSignature(r.value)) <==>
                (old(Permitted(config, state, req)) && turn.persist.Written? && turn.signable)
      ensures r.Ok? && !IsSignature(r.value) ==>
                trace == old(trace)
                && r.value.code == if req.chainId != config.chainId then 1 else 2
      ensures r.Err? && r.error.ExceedMaxHeight? <==>
                req.chainId == config.chainId
                && config.maxHeight.Some? && DutyOf(req).height > config.maxHeight.value
      ensures req.chainId != config.chainId ==> r.Ok?
      ensures req.chainId == config.chainId ==>
                match old(SigningTurn(config, state, req, turn))
                case None => r.Ok?
                case Some(e) => r == Err(e)
    {
      TurnEffect(trace, turn);
      ghost var trace' := Run(trace, TurnEvents(turn));
      var sameChain := CheckChainId(req.chainId);
      if !sameChain {
        r := Ok(if req.SignProposal? then SignedProposalError(CHAIN_ID_CODE) else SignedVoteError(CHAIN_ID_CODE));
      } else {
        var proposed := RequestState(req);
        var height := CheckMaxHeight(proposed.height);
        if height.Err? {
          r := Err(height.error);
        } else {
          var update := CheckUpdateConsensusState(proposed, turn.persist);
          if update.Ok? {
            r := if !turn.signable then Err(NotSignable)
                 else if req.SignProposal? then Ok(SignedProposal(req.proposal)) else Ok(SignedVote(req.vote));
          } else if update.error.DoubleSign? {
            r := Ok(if req.SignProposal? then SignedProposalError(DOUBLE_SIGN_CODE)
                    else SignedVoteError(DOUBLE_SIGN_CODE));
          } else {
            r := Err(SigningState(update.error));
          }
        }
      }
      trace := trace';
    }

    /** One pass of the loop. It reads one request; it sends one response of that
        request's kind or ends in an error and sends none. */
    method HandleRequest() returns (r: Result<bool, SessionError>, ghost sending: seq<Response>)
      requires Valid()
      modifies this`state, this`trace, syncer, connection
      ensures Valid()
      ensures old(connection.turns) == [] ==> r.Err? && trace == old(trace) && connection.turns == []
      ensures old(connection.turns) != [] ==>
                connection.turns == old(connection.turns)[1..]
                && trace == Run(old(trace), TurnEvents(old(connection.turns)[0]))
      ensures connection.sent == old(connection.sent) + sending
      ensures r.Err? ==> sending == []
      ensures old(connection.turns) == [] ==> r == Err(ReadFailed)
      ensures old(connection.turns) != [] ==>
                match old(PassError(config, state, connection.turns[0]))
                case None => r.Ok?
                case Some(e) => r == Err(e)
      ensures r.Ok? ==>
                && r.value
                && |sending| == 1
                && var req, resp := old(connection.turns)[0].read.value, sending[0];
                   && Answers(req, resp)
                   && (if IsSignature(resp)
                       then trace.signed == old(trace).signed + [Signature(config.chainId, RequestState(req))]
                       else trace == old(trace))
                   && (req.ShowPublicKey? ==>
                         resp == if req.chainId == config.chainId then PublicKey else PublicKeyError(1))
                   && AllTold(trace, sending)
    {
      sending := [];
      if connection.turns == [] {
        return Err(ReadFailed), [];
      }
      var turn := connection.turns[0];
      connection.turns := connection.turns[1..];
      if turn.read.None? {
        return Err(ReadFailed), [];
      }
      var req := turn.read.value;
      var response: Response;
      TurnEffect(trace, turn);
      match req {
        case SignProposal(_, _) =>
          var h := HandleSigning(req, turn);
          if h.Err? { return Err(h.error), []; }
          response := h.value;
        case SignVote(_, _) =>
          var h := HandleSigning(req, turn);
          if h.Err? { return Err(h.error), []; }
          response := h.value;
        case ReplyPing => response := Ping;
        case ShowPublicKey(chainId) =>
          var sameChain := CheckChainId(chainId);
          response := if sameChain then PublicKey else PublicKeyError(CHAIN_ID_CODE);
      }
      if !turn.encodable { return Err(NotEncodable), []; }
      if !turn.delivered { return Err(WriteFailed), []; }
      connection.sent := connection.sent + [response];
      sending := [response];
      r := Ok(true);
    }

    /** Pass number n of the loop, as part of what the loop does as a whole. */
    method NextPass(ghost start: Machine, ghost turns: seq<Turn>, ghost n: nat)
      returns (r: Result<bool, SessionError>, ghost sending: seq<Response>)
      requires Valid() && n <= |turns| && connection.turns == turns[n..]
      requires trace == Run(start, LoopEvents(turns[..n]))
      modifies this`state, this`trace, syncer, connection
      ensures Valid() && connection.sent == old(connection.sent) + sending
      ensures connection.turns == turns[PassesMade(turns, n)..]
      ensures trace == Run(start, LoopEvents(turns[..PassesMade(turns, n)]))
      ensures r.Err? ==> sending == []
      ensures r.Ok? ==> n < |turns| && |sending| == 1
                        && turns[n].read.Some? && Answers(turns[n].read.value, sending[0])
      ensures AllTold(trace, sending)
      ensures r.Err? <==> n == |turns| || PassError(config, old(state), turns[n]).Some?
      ensures r.Err? ==> r.error == if n == |turns| then ReadFailed else PassError(config, old(state), turns[n]).value
    {
      TailStep(turns, n);
      if n < |turns| {
        LoopEventsStep(start, turns, n);
      }
      r, sending := HandleRequest();
    }

    /** The loop runs until an error: every request before the last one read was
        answered, one response each, in order and of its own kind. */
    method RequestLoop() returns (r: Result<(), SessionError>, ghost responses: seq<Response>)
      requires Valid()
      modifies this`state, this`trace, syncer, connection
      ensures Valid() && r.Err?
      ensures connection.sent == old(connection.sent) + responses
      ensures Served(old(connection.turns), responses)
      ensures var turns := old(connection.turns);
              var read := PassesMade(turns, |responses|);
              connection.turns == turns[read..] && trace == Run(old(trace), LoopEvents(turns[..read]))
      ensures AllTold(trace, responses)
      ensures var turns, n := old(connection.turns), |responses|;
              var last := Run(old(trace), LoopEvents(turns[..n]));
              last.process.Up? && r == Err(if n == |turns| then ReadFailed
                                           else ErrorOf(PassError(config, last.process.memory, turns[n])))
    {
      ghost var turns, sent, start := connection.turns, connection.sent, trace;
      responses := [];
      NothingServed(turns, sent);
      var running := Ok(true);
      while true
        invariant Valid()
        invariant Served(turns, responses) && connection.turns == turns[|responses|..]
        invariant connection.sent == sent + responses
        invariant trace == Run(start, LoopEvents(turns[..|responses|]))
        invariant AllTold(trace, responses)
        decreases |connection.turns|
      {
        ghost var sending;
        ghost var before := trace;
        running, sending := NextPass(start, turns, |responses|);
        TurnKeepsTold(before, turns, |responses|, trace, start, responses);
        if running.Err? {
          return Err(running.error), responses;
        }
        ServedOneMore(turns, responses, sending);
        SentOneMore(sent, responses, sending);
        ToldOneMore(trace, responses, sending);
        responses := responses + sending;
      }
    }
  }

  /** The steps of a session over its connections: those of the passes made on
      each connection, one connection after the other. */
  function ServeEvents(plans: seq<seq<Turn>>, logs: seq<seq<Response>>): seq<Event>
    requires |logs| <= |plans|
  {
    if logs == [] then []
    else
      var k := |logs| - 1;
      ServeEvents(plans, logs[..k]) + LoopEvents(plans[k][..PassesMade(plans[k], |logs[k]|)])
  }

  lemma ServeEventsStep(m: Machine, plans: seq<seq<Turn>>, logs: seq<seq<Response>>, log: seq<Response>)
    requires |logs| < |plans|
    ensures var turns := plans[|logs|];
            Run(m, ServeEvents(plans, logs + [log]))
            == Run(Run(m, ServeEvents(plans, logs)), LoopEvents(turns[..PassesMade(turns, |log|)]))
  {
    var turns := plans[|logs|];
    assert (logs + [log])[..|logs|] == logs;
    RunConcat(m, ServeEvents(plans, logs), LoopEvents(turns[..PassesMade(turns, |log|)]));
  }

  /** A new connection, served until it ends; the log is everything sent on it. */
  method ServeConnection(session: Session, turns: seq<Turn>) returns (log: seq<Response>)
    requires session.Valid()
    modifies session`connection, session`state, session`trace, session.syncer
    ensures session.Valid() && Served(turns, log)
    ensures fresh(session.connection) && session.connection.sent == log
    ensures session.connection.turns == turns[PassesMade(turns, |log|)..]
    ensures session.trace == Run(old(session.trace), LoopEvents(turns[..PassesMade(turns, |log|)]))
    ensures AllTold(session.trace, log)
  {
    var connection := new Connection(turns);
    session.ResetConnection(connection);
    var r, responses := session.RequestLoop();
    log := connection.sent;
  }

  ghost predicate AllServed(plans: seq<seq<Turn>>, logs: seq<seq<Response>>) {
    |logs| <= |plans| && forall k :: 0 <= k < |logs| ==> Served(plans[k], logs[k])
  }

  lemma AllServedPush(plans: seq<seq<Turn>>, logs: seq<seq<Response>>, log: seq<Response>)
    requires AllServed(plans, logs) && |logs| < |plans| && Served(plans[|logs|], log)
    ensures AllServed(plans, logs + [log])
  {
  }

  lemma RunKeepsInvIfStarted(m: Machine, events: seq<Event>)
    ensures Inv(m) ==> Inv(Run(m, events))
  {
    if Inv(m) {
      RunKeepsInv(m, events);
    }
  }

  ghost predicate LogsTold(m: Machine, logs: seq<seq<Response>>) {
    forall k :: 0 <= k < |logs| ==> AllTold(m, logs[k])
  }

  lemma LogsToldOneMore(m: Machine, events: seq<Event>, logs: seq<seq<Response>>, log: seq<Response>)
    requires LogsTold(m, logs) && AllTold(Run(m, events), log)
    ensures LogsTold(Run(m, events), logs + [log])
  {
    forall k | 0 <= k < |logs| ensures AllTold(Run(m, events), logs[k]) {
      ToldIsKept(m, events, logs[k]);
    }
  }

  /** No two signatures in the logs contradict each other. */
  ghost predicate NeverConflict(chainId: string, logs: seq<seq<Response>>) {
    forall k, i, l, j :: 0 <= k < |logs| && 0 <= i < |logs[k]| && 0 <= l < |logs| && 0 <= j < |logs[l]| ==>
      Consistent(chainId, logs[k][i], logs[l][j])
  }

  lemma LogsNeverConflict(m: Machine, logs: seq<seq<Response>>)
    requires Inv(m) && LogsTold(m, logs)
    ensures NeverConflict(m.config.chainId, logs)
  {
    forall k, i, l, j | 0 <= k < |logs| && 0 <= i < |logs[k]| && 0 <= l < |logs| && 0 <= j < |logs[l]|
      ensures Consistent(m.config.chainId, logs[k][i], logs[l][j])
    {
      assert AllTold(m, logs[k]) && AllTold(m, logs[l]);
      assert Told(m, logs[k][i]) && Told(m, logs[l][j]);
      ToldIsConsistent(m, logs[k][i], logs[l][j]);
    }
  }

  lemma SessionNeverConflicts(start: Machine, m: Machine, logs: seq<seq<Response>>)
    requires m.config == start.config && LogsTold(m, logs) && (Inv(start) ==> Inv(m))
    ensures Inv(start) ==> NeverConflict(start.config.chainId, logs)
  {
    if Inv(start) {
      LogsNeverConflict(m, logs);
    }
  }

  /** Reconnecting: the session outlives its connections, and the machine it
      drives goes on from where it was. */
  method Serve(session: Session, plans: seq<seq<Turn>>) returns (logs: seq<seq<Response>>)
    requires session.Valid()
    modifies session`connection, session`state, session`trace, session.syncer
    ensures session.Valid()
    ensures |logs| == |plans| && AllServed(plans, logs)
    ensures session.trace == Run(old(session.trace), ServeEvents(plans, logs))
    ensures LogsTold(session.trace, logs)
    ensures old(Inv(session.trace)) ==> Inv(session.trace) && NeverConflict(session.config.chainId, logs)
  {
    logs := [];
    ghost var start := session.trace;
    for n := 0 to |plans|
      invariant session.Valid()
      invariant |logs| == n && AllServed(plans, logs)
      invariant session.trace == Run(start, ServeEvents(plans, logs))
      invariant LogsTold(session.trace, logs)
    {
      ghost var before := session.trace;
      var log := ServeConnection(session, plans[n]);
      LogsToldOneMore(before, LoopEvents(plans[n][..PassesMade(plans[n], |log|)]), logs, log);
      ServeEventsStep(start, plans, logs, log);
      AllServedPush(plans, logs, log);
      logs := logs + [log];
    }
    RunKeepsInvIfStarted(start, ServeEvents(plans, logs));
    SessionNeverConflicts(start, session.trace, logs);
  }

  /** Start-up of the softsign signer after a stop at any point. */
  method StartSession(config: Config, connection: Connection, holder: StateHolder,
                      reading: Reading, outcome: PersistOutcome, ghost before: Machine)
    returns (r: Result<Session, StateError>)
    requires before.config == config && before.process.Down? && before.disk == holder.file
    modifies holder
    ensures r.Ok? <==> !LoadFails(reading, old(holder.file)) && (old(holder.file).Some? || outcome.Written?)
    ensures holder.file == if LoadFails(reading, old(holder.file)) then old(holder.file)
                           else Next(before, Boot(outcome)).disk
    ensures r.Ok? ==>
              && r.value.Valid()
              && r.value.trace == Next(before, Boot(outcome))
              && r.value.connection == connection && r.value.syncer == holder
  {
    var state := holder.LoadState(reading, outcome, before);
    if state.Err? {
      return Err(state.error);
    }
    var session := new Session(config, connection, state.value, holder, Next(before, Boot(outcome)));
    r := Ok(session);
  }
}
