/** The double-sign guard: which consensus state may follow which, and what a
    whole history of accepted states looks like. */
module ChainState {
  import opened Wrappers

  datatype BlockId = BlockId(hash: seq<nat>, partsTotal: nat, partsHash: seq<nat>)

  datatype ConsensusState =
    ConsensusState(height: nat, round: nat, step: int, blockId: Option<BlockId>)

  datatype StateError =
    | HeightRegression(lastHeight: nat, newHeight: nat)
    | RoundRegression(height: nat, lastRound: nat, newRound: nat)
    | StepRegression(height: nat, round: nat, lastStep: int, newStep: int)
    | DoubleSign(height: nat, round: nat, step: int, oldBlockId: Option<BlockId>, newBlockId: Option<BlockId>)
    | SyncError
    | SyncEncDecError

  /** Replacing the state file is atomic: it happens or it does not, and an
      error may be reported in either case. */
  datatype PersistOutcome = Written | FailedUnwritten | FailedWritten

  datatype Proposal = Proposal(height: nat, round: nat, blockId: Option<BlockId>)

  datatype Vote = Vote(isPrecommit: bool, height: nat, round: nat, blockId: Option<BlockId>)

  // ----- the four checks, in the order the guard makes them

  function CheckHeight(cur: ConsensusState, proposed: ConsensusState): Result<(), StateError> {
    if proposed.height < cur.height
    then Err(HeightRegression(cur.height, proposed.height))
    else Ok(())
  }

  function CheckRound(cur: ConsensusState, proposed: ConsensusState): Result<(), StateError> {
    if proposed.height == cur.height && proposed.round < cur.round
    then Err(RoundRegression(proposed.height, cur.round, proposed.round))
    else Ok(())
  }

  function CheckStep(cur: ConsensusState, proposed: ConsensusState): Result<(), StateError> {
    if proposed.height == cur.height && proposed.round == cur.round && proposed.step < cur.step
    then Err(StepRegression(proposed.height, proposed.round, cur.step, proposed.step))
    else Ok(())
  }

  function CheckBlockId(cur: ConsensusState, proposed: ConsensusState): Result<(), StateError> {
    if proposed.height == cur.height && proposed.round == cur.round
       && proposed.blockId != cur.blockId
       && ((proposed.blockId.Some? && cur.blockId.Some?) || proposed.step == cur.step)
    then Err(DoubleSign(proposed.height, proposed.round, proposed.step, cur.blockId, proposed.blockId))
    else Ok(())
  }

  function CheckConsensusState(cur: ConsensusState, proposed: ConsensusState): Result<(), StateError> {
    var h := CheckHeight(cur, proposed);
    if h.Err? then h else
    var r := CheckRound(cur, proposed);
    if r.Err? then r else
    var s := CheckStep(cur, proposed);
    if s.Err? then s else CheckBlockId(cur, proposed)
  }

  predicate Accepts(cur: ConsensusState, proposed: ConsensusState) {
    CheckConsensusState(cur, proposed).Ok?
  }

  function ProposalState(p: Proposal): ConsensusState {
    ConsensusState(p.height, p.round, 0, p.blockId)
  }

  function VoteState(v: Vote): ConsensusState {
    ConsensusState(v.height, v.round, if v.isPrecommit then 2 else 1, v.blockId)
  }

  /** The state written when no state file exists yet. */
  const INITIAL := ConsensusState(0, 0, 0, None)

  // ----- the order behind the checks

  predicate Earlier(a: ConsensusState, b: ConsensusState) {
    a.height < b.height
    || (a.height == b.height
        && (a.round < b.round || (a.round == b.round && a.step < b.step)))
  }

  predicate NotAfter(a: ConsensusState, b: ConsensusState) {
    a == b || Earlier(a, b)
  }

  predicate SameRound(a: ConsensusState, b: ConsensusState) {
    a.height == b.height && a.round == b.round
  }

  predicate SamePoint(a: ConsensusState, b: ConsensusState) {
    SameRound(a, b) && a.step == b.step
  }

  predicate Compatible(a: ConsensusState, b: ConsensusState) {
    a.blockId == b.blockId || a.blockId.None? || b.blockId.None?
  }

  predicate Conflicting(a: ConsensusState, b: ConsensusState) {
    SameRound(a, b) && !Compatible(a, b)
  }

  /** The four checks, taken together, accept exactly the repetition of the
      current state and the later states that do not contradict its block. */
  lemma AcceptsExactly(cur: ConsensusState, proposed: ConsensusState)
    ensures Accepts(cur, proposed) <==> proposed == cur || (Earlier(cur, proposed) && !Conflicting(cur, proposed))
    ensures CheckConsensusState(cur, proposed).Err? ==>
              (CheckConsensusState(cur, proposed).error.DoubleSign?
               <==> NotAfter(cur, proposed.(blockId := cur.blockId)))
  {
  }

  /** Why a state is refused, in the order of the checks, and with which values. */
  lemma RefusalsExactly(cur: ConsensusState, proposed: ConsensusState)
    ensures CheckConsensusState(cur, proposed) == Err(HeightRegression(cur.height, proposed.height))
            <==> proposed.height < cur.height
    ensures CheckConsensusState(cur, proposed) == Err(RoundRegression(cur.height, cur.round, proposed.round))
            <==> proposed.height == cur.height && proposed.round < cur.round
    ensures CheckConsensusState(cur, proposed) == Err(StepRegression(cur.height, cur.round, cur.step, proposed.step))
            <==> SameRound(cur, proposed) && proposed.step < cur.step
    ensures CheckConsensusState(cur, proposed)
            == Err(DoubleSign(cur.height, cur.round, proposed.step, cur.blockId, proposed.blockId))
            <==> SameRound(cur, proposed) && cur.step <= proposed.step
                 && (!Compatible(cur, proposed) || (cur.step == proposed.step && cur.blockId != proposed.blockId))
    ensures Accepts(cur, proposed) || Earlier(proposed, cur)
            || (SameRound(cur, proposed) && cur.step <= proposed.step && cur.blockId != proposed.blockId)
  {
  }

  /** NotAfter is a partial order in which acceptance always moves forward. */
  lemma NotAfterIsPartialOrder(a: ConsensusState, b: ConsensusState, c: ConsensusState)
    ensures Accepts(a, b) ==> NotAfter(a, b)
    ensures NotAfter(a, b) && NotAfter(b, c) ==> NotAfter(a, c)
    ensures NotAfter(a, b) && NotAfter(b, a) ==> a == b
    ensures NotAfter(a, b) || NotAfter(b, a) || (SamePoint(a, b) && a.blockId != b.blockId)
  {
  }

  /** Acceptance composes exactly when its two ends do not conflict. */
  lemma AcceptanceComposesUnlessConflicting(a: ConsensusState, b: ConsensusState, c: ConsensusState)
    requires Accepts(a, b) && Accepts(b, c)
    ensures Accepts(a, c) <==> !Conflicting(a, c)
  {
  }

  /** The conflict does occur: in every round, for every two blocks. */
  lemma AcceptanceIsNotTransitive(height: nat, round: nat, x: BlockId, y: BlockId)
    requires x != y
    ensures var a, b, c := ConsensusState(height, round, 0, Some(x)),
                           ConsensusState(height, round, 1, None),
                           ConsensusState(height, round, 2, Some(y));
            Accepts(a, b) && Accepts(b, c) && !Accepts(a, c) && Line([a, b, c])
  {
    var a, b, c := ConsensusState(height, round, 0, Some(x)),
                   ConsensusState(height, round, 1, None),
                   ConsensusState(height, round, 2, Some(y));
    LinePush([], a);
    LinePush([a], b);
    LinePush([a, b], c);
    assert [] + [a] == [a] && [a] + [b] == [a, b] && [a, b] + [c] == [a, b, c];
  }

  // ----- histories

  predicate AcceptedAt(line: seq<ConsensusState>, i: int) {
    0 < i < |line| ==> Accepts(line[i - 1], line[i])
  }

  /** A history: a starting state followed by states each accepted after the one before. */
  ghost predicate Line(line: seq<ConsensusState>) {
    forall i :: AcceptedAt(line, i)
  }

  lemma LinePush(line: seq<ConsensusState>, s: ConsensusState)
    requires Line(line) && (line != [] ==> Accepts(line[|line| - 1], s))
    ensures Line(line + [s])
  {
    forall i ensures AcceptedAt(line + [s], i) {
      assert AcceptedAt(line, i);
    }
  }

  lemma LineTake(line: seq<ConsensusState>, prefix: seq<ConsensusState>)
    requires Line(line) && prefix <= line
    ensures Line(prefix)
  {
    forall i ensures AcceptedAt(prefix, i) {
      assert AcceptedAt(line, i);
    }
  }

  lemma {:induction false} LineIsOrdered(line: seq<ConsensusState>, i: nat, j: nat)
    requires Line(line) && i <= j < |line|
    ensures NotAfter(line[i], line[j])
    decreases j
  {
    if i == j {
    } else {
      LineIsOrdered(line, i, j - 1);
      assert AcceptedAt(line, j);
      NotAfterIsPartialOrder(line[i], line[j - 1], line[j]);
      NotAfterIsPartialOrder(line[j - 1], line[j], line[j]);
    }
  }

  /** One height, round and step is accepted with one block only. */
  lemma OneBlockPerPoint(line: seq<ConsensusState>, a: ConsensusState, b: ConsensusState)
    requires Line(line) && a in line && b in line && SamePoint(a, b)
    ensures a == b
  {
    var i :| 0 <= i < |line| && line[i] == a;
    var j :| 0 <= j < |line| && line[j] == b;
    if i <= j { LineIsOrdered(line, i, j); } else { LineIsOrdered(line, j, i); }
  }

  /** The state before a conflicting one is a nil vote, or conflicts itself. */
  lemma NilOrConflict(a: ConsensusState, p: ConsensusState, b: ConsensusState)
    requires NotAfter(a, p) && Accepts(p, b) && Conflicting(a, b)
    ensures SameRound(a, p)
    ensures p.blockId.None? ==> a.step < p.step < b.step
    ensures p.blockId.Some? ==> Conflicting(a, p) && p.step <= b.step
  {
  }

  /** Between two conflicting accepted states there is always an accepted nil vote. */
  lemma {:induction false} ConflictNeedsNil(line: seq<ConsensusState>, i: nat, j: nat) returns (k: nat)
    requires Line(line) && i < j < |line| && Conflicting(line[i], line[j])
    ensures i < k < j && SameRound(line[i], line[k]) && line[k].blockId.None?
    ensures line[i].step < line[k].step < line[j].step
    decreases j
  {
    LineIsOrdered(line, i, j - 1);
    assert AcceptedAt(line, j);
    NilOrConflict(line[i], line[j - 1], line[j]);
    if line[j - 1].blockId.None? {
      k := j - 1;
    } else {
      k := ConflictNeedsNil(line, i, j - 1);
    }
  }

  predicate VoteStep(s: ConsensusState) {
    0 <= s.step <= 2
  }

  /** The exact shape of a conflict among states that come from requests:
      a proposal, then a nil prevote, then a precommit. */
  lemma ConflictShape(line: seq<ConsensusState>, a: ConsensusState, b: ConsensusState)
    returns (i: nat, k: nat, j: nat)
    requires Line(line) && a in line && b in line && Conflicting(a, b) && a.step <= b.step
    requires VoteStep(a) && VoteStep(b)
    ensures a.step == 0 && b.step == 2
    ensures i < k < j < |line| && line[i] == a && line[j] == b
    ensures line[k] == ConsensusState(a.height, a.round, 1, None)
  {
    i :| 0 <= i < |line| && line[i] == a;
    j :| 0 <= j < |line| && line[j] == b;
    if j < i { LineIsOrdered(line, j, i); }
    k := ConflictNeedsNil(line, i, j);
  }

  lemma {:induction false} AtMostOne(states: set<ConsensusState>)
    requires forall a, b :: a in states && b in states ==> a == b
    ensures |states| <= 1
  {
    if states == {} {
    } else {
      var a :| a in states;
      assert states == {a};
    }
  }

  function OfStep(states: set<ConsensusState>, step: int): set<ConsensusState> {
    set s | s in states && s.step == step
  }

  lemma OneOfStep(line: seq<ConsensusState>, states: set<ConsensusState>, step: int)
    requires Line(line) && forall s :: s in states ==> s in line
    requires forall a, b :: a in states && b in states ==> SameRound(a, b)
    ensures |OfStep(states, step)| <= 1
  {
    forall a, b | a in OfStep(states, step) && b in OfStep(states, step) ensures a == b {
      OneBlockPerPoint(line, a, b);
    }
    AtMostOne(OfStep(states, step));
  }

  /** At most three different states of one height and round are ever accepted. */
  lemma AtMostThreePerRound(line: seq<ConsensusState>, states: set<ConsensusState>)
    requires Line(line) && forall s :: s in states ==> s in line && VoteStep(s)
    requires forall a, b :: a in states && b in states ==> SameRound(a, b)
    ensures |states| <= 3
  {
    OneOfStep(line, states, 0);
    OneOfStep(line, states, 1);
    OneOfStep(line, states, 2);
    assert states == OfStep(states, 0) + OfStep(states, 1) + OfStep(states, 2);
  }
}
