/** Persistence outside the enclave. The enclave writes each accepted state to a
    byte stream; a host process takes frames off that stream and keeps the latest
    state in memory and in a file. The two sides run at their own pace: bytes move
    in pieces of any size, and every theorem is about every interleaving. */
module RemoteState {
  import opened Wrappers
  import opened Bytes
  import opened ChainState
  import opened Framing

  /** The text encoding of a state, known only by the law that decoding undoes it. */
  datatype Codec = Codec(enc: ConsensusState -> seq<byte>, dec: seq<byte> -> Option<ConsensusState>)

  ghost predicate Lawful(c: Codec) {
    forall s :: c.dec(c.enc(s)) == Some(s)
  }

  function Encodings(c: Codec, states: seq<ConsensusState>): seq<seq<byte>> {
    seq(|states|, i requires 0 <= i < |states| => c.enc(states[i]))
  }

  // ----- the step system

  /** `accepted` are the states the enclave took into memory, `pending` the one it
      is still writing; `outbox`, `pipe` and `inbox` hold the bytes not yet written,
      in the stream, and read into an unfinished frame; `taken` are the states the
      host took off the stream; `fileCurrent` says whether its last file write
      succeeded. `torn` is None while no read or write has damaged the stream, and
      afterwards holds the states that were sent whole before the damage. */
  datatype Link = Link(
    start: ConsensusState,
    memory: ConsensusState,
    accepted: seq<ConsensusState>,
    pending: Option<ConsensusState>,
    outbox: seq<byte>,
    pipe: seq<byte>,
    inbox: seq<byte>,
    host: ConsensusState,
    taken: seq<ConsensusState>,
    file: ConsensusState,
    fileCurrent: bool,
    torn: Option<seq<ConsensusState>>)

  datatype Event =
    | Offer(state: ConsensusState)
    | Send(n: nat)
    | Update
    | Take(n: nat, outcome: PersistOutcome)
    | WriteFails
    | ReadFails(outcome: PersistOutcome)

  function Connected(start: ConsensusState): Link {
    Link(start, start, [], None, [], [], [], start, [], start, true, None)
  }

  /** How many more bytes the host asks for to finish the frame in its inbox:
      first the two length bytes, then the payload. */
  function Wanted(inbox: seq<byte>): int {
    if |inbox| < 2 then 2 - |inbox| else 2 + LengthOf(inbox) - |inbox|
  }

  predicate Whole(inbox: seq<byte>) {
    |inbox| >= 2 && Wanted(inbox) == 0
  }

  function FileWith(file: ConsensusState, state: ConsensusState, outcome: PersistOutcome): ConsensusState {
    if outcome.FailedUnwritten? then file else state
  }

  function Deliver(c: Codec, k: Link, outcome: PersistOutcome): Link
    requires |k.inbox| >= 2
  {
    var state := c.dec(k.inbox[2..]);
    if state.None? then k.(inbox := [])
    else k.(inbox := [],
            host := state.value,
            taken := k.taken + [state.value],
            file := FileWith(k.file, state.value, outcome),
            fileCurrent := outcome.Written?)
  }

  /** A write that fails drops the request: the frame may have gone out whole, in
      part, or not at all, and only in the last case is the stream undamaged. */
  function FailWrite(c: Codec, k: Link): Link
    requires k.pending.Some?
  {
    k.(pending := None, outbox := [],
       torn := if k.torn.Some? || |k.outbox| == |Frame(c.enc(k.pending.value))| then k.torn
               else if k.outbox == [] then Some(Sent(k)) else Some(k.accepted))
  }

  /** The link with the damage noted, before the bytes are dropped. */
  function MarkTorn(k: Link): Link {
    k.(torn := if k.torn.Some? && k.torn.value <= k.taken then k.torn else Some(k.taken))
  }

  /** A read that fails loses the bytes read so far, except that the bytes of a
      payload that did arrive are taken for the whole payload. */
  function FailRead(c: Codec, k: Link, outcome: PersistOutcome): Link {
    if k.inbox == [] then k
    else if |k.inbox| <= 2 then MarkTorn(k).(inbox := [])
    else Deliver(c, MarkTorn(k), outcome)
  }

  function Next(c: Codec, k: Link, e: Event): Link {
    match e
    case Offer(state) =>
      if k.pending.None? && Accepts(k.memory, state) && Fits(c.enc(state))
      then k.(pending := Some(state), outbox := Frame(c.enc(state))) else k
    case Send(n) =>
      if n <= |k.outbox| then k.(outbox := k.outbox[n..], pipe := k.pipe + k.outbox[..n]) else k
    case Update =>
      if k.pending.Some? && k.outbox == []
      then k.(memory := k.pending.value, accepted := k.accepted + [k.pending.value], pending := None) else k
    case Take(n, outcome) =>
      if n <= |k.pipe| && n <= Wanted(k.inbox) then
        var k' := k.(inbox := k.inbox + k.pipe[..n], pipe := k.pipe[n..]);
        if Whole(k'.inbox) then Deliver(c, k', outcome) else k'
      else k
    case WriteFails => if k.pending.Some? then FailWrite(c, k) else k
    case ReadFails(outcome) => FailRead(c, k, outcome)
  }

  function Run(c: Codec, k: Link, events: seq<Event>): Link
    decreases |events|
  {
    if events == [] then k else Run(c, Next(c, k, events[0]), events[1..])
  }

  // ----- what every step keeps

  /** Every state whose frame was started and not given up, in order. */
  function Sent(k: Link): seq<ConsensusState> {
    k.accepted + (if k.pending.Some? then [k.pending.value] else [])
  }

  function InFlight(k: Link): seq<byte> {
    k.inbox + k.pipe + k.outbox
  }

  function LastOr(start: ConsensusState, states: seq<ConsensusState>): ConsensusState {
    if states == [] then start else states[|states| - 1]
  }

  /** The frames of the states not yet taken. */
  function Due(c: Codec, states: seq<ConsensusState>, taken: nat): seq<byte>
    requires taken <= |states|
  {
    Frames(Encodings(c, states[taken..]))
  }

  ghost predicate AllFit(c: Codec, states: seq<ConsensusState>) {
    forall i :: 0 <= i < |states| ==> Fits(c.enc(states[i]))
  }

  /** While undamaged, the bytes in flight are the frames of the states not yet taken. */
  ghost predicate Carried(c: Codec, k: Link) {
    k.taken <= Sent(k) && InFlight(k) == Due(c, Sent(k), |k.taken|)
  }

  /** After damage, what is read before it is still what was sent. */
  ghost predicate CarriedUpTo(c: Codec, k: Link, clean: seq<ConsensusState>) {
    && AllFit(c, clean)
    && (clean <= k.taken || (k.taken <= clean && Due(c, clean, |k.taken|) <= k.inbox + k.pipe))
  }

  ghost predicate StreamCore(c: Codec, k: Link) {
    && AllFit(c, Sent(k))
    && (k.pending.None? ==> k.outbox == [])
    && (k.pending.Some? ==> |k.outbox| <= |Frame(c.enc(k.pending.value))|)
    && (if k.torn.None? then Carried(c, k) else CarriedUpTo(c, k, k.torn.value))
  }

  ghost predicate StreamInv(c: Codec, k: Link) {
    StreamCore(c, k) && Wanted(k.inbox) > 0
  }

  ghost predicate EndsInv(k: Link) {
    && Line([k.start] + Sent(k))
    && (k.torn.Some? ==> Line([k.start] + k.torn.value))
    && k.memory == LastOr(k.start, k.accepted)
    && k.host == LastOr(k.start, k.taken)
    && (k.fileCurrent ==> k.file == k.host)
    && k.file in [k.start] + k.taken
  }

  ghost predicate Inv(c: Codec, k: Link) {
    StreamInv(c, k) && EndsInv(k)
  }

  lemma EncodingsPush(c: Codec, states: seq<ConsensusState>, state: ConsensusState)
    ensures Frames(Encodings(c, states + [state])) == Frames(Encodings(c, states)) + Frame(c.enc(state))
  {
    assert Encodings(c, states + [state]) == Encodings(c, states) + [c.enc(state)];
    FramesConcat(Encodings(c, states), [c.enc(state)]);
    assert Frames([c.enc(state)]) == Frame(c.enc(state)) + Frames([]);
  }

  lemma EncodingsPop(c: Codec, states: seq<ConsensusState>)
    requires states != []
    ensures Frames(Encodings(c, states)) == Frame(c.enc(states[0])) + Frames(Encodings(c, states[1..]))
  {
    assert Encodings(c, states)[1..] == Encodings(c, states[1..]);
  }

  lemma DuePush(c: Codec, states: seq<ConsensusState>, taken: nat, state: ConsensusState)
    requires taken <= |states|
    ensures Due(c, states + [state], taken) == Due(c, states, taken) + Frame(c.enc(state))
  {
    assert (states + [state])[taken..] == states[taken..] + [state];
    EncodingsPush(c, states[taken..], state);
  }

  lemma DuePop(c: Codec, states: seq<ConsensusState>, taken: nat)
    requires taken < |states|
    ensures Due(c, states, taken) == Frame(c.enc(states[taken])) + Due(c, states, taken + 1)
  {
    EncodingsPop(c, states[taken..]);
    assert states[taken..][1..] == states[taken + 1..];
  }

  lemma NothingDue(c: Codec, states: seq<ConsensusState>)
    ensures Due(c, states, |states|) == []
  {
    assert Encodings(c, states[|states|..]) == [];
  }

  // The steps of the enclave.

  lemma OfferKeepsStream(c: Codec, k: Link, state: ConsensusState)
    requires StreamInv(c, k) && k.pending.None? && Fits(c.enc(state))
    ensures StreamInv(c, k.(pending := Some(state), outbox := Frame(c.enc(state))))
  {
    var k' := k.(pending := Some(state), outbox := Frame(c.enc(state)));
    assert Sent(k) == k.accepted && Sent(k') == Sent(k) + [state];
    if k.torn.None? {
      DuePush(c, Sent(k), |k.taken|, state);
      assert InFlight(k') == InFlight(k) + k'.outbox;
    }
  }

  lemma OfferKeepsEnds(k: Link, state: ConsensusState, outbox: seq<byte>)
    requires EndsInv(k) && k.pending.None? && Accepts(k.memory, state)
    ensures EndsInv(k.(pending := Some(state), outbox := outbox))
  {
    var k' := k.(pending := Some(state), outbox := outbox);
    var line := [k.start] + Sent(k);
    assert [k.start] + Sent(k') == line + [state];
    assert line[|line| - 1] == k.memory;
    LinePush(line, state);
  }

  lemma OfferKeepsInv(c: Codec, k: Link, state: ConsensusState)
    requires Inv(c, k)
    ensures Inv(c, Next(c, k, Offer(state)))
  {
    if k.pending.None? && Accepts(k.memory, state) && Fits(c.enc(state)) {
      OfferKeepsStream(c, k, state);
      OfferKeepsEnds(k, state, Frame(c.enc(state)));
    }
  }

  lemma SentBytes(inbox: seq<byte>, pipe: seq<byte>, outbox: seq<byte>, n: nat, due: seq<byte>)
    requires n <= |outbox|
    ensures inbox + (pipe + outbox[..n]) + outbox[n..] == inbox + pipe + outbox
    ensures due <= inbox + pipe ==> due <= inbox + (pipe + outbox[..n])
  {
    assert inbox + (pipe + outbox[..n]) == inbox + pipe + outbox[..n];
    assert outbox[..n] + outbox[n..] == outbox;
  }

  lemma SendKeepsInv(c: Codec, k: Link, n: nat)
    requires Inv(c, k)
    ensures Inv(c, Next(c, k, Send(n)))
  {
    if n <= |k.outbox| {
      var clean := if k.torn.Some? && k.taken <= k.torn.value then k.torn.value else k.taken;
      SentBytes(k.inbox, k.pipe, k.outbox, n, Due(c, clean, |k.taken|));
      assert Sent(Next(c, k, Send(n))) == Sent(k);
    }
  }

  lemma UpdateKeepsInv(c: Codec, k: Link)
    requires Inv(c, k)
    ensures Inv(c, Next(c, k, Update))
  {
    assert Sent(Next(c, k, Update)) == Sent(k);
  }

  /** While a frame is still being written, all earlier frames are in the stream. */
  lemma EarlierFramesAreWritten(c: Codec, k: Link)
    requires StreamInv(c, k) && k.torn.None? && k.pending.Some? && k.outbox != []
    ensures |k.taken| <= |k.accepted| && k.taken <= k.accepted
    ensures Due(c, k.accepted, |k.taken|) <= k.inbox + k.pipe
    ensures |k.outbox| == |Frame(c.enc(k.pending.value))| ==> Due(c, k.accepted, |k.taken|) == k.inbox + k.pipe
  {
    var last := Frame(c.enc(k.pending.value));
    if |k.taken| == |Sent(k)| {
      NothingDue(c, Sent(k));
    }
    DuePush(c, k.accepted, |k.taken|, k.pending.value);
    SplitLast(k.inbox + k.pipe, k.outbox, Due(c, k.accepted, |k.taken|), last);
  }

  lemma SplitLast(a: seq<byte>, b: seq<byte>, x: seq<byte>, y: seq<byte>)
    requires a + b == x + y && |b| <= |y|
    ensures x <= a && (|b| == |y| ==> x == a)
  {
    assert |x| <= |a|;
    assert (a + b)[..|x|] == a[..|x|] && (x + y)[..|x|] == x;
  }

  lemma WriteFailsKeepsStream(c: Codec, k: Link)
    requires StreamInv(c, k) && k.pending.Some?
    ensures StreamInv(c, FailWrite(c, k))
  {
    var k' := FailWrite(c, k);
    assert Sent(k') == k.accepted && InFlight(k') == k.inbox + k.pipe;
    assert Sent(k) == k.accepted + [k.pending.value];
    assert forall i :: 0 <= i < |k.accepted| ==> k.accepted[i] == Sent(k)[i];
    if k.torn.None? {
      if k.outbox == [] {
        assert InFlight(k) == k.inbox + k.pipe;
      } else {
        EarlierFramesAreWritten(c, k);
      }
    }
  }

  lemma WriteFailsKeepsInv(c: Codec, k: Link)
    requires Inv(c, k)
    ensures Inv(c, Next(c, k, WriteFails))
  {
    if k.pending.Some? {
      WriteFailsKeepsStream(c, k);
      LineTake([k.start] + Sent(k), [k.start] + k.accepted);
      var k' := FailWrite(c, k);
      assert Sent(k') == k.accepted;
      assert EndsInv(k');
    }
  }

  // The steps of the host.

  /** A whole inbox is exactly the oldest frame still in flight. */
  lemma WholeInboxIsAFrame(inbox: seq<byte>, rest: seq<byte>, payload: seq<byte>, later: seq<byte>)
    requires Fits(payload) && Whole(inbox) && inbox + rest == Frame(payload) + later
    ensures inbox == Frame(payload) && inbox[2..] == payload && rest == later
  {
    FrameLength(payload);
    assert (inbox + rest)[0] == inbox[0] && (inbox + rest)[1] == inbox[1];
    assert (Frame(payload) + later)[0] == Frame(payload)[0] && (Frame(payload) + later)[1] == Frame(payload)[1];
    assert (inbox + rest)[..|inbox|] == inbox && (inbox + rest)[|inbox|..] == rest;
    assert (Frame(payload) + later)[..|inbox|] == Frame(payload) && (Frame(payload) + later)[|inbox|..] == later;
  }

  /** So it decodes to the next state due, and leaves the frames after it. */
  lemma WholeInboxDecodes(c: Codec, states: seq<ConsensusState>, n: nat, inbox: seq<byte>, rest: seq<byte>,
                          junk: seq<byte>)
    requires Lawful(c) && AllFit(c, states) && n < |states| && Whole(inbox)
    requires inbox + rest == Due(c, states, n) + junk
    ensures c.dec(inbox[2..]) == Some(states[n]) && rest == Due(c, states, n + 1) + junk
  {
    var payload, later := c.enc(states[n]), Due(c, states, n + 1) + junk;
    DuePop(c, states, n);
    assert Due(c, states, n) + junk == Frame(payload) + later;
    WholeInboxIsAFrame(inbox, rest, payload, later);
  }

  lemma PrefixGrows(all: seq<ConsensusState>, taken: seq<ConsensusState>)
    requires taken <= all && |taken| < |all|
    ensures taken + [all[|taken|]] <= all
  {
  }

  lemma DeliverUndamaged(c: Codec, k: Link, outcome: PersistOutcome)
    requires Lawful(c) && StreamCore(c, k) && k.torn.None? && Whole(k.inbox)
    ensures StreamInv(c, Deliver(c, k, outcome))
  {
    var n := |k.taken|;
    if n == |Sent(k)| {
      NothingDue(c, Sent(k));
    }
    assert k.inbox + (k.pipe + k.outbox) == Due(c, Sent(k), n) + [];
    WholeInboxDecodes(c, Sent(k), n, k.inbox, k.pipe + k.outbox, []);
    PrefixGrows(Sent(k), k.taken);
    var k' := Deliver(c, k, outcome);
    assert Sent(k') == Sent(k) && InFlight(k') == k.pipe + k.outbox;
  }

  lemma DeliverDamaged(c: Codec, k: Link, outcome: PersistOutcome)
    requires Lawful(c) && StreamCore(c, k) && k.torn.Some? && Whole(k.inbox)
    ensures StreamInv(c, Deliver(c, k, outcome))
  {
    var clean, n := k.torn.value, |k.taken|;
    var k' := Deliver(c, k, outcome);
    assert Sent(k') == Sent(k);
    if !(clean <= k.taken) {
      var due := Due(c, clean, n);
      var junk := (k.inbox + k.pipe)[|due|..];
      assert k.inbox + k.pipe == due + junk;
      WholeInboxDecodes(c, clean, n, k.inbox, k.pipe, junk);
      PrefixGrows(clean, k.taken);
      assert k'.inbox + k'.pipe == k.pipe;
    }
  }

  lemma DeliverKeepsEnds(c: Codec, k: Link, outcome: PersistOutcome)
    requires EndsInv(k) && |k.inbox| >= 2
    ensures EndsInv(Deliver(c, k, outcome))
  {
    var k' := Deliver(c, k, outcome);
    assert Sent(k') == Sent(k);
    assert c.dec(k.inbox[2..]).Some? ==> [k.start] + k'.taken == [k.start] + k.taken + [k'.host];
  }

  lemma MovedBytesKeepInv(c: Codec, k: Link, n: nat, k1: Link)
    requires Inv(c, k) && n <= |k.pipe|
    requires k1 == k.(inbox := k.inbox + k.pipe[..n], pipe := k.pipe[n..])
    ensures StreamCore(c, k1) && EndsInv(k1)
  {
    assert InFlight(k1) == InFlight(k) && k1.inbox + k1.pipe == k.inbox + k.pipe;
    assert Sent(k1) == Sent(k);
  }

  lemma StillWanted(inbox: seq<byte>, more: seq<byte>)
    requires |more| <= Wanted(inbox) && !Whole(inbox + more)
    ensures Wanted(inbox + more) > 0
  {
    assert |inbox| >= 2 ==> LengthOf(inbox + more) == LengthOf(inbox);
  }

  lemma TakeKeepsInv(c: Codec, k: Link, n: nat, outcome: PersistOutcome)
    requires Lawful(c) && Inv(c, k)
    ensures Inv(c, Next(c, k, Take(n, outcome)))
  {
    if n <= |k.pipe| && n <= Wanted(k.inbox) {
      var k1 := k.(inbox := k.inbox + k.pipe[..n], pipe := k.pipe[n..]);
      MovedBytesKeepInv(c, k, n, k1);
      if Whole(k1.inbox) {
        if k.torn.None? { DeliverUndamaged(c, k1, outcome); } else { DeliverDamaged(c, k1, outcome); }
        DeliverKeepsEnds(c, k1, outcome);
      } else {
        StillWanted(k.inbox, k.pipe[..n]);
      }
    }
  }

  lemma MarkTornKeepsInv(c: Codec, k: Link)
    requires Inv(c, k)
    ensures Inv(c, MarkTorn(k)) && MarkTorn(k).torn.value <= k.taken
  {
    var k1 := MarkTorn(k);
    assert Sent(k1) == Sent(k);
    if !(k.torn.Some? && k.torn.value <= k.taken) {
      var all := if k.torn.None? then Sent(k) else k.torn.value;
      assert k.taken <= all && forall i :: 0 <= i < |k.taken| ==> k.taken[i] == all[i];
      LineTake([k.start] + all, [k.start] + k.taken);
    }
  }

  lemma DamagedDropKeepsInv(c: Codec, k: Link)
    requires Inv(c, k) && k.torn.Some? && k.torn.value <= k.taken
    ensures Inv(c, k.(inbox := []))
  {
    assert Sent(k.(inbox := [])) == Sent(k);
  }

  lemma DamagedDeliverKeepsInv(c: Codec, k: Link, outcome: PersistOutcome)
    requires Inv(c, k) && k.torn.Some? && k.torn.value <= k.taken && |k.inbox| >= 2
    ensures Inv(c, Deliver(c, k, outcome))
  {
    DeliverKeepsEnds(c, k, outcome);
    assert Sent(Deliver(c, k, outcome)) == Sent(k);
  }

  lemma ReadFailsKeepsInv(c: Codec, k: Link, outcome: PersistOutcome)
    requires Inv(c, k)
    ensures Inv(c, Next(c, k, ReadFails(outcome)))
  {
    if k.inbox != [] {
      MarkTornKeepsInv(c, k);
      if |k.inbox| <= 2 {
        DamagedDropKeepsInv(c, MarkTorn(k));
      } else {
        DamagedDeliverKeepsInv(c, MarkTorn(k), outcome);
      }
    }
  }

  /** Every step, a failed read or write among them, keeps the invariant. */
  lemma NextKeepsInv(c: Codec, k: Link, e: Event)
    requires Lawful(c) && Inv(c, k)
    ensures Inv(c, Next(c, k, e))
  {
    match e
    case Offer(state) => OfferKeepsInv(c, k, state);
    case Take(n, outcome) => TakeKeepsInv(c, k, n, outcome);
    case Send(n) => SendKeepsInv(c, k, n);
    case Update => UpdateKeepsInv(c, k);
    case WriteFails => WriteFailsKeepsInv(c, k);
    case ReadFails(outcome) => ReadFailsKeepsInv(c, k, outcome);
  }

  lemma {:induction false} RunKeepsStart(c: Codec, k: Link, events: seq<Event>)
    ensures Run(c, k, events).start == k.start
    decreases |events|
  {
    if events == [] {
    } else {
      RunKeepsStart(c, Next(c, k, events[0]), events[1..]);
    }
  }

  lemma {:induction false} RunKeepsInv(c: Codec, k: Link, events: seq<Event>)
    requires Lawful(c) && Inv(c, k)
    ensures Inv(c, Run(c, k, events))
    decreases |events|
  {
    if events == [] {
    } else {
      NextKeepsInv(c, k, events[0]);
      RunKeepsInv(c, Next(c, k, events[0]), events[1..]);
    }
  }

  lemma Reached(c: Codec, start: ConsensusState, events: seq<Event>)
    requires Lawful(c)
    ensures Inv(c, Run(c, Connected(start), events)) && Run(c, Connected(start), events).start == start
  {
    NothingDue(c, []);
    assert Inv(c, Connected(start));
    RunKeepsInv(c, Connected(start), events);
    RunKeepsStart(c, Connected(start), events);
  }

  // ----- what holds of every run

  function Decodings(c: Codec, payloads: seq<seq<byte>>): seq<Option<ConsensusState>> {
    seq(|payloads|, i requires 0 <= i < |payloads| => c.dec(payloads[i]))
  }

  function Somes(states: seq<ConsensusState>): seq<Option<ConsensusState>> {
    seq(|states|, i requires 0 <= i < |states| => Some(states[i]))
  }

  predicate Fails(e: Event) {
    e.WriteFails? || e.ReadFails?
  }

  /** Only a failed read or write damages the stream. */
  lemma {:induction false} NoFailureNoDamage(c: Codec, k: Link, events: seq<Event>)
    requires k.torn.None? && forall i :: 0 <= i < |events| ==> !Fails(events[i])
    ensures Run(c, k, events).torn.None?
    decreases |events|
  {
    if events == [] {
    } else {
      assert !Fails(events[0]);
      NoFailureNoDamage(c, Next(c, k, events[0]), events[1..]);
    }
  }

  lemma DueReadsBack(c: Codec, states: seq<ConsensusState>, n: nat)
    requires Lawful(c) && n <= |states| && AllFit(c, states)
    ensures Decodings(c, ReadAll(Due(c, states, n))) == Somes(states[n..])
  {
    FramesRoundTrip(Encodings(c, states[n..]));
  }

  /** While undamaged, the states the enclave sent are those the host took,
      followed by those that decode from the bytes in flight, in order. */
  lemma SentIsTakenPlusInFlight(c: Codec, start: ConsensusState, events: seq<Event>)
    requires Lawful(c)
    ensures var k := Run(c, Connected(start), events);
            k.torn.None? ==> Somes(Sent(k)) == Somes(k.taken) + Decodings(c, ReadAll(InFlight(k)))
  {
    Reached(c, start, events);
    var k := Run(c, Connected(start), events);
    if k.torn.None? {
      DueReadsBack(c, Sent(k), |k.taken|);
      SomesSplit(Sent(k), k.taken);
    }
  }

  lemma SomesSplit(all: seq<ConsensusState>, taken: seq<ConsensusState>)
    requires taken <= all
    ensures Somes(all) == Somes(taken) + Somes(all[|taken|..])
  {
  }

  /** Where a host that took a prefix of `all` stands in it, and its file. */
  lemma HostPosition(k: Link, all: seq<ConsensusState>) returns (i: nat)
    requires EndsInv(k) && k.taken <= all
    ensures var line := [k.start] + all;
            i <= |k.taken| < |line| && line[i] == k.file && line[|k.taken|] == k.host
            && line[|all|] == LastOr(k.start, all)
  {
    i :| 0 <= i < |[k.start] + k.taken| && ([k.start] + k.taken)[i] == k.file;
    assert ([k.start] + all)[..|k.taken| + 1] == [k.start] + k.taken;
  }

  lemma HostIsBehind(k: Link, all: seq<ConsensusState>)
    requires EndsInv(k) && k.taken <= all && Line([k.start] + all)
    ensures k.host in [k.start] + all && k.file in [k.start] + all
    ensures NotAfter(k.file, k.host) && NotAfter(k.host, LastOr(k.start, all))
  {
    var i := HostPosition(k, all);
    LineIsOrdered([k.start] + all, |k.taken|, |all|);
    LineIsOrdered([k.start] + all, i, |k.taken|);
  }

  /** While undamaged, the host and its file never hold a state that the enclave
      did not start from, accept, or completely send after its check; and they
      never run ahead. */
  lemma HostNeverInvents(c: Codec, start: ConsensusState, events: seq<Event>)
    requires Lawful(c)
    ensures var k := Run(c, Connected(start), events);
            k.torn.None? ==>
              && k.host in [start] + Sent(k) && k.file in [start] + Sent(k)
              && (k.outbox != [] ==> k.host in [start] + k.accepted)
              && NotAfter(k.file, k.host) && NotAfter(k.host, LastOr(start, Sent(k)))
  {
    Reached(c, start, events);
    var k := Run(c, Connected(start), events);
    if k.torn.None? {
      HostIsBehind(k, Sent(k));
      if k.outbox != [] {
        EarlierFramesAreWritten(c, k);
        var i := HostPosition(k, k.accepted);
      }
    }
  }

  /** A failure harms nothing before it. In every run, failures included, the
      enclave's own history is in order; and what the host takes starts with the
      states sent whole before the first damage, or is still on the way there, and
      up to that point the host holds nothing else. */
  lemma DamageIsConfined(c: Codec, start: ConsensusState, events: seq<Event>)
    requires Lawful(c)
    ensures var k := Run(c, Connected(start), events);
            && Line([start] + k.accepted) && k.memory == LastOr(start, k.accepted)
            && (k.torn.Some? ==>
                  var clean := k.torn.value;
                  && Line([start] + clean)
                  && (clean <= k.taken || k.taken <= clean)
                  && (k.taken <= clean ==>
                        k.host in [start] + clean && NotAfter(k.file, k.host)
                        && NotAfter(k.host, LastOr(start, clean))))
  {
    Reached(c, start, events);
    var k := Run(c, Connected(start), events);
    LineTake([start] + Sent(k), [start] + k.accepted);
    if k.torn.Some? && k.taken <= k.torn.value {
      HostIsBehind(k, k.torn.value);
    }
  }

  lemma NothingDueIsAllTaken(c: Codec, states: seq<ConsensusState>, taken: nat)
    requires taken <= |states| && Due(c, states, taken) == []
    ensures taken == |states|
  {
    if taken < |states| {
      DuePop(c, states, taken);
    }
  }

  /** When the enclave is not writing and no byte is in flight, the two sides
      agree, and so does the file if its last write succeeded. */
  lemma DrainedSidesAgree(c: Codec, start: ConsensusState, events: seq<Event>)
    requires Lawful(c)
    requires var k := Run(c, Connected(start), events); k.torn.None? && k.pending.None? && InFlight(k) == []
    ensures var k := Run(c, Connected(start), events);
            k.taken == k.accepted && k.host == k.memory && (k.fileCurrent ==> k.file == k.memory)
  {
    Reached(c, start, events);
    var k := Run(c, Connected(start), events);
    NothingDueIsAllTaken(c, Sent(k), |k.taken|);
  }

  lemma {:induction false} RunConcat(c: Codec, k: Link, es: seq<Event>, fs: seq<Event>)
    ensures Run(c, k, es + fs) == Run(c, Run(c, k, es), fs)
    decreases |es|
  {
    if es == [] {
      assert es + fs == fs;
    } else {
      assert (es + fs)[1..] == es[1..] + fs;
      RunConcat(c, Next(c, k, es[0]), es[1..], fs);
    }
  }

  lemma RunStep(c: Codec, k: Link, e: Event, es: seq<Event>)
    ensures Run(c, k, [e] + es) == Run(c, Next(c, k, e), es)
  {
    assert ([e] + es)[1..] == es;
  }

  lemma WholeFrameIsFinished(payload: seq<byte>, later: seq<byte>)
    requires Fits(payload)
    ensures Wanted(Frame(payload) + later) <= 0
  {
    FrameLength(payload);
    assert LengthOf(Frame(payload) + later) == LengthOf(Frame(payload));
  }

  /** An unfinished frame is never all there is: when nothing more is to come, the inbox is empty. */
  lemma NothingUnfinished(c: Codec, k: Link)
    requires StreamInv(c, k) && k.torn.None? && k.pipe == [] && k.outbox == []
    ensures InFlight(k) == []
  {
    assert InFlight(k) == k.inbox;
    if |k.taken| == |Sent(k)| {
      NothingDue(c, Sent(k));
    } else {
      DuePop(c, Sent(k), |k.taken|);
      WholeFrameIsFinished(c.enc(Sent(k)[|k.taken|]), Due(c, Sent(k), |k.taken| + 1));
    }
  }

  lemma TakeShrinksPipe(c: Codec, k: Link, n: nat)
    requires n <= |k.pipe| && n <= Wanted(k.inbox)
    ensures var k' := Next(c, k, Take(n, Written));
            |k'.pipe| == |k.pipe| - n && k'.outbox == k.outbox && k'.torn == k.torn
            && k'.pending == k.pending && k'.accepted == k.accepted
  {
  }

  /** Taking as many bytes as wanted, or as there are, empties the stream. */
  lemma {:induction false} DrainPipe(c: Codec, k: Link) returns (es: seq<Event>)
    requires Lawful(c) && Inv(c, k) && k.torn.None? && k.outbox == []
    ensures var k' := Run(c, k, es);
            InFlight(k') == [] && k'.pending == k.pending && k'.accepted == k.accepted && k'.torn.None?
    decreases |k.pipe|
  {
    if k.pipe == [] {
      es := [];
      NothingUnfinished(c, k);
    } else {
      var n := if |k.pipe| <= Wanted(k.inbox) then |k.pipe| else Wanted(k.inbox);
      var e := Take(n, Written);
      NextKeepsInv(c, k, e);
      TakeShrinksPipe(c, k, n);
      var rest := DrainPipe(c, Next(c, k, e));
      RunStep(c, k, e, rest);
      es := [e] + rest;
    }
  }

  /** From every undamaged state the two sides can come to agree on exactly the
      states sent so far: no interleaving leaves the stream stuck in a frame. */
  lemma CanAlwaysDrain(c: Codec, start: ConsensusState, events: seq<Event>) returns (more: seq<Event>)
    requires Lawful(c) && Run(c, Connected(start), events).torn.None?
    ensures var k, k' := Run(c, Connected(start), events), Run(c, Connected(start), events + more);
            k'.pending.None? && InFlight(k') == [] && k'.taken == k'.accepted == Sent(k) && k'.host == k'.memory
  {
    Reached(c, start, events);
    var k := Run(c, Connected(start), events);
    var k1 := Next(c, k, Send(|k.outbox|));
    NextKeepsInv(c, k, Send(|k.outbox|));
    var k2 := Next(c, k1, Update);
    NextKeepsInv(c, k1, Update);
    assert k2.accepted == Sent(k) && k2.pending.None?;
    var rest := DrainPipe(c, k2);
    RunStep(c, k, Send(|k.outbox|), [Update] + rest);
    RunStep(c, k1, Update, rest);
    more := [Send(|k.outbox|)] + ([Update] + rest);
    RunConcat(c, Connected(start), events, more);
    DrainedSidesAgree(c, start, events + more);
  }

  // ----- the two sides as objects

  /** Inside the enclave. */
  class EnclaveHolder {
    const codec: Codec
    const stream: ByteStream

    constructor (codec: Codec, stream: ByteStream)
      ensures this.codec == codec && this.stream == stream
    {
      this.codec, this.stream := codec, stream;
    }

    /** On a healthy stream that starts with the host's greeting, the enclave
        starts from the state the host holds. */
    method LoadState(ghost greeted: ConsensusState, ghost rest: seq<byte>) returns (r: Option<ConsensusState>)
      requires Lawful(codec)
      modifies stream
      ensures old(stream.Healthy()) ==>
                && stream.Healthy()
                && var t := ReadFrame(old(stream.unread));
                   stream.unread == t.rest && r == if t.result.Err? then None else codec.dec(t.result.value)
      ensures old(stream.Healthy() && stream.unread == Frame(codec.enc(greeted)) + rest)
              && Fits(codec.enc(greeted)) ==>
                r == Some(greeted) && stream.unread == rest
    {
      if stream.unread == Frame(codec.enc(greeted)) + rest && Fits(codec.enc(greeted)) {
        FrameRoundTrip(codec.enc(greeted), rest);
      }
      var json := stream.ReadU16Payload();
      r := if json.Err? then None else codec.dec(json.value);
    }

    /** Success means the frame of the state went out whole. By PersistIsSteps that is
        the enclave's part of a run. */
    method PersistState(state: ConsensusState, flushes: bool) returns (r: Result<(), StateError>)
      modifies stream
      ensures r.Ok? ==> Fits(codec.enc(state)) && stream.written == old(stream.written) + Frame(codec.enc(state))
      ensures r.Ok? <==> flushes && old(stream.CanTake(codec.enc(state)))
      ensures r.Err? ==> r.error == SyncError
      ensures old(stream.written) <= stream.written <= old(stream.written) + Frame(codec.enc(state))
      ensures stream.unread == old(stream.unread)
    {
      var w := stream.WriteU16Payload(codec.enc(state), flushes);
      r := if w.Ok? then Ok(()) else Err(SyncError);
    }
  }

  /** Persisting a state that passed the check, and then the update of memory, are
      the steps Offer, Send and Update: the bytes that go out are the same. */
  lemma PersistIsSteps(c: Codec, k: Link, state: ConsensusState)
    requires k.pending.None? && k.outbox == [] && Accepts(k.memory, state) && Fits(c.enc(state))
    ensures Run(c, k, [Offer(state)] + ([Send(|Frame(c.enc(state))|)] + ([Update] + [])))
            == k.(memory := state, accepted := k.accepted + [state], pipe := k.pipe + Frame(c.enc(state)))
  {
    var n := |Frame(c.enc(state))|;
    var k1 := Next(c, k, Offer(state));
    var k2 := Next(c, k1, Send(n));
    assert k1.outbox[n..] == [] && k1.outbox[..n] == k1.outbox;
    RunStep(c, k, Offer(state), [Send(n)] + ([Update] + []));
    RunStep(c, k1, Send(n), [Update] + []);
    RunStep(c, k2, Update, []);
  }

  /** Persisting that fails after m bytes is the steps Offer, Send and WriteFails:
      what went out stays in the stream, and memory does not move. */
  lemma FailedPersistIsSteps(c: Codec, k: Link, state: ConsensusState, m: nat)
    requires k.pending.None? && k.outbox == [] && Accepts(k.memory, state) && Fits(c.enc(state))
    requires m <= |Frame(c.enc(state))|
    ensures var k' := Run(c, k, [Offer(state)] + ([Send(m)] + ([WriteFails] + [])));
            && k' == k.(pipe := k.pipe + Frame(c.enc(state))[..m], torn := k'.torn)
            && (k'.torn == k.torn || k.torn.None?)
            && (0 < m < |Frame(c.enc(state))| ==> k'.torn.Some?)
  {
    var k1 := Next(c, k, Offer(state));
    var k2 := Next(c, k1, Send(m));
    RunStep(c, k, Offer(state), [Send(m)] + ([WriteFails] + []));
    RunStep(c, k1, Send(m), [WriteFails] + []);
    RunStep(c, k2, WriteFails, []);
  }

  /** One pass of the host loop: how the file write ends, whether a stop was asked for. */
  datatype HostTurn = HostTurn(outcome: PersistOutcome, stop: bool)

  /** The host, and what it will still read from a stream that then ends. */
  datatype HostView = HostView(state: ConsensusState, file: ConsensusState, unread: seq<byte>)

  /** One pass: a frame that does not read or decode is skipped. */
  function HostPass(c: Codec, v: HostView, outcome: PersistOutcome): (r: (HostView, bool)) {
    var t := ReadFrame(v.unread);
    var state := if t.result.Err? then None else c.dec(t.result.value);
    if state.None? then (v.(unread := t.rest), false)
    else (HostView(state.value, FileWith(v.file, state.value, outcome), t.rest), true)
  }

  /** The loop over any list of passes; it looks at the stop request only after a frame was taken. */
  function HostPasses(c: Codec, v: HostView, turns: seq<HostTurn>): HostView
    decreases |turns|
  {
    if turns == [] then v
    else
      var (v', took) := HostPass(c, v, turns[0].outcome);
      if took && turns[0].stop then v' else HostPasses(c, v', turns[1..])
  }

  // ----- the host loop in terms of the payloads on the stream

  /** The last payload that decodes, or what was held before. */
  function LastDecoded(c: Codec, payloads: seq<seq<byte>>, before: ConsensusState): ConsensusState {
    if payloads == [] then before
    else
      var state := c.dec(payloads[0]);
      LastDecoded(c, payloads[1..], if state.Some? then state.value else before)
  }

  /** The last payload that decodes and whose write had an effect, or what the file held before. */
  function LastStored(c: Codec, payloads: seq<seq<byte>>, turns: seq<HostTurn>, before: ConsensusState): ConsensusState
    requires |payloads| <= |turns|
  {
    if payloads == [] then before
    else
      var state := c.dec(payloads[0]);
      LastStored(c, payloads[1..], turns[1..],
                 if state.Some? && turns[0].outcome != FailedUnwritten then state.value else before)
  }

  /** A pass that ends the loop: its payload decodes, and a stop was asked for. */
  predicate Ends(c: Codec, payload: seq<byte>, turn: HostTurn) {
    c.dec(payload).Some? && turn.stop
  }

  /** How many payloads the loop reads: all there are, at most one for each pass, up
      to the first pass that ends it. */
  ghost predicate ReadsPayloads(c: Codec, payloads: seq<seq<byte>>, turns: seq<HostTurn>, m: nat) {
    && m <= |payloads| && m <= |turns|
    && (forall i :: 0 <= i < m - 1 ==> !Ends(c, payloads[i], turns[i]))
    && (m == |payloads| || m == |turns| || (m > 0 && Ends(c, payloads[m - 1], turns[m - 1])))
  }

  lemma ReadsOneMore(c: Codec, payloads: seq<seq<byte>>, turns: seq<HostTurn>, m: nat)
    requires payloads != [] && turns != [] && !Ends(c, payloads[0], turns[0])
    requires ReadsPayloads(c, payloads[1..], turns[1..], m)
    ensures ReadsPayloads(c, payloads, turns, m + 1)
  {
    forall i | 0 <= i < m ensures !Ends(c, payloads[i], turns[i]) {
      if i > 0 {
        assert !Ends(c, payloads[1..][i - 1], turns[1..][i - 1]);
      }
    }
  }

  lemma FailedRead(bytes: seq<byte>)
    requires ReadFrame(bytes).result.Err?
    ensures ReadFrame(bytes).rest == [] && ReadAll(bytes) == [] && ReadAll([]) == []
  {
  }

  lemma {:induction false} NothingToRead(c: Codec, v: HostView, turns: seq<HostTurn>)
    requires v.unread == []
    ensures HostPasses(c, v, turns) == v
    decreases |turns|
  {
    if turns == [] {
    } else {
      NothingToRead(c, v, turns[1..]);
    }
  }

  lemma DecodedOneMore(c: Codec, payloads: seq<seq<byte>>, n: nat, before: ConsensusState)
    requires n < |payloads|
    ensures var state := c.dec(payloads[0]);
            LastDecoded(c, payloads[..n + 1], before)
            == LastDecoded(c, payloads[1..][..n], if state.Some? then state.value else before)
  {
    assert payloads[..n + 1][1..] == payloads[1..][..n];
  }

  lemma StoredOneMore(c: Codec, payloads: seq<seq<byte>>, n: nat, turns: seq<HostTurn>, before: ConsensusState)
    requires n < |payloads| && n < |turns|
    ensures var state := c.dec(payloads[0]);
            LastStored(c, payloads[..n + 1], turns, before)
            == LastStored(c, payloads[1..][..n], turns[1..],
                          if state.Some? && turns[0].outcome != FailedUnwritten then state.value else before)
  {
    assert payloads[..n + 1][1..] == payloads[1..][..n];
  }

  lemma ReadAllFront(bytes: seq<byte>)
    requires ReadFrame(bytes).result.Ok?
    ensures ReadAll(bytes) != [] && ReadAll(bytes)[0] == ReadFrame(bytes).result.value
    ensures ReadAll(bytes)[1..] == ReadAll(ReadFrame(bytes).rest)
  {
  }

  /** One pass over a payload, with what it leaves for the passes after it. */
  lemma PassOnPayload(c: Codec, v: HostView, turns: seq<HostTurn>, v': HostView)
    requires turns != [] && ReadFrame(v.unread).result.Ok?
    requires v' == HostPass(c, v, turns[0].outcome).0
    ensures var payload := ReadFrame(v.unread).result.value;
            var state := c.dec(payload);
            && v'.state == (if state.Some? then state.value else v.state)
            && v'.file == (if state.Some? && turns[0].outcome != FailedUnwritten then state.value else v.file)
            && v'.unread == ReadFrame(v.unread).rest
            && HostPasses(c, v, turns) == (if Ends(c, payload, turns[0]) then v' else HostPasses(c, v', turns[1..]))
  {
  }

  lemma NothingDecoded(c: Codec, s: ConsensusState, turns: seq<HostTurn>)
    ensures LastDecoded(c, [], s) == s && LastStored(c, [], turns, s) == s
  {
  }

  /** Whatever a stream holds, the loop leaves the host with the last payload it read
      that decodes, and the file with the last of those whose write had an effect;
      payloads that do not decode and reads that fail change neither. */
  lemma {:induction false} HostHoldsWhatItRead(c: Codec, v: HostView, turns: seq<HostTurn>) returns (m: nat)
    ensures var payloads, v' := ReadAll(v.unread), HostPasses(c, v, turns);
            && ReadsPayloads(c, payloads, turns, m)
            && v'.state == LastDecoded(c, payloads[..m], v.state)
            && v'.file == LastStored(c, payloads[..m], turns, v.file)
            && ReadAll(v'.unread) == payloads[m..]
    decreases |turns|
  {
    var payloads, t := ReadAll(v.unread), ReadFrame(v.unread);
    m := 0;
    if turns == [] {
    } else if t.result.Err? {
      FailedRead(v.unread);
      NothingToRead(c, v.(unread := []), turns[1..]);
    } else {
      ReadAllFront(v.unread);
      var v' := HostPass(c, v, turns[0].outcome).0;
      PassOnPayload(c, v, turns, v');
      var n := 0;
      if Ends(c, payloads[0], turns[0]) {
        NothingDecoded(c, v'.state, turns[1..]);
        NothingDecoded(c, v'.file, turns[1..]);
      } else {
        n := HostHoldsWhatItRead(c, v', turns[1..]);
        ReadsOneMore(c, payloads, turns, n);
      }
      m := n + 1;
      DecodedOneMore(c, payloads, n, v.state);
      StoredOneMore(c, payloads, n, turns, v.file);
      assert payloads[m..] == payloads[1..][n..];
    }
  }

  ghost predicate OldOrDecoded(c: Codec, bytes: seq<byte>, before: ConsensusState, after: ConsensusState) {
    after == before || exists p :: p in ReadAll(bytes) && c.dec(p) == Some(after)
  }

  lemma {:induction false} LastDecodedIsDecoded(c: Codec, payloads: seq<seq<byte>>, before: ConsensusState)
    ensures LastDecoded(c, payloads, before) == before
            || exists p :: p in payloads && c.dec(p) == Some(LastDecoded(c, payloads, before))
  {
    if payloads == [] {
    } else {
      var state := c.dec(payloads[0]);
      LastDecodedIsDecoded(c, payloads[1..], if state.Some? then state.value else before);
    }
  }

  lemma {:induction false} LastStoredIsDecoded(c: Codec, payloads: seq<seq<byte>>, turns: seq<HostTurn>,
                                               before: ConsensusState)
    requires |payloads| <= |turns|
    ensures LastStored(c, payloads, turns, before) == before
            || exists p :: p in payloads && c.dec(p) == Some(LastStored(c, payloads, turns, before))
  {
    if payloads == [] {
    } else {
      var state := c.dec(payloads[0]);
      LastStoredIsDecoded(c, payloads[1..], turns[1..],
                          if state.Some? && turns[0].outcome != FailedUnwritten then state.value else before);
    }
  }

  /** So host and file are as before or hold what some payload on the stream decodes to. */
  lemma HostHoldsNothingElse(c: Codec, v: HostView, turns: seq<HostTurn>)
    ensures OldOrDecoded(c, v.unread, v.state, HostPasses(c, v, turns).state)
    ensures OldOrDecoded(c, v.unread, v.file, HostPasses(c, v, turns).file)
  {
    var m := HostHoldsWhatItRead(c, v, turns);
    LastDecodedIsDecoded(c, ReadAll(v.unread)[..m], v.state);
    LastStoredIsDecoded(c, ReadAll(v.unread)[..m], turns, v.file);
  }

  // ----- the host loop over frames of states

  /** The file after taking `states`: the last one whose write had an effect. */
  function FileAfter(file: ConsensusState, states: seq<ConsensusState>, turns: seq<HostTurn>): ConsensusState
    requires |turns| <= |states|
    decreases |turns|
  {
    if turns == [] then file else FileAfter(FileWith(file, states[0], turns[0].outcome), states[1..], turns[1..])
  }

  lemma PassOnFrame(c: Codec, v: HostView, state: ConsensusState, later: seq<byte>, outcome: PersistOutcome)
    requires Lawful(c) && Fits(c.enc(state)) && v.unread == Frame(c.enc(state)) + later
    ensures HostPass(c, v, outcome) == (HostView(state, FileWith(v.file, state, outcome), later), true)
  {
    FrameRoundTrip(c.enc(state), later);
  }

  /** Over a stream that holds the frames of `states`, n passes without a stop
      leave the host with the n-th state and the frames after it unread. */
  lemma {:induction false} PassesOnFrames(c: Codec, v: HostView, states: seq<ConsensusState>, rest: seq<byte>,
                                          turns: seq<HostTurn>)
    requires Lawful(c) && AllFit(c, states) && |turns| <= |states|
    requires v.unread == Due(c, states, 0) + rest
    requires forall i :: 0 <= i < |turns| - 1 ==> !turns[i].stop
    ensures var n := |turns|;
            HostPasses(c, v, turns)
            == HostView(if n == 0 then v.state else states[n - 1], FileAfter(v.file, states, turns),
                        Due(c, states, n) + rest)
    decreases |turns|
  {
    if turns == [] {
    } else {
      var later := Due(c, states, 1) + rest;
      DuePop(c, states, 0);
      assert v.unread == Frame(c.enc(states[0])) + later;
      PassOnFrame(c, v, states[0], later, turns[0].outcome);
      var v' := HostView(states[0], FileWith(v.file, states[0], turns[0].outcome), later);
      DueShift(c, states, 0);
      DueShift(c, states, |turns| - 1);
      if |turns| > 1 {
        assert !turns[0].stop;
      }
      PassesOnFrames(c, v', states[1..], rest, turns[1..]);
    }
  }

  lemma DueShift(c: Codec, states: seq<ConsensusState>, n: nat)
    requires n + 1 <= |states|
    ensures Due(c, states[1..], n) == Due(c, states, n + 1)
  {
    assert states[1..][n..] == states[n + 1..];
  }

  lemma HeaderTaken(c: Codec, k: Link, payload: seq<byte>, later: seq<byte>, outcome: PersistOutcome)
    requires Fits(payload) && payload != [] && k.inbox == [] && k.pipe == Frame(payload) + later
    ensures Next(c, k, Take(2, outcome)) == k.(inbox := Frame(payload)[..2], pipe := payload + later)
  {
    FrameLength(payload);
    var header := Frame(payload)[..2];
    assert k.pipe[..2] == header && k.pipe[2..] == payload + later && [] + header == header;
    assert LengthOf(header) == |payload|;
  }

  lemma PayloadTaken(c: Codec, k: Link, state: ConsensusState, later: seq<byte>, outcome: PersistOutcome)
    requires Lawful(c) && Fits(c.enc(state)) && c.enc(state) != []
    requires k.inbox == Frame(c.enc(state))[..2] && k.pipe == c.enc(state) + later
    ensures Next(c, k, Take(|c.enc(state)|, outcome))
            == k.(inbox := [], host := state, taken := k.taken + [state], pipe := later,
                  file := FileWith(k.file, state, outcome), fileCurrent := outcome.Written?)
  {
    var payload := c.enc(state);
    FrameLength(payload);
    assert k.pipe[..|payload|] == payload && k.pipe[|payload|..] == later;
    assert k.inbox + payload == Frame(payload) && Frame(payload)[2..] == payload;
  }

  lemma EmptyTaken(c: Codec, k: Link, state: ConsensusState, later: seq<byte>, outcome: PersistOutcome)
    requires Lawful(c) && c.enc(state) == [] && k.inbox == [] && k.pipe == Frame(c.enc(state)) + later
    ensures Next(c, k, Take(2, outcome))
            == k.(host := state, taken := k.taken + [state], pipe := later,
                  file := FileWith(k.file, state, outcome), fileCurrent := outcome.Written?)
  {
    FrameLength([]);
    assert k.pipe[..2] == Frame([]) && k.pipe[2..] == later && [] + Frame([]) == Frame([]);
  }

  /** The host's part of a run: a pass over a frame is taking its length and its payload. */
  lemma PassIsSteps(c: Codec, k: Link, state: ConsensusState, later: seq<byte>, outcome: PersistOutcome)
    returns (es: seq<Event>)
    requires Lawful(c) && Fits(c.enc(state)) && k.inbox == [] && k.pipe == Frame(c.enc(state)) + later
    ensures forall i :: 0 <= i < |es| ==> es[i].Take?
    ensures var k' := Run(c, k, es);
            && HostPass(c, HostView(k.host, k.file, k.pipe), outcome) == (HostView(k'.host, k'.file, k'.pipe), true)
            && k' == k.(host := state, taken := k.taken + [state], pipe := later,
                        file := FileWith(k.file, state, outcome), fileCurrent := outcome.Written?)
  {
    var payload := c.enc(state);
    PassOnFrame(c, HostView(k.host, k.file, k.pipe), state, later, outcome);
    var e1, e2 := Take(2, outcome), Take(|payload|, outcome);
    if payload == [] {
      EmptyTaken(c, k, state, later, outcome);
      RunStep(c, k, e1, []);
      es := [e1] + [];
    } else {
      HeaderTaken(c, k, payload, later, outcome);
      PayloadTaken(c, Next(c, k, e1), state, later, outcome);
      RunStep(c, k, e1, [e2] + []);
      RunStep(c, Next(c, k, e1), e2, []);
      es := [e1] + ([e2] + []);
    }
  }

  /** Even if reads fail, a state is what bytes behind a length on the stream decode to. */
  ghost predicate DecodedBytes(c: Codec, bytes: seq<byte>, state: ConsensusState) {
    |bytes| >= 2 && exists p :: p <= bytes[2..] && c.dec(p) == Some(state)
  }

  /** On the host. */
  class StateSyncer {
    const codec: Codec
    var state: ConsensusState
    var file: ConsensusState

    constructor (codec: Codec, state: ConsensusState)
      ensures this.codec == codec && this.state == state && file == state
    {
      this.codec, this.state, file := codec, state, state;
    }

    ghost function View(stream: ByteStream): HostView
      reads this, stream
    {
      HostView(state, file, stream.unread)
    }

    method SyncToStream(stream: ByteStream, flushes: bool) returns (ok: bool)
      modifies stream
      ensures ok ==> stream.written == old(stream.written) + Frame(codec.enc(state)) && Fits(codec.enc(state))
      ensures ok <==> flushes && old(stream.CanTake(codec.enc(state)))
    {
      var w := stream.WriteU16Payload(codec.enc(state), flushes);
      ok := w.Ok?;
    }

    method SyncFromStream(stream: ByteStream) returns (r: Option<ConsensusState>)
      modifies stream
      ensures old(stream.Healthy()) ==>
                && stream.Healthy()
                && var t := ReadFrame(old(stream.unread));
                   && stream.unread == t.rest
                   && r == if t.result.Err? then None else codec.dec(t.result.value)
      ensures r.Some? ==> DecodedBytes(codec, old(stream.unread), r.value)
    {
      var json := stream.ReadU16Payload();
      r := if json.Err? then None else codec.dec(json.value);
    }

    method PersistState(outcome: PersistOutcome) returns (ok: bool)
      modifies this`file
      ensures ok == outcome.Written? && file == FileWith(old(file), state, outcome)
    {
      if !outcome.FailedUnwritten? {
        file := state;
      }
      ok := outcome.Written?;
    }

    /** One pass of the loop, over any stream. */
    method TakeOne(stream: ByteStream, outcome: PersistOutcome) returns (took: bool)
      modifies this, stream
      ensures old(stream.Healthy()) ==>
                stream.Healthy() && (View(stream), took) == HostPass(codec, old(View(stream)), outcome)
      ensures old(stream.Healthy()) ==>
                var t := ReadFrame(old(stream.unread));
                && stream.unread == t.rest
                && (took <==> t.result.Ok? && codec.dec(t.result.value).Some?)
                && (took ==> codec.dec(t.result.value) == Some(state)
                             && file == if outcome == FailedUnwritten then old(file) else state)
      ensures !took ==> state == old(state) && file == old(file)
      ensures took ==> DecodedBytes(codec, old(stream.unread), state)
    {
      var got := SyncFromStream(stream);
      took := got.Some?;
      if took {
        state := got.value;
        var ok := PersistState(outcome);
      }
    }

    /** The host loop, for any list of passes: whatever a healthy stream holds and
        however it serves it, the host ends where HostPasses says. */
    method RunPasses(stream: ByteStream, turns: seq<HostTurn>)
      modifies this, stream
      ensures old(stream.Healthy()) ==>
                stream.Healthy() && View(stream) == HostPasses(codec, old(View(stream)), turns)
    {
      var n := 0;
      while n < |turns|
        invariant n <= |turns|
        invariant old(stream.Healthy()) ==>
                    stream.Healthy()
                    && HostPasses(codec, View(stream), turns[n..]) == HostPasses(codec, old(View(stream)), turns)
      {
        assert turns[n..][1..] == turns[n + 1..];
        var took := TakeOne(stream, turns[n].outcome);
        n := n + 1;
        if took && turns[n - 1].stop {
          return;
        }
      }
    }

    /** So state and file each are as before or what some payload on the stream decodes to. */
    method LaunchSyncer(stream: ByteStream, turns: seq<HostTurn>)
      modifies this, stream
      ensures old(stream.Healthy()) ==>
                stream.Healthy() && View(stream) == HostPasses(codec, old(View(stream)), turns)
      ensures old(stream.Healthy()) ==>
                && OldOrDecoded(codec, old(stream.unread), old(state), state)
                && OldOrDecoded(codec, old(stream.unread), old(file), file)
    {
      ghost var before := View(stream);
      RunPasses(stream, turns);
      HostHoldsNothingElse(codec, before, turns);
    }
  }
}
