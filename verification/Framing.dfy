/** Payloads behind a two-byte little-endian length, over a byte stream that may
    serve reads in pieces of any size, stop, or fail. */
module Framing {
  import opened Wrappers
  import opened Bytes

  const MAX_PAYLOAD := 65535

  datatype FrameError = ReadingLength | ZeroLength | InvalidInput | Io

  predicate Fits(p: seq<byte>) {
    |p| <= MAX_PAYLOAD
  }

  function LengthBytes(n: nat): seq<byte> {
    [n % 256, n / 256 % 256]
  }

  function LengthOf(header: seq<byte>): nat
    requires |header| >= 2
  {
    header[0] as int + 256 * (header[1] as int)
  }

  function Frame(p: seq<byte>): seq<byte> {
    LengthBytes(|p|) + p
  }

  function Frames(ps: seq<seq<byte>>): seq<byte> {
    if ps == [] then [] else Frame(ps[0]) + Frames(ps[1..])
  }

  /** The outcome of one read on a stream that holds exactly `bytes` and then ends. */
  datatype Taken = Taken(result: Result<seq<byte>, FrameError>, rest: seq<byte>)

  function ReadFrame(bytes: seq<byte>): (t: Taken)
    ensures t.result.Ok? ==> |t.rest| + 2 <= |bytes|
  {
    if |bytes| < 2 then Taken(Err(ReadingLength), [])
    else
      var len := LengthOf(bytes);
      var body := bytes[2..];
      if len == 0 then Taken(Ok([]), body)
      else if body == [] then Taken(Err(ZeroLength), [])
      else
        var n := if len <= |body| then len else |body|;
        Taken(Ok(body[..n]), body[n..])
  }

  /** Reading again and again until a read fails. */
  function ReadAll(bytes: seq<byte>): seq<seq<byte>>
    decreases |bytes|
  {
    var t := ReadFrame(bytes);
    if t.result.Err? then [] else [t.result.value] + ReadAll(t.rest)
  }

  // ----- what writing and reading undo

  lemma FrameLength(p: seq<byte>)
    requires Fits(p)
    ensures |Frame(p)| == 2 + |p| && LengthOf(Frame(p)) == |p| && Frame(p)[2..] == p
  {
  }

  /** The limit is exactly where two bytes stop telling the length. */
  lemma FitsExactly(p: seq<byte>)
    ensures Fits(p) <==> LengthOf(LengthBytes(|p|)) == |p|
  {
  }

  /** Reading takes exactly the frame that was written, and nothing after it. */
  lemma FrameRoundTrip(p: seq<byte>, rest: seq<byte>)
    requires Fits(p)
    ensures ReadFrame(Frame(p) + rest) == Taken(Ok(p), rest)
  {
    FrameLength(p);
    var bytes := Frame(p) + rest;
    assert LengthOf(bytes) == LengthOf(Frame(p));
    assert bytes[2..] == p + rest;
    assert (p + rest)[..|p|] == p && (p + rest)[|p|..] == rest;
  }

  lemma {:induction false} FramesConcat(ps: seq<seq<byte>>, qs: seq<seq<byte>>)
    ensures Frames(ps + qs) == Frames(ps) + Frames(qs)
    decreases |ps|
  {
    if ps == [] {
      assert ps + qs == qs;
    } else {
      assert (ps + qs)[1..] == ps[1..] + qs;
      FramesConcat(ps[1..], qs);
    }
  }

  lemma CutFrame(p: seq<byte>, cut: nat)
    requires Fits(p) && cut < |Frame(p)|
    ensures ReadAll(Frame(p)[..cut]) == if cut <= 2 then [] else [p[..cut - 2]]
  {
    FrameLength(p);
    var tail := Frame(p)[..cut];
    if cut >= 2 {
      assert LengthOf(tail) == LengthOf(Frame(p));
      assert tail[2..] == p[..cut - 2];
    }
    if cut > 2 {
      assert tail[2..][..cut - 2] == p[..cut - 2] && tail[2..][cut - 2..] == [];
      assert ReadFrame(tail) == Taken(Ok(p[..cut - 2]), []);
      assert ReadAll([]) == [];
    }
  }

  /** A stream of whole frames followed by a cut frame: every whole payload
      arrives, in order; of the cut one a non-empty prefix arrives, or nothing. */
  lemma {:induction false} TruncatedStream(ps: seq<seq<byte>>, p: seq<byte>, cut: nat)
    requires Fits(p) && (forall i :: 0 <= i < |ps| ==> Fits(ps[i])) && cut < |Frame(p)|
    ensures ReadAll(Frames(ps) + Frame(p)[..cut]) == ps + (if cut <= 2 then [] else [p[..cut - 2]])
    decreases |ps|
  {
    var tail := Frame(p)[..cut];
    if ps == [] {
      CutFrame(p, cut);
      assert Frames(ps) + tail == tail;
    } else {
      TruncatedStream(ps[1..], p, cut);
      ReadAllStep(ps[0], Frames(ps[1..]) + tail);
      FramesFront(ps, tail);
      Regrouped(ps[0], ps[1..], if cut <= 2 then [] else [p[..cut - 2]]);
      assert [ps[0]] + ps[1..] == ps;
    }
  }

  lemma FramesFront(ps: seq<seq<byte>>, tail: seq<byte>)
    requires ps != []
    ensures Frames(ps) + tail == Frame(ps[0]) + (Frames(ps[1..]) + tail)
  {
  }

  lemma Regrouped(p: seq<byte>, ps: seq<seq<byte>>, qs: seq<seq<byte>>)
    ensures [p] + (ps + qs) == [p] + ps + qs
  {
  }

  lemma ReadAllStep(p: seq<byte>, later: seq<byte>)
    requires Fits(p)
    ensures ReadAll(Frame(p) + later) == [p] + ReadAll(later)
  {
    FrameRoundTrip(p, later);
  }

  /** Writing any list of payloads and reading them back gives the same list. */
  lemma FramesRoundTrip(ps: seq<seq<byte>>)
    requires forall i :: 0 <= i < |ps| ==> Fits(ps[i])
    ensures ReadAll(Frames(ps)) == ps
  {
    TruncatedStream(ps, [], 0);
    assert Frames(ps) + Frame([])[..0] == Frames(ps);
  }

  /** Why a failed write ends the guarantee: the frame sent after a partly
      written one is read as the rest of it. If only the first length byte went
      out, the second is taken from the next frame. */
  lemma PartWrittenFrameSwallowsTheNext(p: seq<byte>, written: nat, q: seq<byte>)
    requires Fits(p) && Fits(q) && 1 <= written < |Frame(p)|
    ensures written >= 2 ==>
              var n := Min(|Frame(p)| - written, |Frame(q)|);
              ReadFrame(Frame(p)[..written] + Frame(q))
              == Taken(Ok(p[..written - 2] + Frame(q)[..n]), Frame(q)[n..])
    ensures written == 1 ==>
              var n := Min(|p| % 256 + 256 * (|q| % 256), |Frame(q)| - 1);
              ReadFrame(Frame(p)[..written] + Frame(q)) == Taken(Ok(Frame(q)[1..1 + n]), Frame(q)[1 + n..])
  {
    if written >= 2 {
      SwallowedAsPayload(p, written, q);
    } else {
      SwallowedAsLength(p, q);
    }
  }

  function Min(a: nat, b: nat): nat {
    if a <= b then a else b
  }

  lemma SwallowedAsPayload(p: seq<byte>, written: nat, q: seq<byte>)
    requires Fits(p) && 2 <= written < |Frame(p)|
    ensures var n := Min(|Frame(p)| - written, |Frame(q)|);
            ReadFrame(Frame(p)[..written] + Frame(q))
            == Taken(Ok(p[..written - 2] + Frame(q)[..n]), Frame(q)[n..])
  {
    FrameLength(p);
    var n := Min(|Frame(p)| - written, |Frame(q)|);
    var bytes := Frame(p)[..written] + Frame(q);
    assert LengthOf(bytes) == LengthOf(Frame(p));
    assert bytes[2..] == p[..written - 2] + Frame(q);
    assert bytes[2..][..written - 2 + n] == p[..written - 2] + Frame(q)[..n];
    assert bytes[2..][written - 2 + n..] == Frame(q)[n..];
  }

  lemma SwallowedAsLength(p: seq<byte>, q: seq<byte>)
    requires Fits(p)
    ensures var n := Min(|p| % 256 + 256 * (|q| % 256), |Frame(q)| - 1);
            ReadFrame(Frame(p)[..1] + Frame(q)) == Taken(Ok(Frame(q)[1..1 + n]), Frame(q)[1 + n..])
  {
    var n := Min(|p| % 256 + 256 * (|q| % 256), |Frame(q)| - 1);
    var bytes := Frame(p)[..1] + Frame(q);
    assert bytes[2..] == Frame(q)[1..];
    assert bytes[2..][..n] == Frame(q)[1..1 + n];
    assert bytes[2..][n..] == Frame(q)[1 + n..];
  }

  /** A frame comes back from behind another write exactly if none of that write
      went out. */
  lemma NextFrameComesBackExactly(p: seq<byte>, written: nat, q: seq<byte>)
    requires Fits(p) && Fits(q) && written < |Frame(p)|
    ensures ReadFrame(Frame(p)[..written] + Frame(q)) == Taken(Ok(q), []) <==> written == 0
  {
    var bytes := Frame(p)[..written] + Frame(q);
    var t := ReadFrame(bytes);
    assert t.result.Ok? ==> |bytes| == 2 + |t.result.value| + |t.rest|;
    FrameRoundTrip(q, []);
    assert Frame(q) + [] == Frame(q);
    assert written == 0 ==> bytes == Frame(q);
  }

  // ----- the stream and the two operations on it

  /** How the transport serves one read: at most so many bytes, or a failure. */
  datatype Service = Upto(n: nat) | Fault

  /** What one read serves to a reader that asks for `want` bytes when `avail` are there:
      some of them, none only if there are none or none were asked for, or a failure. */
  function ServeOne(plan: seq<Service>, avail: nat, want: nat): (r: Option<nat>)
    ensures r.Some? ==> r.value <= avail && r.value <= want && (r.value == 0 <==> avail == 0 || want == 0)
  {
    if plan == [] then Some(Min(avail, want))
    else if plan[0].Fault? then None
    else Some(Min(Min(if plan[0].n == 0 then 1 else plan[0].n, avail), want))
  }

  function LaterPlan(plan: seq<Service>): seq<Service> {
    if plan == [] then [] else plan[1..]
  }

  /** How many bytes a reader has in the end, and the plan that is left then. */
  datatype Gathered = Gathered(total: nat, plan: seq<Service>)

  /** A reader that has `got` of `want` bytes and asks on until it has them all, a read
      brings nothing or a read fails. */
  function Gather(plan: seq<Service>, avail: nat, want: nat, got: nat): (g: Gathered)
    requires got <= avail && got <= want
    ensures got <= g.total <= avail && g.total <= want
    decreases want - got
  {
    if got == want then Gathered(got, plan)
    else
      var n := ServeOne(plan, avail - got, want - got);
      if n.None? || n.value == 0 then Gathered(got, LaterPlan(plan))
      else Gather(LaterPlan(plan), avail, want, got + n.value)
  }

  /** The outcome of reading a payload from a stream with failures, and the plan left:
      without two length bytes there is no payload; one that breaks off is taken as far
      as it came. */
  function ReadPlanned(bytes: seq<byte>, plan: seq<Service>): (Taken, seq<Service>) {
    var header := Gather(plan, |bytes|, 2, 0);
    if header.total < 2 then (Taken(Err(ReadingLength), bytes[header.total..]), header.plan)
    else
      var body, len := bytes[2..], LengthOf(bytes);
      if len == 0 then (Taken(Ok([]), body), header.plan)
      else
        var g := Gather(header.plan, |body|, len, 0);
        (Taken(if g.total == 0 then Err(ZeroLength) else Ok(body[..g.total]), body[g.total..]), g.plan)
  }

  predicate NoFaults(plan: seq<Service>) {
    forall s :: s in plan ==> s.Upto?
  }

  lemma {:induction false} GatherAll(plan: seq<Service>, avail: nat, want: nat, got: nat)
    requires NoFaults(plan) && got <= avail && got <= want
    ensures var g := Gather(plan, avail, want, got); g.total == Min(avail, want) && NoFaults(g.plan)
    decreases want - got
  {
    var n := ServeOne(plan, avail - got, want - got);
    assert plan != [] ==> plan[0] in plan;
    if got == want || n.None? || n.value == 0 {
    } else {
      GatherAll(LaterPlan(plan), avail, want, got + n.value);
    }
  }

  /** A payload read is the front of what stands behind its length, whatever fails. */
  lemma PlannedIsPrefix(bytes: seq<byte>, plan: seq<Service>)
    ensures var t := ReadPlanned(bytes, plan).0;
            t.result.Ok? ==>
              && 2 <= |bytes|
              && |t.result.value| <= LengthOf(bytes)
              && (LengthOf(bytes) > 0 ==> t.result.value != [])
              && t.result.value <= bytes[2..]
              && t.rest == bytes[2 + |t.result.value|..]
  {
  }

  /** Without failures the pieces do not matter. */
  lemma PlannedWithoutFaults(bytes: seq<byte>, plan: seq<Service>)
    requires NoFaults(plan)
    ensures ReadPlanned(bytes, plan).0 == ReadFrame(bytes) && NoFaults(ReadPlanned(bytes, plan).1)
  {
    GatherAll(plan, |bytes|, 2, 0);
    if |bytes| >= 2 {
      GatherAll(Gather(plan, |bytes|, 2, 0).plan, |bytes| - 2, LengthOf(bytes), 0);
    } else {
      assert bytes[|bytes|..] == [];
    }
  }

  class ByteStream {
    var unread: seq<byte>
    var plan: seq<Service>
    var written: seq<byte>
    /** How many more bytes can be written before writes fail; None: no limit. */
    var room: Option<nat>

    constructor (unread: seq<byte>, plan: seq<Service>, room: Option<nat>)
      ensures this.unread == unread && this.plan == plan && this.room == room && written == []
    {
      this.unread, this.plan, this.room, written := unread, plan, room, [];
    }

    ghost predicate Healthy()
      reads this
    {
      NoFaults(plan)
    }

    /** Whether the frame of a payload can go out whole. */
    predicate CanTake(data: seq<byte>)
      reads this
    {
      Fits(data) && (room.None? || |Frame(data)| <= room.value)
    }

    /** A read serves any positive number of bytes; zero only at the end of the
        stream or for an empty buffer; or it fails and takes nothing. */
    method Read(buf: array<byte>, from: nat) returns (r: Option<nat>)
      requires from <= buf.Length
      modifies this`unread, this`plan, buf
      ensures r == ServeOne(old(plan), |old(unread)|, buf.Length - from) && plan == LaterPlan(old(plan))
      ensures r.None? ==> unread == old(unread) && buf[..] == old(buf[..])
      ensures r.Some? ==>
                var n := r.value;
                && unread == old(unread)[n..]
                && buf[..] == old(buf[..from]) + old(unread)[..n] + old(buf[from + n..])
    {
      var limit := |unread|;
      if plan != [] {
        var service := plan[0];
        plan := plan[1..];
        if service.Fault? {
          return None;
        }
        limit := if service.n == 0 then 1 else service.n;
      }
      var n := if limit <= |unread| then limit else |unread|;
      n := if n <= buf.Length - from then n else buf.Length - from;
      var data := unread;
      forall i | 0 <= i < n {
        buf[from + i] := data[i];
      }
      unread := unread[n..];
      r := Some(n);
    }

    /** The buffer holds the first bytes of the data, and the stream the others. */
    ghost predicate Filled(buf: array<byte>, total: nat, data: seq<byte>)
      reads this, buf
    {
      total <= buf.Length && total <= |data| && unread == data[total..] && buf[..total] == data[..total]
    }

    /** One more read into the buffer, on the way to where the reader ends. */
    method ReadMore(buf: array<byte>, total: nat, ghost data: seq<byte>, ghost end: Gathered)
      returns (now: nat, more: bool)
      requires total < buf.Length && Filled(buf, total, data)
      requires Gather(plan, |data|, buf.Length, total) == end
      modifies this`unread, this`plan, buf
      ensures total <= now && Filled(buf, now, data)
      ensures more ==> total < now < buf.Length && Gather(plan, |data|, buf.Length, now) == end
      ensures !more ==> Gathered(now, plan) == end
    {
      var got := Read(buf, total);
      if got.None? {
        return total, false;
      }
      now := total + got.value;
      more := !(got.value == 0 || now >= buf.Length);
    }

    /** Reads into the buffer until it is full, the stream ends or a read fails. */
    method ReadUpToLength(buf: array<byte>) returns (total: nat)
      requires buf.Length > 0
      modifies this`unread, this`plan, buf
      ensures Gathered(total, plan) == Gather(old(plan), |old(unread)|, buf.Length, 0)
      ensures unread == old(unread)[total..] && buf[..total] == old(unread)[..total]
    {
      ghost var body, end := unread, Gather(plan, |unread|, buf.Length, 0);
      total := 0;
      var more := true;
      while more
        invariant Filled(buf, total, body)
        invariant more ==> total < buf.Length && Gather(plan, |body|, buf.Length, total) == end
        invariant !more ==> Gathered(total, plan) == end
        decreases more, buf.Length - total
      {
        total, more := ReadMore(buf, total, body, end);
      }
    }

    /** Fills the whole buffer or fails, as the standard library promises: it stops where
        such a reader stops. */
    method ReadExact(buf: array<byte>) returns (ok: bool)
      requires buf.Length > 0
      modifies this`unread, this`plan, buf
      ensures var g := Gather(old(plan), |old(unread)|, buf.Length, 0);
              && (ok <==> g.total == buf.Length)
              && unread == old(unread)[g.total..]
              && (ok ==> buf[..] == old(unread)[..g.total])
              && plan == g.plan
    {
      var total := ReadUpToLength(buf);
      ok := total == buf.Length;
      assert ok ==> buf[..] == buf[..total];
    }

    method ReadLengthAndPayload() returns (r: Result<seq<byte>, FrameError>)
      modifies this`unread, this`plan
      ensures (Taken(r, unread), plan) == ReadPlanned(old(unread), old(plan))
    {
      var header := new byte[2];
      var gotHeader := ReadExact(header);
      if !gotHeader {
        return Err(ReadingLength);
      }
      var len := LengthOf(header[..]);
      if len == 0 {
        return Ok([]);
      }
      var raw := new byte[len];
      var total := ReadUpToLength(raw);
      if total == 0 {
        return Err(ZeroLength);
      }
      r := Ok(raw[..total]);
    }

    /** Whatever the sizes of the pieces, a healthy stream gives ReadFrame's
        answer. With failing reads a payload may be cut short, never altered. */
    method ReadU16Payload() returns (r: Result<seq<byte>, FrameError>)
      modifies this`unread, this`plan
      ensures (Taken(r, unread), plan) == ReadPlanned(old(unread), old(plan))
      ensures old(Healthy()) ==> Healthy() && Taken(r, unread) == ReadFrame(old(unread))
      ensures r.Ok? ==>
                && 2 <= |old(unread)|
                && var len := LengthOf(old(unread));
                   && |r.value| <= len
                   && (len > 0 ==> r.value != [])
                   && r.value <= old(unread)[2..]
                   && unread == old(unread)[2 + |r.value|..]
    {
      PlannedIsPrefix(unread, plan);
      if Healthy() {
        PlannedWithoutFaults(unread, plan);
      }
      r := ReadLengthAndPayload();
    }

    method WriteAll(data: seq<byte>) returns (ok: bool)
      modifies this`written, this`room
      ensures ok ==> written == old(written) + data
      ensures old(written) <= written <= old(written) + data
      ensures ok <==> old(room).None? || |data| <= old(room).value
      ensures ok ==> room == if old(room).None? then None else Some(old(room).value - |data|)
      ensures !ok ==> written == old(written) + data[..old(room).value] && room == Some(0)
    {
      if room.Some? && room.value < |data| {
        written := written + data[..room.value];
        room := Some(0);
        return false;
      }
      written := written + data;
      room := if room.Some? then Some(room.value - |data|) else None;
      ok := true;
    }

    /** Success means one whole frame went out; too long a payload writes
        nothing; any other failure leaves a prefix of the frame behind. */
    method WriteU16Payload(data: seq<byte>, flushes: bool) returns (r: Result<(), FrameError>)
      modifies this`written, this`room
      ensures r.Ok? ==> Fits(data) && written == old(written) + Frame(data)
      ensures !Fits(data) <==> r == Err(InvalidInput)
      ensures !Fits(data) ==> written == old(written) && room == old(room)
      ensures old(written) <= written <= old(written) + Frame(data)
      ensures r.Ok? <==> flushes && old(CanTake(data))
      ensures old(CanTake(data)) ==> written == old(written) + Frame(data)
      ensures Fits(data) && !old(CanTake(data)) ==>
                r == Err(Io) && written == old(written) + Frame(data)[..old(room).value]
    {
      if |data| > MAX_PAYLOAD {
        return Err(InvalidInput);
      }
      var header := LengthBytes(|data|);
      var ok := WriteAll(header);
      if !ok {
        return Err(Io);
      }
      ok := WriteAll(data);
      assert old(written) + header + data == old(written) + Frame(data);
      assert !ok ==> header + data[..old(room).value - 2] == Frame(data)[..old(room).value];
      if !ok || !flushes {
        return Err(Io);
      }
      r := Ok(());
    }
  }
}
