/** The journal export format: a key, a newline, an eight-byte little-endian
    length, the value, a newline. Values may hold anything, newlines included. */
module JournalFormat {
  import opened Bytes

  const NEWLINE: byte := 10
  const UNDERSCORE: byte := 95
  const DOT: byte := 46

  datatype Field = Field(key: seq<byte>, value: seq<byte>)

  predicate WellFormed(f: Field) {
    NEWLINE !in f.key && |f.value| < Pow256(8)
  }

  predicate AllWellFormed(fs: seq<Field>) {
    forall i :: 0 <= i < |fs| ==> WellFormed(fs[i])
  }

  function ValueBytes(value: seq<byte>): seq<byte> {
    LeBytes(|value|, 8) + value + [NEWLINE]
  }

  function Record(f: Field): seq<byte> {
    f.key + [NEWLINE] + ValueBytes(f.value)
  }

  function Records(fs: seq<Field>): seq<byte> {
    if fs == [] then [] else Record(fs[0]) + Records(fs[1..])
  }

  lemma {:induction false} RecordsConcat(fs: seq<Field>, gs: seq<Field>)
    ensures Records(fs + gs) == Records(fs) + Records(gs)
    decreases |fs|
  {
    if fs == [] {
      assert fs + gs == gs;
    } else {
      assert (fs + gs)[1..] == fs[1..] + gs;
      RecordsConcat(fs[1..], gs);
    }
  }

  // ----- names

  function Undot(name: seq<byte>): seq<byte> {
    seq(|name|, i requires 0 <= i < |name| => if name[i] == DOT then UNDERSCORE else name[i])
  }

  function SkipUnderscores(name: seq<byte>): seq<byte> {
    if name != [] && name[0] == UNDERSCORE then SkipUnderscores(name[1..]) else name
  }

  predicate IsDigit(c: byte) { 48 <= c <= 57 }
  predicate IsUpper(c: byte) { 65 <= c <= 90 }
  predicate IsLower(c: byte) { 97 <= c <= 122 }

  predicate IsNameByte(c: byte) {
    c == UNDERSCORE || IsDigit(c) || IsUpper(c) || IsLower(c)
  }

  function KeepNameBytes(name: seq<byte>): seq<byte> {
    if name == [] then []
    else
      var c := name[0];
      (if IsNameByte(c) then [c] else []) + KeepNameBytes(name[1..])
  }

  function Uppercase(name: seq<byte>): seq<byte> {
    seq(|name|, i requires 0 <= i < |name| => if IsLower(name[i]) then name[i] - 32 else name[i])
  }

  function Sanitized(name: seq<byte>): seq<byte> {
    Uppercase(KeepNameBytes(SkipUnderscores(Undot(name))))
  }

  lemma {:induction false} KeptBytes(name: seq<byte>, c: byte)
    requires c in KeepNameBytes(name)
    ensures IsNameByte(c)
  {
    if c in KeepNameBytes(name[1..]) {
      KeptBytes(name[1..], c);
    }
  }

  /** Whatever the name, only capitals, digits and underscores are left of it,
      so it can never end a key early. */
  lemma SanitizedIsClean(name: seq<byte>)
    ensures forall c :: c in Sanitized(name) ==> c == UNDERSCORE || IsDigit(c) || IsUpper(c)
    ensures NEWLINE !in Sanitized(name)
  {
    var kept := KeepNameBytes(SkipUnderscores(Undot(name)));
    forall i | 0 <= i < |kept|
      ensures IsNameByte(kept[i])
    {
      KeptBytes(SkipUnderscores(Undot(name)), kept[i]);
    }
  }

  lemma {:induction false} KeepsNames(name: seq<byte>)
    requires forall i :: 0 <= i < |name| ==> IsNameByte(name[i])
    ensures KeepNameBytes(name) == name
  {
    if name == [] {
    } else {
      KeepsNames(name[1..]);
    }
  }

  /** A name of letters, digits, underscores and dots that starts with none of
      the last two keeps its length: dots become underscores, letters capitals. */
  lemma SanitizedOrdinaryName(name: seq<byte>)
    requires forall i :: 0 <= i < |name| ==> IsNameByte(name[i]) || name[i] == DOT
    requires name != [] ==> name[0] != UNDERSCORE && name[0] != DOT
    ensures Sanitized(name) == Uppercase(Undot(name)) && |Sanitized(name)| == |name|
  {
    KeepsNames(Undot(name));
  }

  lemma {:induction false} KeepConcat(xs: seq<byte>, ys: seq<byte>)
    ensures KeepNameBytes(xs + ys) == KeepNameBytes(xs) + KeepNameBytes(ys)
  {
    if xs == [] {
      assert xs + ys == ys;
    } else {
      assert (xs + ys)[1..] == xs[1..] + ys;
      KeepConcat(xs[1..], ys);
      JoinedBytes(if IsNameByte(xs[0]) then [xs[0]] else [], KeepNameBytes(xs[1..]), KeepNameBytes(ys));
    }
  }

  lemma JoinedBytes(a: seq<byte>, b: seq<byte>, c: seq<byte>)
    ensures a + b + c == a + (b + c)
  {
  }

  lemma NoSkip(name: seq<byte>)
    requires name != [] && name[0] != UNDERSCORE && name[0] != DOT
    ensures SkipUnderscores(Undot(name)) == Undot(name)
  {
  }

  lemma KeptAround(xs: seq<byte>, c: byte, ys: seq<byte>)
    requires !IsNameByte(c)
    ensures KeepNameBytes(xs + [c] + ys) == KeepNameBytes(xs + ys)
  {
    KeepConcat(xs + [c], ys);
    KeepConcat(xs, [c]);
    KeepConcat(xs, ys);
    assert KeepNameBytes([c]) == [];
  }

  /** Inside a name, a byte that is no letter, digit, underscore or dot is left out
      without a trace. */
  lemma OtherBytesAreDropped(xs: seq<byte>, c: byte, ys: seq<byte>)
    requires xs != [] && xs[0] != UNDERSCORE && xs[0] != DOT && !IsNameByte(c) && c != DOT
    ensures Sanitized(xs + [c] + ys) == Sanitized(xs + ys)
  {
    NoSkip(xs + [c] + ys);
    NoSkip(xs + ys);
    assert Undot(xs + [c] + ys) == Undot(xs) + [c] + Undot(ys);
    assert Undot(xs + ys) == Undot(xs) + Undot(ys);
    KeptAround(Undot(xs), c, Undot(ys));
  }

  // ----- the writer

  class Buffer {
    var buf: seq<byte>

    constructor ()
      ensures buf == []
    {
      buf := [];
    }

    method PutValue(value: seq<byte>)
      modifies this
      ensures buf == old(buf) + ValueBytes(value)
    {
      buf := buf + LeBytes(|value|, 8);
      buf := buf + value;
      buf := buf + [NEWLINE];
    }

    method PutField(name: seq<byte>, value: seq<byte>)
      modifies this
      ensures buf == old(buf) + Record(Field(name, value))
    {
      buf := buf + name;
      buf := buf + [NEWLINE];
      PutValue(value);
    }

    /** The length is written after the value it counts; the bytes that result
        are the same as if it had been known before. */
    method PutDebug(name: seq<byte>, text: seq<byte>)
      modifies this
      ensures buf == old(buf) + Record(Field(Sanitized(name), text))
    {
      ghost var before := buf;
      ghost var key := Sanitized(name);
      buf := buf + Sanitized(name);
      buf := buf + [NEWLINE];
      buf := buf + [0, 0, 0, 0, 0, 0, 0, 0];
      var start := |buf|;
      buf := buf + text;
      var end := |buf|;
      ghost var head := before + key + [NEWLINE];
      assert buf[..start - 8] == head;
      assert buf[start..] == text;
      buf := buf[..start - 8] + LeBytes(end - start, 8) + buf[start..];
      buf := buf + [NEWLINE];
      assert buf == head + (LeBytes(|text|, 8) + text + [NEWLINE]);
    }
  }

  // ----- reading records

  function FindNewline(bs: seq<byte>): (i: nat)
    ensures i <= |bs| && (i < |bs| ==> bs[i] == NEWLINE)
    ensures forall j :: 0 <= j < i ==> bs[j] != NEWLINE
  {
    if bs == [] || bs[0] == NEWLINE then 0 else 1 + FindNewline(bs[1..])
  }

  /** The record at the front of a byte string, and where the next one starts. */
  datatype Front = Nothing | Front(field: Field, next: nat)

  /** The record whose key ends at i and whose value has the given length, if all of it is there. */
  function RecordAt(bs: seq<byte>, i: nat, len: nat): (r: Front)
    requires i + 9 <= |bs|
    ensures r.Front? ==> 0 < r.next <= |bs| + 1
  {
    var end := i + 9 + len;
    if end > |bs| then Nothing else Front(Field(bs[..i], bs[i + 9..end]), end + 1)
  }

  /** A record is read if it has all its value bytes and at least one byte
      behind its length. */
  function ReadFront(bs: seq<byte>): (r: Front)
    ensures r.Front? ==> 0 < r.next <= |bs| + 1
  {
    var i := FindNewline(bs);
    if i == |bs| || |bs| <= i + 9 then Nothing else RecordAt(bs, i, FromLe(bs[i + 1..i + 9]))
  }

  function Parse(bs: seq<byte>): seq<Field>
    decreases |bs|
  {
    var r := ReadFront(bs);
    if r.Nothing? then []
    else [r.field] + (if r.next >= |bs| then [] else Parse(bs[r.next..]))
  }

  lemma NewlineAfterKey(key: seq<byte>, tail: seq<byte>)
    requires NEWLINE !in key
    ensures FindNewline(key + [NEWLINE] + tail) == |key|
  {
    var bs := key + [NEWLINE] + tail;
    assert bs[|key|] == NEWLINE;
    assert forall j :: 0 <= j < |key| ==> bs[j] == key[j];
  }

  lemma NoNewline(bs: seq<byte>)
    requires NEWLINE !in bs
    ensures FindNewline(bs) == |bs|
  {
  }

  /** The bytes of a record that must have arrived before it is read. */
  function Needed(f: Field): nat {
    |f.key| + 9 + (if f.value == [] then 1 else |f.value|)
  }

  lemma RecordShape(f: Field)
    requires WellFormed(f)
    ensures |Record(f)| == |f.key| + 10 + |f.value|
    ensures var i := |f.key|;
            Record(f)[i + 1..i + 9] == LeBytes(|f.value|, 8) && Record(f)[i + 9..i + 9 + |f.value|] == f.value
            && Record(f)[..i] == f.key && FromLe(LeBytes(|f.value|, 8)) == |f.value|
  {
    LeRoundTrip(|f.value|, 8);
    assert Record(f) == f.key + [NEWLINE] + LeBytes(|f.value|, 8) + f.value + [NEWLINE];
  }

  lemma SliceOfTake(bs: seq<byte>, cut: nat, a: nat, b: nat)
    requires a <= b <= cut <= |bs|
    ensures bs[..cut][a..b] == bs[a..b]
  {
  }

  lemma KeyOfCut(f: Field, cut: nat)
    requires WellFormed(f) && cut <= |Record(f)|
    ensures FindNewline(Record(f)[..cut]) == if cut <= |f.key| then cut else |f.key|
  {
    RecordShape(f);
    var bs, i := Record(f)[..cut], |f.key|;
    if cut <= i {
      assert bs == f.key[..cut];
      NoNewline(bs);
    } else {
      assert bs == f.key + [NEWLINE] + bs[i + 1..];
      NewlineAfterKey(f.key, bs[i + 1..]);
    }
  }

  /** A cut record is read if what is missing is at most its last newline. */
  lemma ReadCutRecord(f: Field, cut: nat)
    requires WellFormed(f) && cut <= |Record(f)|
    ensures ReadFront(Record(f)[..cut]) == if cut < Needed(f) then Nothing else Front(f, |Record(f)|)
  {
    RecordShape(f);
    KeyOfCut(f, cut);
    var i := |f.key|;
    if cut > i + 9 {
      SliceOfTake(Record(f), cut, i + 1, i + 9);
      if cut >= Needed(f) {
        SliceOfTake(Record(f), cut, 0, i);
        SliceOfTake(Record(f), cut, i + 9, i + 9 + |f.value|);
      }
    }
  }

  lemma SliceOfConcat(bs: seq<byte>, tail: seq<byte>, a: nat, b: nat)
    requires a <= b <= |bs|
    ensures (bs + tail)[a..b] == bs[a..b]
  {
  }

  lemma KeyOfWhole(f: Field, tail: seq<byte>)
    requires NEWLINE !in f.key
    ensures FindNewline(Record(f) + tail) == |f.key|
  {
    NewlineAfterKey(f.key, ValueBytes(f.value) + tail);
    assert Record(f) + tail == f.key + [NEWLINE] + (ValueBytes(f.value) + tail);
  }

  lemma ReadWholeRecord(f: Field, tail: seq<byte>)
    requires WellFormed(f)
    ensures ReadFront(Record(f) + tail) == Front(f, |Record(f)|)
  {
    var i := |f.key|;
    RecordShape(f);
    KeyOfWhole(f, tail);
    SliceOfConcat(Record(f), tail, 0, i);
    SliceOfConcat(Record(f), tail, i + 1, i + 9);
    SliceOfConcat(Record(f), tail, i + 9, i + 9 + |f.value|);
  }

  /** A whole record is read as what was written, and the rest after it. */
  lemma ParseWholeRecord(f: Field, tail: seq<byte>)
    requires WellFormed(f) && tail != []
    ensures Parse(Record(f) + tail) == [f] + Parse(tail)
  {
    ReadWholeRecord(f, tail);
    assert (Record(f) + tail)[|Record(f)|..] == tail;
  }

  /** How many records of a list arrive when only `n` bytes do. */
  function Arrived(fs: seq<Field>, n: nat): (k: nat)
    ensures k <= |fs|
  {
    if fs == [] || n < Needed(fs[0]) then 0
    else 1 + Arrived(fs[1..], if n < |Record(fs[0])| then 0 else n - |Record(fs[0])|)
  }

  lemma CutRecords(fs: seq<Field>, cut: nat)
    requires fs != [] && cut <= |Records(fs)|
    ensures var size := |Record(fs[0])|;
            Records(fs)[..cut] == if cut <= size then Record(fs[0])[..cut]
                                  else Record(fs[0]) + Records(fs[1..])[..cut - size]
  {
  }

  lemma CutInFirstRecord(fs: seq<Field>, cut: nat)
    requires fs != [] && WellFormed(fs[0]) && cut <= |Record(fs[0])|
    ensures Parse(Record(fs[0])[..cut]) == fs[..Arrived(fs, cut)]
  {
    ReadCutRecord(fs[0], cut);
    RecordShape(fs[0]);
    NothingArrives(fs[1..]);
  }

  lemma ArrivedLater(f: Field, rest: seq<Field>, n: nat)
    requires WellFormed(f)
    ensures Arrived([f] + rest, |Record(f)| + n) == 1 + Arrived(rest, n)
  {
    RecordShape(f);
    assert ([f] + rest)[1..] == rest;
  }

  lemma TakeOneMore(f: Field, rest: seq<Field>, k: nat)
    requires k <= |rest|
    ensures ([f] + rest)[..1 + k] == [f] + rest[..k]
  {
  }

  lemma CutLater(f: Field, rest: seq<Field>, tail: seq<byte>, k: nat)
    requires WellFormed(f) && tail != [] && k <= |rest| && Parse(tail) == rest[..k]
    ensures Parse(Record(f) + tail) == ([f] + rest)[..1 + k]
  {
    ParseWholeRecord(f, tail);
    TakeOneMore(f, rest, k);
  }

  lemma TruncatedEmpty(cut: nat)
    requires cut == 0
    ensures Parse(Records([])[..cut]) == [][..Arrived([], cut)]
  {
  }

  lemma TruncatedInFirst(fs: seq<Field>, cut: nat)
    requires fs != [] && WellFormed(fs[0]) && cut <= |Records(fs)| && cut <= |Record(fs[0])|
    ensures Parse(Records(fs)[..cut]) == fs[..Arrived(fs, cut)]
  {
    CutRecords(fs, cut);
    CutInFirstRecord(fs, cut);
  }

  lemma RecordsLength(fs: seq<Field>)
    requires fs != []
    ensures |Records(fs)| == |Record(fs[0])| + |Records(fs[1..])|
  {
  }

  /** Of a buffer cut anywhere, exactly the leading records that arrived are
      read, and never a damaged one. */
  lemma {:induction false} TruncatedBuffer(fs: seq<Field>, cut: nat)
    requires AllWellFormed(fs) && cut <= |Records(fs)|
    ensures Parse(Records(fs)[..cut]) == fs[..Arrived(fs, cut)]
    decreases |fs|, 1
  {
    if fs == [] {
      TruncatedEmpty(cut);
    } else if cut <= |Record(fs[0])| {
      TruncatedInFirst(fs, cut);
    } else {
      TruncatedLater(fs, cut);
    }
  }

  lemma TruncatedLater(fs: seq<Field>, cut: nat)
    requires AllWellFormed(fs) && fs != [] && |Record(fs[0])| < cut <= |Records(fs)|
    ensures Parse(Records(fs)[..cut]) == fs[..Arrived(fs, cut)]
    decreases |fs|, 0
  {
    var f, rest, n := fs[0], fs[1..], cut - |Record(fs[0])|;
    assert [f] + rest == fs;
    RecordsLength(fs);
    TruncatedBuffer(rest, n);
    CutRecords(fs, cut);
    ArrivedLater(f, rest, n);
    CutLater(f, rest, Records(rest)[..n], Arrived(rest, n));
  }

  lemma NothingArrives(fs: seq<Field>)
    ensures Arrived(fs, 0) == 0
  {
  }

  lemma {:induction false} AllArrive(fs: seq<Field>)
    requires AllWellFormed(fs)
    ensures Arrived(fs, |Records(fs)|) == |fs|
    decreases |fs|
  {
    if fs == [] {
    } else {
      RecordShape(fs[0]);
      AllArrive(fs[1..]);
    }
  }

  /** Reading what was written gives the fields that were written, in order. */
  lemma RecordsRoundTrip(fs: seq<Field>)
    requires AllWellFormed(fs)
    ensures Parse(Records(fs)) == fs
  {
    TruncatedBuffer(fs, |Records(fs)|);
    AllArrive(fs);
    assert Records(fs)[..|Records(fs)|] == Records(fs);
  }
}
