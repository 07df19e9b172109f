/** A log entry as the host rebuilds it from journal records. */
module JournalLog {
  import opened Wrappers
  import opened Bytes
  import opened JournalFormat

  datatype Level = ERROR | WARN | INFO | DEBUG | TRACE

  const PRIORITY: seq<byte> := [80, 82, 73, 79, 82, 73, 84, 89]
  const MESSAGE: seq<byte> := [77, 69, 83, 83, 65, 71, 69]
  const TARGET: seq<byte> := [84, 65, 82, 71, 69, 84]
  const CODE_FILE: seq<byte> := [67, 79, 68, 69, 95, 70, 73, 76, 69]
  const CODE_LINE: seq<byte> := [67, 79, 68, 69, 95, 76, 73, 78, 69]

  function RawLevel(level: Level): byte {
    match level
    case ERROR => 51
    case WARN => 52
    case INFO => 53
    case DEBUG => 54
    case TRACE => 55
  }

  function LogLevel(raw: byte): Option<Level> {
    if raw == 51 then Some(ERROR)
    else if raw == 52 then Some(WARN)
    else if raw == 53 then Some(INFO)
    else if raw == 54 then Some(DEBUG)
    else if raw == 55 then Some(TRACE)
    else None
  }

  /** The two level codes are inverse to each other. */
  lemma LevelCodes(level: Level, raw: byte)
    ensures LogLevel(RawLevel(level)) == Some(level)
    ensures LogLevel(raw).Some? ==> RawLevel(LogLevel(raw).value) == raw
    ensures LogLevel(raw).Some? <==> '3' as int <= raw <= '7' as int
    ensures RawLevel(ERROR) < RawLevel(WARN) < RawLevel(INFO) < RawLevel(DEBUG) < RawLevel(TRACE)
  {
  }

  function Ascii(s: string): seq<byte>
    requires forall i :: 0 <= i < |s| ==> s[i] as int < 128
  {
    seq(|s|, i requires 0 <= i < |s| => s[i] as int)
  }

  /** The keys, spelled out. */
  lemma KeysSpelled()
    ensures PRIORITY == Ascii("PRIORITY") && MESSAGE == Ascii("MESSAGE") && TARGET == Ascii("TARGET")
    ensures CODE_FILE == Ascii("CODE_FILE") && CODE_LINE == Ascii("CODE_LINE")
  {
  }

  // ----- line numbers

  function Decimal(n: nat): seq<byte> {
    if n < 10 then [48 + n] else Decimal(n / 10) + [48 + n % 10]
  }

  function DecimalValue(ds: seq<byte>): Option<nat> {
    if ds == [] then Some(0)
    else
      var front, last := DecimalValue(ds[..|ds| - 1]), ds[|ds| - 1];
      if front.None? || !IsDigit(last) then None else Some(10 * front.value + (last - 48))
  }

  const U32_LIMIT := 0x1_0000_0000
  const PLUS: byte := 43

  /** Parsing an unsigned 32-bit number: an optional plus sign and digits. */
  function ParseU32(text: seq<byte>): Option<nat> {
    var ds := if text != [] && text[0] == PLUS then text[1..] else text;
    if ds == [] then None
    else
      var v := DecimalValue(ds);
      if v.Some? && v.value < U32_LIMIT then v else None
  }

  lemma {:induction false} DecimalRoundTrip(n: nat)
    ensures DecimalValue(Decimal(n)) == Some(n)
    ensures |Decimal(n)| > 0 && IsDigit(Decimal(n)[0])
  {
    if n < 10 {
      assert DecimalValue([]) == Some(0);
    } else {
      DecimalRoundTrip(n / 10);
      var ds := Decimal(n);
      assert ds[..|ds| - 1] == Decimal(n / 10);
    }
  }

  lemma LineRoundTrip(line: nat)
    requires line < U32_LIMIT
    ensures ParseU32(Decimal(line)) == Some(line)
  {
    DecimalRoundTrip(line);
  }

  const ZERO: byte := 48

  function ZeroDigits(k: nat): seq<byte> {
    seq(k, i => ZERO)
  }

  lemma DecimalPush(v: nat, d: nat)
    requires v > 0 && d < 10
    ensures Decimal(10 * v + d) == Decimal(v) + [48 + d]
  {
    assert (10 * v + d) / 10 == v && (10 * v + d) % 10 == d;
  }

  /** Digits stand for a number exactly as its decimal form with zeros in front. */
  lemma {:induction false} DigitsAreDecimal(ds: seq<byte>) returns (zeros: nat)
    requires ds != [] && DecimalValue(ds).Some?
    ensures ds == ZeroDigits(zeros) + Decimal(DecimalValue(ds).value)
  {
    var n := |ds| - 1;
    var front, d := ds[..n], ds[n] - 48;
    assert ds == front + [ds[n]];
    if n == 0 {
      zeros := 0;
    } else {
      zeros := DigitsAreDecimal(front);
      var v := DecimalValue(front).value;
      if v > 0 {
        DecimalPush(v, d);
      } else {
        zeros := zeros + 1;
        assert front == ZeroDigits(zeros);
      }
    }
  }

  lemma {:induction false} ZerosInFront(zeros: nat, ds: seq<byte>)
    ensures DecimalValue(ZeroDigits(zeros) + ds) == DecimalValue(ds)
    decreases zeros + |ds|
  {
    var all := ZeroDigits(zeros) + ds;
    if ds == [] {
      if zeros > 0 {
        assert all[..|all| - 1] == ZeroDigits(zeros - 1) + [];
        ZerosInFront(zeros - 1, []);
      }
    } else {
      assert all[..|all| - 1] == ZeroDigits(zeros) + ds[..|ds| - 1];
      ZerosInFront(zeros, ds[..|ds| - 1]);
    }
  }

  /** A text is read as a line number exactly if it is that number in decimal, below
      2^32, with any zeros and at most one plus sign in front. */
  lemma LineParsesExactly(text: seq<byte>, line: nat)
    ensures ParseU32(text) == Some(line) <==>
              line < U32_LIMIT
              && exists zeros :: text == ZeroDigits(zeros) + Decimal(line)
                                 || text == [PLUS] + (ZeroDigits(zeros) + Decimal(line))
  {
    if ParseU32(text) == Some(line) {
      var ds := if text != [] && text[0] == PLUS then text[1..] else text;
      var zeros := DigitsAreDecimal(ds);
      assert text == ds || text == [PLUS] + ds;
    }
    forall zeros: nat
      | text == ZeroDigits(zeros) + Decimal(line) || text == [PLUS] + (ZeroDigits(zeros) + Decimal(line))
      ensures line < U32_LIMIT ==> ParseU32(text) == Some(line)
    {
      PlainLineParses(text, zeros, line);
    }
  }

  lemma PlainLineParses(text: seq<byte>, zeros: nat, line: nat)
    requires text == ZeroDigits(zeros) + Decimal(line) || text == [PLUS] + (ZeroDigits(zeros) + Decimal(line))
    ensures line < U32_LIMIT ==> ParseU32(text) == Some(line)
  {
    var ds := ZeroDigits(zeros) + Decimal(line);
    DecimalRoundTrip(line);
    ZerosInFront(zeros, Decimal(line));
    assert ds[0] == if zeros > 0 then ZERO else Decimal(line)[0];
    assert ([PLUS] + ds)[1..] == ds;
  }

  // ----- the entry

  /** Text handling of the standard library: which bytes are UTF-8, and lowercasing. */
  datatype Text = Text(isUtf8: seq<byte> -> bool, lower: seq<byte> -> seq<byte>)

  ghost predicate AsciiIsText(t: Text) {
    forall bs: seq<byte> :: (forall c :: c in bs ==> c < 128) ==> t.isUtf8(bs)
  }

  datatype Entry = Entry(
    level: Level,
    target: seq<byte>,
    codeFile: seq<byte>,
    codeLine: nat,
    message: seq<byte>,
    debug: map<seq<byte>, seq<byte>>)

  const DEFAULT := Entry(TRACE, [], [], 0, [], map[])

  /** What one field does to an entry; None where the program stops, because a
      priority of any length but one cannot be copied into one byte. */
  function Apply(t: Text, e: Entry, f: Field): Option<Entry> {
    if !t.isUtf8(f.key) then Some(e)
    else if f.key == PRIORITY then
      if |f.value| != 1 then None
      else
        var level := LogLevel(f.value[0]);
        Some(if level.Some? then e.(level := level.value) else e)
    else if !t.isUtf8(f.value) then Some(e)
    else if f.key == MESSAGE then Some(e.(message := f.value))
    else if f.key == TARGET then Some(e.(target := f.value))
    else if f.key == CODE_FILE then Some(e.(codeFile := f.value))
    else if f.key == CODE_LINE then
      var line := ParseU32(f.value);
      Some(e.(codeLine := if line.Some? then line.value else 0))
    else Some(e.(debug := e.debug[t.lower(f.key) := f.value]))
  }

  function ApplyAll(t: Text, e: Entry, fs: seq<Field>): Option<Entry>
    decreases |fs|
  {
    if fs == [] then Some(e)
    else
      var e' := Apply(t, e, fs[0]);
      if e'.None? then None else ApplyAll(t, e'.value, fs[1..])
  }

  lemma {:induction false} ApplyAllConcat(t: Text, e: Entry, fs: seq<Field>, gs: seq<Field>)
    ensures ApplyAll(t, e, fs + gs)
            == (if ApplyAll(t, e, fs).None? then None else ApplyAll(t, ApplyAll(t, e, fs).value, gs))
    decreases |fs|
  {
    if fs == [] {
      assert fs + gs == gs;
    } else {
      assert (fs + gs)[1..] == fs[1..] + gs;
      var e' := Apply(t, e, fs[0]);
      if e'.Some? {
        ApplyAllConcat(t, e'.value, fs[1..], gs);
      }
    }
  }

  predicate BadPriority(f: Field) {
    f.key == PRIORITY && |f.value| != 1
  }

  /** The program stops on a list of fields exactly when one of them is a
      priority that is not one byte long. */
  lemma {:induction false} StopsExactlyOnBadPriority(t: Text, e: Entry, fs: seq<Field>)
    requires AsciiIsText(t)
    ensures ApplyAll(t, e, fs).None? <==> exists i :: 0 <= i < |fs| && BadPriority(fs[i])
    decreases |fs|
  {
    assert t.isUtf8(PRIORITY);
    if fs == [] {
    } else {
      var e' := Apply(t, e, fs[0]);
      assert e'.None? <==> BadPriority(fs[0]);
      if e'.Some? {
        StopsExactlyOnBadPriority(t, e'.value, fs[1..]);
        assert forall i :: 1 <= i < |fs| ==> fs[i] == fs[1..][i - 1];
        assert forall i :: 0 <= i < |fs| - 1 ==> fs[1..][i] == fs[i + 1];
      }
    }
  }

  class Log {
    var level: Level
    var target: seq<byte>
    var codeFile: seq<byte>
    var codeLine: nat
    var message: seq<byte>
    var debug: map<seq<byte>, seq<byte>>

    constructor ()
      ensures View() == DEFAULT
    {
      level, target, codeFile, codeLine, message, debug := TRACE, [], [], 0, [], map[];
    }

    ghost function View(): Entry
      reads this
    {
      Entry(level, target, codeFile, codeLine, message, debug)
    }

    /** False means the program stopped. */
    method Update(t: Text, key: seq<byte>, value: seq<byte>) returns (ok: bool)
      modifies this
      ensures ok == Apply(t, old(View()), Field(key, value)).Some?
      ensures ok ==> View() == Apply(t, old(View()), Field(key, value)).value
      ensures !ok ==> View() == old(View())
    {
      ok := true;
      if !t.isUtf8(key) {
        return;
      }
      if key == PRIORITY {
        if |value| != 1 {
          return false;
        }
        var parsed := LogLevel(value[0]);
        if parsed.Some? {
          level := parsed.value;
        }
      } else {
        if !t.isUtf8(value) {
          return;
        }
        if key == MESSAGE {
          message := value;
        } else if key == TARGET {
          target := value;
        } else if key == CODE_FILE {
          codeFile := value;
        } else if key == CODE_LINE {
          var line := ParseU32(value);
          codeLine := if line.Some? then line.value else 0;
        } else {
          debug := debug[t.lower(key) := value];
        }
      }
    }
  }

  const USIZE_LIMIT := 0x1_0000_0000_0000_0000

  lemma SliceSlice(raw: seq<byte>, from: nat, a: nat, b: nat)
    requires from <= from + a <= from + b <= |raw|
    ensures raw[from..][a..b] == raw[from + a..from + b]
  {
  }

  /** One pass of the parsing loop: the same indices as the program computes.
      Every slice is in range and no index leaves the machine word. */
  method NextRecord(raw: seq<byte>, next: nat) returns (r: Front)
    requires next < |raw| < USIZE_LIMIT / 2
    ensures var front := ReadFront(raw[next..]);
            r == if front.Nothing? then Nothing else Front(front.field, next + front.next)
  {
    var len := |raw|;
    ghost var rest := raw[next..];
    var i := FindNewline(raw[next..]);
    if i == len - next || i >= len - 1 {
      return Nothing;
    }
    var keyEnd := next + i;
    var lenBegin := keyEnd + 1;
    var lenEnd := lenBegin + 8;
    assert lenEnd < USIZE_LIMIT;
    if len <= lenEnd {
      return Nothing;
    }
    SliceSlice(raw, next, i + 1, i + 9);
    var valueLen := FromLe(raw[lenBegin..lenEnd]);
    if valueLen >= USIZE_LIMIT {
      return Nothing;
    }
    var valueEnd := lenEnd + valueLen;
    if valueEnd >= USIZE_LIMIT {
      return Nothing;
    }
    if valueEnd > len {
      return Nothing;
    }
    assert valueEnd + 1 < USIZE_LIMIT;
    SliceSlice(raw, next, 0, i);
    SliceSlice(raw, next, i + 9, i + 9 + valueLen);
    r := Front(Field(raw[next..keyEnd], raw[lenEnd..valueEnd]), valueEnd + 1);
  }

  lemma ParseStep(raw: seq<byte>, next: nat, front: Front)
    requires next < |raw| && front.Front? && next < front.next
    requires ReadFront(raw[next..]) == Front(front.field, front.next - next)
    ensures Parse(raw[next..]) == [front.field] + (if front.next < |raw| then Parse(raw[front.next..]) else [])
  {
    assert front.next < |raw| ==> raw[next..][front.next - next..] == raw[front.next..];
  }

  lemma ApplyAllStep(t: Text, e: Entry, f: Field, left: seq<Field>)
    ensures ApplyAll(t, e, [f] + left)
            == (if Apply(t, e, f).None? then None else ApplyAll(t, Apply(t, e, f).value, left))
  {
    assert ([f] + left)[1..] == left;
  }

  /** For every byte string: the entry is the default one updated with the
      fields that parse, in order, or the program stops where an update does. */
  method FromRaw(t: Text, raw: seq<byte>) returns (r: Option<Log>)
    requires |raw| < USIZE_LIMIT / 2
    ensures r.Some? ==> fresh(r.value) && Some(r.value.View()) == ApplyAll(t, DEFAULT, Parse(raw))
    ensures r.None? <==> ApplyAll(t, DEFAULT, Parse(raw)).None?
  {
    var next := 0;
    var log := new Log();
    ghost var left := Parse(raw);
    assert raw[0..] == raw;
    while next < |raw|
      invariant fresh(log)
      invariant left == if next < |raw| then Parse(raw[next..]) else []
      invariant ApplyAll(t, log.View(), left) == ApplyAll(t, DEFAULT, Parse(raw))
      decreases |raw| - next
    {
      var front := NextRecord(raw, next);
      if front.Nothing? {
        left := [];
        break;
      }
      ParseStep(raw, next, front);
      left := if front.next < |raw| then Parse(raw[front.next..]) else [];
      ApplyAllStep(t, log.View(), front.field, left);
      var ok := log.Update(t, front.field.key, front.field.value);
      next := front.next;
      if !ok {
        return None;
      }
    }
    r := Some(log);
  }

  /** The keys that are filled from an event's metadata. */
  predicate IsReserved(key: seq<byte>) {
    key == PRIORITY || key == TARGET || key == CODE_FILE || key == CODE_LINE
  }

  // ----- what is left of each item after any list of fields

  /** The last value under a key that is text. */
  function LastText(t: Text, fs: seq<Field>, key: seq<byte>, before: seq<byte>): seq<byte> {
    if fs == [] then before
    else
      var n := |fs| - 1;
      if fs[n].key == key && t.isUtf8(fs[n].value) then fs[n].value else LastText(t, fs[..n], key, before)
  }

  /** The last line number that is text; zero if that text is no number. */
  function LastLine(t: Text, fs: seq<Field>, before: nat): nat {
    if fs == [] then before
    else
      var n := |fs| - 1;
      if fs[n].key == CODE_LINE && t.isUtf8(fs[n].value) then
        var line := ParseU32(fs[n].value);
        if line.Some? then line.value else 0
      else LastLine(t, fs[..n], before)
  }

  /** The last priority that is a known level. */
  function LastLevel(fs: seq<Field>, before: Level): Level {
    if fs == [] then before
    else
      var n := |fs| - 1;
      if fs[n].key == PRIORITY && |fs[n].value| == 1 && LogLevel(fs[n].value[0]).Some?
      then LogLevel(fs[n].value[0]).value else LastLevel(fs[..n], before)
  }

  /** Every item of the entry, except the map of other fields, from the fields alone. */
  ghost predicate IsAfter(t: Text, e: Entry, fs: seq<Field>, r: Entry) {
    && r.level == LastLevel(fs, e.level)
    && r.target == LastText(t, fs, TARGET, e.target)
    && r.codeFile == LastText(t, fs, CODE_FILE, e.codeFile)
    && r.codeLine == LastLine(t, fs, e.codeLine)
    && r.message == LastText(t, fs, MESSAGE, e.message)
  }

  lemma KeysAreText(t: Text)
    requires AsciiIsText(t)
    ensures t.isUtf8(PRIORITY) && t.isUtf8(TARGET) && t.isUtf8(CODE_FILE) && t.isUtf8(CODE_LINE) && t.isUtf8(MESSAGE)
  {
  }

  lemma IsAfterOneMore(t: Text, e: Entry, fs: seq<Field>, r: Entry, f: Field)
    requires AsciiIsText(t) && IsAfter(t, e, fs, r) && Apply(t, r, f).Some?
    ensures IsAfter(t, e, fs + [f], Apply(t, r, f).value)
  {
    KeysAreText(t);
    assert (fs + [f])[..|fs|] == fs;
  }

  lemma {:induction false} ItemsComeFromLastFields(t: Text, e: Entry, fs: seq<Field>)
    requires AsciiIsText(t) && ApplyAll(t, e, fs).Some?
    ensures IsAfter(t, e, fs, ApplyAll(t, e, fs).value)
    decreases |fs|
  {
    if fs == [] {
    } else {
      var front, f := fs[..|fs| - 1], fs[|fs| - 1];
      assert front + [f] == fs;
      ApplyAllConcat(t, e, front, [f]);
      ItemsComeFromLastFields(t, e, front);
      ApplyAllStep(t, ApplyAll(t, e, front).value, f, []);
      IsAfterOneMore(t, e, front, ApplyAll(t, e, front).value, f);
    }
  }

  function Lookup(debug: map<seq<byte>, seq<byte>>, name: seq<byte>): Option<seq<byte>> {
    if name in debug then Some(debug[name]) else None
  }

  /** The last text under a key that is none of the entry's own and has this lowercase name. */
  function LastNamed(t: Text, fs: seq<Field>, name: seq<byte>, before: Option<seq<byte>>): Option<seq<byte>> {
    if fs == [] then before
    else
      var n := |fs| - 1;
      if t.isUtf8(fs[n].key) && t.isUtf8(fs[n].value) && IsPlain(fs[n].key) && t.lower(fs[n].key) == name
      then Some(fs[n].value) else LastNamed(t, fs[..n], name, before)
  }

  lemma NamedOneMore(t: Text, e: Entry, fs: seq<Field>, f: Field, name: seq<byte>)
    requires ApplyAll(t, e, fs).Some? && Apply(t, ApplyAll(t, e, fs).value, f).Some?
    requires Lookup(ApplyAll(t, e, fs).value.debug, name) == LastNamed(t, fs, name, Lookup(e.debug, name))
    ensures Lookup(Apply(t, ApplyAll(t, e, fs).value, f).value.debug, name)
            == LastNamed(t, fs + [f], name, Lookup(e.debug, name))
  {
    assert (fs + [f])[..|fs|] == fs;
  }

  /** After any list of fields, the other fields of the entry are exactly those with a
      text under such a key, each with its last text; whatever is not text is ignored. */
  lemma {:induction false} OthersComeFromLastFields(t: Text, e: Entry, fs: seq<Field>, name: seq<byte>)
    requires ApplyAll(t, e, fs).Some?
    ensures Lookup(ApplyAll(t, e, fs).value.debug, name) == LastNamed(t, fs, name, Lookup(e.debug, name))
    decreases |fs|
  {
    if fs == [] {
    } else {
      var front, f := fs[..|fs| - 1], fs[|fs| - 1];
      assert front + [f] == fs;
      ApplyAllConcat(t, e, front, [f]);
      OthersComeFromLastFields(t, e, front, name);
      ApplyAllStep(t, ApplyAll(t, e, front).value, f, []);
      NamedOneMore(t, e, front, f, name);
    }
  }

  // ----- the other fields

  predicate NoneNamed(fs: seq<Field>, key: seq<byte>) {
    forall i :: 0 <= i < |fs| ==> fs[i].key != key
  }

  /** Of several messages the last one counts. */
  lemma {:induction false} MessageIsKept(t: Text, e: Entry, fs: seq<Field>)
    requires NoneNamed(fs, MESSAGE) && ApplyAll(t, e, fs).Some?
    ensures ApplyAll(t, e, fs).value.message == e.message
    decreases |fs|
  {
    if fs == [] {
    } else {
      MessageIsKept(t, Apply(t, e, fs[0]).value, fs[1..]);
    }
  }

  lemma MessageComesBack(t: Text, before: seq<Field>, text: seq<byte>, after: seq<Field>)
    requires AsciiIsText(t) && t.isUtf8(text) && NoneNamed(after, MESSAGE)
    requires AllWellFormed(before + [Field(MESSAGE, text)] + after)
    ensures var r := ApplyAll(t, DEFAULT, Parse(Records(before + [Field(MESSAGE, text)] + after)));
            r.Some? ==> r.value.message == text
  {
    var f := Field(MESSAGE, text);
    assert t.isUtf8(MESSAGE);
    RecordsRoundTrip(before + [f] + after);
    ApplyAllConcat(t, DEFAULT, before + [f], after);
    ApplyAllConcat(t, DEFAULT, before, [f]);
    var r := ApplyAll(t, DEFAULT, before + [f] + after);
    if r.Some? {
      var e := ApplyAll(t, DEFAULT, before).value;
      ApplyAllStep(t, e, f, []);
      MessageIsKept(t, e.(message := text), after);
    }
  }

  predicate IsPlain(key: seq<byte>) {
    !IsReserved(key) && key != MESSAGE
  }

  predicate NoneAlike(t: Text, fs: seq<Field>, key: seq<byte>) {
    forall i :: 0 <= i < |fs| ==> t.lower(fs[i].key) != t.lower(key)
  }

  lemma {:induction false} DebugIsKept(t: Text, e: Entry, fs: seq<Field>, key: seq<byte>)
    requires NoneAlike(t, fs, key) && t.lower(key) in e.debug && ApplyAll(t, e, fs).Some?
    ensures var d := ApplyAll(t, e, fs).value.debug;
            t.lower(key) in d && d[t.lower(key)] == e.debug[t.lower(key)]
    decreases |fs|
  {
    if fs == [] {
    } else {
      DebugIsKept(t, Apply(t, e, fs[0]).value, fs[1..], key);
    }
  }

  /** Every other field is found under its lowercase name, unless a later field
      has the same one. */
  lemma FieldComesBack(t: Text, before: seq<Field>, f: Field, after: seq<Field>)
    requires t.isUtf8(f.key) && t.isUtf8(f.value) && IsPlain(f.key) && NoneAlike(t, after, f.key)
    requires AllWellFormed(before + [f] + after)
    ensures var r := ApplyAll(t, DEFAULT, Parse(Records(before + [f] + after)));
            r.Some? ==> t.lower(f.key) in r.value.debug && r.value.debug[t.lower(f.key)] == f.value
  {
    RecordsRoundTrip(before + [f] + after);
    ApplyAllConcat(t, DEFAULT, before + [f], after);
    ApplyAllConcat(t, DEFAULT, before, [f]);
    var r := ApplyAll(t, DEFAULT, before + [f] + after);
    if r.Some? {
      var e := ApplyAll(t, DEFAULT, before).value;
      ApplyAllStep(t, e, f, []);
      DebugIsKept(t, Apply(t, e, f).value, after, f.key);
    }
  }
}
