/** Writing a log event as journal records: what its spans recorded, its metadata,
    its own fields. And what of it the host reads back. */
module JournalEvent {
  import opened Wrappers
  import opened Bytes
  import opened JournalFormat
  import opened JournalLog

  // ----- metadata

  datatype Metadata = Metadata(level: Level, target: seq<byte>, file: Option<seq<byte>>, line: Option<nat>)

  const UPPER_S: byte := 83

  /** The prefix of a span's fields: S, its depth, an underscore. */
  function SpanPrefix(span: Option<nat>): seq<byte> {
    if span.None? then [] else [UPPER_S] + Decimal(span.value) + [UNDERSCORE]
  }

  /** Where in the code an event or span is, each part only if known. */
  function LocationFields(meta: Metadata, p: seq<byte>): seq<Field> {
    (if meta.file.Some? then [Field(p + CODE_FILE, meta.file.value)] else [])
    + (if meta.line.Some? then [Field(p + CODE_LINE, Decimal(meta.line.value))] else [])
  }

  /** Priority and target, with which metadata begins. */
  function HeadFields(meta: Metadata, span: Option<nat>): seq<Field> {
    (if span.None? then [Field(PRIORITY, [RawLevel(meta.level)])] else [])
    + [Field(SpanPrefix(span) + TARGET, meta.target)]
  }

  function MetadataFields(meta: Metadata, span: Option<nat>): seq<Field> {
    HeadFields(meta, span) + LocationFields(meta, SpanPrefix(span))
  }

  lemma PushRecord(fs: seq<Field>, f: Field)
    ensures Records(fs + [f]) == Records(fs) + Record(f)
  {
    RecordsConcat(fs, [f]);
    assert Records([f]) == Record(f) + Records([]);
  }

  lemma RecordBehindPrefix(prefix: seq<byte>, f: Field)
    ensures prefix + Record(f) == Record(Field(prefix + f.key, f.value))
  {
  }

  /** A prefix written in front of a field is part of its key. */
  method PutPrefixed(b: Buffer, prefix: seq<byte>, name: seq<byte>, value: seq<byte>, ghost fs: seq<Field>,
                     ghost start: seq<byte>)
    requires b.buf == start + Records(fs)
    modifies b
    ensures b.buf == start + Records(fs + [Field(prefix + name, value)])
  {
    ghost var f := Field(name, value);
    PushRecord(fs, Field(prefix + name, value));
    RecordBehindPrefix(prefix, f);
    JoinedBytes(b.buf, prefix, Record(f));
    JoinedBytes(start, Records(fs), Record(Field(prefix + name, value)));
    b.buf := b.buf + prefix;
    b.PutField(name, value);
  }

  method PutLocation(b: Buffer, meta: Metadata, p: seq<byte>, ghost fs0: seq<Field>, ghost start: seq<byte>)
    requires b.buf == start + Records(fs0)
    modifies b
    ensures b.buf == start + Records(fs0 + LocationFields(meta, p))
  {
    ghost var fs := fs0;
    if meta.file.Some? {
      PutPrefixed(b, p, CODE_FILE, meta.file.value, fs, start);
      fs := fs + [Field(p + CODE_FILE, meta.file.value)];
    }
    if meta.line.Some? {
      PutPrefixed(b, p, CODE_LINE, Decimal(meta.line.value), fs, start);
      fs := fs + [Field(p + CODE_LINE, Decimal(meta.line.value))];
    }
    assert fs == fs0 + LocationFields(meta, p);
  }

  method PutHead(b: Buffer, meta: Metadata, span: Option<nat>)
    modifies b
    ensures b.buf == old(b.buf) + Records(HeadFields(meta, span))
  {
    ghost var start := b.buf;
    ghost var fs: seq<Field> := [];
    assert b.buf == start + Records(fs);
    if span.None? {
      PutPrefixed(b, [], PRIORITY, [RawLevel(meta.level)], fs, start);
      assert [] + PRIORITY == PRIORITY;
      fs := fs + [Field(PRIORITY, [RawLevel(meta.level)])];
    }
    PutPrefixed(b, SpanPrefix(span), TARGET, meta.target, fs, start);
  }

  method PutMetadata(b: Buffer, meta: Metadata, span: Option<nat>)
    modifies b
    ensures b.buf == old(b.buf) + Records(MetadataFields(meta, span))
  {
    ghost var start := b.buf;
    PutHead(b, meta, span);
    PutLocation(b, meta, SpanPrefix(span), HeadFields(meta, span), start);
  }

  lemma {:induction false} DecimalIsAscii(n: nat)
    ensures forall c :: c in Decimal(n) ==> IsDigit(c)
  {
    if n < 10 {
    } else {
      DecimalIsAscii(n / 10);
    }
  }

  // ----- lowercase names

  /** Lowercasing, on ASCII. */
  function LowerAscii(bs: seq<byte>): (r: seq<byte>)
    ensures |r| == |bs|
  {
    seq(|bs|, i requires 0 <= i < |bs| => if IsUpper(bs[i]) then bs[i] + 32 else bs[i])
  }

  predicate IsKey(key: seq<byte>) {
    && key != [] && IsUpper(key[0])
    && forall i :: 0 <= i < |key| ==> IsUpper(key[i]) || IsDigit(key[i]) || key[i] == UNDERSCORE
  }

  /** Every key is the key of its own lowercase name. */
  lemma LowercaseNameHasKey(key: seq<byte>)
    requires IsKey(key)
    ensures Sanitized(LowerAscii(key)) == key
  {
    var name := LowerAscii(key);
    SanitizedOrdinaryName(name);
    assert Undot(name) == name;
    assert Uppercase(name) == key;
  }

  // ----- the fields of spans and events

  /** A field as a program names it, and its text. */
  datatype Own = Own(name: seq<byte>, text: seq<byte>)

  datatype Span = Span(name: seq<byte>, meta: Metadata, own: seq<Own>)

  const MESSAGE_NAME := LowerAscii(MESSAGE)
  /** "_NAME" */
  const NAME_SUFFIX: seq<byte> := [95, 78, 65, 77, 69]

  datatype Place = InEvent | InSpan(depth: nat)

  /** What is put in front of an own field: in a span S and its depth, in both the
      configured prefix, which the message of an event does without. */
  function OwnPrefix(place: Place, prefix: Option<seq<byte>>, name: seq<byte>): seq<byte> {
    match place
    case InEvent => if prefix.Some? && name != MESSAGE_NAME then prefix.value + [UNDERSCORE] else []
    case InSpan(depth) =>
      [UPPER_S] + Decimal(depth) + (if prefix.Some? then prefix.value else []) + [UNDERSCORE]
  }

  function OwnKey(place: Place, prefix: Option<seq<byte>>, name: seq<byte>): seq<byte> {
    OwnPrefix(place, prefix, name) + Sanitized(name)
  }

  function OwnField(place: Place, prefix: Option<seq<byte>>, own: Own): Field {
    Field(OwnKey(place, prefix, own.name), own.text)
  }

  function OwnFields(place: Place, prefix: Option<seq<byte>>, own: seq<Own>): seq<Field> {
    if own == [] then []
    else
      var n := |own| - 1;
      OwnFields(place, prefix, own[..n]) + [OwnField(place, prefix, own[n])]
  }

  function SpanFields(depth: nat, prefix: Option<seq<byte>>, span: Span): seq<Field> {
    [Field([UPPER_S] + Decimal(depth) + NAME_SUFFIX, span.name)]
    + MetadataFields(span.meta, Some(depth))
    + OwnFields(InSpan(depth), prefix, span.own)
  }

  /** What the open spans recorded, from the root on; a span's place is its depth. */
  function ScopeFields(prefix: Option<seq<byte>>, spans: seq<Span>): seq<Field> {
    if spans == [] then []
    else
      var n := |spans| - 1;
      ScopeFields(prefix, spans[..n]) + SpanFields(n, prefix, spans[n])
  }

  function EventFields(prefix: Option<seq<byte>>, spans: seq<Span>, meta: Metadata, own: seq<Own>): seq<Field> {
    ScopeFields(prefix, spans) + MetadataFields(meta, None) + OwnFields(InEvent, prefix, own)
  }

  lemma OwnOneMore(place: Place, prefix: Option<seq<byte>>, own: seq<Own>, n: nat)
    requires n < |own|
    ensures Records(OwnFields(place, prefix, own[..n + 1]))
            == Records(OwnFields(place, prefix, own[..n])) + Record(OwnField(place, prefix, own[n]))
  {
    assert own[..n + 1][..n] == own[..n];
    PushRecord(OwnFields(place, prefix, own[..n]), OwnField(place, prefix, own[n]));
  }

  method PutOwnField(b: Buffer, place: Place, prefix: Option<seq<byte>>, own: Own)
    modifies b
    ensures b.buf == old(b.buf) + Record(OwnField(place, prefix, own))
  {
    var front := OwnPrefix(place, prefix, own.name);
    ghost var f := Field(Sanitized(own.name), own.text);
    RecordBehindPrefix(front, f);
    JoinedBytes(b.buf, front, Record(f));
    b.buf := b.buf + front;
    b.PutDebug(own.name, own.text);
  }

  method PutOwnFields(b: Buffer, place: Place, prefix: Option<seq<byte>>, own: seq<Own>)
    modifies b
    ensures b.buf == old(b.buf) + Records(OwnFields(place, prefix, own))
  {
    ghost var start := b.buf;
    assert start + [] == start;
    for n := 0 to |own|
      invariant b.buf == start + Records(OwnFields(place, prefix, own[..n]))
    {
      OwnOneMore(place, prefix, own, n);
      JoinedBytes(start, Records(OwnFields(place, prefix, own[..n])), Record(OwnField(place, prefix, own[n])));
      PutOwnField(b, place, prefix, own[n]);
    }
    assert own[..|own|] == own;
  }

  lemma SpanRecords(depth: nat, prefix: Option<seq<byte>>, span: Span)
    ensures Records(SpanFields(depth, prefix, span))
            == Record(Field([UPPER_S] + Decimal(depth) + NAME_SUFFIX, span.name))
               + Records(MetadataFields(span.meta, Some(depth)))
               + Records(OwnFields(InSpan(depth), prefix, span.own))
  {
    var f, m := Field([UPPER_S] + Decimal(depth) + NAME_SUFFIX, span.name), MetadataFields(span.meta, Some(depth));
    RecordsConcat([f] + m, OwnFields(InSpan(depth), prefix, span.own));
    RecordsConcat([f], m);
    PushRecord([], f);
    assert [] + [f] == [f];
  }

  /** The buffer a span keeps: its name, its metadata and its own fields. */
  method OnNewSpan(depth: nat, prefix: Option<seq<byte>>, span: Span) returns (b: Buffer)
    ensures fresh(b) && b.buf == Records(SpanFields(depth, prefix, span))
  {
    b := new Buffer();
    var name := [UPPER_S] + Decimal(depth) + NAME_SUFFIX;
    b.PutField(name, span.name);
    assert b.buf == Record(Field(name, span.name));
    PutMetadata(b, span.meta, Some(depth));
    PutOwnFields(b, InSpan(depth), prefix, span.own);
    SpanRecords(depth, prefix, span);
  }

  lemma ScopeOneMore(prefix: Option<seq<byte>>, spans: seq<Span>, n: nat)
    requires n < |spans|
    ensures Records(ScopeFields(prefix, spans[..n + 1]))
            == Records(ScopeFields(prefix, spans[..n])) + Records(SpanFields(n, prefix, spans[n]))
  {
    assert spans[..n + 1][..n] == spans[..n];
    RecordsConcat(ScopeFields(prefix, spans[..n]), SpanFields(n, prefix, spans[n]));
  }

  /** The buffer of an event: the buffers of its open spans behind each other, then
      its metadata and its own fields. */
  method OnEvent(buffers: seq<seq<byte>>, prefix: Option<seq<byte>>, meta: Metadata, own: seq<Own>,
                 ghost spans: seq<Span>)
    returns (b: Buffer)
    requires |buffers| == |spans|
    requires forall i :: 0 <= i < |spans| ==> buffers[i] == Records(SpanFields(i, prefix, spans[i]))
    ensures fresh(b) && b.buf == Records(EventFields(prefix, spans, meta, own))
  {
    b := new Buffer();
    for n := 0 to |buffers|
      invariant b.buf == Records(ScopeFields(prefix, spans[..n]))
    {
      ScopeOneMore(prefix, spans, n);
      b.buf := b.buf + buffers[n];
    }
    assert spans[..|spans|] == spans;
    PutMetadata(b, meta, None);
    PutOwnFields(b, InEvent, prefix, own);
    RecordsConcat(ScopeFields(prefix, spans) + MetadataFields(meta, None), OwnFields(InEvent, prefix, own));
    RecordsConcat(ScopeFields(prefix, spans), MetadataFields(meta, None));
  }

  // ----- every event can be parsed

  predicate IsShort(text: seq<byte>) {
    |text| < Pow256(8)
  }

  predicate StorableOwn(own: seq<Own>) {
    forall i :: 0 <= i < |own| ==> IsShort(own[i].text)
  }

  predicate StorableMeta(meta: Metadata) {
    IsShort(meta.target)
    && (meta.file.Some? ==> IsShort(meta.file.value))
    && (meta.line.Some? ==> meta.line.value < U32_LIMIT)
  }

  predicate StorableSpan(span: Span) {
    IsShort(span.name) && StorableMeta(span.meta) && StorableOwn(span.own)
  }

  predicate StorablePrefix(prefix: Option<seq<byte>>) {
    prefix.Some? ==> NEWLINE !in prefix.value
  }

  predicate StorableSpans(spans: seq<Span>) {
    forall i :: 0 <= i < |spans| ==> StorableSpan(spans[i])
  }

  /** What the types of the program say of everything it logs: lengths and line
      numbers fit a machine word. And the prefix has no line break. */
  predicate Storable(prefix: Option<seq<byte>>, spans: seq<Span>, meta: Metadata, own: seq<Own>) {
    && StorablePrefix(prefix)
    && StorableSpans(spans)
    && StorableMeta(meta)
    && StorableOwn(own)
  }

  lemma {:induction false} DecimalIsShort(n: nat)
    ensures |Decimal(n)| <= n + 1
  {
    if n < 10 {
    } else {
      DecimalIsShort(n / 10);
    }
  }

  lemma LineIsShort(line: nat)
    requires line < U32_LIMIT
    ensures IsShort(Decimal(line))
  {
    DecimalIsShort(line);
    assert Pow256(8) == 256 * Pow256(7) == 65536 * Pow256(6) == 0x100_0000 * Pow256(5) == 0x1_0000_0000 * Pow256(4);
    assert Pow256(4) == 256 * Pow256(3);
  }

  lemma DepthIsClean(depth: nat)
    ensures NEWLINE !in [UPPER_S] + Decimal(depth)
  {
    DecimalIsAscii(depth);
  }

  lemma WellFormedConcat(fs: seq<Field>, gs: seq<Field>)
    requires AllWellFormed(fs) && AllWellFormed(gs)
    ensures AllWellFormed(fs + gs)
  {
  }

  lemma WellFormedPush(fs: seq<Field>, f: Field)
    requires AllWellFormed(fs) && WellFormed(f)
    ensures AllWellFormed(fs + [f])
  {
  }

  lemma LocationIsWellFormed(meta: Metadata, p: seq<byte>)
    requires StorableMeta(meta) && NEWLINE !in p
    ensures AllWellFormed(LocationFields(meta, p))
  {
    if meta.line.Some? { LineIsShort(meta.line.value); }
  }

  lemma MetadataIsWellFormed(meta: Metadata, span: Option<nat>)
    requires StorableMeta(meta)
    ensures AllWellFormed(MetadataFields(meta, span))
  {
    var p := SpanPrefix(span);
    if span.Some? { DepthIsClean(span.value); }
    var first := if span.None? then [Field(PRIORITY, [RawLevel(meta.level)])] else [];
    assert AllWellFormed(first) && AllWellFormed([Field(p + TARGET, meta.target)]);
    LocationIsWellFormed(meta, p);
    WellFormedConcat(first, [Field(p + TARGET, meta.target)]);
    WellFormedConcat(first + [Field(p + TARGET, meta.target)], LocationFields(meta, p));
  }

  lemma OwnFieldIsWellFormed(place: Place, prefix: Option<seq<byte>>, own: Own)
    requires StorablePrefix(prefix) && IsShort(own.text)
    ensures WellFormed(OwnField(place, prefix, own))
  {
    SanitizedIsClean(own.name);
    if place.InSpan? { DepthIsClean(place.depth); }
  }

  lemma {:induction false} OwnIsWellFormed(place: Place, prefix: Option<seq<byte>>, own: seq<Own>)
    requires StorablePrefix(prefix) && StorableOwn(own)
    ensures AllWellFormed(OwnFields(place, prefix, own))
  {
    if own == [] {
    } else {
      var n := |own| - 1;
      OwnIsWellFormed(place, prefix, own[..n]);
      OwnFieldIsWellFormed(place, prefix, own[n]);
      WellFormedPush(OwnFields(place, prefix, own[..n]), OwnField(place, prefix, own[n]));
    }
  }

  lemma SpanIsWellFormed(depth: nat, prefix: Option<seq<byte>>, span: Span)
    requires StorablePrefix(prefix) && StorableSpan(span)
    ensures AllWellFormed(SpanFields(depth, prefix, span))
  {
    var name := Field([UPPER_S] + Decimal(depth) + NAME_SUFFIX, span.name);
    DepthIsClean(depth);
    assert WellFormed(name);
    MetadataIsWellFormed(span.meta, Some(depth));
    WellFormedConcat([name], MetadataFields(span.meta, Some(depth)));
    OwnIsWellFormed(InSpan(depth), prefix, span.own);
    WellFormedConcat([name] + MetadataFields(span.meta, Some(depth)), OwnFields(InSpan(depth), prefix, span.own));
  }

  lemma JoinedIsWellFormed(whole: seq<Field>, fs: seq<Field>, gs: seq<Field>)
    requires whole == fs + gs && AllWellFormed(fs) && AllWellFormed(gs)
    ensures AllWellFormed(whole)
  {
  }

  lemma StorableFront(spans: seq<Span>, n: nat)
    requires StorableSpans(spans) && n < |spans|
    ensures StorableSpans(spans[..n]) && StorableSpan(spans[n])
  {
  }

  lemma {:induction false} ScopeIsWellFormed(prefix: Option<seq<byte>>, spans: seq<Span>)
    requires StorablePrefix(prefix) && StorableSpans(spans)
    ensures AllWellFormed(ScopeFields(prefix, spans))
  {
    if spans == [] {
    } else {
      var n := |spans| - 1;
      StorableFront(spans, n);
      ScopeIsWellFormed(prefix, spans[..n]);
      SpanIsWellFormed(n, prefix, spans[n]);
      JoinedIsWellFormed(ScopeFields(prefix, spans), ScopeFields(prefix, spans[..n]), SpanFields(n, prefix, spans[n]));
    }
  }

  lemma EventIsWellFormed(prefix: Option<seq<byte>>, spans: seq<Span>, meta: Metadata, own: seq<Own>)
    requires Storable(prefix, spans, meta, own)
    ensures AllWellFormed(EventFields(prefix, spans, meta, own))
  {
    ScopeIsWellFormed(prefix, spans);
    MetadataIsWellFormed(meta, None);
    OwnIsWellFormed(InEvent, prefix, own);
    WellFormedConcat(ScopeFields(prefix, spans), MetadataFields(meta, None));
    WellFormedConcat(ScopeFields(prefix, spans) + MetadataFields(meta, None), OwnFields(InEvent, prefix, own));
  }

  // ----- what the host reads back

  /** No field of a span has a key that means something to the reader. */
  ghost predicate AllSpanFields(fs: seq<Field>) {
    forall i :: 0 <= i < |fs| ==> fs[i].key != [] && fs[i].key[0] == UPPER_S
  }

  lemma SpanFieldsConcat(fs: seq<Field>, gs: seq<Field>)
    requires AllSpanFields(fs) && AllSpanFields(gs)
    ensures AllSpanFields(fs + gs)
  {
  }

  lemma SpanFieldsPush(fs: seq<Field>, f: Field)
    requires AllSpanFields(fs) && f.key != [] && f.key[0] == UPPER_S
    ensures AllSpanFields(fs + [f])
  {
  }

  lemma SpanMetadataKeys(meta: Metadata, depth: nat)
    ensures AllSpanFields(MetadataFields(meta, Some(depth)))
  {
    var p := SpanPrefix(Some(depth));
    assert p[0] == UPPER_S;
    assert AllSpanFields([Field(p + TARGET, meta.target)]) && AllSpanFields(LocationFields(meta, p));
    SpanFieldsConcat([Field(p + TARGET, meta.target)], LocationFields(meta, p));
    assert MetadataFields(meta, Some(depth)) == [Field(p + TARGET, meta.target)] + LocationFields(meta, p);
  }

  lemma {:induction false} SpanOwnKeys(depth: nat, prefix: Option<seq<byte>>, own: seq<Own>)
    ensures AllSpanFields(OwnFields(InSpan(depth), prefix, own))
  {
    if own == [] {
    } else {
      var n := |own| - 1;
      SpanOwnKeys(depth, prefix, own[..n]);
      SpanFieldsPush(OwnFields(InSpan(depth), prefix, own[..n]), OwnField(InSpan(depth), prefix, own[n]));
    }
  }

  lemma SpanKeys(depth: nat, prefix: Option<seq<byte>>, span: Span)
    ensures AllSpanFields(SpanFields(depth, prefix, span))
  {
    var name, m := [Field([UPPER_S] + Decimal(depth) + NAME_SUFFIX, span.name)], MetadataFields(span.meta, Some(depth));
    SpanMetadataKeys(span.meta, depth);
    SpanOwnKeys(depth, prefix, span.own);
    SpanFieldsConcat(name, m);
    SpanFieldsConcat(name + m, OwnFields(InSpan(depth), prefix, span.own));
  }

  lemma {:induction false} ScopeKeys(prefix: Option<seq<byte>>, spans: seq<Span>)
    ensures AllSpanFields(ScopeFields(prefix, spans))
  {
    if spans == [] {
    } else {
      var n := |spans| - 1;
      ScopeKeys(prefix, spans[..n]);
      SpanKeys(n, prefix, spans[n]);
      SpanFieldsConcat(ScopeFields(prefix, spans[..n]), SpanFields(n, prefix, spans[n]));
    }
  }

  /** So whatever spans record, the entry's own items stay as they were. */
  lemma {:induction false} SpanFieldsLeaveItems(t: Text, fs: seq<Field>, e: Entry)
    requires AllSpanFields(fs)
    ensures LastLevel(fs, e.level) == e.level && LastLine(t, fs, e.codeLine) == e.codeLine
    ensures LastText(t, fs, TARGET, e.target) == e.target && LastText(t, fs, CODE_FILE, e.codeFile) == e.codeFile
    ensures LastText(t, fs, MESSAGE, e.message) == e.message
  {
    if fs == [] {
    } else {
      SpanFieldsLeaveItems(t, fs[..|fs| - 1], e);
    }
  }

  lemma ScopeIsApplied(t: Text, prefix: Option<seq<byte>>, spans: seq<Span>)
    requires AsciiIsText(t)
    ensures var r := ApplyAll(t, DEFAULT, ScopeFields(prefix, spans));
            r.Some? && r.value == DEFAULT.(debug := r.value.debug)
  {
    var fs := ScopeFields(prefix, spans);
    ScopeKeys(prefix, spans);
    StopsExactlyOnBadPriority(t, DEFAULT, fs);
    ItemsComeFromLastFields(t, DEFAULT, fs);
    SpanFieldsLeaveItems(t, fs, DEFAULT);
  }

  predicate TextMetadata(t: Text, meta: Metadata) {
    t.isUtf8(meta.target) && (meta.file.Some? ==> t.isUtf8(meta.file.value))
  }

  /** The entry after an event's metadata. */
  function WithMetadata(e: Entry, meta: Metadata): Entry {
    Entry(meta.level, meta.target,
          if meta.file.Some? then meta.file.value else e.codeFile,
          if meta.line.Some? then meta.line.value else e.codeLine,
          e.message, e.debug)
  }

  lemma LocationIsApplied(t: Text, e: Entry, meta: Metadata)
    requires AsciiIsText(t) && TextMetadata(t, meta) && StorableMeta(meta)
    ensures ApplyAll(t, e, LocationFields(meta, []))
            == Some(WithMetadata(e, meta).(level := e.level, target := e.target))
  {
    KeysAreText(t);
    assert [] + CODE_FILE == CODE_FILE && [] + CODE_LINE == CODE_LINE;
    var fs := if meta.file.Some? then [Field(CODE_FILE, meta.file.value)] else [];
    var gs := if meta.line.Some? then [Field(CODE_LINE, Decimal(meta.line.value))] else [];
    var e' := if meta.file.Some? then e.(codeFile := meta.file.value) else e;
    if meta.line.Some? {
      LineRoundTrip(meta.line.value);
      DecimalIsAscii(meta.line.value);
      ApplyAllStep(t, e', gs[0], []);
    }
    if meta.file.Some? {
      ApplyAllStep(t, e, fs[0], []);
    }
    ApplyAllConcat(t, e, fs, gs);
  }

  lemma MetadataIsApplied(t: Text, e: Entry, meta: Metadata)
    requires AsciiIsText(t) && TextMetadata(t, meta) && StorableMeta(meta)
    ensures ApplyAll(t, e, MetadataFields(meta, None)) == Some(WithMetadata(e, meta))
  {
    KeysAreText(t);
    LevelCodes(meta.level, 0);
    assert [] + TARGET == TARGET;
    var level, target := Field(PRIORITY, [RawLevel(meta.level)]), Field(TARGET, meta.target);
    var e' := e.(level := meta.level);
    LocationIsApplied(t, e'.(target := meta.target), meta);
    ApplyAllStep(t, e', target, LocationFields(meta, []));
    ApplyAllStep(t, e, level, [target] + LocationFields(meta, []));
    assert MetadataFields(meta, None) == [level] + ([target] + LocationFields(meta, []));
  }

  /** The entry an event is read back as, if the program does not stop. */
  function ReadBack(t: Text, prefix: Option<seq<byte>>, spans: seq<Span>, meta: Metadata, own: seq<Own>)
    : Option<Entry>
  {
    ApplyAll(t, DEFAULT, Parse(Records(EventFields(prefix, spans, meta, own))))
  }

  lemma OwnFieldsComeLast(t: Text, prefix: Option<seq<byte>>, spans: seq<Span>, meta: Metadata, own: seq<Own>)
    returns (e: Entry)
    requires AsciiIsText(t) && TextMetadata(t, meta) && Storable(prefix, spans, meta, own)
    ensures e == WithMetadata(DEFAULT, meta).(debug := e.debug)
    ensures ReadBack(t, prefix, spans, meta, own) == ApplyAll(t, e, OwnFields(InEvent, prefix, own))
  {
    var scope, m := ScopeFields(prefix, spans), MetadataFields(meta, None);
    EventIsWellFormed(prefix, spans, meta, own);
    RecordsRoundTrip(EventFields(prefix, spans, meta, own));
    ScopeIsApplied(t, prefix, spans);
    var e0 := ApplyAll(t, DEFAULT, scope).value;
    MetadataIsApplied(t, e0, meta);
    e := WithMetadata(e0, meta);
    ApplyAllConcat(t, DEFAULT, scope, m);
    ApplyAllConcat(t, DEFAULT, scope + m, OwnFields(InEvent, prefix, own));
  }

  lemma {:induction false} OwnFieldsLength(place: Place, prefix: Option<seq<byte>>, own: seq<Own>)
    ensures |OwnFields(place, prefix, own)| == |own|
  {
    if own == [] {
    } else {
      OwnFieldsLength(place, prefix, own[..|own| - 1]);
    }
  }

  lemma {:induction false} OwnFieldAt(place: Place, prefix: Option<seq<byte>>, own: seq<Own>, i: nat)
    requires i < |own| == |OwnFields(place, prefix, own)|
    ensures OwnFields(place, prefix, own)[i] == OwnField(place, prefix, own[i])
    decreases |own|
  {
    var n := |own| - 1;
    OwnFieldsLength(place, prefix, own[..n]);
    if i == n {
    } else {
      OwnFieldAt(place, prefix, own[..n], i);
    }
  }

  predicate StopsReader(prefix: Option<seq<byte>>, own: Own) {
    OwnKey(InEvent, prefix, own.name) == PRIORITY && |own.text| != 1
  }

  /** A program's own field is written like any other, so the host stops on an event
      exactly if a field of it is written under the key of the priority and its
      text is not one byte long. */
  lemma OwnPriorityFieldStopsReader(t: Text, prefix: Option<seq<byte>>, spans: seq<Span>, meta: Metadata,
                                    own: seq<Own>)
    requires AsciiIsText(t) && TextMetadata(t, meta) && Storable(prefix, spans, meta, own)
    ensures ReadBack(t, prefix, spans, meta, own).None? <==> exists i :: 0 <= i < |own| && StopsReader(prefix, own[i])
  {
    var e := OwnFieldsComeLast(t, prefix, spans, meta, own);
    var fs := OwnFields(InEvent, prefix, own);
    StopsExactlyOnBadPriority(t, e, fs);
    OwnFieldsLength(InEvent, prefix, own);
    forall i | 0 <= i < |own| ensures BadPriority(fs[i]) <==> StopsReader(prefix, own[i]) {
      OwnFieldAt(InEvent, prefix, own, i);
    }
  }

  lemma PriorityName()
    ensures Sanitized(LowerAscii(PRIORITY)) == PRIORITY
  {
    LowercaseNameHasKey(PRIORITY);
  }

  /** Many names are written under one key: underscores and dots in front are dropped. */
  lemma LeadingUnderscoreIsDropped(name: seq<byte>, c: byte)
    requires c == UNDERSCORE || c == DOT
    ensures Sanitized([c] + name) == Sanitized(name)
  {
    assert Undot([c] + name) == [UNDERSCORE] + Undot(name);
    assert ([UNDERSCORE] + Undot(name))[1..] == Undot(name);
  }

  /** Read back, an event's level, target, file, line and message are those of the
      last of its own fields with that key, and otherwise those of its metadata,
      whatever its spans wrote. */
  lemma EventComesBack(t: Text, prefix: Option<seq<byte>>, spans: seq<Span>, meta: Metadata, own: seq<Own>)
    requires AsciiIsText(t) && TextMetadata(t, meta) && Storable(prefix, spans, meta, own)
    requires forall i :: 0 <= i < |own| ==> !StopsReader(prefix, own[i])
    ensures var r := ReadBack(t, prefix, spans, meta, own);
            var fs := OwnFields(InEvent, prefix, own);
            && r.Some?
            && r.value.level == LastLevel(fs, meta.level)
            && r.value.target == LastText(t, fs, TARGET, meta.target)
            && r.value.codeFile == LastText(t, fs, CODE_FILE, if meta.file.Some? then meta.file.value else [])
            && r.value.codeLine == LastLine(t, fs, if meta.line.Some? then meta.line.value else 0)
            && r.value.message == LastText(t, fs, MESSAGE, [])
  {
    OwnPriorityFieldStopsReader(t, prefix, spans, meta, own);
    var e := OwnFieldsComeLast(t, prefix, spans, meta, own);
    ItemsComeFromLastFields(t, e, OwnFields(InEvent, prefix, own));
  }

  // ----- when the metadata comes back

  /** The metadata as an entry shows it: no file is an empty one, no line is zero. */
  predicate ShowsMetadata(e: Entry, meta: Metadata) {
    && e.level == meta.level
    && e.target == meta.target
    && e.codeFile == (if meta.file.Some? then meta.file.value else [])
    && e.codeLine == (if meta.line.Some? then meta.line.value else 0)
  }

  lemma {:induction false} OthersLeaveItems(t: Text, prefix: Option<seq<byte>>, own: seq<Own>, e: Entry)
    requires forall i :: 0 <= i < |own| ==> !IsReserved(OwnKey(InEvent, prefix, own[i].name))
    ensures var fs := OwnFields(InEvent, prefix, own);
            && LastLevel(fs, e.level) == e.level
            && LastText(t, fs, TARGET, e.target) == e.target
            && LastText(t, fs, CODE_FILE, e.codeFile) == e.codeFile
            && LastLine(t, fs, e.codeLine) == e.codeLine
  {
    if own == [] {
    } else {
      var n := |own| - 1;
      OthersLeaveItems(t, prefix, own[..n], e);
      var fs := OwnFields(InEvent, prefix, own);
      assert fs[..|fs| - 1] == OwnFields(InEvent, prefix, own[..n]);
    }
  }

  /** If no own field is written under a reserved key, the metadata comes back. */
  lemma MetadataComesBack(t: Text, prefix: Option<seq<byte>>, spans: seq<Span>, meta: Metadata, own: seq<Own>)
    requires AsciiIsText(t) && TextMetadata(t, meta) && Storable(prefix, spans, meta, own)
    requires forall i :: 0 <= i < |own| ==> !IsReserved(OwnKey(InEvent, prefix, own[i].name))
    ensures var r := ReadBack(t, prefix, spans, meta, own); r.Some? && ShowsMetadata(r.value, meta)
  {
    EventComesBack(t, prefix, spans, meta, own);
    OthersLeaveItems(t, prefix, own, WithMetadata(DEFAULT, meta));
  }

  const TARGET_NAME := LowerAscii(TARGET)
  const CODE: seq<byte> := CODE_FILE[..4]
  const FILE_NAME := LowerAscii(CODE_FILE[5..])

  lemma TargetName()
    ensures Sanitized(TARGET_NAME) == TARGET
  {
    LowercaseNameHasKey(TARGET);
  }

  lemma MessageName()
    ensures Sanitized(MESSAGE_NAME) == MESSAGE
  {
    LowercaseNameHasKey(MESSAGE);
  }

  lemma CodeFileName()
    ensures CODE + [UNDERSCORE] + Sanitized(FILE_NAME) == CODE_FILE
  {
    LowercaseNameHasKey(CODE_FILE[5..]);
  }

  /** It does not always come back: without a prefix, a last own field that is
      written under the key of the target takes its place, as one named "target" is. */
  lemma OwnTargetTakesOver(t: Text, spans: seq<Span>, meta: Metadata, own: seq<Own>, last: Own)
    requires AsciiIsText(t) && TextMetadata(t, meta) && Storable(None, spans, meta, own + [last])
    requires forall i :: 0 <= i < |own| ==> !StopsReader(None, own[i])
    requires Sanitized(last.name) == TARGET && t.isUtf8(last.text)
    ensures var r := ReadBack(t, None, spans, meta, own + [last]);
            r.Some? && r.value.target == last.text && (last.text != meta.target ==> !ShowsMetadata(r.value, meta))
    ensures Sanitized(TARGET_NAME) == TARGET
  {
    var all := own + [last];
    TargetName();
    assert [] + Sanitized(last.name) == TARGET;
    forall i | 0 <= i < |all| ensures !StopsReader(None, all[i]) {
      assert i < |own| ==> all[i] == own[i];
    }
    EventComesBack(t, None, spans, meta, all);
    assert all[..|own|] == own;
  }

  /** Only the word before an underscore in a reserved key can stand for a prefix. */
  lemma PrefixedKey(p: seq<byte>, s: seq<byte>)
    requires IsReserved(p + [UNDERSCORE] + s)
    ensures p == CODE
  {
    var key := p + [UNDERSCORE] + s;
    assert key[|p|] == UNDERSCORE && key[..|p|] == p;
    assert key == CODE_FILE || key == CODE_LINE;
    assert |p| == 4;
    assert CODE_FILE[..4] == CODE && CODE_LINE[..4] == CODE;
  }

  /** Exactly the layers with a field prefix other than "CODE" keep every name a
      program may choose away from the reserved keys. */
  lemma PrefixProtectsExactly(prefix: Option<seq<byte>>)
    ensures (forall name :: !IsReserved(OwnKey(InEvent, prefix, name))) <==> prefix.Some? && prefix.value != CODE
  {
    if prefix.None? {
      TargetName();
      assert [] + Sanitized(TARGET_NAME) == TARGET;
      assert IsReserved(OwnKey(InEvent, prefix, TARGET_NAME));
    } else if prefix.value == CODE {
      CodeFileName();
      assert IsReserved(OwnKey(InEvent, prefix, FILE_NAME));
    } else {
      forall name ensures !IsReserved(OwnKey(InEvent, prefix, name)) {
        if name == MESSAGE_NAME {
          MessageName();
          assert [] + Sanitized(name) == MESSAGE;
        } else if IsReserved(OwnKey(InEvent, prefix, name)) {
          PrefixedKey(prefix.value, Sanitized(name));
        }
      }
    }
  }

  // ----- what a span records

  lemma {:induction false} OwnFieldIsIn(place: Place, prefix: Option<seq<byte>>, own: seq<Own>, o: Own)
    requires o in own
    ensures OwnField(place, prefix, o) in OwnFields(place, prefix, own)
  {
    var n := |own| - 1;
    if own[n] == o {
    } else {
      assert own == own[..n] + [own[n]];
      OwnFieldIsIn(place, prefix, own[..n], o);
    }
  }

  lemma NameSuffixSpelled()
    ensures NAME_SUFFIX == Ascii("_NAME")
  {
  }

  /** Target, file and line are among the fields, under this prefix. */
  ghost predicate HoldsMetadata(fs: seq<Field>, meta: Metadata, p: seq<byte>) {
    && Field(p + TARGET, meta.target) in fs
    && (meta.file.Some? ==> Field(p + CODE_FILE, meta.file.value) in fs)
    && (meta.line.Some? ==> Field(p + CODE_LINE, Decimal(meta.line.value)) in fs)
  }

  function MetadataCount(meta: Metadata): nat {
    1 + (if meta.file.Some? then 1 else 0) + (if meta.line.Some? then 1 else 0)
  }

  lemma SpanMetadataHolds(meta: Metadata, depth: nat)
    ensures HoldsMetadata(MetadataFields(meta, Some(depth)), meta, [UPPER_S] + Decimal(depth) + [UNDERSCORE])
    ensures |MetadataFields(meta, Some(depth))| == MetadataCount(meta)
  {
  }

  lemma HoldsAmongOthers(before: seq<Field>, fs: seq<Field>, after: seq<Field>, meta: Metadata, p: seq<byte>)
    requires HoldsMetadata(fs, meta, p)
    ensures HoldsMetadata(before + fs + after, meta, p)
  {
  }

  /** A span records its name, its target, its file and line if known, and each of its
      own fields, all under its depth, and nothing else. */
  lemma SpanRecordsAll(depth: nat, prefix: Option<seq<byte>>, span: Span)
    ensures var fs := SpanFields(depth, prefix, span);
            && Field([UPPER_S] + Decimal(depth) + NAME_SUFFIX, span.name) in fs
            && HoldsMetadata(fs, span.meta, [UPPER_S] + Decimal(depth) + [UNDERSCORE])
            && (forall o :: o in span.own ==> OwnField(InSpan(depth), prefix, o) in fs)
            && |fs| == 1 + MetadataCount(span.meta) + |span.own|
  {
    var name := [Field([UPPER_S] + Decimal(depth) + NAME_SUFFIX, span.name)];
    var own := OwnFields(InSpan(depth), prefix, span.own);
    SpanMetadataHolds(span.meta, depth);
    HoldsAmongOthers(name, MetadataFields(span.meta, Some(depth)), own, span.meta,
                     [UPPER_S] + Decimal(depth) + [UNDERSCORE]);
    OwnFieldsLength(InSpan(depth), prefix, span.own);
    forall o | o in span.own ensures OwnField(InSpan(depth), prefix, o) in SpanFields(depth, prefix, span) {
      OwnFieldIsIn(InSpan(depth), prefix, span.own, o);
    }
  }

  // ----- fields of different spans

  lemma DecimalIsInjective(m: nat, n: nat)
    requires Decimal(m) == Decimal(n)
    ensures m == n
  {
    DecimalRoundTrip(m);
    DecimalRoundTrip(n);
  }

  lemma MiddleOf(a: byte, x: seq<byte>, y: seq<byte>, rest: seq<byte>)
    requires [a] + x + rest == [a] + y + rest
    ensures x == y
  {
    assert |x| == |y|;
    assert ([a] + x + rest)[1..1 + |x|] == x && ([a] + y + rest)[1..1 + |x|] == y;
  }

  /** What follows the depth in the key of a span's own field. */
  function KeyRest(prefix: Option<seq<byte>>, name: seq<byte>): seq<byte> {
    (if prefix.Some? then prefix.value else []) + [UNDERSCORE] + Sanitized(name)
  }

  lemma SpanKeyParts(depth: nat, prefix: Option<seq<byte>>, name: seq<byte>)
    ensures OwnKey(InSpan(depth), prefix, name) == [UPPER_S] + Decimal(depth) + KeyRest(prefix, name)
  {
  }

  predicate IsAscii(bs: seq<byte>) {
    forall i :: 0 <= i < |bs| ==> bs[i] < 128
  }

  ghost predicate LowersAscii(t: Text) {
    forall bs :: IsAscii(bs) ==> t.lower(bs) == LowerAscii(bs)
  }

  lemma LowerConcat(xs: seq<byte>, ys: seq<byte>)
    ensures LowerAscii(xs + ys) == LowerAscii(xs) + LowerAscii(ys)
  {
  }

  lemma LowerDigits(n: nat)
    ensures LowerAscii(Decimal(n)) == Decimal(n)
  {
    DecimalIsAscii(n);
  }

  lemma LowerThree(a: seq<byte>, x: seq<byte>, y: seq<byte>)
    ensures LowerAscii(a + x + y) == LowerAscii(a) + LowerAscii(x) + LowerAscii(y)
  {
    LowerConcat(a + x, y);
    LowerConcat(a, x);
  }

  lemma LowerSpanKey(depth: nat, prefix: Option<seq<byte>>, name: seq<byte>)
    ensures LowerAscii(OwnKey(InSpan(depth), prefix, name))
            == [UPPER_S + 32] + Decimal(depth) + LowerAscii(KeyRest(prefix, name))
  {
    SpanKeyParts(depth, prefix, name);
    LowerThree([UPPER_S], Decimal(depth), KeyRest(prefix, name));
    LowerDigits(depth);
    assert LowerAscii([UPPER_S]) == [UPPER_S + 32];
  }

  lemma SpanKeyIsAscii(depth: nat, prefix: Option<seq<byte>>, name: seq<byte>)
    requires prefix.Some? ==> IsAscii(prefix.value)
    ensures IsAscii(OwnKey(InSpan(depth), prefix, name))
  {
    SpanKeyParts(depth, prefix, name);
    DecimalIsAscii(depth);
    SanitizedIsClean(name);
    var s := Sanitized(name);
    assert forall i :: 0 <= i < |s| ==> s[i] in s;
    var d := Decimal(depth);
    assert forall i :: 0 <= i < |d| ==> d[i] in d;
  }

  /** Fields of one name in spans of different depth have different keys, as written and
      as the entry files them, so none takes the place of another. */
  lemma SpanKeysStayApart(t: Text, prefix: Option<seq<byte>>, name: seq<byte>, d: nat, e: nat)
    requires LowersAscii(t) && d != e && (prefix.Some? ==> IsAscii(prefix.value))
    ensures OwnKey(InSpan(d), prefix, name) != OwnKey(InSpan(e), prefix, name)
    ensures t.lower(OwnKey(InSpan(d), prefix, name)) != t.lower(OwnKey(InSpan(e), prefix, name))
  {
    LowerSpanKey(d, prefix, name);
    LowerSpanKey(e, prefix, name);
    SpanKeyIsAscii(d, prefix, name);
    SpanKeyIsAscii(e, prefix, name);
    var rest := LowerAscii(KeyRest(prefix, name));
    if [UPPER_S + 32] + Decimal(d) + rest == [UPPER_S + 32] + Decimal(e) + rest {
      MiddleOf(UPPER_S + 32, Decimal(d), Decimal(e), rest);
      DecimalIsInjective(d, e);
    }
  }
}
