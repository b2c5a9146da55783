/** Requests of the debugger: how the client writes them and how the debuggee reads them from the stream. */
module Protocol {
  import opened Cbor

  // ----- the client

  datatype Value = Num(n: nat) | Flag(on: bool)

  /** A field of a request: its key and its value. */
  datatype Field = Field(key: seq<Byte>, value: Value)

  const SIG: seq<Byte> := [0x73, 0x69, 0x67]
  const ADDR: seq<Byte> := [0x61, 0x64, 0x64, 0x72]
  const REG: seq<Byte> := [0x72, 0x65, 0x67]
  const VALUE: seq<Byte> := [0x76, 0x61, 0x6c, 0x75, 0x65]

  datatype Request =
    | Continue(sig: nat)
    | CreateBreakpoint(addr: nat)
    | InstallBreakpoint(addr: nat)
    | RemoveBreakpoint(addr: nat)
    | DeleteBreakpoint(addr: nat)
    | ReadRegister(reg: nat)
    | WriteRegister(reg: nat, value: nat)
    | SingleStep(on: bool)
    | State
    | Init
    | Suspend
    | Resume
    | NextInstruction

  /** The fields hold what their types in the client can hold. */
  predicate InRange(r: Request) {
    match r
    case Continue(sig) => sig < 0x1_0000_0000
    case CreateBreakpoint(a) => a < 0x1_0000_0000_0000_0000
    case InstallBreakpoint(a) => a < 0x1_0000_0000_0000_0000
    case RemoveBreakpoint(a) => a < 0x1_0000_0000_0000_0000
    case DeleteBreakpoint(a) => a < 0x1_0000_0000_0000_0000
    case ReadRegister(reg) => reg < 0x1_0000_0000
    case WriteRegister(reg, v) => reg < 0x1_0000_0000 && v < 0x1_0000_0000_0000_0000
    case _ => true
  }

  function TypeOf(r: Request): (t: nat) {
    match r
    case Continue(_) => 1
    case ReadRegister(_) => 4
    case WriteRegister(_, _) => 5
    case State => 6
    case Init => 7
    case CreateBreakpoint(_) => 8
    case InstallBreakpoint(_) => 9
    case RemoveBreakpoint(_) => 10
    case DeleteBreakpoint(_) => 11
    case Suspend => 12
    case Resume => 13
    case NextInstruction => 14
    case SingleStep(_) => 15
  }

  /** The fields of the structure that the client serializes. */
  function Fields(r: Request): (fs: seq<Field>) {
    match r
    case Continue(sig) => [Field(SIG, Num(sig))]
    case CreateBreakpoint(a) => [Field(ADDR, Num(a))]
    case InstallBreakpoint(a) => [Field(ADDR, Num(a))]
    case RemoveBreakpoint(a) => [Field(ADDR, Num(a))]
    case DeleteBreakpoint(a) => [Field(ADDR, Num(a))]
    case ReadRegister(reg) => [Field(REG, Num(reg))]
    case WriteRegister(reg, v) => [Field(REG, Num(reg)), Field(VALUE, Num(v))]
    case SingleStep(on) => [Field(VALUE, Flag(on))]
    case _ => []
  }

  // ----- the client's bytes

  function EncodeValue(v: Value): (b: seq<Byte>) {
    match v
    case Num(n) => Head(MAJOR_UINT, n)
    case Flag(on) => EncodeBool(on)
  }

  function EncodeFields(fs: seq<Field>): (b: seq<Byte>) {
    if fs == [] then [] else EncodeText(fs[0].key) + EncodeValue(fs[0].value) + EncodeFields(fs[1..])
  }

  /** The data map of a request, with its fields in a given order. */
  function EncodeMap(fs: seq<Field>): (b: seq<Byte>) {
    Head(MAJOR_MAP, |fs|) + EncodeFields(fs)
  }

  /** The bytes of a request with its fields in a given order: the type, and the map unless the request has no data. */
  function SerializeAs(r: Request, fs: seq<Field>): (b: seq<Byte>) {
    if fs == [] then Head(MAJOR_UINT, TypeOf(r)) else Head(MAJOR_UINT, TypeOf(r)) + EncodeMap(fs)
  }

  /** `serialize`. */
  function Serialize(r: Request): (b: seq<Byte>) {
    SerializeAs(r, Fields(r))
  }

  /** Where the client sends a request: at the start, to the process, or to one of its threads. */
  datatype End = Handshake | ToProcess | ToThread

  function EndOf(r: Request): (e: End) {
    if r.Init? then Handshake
    else if r.ReadRegister? || r.WriteRegister? || r.Suspend? || r.Resume? || r.NextInstruction? || r.SingleStep? then ToThread
    else ToProcess
  }

  // ----- the handlers of the debuggee

  datatype Handler =
    | InvalidHandler
    | ContinueHandler
    | MemoryHandler
    | ReadRegisterHandler
    | WriteRegisterHandler
    | StateHandler
    | InitHandler
    | CreateHandler
    | InstallHandler
    | RemoveHandler
    | DeleteHandler
    | SuspendHandler
    | ResumeHandler
    | NextInstructionHandler
    | SingleStepHandler

  /** `request_handlers`. */
  const REQUEST_HANDLERS: seq<Handler> :=
    [InvalidHandler, ContinueHandler, MemoryHandler, MemoryHandler, InvalidHandler, InvalidHandler, StateHandler, InvalidHandler,
     CreateHandler, InstallHandler, RemoveHandler, DeleteHandler, InvalidHandler, InvalidHandler, InvalidHandler, InvalidHandler]

  /** `thr_request_handlers`. */
  const THREAD_HANDLERS: seq<Handler> :=
    [InvalidHandler, InvalidHandler, InvalidHandler, InvalidHandler, ReadRegisterHandler, WriteRegisterHandler, StateHandler,
     InvalidHandler, InvalidHandler, InvalidHandler, InvalidHandler, InvalidHandler, SuspendHandler, ResumeHandler,
     NextInstructionHandler, SingleStepHandler]

  /** The handler for a number received; there is none past the end of a table. */
  function HandlerFor(e: End, t: nat): (h: Handler) {
    match e
    case Handshake => if t == 7 then InitHandler else InvalidHandler
    case ToProcess => if t < |REQUEST_HANDLERS| then REQUEST_HANDLERS[t] else InvalidHandler
    case ToThread => if t < |THREAD_HANDLERS| then THREAD_HANDLERS[t] else InvalidHandler
  }

  /** What the debuggee expects under a key: numbers of certain widths, or a boolean. */
  datatype Entry = Entry(key: seq<Byte>, widths: set<Width>, flag: bool)

  const ALL: set<Width> := {W8, W16, W32, W64}

  /** The items that a handler reads. */
  function ConfigOf(h: Handler): (c: seq<Entry>) {
    match h
    case ContinueHandler => [Entry(SIG, {W8, W16, W32}, false)]
    case CreateHandler => [Entry(ADDR, ALL, false)]
    case InstallHandler => [Entry(ADDR, ALL, false)]
    case RemoveHandler => [Entry(ADDR, ALL, false)]
    case DeleteHandler => [Entry(ADDR, ALL, false)]
    case ReadRegisterHandler => [Entry(REG, {W8, W16}, false)]
    case WriteRegisterHandler => [Entry(REG, {W8, W16}, false), Entry(VALUE, ALL, false)]
    case SingleStepHandler => [Entry(VALUE, {}, true)]
    case _ => []
  }

  /** The number stored for an item; the structure is zeroed before it is filled. */
  function NumAt(data: map<nat, Value>, i: nat): (n: nat) {
    if i in data && data[i].Num? then data[i].n else 0
  }

  predicate FlagAt(data: map<nat, Value>, i: nat) {
    i in data && data[i].Flag? && data[i].on
  }

  predicate Serves(h: Handler) {
    !h.InvalidHandler? && !h.MemoryHandler?
  }

  /** What a handler is asked to do by the data it has read. */
  function RequestOf(h: Handler, data: map<nat, Value>): (r: Request)
    requires Serves(h)
  {
    match h
    case ContinueHandler => Continue(NumAt(data, 0))
    case CreateHandler => CreateBreakpoint(NumAt(data, 0))
    case InstallHandler => InstallBreakpoint(NumAt(data, 0))
    case RemoveHandler => RemoveBreakpoint(NumAt(data, 0))
    case DeleteHandler => DeleteBreakpoint(NumAt(data, 0))
    case ReadRegisterHandler => ReadRegister(NumAt(data, 0))
    case WriteRegisterHandler => WriteRegister(NumAt(data, 0), NumAt(data, 1))
    case SingleStepHandler => SingleStep(FlagAt(data, 0))
    case StateHandler => State
    case InitHandler => Init
    case SuspendHandler => Suspend
    case ResumeHandler => Resume
    case NextInstructionHandler => NextInstruction
  }

  // ----- the reader of the debuggee

  const NO_ITEM := -1

  /** `req_data_state` with the flag that ends the reading. */
  datatype Reader = Reader(current: int, count: nat, error: bool, done: bool, data: map<nat, Value>)

  const START := Reader(NO_ITEM, 0, false, false, map[])

  /** `strncmp(data, key, |data|) == 0`: the data is a start of the key, or goes on after the key with a zero byte. */
  predicate KeyMatches(data: seq<Byte>, key: seq<Byte>) {
    if |data| <= |key| then data == key[..|data|] else data[..|key|] == key && data[|key|] == 0
  }

  /** The first entry that matches, or NO_ITEM. */
  function FindEntry(config: seq<Entry>, data: seq<Byte>, i: nat): (r: int)
    requires i <= |config|
    ensures r == NO_ITEM || i <= r < |config|
    decreases |config| - i
  {
    if i == |config| then NO_ITEM else if KeyMatches(data, config[i].key) then i else FindEntry(config, data, i + 1)
  }

  predicate Accepts(e: Entry, token: Token) {
    (token.UInt? && token.width in e.widths) || (token.Bool? && e.flag)
  }

  function ValueOf(token: Token): (v: Value)
    requires token.UInt? || token.Bool?
  {
    if token.UInt? then Num(token.value) else Flag(token.on)
  }

  /** `set_invalid_error`: reading ends with an error. */
  function Invalid(st: Reader): (st': Reader) {
    st.(error := true, done := true)
  }

  /** `complete_item`. */
  function Complete(config: seq<Entry>, st: Reader, v: Value): (st': Reader)
    requires st.current >= 0
  {
    st.(current := NO_ITEM, count := st.count + 1, done := st.done || st.count + 1 >= |config|,
        data := st.data[st.current := v])
  }

  /** The callbacks of `read_request_data` for one item. */
  function Feed(config: seq<Entry>, st: Reader, token: Token): (st': Reader) {
    if st.error then st
    else if token.MapStart? && st.current == NO_ITEM then (if token.size == |config| then st else st.(error := true))
    else if token.Text? && st.current == NO_ITEM then
      var i := FindEntry(config, token.text, 0);
      if i == NO_ITEM then st.(error := true) else st.(current := i)
    else if 0 <= st.current < |config| && Accepts(config[st.current], token) then Complete(config, st, ValueOf(token))
    else Invalid(st)
  }

  /** Items until the reader is done; how many bytes they take, and whether the stream held out. */
  datatype Outcome = Outcome(st: Reader, used: nat, ok: bool)

  function ReadAll(config: seq<Entry>, st: Reader, input: seq<Byte>): (o: Outcome)
    decreases |input|
  {
    var d := DecodeItem(input);
    if !d.Finished? then Outcome(st, 0, false)
    else
      var st1 := Feed(config, st, d.token);
      if st1.done then Outcome(st1, d.length, true)
      else
        var o := ReadAll(config, st1, input[d.length..]);
        Outcome(o.st, d.length + o.used, o.ok)
  }

  /**
   * One item of `read_cbor_items`: reads a byte, then as many more as the decoder asks for, until the item is complete.
   * It reads exactly the bytes of the item.
   */
  method ReadItem(input: seq<Byte>, base: nat) returns (d: Decoded, pos: nat)
    requires base <= |input|
    ensures d.Finished? <==> DecodeItem(input[base..]).Finished?
    ensures d.Finished? ==> d == DecodeItem(input[base..]) && pos == base + d.length <= |input|
  {
    hide DecodeItem;
    ghost var b := input[base..];
    var bufIdx, bufLen := 0, 1;
    pos := base;
    while true
      invariant 0 <= bufIdx < bufLen && pos == base + bufIdx <= |input|
      invariant bufIdx > 0 ==> DecodeItem(b[..bufIdx]) == Need(bufLen)
      invariant bufIdx == 0 ==> bufLen == 1
      decreases |input| - pos
    {
      if pos + (bufLen - bufIdx) > |input| {
        ShortItem(b, bufIdx, bufLen);
        return Malformed, pos;
      }
      ghost var k := bufIdx;
      pos := pos + (bufLen - bufIdx);
      bufIdx := bufLen;
      var buffer := input[pos - bufLen..pos];
      assert buffer == b[..bufLen];
      WholeItem(b, bufLen);
      d := DecodeItem(buffer);
      match d {
        case Malformed =>
          return;
        case Need(total) =>
          bufLen := total;
        case Finished(length, token) =>
          ExactItem(b, k, bufLen);
          return;
      }
    }
  }

  /** `read_cbor_items`: items until the callbacks are done, and not a byte more. */
  method ReadItems(config: seq<Entry>, input: seq<Byte>) returns (st: Reader, pos: nat, ok: bool)
    ensures ok == ReadAll(config, START, input).ok
    ensures ok ==> st == ReadAll(config, START, input).st && pos == ReadAll(config, START, input).used
  {
    hide Feed, DecodeItem;
    st, pos, ok := START, 0, true;
    assert input[0..] == input;
    while !st.done
      invariant pos <= |input| && ok
      invariant st.done ==> ReadAll(config, START, input) == Outcome(st, pos, true)
      invariant !st.done ==>
                  var o := ReadAll(config, st, input[pos..]);
                  ReadAll(config, START, input) == Outcome(o.st, pos + o.used, o.ok)
      decreases !st.done, |input| - pos
    {
      var d, next := ReadItem(input, pos);
      if !d.Finished? {
        ok := false;
        break;
      }
      assert input[pos..][d.length..] == input[next..];
      ItemLength(input[pos..]);
      st := Feed(config, st, d.token);
      pos := next;
    }
  }

  lemma ItemLength(b: seq<Byte>)
    ensures DecodeItem(b).Finished? ==> 0 < DecodeItem(b).length <= |b|
  {
  }

  /** The bytes asked for are just those of the item. */
  lemma ExactItem(b: seq<Byte>, k: nat, n: nat)
    requires 0 < n <= |b| && k < n && DecodeItem(b[..n]).Finished?
    requires (k > 0 ==> DecodeItem(b[..k]) == Need(n)) && (k == 0 ==> n == 1)
    ensures DecodeItem(b[..n]).length == n
  {
    hide DecodeItem;
    var c := b[..n];
    ItemLength(c);
    if k > 0 {
      assert c[..k] == b[..k];
      PrefixStable(c, k);
    }
  }

  /** When the stream ends before the bytes asked for, the rest of it holds no item. */
  lemma ShortItem(b: seq<Byte>, k: nat, n: nat)
    requires k < n && k <= |b| < n && (k > 0 ==> DecodeItem(b[..k]) == Need(n)) && (k == 0 ==> n == 1)
    ensures !DecodeItem(b).Finished?
  {
    if DecodeItem(b).Finished? && k > 0 {
      PrefixStable(b, k);
    }
  }

  /** The decoder sees the whole rest of the stream as it sees the part read so far. */
  lemma WholeItem(b: seq<Byte>, n: nat)
    requires 0 < n <= |b|
    ensures DecodeItem(b[..n]).Finished? ==> DecodeItem(b) == DecodeItem(b[..n])
    ensures DecodeItem(b[..n]).Malformed? ==> !DecodeItem(b).Finished?
  {
    if DecodeItem(b).Finished? {
      PrefixStable(b, n);
    }
    if DecodeItem(b[..n]).Finished? {
      FinishedGrows(b, n);
    }
  }

  lemma ArgGrows(b: seq<Byte>, n: nat, major: nat, ai: nat)
    requires 0 < n <= |b| && DecodeArg(b[..n], major, ai).Finished?
    ensures DecodeArg(b, major, ai) == DecodeArg(b[..n], major, ai)
  {
    var h := 1 + ArgBytes(ai);
    ArgumentOfPrefix(b, n, ai);
    var v := Argument(b, ai);
    if h + v <= n {
      SliceOfPrefix(b, n, h, h + v);
    }
  }

  lemma FinishedGrows(b: seq<Byte>, n: nat)
    requires 0 < n <= |b| && DecodeItem(b[..n]).Finished?
    ensures DecodeItem(b) == DecodeItem(b[..n])
  {
    hide DecodeArg;
    var major, ai := b[0] / 32, b[0] % 32;
    if major != 7 && ai < 28 {
      ArgGrows(b, n, major, ai);
    }
  }

  // ----- reading back a map of fields

  /** The number or boolean is one that the entry takes. */
  predicate Takes(e: Entry, v: Value) {
    match v
    case Num(n) => WidthOf(n) in e.widths && n < 0x1_0000_0000_0000_0000
    case Flag(on) => e.flag
  }

  /** The key is found, and its entry takes the value. */
  predicate Fits(config: seq<Entry>, f: Field) {
    |f.key| < 0x100 && var i := FindEntry(config, f.key, 0); i != NO_ITEM && Takes(config[i], f.value)
  }

  lemma ReadOne(config: seq<Entry>, st: Reader, b: seq<Byte>, rest: seq<Byte>, token: Token)
    requires DecodeItem(b + rest) == Finished(|b|, token)
    ensures var st1 := Feed(config, st, token);
      var o := ReadAll(config, st1, rest);
      ReadAll(config, st, b + rest) == if st1.done then Outcome(st1, |b|, true) else Outcome(o.st, |b| + o.used, o.ok)
  {
    hide DecodeItem, Feed;
    assert (b + rest)[|b|..] == rest;
  }

  function TokenOf(v: Value): (t: Token) {
    match v
    case Num(n) => UInt(WidthOf(n), n)
    case Flag(on) => Bool(on)
  }

  lemma ValueRead(e: Entry, v: Value, rest: seq<Byte>)
    requires v.Num? ==> v.n < 0x1_0000_0000_0000_0000
    ensures DecodeItem(EncodeValue(v) + rest) == Finished(|EncodeValue(v)|, TokenOf(v))
    ensures Takes(e, v) ==> Accepts(e, TokenOf(v)) && ValueOf(TokenOf(v)) == v
    ensures v.Num? && WidthOf(v.n) !in e.widths ==> !Accepts(e, TokenOf(v))
  {
    hide DecodeItem, Head;
    match v
    case Num(n) => UIntRead(n, rest);
    case Flag(on) => BoolRead(on, rest);
  }

  /** One key and its value, read by a reader between items. */
  lemma FieldRead(config: seq<Entry>, st: Reader, f: Field, rest: seq<Byte>)
    requires Fits(config, f) && st.current == NO_ITEM && !st.error && !st.done
    ensures var b := EncodeText(f.key) + EncodeValue(f.value);
      var st1 := Complete(config, st.(current := FindEntry(config, f.key, 0)), f.value);
      var o := ReadAll(config, st1, rest);
      ReadAll(config, st, b + rest) == if st1.done then Outcome(st1, |b|, true) else Outcome(o.st, |b| + o.used, o.ok)
  {
    hide ReadAll, DecodeItem, EncodeText, EncodeValue, FindEntry;
    var k, v, i := EncodeText(f.key), EncodeValue(f.value), FindEntry(config, f.key, 0);
    assert k + v + rest == k + (v + rest);
    TextRead(f.key, v + rest);
    ReadOne(config, st, k, v + rest, Text(f.key));
    ValueRead(config[i], f.value, rest);
    ReadOne(config, st.(current := i), v, rest, TokenOf(f.value));
  }

  predicate Fitting(config: seq<Entry>, fs: seq<Field>) {
    forall f :: f in fs ==> Fits(config, f)
  }

  /** The data that the fields stand for. */
  function DataOf(config: seq<Entry>, fs: seq<Field>): (m: map<nat, Value>)
    requires Fitting(config, fs)
  {
    if fs == [] then map[]
    else
      var f := fs[|fs| - 1];
      assert Fits(config, f);
      DataOf(config, fs[..|fs| - 1])[FindEntry(config, f.key, 0) := f.value]
  }

  lemma DataSnoc(config: seq<Entry>, fs: seq<Field>, f: Field)
    requires Fitting(config, fs) && Fits(config, f)
    ensures Fitting(config, fs + [f])
    ensures DataOf(config, fs + [f]) == DataOf(config, fs)[FindEntry(config, f.key, 0) := f.value]
  {
    hide Fits;
    assert (fs + [f])[..|fs|] == fs;
  }

  /** The fields that remain complete the data of those read. */
  lemma {:induction false} FieldsRead(config: seq<Entry>, done: seq<Field>, fs: seq<Field>, rest: seq<Byte>)
    requires Fitting(config, done) && Fitting(config, fs)
    requires |done| + |fs| == |config| && |fs| > 0
    ensures Fitting(config, done + fs)
    ensures var st := Reader(NO_ITEM, |done|, false, false, DataOf(config, done));
      var b := EncodeFields(fs);
      ReadAll(config, st, b + rest) == Outcome(Reader(NO_ITEM, |config|, false, true, DataOf(config, done + fs)), |b|, true)
    decreases |fs|
  {
    hide ReadAll, EncodeText, EncodeValue, Fits, DataOf;
    var st := Reader(NO_ITEM, |done|, false, false, DataOf(config, done));
    var f, fs' := fs[0], fs[1..];
    var b, b' := EncodeText(f.key) + EncodeValue(f.value), EncodeFields(fs');
    assert EncodeFields(fs) + rest == b + (b' + rest);
    FieldRead(config, st, f, b' + rest);
    var done' := done + [f];
    DataSnoc(config, done, f);
    if fs' == [] {
      assert done + fs == done';
    } else {
      assert done + fs == done' + fs';
      FieldsRead(config, done', fs', rest);
    }
  }

  /**
   * A map of all the expected fields, in any order, is read back field by field, from exactly its own bytes.
   */
  lemma MapRoundTrip(config: seq<Entry>, fs: seq<Field>, rest: seq<Byte>)
    requires Fitting(config, fs) && 0 < |fs| == |config| < 0x100
    ensures var b := EncodeMap(fs);
      ReadAll(config, START, b + rest) == Outcome(Reader(NO_ITEM, |config|, false, true, DataOf(config, fs)), |b|, true)
  {
    hide ReadAll, EncodeFields, Head, DecodeItem, Fits;
    var h, b := Head(MAJOR_MAP, |fs|), EncodeFields(fs);
    assert EncodeMap(fs) + rest == h + (b + rest);
    MapRead(|fs|, b + rest);
    ReadOne(config, START, h, b + rest, MapStart(|fs|));
    FieldsRead(config, [], fs, rest);
    assert [] + fs == fs;
  }

  // ----- wrong maps

  /** After an error that does not end the reading, every further item is read and dropped. */
  lemma {:induction false} ErrorReadsOn(config: seq<Entry>, st: Reader, input: seq<Byte>)
    requires st.error && !st.done
    ensures !ReadAll(config, st, input).ok
    decreases |input|
  {
    hide DecodeItem;
    ItemLength(input);
    if DecodeItem(input).Finished? {
      ErrorReadsOn(config, st, input[DecodeItem(input).length..]);
    }
  }

  /** A data map is answered only if it has the expected number of items: otherwise the reader takes the stream to its end. */
  lemma WrongSizeReadsOn(config: seq<Entry>, n: nat, rest: seq<Byte>)
    requires n < 0x1_0000_0000_0000_0000 && n != |config|
    ensures !ReadAll(config, START, Head(MAJOR_MAP, n) + rest).ok
  {
    hide DecodeItem, Head, ReadAll;
    MapRead(n, rest);
    ReadOne(config, START, Head(MAJOR_MAP, n), rest, MapStart(n));
    ErrorReadsOn(config, START.(error := true), rest);
  }

  /** The same happens after a key that matches no entry. */
  lemma UnknownKeyReadsOn(config: seq<Entry>, key: seq<Byte>, rest: seq<Byte>)
    requires |config| < 0x100 && |key| < 0x100 && FindEntry(config, key, 0) == NO_ITEM
    ensures !ReadAll(config, START, Head(MAJOR_MAP, |config|) + (EncodeText(key) + rest)).ok
  {
    hide DecodeItem, Head, ReadAll, EncodeText, FindEntry;
    MapRead(|config|, EncodeText(key) + rest);
    ReadOne(config, START, Head(MAJOR_MAP, |config|), EncodeText(key) + rest, MapStart(|config|));
    TextRead(key, rest);
    ReadOne(config, START, EncodeText(key), rest, Text(key));
    ErrorReadsOn(config, START.(error := true), rest);
  }

  /** After a key, an item of any kind that its entry does not take ends the reading with an error, right behind that item. */
  lemma WrongValueEnds(config: seq<Entry>, key: seq<Byte>, item: seq<Byte>, token: Token, rest: seq<Byte>)
    requires |config| < 0x100 && |key| < 0x100 && FindEntry(config, key, 0) != NO_ITEM
    requires DecodeItem(item + rest) == Finished(|item|, token) && !Accepts(config[FindEntry(config, key, 0)], token)
    ensures var h, k := Head(MAJOR_MAP, |config|), EncodeText(key);
            var o := ReadAll(config, START, h + (k + (item + rest)));
            o.ok && o.st.error && o.used == |h| + |k| + |item|
  {
    hide DecodeItem, Head, ReadAll, EncodeText, FindEntry, Accepts;
    var h, k, i := Head(MAJOR_MAP, |config|), EncodeText(key), FindEntry(config, key, 0);
    MapRead(|config|, k + (item + rest));
    ReadOne(config, START, h, k + (item + rest), MapStart(|config|));
    TextRead(key, item + rest);
    ReadOne(config, START, k, item + rest, Text(key));
    ReadOne(config, START.(current := i), item, rest, token);
  }

  // ----- whole requests

  datatype Received = Received(request: Request, used: nat) | Rejected

  /** `read_request_type`, the handler for the number, and the data that the handler reads. */
  function ReadRequest(e: End, input: seq<Byte>): (r: Received) {
    var d := DecodeItem(input);
    if !d.Finished? || !d.token.UInt? || (d.token.width != W8 && d.token.width != W16) then Rejected
    else
      var h := HandlerFor(e, d.token.value);
      if !Serves(h) then Rejected
      else if ConfigOf(h) == [] then Received(RequestOf(h, map[]), d.length)
      else
        var o := ReadAll(ConfigOf(h), START, input[d.length..]);
        if o.ok && !o.st.error then Received(RequestOf(h, o.st.data), d.length + o.used) else Rejected
  }

  /** The registers fit the two widths that the debuggee accepts. */
  predicate RegisterFits(r: Request) {
    (r.ReadRegister? || r.WriteRegister?) ==> r.reg < 0x1_0000
  }

  /** The handler of a request. */
  function HandlerOf(r: Request): (h: Handler) {
    HandlerFor(EndOf(r), TypeOf(r))
  }

  /** A key is the key of an entry exactly where it is found. */
  lemma KeysFound(h: Handler)
    ensures var c := ConfigOf(h); |c| <= 2 && forall i :: 0 <= i < |c| ==> FindEntry(c, c[i].key, 0) == i && |c[i].key| < 0x100
  {
    assert SIG[..3] == SIG && ADDR[..4] == ADDR && REG[..3] == REG && VALUE[..5] == VALUE;
    if h.WriteRegisterHandler? {
      var c := ConfigOf(h);
      assert FindEntry(c, c[0].key, 0) == 0;
      assert !KeyMatches(VALUE, REG) by {
        assert VALUE[..3][0] != REG[0];
      }
      assert FindEntry(c, c[1].key, 1) == 1;
    }
  }

  /** The client's fields are those its handler reads, in the same order. */
  lemma FieldsOrder(r: Request)
    ensures var c, fs := ConfigOf(HandlerOf(r)), Fields(r);
      Serves(HandlerOf(r)) && |fs| == |c| <= 2 && forall i :: 0 <= i < |fs| ==> fs[i].key == c[i].key
    ensures TypeOf(r) < 16
  {
  }

  lemma ValuesFit(r: Request, i: nat)
    requires InRange(r) && RegisterFits(r) && i < |Fields(r)| && |Fields(r)| == |ConfigOf(HandlerOf(r))|
    ensures Takes(ConfigOf(HandlerOf(r))[i], Fields(r)[i].value)
  {
  }

  lemma FieldsFit(r: Request)
    requires InRange(r) && RegisterFits(r)
    ensures Fitting(ConfigOf(HandlerOf(r)), Fields(r)) && |Fields(r)| == |ConfigOf(HandlerOf(r))| <= 2
  {
    hide ConfigOf, Fields, HandlerOf, Takes, InRange, RegisterFits, FindEntry;
    var c, fs := ConfigOf(HandlerOf(r)), Fields(r);
    FieldsOrder(r);
    KeysFound(HandlerOf(r));
    forall f | f in fs
      ensures Fits(c, f)
    {
      var i :| 0 <= i < |fs| && fs[i] == f;
      ValuesFit(r, i);
    }
  }

  lemma TypeRead(t: nat, rest: seq<Byte>)
    requires t < 16
    ensures DecodeItem(Head(MAJOR_UINT, t) + rest) == Finished(|Head(MAJOR_UINT, t)|, UInt(W8, t))
  {
    UIntRead(t, rest);
  }

  /** The data of the fields, position by position. */
  lemma DataAt(config: seq<Entry>, fs: seq<Field>)
    requires Fitting(config, fs) && |fs| <= 2
    requires forall i :: 0 <= i < |fs| ==> FindEntry(config, fs[i].key, 0) == i
    ensures forall i :: 0 <= i < |fs| ==> i in DataOf(config, fs) && DataOf(config, fs)[i] == fs[i].value
  {
    hide Fits, FindEntry;
    if |fs| > 0 {
      assert fs[..|fs| - 1][..0] == [];
    }
  }

  /** The handler understands the fields of a request as that request. */
  lemma Understood(r: Request, data: map<nat, Value>)
    requires Serves(HandlerOf(r)) && forall i :: 0 <= i < |Fields(r)| ==> i in data && data[i] == Fields(r)[i].value
    ensures RequestOf(HandlerOf(r), data) == r
  {
  }

  /**
   * Every request is received as it was sent: the handler that its number selects is asked to do just that request, from
   * exactly its own bytes, whatever follows in the stream and in whatever order the fields come.
   */
  lemma RequestRoundTrip(r: Request, fs: seq<Field>, rest: seq<Byte>)
    requires InRange(r) && RegisterFits(r) && multiset(fs) == multiset(Fields(r))
    ensures ReadRequest(EndOf(r), SerializeAs(r, fs) + rest) == Received(r, |SerializeAs(r, fs)|)
  {
    hide *;
    var h := HandlerOf(r);
    var c := ConfigOf(h);
    FieldsOrder(r);
    FieldsFit(r);
    KeysFound(h);
    DataAt(c, Fields(r));
    Understood(r, DataOf(c, Fields(r)));
    SameFields(c, Fields(r), fs);
    HandlerMeaning(r);
    if fs == [] {
      DataNone(c);
      EmptyRoundTrip(r, rest);
    } else {
      MapRoundTrip(c, fs, rest);
      DataRoundTrip(r, fs, rest);
    }
  }

  lemma HandlerMeaning(r: Request)
    ensures HandlerOf(r) == HandlerFor(EndOf(r), TypeOf(r))
  {
  }

  lemma DataNone(config: seq<Entry>)
    ensures Fitting(config, []) && DataOf(config, []) == map[]
  {
  }

  lemma EmptyRoundTrip(r: Request, rest: seq<Byte>)
    requires Serves(HandlerOf(r)) && TypeOf(r) < 16 && ConfigOf(HandlerOf(r)) == [] && RequestOf(HandlerOf(r), map[]) == r
    ensures ReadRequest(EndOf(r), SerializeAs(r, []) + rest) == Received(r, |SerializeAs(r, [])|)
  {
    hide DecodeItem, Head, ReadAll, TypeOf, EndOf, HandlerFor, RequestOf, ConfigOf, Serves;
    TypeRead(TypeOf(r), rest);
  }

  lemma DataRoundTrip(r: Request, fs: seq<Field>, rest: seq<Byte>)
    requires |fs| > 0 && Serves(HandlerOf(r)) && TypeOf(r) < 16 && ConfigOf(HandlerOf(r)) != []
    requires Fitting(ConfigOf(HandlerOf(r)), fs)
    requires var b, c := EncodeMap(fs), ConfigOf(HandlerOf(r));
             && RequestOf(HandlerOf(r), DataOf(c, fs)) == r
             && ReadAll(c, START, b + rest) == Outcome(Reader(NO_ITEM, |c|, false, true, DataOf(c, fs)), |b|, true)
    ensures ReadRequest(EndOf(r), SerializeAs(r, fs) + rest) == Received(r, |SerializeAs(r, fs)|)
  {
    hide DecodeItem, Head, ReadAll, EncodeMap, ConfigOf, DataOf, TypeOf, EndOf, HandlerFor, RequestOf, Serves, Fitting;
    var t := TypeOf(r);
    var h, b := Head(MAJOR_UINT, t), EncodeMap(fs);
    assert SerializeAs(r, fs) + rest == h + (b + rest);
    TypeRead(t, b + rest);
    assert (h + (b + rest))[|h|..] == b + rest;
  }

  lemma OneField(fs: seq<Field>, a: Field)
    requires multiset(fs) == multiset([a])
    ensures fs == [a]
  {
    assert |fs| == |multiset(fs)| == |multiset([a])| == 1;
    assert fs[0] in multiset(fs);
  }

  lemma TwoFields(fs: seq<Field>, a: Field, b: Field)
    requires multiset(fs) == multiset([a, b]) && a != b
    ensures fs == [a, b] || fs == [b, a]
  {
    assert |fs| == |multiset(fs)| == |multiset([a, b])| == 2;
    assert fs[0] in multiset(fs) && fs[1] in multiset(fs);
    assert a in multiset(fs) && b in multiset(fs);
  }

  lemma TwoData(config: seq<Entry>, a: Field, b: Field)
    requires Fits(config, a) && Fits(config, b) && FindEntry(config, a.key, 0) != FindEntry(config, b.key, 0)
    ensures Fitting(config, [a, b]) && Fitting(config, [b, a]) && DataOf(config, [a, b]) == DataOf(config, [b, a])
  {
    hide Fits, FindEntry;
    assert [b, a][..1] == [b] && [a, b][..1] == [a] && [a][..0] == [] && [b][..0] == [];
  }

  /** Another order of the fields is the same data. */
  lemma SameFields(config: seq<Entry>, gs: seq<Field>, fs: seq<Field>)
    requires Fitting(config, gs) && multiset(fs) == multiset(gs) && |gs| <= 2
    requires forall i :: 0 <= i < |gs| ==> FindEntry(config, gs[i].key, 0) == i
    ensures Fitting(config, fs) && |fs| == |gs| && DataOf(config, fs) == DataOf(config, gs)
  {
    hide Fits, FindEntry, DataOf;
    assert |fs| == |multiset(fs)| == |multiset(gs)| == |gs|;
    if |gs| == 2 {
      assert gs == [gs[0], gs[1]];
      TwoFields(fs, gs[0], gs[1]);
      TwoData(config, gs[0], gs[1]);
    } else if |gs| == 1 {
      assert gs == [gs[0]];
      OneField(fs, gs[0]);
    } else {
      assert fs == gs;
    }
  }

  /** The fields with each key cut down to its first `n` characters. */
  function Abbreviated(fs: seq<Field>, n: nat): (gs: seq<Field>)
    ensures |gs| == |fs|
    ensures forall i :: 0 <= i < |fs| ==>
              gs[i] == Field(if n < |fs[i].key| then fs[i].key[..n] else fs[i].key, fs[i].value)
  {
    if fs == [] then []
    else [Field(if n < |fs[0].key| then fs[0].key[..n] else fs[0].key, fs[0].value)] + Abbreviated(fs[1..], n)
  }

  lemma ShortKeys(h: Handler, i: nat, n: nat)
    requires n > 0 && i < |ConfigOf(h)|
    ensures var c := ConfigOf(h); FindEntry(c, if n < |c[i].key| then c[i].key[..n] else c[i].key, 0) == i
  {
    hide FindEntry, KeyMatches;
    KeysFound(h);
    var c := ConfigOf(h);
    var k := if n < |c[i].key| then c[i].key[..n] else c[i].key;
    PrefixMatches(k, c[i].key);
    if i == 1 {
      assert k[0] == VALUE[0];
      OtherMatches(k, REG);
      FindSecond(c, k);
    } else {
      FindFirst(c, k);
    }
  }

  lemma PrefixMatches(k: seq<Byte>, key: seq<Byte>)
    requires k <= key
    ensures KeyMatches(k, key)
  {
  }

  lemma OtherMatches(k: seq<Byte>, key: seq<Byte>)
    requires |k| > 0 && |key| > 0 && k[0] != key[0]
    ensures !KeyMatches(k, key)
  {
    if |k| <= |key| {
      assert key[..|k|][0] == key[0];
    } else {
      assert k[..|key|][0] == k[0];
    }
  }

  lemma FindFirst(c: seq<Entry>, k: seq<Byte>)
    requires |c| > 0 && KeyMatches(k, c[0].key)
    ensures FindEntry(c, k, 0) == 0
  {
  }

  lemma FindSecond(c: seq<Entry>, k: seq<Byte>)
    requires |c| > 1 && !KeyMatches(k, c[0].key) && KeyMatches(k, c[1].key)
    ensures FindEntry(c, k, 0) == 1
  {
  }

  /** The debuggee compares keys only as far as they were sent: abbreviations to one character or more are understood. */
  lemma AbbreviatedKeys(r: Request, n: nat, rest: seq<Byte>)
    requires InRange(r) && RegisterFits(r) && n > 0
    ensures var fs := Abbreviated(Fields(r), n);
            ReadRequest(EndOf(r), SerializeAs(r, fs) + rest) == Received(r, |SerializeAs(r, fs)|)
  {
    hide ConfigOf, Fields, HandlerOf, Takes, InRange, RegisterFits, FindEntry, SerializeAs, ReadRequest, TypeOf, EndOf, Serves,
         RequestOf, Abbreviated, DataOf, EncodeMap, ReadAll;
    var h := HandlerOf(r);
    var c, fs := ConfigOf(h), Abbreviated(Fields(r), n);
    FieldsOrder(r);
    KeysFound(h);
    forall i | 0 <= i < |fs|
      ensures FindEntry(c, fs[i].key, 0) == i && Fits(c, fs[i])
    {
      ShortKeys(h, i, n);
      ValuesFit(r, i);
    }
    DataAt(c, fs);
    Understood(r, DataOf(c, fs));
    HandlerMeaning(r);
    if fs == [] {
      DataNone(c);
      EmptyRoundTrip(r, rest);
    } else {
      MapRoundTrip(c, fs, rest);
      DataRoundTrip(r, fs, rest);
    }
  }

  /** A request is received as it was sent exactly when its register number, if it has one, fits 16 bits. */
  lemma RoundTripExactly(r: Request, rest: seq<Byte>)
    requires InRange(r)
    ensures ReadRequest(EndOf(r), Serialize(r) + rest) == Received(r, |Serialize(r)|) <==> RegisterFits(r)
  {
    hide SerializeAs, Fields, ReadRequest, InRange, RegisterFits, EndOf;
    if RegisterFits(r) {
      RequestRoundTrip(r, Fields(r), rest);
    } else {
      WideRegister(r, rest);
    }
  }

  /** A request that comes to another end than it was meant for is not served, save that of the state. */
  lemma OtherEnd(r: Request, e: End, rest: seq<Byte>)
    requires e != EndOf(r) && !(r.State? && e == ToThread)
    ensures ReadRequest(e, Serialize(r) + rest) == Rejected
  {
    hide DecodeItem, Head, ReadAll, EncodeMap;
    var h := Head(MAJOR_UINT, TypeOf(r));
    var b := Serialize(r)[|h|..] + rest;
    FieldsOrder(r);
    assert Serialize(r) + rest == h + b;
    TypeRead(TypeOf(r), b);
  }

  /** A type number of more than 16 bits, or one without a handler, is not served. */
  lemma WrongType(e: End, t: nat, rest: seq<Byte>)
    requires t < 0x1_0000_0000_0000_0000 && (t >= 0x1_0000 || !Serves(HandlerFor(e, t)))
    ensures ReadRequest(e, Head(MAJOR_UINT, t) + rest) == Rejected
  {
    hide DecodeItem, Head, ReadAll, HandlerFor;
    UIntRead(t, rest);
  }

  /** A wide register number ends the reading with an error. */
  lemma WideRegister(r: Request, rest: seq<Byte>)
    requires InRange(r) && !RegisterFits(r)
    ensures ReadRequest(EndOf(r), Serialize(r) + rest) == Rejected
  {
    hide Head, EncodeText, EncodeValue, EncodeFields, ConfigOf, Fields, TypeOf, DecodeItem, ReadAll, ReadRequest, Serialize,
         Feed, TokenOf, FindEntry, Accepts, InRange, RegisterFits, ValueOf, HandlerOf, HandlerFor, EndOf, Serves;
    RegisterShape(r);
    FieldsOrder(r);
    var t, fs, c := TypeOf(r), Fields(r), ConfigOf(HandlerOf(r));
    KeysFound(HandlerOf(r));
    var h, m, k, v := Head(MAJOR_UINT, t), Head(MAJOR_MAP, |fs|), EncodeText(fs[0].key), EncodeValue(fs[0].value);
    var tail := EncodeFields(fs[1..]) + rest;
    SerializedPieces(r, rest);
    TypeRead(t, m + (k + (v + tail)));
    MapRead(|fs|, k + (v + tail));
    ReadOne(c, START, m, k + (v + tail), MapStart(|fs|));
    TextRead(c[0].key, v + tail);
    ReadOne(c, START, k, v + tail, Text(c[0].key));
    ValueRead(c[0], fs[0].value, tail);
    ReadOne(c, START.(current := 0), v, tail, TokenOf(fs[0].value));
    WideFeeds(c, |fs|, fs[0].value);
    HandlerMeaning(r);
    WideRequest(EndOf(r), t, h, m + (k + (v + tail)));
  }

  lemma RegisterShape(r: Request)
    requires InRange(r) && !RegisterFits(r)
    ensures 0 < |Fields(r)| == |ConfigOf(HandlerOf(r))| <= 2
    ensures Fields(r)[0].value.Num? && 0x1_0000 <= Fields(r)[0].value.n < 0x1_0000_0000
    ensures WidthOf(Fields(r)[0].value.n) !in ConfigOf(HandlerOf(r))[0].widths
  {
  }

  lemma SerializedPieces(r: Request, rest: seq<Byte>)
    requires |Fields(r)| > 0
    ensures var t, fs := TypeOf(r), Fields(r);
      Serialize(r) + rest ==
      Head(MAJOR_UINT, t) + (Head(MAJOR_MAP, |fs|)
        + (EncodeText(fs[0].key) + (EncodeValue(fs[0].value) + (EncodeFields(fs[1..]) + rest))))
  {
    hide Head, EncodeText, EncodeValue, Fields, TypeOf;
    var t, fs := TypeOf(r), Fields(r);
    var key, value, more := EncodeText(fs[0].key), EncodeValue(fs[0].value), EncodeFields(fs[1..]);
    assert EncodeFields(fs) == key + value + more;
    hide EncodeFields;
    assert Serialize(r) == Head(MAJOR_UINT, t) + (Head(MAJOR_MAP, |fs|) + (key + value + more));
    Regrouped(Head(MAJOR_UINT, t), Head(MAJOR_MAP, |fs|), key, value, more, rest);
  }

  lemma Regrouped(a: seq<Byte>, b: seq<Byte>, c: seq<Byte>, d: seq<Byte>, e: seq<Byte>, f: seq<Byte>)
    ensures a + (b + (c + d + e)) + f == a + (b + (c + (d + (e + f))))
  {
    assert c + d + e + f == c + (d + (e + f));
    assert b + (c + d + e) + f == b + (c + d + e + f);
    assert a + (b + (c + d + e)) + f == a + (b + (c + d + e) + f);
  }

  lemma WideFeeds(c: seq<Entry>, n: nat, v: Value)
    requires |c| == n > 0 && FindEntry(c, c[0].key, 0) == 0 && v.Num? && !Accepts(c[0], TokenOf(v))
    ensures Feed(c, START, MapStart(n)) == START && !START.done
    ensures Feed(c, START, Text(c[0].key)) == START.(current := 0) && !START.(current := 0).done
    ensures Feed(c, START.(current := 0), TokenOf(v)).done && Feed(c, START.(current := 0), TokenOf(v)).error
  {
    hide FindEntry;
  }

  lemma WideRequest(e: End, t: nat, h: seq<Byte>, b: seq<Byte>)
    requires DecodeItem(h + b) == Finished(|h|, UInt(W8, t)) && ConfigOf(HandlerFor(e, t)) != []
    requires ReadAll(ConfigOf(HandlerFor(e, t)), START, b).st.error
    ensures ReadRequest(e, h + b) == Rejected
  {
    hide DecodeItem, ReadAll, ConfigOf, HandlerFor;
    assert (h + b)[|h|..] == b;
  }

  // ----- runs

  function SerializeAll(rs: seq<Request>): (b: seq<Byte>) {
    if rs == [] then [] else Serialize(rs[0]) + SerializeAll(rs[1..])
  }

  /** Reads one request after the other, each at its end and where the one before stopped. */
  function ReadRequests(ends: seq<End>, input: seq<Byte>): (r: (seq<Request>, seq<Byte>)) {
    if ends == [] then ([], input)
    else
      match ReadRequest(ends[0], input)
      case Rejected => ([], input)
      case Received(request, used) =>
        if used > |input| then ([], input)
        else
          var (rest, left) := ReadRequests(ends[1..], input[used..]);
          ([request] + rest, left)
  }

  function Ends(rs: seq<Request>): (es: seq<End>) {
    if rs == [] then [] else [EndOf(rs[0])] + Ends(rs[1..])
  }

  lemma {:induction false} ReadStep(e: End, es: seq<End>, input: seq<Byte>, request: Request, used: nat)
    requires ReadRequest(e, input) == Received(request, used) && used <= |input|
    ensures var (rest, left) := ReadRequests(es, input[used..]);
            ReadRequests([e] + es, input) == ([request] + rest, left)
  {
    hide ReadRequest;
    assert ([e] + es)[1..] == es;
  }

  lemma {:induction false} RunPieces(rs: seq<Request>, rest: seq<Byte>)
    requires rs != []
    ensures SerializeAll(rs) + rest == Serialize(rs[0]) + (SerializeAll(rs[1..]) + rest)
    ensures Ends(rs) == [EndOf(rs[0])] + Ends(rs[1..]) && rs == [rs[0]] + rs[1..]
  {
    hide Serialize, EndOf;
    var b, tail := Serialize(rs[0]), SerializeAll(rs[1..]);
    assert SerializeAll(rs) == b + tail;
    assert Ends(rs) == [EndOf(rs[0])] + Ends(rs[1..]);
    hide SerializeAll, Ends;
    assert b + tail + rest == b + (tail + rest);
  }

  /** Over any run the stream stays aligned: the requests that arrive are those sent, and nothing is left over. */
  lemma {:induction false} StreamAligned(rs: seq<Request>, rest: seq<Byte>)
    requires forall r :: r in rs ==> InRange(r) && RegisterFits(r)
    ensures ReadRequests(Ends(rs), SerializeAll(rs) + rest) == (rs, rest)
  {
    if rs == [] {
      assert SerializeAll(rs) + rest == rest;
    } else {
      hide *;
      var b, tail := Serialize(rs[0]), SerializeAll(rs[1..]) + rest;
      RunPieces(rs, rest);
      RoundTripExactly(rs[0], tail);
      assert (b + tail)[|b|..] == tail;
      StreamAligned(rs[1..], rest);
      ReadStep(EndOf(rs[0]), Ends(rs[1..]), b + tail, rs[0], |b|);
    }
  }
}
