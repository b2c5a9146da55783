/** Replies of the debuggee, and how the client takes them off the response stream. */
module Replies {
  import opened Cbor
  import opened Protocol

  /** A data item with its parts; numbers carry the width in which the debuggee writes them. */
  datatype Node =
    | Number(value: nat, width: Width)
    | Str(text: seq<Byte>)
    | Boolean(on: bool)
    | Group(isMap: bool, items: Nodes)

  datatype Nodes = Nil | Cons(head: Node, tail: Nodes)

  function Length(ns: Nodes): (n: nat) {
    if ns.Nil? then 0 else 1 + Length(ns.tail)
  }

  /** Numbers fit their widths, and maps have a value for every key. */
  predicate Sendable(n: Node) {
    match n
    case Number(v, w) => v < Pow256(WidthBytes(w))
    case Str(s) => |s| < 0x1_0000_0000_0000_0000
    case Boolean(_) => true
    case Group(isMap, items) => (isMap ==> Length(items) % 2 == 0) && Length(items) < 0x1_0000_0000_0000_0000 && AllSendable(items)
  }

  predicate AllSendable(ns: Nodes) {
    ns.Nil? || (Sendable(ns.head) && AllSendable(ns.tail))
  }

  function Encode(n: Node): (b: seq<Byte>) {
    match n
    case Number(v, w) => HeadIn(MAJOR_UINT, v, w)
    case Str(s) => EncodeText(s)
    case Boolean(on) => EncodeBool(on)
    case Group(isMap, items) =>
      (if isMap then Head(MAJOR_MAP, Length(items) / 2) else Head(MAJOR_ARRAY, Length(items))) + EncodeAll(items)
  }

  function EncodeAll(ns: Nodes): (b: seq<Byte>) {
    if ns.Nil? then [] else Encode(ns.head) + EncodeAll(ns.tail)
  }

  // ----- the client

  /** A data item rebuilt from the stream and what follows it, or a stream that is short or malformed. */
  datatype Taken = Taken(node: Node, rest: seq<Byte>) | Short

  datatype TakenAll = TakenAll(nodes: Nodes, rest: seq<Byte>) | ShortAll

  /** Takes one data item with all its parts. */
  function Take(input: seq<Byte>): (r: Taken)
    ensures r.Taken? ==> |r.rest| < |input|
    decreases |input|, 0
  {
    var d := DecodeItem(input);
    if !d.Finished? then Short
    else
      var rest := input[d.length..];
      match d.token
      case UInt(w, v) => Taken(Number(v, w), rest)
      case Text(t) => Taken(Str(t), rest)
      case Bool(on) => Taken(Boolean(on), rest)
      case MapStart(n) => Grouped(true, TakeAll(2 * n, rest))
      case ArrayStart(n) => Grouped(false, TakeAll(n, rest))
      case Other => Short
  }

  function Grouped(isMap: bool, all: TakenAll): (r: Taken) {
    if all.TakenAll? then Taken(Group(isMap, all.nodes), all.rest) else Short
  }

  function TakeAll(n: nat, input: seq<Byte>): (r: TakenAll)
    ensures r.TakenAll? ==> |r.rest| <= |input|
    decreases |input|, 1, n
  {
    if n == 0 then TakenAll(Nil, input)
    else
      var first := Take(input);
      if first.Short? then ShortAll
      else
        var more := TakeAll(n - 1, first.rest);
        if more.TakenAll? then TakenAll(Cons(first.node, more.nodes), more.rest) else ShortAll
  }

  /** What the client makes of a reply: the request type it names, and the data or the message. */
  datatype Answer = Plain(typ: nat) | Data(typ: nat, node: Node) | Error(typ: nat, message: seq<Byte>) | Broken

  const MSG: seq<Byte> := [0x6d, 0x73, 0x67]

  /** A structure with the one field `msg`. */
  predicate IsMessage(n: Node) {
    && n.Group? && n.isMap && n.items.Cons? && n.items.head == Str(MSG)
    && n.items.tail.Cons? && n.items.tail.head.Str? && n.items.tail.tail.Nil?
  }

  /** `read` and `read_no_data`: two types, and a data item if the reply is an error or data is expected. */
  function TakeReply(expectData: bool, input: seq<Byte>): (r: (Answer, seq<Byte>)) {
    var kind := Take(input);
    if kind.Short? || !kind.node.Number? || kind.node.value > 1 then (Broken, input)
    else
      var typ := Take(kind.rest);
      if typ.Short? || !typ.node.Number? || typ.node.value > 15 then (Broken, kind.rest)
      else if kind.node.value == 0 && !expectData then (Plain(typ.node.value), typ.rest)
      else
        var data := Take(typ.rest);
        if data.Short? then (Broken, typ.rest)
        else if kind.node.value == 0 then (Data(typ.node.value, data.node), data.rest)
        else if IsMessage(data.node) then (Error(typ.node.value, data.node.items.tail.head.text), data.rest)
        else (Broken, data.rest)
  }

  /** The requests for which the client waits for data. */
  predicate ExpectsData(r: Request) {
    r.ReadRegister? || r.SingleStep? || r.NextInstruction? || r.State? || r.Init?
  }

  // ----- the debuggee

  /** What a handler comes to: success, with data for some requests, or an error message. */
  datatype Result = Success(data: Node) | Failure(message: seq<Byte>)

  /** The handlers that write data. */
  predicate WritesData(h: Handler) {
    h.ReadRegisterHandler? || h.StateHandler? || h.InitHandler? || h.NextInstructionHandler? || h.SingleStepHandler?
  }

  /** The request type that a handler writes when it succeeds; that for deletion writes the type of removal. */
  function WrittenType(h: Handler): (t: nat)
    requires Serves(h)
  {
    match h
    case ContinueHandler => 1
    case ReadRegisterHandler => 4
    case WriteRegisterHandler => 5
    case StateHandler => 6
    case InitHandler => 7
    case CreateHandler => 8
    case InstallHandler => 9
    case RemoveHandler => 10
    case DeleteHandler => 10
    case SuspendHandler => 12
    case ResumeHandler => 13
    case NextInstructionHandler => 14
    case SingleStepHandler => 15
  }

  /** `write_response`: the types as 16-bit numbers, then the data. */
  function Response(kind: nat, typ: nat, data: seq<Byte>): (b: seq<Byte>) {
    HeadIn(MAJOR_UINT, kind, W16) + HeadIn(MAJOR_UINT, typ, W16) + data
  }

  /** The reply of a handler to a request number: a failure names the number that was received. */
  function Reply(h: Handler, t: nat, res: Result): (b: seq<Byte>)
    requires Serves(h)
  {
    match res
    case Success(data) => Response(0, WrittenType(h), if WritesData(h) then Encode(data) else [])
    case Failure(message) => Response(1, t, Encode(ErrorData(message)))
  }

  function ErrorData(message: seq<Byte>): (n: Node) {
    Group(true, Cons(Str(MSG), Cons(Str(message), Nil)))
  }

  // ----- data is read back

  lemma TakeLeaf(b: seq<Byte>, rest: seq<Byte>, token: Token)
    requires DecodeItem(b + rest) == Finished(|b|, token)
    ensures token.UInt? ==> Take(b + rest) == Taken(Number(token.value, token.width), rest)
    ensures token.Text? ==> Take(b + rest) == Taken(Str(token.text), rest)
    ensures token.Bool? ==> Take(b + rest) == Taken(Boolean(token.on), rest)
    ensures token.MapStart? ==> Take(b + rest) == Grouped(true, TakeAll(2 * token.size, rest))
    ensures token.ArrayStart? ==> Take(b + rest) == Grouped(false, TakeAll(token.size, rest))
  {
    hide DecodeItem, TakeAll, Grouped;
    assert (b + rest)[|b|..] == rest;
  }

  /** A data item of any nesting is rebuilt as it was sent, widths included, and nothing behind it is touched. */
  lemma {:induction false} NodeTaken(n: Node, rest: seq<Byte>)
    requires Sendable(n)
    ensures Take(Encode(n) + rest) == Taken(n, rest)
    decreases n
  {
    hide DecodeItem, Take, TakeAll, Head, EncodeText, HeadIn, EncodeAll, Length;
    match n
    case Number(v, w) =>
      UIntInWidthRead(v, w, rest);
      TakeLeaf(Encode(n), rest, UInt(w, v));
    case Str(s) =>
      TextRead(s, rest);
      TakeLeaf(Encode(n), rest, Text(s));
    case Boolean(on) =>
      BoolRead(on, rest);
      TakeLeaf(Encode(n), rest, Bool(on));
    case Group(isMap, items) =>
      NodesTaken(items, rest);
      GroupStart(isMap, items, rest);
  }

  lemma GroupStart(isMap: bool, items: Nodes, rest: seq<Byte>)
    requires (isMap ==> Length(items) % 2 == 0) && Length(items) < 0x1_0000_0000_0000_0000
    ensures Take(Encode(Group(isMap, items)) + rest) == Grouped(isMap, TakeAll(Length(items), EncodeAll(items) + rest))
  {
    hide DecodeItem, Take, TakeAll, Grouped, Head, EncodeAll, Length;
    var b, k := EncodeAll(items), Length(items);
    if isMap {
      var h := Head(MAJOR_MAP, k / 2);
      assert Encode(Group(isMap, items)) + rest == h + (b + rest);
      MapRead(k / 2, b + rest);
      TakeLeaf(h, b + rest, MapStart(k / 2));
      assert 2 * (k / 2) == k;
    } else {
      var h := Head(MAJOR_ARRAY, k);
      assert Encode(Group(isMap, items)) + rest == h + (b + rest);
      ArrayRead(k, b + rest);
      TakeLeaf(h, b + rest, ArrayStart(k));
    }
  }

  lemma {:induction false} NodesTaken(ns: Nodes, rest: seq<Byte>)
    requires AllSendable(ns)
    ensures TakeAll(Length(ns), EncodeAll(ns) + rest) == TakenAll(ns, rest)
    decreases ns
  {
    hide DecodeItem, Take, Sendable, Encode;
    if ns.Nil? {
      assert EncodeAll(ns) + rest == rest;
    } else {
      var b := EncodeAll(ns.tail);
      assert EncodeAll(ns) + rest == Encode(ns.head) + (b + rest);
      NodeTaken(ns.head, b + rest);
      NodesTaken(ns.tail, rest);
    }
  }

  lemma TypeTaken(v: nat, rest: seq<Byte>)
    requires v < 0x1_0000
    ensures Take(HeadIn(MAJOR_UINT, v, W16) + rest) == Taken(Number(v, W16), rest)
  {
    Pow256Values();
    assert Encode(Number(v, W16)) == HeadIn(MAJOR_UINT, v, W16);
    hide Encode, HeadIn, Take;
    NodeTaken(Number(v, W16), rest);
  }

  /** What a handler may answer: data that can be written, and a message of any bytes. */
  predicate Answerable(res: Result) {
    match res
    case Success(data) => Sendable(data)
    case Failure(message) => |message| < 0x1_0000_0000_0000_0000
  }

  /** What the client should make of the answer to its request. */
  function Meant(r: Request, res: Result): (a: Answer) {
    match res
    case Success(data) =>
      var typ := if r.DeleteBreakpoint? then TypeOf(RemoveBreakpoint(r.addr)) else TypeOf(r);
      if ExpectsData(r) then Data(typ, data) else Plain(typ)
    case Failure(message) => Error(TypeOf(r), message)
  }

  /**
   * The client takes exactly the reply to its request off the stream, and gets the data or the message that the handler
   * sent. The type in the reply is that of the request, except that deletion is answered as a removal.
   */
  lemma ReplyTaken(r: Request, res: Result, rest: seq<Byte>)
    requires Answerable(res)
    ensures Serves(HandlerOf(r))
    ensures TakeReply(ExpectsData(r), Reply(HandlerOf(r), TypeOf(r), res) + rest) == (Meant(r, res), rest)
  {
    hide Take, HeadIn, Encode, Sendable, HandlerOf, TypeOf, WrittenType, WritesData, Serves, ExpectsData, IsMessage;
    HandlerWrites(r);
    var h, t := HandlerOf(r), TypeOf(r);
    match res
    case Success(data) =>
      var d := if WritesData(h) then Encode(data) else [];
      ResponsePieces(0, WrittenType(h), d, rest);
      TypeTaken(0, HeadIn(MAJOR_UINT, WrittenType(h), W16) + (d + rest));
      TypeTaken(WrittenType(h), d + rest);
      if WritesData(h) {
        NodeTaken(data, rest);
      } else {
        assert d + rest == rest;
      }
    case Failure(message) =>
      var d := Encode(ErrorData(message));
      ResponsePieces(1, t, d, rest);
      TypeTaken(1, HeadIn(MAJOR_UINT, t, W16) + (d + rest));
      TypeTaken(t, d + rest);
      ErrorSendable(message);
      NodeTaken(ErrorData(message), rest);
      ErrorRead(message);
  }

  lemma HandlerWrites(r: Request)
    ensures TypeOf(r) < 16 && Serves(HandlerOf(r)) && (WritesData(HandlerOf(r)) <==> ExpectsData(r))
    ensures WrittenType(HandlerOf(r)) == if r.DeleteBreakpoint? then TypeOf(RemoveBreakpoint(r.addr)) else TypeOf(r)
    ensures WrittenType(HandlerOf(r)) < 16
  {
  }

  lemma ResponsePieces(kind: nat, typ: nat, data: seq<Byte>, rest: seq<Byte>)
    ensures Response(kind, typ, data) + rest == HeadIn(MAJOR_UINT, kind, W16) + (HeadIn(MAJOR_UINT, typ, W16) + (data + rest))
  {
    hide HeadIn;
  }

  lemma ErrorRead(message: seq<Byte>)
    ensures IsMessage(ErrorData(message)) && ErrorData(message).items.tail.head.text == message
  {
  }

  lemma ErrorSendable(message: seq<Byte>)
    requires |message| < 0x1_0000_0000_0000_0000
    ensures Sendable(ErrorData(message))
  {
    var last := Cons(Str(message), Nil);
    assert Length(last) == 1 + Length(Nil);
    assert Length(Cons(Str(MSG), last)) == 2;
    assert Sendable(Str(message)) && AllSendable(Nil);
    assert AllSendable(last);
    assert Sendable(Str(MSG));
    assert AllSendable(Cons(Str(MSG), last));
  }

  // ----- runs of exchanges

  datatype Exchange = Exchange(request: Request, result: Result)

  predicate Fine(x: Exchange) {
    InRange(x.request) && RegisterFits(x.request) && Answerable(x.result)
  }

  function RequestBytes(xs: seq<Exchange>): (b: seq<Byte>) {
    if xs == [] then [] else Serialize(xs[0].request) + RequestBytes(xs[1..])
  }

  /**
   * The debuggee works through a stream of requests: the reply of each is that of the handler which its number selects,
   * with the next of the given results, and reading goes on where it stopped.
   */
  function Served(ends: seq<End>, results: seq<Result>, requests: seq<Byte>): (r: (seq<Request>, seq<Byte>))
    requires |ends| == |results|
  {
    if ends == [] then ([], [])
    else
      match ReadRequest(ends[0], requests)
      case Rejected => ([], [])
      case Received(request, used) =>
        if used > |requests| || !Serves(HandlerOf(request)) then ([], [])
        else
          var (more, replies) := Served(ends[1..], results[1..], requests[used..]);
          ([request] + more, Reply(HandlerOf(request), TypeOf(request), results[0]) + replies)
  }

  /** The client works through the replies to its requests. */
  function Answers(rs: seq<Request>, replies: seq<Byte>): (r: (seq<Answer>, seq<Byte>)) {
    if rs == [] then ([], replies)
    else
      var (answer, left) := TakeReply(ExpectsData(rs[0]), replies);
      var (more, last) := Answers(rs[1..], left);
      ([answer] + more, last)
  }

  function RequestsOf(xs: seq<Exchange>): (rs: seq<Request>) {
    seq(|xs|, i requires 0 <= i < |xs| => xs[i].request)
  }

  function ResultsOf(xs: seq<Exchange>): (rs: seq<Result>) {
    seq(|xs|, i requires 0 <= i < |xs| => xs[i].result)
  }

  function EndsOf(xs: seq<Exchange>): (es: seq<End>) {
    seq(|xs|, i requires 0 <= i < |xs| => EndOf(xs[i].request))
  }

  function MeantAll(xs: seq<Exchange>): (a: seq<Answer>) {
    seq(|xs|, i requires 0 <= i < |xs| => Meant(xs[i].request, xs[i].result))
  }

  /**
   * Over any run of exchanges both streams stay aligned: the debuggee receives the requests of the client, and the client
   * gets for each of them the data or the message of its handler; nothing is left over in either direction.
   */
  lemma {:induction false} ExchangesAligned(xs: seq<Exchange>)
    requires forall x :: x in xs ==> Fine(x)
    ensures var (requests, replies) := Served(EndsOf(xs), ResultsOf(xs), RequestBytes(xs));
      requests == RequestsOf(xs) && Answers(RequestsOf(xs), replies) == (MeantAll(xs), [])
  {
    hide ReadRequest, Serialize, Reply, TakeReply, InRange, RegisterFits, Answerable, TypeOf, ExpectsData, HandlerOf, Serves, EndOf,
         Meant;
    if xs != [] {
      var x, tail := xs[0], xs[1..];
      assert Fine(x);
      var b := Serialize(x.request);
      RoundTripExactly(x.request, RequestBytes(tail));
      assert (b + RequestBytes(tail))[|b|..] == RequestBytes(tail);
      assert EndsOf(xs)[1..] == EndsOf(tail) && ResultsOf(xs)[1..] == ResultsOf(tail);
      assert RequestsOf(xs)[1..] == RequestsOf(tail) && RequestsOf(xs) == [x.request] + RequestsOf(tail);
      assert MeantAll(xs) == [Meant(x.request, x.result)] + MeantAll(tail);
      var (requests, replies) := Served(EndsOf(tail), ResultsOf(tail), RequestBytes(tail));
      ReplyTaken(x.request, x.result, replies);
      ExchangesAligned(tail);
    }
  }
}
