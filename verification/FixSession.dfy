/** Both ends of a FIX session: the writer that numbers and frames messages, the reader that
    cuts the byte stream, the acceptor's answers, and the client's wait for its report. */
module FixSession {
  import opened Lexical
  import opened Options
  import opened FixCodec

  /** The header and body tags that client and acceptor print. */
  const TAGS: set<nat> := {35, 49, 56, 34, 52, 108, 11, 55, 54, 60, 38, 40, 44, 58, 112, 37, 17, 150, 39, 14, 151, 6}

  /** A value that can be carried and does not trip the reader; it may hold `=`. */
  predicate Plain(v: string) { Free(v, SOH) && !HasMark(v) }

  lemma NoEqualsIsPlain(v: string)
    requires Free(v, SOH) && Free(v, '=')
    ensures Plain(v)
  {
  }

  predicate Usual(fs: seq<Field>) { forall i :: 0 <= i < |fs| ==> fs[i].tag in TAGS && Plain(fs[i].value) }

  lemma UsualFields(fs: seq<Field>)
    requires Usual(fs)
    ensures AllCarried(fs) && NoneTrips(fs)
  {
    forall i | 0 <= i < |fs| ensures Carried(fs[i]) && !Trips(fs[i]) {
      assert fs[i].tag in TAGS && Plain(fs[i].value);
    }
  }

  lemma DecimalPlain(n: nat)
    ensures Plain(Decimal(n))
  {
    DecimalRoundTrip(n);
    assert forall i :: 0 <= i < |Decimal(n)| ==> IsDigit(Decimal(n)[i]);
    NoEqualsIsPlain(Decimal(n));
  }

  // ---------------------------------------------------------------- the writer

  datatype Outgoing = Outgoing(msgType: string, sender: string, target: string, now: string, body: seq<Field>)

  function FieldsOf(o: Outgoing, seqNum: nat): seq<Field> {
    Header(o.msgType, o.sender, o.target, seqNum, o.now) + o.body
  }

  ghost predicate UsualMessage(o: Outgoing) {
    Plain(o.msgType) && Plain(o.sender) && Plain(o.target) && Plain(o.now) && Usual(o.body)
  }

  /** The fields of consecutive messages when the counter stands at `last` before the first. */
  function Numbered(os: seq<Outgoing>, last: nat): (ms: seq<seq<Field>>)
    ensures |ms| == |os|
    ensures forall i :: 0 <= i < |os| ==> ms[i] == FieldsOf(os[i], last + 1 + i)
  {
    if os == [] then [] else [FieldsOf(os[0], last + 1)] + Numbered(os[1..], last + 1)
  }

  lemma {:induction false} StreamAppend(ms: seq<seq<Field>>, ns: seq<seq<Field>>)
    ensures StreamText(ms + ns) == StreamText(ms) + StreamText(ns)
  {
    if ms == [] {
      assert ms + ns == ns;
    } else {
      assert (ms + ns)[1..] == ms[1..] + ns;
      StreamAppend(ms[1..], ns);
    }
  }

  /** One direction of a session as its sender keeps it. */
  class FixWriter {
    var seqNum: int
    var sent: string             // the bytes written to the connection
    ghost var log: seq<Outgoing>

    /** The bytes are the numbered messages sent so far, and numbers rise by exactly one. */
    ghost predicate Valid()
      reads this
    {
      seqNum == 1 + |log| && sent == StreamText(Numbered(log, 1))
    }

    constructor ()
      ensures Valid() && log == [] && seqNum == 1
    {
      seqNum, sent, log := 1, [], [];
    }

    method Checksum(msg: string) returns (sum: nat)
      ensures sum == ByteSum(msg) % 256
    {
      sum := 0;
      for i := 0 to |msg|
        invariant sum == ByteSum(msg[..i])
      {
        assert msg[..i + 1][..i] == msg[..i];
        sum := sum + msg[i] as int;
      }
      assert msg[..|msg|] == msg;
      sum := sum % 256;
    }

    /** The counter is bumped first, so the first message carries number 2. */
    method SendMsg(o: Outgoing)
      requires Valid()
      modifies this
      ensures Valid() && log == old(log) + [o] && seqNum == old(seqNum) + 1
      ensures sent == old(sent) + Frame(FieldsText(FieldsOf(o, seqNum)))
    {
      seqNum := seqNum + 1;
      var bodyFull := FieldsText(FieldsOf(o, seqNum));
      var fullMsg := "8=FIX.4.4" + [SOH] + "9=" + Decimal(|bodyFull|) + [SOH] + bodyFull;
      var cs := Checksum(fullMsg);
      var message := fullMsg + FieldText(Field(10, Pad3(cs)));
      NextSent(log, 1, o, seqNum, message);
      sent := sent + message;
      log := log + [o];
    }
  }

  lemma NumberedAppend(os: seq<Outgoing>, last: nat, o: Outgoing, n: nat)
    requires n == last + 1 + |os|
    ensures Numbered(os + [o], last) == Numbered(os, last) + [FieldsOf(o, n)]
  {
  }

  /** One more message on the wire. */
  lemma NextSent(os: seq<Outgoing>, last: nat, o: Outgoing, n: nat, message: string)
    requires n == last + 1 + |os| && message == Frame(FieldsText(FieldsOf(o, n)))
    ensures StreamText(Numbered(os + [o], last)) == StreamText(Numbered(os, last)) + message
  {
    NumberedAppend(os, last, o, n);
    StreamAppend(Numbered(os, last), [FieldsOf(o, n)]);
    OneMessage(FieldsOf(o, n));
  }

  lemma OneMessage(fs: seq<Field>)
    ensures StreamText([fs]) == Frame(FieldsText(fs))
  {
    assert StreamText([fs]) == Frame(FieldsText(fs)) + StreamText([]);
  }

  // ---------------------------------------------------------------- the reader

  lemma NothingAfter(r: Read)
    ensures r.After([]) == r
  {
    if r.Got? { assert [] + r.msg == r.msg; }
  }

  class FixReader {
    var unread: string

    constructor (stream: string)
      ensures unread == stream
    {
      unread := stream;
    }

    /** Collects chunks until one holds the trailer mark. */
    method ReadMsg() returns (r: Option<string>)
      modifies this
      ensures match FixCodec.ReadMsg(old(unread))
              case Eof => r == None && unread == []
              case Got(m, rest) => r == Some(m) && unread == rest
    {
      var collected := [];
      NothingAfter(FixCodec.ReadMsg(unread));
      while true
        invariant FixCodec.ReadMsg(old(unread)) == FixCodec.ReadMsg(unread).After(collected)
        decreases |unread|
      {
        var i := Find(unread, SOH);
        if i == |unread| {
          unread := [];
          return None;
        }
        var chunk := unread[..i + 1];
        AfterAfter(collected, chunk, FixCodec.ReadMsg(unread[i + 1..]));
        unread := unread[i + 1..];
        collected := collected + chunk;
        if HasMark(chunk) {
          return Some(collected);
        }
      }
    }
  }

  /** The loop of the tag parser, over the parts of a message. */
  method ParseMessage(msg: string) returns (out: map<int, string>)
    ensures out == ParseTags(msg)
  {
    var parts := Split(msg, SOH);
    out := map[];
    for n := 0 to |parts|
      invariant ParseParts(parts[n..], out) == ParseTags(msg)
    {
      var part := parts[n];
      assert parts[n..][0] == part && parts[n..][1..] == parts[n + 1..];
      var i := Find(part, '=');
      if i < |part| {
        var tag := ScanInt(part[..i]);
        if tag.Some? {
          out := out[tag.value := part[i + 1..]];
        }
      }
    }
  }

  // ---------------------------------------------------------------- a whole direction

  lemma UsualFieldsOf(o: Outgoing, seqNum: nat)
    requires UsualMessage(o)
    ensures Usual(FieldsOf(o, seqNum))
  {
    DecimalPlain(seqNum);
    var h := Header(o.msgType, o.sender, o.target, seqNum, o.now);
    assert Usual(h);
    forall i | 0 <= i < |h + o.body| ensures (h + o.body)[i].tag in TAGS && Plain((h + o.body)[i].value) {
      if i < |h| { assert (h + o.body)[i] == h[i]; } else { assert (h + o.body)[i] == o.body[i - |h|]; }
    }
  }

  /** Whatever a writer sends with the usual tags and plain values, a reader on the other end
      gets back message by message, in order. */
  lemma SessionReadBack(os: seq<Outgoing>, last: nat)
    requires forall i :: 0 <= i < |os| ==> UsualMessage(os[i])
    ensures ReadAll(StreamText(Numbered(os, last))) == Texts(Numbered(os, last))
  {
    var ms := Numbered(os, last);
    forall i | 0 <= i < |ms| ensures AllCarried(ms[i]) && NoneTrips(ms[i]) {
      UsualFieldsOf(os[i], last + 1 + i);
      UsualFields(ms[i]);
    }
    StreamSplitsIff(ms);
  }

  /** The value the tag map gives for a tag, empty when it is missing. */
  function Tag(tags: map<int, string>, tag: int): string { if tag in tags then tags[tag] else "" }

  ghost predicate DistinctTags(fs: seq<Field>) {
    forall i, j :: 0 <= i < j < |fs| ==> fs[i].tag != fs[j].tag
  }

  /** The value of a tag that occurs once. */
  lemma {:induction false} LastIsOnly(fs: seq<Field>, i: nat)
    requires i < |fs| && forall j :: 0 <= j < |fs| && j != i ==> fs[j].tag != fs[i].tag
    ensures LastValue(fs, fs[i].tag) == Some(fs[i].value)
  {
    var n := |fs| - 1;
    if i < n {
      assert fs[..n][i] == fs[i];
      LastIsOnly(fs[..n], i);
    }
  }

  lemma {:induction false} LastIsThere(fs: seq<Field>, tag: int)
    ensures LastValue(fs, tag).Some? ==> exists i :: 0 <= i < |fs| && fs[i].tag == tag
  {
    if fs != [] && fs[|fs| - 1].tag != tag {
      LastIsThere(fs[..|fs| - 1], tag);
      if LastValue(fs, tag).Some? {
        var i :| 0 <= i < |fs| - 1 && fs[..|fs| - 1][i].tag == tag;
        assert fs[i].tag == tag;
      }
    }
  }

  /** The parser gives exactly the header, body and trailer fields of a message whose tags are
      distinct: each with its value, and no other tag. */
  lemma ParsedExactly(o: Outgoing, seqNum: nat)
    requires UsualMessage(o) && DistinctTags(FieldsOf(o, seqNum))
    ensures var tags := ParseTags(Frame(FieldsText(FieldsOf(o, seqNum))));
            var all := MessageFields(FieldsOf(o, seqNum));
            && (forall i :: 0 <= i < |all| ==> all[i].tag in tags && tags[all[i].tag] == all[i].value)
            && (forall t :: t in tags ==> exists i :: 0 <= i < |all| && all[i].tag == t)
  {
    var fs := FieldsOf(o, seqNum);
    UsualFieldsOf(o, seqNum);
    UsualFields(fs);
    MessageParses(fs);
    var all, tags := MessageFields(fs), Collect(MessageFields(fs), map[]);
    FrameTagsDistinct(fs);
    forall i | 0 <= i < |all| ensures all[i].tag in tags && tags[all[i].tag] == all[i].value {
      SmallTag(all[i].tag);
      CollectIsLast(all, all[i].tag);
      LastIsOnly(all, i);
    }
    forall t | t in tags ensures exists i :: 0 <= i < |all| && all[i].tag == t {
      CollectKeysSmall(all, map[], t);
      CollectIsLast(all, t);
      LastIsThere(all, t);
    }
  }

  lemma {:induction false} CollectKeysSmall(fs: seq<Field>, out: map<int, string>, t: int)
    requires t in Collect(fs, out)
    requires forall k :: k in out ==> k <= MAX_INT64
    ensures t <= MAX_INT64
    decreases |fs|
  {
    if fs == [] {
    } else {
      CollectKeysSmall(fs[1..], if fs[0].tag <= MAX_INT64 then out[fs[0].tag := fs[0].value] else out, t);
    }
  }

  lemma SmallTag(tag: nat)
    requires tag in TAGS + {8, 9, 10}
    ensures tag <= MAX_INT64
  {
  }

  lemma DistinctConcat(a: seq<Field>, b: seq<Field>, tags: set<nat>)
    requires DistinctTags(a) && DistinctTags(b)
    requires (forall i :: 0 <= i < |a| ==> a[i].tag in tags) && forall i :: 0 <= i < |b| ==> b[i].tag !in tags
    ensures DistinctTags(a + b)
  {
  }

  ghost predicate TagsIn(fs: seq<Field>, tags: set<nat>) { forall i :: 0 <= i < |fs| ==> fs[i].tag in tags }

  lemma FrameTagsDistinct(fs: seq<Field>)
    requires DistinctTags(fs) && Usual(fs)
    ensures DistinctTags(MessageFields(fs)) && TagsIn(MessageFields(fs), TAGS + {8, 9, 10})
  {
    var head, trailer := [BEGIN, Field(9, Decimal(|FieldsText(fs)|))], Trailer(fs);
    assert 8 !in TAGS && 9 !in TAGS && 10 !in TAGS;
    AroundIsDistinct(head, fs, [trailer], TAGS);
    assert MessageFields(fs) == head + fs + [trailer];
  }

  lemma AroundIsDistinct(head: seq<Field>, fs: seq<Field>, end: seq<Field>, tags: set<nat>)
    requires DistinctTags(fs) && TagsIn(fs, tags) && 8 !in tags && 9 !in tags && 10 !in tags
    requires |head| == 2 && head[0].tag == 8 && head[1].tag == 9 && |end| == 1 && end[0].tag == 10
    ensures DistinctTags(head + fs + end) && TagsIn(head + fs + end, tags + {8, 9, 10})
  {
    DistinctConcat(head, fs, {8, 9});
    assert TagsIn(head + fs, tags + {8, 9});
    DistinctConcat(head + fs, end, tags + {8, 9});
  }

  // ---------------------------------------------------------------- orders and reports

  /** An order of the bot: a limit order has a price, a market order none. */
  datatype NewOrder = NewOrder(id: string, symbol: string, buy: bool, qty: nat, price: Option<string>)

  /** The clock is read twice for a message: for its body, and for its header a moment later. */
  datatype Stamps = Stamps(transact: string, sending: string)

  /** The acceptor's side of an answer: the outcome of its draw, its execution id, its clock. */
  datatype Draw = Draw(rests: bool, execId: string, at: Stamps)

  predicate PlainStamps(at: Stamps) { Plain(at.transact) && Plain(at.sending) }

  predicate PlainDraw(d: Draw) { Plain(d.execId) && PlainStamps(d.at) }

  predicate PlainOrder(o: NewOrder) {
    Plain(o.id) && Plain(o.symbol) && (o.price.Some? ==> Plain(o.price.value))
  }

  /** The body of a New Order Single. */
  function OrderBody(o: NewOrder, now: string): seq<Field> {
    [Field(11, o.id), Field(55, o.symbol), Field(54, if o.buy then "1" else "2"), Field(60, now),
     Field(38, Decimal(o.qty)), Field(40, if o.price.Some? then "2" else "1")]
    + (if o.price.Some? then [Field(44, o.price.value)] else [])
  }

  /** The acceptor's Execution Report for an order with these tags. The draw counts for limit
      orders only. */
  function ReportBody(tags: map<int, string>, d: Draw): seq<Field> {
    var price := if Tag(tags, 44) == "" then "100.0000" else Tag(tags, 44);
    var resting := Tag(tags, 40) == "2" && d.rests;
    [Field(11, Tag(tags, 11)), Field(37, "O" + d.execId), Field(17, d.execId),
     Field(150, if resting then "0" else "F"), Field(39, if resting then "0" else "2"),
     Field(55, Tag(tags, 55)), Field(54, Tag(tags, 54)), Field(38, Tag(tags, 38)),
     Field(14, if resting then "0" else Tag(tags, 38)), Field(151, if resting then Tag(tags, 38) else "0"),
     Field(6, if resting then "0" else price), Field(60, d.at.transact)]
  }

  /** The acceptor's answer to a message, by its type; other types are ignored. Sender and
      target are those of the request, swapped. */
  function Answer(tags: map<int, string>, d: Draw): Option<Outgoing> {
    var me, peer, now := Tag(tags, 56), Tag(tags, 49), d.at.sending;
    match Tag(tags, 35)
    case "A" => Some(Outgoing("A", me, peer, now, [Field(108, "30")]))
    case "0" => Some(Outgoing("0", me, peer, now,
                              if Tag(tags, 112) != "" then [Field(112, Tag(tags, 112))] else []))
    case "5" => Some(Outgoing("5", me, peer, now, []))
    case "D" => Some(Outgoing("8", me, peer, now, ReportBody(tags, d)))
    case _ => None
  }

  function ReplyText(tags: map<int, string>, d: Draw, last: nat): string {
    match Answer(tags, d)
    case None => []
    case Some(a) => Frame(FieldsText(FieldsOf(a, last + 1)))
  }

  /** The counter of the acceptor after that. */
  function AfterReply(tags: map<int, string>, d: Draw, last: nat): nat {
    if Answer(tags, d).Some? then last + 1 else last
  }

  /** The bytes an acceptor sends in answer to a stream, when its counter stands at `last` and
      the next message is its i-th; a logout ends the connection. */
  function Serve(stream: string, draws: nat -> Draw, i: nat, last: nat): string
    decreases |stream|
  {
    match FixCodec.ReadMsg(stream)
    case Eof => []
    case Got(m, rest) =>
      var tags := ParseTags(m);
      ReplyText(tags, draws(i), last)
      + (if Tag(tags, 35) == "5" then [] else Serve(rest, draws, i + 1, AfterReply(tags, draws(i), last)))
  }

  /** One answer of the acceptor. */
  method Reply(writer: FixWriter, tags: map<int, string>, d: Draw)
    requires writer.Valid()
    modifies writer
    ensures writer.Valid() && writer.seqNum == AfterReply(tags, d, old(writer.seqNum))
    ensures writer.sent == old(writer.sent) + ReplyText(tags, d, old(writer.seqNum))
  {
    var answer := Answer(tags, d);
    if answer.Some? {
      writer.SendMsg(answer.value);
    } else {
      assert writer.sent + [] == writer.sent;
    }
  }

  /** The acceptor's loop over one connection. */
  method HandleConn(reader: FixReader, writer: FixWriter, draws: nat -> Draw)
    requires writer.Valid()
    modifies reader, writer
    ensures writer.Valid()
    ensures writer.sent == old(writer.sent) + Serve(old(reader.unread), draws, 0, old(writer.seqNum))
  {
    var i: nat := 0;
    ghost var output := writer.sent + Serve(reader.unread, draws, 0, writer.seqNum);
    while true
      invariant writer.Valid() && writer.sent + Serve(reader.unread, draws, i, writer.seqNum) == output
      decreases |reader.unread|
    {
      ghost var sent, unread, last := writer.sent, reader.unread, writer.seqNum;
      var raw := reader.ReadMsg();
      if raw == None {
        assert sent + [] == sent;
        return;
      }
      var tags := ParseMessage(raw.value);
      Reply(writer, tags, draws(i));
      ServeSplits(sent, unread, draws, i, last);
      if Tag(tags, 35) == "5" {
        return;
      }
      i := i + 1;
    }
  }

  lemma ServeSplits(sent: string, stream: string, draws: nat -> Draw, i: nat, last: nat)
    requires FixCodec.ReadMsg(stream).Got?
    ensures var Got(m, rest) := FixCodec.ReadMsg(stream);
            var tags := ParseTags(m);
            var reply := sent + ReplyText(tags, draws(i), last);
            sent + Serve(stream, draws, i, last)
            == if Tag(tags, 35) == "5" then reply
               else reply + Serve(rest, draws, i + 1, AfterReply(tags, draws(i), last))
  {
    var Got(m, rest) := FixCodec.ReadMsg(stream);
    var tags := ParseTags(m);
    var text, later := ReplyText(tags, draws(i), last), Serve(rest, draws, i + 1, AfterReply(tags, draws(i), last));
    Associative(sent, text, later);
    Associative(sent, text, []);
    assert sent + text + [] == sent + text;
  }

  /** The client takes a message for its report when it is an Execution Report with its id. */
  predicate Answers(tags: map<int, string>, id: string) { Tag(tags, 35) == "8" && Tag(tags, 11) == id }

  /** Reads until the report for this id; what is left of the stream, None when it ends first. */
  function Await(stream: string, id: string): Option<string>
    decreases |stream|
  {
    match FixCodec.ReadMsg(stream)
    case Eof => None
    case Got(m, rest) => if Answers(ParseTags(m), id) then Some(rest) else Await(rest, id)
  }

  /** The client's reading loop, while its context is not cancelled. */
  method AwaitReport(reader: FixReader, id: string) returns (found: bool)
    modifies reader
    ensures match Await(old(reader.unread), id)
            case None => !found && reader.unread == []
            case Some(rest) => found && reader.unread == rest
  {
    while true
      invariant Await(old(reader.unread), id) == Await(reader.unread, id)
      decreases |reader.unread|
    {
      var raw := reader.ReadMsg();
      if raw == None {
        return false;
      }
      var tags := ParseMessage(raw.value);
      if Answers(tags, id) {
        return true;
      }
    }
  }

  ghost predicate Framable(fs: seq<Field>) { AllCarried(fs) && NoneTrips(fs) }

  /** A wait ends behind its message or goes on there. */
  lemma AwaitOne(fs: seq<Field>, later: string, id: string)
    requires Framable(fs)
    ensures Await(Frame(FieldsText(fs)) + later, id)
         == if Answers(Collect(MessageFields(fs), map[]), id) then Some(later) else Await(later, id)
  {
    MessageReadBackIff(fs, later);
    MessageParses(fs);
    AwaitGoesOn(Frame(FieldsText(fs)), later, id);
  }

  lemma AwaitGoesOn(m: string, rest: string, id: string)
    requires FixCodec.ReadMsg(m + rest) == Got(m, rest)
    ensures Await(m + rest, id) == if Answers(ParseTags(m), id) then Some(rest) else Await(rest, id)
  {
  }

  /** Messages that do not answer are drained; the first that does ends the wait. */
  lemma {:induction false} AwaitFinds(ms: seq<seq<Field>>, reply: seq<Field>, later: string, id: string)
    requires forall i :: 0 <= i < |ms| ==> Framable(ms[i]) && !Answers(Collect(MessageFields(ms[i]), map[]), id)
    requires Framable(reply) && Answers(Collect(MessageFields(reply), map[]), id)
    ensures Await(StreamText(ms) + (Frame(FieldsText(reply)) + later), id) == Some(later)
  {
    if ms == [] {
      assert [] + (Frame(FieldsText(reply)) + later) == Frame(FieldsText(reply)) + later;
      AwaitOne(reply, later, id);
    } else {
      var answer := Frame(FieldsText(reply)) + later;
      assert StreamText(ms) + answer == Frame(FieldsText(ms[0])) + (StreamText(ms[1..]) + answer);
      AwaitOne(ms[0], StreamText(ms[1..]) + answer, id);
      AwaitFinds(ms[1..], reply, later, id);
    }
  }

  /** A New Order Single as a client sends it. */
  function OrderMessage(o: NewOrder, at: Stamps, client: string, exchange: string): Outgoing {
    Outgoing("D", client, exchange, at.sending, OrderBody(o, at.transact))
  }

  function OrderText(o: NewOrder, at: Stamps, client: string, exchange: string, seqNum: nat): string {
    Frame(FieldsText(FieldsOf(OrderMessage(o, at, client, exchange), seqNum)))
  }

  /** The report an order calls for, in the order's own terms: open when a limit order rests,
      filled at its limit or at a fixed price otherwise. */
  function ReportOf(o: NewOrder, d: Draw, client: string, exchange: string): Outgoing {
    var qty, open := Decimal(o.qty), o.price.Some? && d.rests;
    var price := if o.price.Some? && o.price.value != "" then o.price.value else "100.0000";
    Outgoing("8", exchange, client, d.at.sending,
             [Field(11, o.id), Field(37, "O" + d.execId), Field(17, d.execId)]
             + (if open then [Field(150, "0"), Field(39, "0")] else [Field(150, "F"), Field(39, "2")])
             + [Field(55, o.symbol), Field(54, if o.buy then "1" else "2"), Field(38, qty)]
             + (if open then [Field(14, "0"), Field(151, qty), Field(6, "0")]
                else [Field(14, qty), Field(151, "0"), Field(6, price)])
             + [Field(60, d.at.transact)])
  }

  function ReportText(o: NewOrder, d: Draw, client: string, exchange: string, seqNum: nat): string {
    Frame(FieldsText(FieldsOf(ReportOf(o, d, client, exchange), seqNum)))
  }

  lemma OrderIsUsual(o: NewOrder, at: Stamps, client: string, exchange: string, seqNum: nat)
    requires PlainOrder(o) && PlainStamps(at) && Plain(client) && Plain(exchange)
    ensures var m := OrderMessage(o, at, client, exchange);
            UsualMessage(m) && DistinctTags(FieldsOf(m, seqNum))
  {
    OrderIsPlain(o, at.transact);
    OrderTagsDistinct(FieldsOf(OrderMessage(o, at, client, exchange), seqNum), o, at.transact);
  }

  lemma OrderIsPlain(o: NewOrder, now: string)
    requires PlainOrder(o) && Plain(now)
    ensures Usual(OrderBody(o, now))
  {
    DecimalPlain(o.qty);
  }

  lemma OrderTagsDistinct(fs: seq<Field>, o: NewOrder, now: string)
    requires |fs| >= 5 && fs[5..] == OrderBody(o, now)
    requires fs[0].tag == 35 && fs[1].tag == 49 && fs[2].tag == 56 && fs[3].tag == 34 && fs[4].tag == 52
    ensures DistinctTags(fs)
  {
    var ts := [35, 49, 56, 34, 52, 11, 55, 54, 60, 38, 40, 44];
    forall i | 0 <= i < |fs| ensures fs[i].tag == ts[i] {
      if i >= 5 { assert fs[i] == fs[5..][i - 5]; }
    }
    DistinctBy(fs, ts);
  }

  /** Tags are distinct when they are the first of these and these are. */
  lemma DistinctBy(fs: seq<Field>, tags: seq<nat>)
    requires |fs| <= |tags| && forall i :: 0 <= i < |fs| ==> fs[i].tag == tags[i]
    requires forall i, j :: 0 <= i < j < |tags| ==> tags[i] != tags[j]
    ensures DistinctTags(fs)
  {
  }

  lemma ReportIsUsual(o: NewOrder, d: Draw, client: string, exchange: string, seqNum: nat)
    requires PlainOrder(o) && PlainDraw(d) && Plain(client) && Plain(exchange)
    ensures var m := ReportOf(o, d, client, exchange);
            UsualMessage(m) && DistinctTags(FieldsOf(m, seqNum))
  {
    ReportTagsDistinct(FieldsOf(ReportOf(o, d, client, exchange), seqNum), o, d, client, exchange);
    ReportIsPlain(o, d, client, exchange);
  }

  lemma ReportTagsDistinct(fs: seq<Field>, o: NewOrder, d: Draw, client: string, exchange: string)
    requires |fs| == 17 && fs[5..] == ReportOf(o, d, client, exchange).body
    requires fs[0].tag == 35 && fs[1].tag == 49 && fs[2].tag == 56 && fs[3].tag == 34 && fs[4].tag == 52
    ensures DistinctTags(fs)
  {
    forall i | 0 <= i < 17 ensures Slot(fs[i].tag) == i {
      if i >= 5 { assert fs[i] == fs[5..][i - 5]; }
    }
  }

  /** Where a tag stands in an execution report. */
  function Slot(tag: int): int {
    match tag
    case 35 => 0
    case 49 => 1
    case 56 => 2
    case 34 => 3
    case 52 => 4
    case 11 => 5
    case 37 => 6
    case 17 => 7
    case 150 => 8
    case 39 => 9
    case 55 => 10
    case 54 => 11
    case 38 => 12
    case 14 => 13
    case 151 => 14
    case 6 => 15
    case 60 => 16
    case _ => -1
  }

  lemma ReportIsPlain(o: NewOrder, d: Draw, client: string, exchange: string)
    requires PlainOrder(o) && PlainDraw(d)
    ensures Usual(ReportOf(o, d, client, exchange).body)
  {
    DecimalPlain(o.qty);
    PlainBehindO(d.execId);
    NoEqualsIsPlain("100.0000");
  }

  lemma PlainBehindO(v: string)
    requires Plain(v)
    ensures Plain("O" + v)
  {
    var w := "O" + v;
    assert w[1..] == v;
    forall i | 0 <= i < |w| - 2 ensures !(w[i] == '1' && w[i + 1] == '0' && w[i + 2] == '=') {
      if i > 0 { assert w[i] == v[i - 1] && w[i + 1] == v[i] && w[i + 2] == v[i + 1]; }
    }
  }

  lemma TagAt(o: Outgoing, seqNum: nat, i: nat)
    requires UsualMessage(o) && DistinctTags(FieldsOf(o, seqNum)) && i < |FieldsOf(o, seqNum)|
    ensures var f := FieldsOf(o, seqNum)[i];
            Tag(ParseTags(Frame(FieldsText(FieldsOf(o, seqNum)))), f.tag) == f.value
  {
    ParsedExactly(o, seqNum);
    assert MessageFields(FieldsOf(o, seqNum))[i + 2] == FieldsOf(o, seqNum)[i];
  }

  lemma TagMissing(o: Outgoing, seqNum: nat, t: nat)
    requires UsualMessage(o) && DistinctTags(FieldsOf(o, seqNum)) && t in TAGS
    requires forall i :: 0 <= i < |FieldsOf(o, seqNum)| ==> FieldsOf(o, seqNum)[i].tag != t
    ensures Tag(ParseTags(Frame(FieldsText(FieldsOf(o, seqNum)))), t) == ""
  {
    ParsedExactly(o, seqNum);
    NotInFrame(FieldsOf(o, seqNum), t);
  }

  lemma NotInFrame(fs: seq<Field>, t: nat)
    requires t in TAGS && forall i :: 0 <= i < |fs| ==> fs[i].tag != t
    ensures var all := MessageFields(fs);
            forall i :: 0 <= i < |all| ==> all[i].tag != t
  {
    var all := MessageFields(fs);
    assert 8 !in TAGS && 9 !in TAGS && 10 !in TAGS;
    forall i | 0 <= i < |all| ensures all[i].tag != t {
      if 2 <= i < |all| - 1 { assert all[i] == fs[i - 2]; }
    }
  }

  /** What the acceptor reads off a New Order Single is what the client put on it. */
  lemma OrderTags(o: NewOrder, at: Stamps, client: string, exchange: string, seqNum: nat)
    returns (tags: map<int, string>)
    requires PlainOrder(o) && PlainStamps(at) && Plain(client) && Plain(exchange)
    ensures tags == ParseTags(OrderText(o, at, client, exchange, seqNum))
    ensures Tag(tags, 35) == "D" && Tag(tags, 49) == client && Tag(tags, 56) == exchange
    ensures Tag(tags, 11) == o.id && Tag(tags, 55) == o.symbol && Tag(tags, 54) == (if o.buy then "1" else "2")
    ensures Tag(tags, 38) == Decimal(o.qty) && Tag(tags, 40) == (if o.price.Some? then "2" else "1")
    ensures Tag(tags, 44) == (if o.price.Some? then o.price.value else "")
    ensures Tag(tags, 52) == at.sending && Tag(tags, 60) == at.transact
  {
    var m := OrderMessage(o, at, client, exchange);
    OrderIsUsual(o, at, client, exchange, seqNum);
    TagAt(m, seqNum, 0);
    TagAt(m, seqNum, 1);
    TagAt(m, seqNum, 2);
    TagAt(m, seqNum, 4);
    TagAt(m, seqNum, 5);
    TagAt(m, seqNum, 6);
    TagAt(m, seqNum, 7);
    TagAt(m, seqNum, 8);
    TagAt(m, seqNum, 9);
    TagAt(m, seqNum, 10);
    if o.price.Some? { TagAt(m, seqNum, 11); } else { TagMissing(m, seqNum, 44); }
    tags := ParseTags(Frame(FieldsText(FieldsOf(m, seqNum))));
  }

  /** A message with the usual tags and plain values is cut out of any stream. */
  lemma UsualIsReadBack(m: Outgoing, seqNum: nat, incoming: string)
    requires UsualMessage(m)
    ensures var sent := Frame(FieldsText(FieldsOf(m, seqNum)));
            FixCodec.ReadMsg(sent + incoming) == Got(sent, incoming)
  {
    UsualFieldsOf(m, seqNum);
    UsualFields(FieldsOf(m, seqNum));
    MessageReadBackIff(FieldsOf(m, seqNum), incoming);
  }

  /** The acceptor cuts an order out of its stream. */
  lemma OrderIsReadBack(o: NewOrder, at: Stamps, client: string, exchange: string,
                        seqNum: nat, incoming: string)
    requires PlainOrder(o) && PlainStamps(at) && Plain(client) && Plain(exchange)
    ensures var sent := OrderText(o, at, client, exchange, seqNum);
            FixCodec.ReadMsg(sent + incoming) == Got(sent, incoming)
  {
    OrderIsUsual(o, at, client, exchange, seqNum);
    UsualIsReadBack(OrderMessage(o, at, client, exchange), seqNum, incoming);
  }

  lemma ReportFollowsTags(o: NewOrder, tags: map<int, string>, d: Draw, client: string, exchange: string)
    requires Tag(tags, 35) == "D" && Tag(tags, 49) == client && Tag(tags, 56) == exchange
    requires Tag(tags, 11) == o.id && Tag(tags, 55) == o.symbol && Tag(tags, 54) == (if o.buy then "1" else "2")
    requires Tag(tags, 38) == Decimal(o.qty) && Tag(tags, 40) == (if o.price.Some? then "2" else "1")
    requires Tag(tags, 44) == (if o.price.Some? then o.price.value else "")
    ensures Answer(tags, d) == Some(ReportOf(o, d, client, exchange))
  {
    assert ReportBody(tags, d) == ReportOf(o, d, client, exchange).body;
  }

  /** It answers the order with the report the order calls for, addressed to the client. */
  lemma OrderIsReported(o: NewOrder, at: Stamps, client: string, exchange: string, seqNum: nat, d: Draw)
    requires PlainOrder(o) && PlainStamps(at) && Plain(client) && Plain(exchange)
    ensures Answer(ParseTags(OrderText(o, at, client, exchange, seqNum)), d) == Some(ReportOf(o, d, client, exchange))
  {
    var tags := OrderTags(o, at, client, exchange, seqNum);
    ReportFollowsTags(o, tags, d, client, exchange);
  }

  /** A report ends the client's wait for its order exactly behind it, after any earlier
      messages that do not answer are drained. */
  lemma ReportEndsWait(o: NewOrder, d: Draw, client: string, exchange: string, replyNum: nat,
                       earlier: seq<seq<Field>>, later: string)
    requires PlainOrder(o) && PlainDraw(d) && Plain(client) && Plain(exchange)
    requires forall i :: 0 <= i < |earlier| ==>
               Framable(earlier[i]) && !Answers(Collect(MessageFields(earlier[i]), map[]), o.id)
    ensures Await(StreamText(earlier) + (ReportText(o, d, client, exchange, replyNum) + later), o.id) == Some(later)
  {
    var reply := ReportOf(o, d, client, exchange);
    var fs := FieldsOf(reply, replyNum);
    ReportIsUsual(o, d, client, exchange, replyNum);
    UsualFieldsOf(reply, replyNum);
    UsualFields(fs);
    MessageParses(fs);
    TagAt(reply, replyNum, 0);
    TagAt(reply, replyNum, 5);
    AwaitFinds(earlier, fs, later, o.id);
  }

  /** An order and its report, end to end. */
  lemma OrderRoundTrip(o: NewOrder, at: Stamps, client: string, exchange: string, seqNum: nat,
                       incoming: string, draws: nat -> Draw, i: nat, last: nat)
    requires PlainOrder(o) && PlainStamps(at) && Plain(client) && Plain(exchange) && PlainDraw(draws(i))
    ensures var reply := ReportText(o, draws(i), client, exchange, last + 1);
            var later := Serve(incoming, draws, i + 1, last + 1);
            && Serve(OrderText(o, at, client, exchange, seqNum) + incoming, draws, i, last) == reply + later
            && Await(reply + later, o.id) == Some(later)
  {
    var d, later := draws(i), Serve(incoming, draws, i + 1, last + 1);
    OrderIsReadBack(o, at, client, exchange, seqNum, incoming);
    OrderIsReported(o, at, client, exchange, seqNum, d);
    OrderIsNoLogout(o, at, client, exchange, seqNum);
    var sent := OrderText(o, at, client, exchange, seqNum);
    ServeAnswered(sent + incoming, sent, incoming, ReportOf(o, d, client, exchange), draws, i, last);
    ReportEndsWait(o, d, client, exchange, last + 1, [], later);
    var reply := ReportText(o, d, client, exchange, last + 1);
    assert [] + (reply + later) == reply + later;
  }

  lemma OrderIsNoLogout(o: NewOrder, at: Stamps, client: string, exchange: string, seqNum: nat)
    requires PlainOrder(o) && PlainStamps(at) && Plain(client) && Plain(exchange)
    ensures Tag(ParseTags(OrderText(o, at, client, exchange, seqNum)), 35) != "5"
  {
    var tags := OrderTags(o, at, client, exchange, seqNum);
  }

  /** A message that is answered and is no logout. */
  lemma ServeAnswered(stream: string, m: string, rest: string, a: Outgoing, draws: nat -> Draw, i: nat, last: nat)
    requires FixCodec.ReadMsg(stream) == Got(m, rest)
    requires Answer(ParseTags(m), draws(i)) == Some(a) && Tag(ParseTags(m), 35) != "5"
    ensures Serve(stream, draws, i, last)
         == Frame(FieldsText(FieldsOf(a, last + 1))) + Serve(rest, draws, i + 1, last + 1)
  {
  }

  // ---------------------------------------------------------------- a whole conversation

  function OrderMessages(os: seq<NewOrder>, ats: seq<Stamps>, client: string, exchange: string): seq<Outgoing>
    requires |ats| == |os|
  {
    if os == [] then []
    else [OrderMessage(os[0], ats[0], client, exchange)] + OrderMessages(os[1..], ats[1..], client, exchange)
  }

  function LogonMessage(now: string, client: string, exchange: string): Outgoing {
    Outgoing("A", client, exchange, now, [Field(108, "30")])
  }

  /** The stream holds the reports of these orders in turn and nothing else, and a client that
      waits for each order in turn ends each wait right behind its own report. */
  ghost predicate Answered(stream: string, os: seq<NewOrder>, draws: nat -> Draw, i: nat, last: nat,
                           client: string, exchange: string)
    decreases |os|
  {
    if os == [] then stream == []
    else
      var reply := ReportText(os[0], draws(i), client, exchange, last + 1);
      && |reply| <= |stream| && stream[..|reply|] == reply
      && Await(stream, os[0].id) == Some(stream[|reply|..])
      && Answered(stream[|reply|..], os[1..], draws, i + 1, last + 1, client, exchange)
  }

  lemma {:induction false} OrdersAreAnswered(os: seq<NewOrder>, ats: seq<Stamps>, client: string, exchange: string,
                                            sent: nat, draws: nat -> Draw, i: nat, last: nat)
    requires |ats| == |os| && Plain(client) && Plain(exchange)
    requires forall k :: 0 <= k < |os| ==> PlainOrder(os[k]) && PlainStamps(ats[k])
    requires forall k :: PlainDraw(draws(k))
    ensures Answered(Serve(StreamText(Numbered(OrderMessages(os, ats, client, exchange), sent)), draws, i, last),
                     os, draws, i, last, client, exchange)
    decreases |os|
  {
    var ms := OrderMessages(os, ats, client, exchange);
    if os == [] {
      assert Serve([], draws, i, last) == [];
    } else {
      var rest := StreamText(Numbered(OrderMessages(os[1..], ats[1..], client, exchange), sent + 1));
      OrdersAreAnswered(os[1..], ats[1..], client, exchange, sent + 1, draws, i + 1, last + 1);
      FirstOfStream(OrderMessage(os[0], ats[0], client, exchange),
                    OrderMessages(os[1..], ats[1..], client, exchange), sent);
      OrderRoundTrip(os[0], ats[0], client, exchange, sent + 1, rest, draws, i, last);
      var reply, later := ReportText(os[0], draws(i), client, exchange, last + 1), Serve(rest, draws, i + 1, last + 1);
      assert (reply + later)[..|reply|] == reply && (reply + later)[|reply|..] == later;
    }
  }

  function LogonText(now: string, client: string, exchange: string, seqNum: nat): string {
    Frame(FieldsText(FieldsOf(LogonMessage(now, client, exchange), seqNum)))
  }

  /** A logon is answered by a logon the other way. */
  lemma LogonIsAnswered(now: string, client: string, exchange: string, seqNum: nat, incoming: string,
                        draws: nat -> Draw, i: nat, last: nat)
    requires Plain(now) && Plain(client) && Plain(exchange)
    ensures Serve(LogonText(now, client, exchange, seqNum) + incoming, draws, i, last)
         == LogonText(draws(i).at.sending, exchange, client, last + 1) + Serve(incoming, draws, i + 1, last + 1)
  {
    var m := LogonMessage(now, client, exchange);
    LogonIsUsual(now, client, exchange, seqNum);
    UsualIsReadBack(m, seqNum, incoming);
    LogonTags(now, client, exchange, seqNum, draws(i));
    var sent := LogonText(now, client, exchange, seqNum);
    ServeAnswered(sent + incoming, sent, incoming, LogonMessage(draws(i).at.sending, exchange, client), draws, i, last);
  }

  /** No wait takes a logon for a report. */
  lemma LogonIsDrained(now: string, sender: string, target: string, seqNum: nat, later: string,
                       d: Draw, id: string)
    requires Plain(now) && Plain(sender) && Plain(target)
    ensures Await(LogonText(now, sender, target, seqNum) + later, id) == Await(later, id)
  {
    LogonIsUsual(now, sender, target, seqNum);
    UsualIsReadBack(LogonMessage(now, sender, target), seqNum, later);
    LogonTags(now, sender, target, seqNum, d);
    AwaitGoesOn(LogonText(now, sender, target, seqNum), later, id);
  }

  lemma LogonTags(now: string, client: string, exchange: string, seqNum: nat, d: Draw)
    requires Plain(now) && Plain(client) && Plain(exchange)
    ensures var tags := ParseTags(LogonText(now, client, exchange, seqNum));
            Tag(tags, 35) == "A" && Answer(tags, d) == Some(LogonMessage(d.at.sending, exchange, client))
  {
    var m := LogonMessage(now, client, exchange);
    LogonIsUsual(now, client, exchange, seqNum);
    TagAt(m, seqNum, 0);
    TagAt(m, seqNum, 1);
    TagAt(m, seqNum, 2);
  }

  lemma LogonIsUsual(now: string, client: string, exchange: string, seqNum: nat)
    requires Plain(now) && Plain(client) && Plain(exchange)
    ensures var m := LogonMessage(now, client, exchange);
            UsualMessage(m) && DistinctTags(FieldsOf(m, seqNum))
  {
    var m := LogonMessage(now, client, exchange);
    assert m.body[0].tag in TAGS && Plain(m.body[0].value);
    DistinctBy(FieldsOf(m, seqNum), [35, 49, 56, 34, 52, 108]);
  }

  lemma WaitsDrainLogon(now: string, sender: string, target: string, seqNum: nat, later: string, d: Draw,
                        stream: string)
    requires Plain(now) && Plain(sender) && Plain(target)
    requires stream == LogonText(now, sender, target, seqNum) + later
    ensures forall id :: Await(stream, id) == Await(later, id)
  {
    forall id ensures Await(stream, id) == Await(later, id) {
      LogonIsDrained(now, sender, target, seqNum, later, d, id);
    }
  }

  /** The output splits into the logon and the answers to the orders. */
  lemma OutputSplits(os: seq<NewOrder>, ats: seq<Stamps>, now: string, client: string, exchange: string,
                     sent: nat, draws: nat -> Draw, i: nat, last: nat)
    returns (output: string, reports: string)
    requires |ats| == |os| && Plain(now) && Plain(client) && Plain(exchange)
    requires forall k :: 0 <= k < |os| ==> PlainOrder(os[k]) && PlainStamps(ats[k])
    requires forall k :: PlainDraw(draws(k))
    ensures output == Serve(StreamText(Numbered([LogonMessage(now, client, exchange)]
                                                + OrderMessages(os, ats, client, exchange), sent)), draws, i, last)
    ensures output == LogonText(draws(i).at.sending, exchange, client, last + 1) + reports
    ensures Answered(reports, os, draws, i + 1, last + 1, client, exchange)
  {
    var logon, ms := LogonMessage(now, client, exchange), OrderMessages(os, ats, client, exchange);
    FirstOfStream(logon, ms, sent);
    output, reports := LogonExchange(now, client, exchange, sent + 1, StreamText(Numbered(ms, sent + 1)),
                                     draws, i, last);
    OrdersAreAnswered(os, ats, client, exchange, sent + 1, draws, i + 1, last + 1);
  }

  /** A whole session, wherever the two counters stand: whatever orders a client sends after its
      logon, the acceptor's output is its logon, which every wait drains, and then the reports in
      turn, and each of the client's waits ends at its own report. */
  lemma ConversationIsAnswered(os: seq<NewOrder>, ats: seq<Stamps>, now: string, client: string,
                               exchange: string, sent: nat, draws: nat -> Draw, i: nat, last: nat)
    returns (output: string, reports: string)
    requires |ats| == |os| && Plain(now) && Plain(client) && Plain(exchange)
    requires forall k :: 0 <= k < |os| ==> PlainOrder(os[k]) && PlainStamps(ats[k])
    requires forall k :: PlainDraw(draws(k))
    ensures output == Serve(StreamText(Numbered([LogonMessage(now, client, exchange)]
                                                + OrderMessages(os, ats, client, exchange), sent)), draws, i, last)
    ensures output == LogonText(draws(i).at.sending, exchange, client, last + 1) + reports
    ensures forall id :: Await(output, id) == Await(reports, id)
    ensures Answered(reports, os, draws, i + 1, last + 1, client, exchange)
  {
    output, reports := OutputSplits(os, ats, now, client, exchange, sent, draws, i, last);
    WaitsDrainLogon(draws(i).at.sending, exchange, client, last + 1, reports, draws(i), output);
  }

  lemma LogonExchange(now: string, client: string, exchange: string, seqNum: nat, rest: string,
                      draws: nat -> Draw, i: nat, last: nat)
    returns (output: string, reports: string)
    requires Plain(now) && Plain(client) && Plain(exchange)
    ensures output == Serve(LogonText(now, client, exchange, seqNum) + rest, draws, i, last)
    ensures reports == Serve(rest, draws, i + 1, last + 1)
    ensures output == LogonText(draws(i).at.sending, exchange, client, last + 1) + reports
  {
    LogonIsAnswered(now, client, exchange, seqNum, rest, draws, i, last);
    reports := Serve(rest, draws, i + 1, last + 1);
    output := LogonText(draws(i).at.sending, exchange, client, last + 1) + reports;
  }

  lemma FirstOfStream(o: Outgoing, os: seq<Outgoing>, last: nat)
    ensures StreamText(Numbered([o] + os, last))
         == Frame(FieldsText(FieldsOf(o, last + 1))) + StreamText(Numbered(os, last + 1))
  {
    assert ([o] + os)[1..] == os;
    var first, ms := FieldsOf(o, last + 1), Numbered(os, last + 1);
    assert Numbered([o] + os, last) == [first] + ms && ([first] + ms)[1..] == ms;
  }

  // ---------------------------------------------------------------- the other messages

  /** The bytes of a message. */
  function MessageText(o: Outgoing, seqNum: nat): string { Frame(FieldsText(FieldsOf(o, seqNum))) }

  /** A test request carries its id; a plain heartbeat has an empty body. */
  function HeartbeatBody(id: string): seq<Field> { if id == "" then [] else [Field(112, id)] }

  lemma HeartbeatTags(id: string, now: string, client: string, exchange: string, seqNum: nat)
    requires Plain(id) && Plain(now) && Plain(client) && Plain(exchange)
    ensures var m := Outgoing("0", client, exchange, now, HeartbeatBody(id));
            var tags := ParseTags(MessageText(m, seqNum));
            && UsualMessage(m)
            && Tag(tags, 35) == "0" && Tag(tags, 49) == client && Tag(tags, 56) == exchange && Tag(tags, 112) == id
  {
    var m := Outgoing("0", client, exchange, now, HeartbeatBody(id));
    HeartbeatIsUsual(id, now, client, exchange, seqNum);
    PartyTags(m, seqNum);
    if id == "" { TagMissing(m, seqNum, 112); } else { TagAt(m, seqNum, 5); }
  }

  lemma HeartbeatIsUsual(id: string, now: string, client: string, exchange: string, seqNum: nat)
    requires Plain(id) && Plain(now) && Plain(client) && Plain(exchange)
    ensures var m := Outgoing("0", client, exchange, now, HeartbeatBody(id));
            UsualMessage(m) && DistinctTags(FieldsOf(m, seqNum))
  {
    var m := Outgoing("0", client, exchange, now, HeartbeatBody(id));
    assert id != "" ==> m.body[0].tag in TAGS && m.body[0].value == id;
    DistinctBy(FieldsOf(m, seqNum), [35, 49, 56, 34, 52, 112]);
  }

  /** Type and parties of a message, as the other side reads them. */
  lemma PartyTags(m: Outgoing, seqNum: nat)
    requires UsualMessage(m) && DistinctTags(FieldsOf(m, seqNum))
    ensures var tags := ParseTags(MessageText(m, seqNum));
            Tag(tags, 35) == m.msgType && Tag(tags, 49) == m.sender && Tag(tags, 56) == m.target
  {
    FieldAt(m, seqNum);
    TagAt(m, seqNum, 0);
    TagAt(m, seqNum, 1);
    TagAt(m, seqNum, 2);
  }

  /** A heartbeat is answered by a heartbeat the other way, with the id of the test request. */
  lemma HeartbeatIsAnswered(id: string, now: string, client: string, exchange: string, seqNum: nat,
                            incoming: string, draws: nat -> Draw, i: nat, last: nat)
    requires Plain(id) && Plain(now) && Plain(client) && Plain(exchange)
    ensures Serve(MessageText(Outgoing("0", client, exchange, now, HeartbeatBody(id)), seqNum) + incoming,
                  draws, i, last)
         == MessageText(Outgoing("0", exchange, client, draws(i).at.sending, HeartbeatBody(id)), last + 1)
            + Serve(incoming, draws, i + 1, last + 1)
  {
    var m := Outgoing("0", client, exchange, now, HeartbeatBody(id));
    var a := Outgoing("0", exchange, client, draws(i).at.sending, HeartbeatBody(id));
    HeartbeatTags(id, now, client, exchange, seqNum);
    UsualIsReadBack(m, seqNum, incoming);
    ServeAnswered(MessageText(m, seqNum) + incoming, MessageText(m, seqNum), incoming, a, draws, i, last);
  }

  /** A logout is answered and ends the connection: nothing behind it is read. */
  lemma LogoutEndsServing(now: string, client: string, exchange: string, seqNum: nat, incoming: string,
                          draws: nat -> Draw, i: nat, last: nat)
    requires Plain(now) && Plain(client) && Plain(exchange)
    ensures Serve(MessageText(Outgoing("5", client, exchange, now, []), seqNum) + incoming, draws, i, last)
         == MessageText(Outgoing("5", exchange, client, draws(i).at.sending, []), last + 1)
  {
    var m := Outgoing("5", client, exchange, now, []);
    LogoutIsUsual(m, seqNum);
    PartyTags(m, seqNum);
    UsualIsReadBack(m, seqNum, incoming);
    ServeEnds(MessageText(m, seqNum) + incoming, MessageText(m, seqNum), incoming,
              Outgoing("5", exchange, client, draws(i).at.sending, []), draws, i, last);
  }

  lemma LogoutIsUsual(m: Outgoing, seqNum: nat)
    requires Plain(m.sender) && Plain(m.target) && Plain(m.now) && m.msgType == "5" && m.body == []
    ensures UsualMessage(m) && DistinctTags(FieldsOf(m, seqNum))
  {
    DistinctBy(FieldsOf(m, seqNum), [35, 49, 56, 34, 52]);
  }

  lemma ServeEnds(stream: string, m: string, rest: string, a: Outgoing, draws: nat -> Draw, i: nat, last: nat)
    requires FixCodec.ReadMsg(stream) == Got(m, rest)
    requires Answer(ParseTags(m), draws(i)) == Some(a) && Tag(ParseTags(m), 35) == "5"
    ensures Serve(stream, draws, i, last) == MessageText(a, last + 1)
  {
    assert MessageText(a, last + 1) + [] == MessageText(a, last + 1);
  }

  /** A message of any other type is skipped. */
  lemma OthersAreIgnored(m: Outgoing, seqNum: nat, incoming: string, draws: nat -> Draw, i: nat, last: nat)
    requires UsualMessage(m) && DistinctTags(FieldsOf(m, seqNum)) && m.msgType !in {"A", "0", "5", "D"}
    ensures Serve(MessageText(m, seqNum) + incoming, draws, i, last) == Serve(incoming, draws, i + 1, last)
  {
    PartyTags(m, seqNum);
    UsualIsReadBack(m, seqNum, incoming);
    ServeSkips(MessageText(m, seqNum) + incoming, MessageText(m, seqNum), incoming, draws, i, last);
  }

  lemma ServeSkips(stream: string, m: string, rest: string, draws: nat -> Draw, i: nat, last: nat)
    requires FixCodec.ReadMsg(stream) == Got(m, rest)
    requires Answer(ParseTags(m), draws(i)) == None && Tag(ParseTags(m), 35) != "5"
    ensures Serve(stream, draws, i, last) == Serve(rest, draws, i + 1, last)
  {
    assert [] + Serve(rest, draws, i + 1, last) == Serve(rest, draws, i + 1, last);
  }

  /** What the client reads off the report on its order. */
  lemma ReportTags(o: NewOrder, d: Draw, client: string, exchange: string, seqNum: nat)
    returns (tags: map<int, string>)
    requires PlainOrder(o) && PlainDraw(d) && Plain(client) && Plain(exchange)
    ensures tags == ParseTags(ReportText(o, d, client, exchange, seqNum))
    ensures Tag(tags, 35) == "8" && Tag(tags, 49) == exchange && Tag(tags, 56) == client
    ensures Tag(tags, 11) == o.id && Tag(tags, 55) == o.symbol && Tag(tags, 54) == (if o.buy then "1" else "2")
    ensures Tag(tags, 37) == "O" + d.execId && Tag(tags, 17) == d.execId && Tag(tags, 38) == Decimal(o.qty)
    ensures o.price.Some? && d.rests ==>
              && Tag(tags, 150) == "0" && Tag(tags, 39) == "0" && Tag(tags, 6) == "0"
              && Tag(tags, 14) == "0" && Tag(tags, 151) == Decimal(o.qty)
    ensures !(o.price.Some? && d.rests) ==>
              && Tag(tags, 150) == "F" && Tag(tags, 39) == "2"
              && Tag(tags, 14) == Decimal(o.qty) && Tag(tags, 151) == "0"
              && Tag(tags, 6) == (if o.price in {None, Some("")} then "100.0000" else o.price.value)
    ensures Tag(tags, 52) == d.at.sending && Tag(tags, 60) == d.at.transact
  {
    var m := ReportOf(o, d, client, exchange);
    ReportIsUsual(o, d, client, exchange, seqNum);
    tags := ParseTags(MessageText(m, seqNum));
    FieldAt(m, seqNum);
    ReportFields(o, d, client, exchange);
    PartyTags(m, seqNum);
    TagAt(m, seqNum, 4);
    forall j: nat | j < 12 ensures Tag(tags, m.body[j].tag) == m.body[j].value { BodyTag(m, seqNum, j); }
  }

  /** What the body of a report holds, field by field. */
  lemma ReportFields(o: NewOrder, d: Draw, client: string, exchange: string)
    ensures var b, open := ReportOf(o, d, client, exchange).body, o.price.Some? && d.rests;
            && |b| == 12 && b[0] == Field(11, o.id) && b[1] == Field(37, "O" + d.execId) && b[2] == Field(17, d.execId)
            && b[3] == Field(150, if open then "0" else "F") && b[4] == Field(39, if open then "0" else "2")
            && b[5] == Field(55, o.symbol) && b[6] == Field(54, if o.buy then "1" else "2")
            && b[7] == Field(38, Decimal(o.qty)) && b[8] == Field(14, if open then "0" else Decimal(o.qty))
            && b[9] == Field(151, if open then Decimal(o.qty) else "0")
            && b[10] == Field(6, if open then "0"
                                 else if o.price in {None, Some("")} then "100.0000" else o.price.value)
            && b[11] == Field(60, d.at.transact)
  {
  }

  lemma BodyTag(m: Outgoing, seqNum: nat, j: nat)
    requires UsualMessage(m) && DistinctTags(FieldsOf(m, seqNum)) && j < |m.body|
    ensures Tag(ParseTags(MessageText(m, seqNum)), m.body[j].tag) == m.body[j].value
  {
    FieldAt(m, seqNum);
    TagAt(m, seqNum, j + 5);
  }

  lemma FieldAt(m: Outgoing, seqNum: nat)
    ensures var fs := FieldsOf(m, seqNum);
            && fs[0] == Field(35, m.msgType) && fs[1] == Field(49, m.sender) && fs[2] == Field(56, m.target)
            && fs[3] == Field(34, Decimal(seqNum)) && fs[4] == Field(52, m.now)
            && forall j :: 0 <= j < |m.body| ==> fs[j + 5] == m.body[j]
  {
  }

  /** Which messages end a wait: execution reports for this very order. All others with an order
      id, reports on other orders among them, are drained. */
  lemma WaitEndsIff(m: Outgoing, seqNum: nat, j: nat, later: string, id: string)
    requires UsualMessage(m) && DistinctTags(FieldsOf(m, seqNum)) && j < |m.body| && m.body[j].tag == 11
    ensures Await(MessageText(m, seqNum) + later, id)
         == if m.msgType == "8" && m.body[j].value == id then Some(later) else Await(later, id)
  {
    PartyTags(m, seqNum);
    BodyTag(m, seqNum, j);
    UsualIsReadBack(m, seqNum, later);
    AwaitGoesOn(MessageText(m, seqNum), later, id);
  }

  lemma MessageIsIntact(o: Outgoing, seqNum: nat)
    returns (msg: string)
    requires UsualMessage(o) && DistinctTags(FieldsOf(o, seqNum))
    ensures msg == Frame(FieldsText(FieldsOf(o, seqNum)))
    ensures ChecksumOk(msg) && LengthOk(msg)
    ensures Tag(ParseTags(msg), 34) == Decimal(seqNum)
  {
    msg := Frame(FieldsText(FieldsOf(o, seqNum)));
    FrameIsIntact(FieldsText(FieldsOf(o, seqNum)));
    TagAt(o, seqNum, 3);
  }

  /** Message i of a session passes the receiver's checks and carries the next number after
      its predecessor's. */
  lemma SessionIsIntact(os: seq<Outgoing>, last: nat, i: nat)
    returns (msg: string)
    requires i < |os| && UsualMessage(os[i]) && DistinctTags(FieldsOf(os[i], last + 1 + i))
    ensures msg == Frame(FieldsText(Numbered(os, last)[i]))
    ensures ChecksumOk(msg) && LengthOk(msg)
    ensures Tag(ParseTags(msg), 34) == Decimal(last + 1 + i)
  {
    msg := MessageIsIntact(os[i], last + 1 + i);
  }

  /** The two ends count from 1 and bump before they print: the first message of every session
      carries number 2, where FIX 4.4 starts a session at 1. */
  lemma FirstNumberIsTwo(os: seq<Outgoing>)
    returns (msg: string)
    requires os != [] && UsualMessage(os[0]) && DistinctTags(FieldsOf(os[0], 2))
    ensures msg == Frame(FieldsText(Numbered(os, 1)[0]))
    ensures Tag(ParseTags(msg), 34) == "2"
  {
    msg := SessionIsIntact(os, 1, 0);
    assert Decimal(2) == [Digit(2)] == "2";
  }

  // ---------------------------------------------------------------- the bytes of a message

  lemma TwoDigits(n: nat)
    requires 10 <= n < 100
    ensures Decimal(n) == ["0123456789"[n / 10], "0123456789"[n % 10]]
  {
    DecimalDigits(n);
    DecimalDigits(n / 10);
  }

  lemma FieldBytes(tag: nat, t: string, value: string, more: seq<Field>)
    requires 10 <= tag < 100 && t == ["0123456789"[tag / 10], "0123456789"[tag % 10], '=']
    ensures FieldsText([Field(tag, value)] + more) == t + value + "\U{0001}" + FieldsText(more)
  {
    TwoDigits(tag);
    assert ([Field(tag, value)] + more)[1..] == more;
    assert Decimal(tag) + "=" == t;
  }

  /** The bytes of header and body: the message type first, then sender, target, number and
      time, then the body. */
  lemma HeaderBytes(o: Outgoing, seqNum: nat)
    ensures FieldsText(FieldsOf(o, seqNum))
         == "35=" + o.msgType + "\U{0001}" + ("49=" + o.sender + "\U{0001}" + ("56=" + o.target + "\U{0001}"
            + ("34=" + Decimal(seqNum) + "\U{0001}" + ("52=" + o.now + "\U{0001}" + FieldsText(o.body)))))
  {
    var five := [Field(52, o.now)] + o.body;
    var four := [Field(34, Decimal(seqNum))] + five;
    var three := [Field(56, o.target)] + four;
    var two := [Field(49, o.sender)] + three;
    FieldBytes(52, "52=", o.now, o.body);
    FieldBytes(34, "34=", Decimal(seqNum), five);
    FieldBytes(56, "56=", o.target, four);
    FieldBytes(49, "49=", o.sender, three);
    FieldBytes(35, "35=", o.msgType, two);
    assert FieldsOf(o, seqNum) == [Field(35, o.msgType)] + two;
  }

  /** The bytes of a message around them: begin string, length, and the check, three digits of
      the sum of all bytes before it. */
  lemma FrameBytes(text: string) returns (before: string, check: nat)
    ensures before == "8=FIX.4.4\U{0001}9=" + Decimal(|text|) + "\U{0001}" + text && check == ByteSum(before) % 256
    ensures Frame(text) == before + "10="
              + ["0123456789"[check / 100], "0123456789"[check / 10 % 10], "0123456789"[check % 10]] + "\U{0001}"
  {
    before, check := Counted(text), ByteSum(Counted(text)) % 256;
    assert "8=FIX.4.4" + [SOH] + "9=" == "8=FIX.4.4\U{0001}9=";
    Pad3Digits(check);
    TwoDigits(10);
    TrailerText(Pad3(check));
  }

  // ---------------------------------------------------------------- a mark inside an order

  /** What is in front of the symbol in an order. */
  function BeforeSymbol(o: NewOrder, at: Stamps, client: string, exchange: string, seqNum: nat): seq<Field> {
    Header("D", client, exchange, seqNum, at.sending) + [Field(11, o.id)]
  }

  /** An order up to its symbol, under the length of the whole order. */
  function UpToSymbol(o: NewOrder, at: Stamps, client: string, exchange: string, seqNum: nat): seq<Field> {
    var text := FieldsText(FieldsOf(OrderMessage(o, at, client, exchange), seqNum));
    [BEGIN, Field(9, Decimal(|text|))] + BeforeSymbol(o, at, client, exchange, seqNum) + [Field(55, o.symbol)]
  }

  lemma BeforeSymbolPlain(o: NewOrder, at: Stamps, client: string, exchange: string, seqNum: nat, length: nat)
    requires Plain(o.id) && PlainStamps(at) && Plain(client) && Plain(exchange)
    ensures var pre := [BEGIN, Field(9, Decimal(length))] + BeforeSymbol(o, at, client, exchange, seqNum);
            AllCarried(pre) && NoneTrips(pre)
  {
    var fs := BeforeSymbol(o, at, client, exchange, seqNum);
    var m := Outgoing("D", client, exchange, at.sending, [Field(11, o.id)]);
    assert m.body[0].tag in TAGS;
    UsualFieldsOf(m, seqNum);
    UsualFields(fs);
    DigitsDoNotTrip(9, length);
    assert Carried(BEGIN) && !Trips(BEGIN);
  }

  /** The order as the fields up to its symbol, the symbol, and the others. */
  lemma OrderAtSymbol(o: NewOrder, at: Stamps, client: string, exchange: string, seqNum: nat)
    returns (pre: seq<Field>, post: seq<Field>)
    ensures pre + [Field(55, o.symbol)] == UpToSymbol(o, at, client, exchange, seqNum)
    ensures pre == [BEGIN, Field(9, Decimal(|FieldsText(FieldsOf(OrderMessage(o, at, client, exchange), seqNum))|))]
                   + BeforeSymbol(o, at, client, exchange, seqNum)
    ensures post != [] && OrderText(o, at, client, exchange, seqNum) == FieldsText(pre + [Field(55, o.symbol)] + post)
  {
    var fs := FieldsOf(OrderMessage(o, at, client, exchange), seqNum);
    var head := [BEGIN, Field(9, Decimal(|FieldsText(fs)|))];
    FrameIsFields(fs);
    pre := head + BeforeSymbol(o, at, client, exchange, seqNum);
    post := OrderBody(o, at.transact)[2..] + [Trailer(fs)];
    Splice(head, Header("D", client, exchange, seqNum, at.sending), OrderBody(o, at.transact), [Trailer(fs)]);
  }

  lemma Splice(a: seq<Field>, h: seq<Field>, b: seq<Field>, t: seq<Field>)
    requires |b| >= 2
    ensures a + (h + b) + t == a + (h + [b[0]]) + [b[1]] + (b[2..] + t)
  {
  }

  /** An order whose symbol holds the mark is cut behind the symbol: the acceptor takes what
      came so far for the whole order. */
  lemma MarkedSymbolCutsOrder(o: NewOrder, at: Stamps, client: string, exchange: string, seqNum: nat, incoming: string)
    returns (msg: string, rest: string)
    requires Plain(o.id) && PlainStamps(at) && Plain(client) && Plain(exchange)
    requires Free(o.symbol, SOH) && HasMark(o.symbol)
    ensures FixCodec.ReadMsg(OrderText(o, at, client, exchange, seqNum) + incoming) == Got(msg, rest)
    ensures msg == FieldsText(UpToSymbol(o, at, client, exchange, seqNum))
    ensures |msg| < |OrderText(o, at, client, exchange, seqNum)|
  {
    var pre, post := OrderAtSymbol(o, at, client, exchange, seqNum);
    var symbol := Field(55, o.symbol);
    var fs := FieldsOf(OrderMessage(o, at, client, exchange), seqNum);
    BeforeSymbolPlain(o, at, client, exchange, seqNum, |FieldsText(fs)|);
    ReadCutShort(pre, symbol, post, incoming);
    FieldsConcat(pre + [symbol], post);
    FieldsNotEmpty(post);
    msg, rest := FieldsText(pre + [symbol]), FieldsText(post) + incoming;
  }

  /** In that message it finds the type and the symbol of the order, but no quantity. */
  lemma CutOrderTags(o: NewOrder, at: Stamps, client: string, exchange: string, seqNum: nat)
    requires Plain(o.id) && PlainStamps(at) && Plain(client) && Plain(exchange) && Free(o.symbol, SOH)
    ensures var tags := ParseTags(FieldsText(UpToSymbol(o, at, client, exchange, seqNum)));
            Tag(tags, 35) == "D" && Tag(tags, 55) == o.symbol && Tag(tags, 38) == ""
  {
    var length := |FieldsText(FieldsOf(OrderMessage(o, at, client, exchange), seqNum))|;
    var pre := [BEGIN, Field(9, Decimal(length))] + BeforeSymbol(o, at, client, exchange, seqNum);
    BeforeSymbolPlain(o, at, client, exchange, seqNum, length);
    ParseFields(pre + [Field(55, o.symbol)], map[]);
    TagsUpToSymbol(pre, "D", client, exchange, seqNum, at.sending, o.id, o.symbol);
  }

  lemma TagsUpToSymbol(pre: seq<Field>, msgType: string, sender: string, target: string, seqNum: nat, now: string,
                       id: string, symbol: string)
    requires |pre| == 8 && pre[0].tag == 8 && pre[1].tag == 9
    requires pre[2..] == Header(msgType, sender, target, seqNum, now) + [Field(11, id)]
    ensures var tags := Collect(pre + [Field(55, symbol)], map[]);
            Tag(tags, 35) == msgType && Tag(tags, 55) == symbol && Tag(tags, 38) == ""
  {
    var all := pre + [Field(55, symbol)];
    forall i | 2 <= i < 8 ensures all[i] == pre[2..][i - 2] {}
    CollectIsLast(all, 35);
    CollectIsLast(all, 55);
    CollectIsLast(all, 38);
    LastIsThere(all, 38);
    LastIsOnly(all, 2);
  }
}
