/** The FIX 4.4 wire format of the bot client and of the engine's acceptor, which print and
    read messages with the same code: fields `tag=value SOH`, a frame that counts and sums
    the bytes, a reader that cuts the byte stream into messages, and a tag parser. */
module FixCodec {
  import opened Lexical
  import opened Options

  const SOH: char := '\U{0001}'

  datatype Field = Field(tag: nat, value: string)

  function FieldText(f: Field): string { Decimal(f.tag) + "=" + f.value + [SOH] }

  function FieldsText(fs: seq<Field>): string {
    if fs == [] then [] else FieldText(fs[0]) + FieldsText(fs[1..])
  }

  function ByteSum(s: string): nat {
    if s == [] then 0 else ByteSum(s[..|s| - 1]) + s[|s| - 1] as int
  }

  const BEGIN := Field(8, "FIX.4.4")

  /** Everything before the trailer, for a header and body of this text. */
  function Counted(bodyFull: string): string {
    "8=FIX.4.4" + [SOH] + "9=" + Decimal(|bodyFull|) + [SOH] + bodyFull
  }

  /** A whole message around its header and body. */
  function Frame(bodyFull: string): string {
    Counted(bodyFull) + FieldText(Field(10, Pad3(ByteSum(Counted(bodyFull)) % 256)))
  }

  /** The fields of the message framed around the fields fs. */
  function MessageFields(fs: seq<Field>): seq<Field> {
    var text := FieldsText(fs);
    [BEGIN, Field(9, Decimal(|text|))] + fs + [Field(10, Pad3(ByteSum(Counted(text)) % 256))]
  }

  function Header(msgType: string, sender: string, target: string, seqNum: nat, now: string): seq<Field> {
    [Field(35, msgType), Field(49, sender), Field(56, target), Field(34, Decimal(seqNum)), Field(52, now)]
  }

  /** What the check sums up: every byte once, separators included. */
  lemma {:induction false} ByteSumConcat(a: string, b: string)
    ensures ByteSum(a + b) == ByteSum(a) + ByteSum(b)
  {
    if b == [] {
      assert a + b == a;
    } else {
      assert (a + b)[..|a + b| - 1] == a + b[..|b| - 1];
      ByteSumConcat(a, b[..|b| - 1]);
    }
  }

  lemma ByteSumOne(c: char)
    ensures ByteSum([c]) == c as int
  {
    assert [c][..0] == [];
  }

  // ---------------------------------------------------------------- reading

  datatype Read = Got(msg: string, rest: string) | Eof {
    /** The same read with more text before it. */
    function After(text: string): Read {
      match this
      case Eof => Eof
      case Got(m, r) => Got(text + m, r)
    }
  }

  /** The trailer mark the reader looks for in each chunk. */
  predicate HasMark(chunk: string) { Contains3(chunk, '1', '0', '=') }

  /** Chunks up to and including SOH are collected until one holds the mark; a chunk cut short
      by the end of the stream is an error. */
  function ReadMsg(stream: string): (r: Read)
    ensures r.Got? ==> stream == r.msg + r.rest && |r.rest| < |stream|
    decreases |stream|
  {
    var i := Find(stream, SOH);
    if i == |stream| then Eof
    else
      var chunk, rest := stream[..i + 1], stream[i + 1..];
      if HasMark(chunk) then Got(chunk, rest)
      else
        assert stream == chunk + rest;
        ReadMsg(rest).After(chunk)
  }

  /** All complete messages of a stream, in order. */
  function ReadAll(stream: string): seq<string>
    decreases |stream|
  {
    match ReadMsg(stream)
    case Eof => []
    case Got(m, rest) => [m] + ReadAll(rest)
  }

  /** Scans the parts left to right; a later field overrides an earlier one. */
  function ParseParts(parts: seq<string>, out: map<int, string>): map<int, string>
    decreases |parts|
  {
    if parts == [] then out
    else
      var part := parts[0];
      var i := Find(part, '=');
      var out' :=
        if i == |part| then out
        else
          match ScanInt(part[..i])
          case None => out
          case Some(tag) => out[tag := part[i + 1..]];
      ParseParts(parts[1..], out')
  }

  function ParseTags(msg: string): map<int, string> { ParseParts(Split(msg, SOH), map[]) }

  // ---------------------------------------------------------------- framing

  /** A value the printer can carry: it holds no field separator. */
  predicate Carried(f: Field) { Free(f.value, SOH) }

  /** A field whose text trips the reader: its tag ends in 10, or its value holds the mark. */
  predicate Trips(f: Field) { f.tag % 100 == 10 || HasMark(f.value) }

  lemma MarkInside(t: string, d: string, v: string, i: int)
    requires t == d + "=" + v + [SOH] && AllDigits(d)
    requires 0 <= i < |t| - 2 && t[i] == '1' && t[i + 1] == '0' && t[i + 2] == '='
    ensures (|d| >= 2 && d[|d| - 2] == '1' && d[|d| - 1] == '0') || HasMark(v)
  {
    var n := |d|;
    assert forall j :: 0 <= j < n ==> t[j] == d[j] && t[j] != '=';
    assert t[n] == '=' && t[n + 1..] == v + [SOH];
    if i > n {
      var j := i - (n + 1);
      assert v[j] == t[i] && v[j + 1] == t[i + 1];
      assert (v + [SOH])[j + 2] == t[i + 2];
    }
  }

  /** The mark occurs in a field's text exactly when the field trips the reader. */
  lemma MarkInField(f: Field)
    ensures HasMark(FieldText(f)) == Trips(f)
  {
    var t, d, n := FieldText(f), Decimal(f.tag), |Decimal(f.tag)|;
    DecimalRoundTrip(f.tag);
    DecimalEndsIn10(f.tag);
    if f.tag % 100 == 10 {
      assert t[n - 2] == '1' && t[n - 1] == '0' && t[n] == '=';
    } else if HasMark(f.value) {
      var i :| 0 <= i < |f.value| - 2 && f.value[i] == '1' && f.value[i + 1] == '0' && f.value[i + 2] == '=';
      assert t[n + 1..] == f.value + [SOH];
      assert t[n + 1 + i] == '1' && t[n + 1 + i + 1] == '0' && t[n + 1 + i + 2] == '=';
    } else if HasMark(t) {
      var i :| 0 <= i < |t| - 2 && t[i] == '1' && t[i + 1] == '0' && t[i + 2] == '=';
      MarkInside(t, d, f.value, i);
    }
  }

  /** A field is one chunk of the stream. */
  lemma ReadField(f: Field, more: string)
    requires Carried(f)
    ensures ReadMsg(FieldText(f) + more) ==
            if Trips(f) then Got(FieldText(f), more) else ReadMsg(more).After(FieldText(f))
  {
    DecimalRoundTrip(f.tag);
    var a := Decimal(f.tag) + "=" + f.value;
    var s := FieldText(f) + more;
    assert s == a + [SOH] + more;
    FindAfter(a, SOH, more);
    assert s[..|a| + 1] == FieldText(f) && s[|a| + 1..] == more;
    MarkInField(f);
  }

  predicate AllCarried(fs: seq<Field>) { forall i :: 0 <= i < |fs| ==> Carried(fs[i]) }

  predicate NoneTrips(fs: seq<Field>) { forall i :: 0 <= i < |fs| ==> !Trips(fs[i]) }

  lemma {:induction false} FieldsConcat(fs: seq<Field>, gs: seq<Field>)
    ensures FieldsText(fs + gs) == FieldsText(fs) + FieldsText(gs)
  {
    if fs == [] {
      assert fs + gs == gs;
    } else {
      assert (fs + gs)[1..] == fs[1..] + gs;
      FieldsConcat(fs[1..], gs);
    }
  }

  lemma AfterAfter(a: string, b: string, r: Read)
    ensures r.After(b).After(a) == r.After(a + b)
  {
    if r.Got? { assert a + (b + r.msg) == a + b + r.msg; }
  }

  lemma {:induction false} ReadThrough(fs: seq<Field>, more: string)
    requires AllCarried(fs) && NoneTrips(fs)
    ensures ReadMsg(FieldsText(fs) + more) == ReadMsg(more).After(FieldsText(fs))
  {
    if fs == [] {
      assert [] + more == more;
      if ReadMsg(more).Got? { assert [] + ReadMsg(more).msg == ReadMsg(more).msg; }
    } else {
      var tail := FieldsText(fs[1..]);
      assert FieldsText(fs) + more == FieldText(fs[0]) + (tail + more);
      ReadField(fs[0], tail + more);
      ReadThrough(fs[1..], more);
      AfterAfter(FieldText(fs[0]), tail, ReadMsg(more));
    }
  }

  /** A message cut short by the end of the stream is an error. */
  lemma CutShortIsEof(fs: seq<Field>, part: string)
    requires AllCarried(fs) && NoneTrips(fs) && Free(part, SOH)
    ensures ReadMsg(FieldsText(fs) + part) == Eof
  {
    ReadThrough(fs, part);
    assert Find(part, SOH) == |part|;
  }

  /** The reader stops right after the first tripping field. */
  lemma ReadStops(fs: seq<Field>, f: Field, more: string)
    requires AllCarried(fs) && NoneTrips(fs) && Carried(f) && Trips(f)
    ensures ReadMsg(FieldsText(fs + [f]) + more) == Got(FieldsText(fs + [f]), more)
  {
    FieldsConcat(fs, [f]);
    assert FieldsText([f]) == FieldText(f) + FieldsText([]) == FieldText(f);
    ReadField(f, more);
    ReadThrough(fs, FieldText(f) + more);
    assert FieldsText(fs + [f]) + more == FieldsText(fs) + (FieldText(f) + more);
  }

  /** A field that trips the reader inside a message cuts the message there. */
  lemma ReadCutShort(pre: seq<Field>, f: Field, post: seq<Field>, rest: string)
    requires AllCarried(pre) && NoneTrips(pre) && Carried(f) && Trips(f)
    ensures ReadMsg(FieldsText(pre + [f] + post) + rest) == Got(FieldsText(pre + [f]), FieldsText(post) + rest)
  {
    TextSplits(pre + [f], post, rest);
    ReadStops(pre, f, FieldsText(post) + rest);
  }

  lemma TextSplits(fs: seq<Field>, gs: seq<Field>, rest: string)
    ensures FieldsText(fs + gs) + rest == FieldsText(fs) + (FieldsText(gs) + rest)
  {
    FieldsConcat(fs, gs);
    Associative(FieldsText(fs), FieldsText(gs), rest);
  }

  lemma Associative(a: string, b: string, c: string)
    ensures a + (b + c) == a + b + c
  {
  }

  lemma FieldsNotEmpty(fs: seq<Field>)
    requires fs != []
    ensures |FieldsText(fs)| > 0
  {
  }

  /** Exactly when a message is read back: the last field trips the reader, as the trailer
      does, and no earlier field does. */
  lemma ReadBackIff(fs: seq<Field>, last: Field, rest: string)
    requires AllCarried(fs) && Carried(last) && Trips(last)
    ensures ReadMsg(FieldsText(fs + [last]) + rest) == Got(FieldsText(fs + [last]), rest) <==> NoneTrips(fs)
  {
    if NoneTrips(fs) {
      ReadStops(fs, last, rest);
    } else {
      var k := FirstTrip(fs);
      assert fs + [last] == fs[..k] + [fs[k]] + (fs[k + 1..] + [last]);
      ReadCutShort(fs[..k], fs[k], fs[k + 1..] + [last], rest);
      FieldsNotEmpty(fs[k + 1..] + [last]);
    }
  }

  lemma {:induction false} FirstTrip(fs: seq<Field>) returns (k: nat)
    requires !NoneTrips(fs)
    ensures k < |fs| && Trips(fs[k]) && NoneTrips(fs[..k])
  {
    if Trips(fs[0]) {
      k := 0;
    } else {
      assert forall i :: 1 <= i < |fs| ==> fs[i] == fs[1..][i - 1];
      k := FirstTrip(fs[1..]);
      k := k + 1;
      assert forall i :: 1 <= i < k ==> fs[i] == fs[1..][..k - 1][i - 1];
    }
  }

  // ---------------------------------------------------------------- whole messages and streams

  lemma DigitsDoNotTrip(tag: nat, n: nat)
    requires tag % 100 != 10
    ensures !Trips(Field(tag, Decimal(n))) && Carried(Field(tag, Decimal(n)))
  {
    DecimalRoundTrip(n);
    assert forall i :: 0 <= i < |Decimal(n)| ==> IsDigit(Decimal(n)[i]);
  }

  function Trailer(fs: seq<Field>): Field {
    Field(10, Pad3(ByteSum(Counted(FieldsText(fs))) % 256))
  }

  /** A frame is the text of its fields. */
  lemma {:induction false} FrameIsFields(fs: seq<Field>)
    ensures Frame(FieldsText(fs)) == FieldsText(MessageFields(fs))
    ensures MessageFields(fs) == [BEGIN, Field(9, Decimal(|FieldsText(fs)|))] + fs + [Trailer(fs)]
  {
    var head, text := [BEGIN, Field(9, Decimal(|FieldsText(fs)|))], FieldsText(fs);
    assert FieldText(BEGIN) == "8=FIX.4.4" + [SOH];
    assert FieldText(head[1]) == "9=" + Decimal(|text|) + [SOH];
    assert FieldsText(head) == FieldText(BEGIN) + FieldText(head[1]) by {
      assert head[1..] == [head[1]];
      assert FieldsText([head[1]]) == FieldText(head[1]) + FieldsText([]) == FieldText(head[1]);
    }
    FieldsConcat(head, fs);
    FieldsConcat(head + fs, [Trailer(fs)]);
    assert FieldsText([Trailer(fs)]) == FieldText(Trailer(fs)) + FieldsText([]) == FieldText(Trailer(fs));
    assert FieldsText(head) + text == Counted(text);
  }

  lemma TrailerTrips(fs: seq<Field>)
    ensures Trips(Trailer(fs)) && Carried(Trailer(fs))
  {
    Pad3RoundTrip(ByteSum(Counted(FieldsText(fs))) % 256);
    assert forall i :: 0 <= i < |Trailer(fs).value| ==> IsDigit(Trailer(fs).value[i]);
  }

  /** A framed message is read back from any stream exactly when none of its own fields trips
      the reader. */
  lemma MessageReadBackIff(fs: seq<Field>, rest: string)
    requires AllCarried(fs)
    ensures ReadMsg(Frame(FieldsText(fs)) + rest) == Got(Frame(FieldsText(fs)), rest) <==> NoneTrips(fs)
  {
    FrameIsFields(fs);
    var length := Field(9, Decimal(|FieldsText(fs)|));
    DigitsDoNotTrip(9, |FieldsText(fs)|);
    assert !Trips(BEGIN) && Carried(BEGIN);
    TrailerTrips(fs);
    var inner := [BEGIN, length] + fs;
    assert NoneTrips(inner) == NoneTrips(fs) by {
      if NoneTrips(inner) { assert forall i :: 0 <= i < |fs| ==> fs[i] == inner[i + 2]; }
    }
    ReadBackIff(inner, Trailer(fs), rest);
  }

  /** The byte stream of a list of messages, each given by its header and body fields. */
  function StreamText(ms: seq<seq<Field>>): string {
    if ms == [] then [] else Frame(FieldsText(ms[0])) + StreamText(ms[1..])
  }

  function Texts(ms: seq<seq<Field>>): seq<string> {
    if ms == [] then [] else [Frame(FieldsText(ms[0]))] + Texts(ms[1..])
  }

  lemma SamePrefix(a: string, b: string, x: string, y: string)
    requires a + x == b + y && |a| == |b|
    ensures a == b && x == y
  {
    assert (a + x)[..|a|] == a && (b + y)[..|b|] == b;
    assert (a + x)[|a|..] == x && (b + y)[|b|..] == y;
  }

  /** The first message of a stream is m exactly when one read returns m and what follows. */
  lemma FirstIs(m: string, rest: string)
    ensures (ReadAll(m + rest) != [] && ReadAll(m + rest)[0] == m) <==> ReadMsg(m + rest) == Got(m, rest)
    ensures ReadMsg(m + rest) == Got(m, rest) ==> ReadAll(m + rest) == [m] + ReadAll(rest)
  {
    var r := ReadMsg(m + rest);
    if r.Got? && r.msg == m { SamePrefix(m, r.msg, rest, r.rest); }
  }

  predicate NoFieldTrips(ms: seq<seq<Field>>) { forall i :: 0 <= i < |ms| ==> NoneTrips(ms[i]) }

  predicate AllFieldsCarried(ms: seq<seq<Field>>) { forall i :: 0 <= i < |ms| ==> AllCarried(ms[i]) }

  /** Every stream splits back: reading the concatenation of any list of messages returns
      exactly those messages, in order, if and only if no header or body field trips the
      reader. */
  lemma {:induction false} StreamSplitsIff(ms: seq<seq<Field>>)
    requires AllFieldsCarried(ms)
    ensures ReadAll(StreamText(ms)) == Texts(ms) <==> NoFieldTrips(ms)
  {
    if ms == [] {
    } else {
      var m, rest, tail := Frame(FieldsText(ms[0])), StreamText(ms[1..]), Texts(ms[1..]);
      MessageReadBackIff(ms[0], rest);
      FirstIs(m, rest);
      StreamSplitsIff(ms[1..]);
      NoneTripsFrom(ms);
      SameTail(m, ReadAll(rest), tail);
    }
  }

  lemma SameTail(m: string, s: seq<string>, t: seq<string>)
    ensures [m] + s == [m] + t <==> s == t
  {
    assert ([m] + s)[1..] == s && ([m] + t)[1..] == t;
  }

  lemma NoneTripsFrom(ms: seq<seq<Field>>)
    requires ms != []
    ensures NoFieldTrips(ms) == (NoneTrips(ms[0]) && NoFieldTrips(ms[1..]))
  {
    if NoFieldTrips(ms[1..]) { assert forall i :: 1 <= i < |ms| ==> ms[i] == ms[1..][i - 1]; }
  }

  // ---------------------------------------------------------------- parsing

  /** The tag map of a list of fields: later fields override, tags beyond 64 bits are skipped. */
  function Collect(fs: seq<Field>, out: map<int, string>): map<int, string>
    decreases |fs|
  {
    if fs == [] then out
    else Collect(fs[1..], if fs[0].tag <= MAX_INT64 then out[fs[0].tag := fs[0].value] else out)
  }

  /** Parsing the text of any fields with separator-free values gives exactly their tag map;
      values may hold `=`. */
  lemma {:induction false} ParseFields(fs: seq<Field>, out: map<int, string>)
    requires AllCarried(fs)
    ensures ParseParts(Split(FieldsText(fs), SOH), out) == Collect(fs, out)
  {
    if fs == [] {
      assert Split([], SOH) == [[]];
    } else {
      var d, v, more := Decimal(fs[0].tag), fs[0].value, FieldsText(fs[1..]);
      var part := d + "=" + v;
      DecimalRoundTrip(fs[0].tag);
      assert FieldsText(fs) == part + [SOH] + more;
      SplitAfter(part, SOH, more);
      var parts := Split(FieldsText(fs), SOH);
      assert parts[0] == part && parts[1..] == Split(more, SOH);
      FindAfter(d, '=', v);
      assert part == d + ['='] + v && part[..|d|] == d && part[|d| + 1..] == v;
      ScanDecimal(fs[0].tag);
      ParseFields(fs[1..], if fs[0].tag <= MAX_INT64 then out[fs[0].tag := v] else out);
    }
  }

  lemma {:induction false} PartsInTurn(ps: seq<string>, qs: seq<string>, out: map<int, string>)
    ensures ParseParts(ps + qs, out) == ParseParts(qs, ParseParts(ps, out))
    decreases |ps|
  {
    if ps == [] {
      assert ps + qs == qs;
    } else {
      assert (ps + qs)[1..] == ps[1..] + qs;
      assert ParseParts(ps + qs, out) == ParseParts(ps[1..] + qs, ParseParts([ps[0]], out)) by {
        assert [ps[0]][1..] == [];
      }
      assert ParseParts(ps, out) == ParseParts(ps[1..], ParseParts([ps[0]], out)) by {
        assert [ps[0]][1..] == [];
      }
      PartsInTurn(ps[1..], qs, ParseParts([ps[0]], out));
    }
  }

  /** A part without `=` is skipped. */
  lemma NoEqualsSkipped(part: string, out: map<int, string>)
    requires Free(part, '=')
    ensures ParseParts([part], out) == out
  {
    var parts: seq<string> := [part];
    assert parts[1..] == [];
    FindNone(part, '=');
  }

  lemma FindNone(s: string, c: char)
    requires Free(s, c)
    ensures Find(s, c) == |s|
  {
  }

  /** Any other part is cut at its first `=`: it counts if a number stands in front. */
  lemma PartCounts(tag: string, value: string, out: map<int, string>)
    requires Free(tag, '=')
    ensures ParseParts([tag + "=" + value], out)
         == match ScanInt(tag)
            case None => out
            case Some(t) => out[t := value]
  {
    var part := tag + "=" + value;
    var parts: seq<string> := [part];
    assert parts[1..] == [];
    assert part == tag + ['='] + value;
    FindAfter(tag, '=', value);
    assert part[..|tag|] == tag && part[|tag| + 1..] == value;
  }

  /** The value of the last field with this tag. */
  ghost function LastValue(fs: seq<Field>, tag: int): Option<string> {
    if fs == [] then None
    else if fs[|fs| - 1].tag == tag then Some(fs[|fs| - 1].value)
    else LastValue(fs[..|fs| - 1], tag)
  }

  lemma {:induction false} CollectAppend(fs: seq<Field>, f: Field, out: map<int, string>)
    ensures Collect(fs + [f], out)
         == if f.tag <= MAX_INT64 then Collect(fs, out)[f.tag := f.value] else Collect(fs, out)
  {
    if fs == [] {
      assert fs + [f] == [f] && [f][1..] == [];
    } else {
      assert (fs + [f])[1..] == fs[1..] + [f];
      CollectAppend(fs[1..], f, if fs[0].tag <= MAX_INT64 then out[fs[0].tag := fs[0].value] else out);
    }
  }

  /** The tag map holds exactly the tags that occur, each with its last value. */
  lemma {:induction false} CollectIsLast(fs: seq<Field>, tag: int)
    requires tag <= MAX_INT64
    ensures var m := Collect(fs, map[]);
            match LastValue(fs, tag)
            case None => tag !in m
            case Some(v) => tag in m && m[tag] == v
  {
    if fs == [] {
    } else {
      var n := |fs| - 1;
      assert fs == fs[..n] + [fs[n]];
      CollectAppend(fs[..n], fs[n], map[]);
      CollectIsLast(fs[..n], tag);
    }
  }

  /** A message read back from a stream parses to exactly the tag map of its header, body and
      trailer fields. */
  lemma {:induction false} MessageParses(fs: seq<Field>)
    requires AllCarried(fs)
    ensures ParseTags(Frame(FieldsText(fs))) == Collect(MessageFields(fs), map[])
  {
    FrameIsFields(fs);
    DigitsDoNotTrip(9, |FieldsText(fs)|);
    assert Carried(BEGIN);
    TrailerTrips(fs);
    ParseFields(MessageFields(fs), map[]);
  }

  // ---------------------------------------------------------------- integrity

  /** The receiver's check of the trailer under FIX 4.4, Volume 2, "Standard Message Trailer":
      three digits, the byte sum of everything before the trailer modulo 256. */
  predicate ChecksumOk(msg: string) {
    var t := |msg| - 7;
    && t >= 0
    && msg[t..t + 3] == "10=" && msg[t + 6] == SOH
    && AllDigits(msg[t + 3..t + 6]) && ByteSum(msg[..t]) % 256 == Value(msg[t + 3..t + 6])
  }

  /** The receiver's check of the length under "Standard Message Header": BeginString and
      BodyLength come first, and BodyLength counts the bytes between its own field and the
      seven-byte trailer. */
  predicate LengthOk(msg: string) {
    && |msg| >= 12 && msg[..12] == "8=FIX.4.4" + [SOH] + "9="
    && var d := Find(msg[12..], SOH);
    && AllDigits(msg[12..12 + d])
    && Value(msg[12..12 + d]) == |msg| - 7 - (12 + d + 1)
  }

  /** Every message framed, whatever its header and body, passes both checks of a receiver. They
      share nothing with the printer but the byte sum, which ByteSumConcat and ByteSumOne fix. */
  lemma FrameIsIntact(bodyFull: string)
    ensures ChecksumOk(Frame(bodyFull)) && LengthOk(Frame(bodyFull))
  {
    var check := Pad3(ByteSum(Counted(bodyFull)) % 256);
    Pad3RoundTrip(ByteSum(Counted(bodyFull)) % 256);
    TrailerText(check);
    FrameChecksum(Counted(bodyFull), check);
    FrameLength(bodyFull, check);
  }

  lemma TrailerText(check: string)
    ensures FieldText(Field(10, check)) == "10=" + check + [SOH]
  {
    assert Decimal(10) == "10";
  }

  lemma FrameChecksum(counted: string, check: string)
    requires |check| == 3 && AllDigits(check) && Value(check) == ByteSum(counted) % 256
    ensures ChecksumOk(counted + ("10=" + check + [SOH]))
  {
    CutTrailer(counted, check);
  }

  lemma FrameLength(bodyFull: string, check: string)
    requires |check| == 3
    ensures LengthOk(Counted(bodyFull) + ("10=" + check + [SOH]))
  {
    var n, more := Decimal(|bodyFull|), bodyFull + ("10=" + check + [SOH]);
    DecimalRoundTrip(|bodyFull|);
    CutLength(n, more);
    assert Counted(bodyFull) + ("10=" + check + [SOH]) == ("8=FIX.4.4" + [SOH] + "9=") + (n + [SOH] + more);
  }

  lemma CutTrailer(counted: string, check: string)
    requires |check| == 3
    ensures var msg, t := counted + ("10=" + check + [SOH]), |counted|;
            && |msg| == t + 7 && msg[..t] == counted
            && msg[t..t + 3] == "10=" && msg[t + 3..t + 6] == check && msg[t + 6] == SOH
  {
  }

  lemma CutLength(n: string, more: string)
    requires AllDigits(n)
    ensures var start := "8=FIX.4.4" + [SOH] + "9=";
            var msg := start + (n + [SOH] + more);
            && msg[..12] == start && Find(msg[12..], SOH) == |n| && msg[12..12 + |n|] == n
  {
    var start := "8=FIX.4.4" + [SOH] + "9=";
    var msg := start + (n + [SOH] + more);
    assert |start| == 12 && msg[12..] == n + [SOH] + more;
    assert forall i :: 0 <= i < |n| ==> IsDigit(n[i]);
    FindAfter(n, SOH, more);
  }
}
