/** What protocol.go promises about its codec: the request bytes decode back
    to the arguments as bulk replies, single-line and bulk replies decode to
    the variant their tag names, a long line fails before anything else, and
    a failed decoder stays failed without reading. */
module CodecProperties {
  import opened Wrappers
  import opened Wire
  import opened Replies
  import opened Protocol
  import opened Runs

  /** bufio.NewReader's buffer size, the line capacity of `NewDecoder`. */
  const DefaultCapacity: nat := 4096

  /** The longest line a well-formed header or integer reply needs: a tag,
      a sign, 19 digits, CRLF. */
  const LongestLine: nat := 23

  /** The replies the decoder gives for the arguments of a request: each
      argument's text as a bulk reply, in order. */
  function Bulks(v: seq<Arg>): (rs: seq<Reply>)
    ensures |rs| == |v|
  {
    if v == [] then [] else [Bulk(Text(v[0]))] + Bulks(v[1..])
  }

  /** The argument count of the request for v fits in an int64, as Go's
      slice lengths do, and every argument is short enough that the decoder's
      buffer for it, its length plus two, does too. */
  predicate Encodable(v: seq<Arg>) {
    |v| < Int64Bound && forall i :: 0 <= i < |v| ==> |Text(v[i])| < BulkLengthBound
  }

  // ------------------------------------------------------------ reading lines

  /** The bytes of text, then CRLF, lie at pos: no LF up to the CR, the
      CR right after text, the LF after it. */
  lemma {:induction false} LineEndAfter(s: Bytes, pos: nat, text: Bytes)
    requires LF !in text
    requires HoldsAt(s, pos, text + CRLF)
    ensures pos + |text| + 2 <= |s|
    ensures forall k :: pos <= k < pos + |text| + 1 ==> s[k] != LF
    ensures s[pos + |text|] == CR && s[pos + |text| + 1] == LF
  {
    var b := text + CRLF;
    HoldsAtBytes(s, pos, b);
    forall k | pos <= k < pos + |text| + 1
      ensures s[k] != LF
    {
      assert s[pos + (k - pos)] == b[k - pos];
    }
    assert s[pos + |text|] == b[|text|];
    assert s[pos + (|text| + 1)] == b[|text| + 1];
  }

  /** A line whose LF the buffer holds, with a CR before it, ends at the CR. */
  lemma {:induction false} LineEndsAt(s: Bytes, pos: nat, capacity: nat, e: nat)
    requires FindLF(s, pos, pos + Buffered(s, pos, capacity)) == Some(e + 1)
    requires pos <= e && s[e] == CR
    ensures ReadLine(s, pos, capacity) == Ok(Line(e, e + 2))
  {
  }

  /** A line of text without LF, then CRLF, that fits the buffer reads back
      as the text, and the next read starts after the LF. */
  lemma {:induction false} TextLineRead(s: Bytes, pos: nat, capacity: nat, text: Bytes)
    requires LF !in text
    requires HoldsAt(s, pos, text + CRLF) && |text| + 2 <= capacity
    ensures ReadLine(s, pos, capacity) == Ok(Line(pos + |text|, pos + |text| + 2))
  {
    LineEndAfter(s, pos, text);
    var e := pos + |text|;
    FindLFFirst(s, pos, pos + Buffered(s, pos, capacity), e + 1);
    LineEndsAt(s, pos, capacity, e);
  }

  /** A header is its tag, its digits and CRLF. */
  lemma {:induction false} HeaderLength(tag: byte, n: nat)
    ensures |Header(tag, n)| == |Decimal(n)| + 3
    ensures Header(tag, n) == ([tag] + Decimal(n)) + CRLF
  {
  }

  /** The tag of a line is its first byte, and the rest of the line follows
      it. */
  lemma {:induction false} TagAndRest(s: Bytes, pos: nat, tag: byte, rest: Bytes)
    requires HoldsAt(s, pos, [tag] + rest)
    ensures pos < |s| && s[pos] == tag && HoldsAt(s, pos + 1, rest)
  {
    Concatenated(s, pos, [tag], rest);
    HoldsAtBytes(s, pos, [tag]);
    assert s[pos + 0] == [tag][0];
  }

  /** A header line `<tag><digits>\r\n` that fits the buffer: its tag, then
      the digits up to the line's end. */
  lemma {:induction false} HeaderRead(s: Bytes, pos: nat, capacity: nat, tag: byte, n: nat)
    requires tag == Star || tag == Dollar || tag == Colon
    requires HoldsAt(s, pos, Header(tag, n)) && |Header(tag, n)| <= capacity
    ensures ReadLine(s, pos, capacity) == Ok(Line(pos + 1 + |Decimal(n)|, pos + |Header(tag, n)|))
    ensures s[pos] == tag && HoldsAt(s, pos + 1, Decimal(n))
  {
    var text := [tag] + Decimal(n);
    DecimalDigits(n);
    assert LF !in text by {
      forall k | 0 < k < |text|
        ensures IsDigit(text[k])
      {
        assert text[k] == Decimal(n)[k - 1];
      }
    }
    HeaderLength(tag, n);
    TextLineRead(s, pos, capacity, text);
    Concatenated(s, pos, text, CRLF);
    TagAndRest(s, pos, tag, Decimal(n));
  }

  /** "reply line too long" comes first: when the buffer fills before an LF,
      the decode fails with LineTooLong whatever the line holds, and the
      decoder is poisoned with that error. */
  lemma {:induction false} LineTooLongFirst(d: DecoderState)
    requires d.err.None?
    requires d.pos + d.capacity <= |d.input|
    requires forall k :: d.pos <= k < d.pos + d.capacity ==> d.input[k] != LF
    ensures Next(d) == (Err(LineTooLong), d.(err := Some(LineTooLong)))
  {
    FindLFNone(d.input, d.pos, d.pos + d.capacity);
    assert ReadLine(d.input, d.pos, d.capacity) == Err(LineTooLong);
  }

  /** Every way a single `decode()` fails: with the line reader's own
      error, on an empty line, on a tag it does not know, and on a `:`, `$`
      or `*` line whose rest is not a base-10 int64, each with its own
      error. */
  lemma {:induction false} HeadFailures(s: Bytes, pos: nat, capacity: nat)
    ensures ReadLine(s, pos, capacity).Err? ==> DecodeHead(s, pos, capacity) == Err(ReadLine(s, pos, capacity).error)
    ensures ReadLine(s, pos, capacity).Ok? ==>
              var line := ReadLine(s, pos, capacity).value;
              (line.end == pos ==> DecodeHead(s, pos, capacity) == Err(EmptyLine)) &&
              (line.end > pos && s[pos] !in [Plus, Minus, Colon, Dollar, Star] ==>
                 DecodeHead(s, pos, capacity) == Err(InvalidReplyType)) &&
              (line.end > pos && s[pos] == Colon && ParseInt(s, pos + 1, line.end).None? ==>
                 DecodeHead(s, pos, capacity) == Err(InvalidInteger)) &&
              (line.end > pos && s[pos] == Dollar && ParseInt(s, pos + 1, line.end).None? ==>
                 DecodeHead(s, pos, capacity) == Err(InvalidBulkLength)) &&
              (line.end > pos && s[pos] == Star && ParseInt(s, pos + 1, line.end).None? ==>
                 DecodeHead(s, pos, capacity) == Err(InvalidMultiBulkCount)) &&
              (line.end > pos && s[pos] == Dollar && ParseInt(s, pos + 1, line.end).Some? &&
               ParseInt(s, pos + 1, line.end).value as int >= BulkLengthBound ==>
                 DecodeHead(s, pos, capacity) == Err(BulkLengthOverflow))
  {
  }

  // ----------------------------------------------------------- one line read

  /** After a `+` or `-` line, the reply is the rest of the line. */
  lemma {:induction false} TextHead(s: Bytes, pos: nat, capacity: nat, end: nat, next: nat)
    requires ReadLine(s, pos, capacity) == Ok(Line(end, next))
    requires pos < end && (s[pos] == Plus || s[pos] == Minus)
    ensures var rest := Slice(s, pos + 1, end);
            DecodeHead(s, pos, capacity) == Ok(Step(if s[pos] == Plus then Status(rest) else ServerError(rest), next))
  {
  }

  /** After a `:` line whose rest parses, the reply is that integer. */
  lemma {:induction false} IntegerHead(s: Bytes, pos: nat, capacity: nat, end: nat, next: nat, n: int64)
    requires ReadLine(s, pos, capacity) == Ok(Line(end, next))
    requires pos < end && s[pos] == Colon && ParseInt(s, pos + 1, end) == Some(n)
    ensures DecodeHead(s, pos, capacity) == Ok(Step(Integer(n), next))
  {
  }

  /** After a `*` line whose rest parses, the head is an empty multi-bulk
      with that count. */
  lemma {:induction false} MultiBulkHead(s: Bytes, pos: nat, capacity: nat, end: nat, next: nat, count: int64)
    requires ReadLine(s, pos, capacity) == Ok(Line(end, next))
    requires pos < end && s[pos] == Star && ParseInt(s, pos + 1, end) == Some(count)
    ensures DecodeHead(s, pos, capacity) == Ok(Step(MultiBulk([], count), next))
  {
  }

  /** After a `$` line whose rest parses to a length L >= 0, when L + 2
      bytes follow, the reply is the first L of them. */
  lemma {:induction false} BulkHead(s: Bytes, pos: nat, capacity: nat, end: nat, next: nat, len: int64)
    requires ReadLine(s, pos, capacity) == Ok(Line(end, next))
    requires pos < end && s[pos] == Dollar && ParseInt(s, pos + 1, end) == Some(len)
    requires 0 <= len && len as int < BulkLengthBound && next + len as int + 2 <= |s|
    ensures DecodeHead(s, pos, capacity) == Ok(Step(Bulk(Slice(s, next, next + len as int)), next + len as int + 2))
  {
  }

  // ------------------------------------------------------ single-line replies

  /** A bulk header whose length L is at least 2^63 - 2 fails with
      BulkLengthOverflow, whatever follows it: L + 2 is no int64. */
  lemma {:induction false} BulkOverflowRead(s: Bytes, pos: nat, capacity: nat, len: nat)
    requires BulkLengthBound <= len < Int64Bound && capacity >= LongestLine
    requires HoldsAt(s, pos, Header(Dollar, len))
    ensures DecodeHead(s, pos, capacity) == Err(BulkLengthOverflow)
  {
    Int64Digits(len);
    HeaderLength(Dollar, len);
    HeaderRead(s, pos, capacity, Dollar, len);
    ParseDecimal(s, pos + 1, len);
  }

  /** A bulk header with length L is followed by exactly L+2 bytes read
      whole: the reply is the first L of them, whatever they contain, and
      decoding resumes after the other two. */
  lemma {:induction false} BulkRead(s: Bytes, pos: nat, capacity: nat, len: nat)
    requires len < BulkLengthBound
    requires HoldsAt(s, pos, Header(Dollar, len)) && |Header(Dollar, len)| <= capacity
    requires pos + |Header(Dollar, len)| + len + 2 <= |s|
    ensures var next := pos + |Header(Dollar, len)|;
            DecodeHead(s, pos, capacity) == Ok(Step(Bulk(Slice(s, next, next + len)), next + len + 2))
  {
    HeaderRead(s, pos, capacity, Dollar, len);
    ParseDecimal(s, pos + 1, len);
    BulkHead(s, pos, capacity, pos + 1 + |Decimal(len)|, pos + |Header(Dollar, len)|, len as int64);
  }

  /** A multi-bulk header with count n decodes as an empty multi-bulk head. */
  lemma {:induction false} MultiBulkHeadRead(s: Bytes, pos: nat, capacity: nat, n: nat)
    requires n < Int64Bound && capacity >= LongestLine
    requires HoldsAt(s, pos, Header(Star, n))
    ensures DecodeHead(s, pos, capacity) == Ok(Step(MultiBulk([], n as int64), pos + |Header(Star, n)|))
  {
    Int64Digits(n);
    HeaderLength(Star, n);
    HeaderRead(s, pos, capacity, Star, n);
    ParseDecimal(s, pos + 1, n);
    MultiBulkHead(s, pos, capacity, pos + 1 + |Decimal(n)|, pos + |Header(Star, n)|, n as int64);
  }

  /** Where h + t + CRLF lies at pos, h lies at pos and t right after it. */
  lemma {:induction false} FrameParts(s: Bytes, pos: nat, h: Bytes, t: Bytes)
    requires HoldsAt(s, pos, h + t + CRLF)
    ensures HoldsAt(s, pos, h) && pos + |h| + |t| + 2 <= |s|
    ensures Slice(s, pos + |h|, pos + |h| + |t|) == t
    ensures |h + t + CRLF| == |h| + |t| + 2
  {
    Concatenated(s, pos, h + t, CRLF);
    Concatenated(s, pos, h, t);
    HoldsAtSlice(s, pos + |h|, t);
  }

  /** A bulk header for |t|, then t and CRLF, decodes as the bulk t. */
  lemma {:induction false} BulkTextRead(s: Bytes, pos: nat, capacity: nat, t: Bytes)
    requires |t| < BulkLengthBound && capacity >= LongestLine
    requires HoldsAt(s, pos, Header(Dollar, |t|) + t + CRLF)
    ensures DecodeHead(s, pos, capacity) == Ok(Step(Bulk(t), pos + |Header(Dollar, |t|) + t + CRLF|))
  {
    Int64Digits(|t|);
    HeaderLength(Dollar, |t|);
    FrameParts(s, pos, Header(Dollar, |t|), t);
    BulkRead(s, pos, capacity, |t|);
  }

  /** A line `<tag><text>\r\n` for a tag that carries the rest of the line. */
  lemma {:induction false} SingleLineRead(s: Bytes, pos: nat, capacity: nat, tag: byte, t: Bytes)
    requires tag == Plus || tag == Minus
    requires LF !in t && |t| + 3 <= capacity
    requires HoldsAt(s, pos, [tag] + t + CRLF)
    ensures DecodeHead(s, pos, capacity)
         == Ok(Step(if tag == Plus then Status(t) else ServerError(t), pos + |[tag] + t + CRLF|))
  {
    TextLineRead(s, pos, capacity, [tag] + t);
    Concatenated(s, pos, [tag] + t, CRLF);
    TagAndRest(s, pos, tag, t);
    HoldsAtSlice(s, pos + 1, t);
    TextHead(s, pos, capacity, pos + 1 + |t|, pos + |t| + 3);
  }

  /** The decimal text of an int64 has no LF and at most 20 bytes. */
  lemma {:induction false} SignedDecimalShape(n: int64)
    ensures LF !in SignedDecimal(n) && |SignedDecimal(n)| <= 20
  {
    var m: nat := if n < 0 then -(n as int) else n as int;
    Int64Digits(m);
    DecimalDigits(m);
    DigitsHaveNoLF(Decimal(m));
    if n < 0 {
      var digits := SignedDecimal(n);
      forall k | 0 <= k < |digits|
        ensures digits[k] != LF
      {
        if k > 0 { assert digits[k] == Decimal(m)[k - 1]; }
      }
    }
  }

  /** An integer line `:<digits>\r\n` decodes as its number. */
  lemma {:induction false} IntegerRead(s: Bytes, pos: nat, capacity: nat, n: int64)
    requires capacity >= LongestLine
    requires HoldsAt(s, pos, [Colon] + SignedDecimal(n) + CRLF)
    ensures DecodeHead(s, pos, capacity) == Ok(Step(Integer(n), pos + |[Colon] + SignedDecimal(n) + CRLF|))
  {
    var digits := SignedDecimal(n);
    SignedDecimalShape(n);
    TextLineRead(s, pos, capacity, [Colon] + digits);
    Concatenated(s, pos, [Colon] + digits, CRLF);
    TagAndRest(s, pos, Colon, digits);
    ParseSignedDecimal(s, pos + 1, n);
    IntegerHead(s, pos, capacity, pos + 1 + |digits|, pos + |digits| + 3, n);
  }

  /** The wire form of a reply that fits on one line or in one bulk: the
      tag of its variant, its payload, CRLF (and for a bulk, its length line
      first). */
  function ReplyBytes(r: Reply): Bytes
    requires r.Status? || r.ServerError? || r.Integer? || r.Bulk?
  {
    match r
    case Status(t) => [Plus] + t + CRLF
    case ServerError(t) => [Minus] + t + CRLF
    case Integer(n) => [Colon] + SignedDecimal(n) + CRLF
    case Bulk(t) => Header(Dollar, |t|) + t + CRLF
  }

  /** Any head other than a multi-bulk one is the whole reply. */
  lemma {:induction false} SingleHeadIsReply(s: Bytes, pos: nat, capacity: nat, r: Reply, next: nat)
    requires DecodeHead(s, pos, capacity) == Ok(Step(r, next)) && !r.MultiBulk?
    ensures DecodeReply(s, pos, capacity) == Ok(Step(r, next))
  {
  }

  /** `+` and `-` carry the rest of the line, `:` a base-10 int64, `$` a
      length-prefixed byte string: the wire form of each such reply decodes
      back to it and to nothing longer, as long as its line fits the buffer
      and a status or error text has no LF. */
  lemma {:induction false} SingleReplyRoundTrip(s: Bytes, pos: nat, capacity: nat, r: Reply)
    requires r.Status? || r.ServerError? || r.Integer? || r.Bulk?
    requires (r.Status? || r.ServerError?) ==> LF !in r.text && |r.text| + 3 <= capacity
    requires r.Bulk? ==> |r.text| < BulkLengthBound
    requires capacity >= LongestLine
    requires HoldsAt(s, pos, ReplyBytes(r))
    ensures DecodeReply(s, pos, capacity) == Ok(Step(r, pos + |ReplyBytes(r)|))
  {
    match r
    case Status(t) => SingleLineRead(s, pos, capacity, Plus, t);
    case ServerError(t) => SingleLineRead(s, pos, capacity, Minus, t);
    case Integer(n) => IntegerRead(s, pos, capacity, n);
    case Bulk(t) => BulkTextRead(s, pos, capacity, t);
    SingleHeadIsReply(s, pos, capacity, r, pos + |ReplyBytes(r)|);
  }

  // --------------------------------------------------------------- round trip

  /** One argument's frame decodes as a bulk of the argument's text. */
  lemma {:induction false} FrameRead(s: Bytes, pos: nat, capacity: nat, a: Arg)
    requires |Text(a)| < BulkLengthBound && capacity >= LongestLine
    requires HoldsAt(s, pos, Frame(a))
    ensures DecodeHead(s, pos, capacity) == Ok(Step(Bulk(Text(a)), pos + |Frame(a)|))
  {
    BulkTextRead(s, pos, capacity, Text(a));
  }

  /** Reading n elements is reading the first one and then n - 1 more. */
  lemma {:induction false} ElementsAfterHead(s: Bytes, pos: nat, capacity: nat, n: nat, first: Reply, next: nat,
                          rest: seq<Reply>, after: nat)
    requires n > 0
    requires DecodeHead(s, pos, capacity) == Ok(Step(first, next))
    requires DecodeElements(s, next, capacity, n - 1) == Ok(Run(rest, after))
    ensures DecodeElements(s, pos, capacity, n) == Ok(Run([first] + rest, after))
  {
  }

  /** The frames of a non-empty list: its first argument's frame, then the
      frames of the others. */
  lemma {:induction false} FramesCons(v: seq<Arg>)
    requires v != []
    ensures Frames(v) == Frame(v[0]) + Frames(v[1..])
    ensures |Frames(v)| == |Frame(v[0])| + |Frames(v[1..])|
  {
  }

  /** The first frame of a non-empty list lies at pos and the other
      frames right after it. */
  lemma {:induction false} FirstFrame(s: Bytes, pos: nat, v: seq<Arg>)
    requires v != [] && HoldsAt(s, pos, Frames(v))
    ensures HoldsAt(s, pos, Frame(v[0])) && HoldsAt(s, pos + |Frame(v[0])|, Frames(v[1..]))
    ensures pos + |Frames(v)| == pos + |Frame(v[0])| + |Frames(v[1..])|
  {
    FramesCons(v);
    Concatenated(s, pos, Frame(v[0]), Frames(v[1..]));
  }

  /** The rest of an encodable list is encodable, and its bulks are the
      bulks of the list after the first. */
  lemma {:induction false} BulksCons(v: seq<Arg>)
    requires v != [] && Encodable(v)
    ensures |Text(v[0])| < BulkLengthBound && Encodable(v[1..])
    ensures |v[1..]| == |v| - 1
    ensures Bulks(v) == [Bulk(Text(v[0]))] + Bulks(v[1..])
  {
    assert forall i :: 0 <= i < |v| - 1 ==> v[1..][i] == v[i + 1];
  }

  /** Nothing to read: no replies, and the frames take no room. */
  lemma {:induction false} NoFrames(s: Bytes, pos: nat, capacity: nat, v: seq<Arg>)
    requires v == []
    ensures DecodeElements(s, pos, capacity, |v|) == Ok(Run(Bulks(v), pos + |Frames(v)|))
  {
  }

  /** The first frame of a non-empty encodable list decodes as the bulk of
      the first argument, and the other frames follow it. */
  lemma {:induction false} FirstFrameRead(s: Bytes, pos: nat, capacity: nat, v: seq<Arg>)
    requires v != [] && Encodable(v) && capacity >= LongestLine
    requires HoldsAt(s, pos, Frames(v))
    ensures DecodeHead(s, pos, capacity) == Ok(Step(Bulk(Text(v[0])), pos + |Frame(v[0])|))
    ensures HoldsAt(s, pos + |Frame(v[0])|, Frames(v[1..]))
    ensures pos + |Frames(v)| == pos + |Frame(v[0])| + |Frames(v[1..])|
  {
    FirstFrame(s, pos, v);
    FrameRead(s, pos, capacity, v[0]);
  }

  /** The frames of v decode as |v| single-level replies: the bulks of v. */
  lemma {:induction false} FramesRead(s: Bytes, pos: nat, capacity: nat, v: seq<Arg>)
    requires Encodable(v) && capacity >= LongestLine
    requires HoldsAt(s, pos, Frames(v))
    ensures DecodeElements(s, pos, capacity, |v|) == Ok(Run(Bulks(v), pos + |Frames(v)|))
    decreases |v|
  {
    if v == [] {
      NoFrames(s, pos, capacity, v);
    } else {
      var mid := pos + |Frame(v[0])|;
      FirstFrameRead(s, pos, capacity, v);
      BulksCons(v);
      FramesRead(s, mid, capacity, v[1..]);
      FramesReadStep(s, pos, capacity, v, Bulk(Text(v[0])), mid, mid + |Frames(v[1..])|);
    }
  }

  /** If the first argument's frame decodes as its bulk and the frames of
      the other arguments as their bulks, all the frames decode as the bulks
      of v. */
  lemma {:induction false} FramesReadStep(s: Bytes, pos: nat, capacity: nat, v: seq<Arg>, first: Reply, mid: nat, after: nat)
    requires v != [] && Bulks(v) == [first] + Bulks(v[1..])
    requires DecodeHead(s, pos, capacity) == Ok(Step(first, mid))
    requires DecodeElements(s, mid, capacity, |v[1..]|) == Ok(Run(Bulks(v[1..]), after))
    ensures DecodeElements(s, pos, capacity, |v|) == Ok(Run(Bulks(v), after))
  {
    assert |v| - 1 == |v[1..]|;
    ElementsAfterHead(s, pos, capacity, |v|, first, mid, Bulks(v[1..]), after);
  }

  /** A multi-bulk head followed by its elements is one reply. */
  lemma {:induction false} MultiBulkIsReply(s: Bytes, pos: nat, capacity: nat, count: int64, next: nat,
                         n: nat, elements: seq<Reply>, after: nat)
    requires n == Max0(count as int)
    requires DecodeHead(s, pos, capacity) == Ok(Step(MultiBulk([], count), next))
    requires DecodeElements(s, next, capacity, n) == Ok(Run(elements, after))
    ensures DecodeReply(s, pos, capacity) == Ok(Step(MultiBulk(elements, count), after))
  {
  }

  /** Round trip: wherever the bytes of `Encode(v)` stand in the input, the
      decoder reads them back as one multi-bulk reply with count len(v) whose
      elements are the arguments' texts as bulks, in order, and stops right
      after them. */
  lemma {:induction false} RequestRoundTrip(s: Bytes, pos: nat, capacity: nat, v: seq<Arg>)
    requires Encodable(v) && capacity >= LongestLine
    requires HoldsAt(s, pos, Request(v))
    ensures DecodeReply(s, pos, capacity) == Ok(Step(MultiBulk(Bulks(v), |v| as int64), pos + |Request(v)|))
  {
    var h := Header(Star, |v|);
    var next := pos + |h|;
    var after := next + |Frames(v)|;
    assert HoldsAt(s, pos, h) && HoldsAt(s, next, Frames(v)) by {
      Concatenated(s, pos, h, Frames(v));
    }
    assert DecodeHead(s, pos, capacity) == Ok(Step(MultiBulk([], |v| as int64), next)) by {
      MultiBulkHeadRead(s, pos, capacity, |v|);
    }
    assert DecodeElements(s, next, capacity, |v|) == Ok(Run(Bulks(v), after)) by {
      FramesRead(s, next, capacity, v);
    }
    assert after == pos + |Request(v)|;
    MultiBulkIsReply(s, pos, capacity, |v| as int64, next, |v|, Bulks(v), after);
  }

  /** A healthy decoder whose reply at its position decodes to r moves past
      it and returns r. */
  lemma {:induction false} NextOfReply(d: DecoderState, r: Reply, next: nat)
    requires d.err.None? && DecodeReply(d.input, d.pos, d.capacity) == Ok(Step(r, next))
    ensures Next(d) == (Ok(r), d.(pos := next))
  {
  }

  /** The same round trip through `Decoder.Decode`: a healthy decoder
      positioned at an encoded request returns the multi-bulk of bulks and
      moves past the request. */
  lemma {:induction false} DecodeEncoded(d: DecoderState, v: seq<Arg>)
    requires d.err.None? && Encodable(v) && d.capacity >= LongestLine
    requires HoldsAt(d.input, d.pos, Request(v))
    ensures Next(d) == (Ok(MultiBulk(Bulks(v), |v| as int64)), d.(pos := d.pos + |Request(v)|))
  {
    RequestRoundTrip(d.input, d.pos, d.capacity, v);
    NextOfReply(d, MultiBulk(Bulks(v), |v| as int64), d.pos + |Request(v)|);
  }

  // ------------------------------------------------------------- sticky error

  /** A poisoned decoder answers every further `Decode` with its error and
      never moves. */
  lemma {:induction false} PoisonedStaysPut(d: DecoderState, n: nat)
    requires d.err.Some?
    ensures ReadAll(d, n) == (Repeat(Err(d.err.value), n), d)
  {
    StepsStuck(Next, d, Err(d.err.value), n);
  }

  /** After the first failure of a run of `Decode` calls, every later call
      returns that same failure, and the decoder ends where the failure left
      it: it reads nothing more. */
  lemma {:induction false} FailureIsFinal(d: DecoderState, n: nat, i: nat)
    requires i < n && ReadAll(d, n).0[i].Err?
    ensures forall j :: i <= j < n ==> ReadAll(d, n).0[j] == ReadAll(d, n).0[i]
    ensures ReadAll(d, n).1 == ReadAll(d, i + 1).1
    ensures ReadAll(d, n).1.err == Some(ReadAll(d, n).0[i].error)
  {
    StepsAt(Next, d, n, i);
    StepsStuckFrom(Next, d, n, i);
  }

  // ------------------------------------------------------------- test vectors

  function Fresh(input: Bytes): DecoderState {
    DecoderState(input, 0, DefaultCapacity, None)
  }

  /** The three frames and the header of the request below, one by one. */
  lemma {:induction false} SetRequestParts()
    ensures Header(Star, 3) == Ascii("*3\r\n")
    ensures Frame(Str(Ascii("set"))) == Ascii("$3\r\nset\r\n")
    ensures Frame(Str(Ascii("mykey"))) == Ascii("$5\r\nmykey\r\n")
    ensures Frame(Int(123)) == Ascii("$3\r\n123\r\n")
  {
    CountHeader();
    SetFrame();
    KeyFrame();
    NumberFrame();
  }

  lemma {:induction false} CountHeader()
    ensures Header(Star, 3) == Ascii("*3\r\n")
  {
    assert Decimal(3) == Ascii("3");
  }

  lemma {:induction false} SetFrame()
    ensures Frame(Str(Ascii("set"))) == Ascii("$3\r\nset\r\n")
  {
    assert Decimal(3) == Ascii("3");
  }

  lemma {:induction false} KeyFrame()
    ensures Frame(Str(Ascii("mykey"))) == Ascii("$5\r\nmykey\r\n")
  {
    assert Decimal(5) == Ascii("5");
  }

  lemma {:induction false} NumberFrame()
    ensures Frame(Int(123)) == Ascii("$3\r\n123\r\n")
  {
    assert Decimal(123) == Ascii("123");
    assert SignedDecimal(123) == Ascii("123");
    assert Decimal(3) == Ascii("3");
  }

  /** The request for three arguments, spelled out. */
  lemma {:induction false} RequestOfThree(a: Arg, b: Arg, c: Arg)
    ensures Request([a, b, c]) == Header(Star, 3) + Frame(a) + Frame(b) + Frame(c)
  {
    var v := [a, b, c];
    FramesCons(v);
    FramesCons(v[1..]);
    FramesCons(v[2..]);
    assert v[1..][1..] == v[2..] && v[2..][1..] == [];
  }

  /** `Encode([]interface{}{"set", "mykey", 123})`, written frame by frame. */
  lemma {:induction false} SetRequestBytes()
    ensures Request([Str(Ascii("set")), Str(Ascii("mykey")), Int(123)])
         == Ascii("*3\r\n") + Ascii("$3\r\nset\r\n") + Ascii("$5\r\nmykey\r\n") + Ascii("$3\r\n123\r\n")
  {
    RequestOfThree(Str(Ascii("set")), Str(Ascii("mykey")), Int(123));
    SetRequestParts();
  }

  /** A decoder on the wire form of a single-line or bulk reply hands the
      reply back. */
  lemma {:induction false} FreshSingleReply(r: Reply)
    requires r.Status? || r.ServerError? || r.Integer? || r.Bulk?
    requires (r.Status? || r.ServerError?) ==> LF !in r.text && |r.text| + 3 <= DefaultCapacity
    requires r.Bulk? ==> |r.text| < BulkLengthBound
    ensures Next(Fresh(ReplyBytes(r))).0 == Ok(r)
  {
    var s := ReplyBytes(r);
    HoldsAtStart(s);
    SingleReplyRoundTrip(s, 0, DefaultCapacity, r);
  }

  /** `+OK\r\n` is the status OK. */
  lemma {:induction false} StatusVector()
    ensures Next(Fresh(Ascii("+OK\r\n"))).0 == Ok(Status(Ascii("OK")))
  {
    assert Ascii("+OK\r\n") == ReplyBytes(Status(Ascii("OK")));
    FreshSingleReply(Status(Ascii("OK")));
  }

  /** `-Error\r\n` is the server error Error. */
  lemma {:induction false} ErrorVector()
    ensures Next(Fresh(Ascii("-Error\r\n"))).0 == Ok(ServerError(Ascii("Error")))
  {
    assert Ascii("-Error\r\n") == ReplyBytes(ServerError(Ascii("Error")));
    FreshSingleReply(ServerError(Ascii("Error")));
  }

  /** `:12345\r\n` is the integer 12345. */
  lemma {:induction false} IntegerVector()
    ensures Next(Fresh(Ascii(":12345\r\n"))).0 == Ok(Integer(12345))
  {
    assert Decimal(12345) == Ascii("12345");
    assert Ascii(":12345\r\n") == ReplyBytes(Integer(12345));
    FreshSingleReply(Integer(12345));
  }

  /** `$3\r\nkey\r\n` is the bulk key. */
  lemma {:induction false} BulkVector()
    ensures Next(Fresh(Ascii("$3\r\nkey\r\n"))).0 == Ok(Bulk(Ascii("key")))
  {
    assert Decimal(3) == Ascii("3");
    assert Ascii("$3\r\nkey\r\n") == ReplyBytes(Bulk(Ascii("key")));
    FreshSingleReply(Bulk(Ascii("key")));
  }

  /** `?x\r\n` has no known tag: the decode fails with "invalid reply type"
      and the decoder keeps that error. */
  lemma {:induction false} UnknownTagVector()
    ensures Next(Fresh(Ascii("?x\r\n"))) == (Err(InvalidReplyType), Fresh(Ascii("?x\r\n")).(err := Some(InvalidReplyType)))
  {
    var s, text := Ascii("?x\r\n"), Ascii("?x");
    assert s == text + CRLF && LF !in text;
    HoldsAtStart(s);
    TextLineRead(s, 0, DefaultCapacity, text);
    HeadFailures(s, 0, DefaultCapacity);
  }

  /** `:12a\r\n` is no integer: the decode fails with "invalid
      IntegerReply" and the decoder keeps that error. */
  lemma {:induction false} BadIntegerVector()
    ensures Next(Fresh(Ascii(":12a\r\n"))) == (Err(InvalidInteger), Fresh(Ascii(":12a\r\n")).(err := Some(InvalidInteger)))
  {
    var s, text := Ascii(":12a\r\n"), Ascii(":12a");
    assert s == text + CRLF && LF !in text;
    HoldsAtStart(s);
    TextLineRead(s, 0, DefaultCapacity, text);
    HeadFailures(s, 0, DefaultCapacity);
  }

  /** The header of a bulk reply `$9223372036854775806` (2^63 - 2), whose
      buffer length would be 2^63, followed by two bytes: the decode fails
      with BulkLengthOverflow, and the decoder keeps that error. */
  lemma {:induction false} BulkOverflowVector()
    ensures var s := Header(Dollar, BulkLengthBound) + Ascii("ab");
            Next(Fresh(s)) == (Err(BulkLengthOverflow), Fresh(s).(err := Some(BulkLengthOverflow)))
  {
    var s := Header(Dollar, BulkLengthBound) + Ascii("ab");
    HoldsAtStart(s);
    Concatenated(s, 0, Header(Dollar, BulkLengthBound), Ascii("ab"));
    BulkOverflowRead(s, 0, DefaultCapacity, BulkLengthBound);
  }

  /** A two-element multi-bulk: both bulks, in arrival order. */
  lemma {:induction false} MultiBulkVector()
    ensures Next(Fresh(Ascii("*2\r\n$1\r\na\r\n$1\r\nb\r\n"))).0
         == Ok(MultiBulk([Bulk(Ascii("a")), Bulk(Ascii("b"))], 2))
  {
    var v := [Str(Ascii("a")), Str(Ascii("b"))];
    var s := Request(v);
    assert Decimal(1) == Ascii("1") && Decimal(2) == Ascii("2");
    assert s == Ascii("*2\r\n$1\r\na\r\n$1\r\nb\r\n");
    HoldsAtStart(s);
    DecodeEncoded(Fresh(s), v);
    assert Bulks(v) == [Bulk(Ascii("a")), Bulk(Ascii("b"))];
  }

  /** The input of the nested vector below, frame by frame. */
  lemma {:induction false} NestedLayout()
    ensures HoldsAt(Ascii("*2\r\n*1\r\n$1\r\na\r\n"), 0, Header(Star, 2))
    ensures HoldsAt(Ascii("*2\r\n*1\r\n$1\r\na\r\n"), 4, Header(Star, 1))
    ensures HoldsAt(Ascii("*2\r\n*1\r\n$1\r\na\r\n"), 8, Frame(Str(Ascii("a"))))
  {
    var s := Ascii("*2\r\n*1\r\n$1\r\na\r\n");
    assert Decimal(1) == Ascii("1") && Decimal(2) == Ascii("2");
    assert s == Header(Star, 2) + Header(Star, 1) + Frame(Str(Ascii("a")));
    HoldsAtStart(s);
    Concatenated(s, 0, Header(Star, 2) + Header(Star, 1), Frame(Str(Ascii("a"))));
    Concatenated(s, 0, Header(Star, 2), Header(Star, 1));
  }

  /** The three heads of the nested vector, one after the other. */
  lemma {:induction false} NestedOuterHead()
    ensures DecodeHead(Ascii("*2\r\n*1\r\n$1\r\na\r\n"), 0, DefaultCapacity) == Ok(Step(MultiBulk([], 2), 4))
  {
    NestedLayout();
    MultiBulkHeadRead(Ascii("*2\r\n*1\r\n$1\r\na\r\n"), 0, DefaultCapacity, 2);
  }

  lemma {:induction false} NestedInnerHead()
    ensures DecodeHead(Ascii("*2\r\n*1\r\n$1\r\na\r\n"), 4, DefaultCapacity) == Ok(Step(MultiBulk([], 1), 8))
  {
    NestedLayout();
    MultiBulkHeadRead(Ascii("*2\r\n*1\r\n$1\r\na\r\n"), 4, DefaultCapacity, 1);
  }

  lemma {:induction false} NestedBulkHead()
    ensures DecodeHead(Ascii("*2\r\n*1\r\n$1\r\na\r\n"), 8, DefaultCapacity) == Ok(Step(Bulk(Ascii("a")), 15))
  {
    NestedLayout();
    FrameRead(Ascii("*2\r\n*1\r\n$1\r\na\r\n"), 8, DefaultCapacity, Str(Ascii("a")));
  }

  /** The elements of the nested vector: the inner header and the bulk. */
  lemma {:induction false} NestedElements()
    ensures DecodeElements(Ascii("*2\r\n*1\r\n$1\r\na\r\n"), 4, DefaultCapacity, 2)
         == Ok(Run([MultiBulk([], 1), Bulk(Ascii("a"))], 15))
  {
    var s := Ascii("*2\r\n*1\r\n$1\r\na\r\n");
    var a := Bulk(Ascii("a"));
    NestedInnerHead();
    NestedBulkHead();
    assert DecodeElements(s, 15, DefaultCapacity, 0) == Ok(Run([], 15));
    ElementsAfterHead(s, 8, DefaultCapacity, 1, a, 15, [], 15);
    assert [a] + [] == [a];
    ElementsAfterHead(s, 4, DefaultCapacity, 2, MultiBulk([], 1), 8, [a], 15);
    assert [MultiBulk([], 1)] + [a] == [MultiBulk([], 1), a];
  }

  /** A nested multi-bulk is read one level deep: the inner `*1` becomes an
      empty element and the bulk meant for it is counted as its sibling. */
  lemma {:induction false} NestedMultiBulkVector()
    ensures Next(Fresh(Ascii("*2\r\n*1\r\n$1\r\na\r\n"))).0
         == Ok(MultiBulk([MultiBulk([], 1), Bulk(Ascii("a"))], 2))
  {
    var s := Ascii("*2\r\n*1\r\n$1\r\na\r\n");
    var elements := [MultiBulk([], 1), Bulk(Ascii("a"))];
    NestedOuterHead();
    NestedElements();
    MultiBulkIsReply(s, 0, DefaultCapacity, 2, 4, 2, elements, 15);
    NextOfReply(Fresh(s), MultiBulk(elements, 2), 15);
  }
}
