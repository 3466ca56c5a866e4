/** protocol.go: the RESP request encoder and the reply decoder.

    The connection is abstracted on both sides. The encoder writes into a log
    of accepted bytes, and a fault oracle decides which Write calls fail. The
    decoder reads a fixed input byte sequence from a read position through a
    line buffer of a given capacity (bufio.Reader's buffer). */
module Protocol {
  import opened Wrappers
  import opened Wire
  import opened Replies
  import opened Runs

  /** One request argument: a Go string or integer, the two kinds of value
      whose `fmt.Sprint` text this model knows. */
  datatype Arg = Str(s: Bytes) | Int(n: int64)

  /** `fmt.Sprint(a)`: the bytes of a string, the decimal text of an integer. */
  function Text(a: Arg): Bytes {
    match a
    case Str(s) => s
    case Int(n) => SignedDecimal(n)
  }

  /** A header line: a tag byte, the decimal number, CRLF. */
  function Header(tag: byte, n: nat): Bytes {
    [tag] + Decimal(n) + CRLF
  }

  /** One argument of a request: `$<byte length>\r\n<text>\r\n`. */
  function Frame(a: Arg): Bytes {
    Header(Dollar, |Text(a)|) + Text(a) + CRLF
  }

  function Frames(v: seq<Arg>): Bytes {
    if v == [] then [] else Frame(v[0]) + Frames(v[1..])
  }

  /** The RESP multi-bulk request for the argument list v:
      `*<len(v)>\r\n` and then every argument's frame, in order. */
  function Request(v: seq<Arg>): Bytes {
    Header(Star, |v|) + Frames(v)
  }

  lemma {:induction false} FramesSnoc(v: seq<Arg>, a: Arg)
    ensures Frames(v + [a]) == Frames(v) + Frame(a)
  {
    if v == [] {
      assert [a][1..] == [];
    } else {
      assert (v + [a])[1..] == v[1..] + [a];
      FramesSnoc(v[1..], a);
    }
  }

  lemma {:induction false} RequestGrows(v: seq<Arg>, i: nat)
    requires i < |v|
    ensures Header(Star, |v|) + Frames(v[..i]) + Frame(v[i]) == Header(Star, |v|) + Frames(v[..i + 1])
  {
    assert v[..i + 1] == v[..i] + [v[i]];
    FramesSnoc(v[..i], v[i]);
  }

  /** The package-level `Encode(v)`: the request bytes, built by appending to a buffer. The Go
      function's error result comes from writing into a bytes.Buffer, which
      never fails, so it is left out. */
  method EncodeRequest(v: seq<Arg>) returns (b: Bytes)
    ensures b == Request(v)
  {
    b := Header(Star, |v|);
    for i := 0 to |v|
      invariant b == Header(Star, |v|) + Frames(v[..i])
    {
      var s := Text(v[i]);
      var frame := Header(Dollar, |s|) + s + CRLF;
      RequestGrows(v, i);
      b := b + frame;
    }
    assert v[..|v|] == v;
  }

  // ---------------------------------------------------------------- Encoder

  /** What the connection's writer has seen: the bytes it accepted, the
      number of Write calls made, and the fault oracle (Write call number k
      fails with faults[k]). */
  datatype EncoderState = EncoderState(written: Bytes, calls: nat, faults: map<nat, Error>)

  /** `Encoder.Encode(v)` on a writer in state es: the error (if any) and the
      writer's next state. */
  function Write(es: EncoderState, v: seq<Arg>): (Option<Error>, EncoderState) {
    if es.calls in es.faults then
      (Some(es.faults[es.calls]), es.(calls := es.calls + 1))
    else
      (None, es.(written := es.written + Request(v), calls := es.calls + 1))
  }

  /** What one `Encode` does to the writer: exactly one Write call; on
      success the writer has accepted the request bytes once, on failure
      nothing more, and the writer's own error comes back unchanged. */
  lemma {:induction false} WriteOnce(es: EncoderState, v: seq<Arg>)
    ensures var (err, es') := Write(es, v);
            es'.calls == es.calls + 1 && es'.faults == es.faults &&
            err == (if es.calls in es.faults then Some(es.faults[es.calls]) else None) &&
            es'.written == if err.None? then es.written + Request(v) else es.written
  {
  }

  /** Successive `Encoder.Encode` calls, one per argument list, in order. */
  function WriteAll(es: EncoderState, vs: seq<seq<Arg>>): (out: (seq<Option<Error>>, EncoderState))
    ensures |out.0| == |vs|
    ensures out.1.calls == es.calls + |vs| && out.1.faults == es.faults
  {
    if vs == [] then ([], es)
    else
      var (errs, es1) := WriteAll(es, vs[..|vs| - 1]);
      var (e, es2) := Write(es1, vs[|vs| - 1]);
      (errs + [e], es2)
  }

  class Encoder {
    var written: Bytes
    var calls: nat
    const faults: map<nat, Error>

    function State(): EncoderState
      reads this
    {
      EncoderState(written, calls, faults)
    }

    /** `NewEncoder(w)` over a writer that has accepted nothing yet. */
    constructor (faults: map<nat, Error>)
      ensures State() == EncoderState([], 0, faults)
    {
      written := [];
      calls := 0;
      this.faults := faults;
    }

    /** `Encoder.Encode(v)`: one Write of exactly the request bytes (see
        `WriteOnce`). */
    method Encode(v: seq<Arg>) returns (err: Option<Error>)
      modifies this
      ensures (err, State()) == Write(old(State()), v)
    {
      var e := EncodeRequest(v);
      if calls in faults {
        err := Some(faults[calls]);
      } else {
        written := written + e;
        err := None;
      }
      calls := calls + 1;
    }
  }

  // ---------------------------------------------------------------- Decoder

  /** The first LF in s[i..end), if any. */
  function FindLF(s: Bytes, i: nat, end: nat): (r: Option<nat>)
    ensures r.Some? ==> i <= r.value < end && r.value < |s| && s[r.value] == LF
    decreases end - i
  {
    if i >= end || i >= |s| then None
    else if s[i] == LF then Some(i)
    else FindLF(s, i + 1, end)
  }

  /** The scan stops at the first LF: when s[j] is an LF and nothing from
      i up to j is, the scan finds j. */
  lemma {:induction false} FindLFFirst(s: Bytes, i: nat, end: nat, j: nat)
    requires i <= j < end && j < |s| && s[j] == LF
    requires forall k :: i <= k < j ==> s[k] != LF
    ensures FindLF(s, i, end) == Some(j)
    decreases j - i
  {
    if i < j {
      FindLFFirst(s, i + 1, end, j);
    }
  }

  /** With no LF in the window the scan finds nothing. */
  lemma {:induction false} FindLFNone(s: Bytes, i: nat, end: nat)
    requires forall k :: i <= k < end && k < |s| ==> s[k] != LF
    ensures FindLF(s, i, end) == None
    decreases end - i
  {
    if i < end && i < |s| {
      FindLFNone(s, i + 1, end);
    }
  }

  /** How many bytes from pos the line buffer holds: all that is left of
      the input, up to its capacity. */
  function Buffered(s: Bytes, pos: nat, capacity: nat): (n: nat)
    ensures n <= capacity && pos + n <= |s| + (if pos <= |s| then 0 else pos - |s|)
    ensures n == capacity || pos + n >= |s|
  {
    var avail := if pos <= |s| then |s| - pos else 0;
    if avail < capacity then avail else capacity
  }

  /** A line read from the stream at some position pos: its text is the
      input from pos up to `end`, and the next read starts at `next`. */
  datatype Line = Line(end: nat, next: nat)

  /** `bufio.Reader.ReadLine` with a buffer of `capacity` bytes, at position
      pos: the bytes up to the next LF, without the LF and without a CR right
      before it. The LF must lie within the buffer, otherwise the line is too
      long. A last line that ends the input without LF is returned as it is,
      and an exhausted input gives EOF. */
  function ReadLine(s: Bytes, pos: nat, capacity: nat): (r: Result<Line, Error>)
    ensures r.Ok? ==> pos <= r.value.end <= r.value.next <= |s| && pos < r.value.next <= pos + capacity
    ensures r.Err? ==> r.error == LineTooLong || r.error == EndOfStream
  {
    var avail := if pos <= |s| then |s| - pos else 0;
    match FindLF(s, pos, pos + Buffered(s, pos, capacity))
    case Some(j) => Ok(Line(if j > pos && s[j - 1] == CR then j - 1 else j, j + 1))
    case None =>
      if avail >= capacity then Err(LineTooLong)
      else if avail == 0 then Err(EndOfStream)
      else Ok(Line(|s|, |s|))
  }

  /** Bulk lengths L below this bound have a buffer length L + 2 that is
      still an int64. */
  const BulkLengthBound: int := Int64Bound - 2

  /** One reply and the position after it. */
  datatype Step = Step(reply: Reply, next: nat)

  /** `decode()`: one line, split on its first byte; the rest of the line
      runs from pos + 1 to the line's end. Only a bulk reply reads beyond the
      line: its declared length plus two terminator bytes, keeping the first
      `length` of them whatever they are. A multi-bulk head only carries its
      count; its elements are read by `Decode`. The three panics of the
      source (an empty line, a negative bulk length, a bulk length whose
      buffer length L + 2 overflows int64) are the errors EmptyLine,
      NegativeBulkLength and BulkLengthOverflow here. */
  function DecodeHead(s: Bytes, pos: nat, capacity: nat): (r: Result<Step, Error>)
    ensures r.Ok? ==> pos < r.value.next <= |s|
    ensures r.Ok? ==> !r.value.reply.Invalid?
    ensures r.Ok? && r.value.reply.MultiBulk? ==> r.value.reply.elements == []
  {
    match ReadLine(s, pos, capacity)
    case Err(e) => Err(e)
    case Ok(Line(end, next)) =>
      if end == pos then Err(EmptyLine)
      else if s[pos] == Plus then Ok(Step(Status(Slice(s, pos + 1, end)), next))
      else if s[pos] == Minus then Ok(Step(ServerError(Slice(s, pos + 1, end)), next))
      else if s[pos] == Colon then
        match ParseInt(s, pos + 1, end)
        case None => Err(InvalidInteger)
        case Some(n) => Ok(Step(Integer(n), next))
      else if s[pos] == Dollar then
        match ParseInt(s, pos + 1, end)
        case None => Err(InvalidBulkLength)
        case Some(len) =>
          if len < 0 then
            // make([]byte, len+2) then b[:len]: a length of -1 first reads
            // one byte, which fails at the end of the input
            if len == -1 && next == |s| then Err(EndOfStream) else Err(NegativeBulkLength)
          else if len as int >= BulkLengthBound then
            // len+2 wraps to a negative int64 and make panics
            Err(BulkLengthOverflow)
          else if next + len as int + 2 > |s| then
            if next == |s| then Err(EndOfStream) else Err(UnexpectedEndOfStream)
          else Ok(Step(Bulk(Slice(s, next, next + len as int)), next + len as int + 2))
      else if s[pos] == Star then
        match ParseInt(s, pos + 1, end)
        case None => Err(InvalidMultiBulkCount)
        case Some(count) => Ok(Step(MultiBulk([], count), next))
      else Err(InvalidReplyType)
  }

  /** A run of decoded elements and the position after the last one. */
  datatype Run = Run(replies: seq<Reply>, next: nat)

  /** n successive `decode()` calls from pos, stopping at the first failure. */
  function DecodeElements(s: Bytes, pos: nat, capacity: nat, n: nat): (r: Result<Run, Error>)
    ensures r.Ok? ==> |r.value.replies| == n && pos <= r.value.next <= |s| + (if n == 0 then pos else 0)
    decreases n
  {
    if n == 0 then Ok(Run([], pos))
    else
      match DecodeHead(s, pos, capacity)
      case Err(e) => Err(e)
      case Ok(Step(first, next)) => Prefixed([first], DecodeElements(s, next, capacity, n - 1))
  }

  /** r with the replies pre put in front of its run. */
  function Prefixed(pre: seq<Reply>, r: Result<Run, Error>): Result<Run, Error> {
    match r
    case Err(e) => Err(e)
    case Ok(Run(rs, next)) => Ok(Run(pre + rs, next))
  }

  lemma {:induction false} PrefixedTwice(pre: seq<Reply>, x: Reply, r: Result<Run, Error>)
    ensures Prefixed(pre, Prefixed([x], r)) == Prefixed(pre + [x], r)
  {
    if r.Ok? {
      assert pre + ([x] + r.value.replies) == (pre + [x]) + r.value.replies;
    }
  }

  /** One more element read: the run so far grows by the decoded reply. */
  lemma {:induction false} ElementsStep(s: Bytes, pos: nat, capacity: nat, n: nat, pre: seq<Reply>)
    requires n > 0 && DecodeHead(s, pos, capacity).Ok?
    ensures Prefixed(pre, DecodeElements(s, pos, capacity, n))
         == Prefixed(pre + [DecodeHead(s, pos, capacity).value.reply],
                     DecodeElements(s, DecodeHead(s, pos, capacity).value.next, capacity, n - 1))
  {
    var step := DecodeHead(s, pos, capacity).value;
    PrefixedTwice(pre, step.reply, DecodeElements(s, step.next, capacity, n - 1));
  }

  /** A failing element ends the run with its error. */
  lemma {:induction false} ElementsFail(s: Bytes, pos: nat, capacity: nat, n: nat, pre: seq<Reply>)
    requires n > 0 && DecodeHead(s, pos, capacity).Err?
    ensures Prefixed(pre, DecodeElements(s, pos, capacity, n)) == Err(DecodeHead(s, pos, capacity).error)
  {
  }

  /** No element left to read. */
  lemma {:induction false} ElementsDone(s: Bytes, pos: nat, capacity: nat, pre: seq<Reply>)
    ensures Prefixed(pre, DecodeElements(s, pos, capacity, 0)) == Ok(Run(pre, pos))
  {
    assert pre + [] == pre;
  }

  lemma {:induction false} PrefixedNothing(r: Result<Run, Error>)
    ensures Prefixed([], r) == r
  {
    if r.Ok? {
      assert [] + r.value.replies == r.value.replies;
    }
  }

  function Max0(n: int): nat {
    if n < 0 then 0 else n
  }

  /** One whole reply from pos, as `Decode` reads it: a multi-bulk head with
      count C is followed by max(C, 0) single-level `decode()` calls, so a
      nested multi-bulk element stays empty and its own elements are read as
      siblings of it. */
  function DecodeReply(s: Bytes, pos: nat, capacity: nat): (r: Result<Step, Error>)
    ensures r.Ok? ==> pos < r.value.next <= |s| && !r.value.reply.Invalid?
    ensures r.Ok? && r.value.reply.MultiBulk? ==> |r.value.reply.elements| == Max0(r.value.reply.count as int)
  {
    match DecodeHead(s, pos, capacity)
    case Err(e) => Err(e)
    case Ok(Step(head, next)) =>
      if !head.MultiBulk? then Ok(Step(head, next))
      else
        match DecodeElements(s, next, capacity, Max0(head.count as int))
        case Err(e) => Err(e)
        case Ok(Run(elements, after)) => Ok(Step(MultiBulk(elements, head.count), after))
  }

  /** A decoder: its input, read position, line-buffer capacity and the
      sticky error field. */
  datatype DecoderState = DecoderState(input: Bytes, pos: nat, capacity: nat, err: Option<Error>)

  /** `Decoder.Decode()` on a decoder in state d: the outcome and the
      decoder's next state. A decoder with its error set returns that error
      and reads nothing; a failure sets the error; a success moves the read
      position past the reply. */
  function Next(d: DecoderState): (out: (Result<Reply, Error>, DecoderState))
    ensures d.err.Some? ==> out == (Err(d.err.value), d)
    ensures out.0.Err? ==> out.1 == d.(err := Some(out.0.error))
    ensures out.0.Ok? ==>
              d.err.None? && out.1.err.None? && out.1.input == d.input &&
              out.1.capacity == d.capacity && d.pos < out.1.pos <= |d.input|
    ensures out.0.Ok? ==> !out.0.value.Invalid?
  {
    if d.err.Some? then (Err(d.err.value), d)
    else
      match DecodeReply(d.input, d.pos, d.capacity)
      case Err(e) => (Err(e), d.(err := Some(e)))
      case Ok(Step(reply, next)) => (Ok(reply), d.(pos := next))
  }

  /** n successive `Decode()` calls. */
  function ReadAll(d: DecoderState, n: nat): (out: (seq<Result<Reply, Error>>, DecoderState))
    ensures |out.0| == n
  {
    Steps(Next, d, n)
  }

  class Decoder {
    const input: Bytes
    const capacity: nat
    var pos: nat
    var err: Option<Error>

    function State(): DecoderState
      reads this
    {
      DecoderState(input, pos, capacity, err)
    }

    /** `NewDecoder(r)`: nothing read yet, no error. */
    constructor (input: Bytes, capacity: nat)
      ensures State() == DecoderState(input, 0, capacity, None)
    {
      this.input := input;
      this.capacity := capacity;
      pos := 0;
      err := None;
    }

    /** `Decode()`: with the error field set, return it and read nothing.
        Otherwise decode one head; for a multi-bulk head, append `count`
        further single-level replies to a fresh MultiBulkReply. Any failure
        sets the error field. */
    method Decode() returns (r: Result<Reply, Error>)
      modifies this
      ensures (r, State()) == Next(old(State()))
    {
      if err.Some? {
        return Err(err.value);
      }
      var head := DecodeHead(input, pos, capacity);
      if head.Err? {
        err := Some(head.error);
        return Err(head.error);
      }
      var Step(reply, next) := head.value;
      if !reply.MultiBulk? {
        pos := next;
        return Ok(reply);
      }
      var mb := new MultiBulkReply(reply.count);
      var after := AppendElements(mb, next);
      if after.Err? {
        err := Some(after.error);
        return Err(after.error);
      }
      pos := after.value;
      r := Ok(mb.AsReply());
    }

    /** The counting loop of `Decode`: one single-level reply per declared
        element, appended to mb in arrival order, stopping at the first
        failure. Returns the position after the last element. */
    method AppendElements(mb: MultiBulkReply, from: nat) returns (r: Result<nat, Error>)
      requires mb.value == []
      modifies mb
      ensures r.Ok? ==> DecodeElements(input, from, capacity, Max0(mb.count as int)) == Ok(Run(mb.value, r.value))
      ensures r.Err? ==> DecodeElements(input, from, capacity, Max0(mb.count as int)) == Err(r.error)
    {
      ghost var elements := DecodeElements(input, from, capacity, Max0(mb.count as int));
      PrefixedNothing(elements);
      var p := from;
      var count := mb.count;
      while count > 0
        invariant elements == Prefixed(mb.value, DecodeElements(input, p, capacity, Max0(count as int)))
        decreases count
      {
        var element := DecodeHead(input, p, capacity);
        if element.Err? {
          ElementsFail(input, p, capacity, Max0(count as int), mb.value);
          return Err(element.error);
        }
        ElementsStep(input, p, capacity, Max0(count as int), mb.value);
        mb.Append(element.value.reply);
        p := element.value.next;
        count := count - 1;
      }
      ElementsDone(input, p, capacity, mb.value);
      r := Ok(p);
    }
  }
}
