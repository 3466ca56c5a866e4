/** The reply variants of reply.go and the failures that travel beside them. */
module Replies {
  import opened Wire

  /** Every error the codec and the dispatchers can report. */
  datatype Error =
    | LineTooLong             // "reply line too long": no LF within the line buffer
    | EndOfStream             // io.EOF: nothing left to read
    | UnexpectedEndOfStream   // io.ErrUnexpectedEOF: a bulk payload cut short
    | InvalidInteger          // "invalid IntegerReply"
    | InvalidBulkLength       // "invalid bulk length"
    | InvalidMultiBulkCount   // "invalid multibulk count"
    | InvalidReplyType        // "invalid reply type"
    | EmptyLine               // stands for the panic on s[1:] of an empty line
    | NegativeBulkLength      // stands for the panic on a negative bulk length
    | BulkLengthOverflow      // stands for the panic of make when bulk length + 2 overflows int64
    | WriteFailed(code: nat)  // an error returned by the connection's Write

  /** A reply: the six types that implement Go's `Reply` interface. A
      multi-bulk reply keeps its declared count beside the elements decoded
      so far. `Invalid` is made by the dispatchers, never by the decoder. */
  datatype Reply =
    | Status(text: Bytes)
    | ServerError(text: Bytes)
    | Integer(number: int64)
    | Bulk(text: Bytes)
    | MultiBulk(elements: seq<Reply>, count: int64)
    | Invalid(cause: Error)

  /** What `Value()` hands back, as the dynamic type behind its interface{}. */
  datatype ReplyValue =
    | StringValue(text: Bytes)
    | Int64Value(number: int64)
    | ErrorValue(cause: Error)
    | ListValue(replies: seq<Reply>)

  /** `Value()`: the string of a status, error or bulk reply, the int64 of an
      integer reply, the wrapped error of an invalid reply and the element
      list (not the count) of a multi-bulk reply. */
  function Value(r: Reply): (v: ReplyValue)
    ensures v.StringValue? <==> r.Status? || r.ServerError? || r.Bulk?
    ensures v.StringValue? ==> v.text == r.text
    ensures v.Int64Value? <==> r.Integer?
    ensures v.Int64Value? ==> v.number == r.number
    ensures v.ErrorValue? <==> r.Invalid?
    ensures v.ErrorValue? ==> v.cause == r.cause
    ensures v.ListValue? <==> r.MultiBulk?
    ensures v.ListValue? ==> v.replies == r.elements
  {
    match r
    case Status(t) => StringValue(t)
    case ServerError(t) => StringValue(t)
    case Bulk(t) => StringValue(t)
    case Integer(n) => Int64Value(n)
    case Invalid(e) => ErrorValue(e)
    case MultiBulk(es, _) => ListValue(es)
  }

  /** Two replies of the same variant with the same `Value()` differ at most
      in a multi-bulk's declared count, which `Value()` does not report. */
  lemma {:induction false} ValueForgetsOnlyCount(r1: Reply, r2: Reply)
    requires r1.Status? == r2.Status? && r1.ServerError? == r2.ServerError? && r1.Bulk? == r2.Bulk?
    requires Value(r1) == Value(r2)
    ensures r1 == r2 || (r1.MultiBulk? && r2.MultiBulk? && r1.elements == r2.elements)
  {
  }

  /** `*MultiBulkReply` while the decoder fills it: `Append` grows the element
      list in place and the declared count never changes. */
  class MultiBulkReply {
    var value: seq<Reply>
    const count: int64

    /** `NewMultiBulkReply(count)`: the declared count, no element yet. */
    constructor (count: int64)
      ensures value == [] && this.count == count
    {
      value := [];
      this.count := count;
    }

    /** `Append(v)`: v goes last; earlier elements stay as they were. */
    method Append(v: Reply)
      modifies this
      ensures value == old(value) + [v]
    {
      value := value + [v];
    }

    /** The reply this object currently stands for. */
    function AsReply(): (r: Reply)
      reads this
      ensures r.MultiBulk? && r.elements == value && r.count == count
    {
      MultiBulk(value, count)
    }
  }
}
