/** pubsub.go, and the identical PubSub of redis.go: subscription requests
    and the listening loop that forwards everything the decoder produces.

    The listener is the goroutine that `DialPubSub` starts; here it is one
    call of `Listen`, and the poll of `Quit` is given as the number of polls
    that find it empty before the one that finds a value. */
module PubSubs {
  import opened Wrappers
  import opened Wire
  import opened Replies
  import opened Protocol
  import opened Runs
  import opened Commands
  import CodecProperties

  /** The argument list of a subscription request: its kind first, then the
      channel names, in order. */
  function SubscribeArgs(kind: Bytes, channels: seq<Arg>): (v: seq<Arg>)
    ensures |v| == |channels| + 1
  {
    [Str(kind)] + channels
  }

  /** The request kinds of `Subscribe` and `PSubscribe`. */
  const SubscribeKind: Bytes := Ascii("subscribe")
  const PSubscribeKind: Bytes := Ascii("psubscribe")

  /** What the server reads off a subscription request: a multi-bulk whose
      first bulk is the kind and whose further bulks are the channel names,
      in order, and nothing beyond the request. */
  lemma {:induction false} SubscribeRoundTrip(d: DecoderState, kind: Bytes, channels: seq<Arg>)
    requires d.err.None? && d.capacity >= CodecProperties.LongestLine
    requires CodecProperties.Encodable(SubscribeArgs(kind, channels))
    requires HoldsAt(d.input, d.pos, Request(SubscribeArgs(kind, channels)))
    ensures var v := SubscribeArgs(kind, channels);
            Next(d) == (Ok(MultiBulk([Bulk(kind)] + CodecProperties.Bulks(channels), (|channels| + 1) as int64)),
                        d.(pos := d.pos + |Request(v)|))
  {
    var v := SubscribeArgs(kind, channels);
    CodecProperties.DecodeEncoded(d, v);
    assert v[0] == Str(kind) && v[1..] == channels;
  }

  /** The messages forwarded for a run of decode outcomes, in order. */
  function Messages(outcomes: seq<Result<Reply, Error>>): (ms: seq<Reply>)
    ensures |ms| == |outcomes|
  {
    if outcomes == [] then [] else Messages(outcomes[..|outcomes| - 1]) + [ReplyOf(outcomes[|outcomes| - 1])]
  }

  /** Message k is outcome k as a reply. */
  lemma {:induction false} MessageAt(outcomes: seq<Result<Reply, Error>>, k: nat)
    requires k < |outcomes|
    ensures Messages(outcomes)[k] == ReplyOf(outcomes[k])
  {
    var n := |outcomes| - 1;
    if k < n {
      MessageAt(outcomes[..n], k);
    }
  }

  /** A forwarded message is an invalid reply exactly when its decode
      failed, and then it carries the decoder's error; otherwise it is the
      reply decoded, unchanged. */
  lemma {:induction false} ForwardedFaithfully(d: DecoderState, n: nat, k: nat)
    requires k < n
    ensures var outcome := ReadAll(d, n).0[k];
            var m := Messages(ReadAll(d, n).0)[k];
            (m.Invalid? <==> outcome.Err?) &&
            (outcome.Err? ==> m == Invalid(outcome.error)) &&
            (outcome.Ok? ==> m == outcome.value)
  {
    MessageAt(ReadAll(d, n).0, k);
    StepsAt(Next, d, n, k);
    ReplyOfRecoverable(ReadAll(d, n).0[k]);
  }

  /** Once the decoder fails, the listener only ever forwards that same
      invalid reply again. */
  lemma {:induction false} FailureRepeats(d: DecoderState, n: nat, k: nat)
    requires k < n && Messages(ReadAll(d, n).0)[k].Invalid?
    ensures forall j :: k <= j < n ==> Messages(ReadAll(d, n).0)[j] == Messages(ReadAll(d, n).0)[k]
  {
    var outcomes := ReadAll(d, n).0;
    ForwardedFaithfully(d, n, k);
    CodecProperties.FailureIsFinal(d, n, k);
    forall j | k <= j < n
      ensures Messages(outcomes)[j] == Messages(outcomes)[k]
    {
      MessageAt(outcomes, j);
      MessageAt(outcomes, k);
    }
  }

  /** A listener started on a poisoned decoder forwards nothing but the
      invalid reply for its error. */
  lemma {:induction false} PoisonedListener(d: DecoderState, n: nat)
    requires d.err.Some?
    ensures Messages(ReadAll(d, n).0) == Repeat(Invalid(d.err.value), n)
  {
    CodecProperties.PoisonedStaysPut(d, n);
    forall k | 0 <= k < n
      ensures Messages(ReadAll(d, n).0)[k] == Invalid(d.err.value)
    {
      MessageAt(ReadAll(d, n).0, k);
    }
  }

  /** One more pass of the listening loop: one more decode, one more
      message. */
  lemma {:induction false} ListenStep(d: DecoderState, k: nat)
    ensures var (outcome, d') := Next(ReadAll(d, k).1);
            ReadAll(d, k + 1) == (ReadAll(d, k).0 + [outcome], d') &&
            Messages(ReadAll(d, k + 1).0) == Messages(ReadAll(d, k).0) + [ReplyOf(outcome)]
  {
    var outcome := Next(ReadAll(d, k).1).0;
    assert (ReadAll(d, k).0 + [outcome])[..k] == ReadAll(d, k).0;
  }

  class PubSub {
    const enc: Encoder
    const dec: Decoder
    const msgChan: Chan<Reply>

    /** The `PubSub` that `DialPubSub` builds, with its unbuffered message
        channel. */
    constructor (enc: Encoder, dec: Decoder)
      ensures this.enc == enc && this.dec == dec
      ensures fresh(msgChan) && msgChan.capacity == 0 && msgChan.sent == [] && msgChan.received == 0
    {
      this.enc := enc;
      this.dec := dec;
      msgChan := new Chan<Reply>(0);
    }

    /** `Subscribe(channels...)`. */
    method Subscribe(channels: seq<Arg>) returns (err: Option<Error>)
      modifies enc
      ensures (err, enc.State()) == Write(old(enc.State()), SubscribeArgs(SubscribeKind, channels))
    {
      err := SubscribeTo(SubscribeKind, channels);
    }

    /** `PSubscribe(patterns...)`. */
    method PSubscribe(channels: seq<Arg>) returns (err: Option<Error>)
      modifies enc
      ensures (err, enc.State()) == Write(old(enc.State()), SubscribeArgs(PSubscribeKind, channels))
    {
      err := SubscribeTo(PSubscribeKind, channels);
    }

    /** `subscribe(t, channels...)`: build the request by appending the kind
        and then the channels, write it once, and return the writer's error
        unchanged, or none. */
    method SubscribeTo(kind: Bytes, channels: seq<Arg>) returns (err: Option<Error>)
      modifies enc
      ensures (err, enc.State()) == Write(old(enc.State()), SubscribeArgs(kind, channels))
    {
      var cmd: seq<Arg> := [];
      cmd := cmd + [Str(kind)];
      cmd := cmd + channels;
      err := enc.Encode(cmd);
      if err.Some? {
        return err;
      }
      return None;
    }

    /** `listen()`: poll `Quit`, and while it is empty decode one reply and
        forward it, or an invalid reply for a failed decode, on `MsgChan`.
        `quitAfter` polls find `Quit` empty; the next one finds the signal,
        and the loop returns nil without decoding. */
    method Listen(quitAfter: nat) returns (err: Option<Error>)
      modifies dec, msgChan
      ensures err.None?
      ensures var (outcomes, d) := ReadAll(old(dec.State()), quitAfter);
              dec.State() == d && msgChan.sent == old(msgChan.sent) + Messages(outcomes)
      ensures msgChan.received == old(msgChan.received)
    {
      ghost var d0 := dec.State();
      ghost var sent0 := msgChan.sent;
      var polls := 0;
      while true
        invariant polls <= quitAfter
        invariant dec.State() == ReadAll(d0, polls).1
        invariant msgChan.sent == sent0 + Messages(ReadAll(d0, polls).0)
        invariant msgChan.received == old(msgChan.received)
        decreases quitAfter - polls
      {
        if polls == quitAfter {
          return None;
        }
        ListenStep(d0, polls);
        var outcome := dec.Decode();
        if outcome.Err? {
          msgChan.Send(Invalid(outcome.error));
        } else {
          msgChan.Send(outcome.value);
        }
        assert sent0 + Messages(ReadAll(d0, polls).0) + [ReplyOf(outcome)]
            == sent0 + (Messages(ReadAll(d0, polls).0) + [ReplyOf(outcome)]);
        polls := polls + 1;
      }
    }
  }
}
