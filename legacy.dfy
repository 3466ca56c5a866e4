/** redis.go: the older version of the two dispatchers. Its channels carry
    replies instead of success flags: a failed write or read is delivered
    as an invalid reply wrapping the error, and the `Reply` and `Error`
    fields of a command are never assigned. Its pipeline gives up on a
    batch at the first failed write. Its PubSub is the one of pubsub.go. */
module Legacy {
  import opened Wrappers
  import opened Replies
  import opened Protocol
  import opened Runs
  import opened Commands

  // --------------------------------------------------------------- Client

  /** What a claimed command receives on its channel: an invalid reply for
      a failed write, then the reply read anyway, or an invalid reply for a
      failed read. */
  function Deliveries(writeErr: Option<Error>, outcome: Result<Reply, Error>): (rs: seq<Reply>)
  {
    (if writeErr.Some? then [Invalid(writeErr.value)] else []) + [ReplyOf(outcome)]
  }

  /** A claim sends one or two replies, which fit the capacity-2 channel;
      the first one, which `Execute` returns, is invalid exactly when the
      write or the read failed, and the last one is always the read's. */
  lemma {:induction false} DeliveriesFit(writeErr: Option<Error>, outcome: Result<Reply, Error>)
    requires outcome.Ok? ==> !outcome.value.Invalid?
    ensures 1 <= |Deliveries(writeErr, outcome)| <= ReplyChanCapacity
    ensures |Deliveries(writeErr, outcome)| == 2 <==> writeErr.Some?
    ensures Deliveries(writeErr, outcome)[0].Invalid? <==> writeErr.Some? || outcome.Err?
    ensures writeErr.Some? ==> Deliveries(writeErr, outcome)[0] == Invalid(writeErr.value)
    ensures writeErr.None? && outcome.Ok? ==> Deliveries(writeErr, outcome)[0] == outcome.value
    ensures Deliveries(writeErr, outcome)[|Deliveries(writeErr, outcome)| - 1] == ReplyOf(outcome)
  {
    var rs := Deliveries(writeErr, outcome);
    ReplyOfRecoverable(outcome);
    if writeErr.Some? {
      assert rs == [Invalid(writeErr.value), ReplyOf(outcome)];
    } else {
      assert rs == [ReplyOf(outcome)];
    }
  }

  class Client {
    var pending: seq<Command<Reply>>
    var running: bool
    const enc: Encoder
    const dec: Decoder

    /** `&Client{enc: ..., dec: ...}` as `Dial` builds it. */
    constructor (enc: Encoder, dec: Decoder)
      ensures pending == [] && !running && this.enc == enc && this.dec == dec
    {
      pending := [];
      running := false;
      this.enc := enc;
      this.dec := dec;
    }

    /** Every queued command has a channel to deliver on. */
    predicate Valid()
      reads this, pending
    {
      HaveChans(pending)
    }

    /** `Go(cmd)`: give cmd a channel if it has none and append it to the
        queue; returns the channel. */
    method Go(cmd: Command<Reply>) returns (ch: Chan<Reply>)
      requires Valid()
      modifies this, cmd
      ensures Valid()
      ensures pending == old(pending) + [cmd] && running == old(running)
      ensures cmd.replyChan == Some(ch)
      ensures old(cmd.replyChan).Some? ==> ch == old(cmd.replyChan).value
      ensures old(cmd.replyChan).None? ==>
                fresh(ch) && ch.capacity == ReplyChanCapacity && ch.sent == [] && ch.received == 0
      ensures cmd.reply == old(cmd.reply) && cmd.error == old(cmd.error)
    {
      EnsureChan(cmd);
      pending := pending + [cmd];
      ch := cmd.replyChan.value;
    }

    /** `Serve()`: as in client.go, the head command is claimed only when
        `running` is clear, and `running` is never cleared again. A claimed
        command is written, a failed write is delivered as an invalid reply,
        and a reply is read all the same and delivered. */
    method Serve()
      requires Valid()
      modifies this, enc, dec, ChansOf(pending)
      ensures Valid()
      ensures running == (old(running) || old(pending) != [])
      ensures old(running) || old(pending) == [] ==>
                pending == old(pending) && enc.State() == old(enc.State()) && dec.State() == old(dec.State())
      ensures !old(running) && old(pending) != [] ==>
                var cmd := old(pending[0]);
                var (writeErr, es) := Write(old(enc.State()), cmd.args);
                var (outcome, ds) := Next(old(dec.State()));
                pending == old(pending[1..]) && enc.State() == es && dec.State() == ds &&
                cmd.replyChan.value.sent == old(cmd.replyChan.value.sent) + Deliveries(writeErr, outcome) &&
                cmd.replyChan.value.received == old(cmd.replyChan.value.received)
      ensures forall ch :: ch in old(ChansOf(pending)) && (old(running) || Some(ch) != old(pending[0].replyChan)) ==> unchanged(ch)
    {
      ghost var claimed := false;
      while true
        invariant Valid()
        invariant running == (old(running) || claimed)
        invariant claimed ==> !old(running) && old(pending) != []
        invariant !claimed ==> pending == old(pending) && enc.State() == old(enc.State()) && dec.State() == old(dec.State())
        invariant !claimed ==> forall ch :: ch in old(ChansOf(pending)) ==> unchanged(ch)
        invariant claimed ==>
                    var cmd := old(pending[0]);
                    var (writeErr, es) := Write(old(enc.State()), cmd.args);
                    var (outcome, ds) := Next(old(dec.State()));
                    pending == old(pending[1..]) && enc.State() == es && dec.State() == ds &&
                    cmd.replyChan.value.sent == old(cmd.replyChan.value.sent) + Deliveries(writeErr, outcome) &&
                    cmd.replyChan.value.received == old(cmd.replyChan.value.received)
        invariant claimed ==> forall ch :: ch in old(ChansOf(pending)) && Some(ch) != old(pending[0].replyChan) ==> unchanged(ch)
        decreases if running then 0 else 1
      {
        if running || |pending| == 0 {
          return;
        }
        running := true;
        var cmd := pending[0];
        pending := pending[1..];
        claimed := true;
        var ch := cmd.replyChan.value;
        assert cmd in old(pending) && ch in old(ChansOf(pending));
        ServeOne(cmd, ch);
      }
    }

    /** The body of a claim: write cmd and deliver an invalid reply if that
        fails; then read a reply all the same and deliver it, or an invalid
        reply for the read's error. */
    method ServeOne(cmd: Command<Reply>, ch: Chan<Reply>)
      modifies enc, dec, ch
      ensures var (writeErr, es) := Write(old(enc.State()), cmd.args);
              var (outcome, ds) := Next(old(dec.State()));
              enc.State() == es && dec.State() == ds &&
              ch.sent == old(ch.sent) + Deliveries(writeErr, outcome) && ch.received == old(ch.received)
    {
      var writeErr := enc.Encode(cmd.args);
      if writeErr.Some? {
        ch.Send(Invalid(writeErr.value));
      }
      var outcome := dec.Decode();
      if outcome.Err? {
        ch.Send(Invalid(outcome.error));
      } else {
        ch.Send(outcome.value);
      }
    }

    /** `Execute(cmd)`: queue cmd, let the goroutine serve, and return the
        first reply delivered on cmd's channel. On an idle client with an
        empty queue, cmd is the one claimed, and the receive takes the first
        reply it was sent. Otherwise the head of the queue is claimed
        instead, or nothing when `running` is set; a new channel then stays
        empty, and None says that the receive would block for ever. The
        `Reply` and `Error` fields are never assigned. */
    method Execute(cmd: Command<Reply>) returns (r: Option<Reply>)
      requires Valid()
      modifies this, cmd, enc, dec, ChansOf(pending + [cmd])
      ensures Valid()
      ensures running
      ensures cmd.reply == old(cmd.reply) && cmd.error == old(cmd.error)
      ensures !old(running) && old(pending) == [] ==>
                pending == [] && enc.State() == Write(old(enc.State()), cmd.args).1 &&
                dec.State() == Next(old(dec.State())).1 &&
                cmd.replyChan.Some? && (old(cmd.replyChan).Some? ==> cmd.replyChan == old(cmd.replyChan))
      ensures !old(running) && old(pending) == [] && old(cmd.replyChan).None? ==>
                var (writeErr, _) := Write(old(enc.State()), cmd.args);
                var (outcome, _) := Next(old(dec.State()));
                r == Some(if writeErr.Some? then Invalid(writeErr.value) else ReplyOf(outcome)) &&
                cmd.replyChan.value.sent == Deliveries(writeErr, outcome) && cmd.replyChan.value.received == 1
      ensures !old(running) && old(pending) == [] && old(cmd.replyChan).Some? ==>
                var ch := old(cmd.replyChan.value);
                ch.sent == old(ch.sent) + Deliveries(Write(old(enc.State()), cmd.args).0, Next(old(dec.State())).0) &&
                (old(ch.received) < |ch.sent| ==> r == Some(ch.sent[old(ch.received)]) && ch.received == old(ch.received) + 1) &&
                (old(ch.received) >= |ch.sent| ==> r.None? && ch.received == old(ch.received))
      ensures old(running) ==>
                pending == old(pending) + [cmd] && enc.State() == old(enc.State()) && dec.State() == old(dec.State())
      ensures !old(running) && old(pending) != [] ==>
                pending == old(pending[1..]) + [cmd] &&
                enc.State() == Write(old(enc.State()), old(pending[0]).args).1 && dec.State() == Next(old(dec.State())).1
      ensures (old(running) || old(pending) != []) && old(cmd.replyChan).None? ==>
                r.None? && cmd.replyChan.Some? && cmd.replyChan.value.sent == [] && cmd.replyChan.value.received == 0
    {
      var ch := Go(cmd);
      ghost var queued := pending;
      assert queued[|queued| - 1] == cmd && (old(pending) != [] ==> queued[0] == old(pending[0]));
      Serve();
      ghost var (writeErr, _) := Write(old(enc.State()), cmd.args);
      ghost var (outcome, _) := Next(old(dec.State()));
      if !old(running) && old(pending) == [] && old(cmd.replyChan).None? {
        assert Deliveries(writeErr, outcome)[0] == if writeErr.Some? then Invalid(writeErr.value) else ReplyOf(outcome);
      }
      r := ch.Receive();
    }
  }

  // ------------------------------------------------- the batch, as values

  /** What the writing loop of `PipeLine.Serve` did: how many `Encode`
      calls it made, the error of the last one if that one failed, and the
      writer's state after them. */
  datatype Writes = Writes(count: nat, failure: Option<Error>, after: EncoderState)

  /** The writing loop: write the argument lists in order and stop at the
      first write that fails. */
  function WriteUntilFailure(es: EncoderState, vs: seq<seq<Arg>>): (w: Writes)
    ensures w.count <= |vs| && w.after.calls == es.calls + w.count && w.after.faults == es.faults
    ensures w.failure.None? ==> w.count == |vs|
    ensures w.failure.Some? ==> w.count > 0
    decreases |vs|
  {
    if vs == [] then Writes(0, None, es)
    else
      var (e, es1) := Write(es, vs[0]);
      if e.Some? then Writes(1, e, es1)
      else
        var w := WriteUntilFailure(es1, vs[1..]);
        w.(count := w.count + 1)
  }

  /** The writes the loop makes are the first writes of the whole list:
      all of them succeed but the last, which fails when the loop stopped
      early. */
  lemma {:induction false} WritesArePrefix(es: EncoderState, vs: seq<seq<Arg>>)
    ensures var w := WriteUntilFailure(es, vs);
            WriteAll(es, vs[..w.count]).1 == w.after &&
            (forall j :: 0 <= j < w.count - 1 ==> WriteAll(es, vs[..w.count]).0[j].None?) &&
            (w.count > 0 ==> WriteAll(es, vs[..w.count]).0[w.count - 1] == w.failure)
    decreases |vs|
  {
    if vs != [] {
      var (e, es1) := Write(es, vs[0]);
      var w := WriteUntilFailure(es, vs);
      if e.Some? {
        assert vs[..1] == [vs[0]];
        assert vs[..1][..0] == [];
      } else {
        var w1 := WriteUntilFailure(es1, vs[1..]);
        WritesArePrefix(es1, vs[1..]);
        assert vs[..w.count] == [vs[0]] + vs[1..][..w1.count];
        WriteAllCons(es, vs[0], vs[1..][..w1.count]);
      }
    }
  }

  /** Writing a list is writing its head and then the rest. */
  lemma {:induction false} WriteAllCons(es: EncoderState, v: seq<Arg>, vs: seq<seq<Arg>>)
    ensures var (e, es1) := Write(es, v);
            WriteAll(es, [v] + vs) == ([e] + WriteAll(es1, vs).0, WriteAll(es1, vs).1)
  {
    if vs == [] {
      var (e, es1) := Write(es, v);
      assert [v] + vs == [v] && [v][..0] == [];
      assert WriteAll(es, [v]) == ([] + [e], es1);
      assert [] + [e] == [e] + [];
    } else {
      var n := |vs| - 1;
      var (e, es1) := Write(es, v);
      WriteAllCons(es, v, vs[..n]);
      assert ([v] + vs)[..|[v] + vs| - 1] == [v] + vs[..n] && ([v] + vs)[|vs|] == vs[n];
      var (errs, es2) := WriteAll(es1, vs[..n]);
      var (e3, es3) := Write(es2, vs[n]);
      assert WriteAll(es1, vs) == (errs + [e3], es3);
      assert WriteAll(es, [v] + vs) == (([e] + errs) + [e3], es3);
      assert ([e] + errs) + [e3] == [e] + (errs + [e3]);
    }
  }

  /** A prefix one longer is the prefix with the next entry appended. */
  lemma {:induction false} PrefixSnoc<X>(xs: seq<X>, i: nat)
    requires i < |xs|
    ensures xs[..i + 1] == xs[..i] + [xs[i]]
  {
  }

  /** w, after k earlier writes. */
  function Shifted(w: Writes, k: nat): Writes {
    w.(count := w.count + k)
  }

  /** One more pass of the writing loop, when writes 0 to i - 1 have
      succeeded and write i, from writer state es, returned e: a failure
      ends the loop after i + 1 writes, a success leaves the rest to do. */
  lemma {:induction false} WriteUntilStep(e0: EncoderState, vs: seq<seq<Arg>>, i: nat, es: EncoderState,
                                          e: Option<Error>, es1: EncoderState)
    requires i < |vs| && (e, es1) == Write(es, vs[i])
    requires WriteUntilFailure(e0, vs) == Shifted(WriteUntilFailure(es, vs[i..]), i)
    ensures e.Some? ==> WriteUntilFailure(e0, vs) == Writes(i + 1, e, es1)
    ensures e.None? ==> WriteUntilFailure(e0, vs) == Shifted(WriteUntilFailure(es1, vs[i + 1..]), i + 1)
  {
    assert vs[i..][0] == vs[i] && vs[i..][1..] == vs[i + 1..];
  }

  /** The delivery for the write that failed, if one did. */
  function FailureEvents(batch: seq<Command<Reply>>, chans: seq<Chan<Reply>>, w: Writes): (events: seq<Event<Reply>>)
    requires |batch| == |chans| && w.count <= |batch| && (w.failure.Some? ==> w.count > 0)
    ensures |events| == (if w.failure.Some? then 1 else 0)
  {
    if w.failure.Some? then [Event(batch[w.count - 1], chans[w.count - 1], Invalid(w.failure.value), None, None)]
    else []
  }

  /** The deliveries of the reading loop: outcome j, as a reply, to
      command j. */
  function ReplyEvents(batch: seq<Command<Reply>>, chans: seq<Chan<Reply>>, outcomes: seq<Result<Reply, Error>>): (events: seq<Event<Reply>>)
    requires |batch| == |chans| == |outcomes|
    ensures |events| == |batch|
  {
    if batch == [] then []
    else
      var n := |batch| - 1;
      ReplyEvents(batch[..n], chans[..n], outcomes[..n]) + [Event(batch[n], chans[n], ReplyOf(outcomes[n]), None, None)]
  }

  /** One more pass of the reading loop. */
  lemma {:induction false} ReplyStep(d: DecoderState, batch: seq<Command<Reply>>, chans: seq<Chan<Reply>>, j: nat)
    requires j < |batch| == |chans|
    ensures var (outcome, d') := Next(ReadAll(d, j).1);
            ReadAll(d, j + 1) == (ReadAll(d, j).0 + [outcome], d') &&
            ReplyEvents(batch[..j + 1], chans[..j + 1], ReadAll(d, j).0 + [outcome])
              == ReplyEvents(batch[..j], chans[..j], ReadAll(d, j).0) + [Event(batch[j], chans[j], ReplyOf(outcome), None, None)]
  {
    var outcome := Next(ReadAll(d, j).1).0;
    assert batch[..j + 1][..j] == batch[..j] && chans[..j + 1][..j] == chans[..j];
    assert (ReadAll(d, j).0 + [outcome])[..j] == ReadAll(d, j).0;
  }

  /** A batch abandoned at its failed write: that command receives exactly
      the invalid reply for the error, and every other command of the batch,
      written before it or never written, receives nothing. The commands
      before it were written without error, so the server answers them,
      but those answers are never read. */
  lemma {:induction false} AbandonedBatch(es: EncoderState, batch: seq<Command<Reply>>, chans: seq<Chan<Reply>>, i: nat)
    requires |batch| == |chans| && i < |batch| && Distinct(chans)
    requires WriteUntilFailure(es, ArgsOf(batch)).failure.Some?
    ensures var w := WriteUntilFailure(es, ArgsOf(batch));
            SentOn(FailureEvents(batch, chans, w), chans[i]) ==
              (if i == w.count - 1 then [Invalid(w.failure.value)] else [])
    ensures var w := WriteUntilFailure(es, ArgsOf(batch));
            i < w.count - 1 ==> WriteAll(es, ArgsOf(batch)[..w.count]).0[i].None?
  {
    var w := WriteUntilFailure(es, ArgsOf(batch));
    var ev := Event(batch[w.count - 1], chans[w.count - 1], Invalid(w.failure.value), None, None);
    EventsSnoc([], ev);
    WritesArePrefix(es, ArgsOf(batch));
  }

  /** The deliveries of the reading loop do not touch a channel outside
      chans. */
  lemma {:induction false} ReplyEventsMiss(batch: seq<Command<Reply>>, chans: seq<Chan<Reply>>, outcomes: seq<Result<Reply, Error>>,
                                           ch: Chan<Reply>)
    requires |batch| == |chans| == |outcomes| && ch !in chans
    ensures SentOn(ReplyEvents(batch, chans, outcomes), ch) == []
  {
    if batch != [] {
      var n := |batch| - 1;
      assert chans[n] in chans;
      ReplyEventsMiss(batch[..n], chans[..n], outcomes[..n], ch);
      EventsSnoc(ReplyEvents(batch[..n], chans[..n], outcomes[..n]), Event(batch[n], chans[n], ReplyOf(outcomes[n]), None, None));
    }
  }

  /** A batch written in full: with distinct channels, command i receives
      exactly one reply, the outcome of read number i, in the batch's
      order. */
  lemma {:induction false} CompletedBatch(batch: seq<Command<Reply>>, chans: seq<Chan<Reply>>, outcomes: seq<Result<Reply, Error>>, i: nat)
    requires |batch| == |chans| == |outcomes| && i < |batch| && Distinct(chans)
    ensures SentOn(ReplyEvents(batch, chans, outcomes), chans[i]) == [ReplyOf(outcomes[i])]
  {
    var n := |batch| - 1;
    EventsSnoc(ReplyEvents(batch[..n], chans[..n], outcomes[..n]), Event(batch[n], chans[n], ReplyOf(outcomes[n]), None, None));
    if i < n {
      CompletedBatch(batch[..n], chans[..n], outcomes[..n], i);
      assert chans[..n][i] == chans[i] && outcomes[..n][i] == outcomes[i];
    } else {
      assert chans[n] !in chans[..n];
      ReplyEventsMiss(batch[..n], chans[..n], outcomes[..n], chans[n]);
      assert [] + [ReplyOf(outcomes[n])] == [ReplyOf(outcomes[n])];
    }
  }

  // ------------------------------------------------------------ PipeLine

  class PipeLine {
    var cmds: seq<Command<Reply>>
    var pending: seq<seq<Command<Reply>>>
    var running: bool
    const enc: Encoder
    const dec: Decoder

    /** `&PipeLine{enc: ..., dec: ...}` as `DialPipeLine` builds it. */
    constructor (enc: Encoder, dec: Decoder)
      ensures cmds == [] && pending == [] && !running && this.enc == enc && this.dec == dec
    {
      cmds := [];
      pending := [];
      running := false;
      this.enc := enc;
      this.dec := dec;
    }

    /** The commands of the queued batches. */
    function Queued(): set<Command<Reply>>
      reads this
    {
      set b, c | b in pending && c in b :: c
    }

    /** The channels of the queued commands. */
    function QueuedChans(): set<Chan<Reply>>
      reads this, Queued()
    {
      set c | c in Queued() && c.replyChan.Some? :: c.replyChan.value
    }

    /** Every command being batched or queued has a channel. */
    predicate Valid()
      reads this, cmds, Queued()
    {
      HaveChans(cmds) && forall b, c :: b in pending && c in b ==> c.replyChan.Some?
    }

    /** `Go(cmd)`: give cmd a channel if it has none and add it to the batch
        being built; the queue is not touched. */
    method Go(cmd: Command<Reply>) returns (ch: Chan<Reply>)
      requires Valid()
      modifies this, cmd
      ensures Valid()
      ensures cmds == old(cmds) + [cmd] && pending == old(pending) && running == old(running)
      ensures cmd.replyChan == Some(ch)
      ensures old(cmd.replyChan).Some? ==> ch == old(cmd.replyChan).value
      ensures old(cmd.replyChan).None? ==>
                fresh(ch) && ch.capacity == ReplyChanCapacity && ch.sent == [] && ch.received == 0
      ensures cmd.reply == old(cmd.reply) && cmd.error == old(cmd.error)
    {
      EnsureChan(cmd);
      cmds := cmds + [cmd];
      ch := cmd.replyChan.value;
    }

    /** `Discard()`: drop every queued batch; the batch being built stays. */
    method Discard()
      requires Valid()
      modifies this
      ensures Valid()
      ensures pending == [] && cmds == old(cmds) && running == old(running)
    {
      pending := [];
    }

    /** `Exec()`: the batch being built becomes the last queued batch, and a
        new one starts empty. */
    method Exec()
      requires Valid()
      modifies this
      ensures Valid()
      ensures pending == old(pending) + [old(cmds)] && cmds == [] && running == old(running)
    {
      pending := pending + [cmds];
      cmds := [];
    }

    /** What serving `batch` leaves behind, given the encoder and decoder
        states and the channels' state before it. When a write failed, the
        writer has made the writes up to that one, the decoder has read
        nothing, and only the failed command received a reply. Otherwise
        every command was written, one reply per command has been read, and
        command j received reply j. */
    ghost predicate Served(batch: seq<Command<Reply>>, chans: seq<Chan<Reply>>,
                           e0: EncoderState, d0: DecoderState, before: Snapshot<Reply>)
      reads enc, dec, batch, chans
    {
      |chans| == |batch| &&
      var w := WriteUntilFailure(e0, ArgsOf(batch));
      enc.State() == w.after &&
      if w.failure.Some? then
        dec.State() == d0 && Delivered(FailureEvents(batch, chans, w), batch, chans, before)
      else
        var (outcomes, ds) := ReadAll(d0, |batch|);
        dec.State() == ds && Delivered(ReplyEvents(batch, chans, outcomes), batch, chans, before)
    }

    /** `Serve()`. As in pipeline.go, only the first batch queued is ever
        claimed, since `running` is never cleared. A write failure ends the
        claim: `continue Loop` goes back to the guard, which returns. */
    method Serve()
      requires Valid()
      modifies this, enc, dec, QueuedChans()
      ensures Valid()
      ensures running == (old(running) || old(pending) != [])
      ensures old(running) || old(pending) == [] ==>
                pending == old(pending) && enc.State() == old(enc.State()) && dec.State() == old(dec.State()) &&
                unchanged(old(QueuedChans()))
      ensures !old(running) && old(pending) != [] ==>
                pending == old(pending[1..]) &&
                Served(old(pending[0]), old(ChanList(pending[0])), old(enc.State()), old(dec.State()),
                       old(Snap(pending[0], ChanList(pending[0]))))
      ensures forall ch :: ch in old(QueuedChans()) && (old(running) || ch !in old(ChanList(pending[0]))) ==>
                unchanged(ch)
      ensures cmds == old(cmds)
    {
      ghost var claimed := false;
      ghost var e0, d0, q0, qc0 := enc.State(), dec.State(), Queued(), QueuedChans();
      ghost var b0 := if pending == [] then [] else pending[0];
      assert pending != [] ==> b0 in pending;
      ghost var c0 := ChanList(b0);
      ghost var s0 := Snap(b0, c0);
      while true
        invariant Valid()
        invariant running == (old(running) || claimed)
        invariant claimed ==> !old(running) && old(pending) != []
        invariant !claimed ==>
                    pending == old(pending) && enc.State() == e0 && dec.State() == d0 &&
                    Queued() == q0 && unchanged(qc0) && ChanList(b0) == c0 && Snap(b0, c0) == s0
        invariant claimed ==> pending == old(pending[1..]) && Served(b0, c0, e0, d0, s0)
        invariant forall ch :: ch in qc0 && (!claimed || ch !in c0) ==> unchanged(ch)
        invariant cmds == old(cmds)
        decreases if running then 0 else 1
      {
        if running || |pending| == 0 {
          return;
        }
        assert forall c :: c in b0 ==> c in q0;
        assert forall i :: 0 <= i < |c0| ==> b0[i] in q0 && c0[i] in qc0;
        Claim(b0, c0, s0);
        claimed := true;
      }
    }

    /** One pass of the `Serve` loop past its guard: set `running`, pop the
        head batch and serve it. */
    method Claim(ghost b0: seq<Command<Reply>>, ghost c0: seq<Chan<Reply>>, ghost s0: Snapshot<Reply>)
      requires Valid() && !running && pending != []
      requires b0 == pending[0] && HaveChans(b0) && c0 == ChanList(b0) && s0 == Snap(b0, c0)
      modifies this, enc, dec, c0
      ensures Valid() && running && pending == old(pending[1..])
      ensures Served(b0, c0, old(enc.State()), old(dec.State()), s0)
      ensures forall ch: Chan<Reply> :: old(allocated(ch)) && ch !in c0 ==> unchanged(ch)
      ensures cmds == old(cmds)
    {
      running := true;
      var batch := pending[0];
      pending := pending[1..];
      NothingDelivered(batch, c0);
      ServeBatch(batch, c0, s0);
    }

    /** The body of a claim: the writing loop, and the reading loop unless
        a write failed. */
    method ServeBatch(batch: seq<Command<Reply>>, ghost chans: seq<Chan<Reply>>, ghost before: Snapshot<Reply>)
      requires Delivered([], batch, chans, before)
      modifies enc, dec, chans
      ensures Served(batch, chans, old(enc.State()), old(dec.State()), before)
    {
      var waiting, abandoned := WriteBatch(batch, chans, before);
      if abandoned {
        return;
      }
      assert waiting == batch;
      ghost var outcomes := ReadReplies(waiting, chans, before);
    }

    /** The writing loop of `Serve`: write the commands in order; at the
        first failure deliver an invalid reply to that command and give up
        on the batch. Returns the commands written successfully. */
    method WriteBatch(batch: seq<Command<Reply>>, ghost chans: seq<Chan<Reply>>, ghost before: Snapshot<Reply>)
      returns (waiting: seq<Command<Reply>>, abandoned: bool)
      requires Delivered([], batch, chans, before)
      modifies enc, chans
      ensures var w := WriteUntilFailure(old(enc.State()), ArgsOf(batch));
              enc.State() == w.after && abandoned == w.failure.Some? &&
              waiting == batch[..if abandoned then w.count - 1 else w.count] &&
              Delivered(FailureEvents(batch, chans, w), batch, chans, before)
    {
      ghost var w := WriteUntilFailure(enc.State(), ArgsOf(batch));
      var failure;
      waiting, failure := WriteUntil(batch);
      abandoned := failure.Some?;
      if abandoned {
        var cmd := batch[|waiting|];
        assert cmd.replyChan == Some(chans[|waiting|]);
        var ev := Event(cmd, cmd.replyChan.value, Invalid(failure.value), None, None);
        DeliverValue([], ev, batch, chans, before);
        assert FailureEvents(batch, chans, w) == [] + [ev];
      } else {
        assert FailureEvents(batch, chans, w) == [];
      }
    }

    /** The encoding in the writing loop: write the commands in order until
        one fails. Returns the commands written successfully and the error
        of the failed write; `WriteBatch` then delivers that error, which
        `Serve` does just before leaving the loop. */
    method WriteUntil(batch: seq<Command<Reply>>) returns (waiting: seq<Command<Reply>>, failure: Option<Error>)
      modifies enc
      ensures var w := WriteUntilFailure(old(enc.State()), ArgsOf(batch));
              enc.State() == w.after && failure == w.failure &&
              waiting == batch[..if failure.Some? then w.count - 1 else w.count]
    {
      ghost var vs := ArgsOf(batch);
      ghost var e0 := enc.State();
      waiting := [];
      for i := 0 to |batch|
        invariant waiting == batch[..i]
        invariant WriteUntilFailure(e0, vs) == Shifted(WriteUntilFailure(enc.State(), vs[i..]), i)
      {
        ghost var es := enc.State();
        var cmd := batch[i];
        var err := enc.Encode(cmd.args);
        WriteUntilStep(e0, vs, i, es, err, enc.State());
        if err.Some? {
          return waiting, err;
        }
        PrefixSnoc(batch, i);
        waiting := waiting + [cmd];
      }
      assert |vs[|batch|..]| == 0;
      failure := None;
    }

    /** The reading loop of `Serve`: one `Decode` per waiting command, in
        order, each outcome delivered as a reply. */
    method ReadReplies(waiting: seq<Command<Reply>>, ghost chans: seq<Chan<Reply>>, ghost before: Snapshot<Reply>)
      returns (ghost outcomes: seq<Result<Reply, Error>>)
      requires Delivered([], waiting, chans, before)
      modifies dec, chans
      ensures (outcomes, dec.State()) == ReadAll(old(dec.State()), |waiting|)
      ensures Delivered(ReplyEvents(waiting, chans, outcomes), waiting, chans, before)
    {
      ghost var events: seq<Event<Reply>> := [];
      outcomes := [];
      for j := 0 to |waiting|
        invariant (outcomes, dec.State()) == ReadAll(old(dec.State()), j)
        invariant events == ReplyEvents(waiting[..j], chans[..j], outcomes)
        invariant Delivered(events, waiting, chans, before)
      {
        var cmd := waiting[j];
        ReplyStep(old(dec.State()), waiting, chans, j);
        var outcome := dec.Decode();
        var ev := Event(cmd, cmd.replyChan.value, ReplyOf(outcome), None, None);
        assert ev.chan == chans[j];
        DeliverValue(events, ev, waiting, chans, before);
        events := events + [ev];
        outcomes := outcomes + [outcome];
      }
      assert waiting[..|waiting|] == waiting && chans[..|waiting|] == chans;
    }
  }
}
