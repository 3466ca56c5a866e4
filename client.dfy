/** client.go: the one-command-at-a-time dispatcher.

    `Go` queues a command and `Serve` claims the head of the queue under the
    `running` flag, writes it, reads one reply and delivers the outcome on
    the command's channel. The goroutine that `Go` starts is the `Serve`
    call that `Execute` makes between queueing and receiving. */
module Clients {
  import opened Wrappers
  import opened Replies
  import opened Protocol
  import opened Commands

  /** What one claimed command receives on its channel: `false` for a
      failed write, then the outcome of the read that follows it anyway. */
  function Deliveries(writeErr: Option<Error>, outcome: Result<Reply, Error>): (vs: seq<bool>)
  {
    (if writeErr.Some? then [false] else []) + [outcome.Ok?]
  }

  /** A claim sends one or two values, which fit the capacity-2 channel of
      `Go`; `true` is sent exactly when the read succeeded, and then it is
      the only value sent. */
  lemma {:induction false} DeliveriesFit(writeErr: Option<Error>, outcome: Result<Reply, Error>)
    ensures 1 <= |Deliveries(writeErr, outcome)| <= ReplyChanCapacity
    ensures |Deliveries(writeErr, outcome)| == 2 <==> writeErr.Some?
    ensures (true in Deliveries(writeErr, outcome)) <==> outcome.Ok?
    ensures outcome.Ok? ==> Deliveries(writeErr, outcome) == [true] || Deliveries(writeErr, outcome) == [false, true]
    ensures Deliveries(writeErr, outcome)[0] == (writeErr.None? && outcome.Ok?)
  {
    var vs := Deliveries(writeErr, outcome);
    if writeErr.Some? {
      assert vs == [false, outcome.Ok?];
    } else {
      assert vs == [outcome.Ok?];
    }
  }

  /** The `Error` field after a claim: the read's error, else the write's,
      else what it was. */
  function ErrorAfterClaim(e: Option<Error>, writeErr: Option<Error>, outcome: Result<Reply, Error>): Option<Error> {
    if outcome.Err? then Some(outcome.error) else if writeErr.Some? then writeErr else e
  }

  class Client {
    var pending: seq<Command<bool>>
    var running: bool
    const enc: Encoder
    const dec: Decoder

    /** `&Client{enc: ..., dec: ...}` as `Dial` builds it. */
    constructor (enc: Encoder, dec: Decoder)
      ensures pending == [] && !running && this.enc == enc && this.dec == dec
    {
      pending := [];
      running := false;
      this.enc := enc;
      this.dec := dec;
    }

    /** Every queued command has a channel to deliver on. */
    predicate Valid()
      reads this, pending
    {
      HaveChans(pending)
    }

    /** `Go(cmd)`: give cmd a channel if it has none and append it to the
        queue; returns the channel. */
    method Go(cmd: Command<bool>) returns (ch: Chan<bool>)
      requires Valid()
      modifies this, cmd
      ensures Valid()
      ensures pending == old(pending) + [cmd] && running == old(running)
      ensures cmd.replyChan == Some(ch)
      ensures old(cmd.replyChan).Some? ==> ch == old(cmd.replyChan).value
      ensures old(cmd.replyChan).None? ==>
                fresh(ch) && ch.capacity == ReplyChanCapacity && ch.sent == [] && ch.received == 0
      ensures cmd.reply == old(cmd.reply) && cmd.error == old(cmd.error)
    {
      EnsureChan(cmd);
      pending := pending + [cmd];
      ch := cmd.replyChan.value;
    }

    /** `Serve()`. The loop claims the head command only when `running` is
        clear, and sets `running`; nothing ever clears it again (the reset
        after the loop cannot be reached), so the first claim is the only
        one a Client ever makes. A claimed command is written; a failed
        write sets `Error` and sends `false`, and a reply is read all the
        same. A failed read sets `Error` and sends `false`; a good one sets
        `Reply` and sends `true`. */
    method Serve()
      requires Valid()
      modifies this, enc, dec, pending, ChansOf(pending)
      ensures Valid()
      ensures running == (old(running) || old(pending) != [])
      ensures old(running) || old(pending) == [] ==>
                pending == old(pending) && enc.State() == old(enc.State()) && dec.State() == old(dec.State())
      ensures !old(running) && old(pending) != [] ==>
                var cmd := old(pending[0]);
                var (writeErr, es) := Write(old(enc.State()), cmd.args);
                var (outcome, ds) := Next(old(dec.State()));
                pending == old(pending[1..]) && enc.State() == es && dec.State() == ds &&
                cmd.replyChan == old(cmd.replyChan) &&
                cmd.replyChan.value.sent == old(cmd.replyChan.value.sent) + Deliveries(writeErr, outcome) &&
                cmd.replyChan.value.received == old(cmd.replyChan.value.received) &&
                cmd.error == ErrorAfterClaim(old(cmd.error), writeErr, outcome) &&
                cmd.reply == (if outcome.Ok? then Some(outcome.value) else old(cmd.reply))
      ensures forall c :: c in old(pending) && (old(running) || c != old(pending[0])) ==> unchanged(c)
      ensures forall ch :: ch in old(ChansOf(pending)) && (old(running) || Some(ch) != old(pending[0].replyChan)) ==> unchanged(ch)
    {
      ghost var claimed := false;
      while true
        invariant Valid()
        invariant running == (old(running) || claimed)
        invariant claimed ==> !old(running) && old(pending) != []
        invariant !claimed ==> pending == old(pending) && enc.State() == old(enc.State()) && dec.State() == old(dec.State())
        invariant !claimed ==> forall c :: c in old(pending) ==> unchanged(c)
        invariant !claimed ==> forall ch :: ch in old(ChansOf(pending)) ==> unchanged(ch)
        invariant claimed ==>
                    var cmd := old(pending[0]);
                    var (writeErr, es) := Write(old(enc.State()), cmd.args);
                    var (outcome, ds) := Next(old(dec.State()));
                    pending == old(pending[1..]) && enc.State() == es && dec.State() == ds &&
                    cmd.replyChan == old(cmd.replyChan) &&
                    cmd.replyChan.value.sent == old(cmd.replyChan.value.sent) + Deliveries(writeErr, outcome) &&
                    cmd.replyChan.value.received == old(cmd.replyChan.value.received) &&
                    cmd.error == ErrorAfterClaim(old(cmd.error), writeErr, outcome) &&
                    cmd.reply == (if outcome.Ok? then Some(outcome.value) else old(cmd.reply))
        invariant claimed ==> forall c :: c in old(pending) && c != old(pending[0]) ==> unchanged(c)
        invariant claimed ==> forall ch :: ch in old(ChansOf(pending)) && Some(ch) != old(pending[0].replyChan) ==> unchanged(ch)
        decreases if running then 0 else 1
      {
        if running || |pending| == 0 {
          return;
        }
        running := true;
        var cmd := pending[0];
        pending := pending[1..];
        claimed := true;
        var ch := cmd.replyChan.value;
        assert cmd in old(pending) && old(cmd.replyChan) == Some(ch);
        assert ch in old(ChansOf(pending));
        ServeOne(cmd, ch);
      }
    }

    /** The body of a claim: write cmd, and on failure store the error and
        send `false`; then read a reply all the same, and store it and send
        `true`, or store the read's error and send `false`. */
    method ServeOne(cmd: Command<bool>, ch: Chan<bool>)
      modifies enc, dec, cmd, ch
      ensures var (writeErr, es) := Write(old(enc.State()), cmd.args);
              var (outcome, ds) := Next(old(dec.State()));
              enc.State() == es && dec.State() == ds &&
              ch.sent == old(ch.sent) + Deliveries(writeErr, outcome) && ch.received == old(ch.received) &&
              cmd.replyChan == old(cmd.replyChan) &&
              cmd.error == ErrorAfterClaim(old(cmd.error), writeErr, outcome) &&
              cmd.reply == (if outcome.Ok? then Some(outcome.value) else old(cmd.reply))
    {
      var writeErr := enc.Encode(cmd.args);
      if writeErr.Some? {
        cmd.error := writeErr;
        ch.Send(false);
      }
      var outcome := dec.Decode();
      if outcome.Err? {
        cmd.error := Some(outcome.error);
        ch.Send(false);
      } else {
        cmd.reply := Some(outcome.value);
        ch.Send(true);
      }
    }

    /** `Execute(cmd)`: queue cmd, let the goroutine serve, and take the
        first value delivered on cmd's channel. On an idle client with an
        empty queue, cmd is the one claimed: it is written and read as in
        `Serve`, and the receive takes the first value it was sent. Otherwise
        the head of the queue is claimed instead, or nothing when `running`
        is set, and cmd stays queued untouched; a new channel then stays
        empty, and None says that the receive would block for ever. */
    method Execute(cmd: Command<bool>) returns (ok: Option<bool>)
      requires Valid()
      modifies this, cmd, enc, dec, pending, ChansOf(pending + [cmd])
      ensures Valid()
      ensures running
      ensures !old(running) && old(pending) == [] ==>
                var (writeErr, es) := Write(old(enc.State()), cmd.args);
                var (outcome, ds) := Next(old(dec.State()));
                pending == [] && enc.State() == es && dec.State() == ds &&
                cmd.error == ErrorAfterClaim(old(cmd.error), writeErr, outcome) &&
                cmd.reply == (if outcome.Ok? then Some(outcome.value) else old(cmd.reply)) &&
                cmd.replyChan.Some? && (old(cmd.replyChan).Some? ==> cmd.replyChan == old(cmd.replyChan))
      ensures !old(running) && old(pending) == [] && old(cmd.replyChan).None? ==>
                var (writeErr, _) := Write(old(enc.State()), cmd.args);
                var (outcome, _) := Next(old(dec.State()));
                ok == Some(writeErr.None? && outcome.Ok?) &&
                cmd.replyChan.value.sent == Deliveries(writeErr, outcome) && cmd.replyChan.value.received == 1
      ensures !old(running) && old(pending) == [] && old(cmd.replyChan).Some? ==>
                var ch := old(cmd.replyChan.value);
                ch.sent == old(ch.sent) + Deliveries(Write(old(enc.State()), cmd.args).0, Next(old(dec.State())).0) &&
                (old(ch.received) < |ch.sent| ==> ok == Some(ch.sent[old(ch.received)]) && ch.received == old(ch.received) + 1) &&
                (old(ch.received) >= |ch.sent| ==> ok.None? && ch.received == old(ch.received))
      ensures old(running) ==>
                pending == old(pending) + [cmd] && enc.State() == old(enc.State()) && dec.State() == old(dec.State())
      ensures !old(running) && old(pending) != [] ==>
                pending == old(pending[1..]) + [cmd] &&
                enc.State() == Write(old(enc.State()), old(pending[0]).args).1 && dec.State() == Next(old(dec.State())).1
      ensures (old(running) || old(pending) != []) && cmd !in old(pending) ==>
                cmd.reply == old(cmd.reply) && cmd.error == old(cmd.error)
      ensures (old(running) || old(pending) != []) && old(cmd.replyChan).None? ==>
                ok.None? && cmd.replyChan.Some? && cmd.replyChan.value.sent == [] && cmd.replyChan.value.received == 0
    {
      var ch := Go(cmd);
      ghost var queued := pending;
      assert queued[|queued| - 1] == cmd && (old(pending) != [] ==> queued[0] == old(pending[0]));
      Serve();
      ghost var (writeErr, _) := Write(old(enc.State()), cmd.args);
      ghost var (outcome, _) := Next(old(dec.State()));
      if !old(running) && old(pending) == [] && old(cmd.replyChan).None? {
        DeliveriesFit(writeErr, outcome);
      }
      if (old(running) || old(pending) != []) && cmd !in old(pending) {
        assert cmd in queued && (old(running) || cmd != queued[0]);
      }
      ok := ch.Receive();
    }

    /** Commands 0 to k - 1 have been served since the snapshot s0: their
        channels hold more values than they did, and no channel has lost a
        value or had one received from it. */
    ghost predicate Drained(chans0: seq<Chan<bool>>, s0: Snapshot<bool>, k: int)
      requires |s0.sent| == |s0.received| == |chans0|
      reads chans0
    {
      0 <= k <= |chans0| &&
      (forall i :: 0 <= i < |chans0| ==> |chans0[i].sent| >= |s0.sent[i]| && chans0[i].received == s0.received[i]) &&
      (forall i :: 0 <= i < k ==> |chans0[i].sent| > |s0.sent[i]|)
    }

    /** `Serve` with the reset at client.go:72 reached: claim and serve the
        queued commands one at a time until the queue is empty, then clear
        `running`. A call that finds `running` set returns at once, as
        before. Every command queued at the call gets at least one value on
        its channel, and nothing is taken from any channel. */
    method DrainingServe()
      requires Valid()
      modifies this, enc, dec, pending, ChansOf(pending)
      ensures Valid() && running == old(running)
      ensures old(running) ==>
                pending == old(pending) && enc.State() == old(enc.State()) && dec.State() == old(dec.State())
      ensures !old(running) ==> pending == []
      ensures !old(running) ==>
                forall i :: 0 <= i < |old(pending)| ==>
                  |old(pending[i].replyChan.value).sent| > |old(pending[i].replyChan.value.sent)|
      ensures forall i :: 0 <= i < |old(pending)| ==>
                old(pending[i].replyChan.value).received == old(pending[i].replyChan.value.received)
    {
      if running {
        return;
      }
      ghost var cmds0 := pending;
      ghost var chans0 := ChanList(pending);
      ghost var s0 := Snap(pending, chans0);
      running := true;
      while pending != []
        invariant Valid() && running
        invariant |pending| <= |cmds0| && pending == cmds0[|cmds0| - |pending|..]
        invariant Aligned(cmds0, chans0) && Drained(chans0, s0, |cmds0| - |pending|)
        decreases |pending|
      {
        DrainOne(cmds0, chans0, s0);
      }
      running := false;
    }

    /** One pass of the draining loop: claim the head command and serve it
        as `ServeOne` does, so that one more command has had its values sent
        on its channel. */
    method DrainOne(ghost cmds0: seq<Command<bool>>, ghost chans0: seq<Chan<bool>>, ghost s0: Snapshot<bool>)
      requires Valid() && pending != [] && Aligned(cmds0, chans0)
      requires |pending| <= |cmds0| && pending == cmds0[|cmds0| - |pending|..]
      requires |s0.sent| == |s0.received| == |chans0| && Drained(chans0, s0, |cmds0| - |pending|)
      modifies this, enc, dec, pending[0], chans0[|cmds0| - |pending|]
      ensures Valid() && running == old(running) && |pending| == old(|pending|) - 1
      ensures pending == cmds0[|cmds0| - |pending|..]
      ensures Aligned(cmds0, chans0) && Drained(chans0, s0, |cmds0| - |pending|)
      ensures var k := |cmds0| - old(|pending|);
              var (writeErr, es) := Write(old(enc.State()), cmds0[k].args);
              var (outcome, ds) := Next(old(dec.State()));
              enc.State() == es && dec.State() == ds &&
              chans0[k].sent == old(chans0[k].sent) + Deliveries(writeErr, outcome) &&
              cmds0[k].error == ErrorAfterClaim(old(cmds0[k].error), writeErr, outcome) &&
              cmds0[k].reply == (if outcome.Ok? then Some(outcome.value) else old(cmds0[k].reply))
    {
      ghost var k := |cmds0| - |pending|;
      var cmd := pending[0];
      pending := pending[1..];
      var ch := cmd.replyChan.value;
      assert cmd == cmds0[k] && ch == chans0[k];
      assert pending == cmds0[k + 1..];
      ServeOne(cmd, ch);
      forall i | 0 <= i < |cmds0|
        ensures cmds0[i].replyChan == Some(chans0[i])
      {
        assert old(cmds0[i].replyChan) == Some(chans0[i]);
      }
      forall c | c in pending
        ensures c.replyChan.Some?
      {
        assert c in old(pending);
      }
    }

    /** `Execute` over `DrainingServe`: the command is served, whatever was
        queued before it, and the client is idle again afterwards, so the
        next `Execute` is served too. */
    method DrainingExecute(cmd: Command<bool>) returns (ok: Option<bool>)
      requires Valid() && !running
      modifies this, cmd, enc, dec, pending, ChansOf(pending + [cmd])
      ensures Valid() && !running && pending == []
      ensures old(cmd.replyChan).None? ==> ok.Some?
    {
      var ch := Go(cmd);
      assert pending[|pending| - 1] == cmd;
      DrainingServe();
      ok := ch.Receive();
    }
  }

  /** Two commands executed one after the other on a new client: the first
      is answered, and the receive of the second blocks for ever, since the
      first claim left `running` set. */
  method SecondExecuteBlocks(c: Client, a: Command<bool>, b: Command<bool>) returns (first: Option<bool>, second: Option<bool>)
    requires c.Valid() && !c.running && c.pending == [] && a != b
    requires a.replyChan.None? && b.replyChan.None?
    modifies c, a, b, c.enc, c.dec
    ensures first.Some? && second.None?
  {
    assert ChansOf(c.pending + [a]) == {};
    first := c.Execute(a);
    assert ChansOf(c.pending + [b]) == {};
    second := c.Execute(b);
  }

  /** The same two commands over the draining `Serve`: both are answered. */
  method DrainedExecutesBoth(c: Client, a: Command<bool>, b: Command<bool>) returns (first: Option<bool>, second: Option<bool>)
    requires c.Valid() && !c.running && c.pending == [] && a != b
    requires a.replyChan.None? && b.replyChan.None?
    modifies c, a, b, c.enc, c.dec
    ensures first.Some? && second.Some?
  {
    assert ChansOf(c.pending + [a]) == {};
    first := c.DrainingExecute(a);
    assert ChansOf(c.pending + [b]) == {};
    second := c.DrainingExecute(b);
  }
}
