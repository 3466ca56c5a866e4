/** command.go: a command, its reply channel and what the dispatchers do to
    them.

    A Go channel is modelled sequentially by the values ever sent on it and
    by how many of them receivers have taken. A send never blocks here; a
    receive on an empty channel, which blocks for ever in Go, returns None. */
module Commands {
  import opened Wrappers
  import opened Replies
  import opened Protocol

  /** The buffer size of the reply channels that `Go` makes. */
  const ReplyChanCapacity: nat := 2

  /** A buffered channel of T values. */
  class Chan<T> {
    const capacity: nat
    var sent: seq<T>
    var received: nat

    /** `make(chan T, capacity)`. */
    constructor (capacity: nat)
      ensures this.capacity == capacity && sent == [] && received == 0
    {
      this.capacity := capacity;
      sent := [];
      received := 0;
    }

    /** `ch <- v`. */
    method Send(v: T)
      modifies this
      ensures sent == old(sent) + [v] && received == old(received)
    {
      sent := sent + [v];
    }

    /** `<-ch`: the oldest value not yet received, or None when there is none
        and a Go receiver would block. */
    method Receive() returns (v: Option<T>)
      modifies this
      ensures sent == old(sent)
      ensures old(received) < |sent| ==> v == Some(sent[old(received)]) && received == old(received) + 1
      ensures old(received) >= |sent| ==> v.None? && received == old(received)
    {
      if received < |sent| {
        v := Some(sent[received]);
        received := received + 1;
      } else {
        v := None;
      }
    }
  }

  /** `*Command`: the argument list, the reply channel (nil: None) and the
      `Reply` and `Error` fields that the dispatchers of client.go and
      pipeline.go fill in. T is what the channel carries. */
  class Command<T> {
    const args: seq<Arg>
    var replyChan: Option<Chan<T>>
    var reply: Option<Reply>
    var error: Option<Error>

    /** `&Command{Cmd: args}`: no channel yet, `Reply` and `Error` nil. */
    constructor (args: seq<Arg>)
      ensures this.args == args && replyChan.None? && reply.None? && error.None?
    {
      this.args := args;
      replyChan := None;
      reply := None;
      error := None;
    }
  }

  /** The channels of a list of commands. */
  function ChansOf<T>(cmds: seq<Command<T>>): set<Chan<T>>
    reads cmds
  {
    set c | c in cmds && c.replyChan.Some? :: c.replyChan.value
  }

  /** Every command in cmds has a channel. */
  predicate HaveChans<T>(cmds: seq<Command<T>>)
    reads cmds
  {
    forall c :: c in cmds ==> c.replyChan.Some?
  }

  /** The `replyChan` check of `Go`: a command without a channel gets a new
      one of capacity 2; a channel already there is kept. */
  method EnsureChan<T>(cmd: Command<T>)
    modifies cmd
    ensures cmd.replyChan.Some?
    ensures old(cmd.replyChan).Some? ==> cmd.replyChan == old(cmd.replyChan)
    ensures old(cmd.replyChan).None? ==>
              fresh(cmd.replyChan.value) && cmd.replyChan.value.capacity == ReplyChanCapacity &&
              cmd.replyChan.value.sent == [] && cmd.replyChan.value.received == 0
    ensures cmd.reply == old(cmd.reply) && cmd.error == old(cmd.error)
  {
    if cmd.replyChan.None? {
      var ch := new Chan<T>(ReplyChanCapacity);
      cmd.replyChan := Some(ch);
    }
  }

  /** No two entries are the same. */
  ghost predicate Distinct<X>(xs: seq<X>) {
    forall i, j :: 0 <= i < j < |xs| ==> xs[i] != xs[j]
  }

  /** A prefix of distinct entries is distinct, and the entry after it is
      none of its entries. */
  lemma {:induction false} DistinctPrefix<X>(xs: seq<X>, n: nat)
    requires Distinct(xs) && n < |xs|
    ensures Distinct(xs[..n]) && xs[n] !in xs[..n]
  {
    assert forall k :: 0 <= k < n ==> xs[..n][k] == xs[k];
  }

  /** The reply that redis.go and pubsub.go deliver for the outcome of a
      `Decode`: the reply read, or an invalid reply wrapping the error. */
  function ReplyOf(outcome: Result<Reply, Error>): Reply {
    match outcome
    case Ok(r) => r
    case Err(e) => Invalid(e)
  }

  /** The outcome a receiver reads off a delivered reply: an invalid reply
      stands for a failure. */
  function OutcomeOf(r: Reply): Result<Reply, Error> {
    if r.Invalid? then Err(r.cause) else Ok(r)
  }

  /** Nothing is lost by delivering replies: since `Decode` never returns
      an invalid reply, the receiver recovers the outcome exactly, and a
      delivered reply is invalid exactly when the decode failed. */
  lemma {:induction false} ReplyOfRecoverable(outcome: Result<Reply, Error>)
    requires outcome.Ok? ==> !outcome.value.Invalid?
    ensures OutcomeOf(ReplyOf(outcome)) == outcome
    ensures ReplyOf(outcome).Invalid? <==> outcome.Err?
  {
    match outcome
    case Ok(_) =>
    case Err(_) =>
  }

  /** One delivery of a dispatcher: the value sent on a command's channel,
      and the `Reply` and `Error` it stores in the command first (None: that
      field is not assigned). */
  datatype Event<T> = Event(cmd: Command<T>, chan: Chan<T>, value: T, setReply: Option<Reply>, setError: Option<Error>)

  /** The values that events send on ch, in order. */
  function SentOn<T>(events: seq<Event<T>>, ch: Chan<T>): (vs: seq<T>)
    ensures |vs| <= |events|
  {
    if events == [] then []
    else
      var last := events[|events| - 1];
      SentOn(events[..|events| - 1], ch) + (if last.chan == ch then [last.value] else [])
  }

  /** The `Reply` field of c after events, starting from r. */
  function ReplyAfter<T>(events: seq<Event<T>>, c: Command<T>, r: Option<Reply>): Option<Reply> {
    if events == [] then r
    else
      var last := events[|events| - 1];
      if last.cmd == c && last.setReply.Some? then last.setReply
      else ReplyAfter(events[..|events| - 1], c, r)
  }

  /** The `Error` field of c after events, starting from e. */
  function ErrorAfter<T>(events: seq<Event<T>>, c: Command<T>, e: Option<Error>): Option<Error> {
    if events == [] then e
    else
      var last := events[|events| - 1];
      if last.cmd == c && last.setError.Some? then last.setError
      else ErrorAfter(events[..|events| - 1], c, e)
  }

  /** The argument lists of cmds, in order. */
  function ArgsOf<T>(cmds: seq<Command<T>>): (vs: seq<seq<Arg>>)
    ensures |vs| == |cmds| && forall i :: 0 <= i < |cmds| ==> vs[i] == cmds[i].args
  {
    if cmds == [] then [] else ArgsOf(cmds[..|cmds| - 1]) + [cmds[|cmds| - 1].args]
  }

  /** The channels of cmds, one per command, in order. */
  function ChanList<T>(cmds: seq<Command<T>>): (chans: seq<Chan<T>>)
    requires HaveChans(cmds)
    reads cmds
    ensures |chans| == |cmds| && forall i :: 0 <= i < |cmds| ==> cmds[i].replyChan == Some(chans[i])
  {
    seq(|cmds|, i requires 0 <= i < |cmds| && cmds[i].replyChan.Some? reads cmds => cmds[i].replyChan.value)
  }

  /** Events in two parts send on each channel what the parts send, in
      order. */
  lemma {:induction false} SentOnAppend<T>(e1: seq<Event<T>>, e2: seq<Event<T>>, ch: Chan<T>)
    ensures SentOn(e1 + e2, ch) == SentOn(e1, ch) + SentOn(e2, ch)
  {
    if e2 == [] {
      assert e1 + e2 == e1;
    } else {
      var n := |e2| - 1;
      assert (e1 + e2)[..|e1 + e2| - 1] == e1 + e2[..n];
      SentOnAppend(e1, e2[..n], ch);
    }
  }

  lemma {:induction false} ReplyAfterAppend<T>(e1: seq<Event<T>>, e2: seq<Event<T>>, c: Command<T>, r: Option<Reply>)
    ensures ReplyAfter(e1 + e2, c, r) == ReplyAfter(e2, c, ReplyAfter(e1, c, r))
  {
    if e2 == [] {
      assert e1 + e2 == e1;
    } else {
      var n := |e2| - 1;
      assert (e1 + e2)[..|e1 + e2| - 1] == e1 + e2[..n];
      ReplyAfterAppend(e1, e2[..n], c, r);
    }
  }

  lemma {:induction false} ErrorAfterAppend<T>(e1: seq<Event<T>>, e2: seq<Event<T>>, c: Command<T>, e: Option<Error>)
    ensures ErrorAfter(e1 + e2, c, e) == ErrorAfter(e2, c, ErrorAfter(e1, c, e))
  {
    if e2 == [] {
      assert e1 + e2 == e1;
    } else {
      var n := |e2| - 1;
      assert (e1 + e2)[..|e1 + e2| - 1] == e1 + e2[..n];
      ErrorAfterAppend(e1, e2[..n], c, e);
    }
  }

  /** A single event: its value goes on its own channel only, its fields
      into its own command only. */
  lemma {:induction false} OneEvent<T>(ev: Event<T>, ch: Chan<T>, c: Command<T>, r: Option<Reply>, e: Option<Error>)
    ensures SentOn([ev], ch) == if ev.chan == ch then [ev.value] else []
    ensures ReplyAfter([ev], c, r) == if ev.cmd == c && ev.setReply.Some? then ev.setReply else r
    ensures ErrorAfter([ev], c, e) == if ev.cmd == c && ev.setError.Some? then ev.setError else e
  {
    assert [ev][..0] == [];
  }

  /** One more event: its value goes on its own channel, its fields into its
      own command. */
  lemma {:induction false} EventsSnoc<T>(events: seq<Event<T>>, ev: Event<T>)
    ensures forall ch :: SentOn(events + [ev], ch) == SentOn(events, ch) + (if ev.chan == ch then [ev.value] else [])
    ensures forall c, r :: ReplyAfter(events + [ev], c, r) == if ev.cmd == c && ev.setReply.Some? then ev.setReply else ReplyAfter(events, c, r)
    ensures forall c, e :: ErrorAfter(events + [ev], c, e) == if ev.cmd == c && ev.setError.Some? then ev.setError else ErrorAfter(events, c, e)
  {
    assert (events + [ev])[..|events|] == events;
  }

  /** The fields of some commands and channels at one moment, position by
      position: sent[i] and received[i] of channel i, reply[i] and error[i]
      of command i. */
  datatype Snapshot<T> = Snapshot(sent: seq<seq<T>>, received: seq<nat>, reply: seq<Option<Reply>>, error: seq<Option<Error>>)

  ghost function Snap<T>(cmds: seq<Command<T>>, chans: seq<Chan<T>>): (s: Snapshot<T>)
    reads cmds, chans
    ensures |s.sent| == |s.received| == |chans| && |s.reply| == |s.error| == |cmds|
  {
    Snapshot(seq(|chans|, i requires 0 <= i < |chans| reads chans => chans[i].sent),
             seq(|chans|, i requires 0 <= i < |chans| reads chans => chans[i].received),
             seq(|cmds|, i requires 0 <= i < |cmds| reads cmds => cmds[i].reply),
             seq(|cmds|, i requires 0 <= i < |cmds| reads cmds => cmds[i].error))
  }

  /** Command i delivers on channel i. */
  ghost predicate Aligned<T>(cmds: seq<Command<T>>, chans: seq<Chan<T>>)
    reads cmds
  {
    |chans| == |cmds| && forall i :: 0 <= i < |cmds| ==> cmds[i].replyChan == Some(chans[i])
  }

  /** Command i and channel i are as `before` with the events done on top:
      the channel holds what it held plus what the events sent on it, in
      order, and nothing was received from it; the command has the `Reply`
      and `Error` the events left. */
  ghost predicate DeliveredAt<T>(events: seq<Event<T>>, cmds: seq<Command<T>>, chans: seq<Chan<T>>, before: Snapshot<T>, i: int)
    requires 0 <= i < |cmds| == |chans| == |before.sent| == |before.received| == |before.reply| == |before.error|
    reads cmds[i], chans[i]
  {
    chans[i].sent == before.sent[i] + SentOn(events, chans[i]) && chans[i].received == before.received[i] &&
    cmds[i].reply == ReplyAfter(events, cmds[i], before.reply[i]) &&
    cmds[i].error == ErrorAfter(events, cmds[i], before.error[i])
  }

  /** Command i delivers on channel i, and every position is delivered. */
  ghost predicate Delivered<T>(events: seq<Event<T>>, cmds: seq<Command<T>>, chans: seq<Chan<T>>, before: Snapshot<T>)
    reads cmds, chans
  {
    Aligned(cmds, chans) &&
    |before.sent| == |before.received| == |before.reply| == |before.error| == |cmds| &&
    forall i :: 0 <= i < |cmds| ==> DeliveredAt(events, cmds, chans, before, i)
  }

  /** Before any delivery, everything is as in its own snapshot. */
  lemma {:induction false} NothingDelivered<T>(cmds: seq<Command<T>>, chans: seq<Chan<T>>)
    requires Aligned(cmds, chans)
    ensures Delivered([], cmds, chans, Snap(cmds, chans))
  {
    forall i | 0 <= i < |chans|
      ensures DeliveredAt([], cmds, chans, Snap(cmds, chans), i)
    {
      assert chans[i].sent + [] == chans[i].sent;
    }
  }

  /** One delivery: store the event's `Reply` or `Error` in its command and
      send its value on the command's channel. */
  method Deliver<T>(ghost events: seq<Event<T>>, ev: Event<T>, ghost cmds: seq<Command<T>>, ghost chans: seq<Chan<T>>,
                    ghost before: Snapshot<T>)
    requires ev.cmd.replyChan == Some(ev.chan)
    requires Delivered(events, cmds, chans, before)
    modifies ev.cmd, ev.chan
    ensures Delivered(events + [ev], cmds, chans, before)
    ensures ev.cmd.replyChan == old(ev.cmd.replyChan)
  {
    EventsSnoc(events, ev);
    if ev.setReply.Some? {
      ev.cmd.reply := ev.setReply;
    }
    if ev.setError.Some? {
      ev.cmd.error := ev.setError;
    }
    ev.chan.Send(ev.value);
    forall i | 0 <= i < |cmds|
      ensures DeliveredAt(events + [ev], cmds, chans, before, i)
    {
      assert old(DeliveredAt(events, cmds, chans, before, i));
    }
  }

  /** A delivery that stores nothing in its command: only the send on the
      command's channel. */
  method DeliverValue<T>(ghost events: seq<Event<T>>, ev: Event<T>, ghost cmds: seq<Command<T>>, ghost chans: seq<Chan<T>>,
                         ghost before: Snapshot<T>)
    requires ev.cmd.replyChan == Some(ev.chan) && ev.setReply.None? && ev.setError.None?
    requires Delivered(events, cmds, chans, before)
    modifies ev.chan
    ensures Delivered(events + [ev], cmds, chans, before)
  {
    EventsSnoc(events, ev);
    ev.chan.Send(ev.value);
    forall i | 0 <= i < |cmds|
      ensures DeliveredAt(events + [ev], cmds, chans, before, i)
    {
      assert old(DeliveredAt(events, cmds, chans, before, i));
    }
  }
}
