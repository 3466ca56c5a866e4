/** pipeline.go: the batching dispatcher.

    `Go` adds a command to the batch being built, `Exec` queues that batch,
    `Discard` drops the queue. `Serve` claims the head batch under the
    `running` flag, writes every command of it, and then reads one reply
    for each command whose write succeeded, in order. */
module Pipelines {
  import opened Wrappers
  import opened Replies
  import opened Protocol
  import opened Runs
  import opened Commands
  import CodecProperties

  // ------------------------------------------------- the batch, as values

  /** How many of the writes succeeded. */
  function Succeeded(errs: seq<Option<Error>>): (n: nat)
    ensures n <= |errs|
  {
    if errs == [] then 0 else Succeeded(errs[..|errs| - 1]) + (if errs[|errs| - 1].None? then 1 else 0)
  }

  /** The entries of xs whose write succeeded (errs[i] is None), in order:
      the `waiting` list of `Serve`. */
  function Kept<X>(xs: seq<X>, errs: seq<Option<Error>>): (ys: seq<X>)
    requires |xs| == |errs|
    ensures |ys| == Succeeded(errs)
  {
    if xs == [] then []
    else Kept(xs[..|xs| - 1], errs[..|errs| - 1]) + (if errs[|errs| - 1].None? then [xs[|xs| - 1]] else [])
  }

  /** The deliveries of the writing loop: `false`, with the write's error
      stored in `Error`, for every command whose write failed, in order. */
  function WriteEvents(batch: seq<Command<bool>>, chans: seq<Chan<bool>>, errs: seq<Option<Error>>): (events: seq<Event<bool>>)
    requires |batch| == |chans| == |errs|
    ensures |events| == |batch| - Succeeded(errs)
  {
    if batch == [] then []
    else
      var n := |batch| - 1;
      WriteEvents(batch[..n], chans[..n], errs[..n]) +
      (if errs[n].Some? then [Event(batch[n], chans[n], false, None, errs[n])] else [])
  }

  /** The delivery of one read outcome: `Reply` and `true`, or `Error` and
      `false`. */
  function ReadEvent(cmd: Command<bool>, ch: Chan<bool>, outcome: Result<Reply, Error>): Event<bool> {
    match outcome
    case Ok(r) => Event(cmd, ch, true, Some(r), None)
    case Err(e) => Event(cmd, ch, false, None, Some(e))
  }

  /** The deliveries of the reading loop: outcome j goes to waiting command
      j. */
  function ReadEvents(waiting: seq<Command<bool>>, chans: seq<Chan<bool>>, outcomes: seq<Result<Reply, Error>>): (events: seq<Event<bool>>)
    requires |waiting| == |chans| == |outcomes|
    ensures |events| == |waiting|
  {
    if waiting == [] then []
    else
      var n := |waiting| - 1;
      ReadEvents(waiting[..n], chans[..n], outcomes[..n]) + [ReadEvent(waiting[n], chans[n], outcomes[n])]
  }

  /** Everything one claimed batch receives: the write failures first, then
      the read outcomes of the commands that were written. */
  function BatchEvents(batch: seq<Command<bool>>, chans: seq<Chan<bool>>, errs: seq<Option<Error>>,
                       outcomes: seq<Result<Reply, Error>>): (events: seq<Event<bool>>)
    requires |batch| == |chans| == |errs| && |outcomes| == Succeeded(errs)
    ensures |events| == |batch|
  {
    WriteEvents(batch, chans, errs) + ReadEvents(Kept(batch, errs), Kept(chans, errs), outcomes)
  }

  // ------------------------------------------------------ their properties

  /** Kept of a longer prefix extends Kept of a shorter one. */
  lemma {:induction false} KeptPrefix<X>(xs: seq<X>, errs: seq<Option<Error>>, i: nat)
    requires |xs| == |errs| && i <= |xs|
    ensures |Kept(xs[..i], errs[..i])| <= |Kept(xs, errs)|
    ensures Kept(xs, errs)[..|Kept(xs[..i], errs[..i])|] == Kept(xs[..i], errs[..i])
    decreases |xs| - i
  {
    if i < |xs| {
      var n := |xs| - 1;
      assert xs[..n][..i] == xs[..i] && errs[..n][..i] == errs[..i];
      KeptPrefix(xs[..n], errs[..n], i);
    } else {
      assert xs[..i] == xs && errs[..i] == errs;
    }
  }

  /** The command at position i of the batch, when its write succeeded, is
      waiting command number Succeeded(errs[..i]): the number of successful
      writes before it. So `waiting` is the batch with the failed commands
      taken out, in the batch's order. */
  lemma {:induction false} KeptAt<X>(xs: seq<X>, errs: seq<Option<Error>>, i: nat)
    requires |xs| == |errs| && i < |xs| && errs[i].None?
    ensures Succeeded(errs[..i]) < |Kept(xs, errs)|
    ensures Kept(xs, errs)[Succeeded(errs[..i])] == xs[i]
  {
    var k := Succeeded(errs[..i]);
    assert xs[..i + 1][..i] == xs[..i] && errs[..i + 1][..i] == errs[..i];
    assert Kept(xs[..i + 1], errs[..i + 1]) == Kept(xs[..i], errs[..i]) + [xs[i]];
    KeptPrefix(xs, errs, i + 1);
  }

  /** The successes counted over a prefix never decrease, and they grow by
      one past each successful write: distinct successful writes have
      distinct places in `waiting`. */
  lemma {:induction false} SucceededGrows(errs: seq<Option<Error>>, i: nat, j: nat)
    requires i < j <= |errs| && errs[i].None?
    ensures Succeeded(errs[..i]) < Succeeded(errs[..j])
    decreases j - i
  {
    if j == i + 1 {
      assert errs[..j][..i] == errs[..i];
    } else {
      SucceededGrows(errs, i, j - 1);
      assert errs[..j][..j - 1] == errs[..j - 1];
    }
  }

  /** A batch with no failed write waits for all of its commands. */
  lemma {:induction false} KeptAll<X>(xs: seq<X>, errs: seq<Option<Error>>)
    requires |xs| == |errs| && forall i :: 0 <= i < |errs| ==> errs[i].None?
    ensures Kept(xs, errs) == xs
  {
    if xs != [] {
      var n := |xs| - 1;
      KeptAll(xs[..n], errs[..n]);
      assert xs[..n] + [xs[n]] == xs;
    }
  }

  /** Read event j is outcome j, delivered to waiting command j on its
      channel: `true` with the reply stored, or `false` with the error
      stored. */
  lemma {:induction false} ReadEventsAt(waiting: seq<Command<bool>>, chans: seq<Chan<bool>>,
                                        outcomes: seq<Result<Reply, Error>>, j: nat)
    requires |waiting| == |chans| == |outcomes| && j < |waiting|
    ensures var ev := ReadEvents(waiting, chans, outcomes)[j];
            ev.cmd == waiting[j] && ev.chan == chans[j] && ev.value == outcomes[j].Ok? &&
            (outcomes[j].Ok? ==> ev.setReply == Some(outcomes[j].value) && ev.setError.None?) &&
            (outcomes[j].Err? ==> ev.setError == Some(outcomes[j].error) && ev.setReply.None?)
    decreases |waiting|
  {
    var n := |waiting| - 1;
    if j < n {
      ReadEventsAt(waiting[..n], chans[..n], outcomes[..n], j);
    }
  }

  /** Every write failure is delivered, and nothing else is: one event per
      failed command, `false` with its own error. */
  lemma {:induction false} WriteEventsAt(batch: seq<Command<bool>>, chans: seq<Chan<bool>>, errs: seq<Option<Error>>, i: nat)
    requires |batch| == |chans| == |errs| && i < |batch| && errs[i].Some?
    ensures i - Succeeded(errs[..i]) < |WriteEvents(batch, chans, errs)|
    ensures WriteEvents(batch, chans, errs)[i - Succeeded(errs[..i])] == Event(batch[i], chans[i], false, None, errs[i])
    decreases |batch|
  {
    var n := |batch| - 1;
    if i < n {
      assert errs[..n][..i] == errs[..i];
      WriteEventsAt(batch[..n], chans[..n], errs[..n], i);
    } else {
      assert errs[..n] == errs[..i];
    }
  }

  /** The command at position i of a claimed batch gets its delivery at
      place `i - Succeeded(errs[..i])` among the write failures if its write
      failed, and otherwise at the place of read outcome number
      Succeeded(errs[..i]), which is the outcome it is given. */
  lemma {:induction false} DeliveryOf(batch: seq<Command<bool>>, chans: seq<Chan<bool>>, errs: seq<Option<Error>>,
                                      outcomes: seq<Result<Reply, Error>>, i: nat)
    requires |batch| == |chans| == |errs| && |outcomes| == Succeeded(errs) && i < |batch|
    ensures errs[i].Some? ==>
              i - Succeeded(errs[..i]) < |batch| &&
              BatchEvents(batch, chans, errs, outcomes)[i - Succeeded(errs[..i])] == Event(batch[i], chans[i], false, None, errs[i])
    ensures errs[i].None? ==>
              var k := Succeeded(errs[..i]);
              k < |outcomes| && |batch| - Succeeded(errs) + k < |batch| &&
              BatchEvents(batch, chans, errs, outcomes)[|batch| - Succeeded(errs) + k]
                == ReadEvent(batch[i], chans[i], outcomes[k])
  {
    var w := WriteEvents(batch, chans, errs);
    var r := ReadEvents(Kept(batch, errs), Kept(chans, errs), outcomes);
    if errs[i].Some? {
      WriteEventsAt(batch, chans, errs, i);
      assert (w + r)[i - Succeeded(errs[..i])] == w[i - Succeeded(errs[..i])];
    } else {
      var k := Succeeded(errs[..i]);
      KeptAt(batch, errs, i);
      KeptAt(chans, errs, i);
      ReadEventsAt(Kept(batch, errs), Kept(chans, errs), outcomes, k);
      assert (w + r)[|w| + k] == r[k];
      var o := outcomes[k];
      assert r[k] == ReadEvent(batch[i], chans[i], o) by {
        match o
        case Ok(_) =>
        case Err(_) =>
      }
    }
  }

  /** Once a read of the batch fails, the decoder's error is sticky: every
      later waiting command of the batch gets `false` and the same error. */
  lemma {:induction false} ReadFailureSpreads(d: DecoderState, waiting: seq<Command<bool>>, chans: seq<Chan<bool>>, j: nat, k: nat)
    requires |waiting| == |chans| && j <= k < |waiting|
    requires ReadAll(d, |waiting|).0[j].Err?
    ensures var ev := ReadEvents(waiting, chans, ReadAll(d, |waiting|).0)[k];
            !ev.value && ev.setError == Some(ReadAll(d, |waiting|).0[j].error)
  {
    CodecProperties.FailureIsFinal(d, |waiting|, j);
    ReadEventsAt(waiting, chans, ReadAll(d, |waiting|).0, k);
  }

  /** Every entry of Kept(xs, errs) is an entry of xs. */
  lemma {:induction false} KeptIn<X>(xs: seq<X>, errs: seq<Option<Error>>)
    requires |xs| == |errs|
    ensures forall y :: y in Kept(xs, errs) ==> y in xs
  {
    if xs != [] {
      var n := |xs| - 1;
      KeptIn(xs[..n], errs[..n]);
      assert forall y :: y in xs[..n] ==> y in xs;
    }
  }

  // ------------------------------------------- what each command receives

  /** Kept of distinct entries is distinct. */
  lemma {:induction false} KeptDistinct<X>(xs: seq<X>, errs: seq<Option<Error>>)
    requires |xs| == |errs| && Distinct(xs)
    ensures Distinct(Kept(xs, errs))
  {
    if xs != [] {
      var n := |xs| - 1;
      KeptDistinct(xs[..n], errs[..n]);
      KeptIn(xs[..n], errs[..n]);
      assert xs[n] !in xs[..n];
    }
  }

  /** A distinct entry whose write failed is not waiting. */
  lemma {:induction false} KeptOut<X>(xs: seq<X>, errs: seq<Option<Error>>, i: nat)
    requires |xs| == |errs| && Distinct(xs) && i < |xs| && errs[i].Some?
    ensures xs[i] !in Kept(xs, errs)
  {
    var n := |xs| - 1;
    KeptIn(xs[..n], errs[..n]);
    if i < n {
      KeptOut(xs[..n], errs[..n], i);
      assert xs[..n][i] == xs[i];
    } else {
      assert xs[n] !in xs[..n];
    }
  }

  /** The write failures of other commands touch neither ch nor c. */
  lemma {:induction false} WriteEventsMiss(batch: seq<Command<bool>>, chans: seq<Chan<bool>>, errs: seq<Option<Error>>,
                                           ch: Chan<bool>, c: Command<bool>, r: Option<Reply>, e: Option<Error>)
    requires |batch| == |chans| == |errs| && ch !in chans && c !in batch
    ensures SentOn(WriteEvents(batch, chans, errs), ch) == []
    ensures ReplyAfter(WriteEvents(batch, chans, errs), c, r) == r
    ensures ErrorAfter(WriteEvents(batch, chans, errs), c, e) == e
  {
    if batch != [] {
      var n := |batch| - 1;
      var w := WriteEvents(batch[..n], chans[..n], errs[..n]);
      assert chans[n] in chans && batch[n] in batch;
      WriteEventsMiss(batch[..n], chans[..n], errs[..n], ch, c, r, e);
      if errs[n].Some? {
        EventsSnoc(w, Event(batch[n], chans[n], false, None, errs[n]));
      } else {
        assert WriteEvents(batch, chans, errs) == w + [] == w;
      }
    }
  }

  /** With distinct commands and channels, the writing loop sends command i
      `false` and stores its error if its write failed, and otherwise does
      nothing to it. */
  lemma {:induction false} WriteEventsOf(batch: seq<Command<bool>>, chans: seq<Chan<bool>>, errs: seq<Option<Error>>,
                                         i: nat, r: Option<Reply>, e: Option<Error>)
    requires |batch| == |chans| == |errs| && i < |batch| && Distinct(batch) && Distinct(chans)
    ensures SentOn(WriteEvents(batch, chans, errs), chans[i]) == (if errs[i].Some? then [false] else [])
    ensures ReplyAfter(WriteEvents(batch, chans, errs), batch[i], r) == r
    ensures ErrorAfter(WriteEvents(batch, chans, errs), batch[i], e) == (if errs[i].Some? then errs[i] else e)
  {
    var n := |batch| - 1;
    var w := WriteEvents(batch[..n], chans[..n], errs[..n]);
    var ev := Event(batch[n], chans[n], false, None, errs[n]);
    var tail: seq<Event<bool>> := if errs[n].Some? then [ev] else [];
    assert WriteEvents(batch, chans, errs) == w + tail;
    SentOnAppend(w, tail, chans[i]);
    ReplyAfterAppend(w, tail, batch[i], r);
    ErrorAfterAppend(w, tail, batch[i], e);
    OneEvent(ev, chans[i], batch[i], r, ErrorAfter(w, batch[i], e));
    DistinctPrefix(batch, n);
    DistinctPrefix(chans, n);
    if i < n {
      WriteEventsOf(batch[..n], chans[..n], errs[..n], i, r, e);
      assert batch[..n][i] == batch[i] && chans[..n][i] == chans[i] && errs[..n][i] == errs[i];
      assert batch[n] != batch[i] && chans[n] != chans[i];
    } else {
      WriteEventsMiss(batch[..n], chans[..n], errs[..n], chans[n], batch[n], r, e);
    }
  }

  /** The reads of other commands touch neither ch nor c. */
  lemma {:induction false} ReadEventsMiss(waiting: seq<Command<bool>>, chans: seq<Chan<bool>>, outcomes: seq<Result<Reply, Error>>,
                                          ch: Chan<bool>, c: Command<bool>, r: Option<Reply>, e: Option<Error>)
    requires |waiting| == |chans| == |outcomes| && ch !in chans && c !in waiting
    ensures SentOn(ReadEvents(waiting, chans, outcomes), ch) == []
    ensures ReplyAfter(ReadEvents(waiting, chans, outcomes), c, r) == r
    ensures ErrorAfter(ReadEvents(waiting, chans, outcomes), c, e) == e
  {
    if waiting != [] {
      var n := |waiting| - 1;
      assert chans[n] in chans && waiting[n] in waiting;
      ReadEventsMiss(waiting[..n], chans[..n], outcomes[..n], ch, c, r, e);
      EventsSnoc(ReadEvents(waiting[..n], chans[..n], outcomes[..n]), ReadEvent(waiting[n], chans[n], outcomes[n]));
    }
  }

  /** With distinct commands and channels, the reading loop sends waiting
      command k exactly `true` and stores the reply, or exactly `false` and
      stores the error, as read k came out. */
  lemma {:induction false} ReadEventsOf(waiting: seq<Command<bool>>, chans: seq<Chan<bool>>, outcomes: seq<Result<Reply, Error>>,
                                        k: nat, r: Option<Reply>, e: Option<Error>)
    requires |waiting| == |chans| == |outcomes| && k < |waiting| && Distinct(waiting) && Distinct(chans)
    ensures SentOn(ReadEvents(waiting, chans, outcomes), chans[k]) == [outcomes[k].Ok?]
    ensures ReplyAfter(ReadEvents(waiting, chans, outcomes), waiting[k], r)
         == (if outcomes[k].Ok? then Some(outcomes[k].value) else r)
    ensures ErrorAfter(ReadEvents(waiting, chans, outcomes), waiting[k], e)
         == (if outcomes[k].Err? then Some(outcomes[k].error) else e)
  {
    var n := |waiting| - 1;
    var ev := ReadEvent(waiting[n], chans[n], outcomes[n]);
    EventsSnoc(ReadEvents(waiting[..n], chans[..n], outcomes[..n]), ev);
    if k < n {
      ReadEventsOf(waiting[..n], chans[..n], outcomes[..n], k, r, e);
      assert waiting[..n][k] == waiting[k] && chans[..n][k] == chans[k] && outcomes[..n][k] == outcomes[k];
    } else {
      assert waiting[n] !in waiting[..n] && chans[n] !in chans[..n];
      ReadEventsMiss(waiting[..n], chans[..n], outcomes[..n], chans[n], waiting[n], r, e);
      assert [] + [outcomes[n].Ok?] == [outcomes[n].Ok?];
    }
  }

  /** What command i of a claimed batch of distinct commands and channels
      receives: exactly `false` with its write error stored, when the write
      failed; otherwise exactly the outcome of read number
      Succeeded(errs[..i]), `true` with the reply stored or `false` with the
      read error stored. */
  lemma {:induction false} BatchOutcome(batch: seq<Command<bool>>, chans: seq<Chan<bool>>, errs: seq<Option<Error>>,
                                        outcomes: seq<Result<Reply, Error>>, i: nat, r: Option<Reply>, e: Option<Error>)
    requires |batch| == |chans| == |errs| && |outcomes| == Succeeded(errs) && i < |batch|
    requires Distinct(batch) && Distinct(chans)
    ensures var events := BatchEvents(batch, chans, errs, outcomes);
            errs[i].Some? ==>
              SentOn(events, chans[i]) == [false] && ReplyAfter(events, batch[i], r) == r &&
              ErrorAfter(events, batch[i], e) == errs[i]
    ensures var events := BatchEvents(batch, chans, errs, outcomes);
            var k := Succeeded(errs[..i]);
            errs[i].None? ==>
              k < |outcomes| && SentOn(events, chans[i]) == [outcomes[k].Ok?] &&
              ReplyAfter(events, batch[i], r) == (if outcomes[k].Ok? then Some(outcomes[k].value) else r) &&
              ErrorAfter(events, batch[i], e) == (if outcomes[k].Err? then Some(outcomes[k].error) else e)
  {
    var w := WriteEvents(batch, chans, errs);
    var waiting, wchans := Kept(batch, errs), Kept(chans, errs);
    var rd := ReadEvents(waiting, wchans, outcomes);
    SentOnAppend(w, rd, chans[i]);
    ReplyAfterAppend(w, rd, batch[i], r);
    ErrorAfterAppend(w, rd, batch[i], e);
    WriteEventsOf(batch, chans, errs, i, r, e);
    if errs[i].Some? {
      KeptOut(batch, errs, i);
      KeptOut(chans, errs, i);
      ReadEventsMiss(waiting, wchans, outcomes, chans[i], batch[i], r, errs[i]);
      assert [false] + [] == [false];
    } else {
      var k := Succeeded(errs[..i]);
      KeptAt(batch, errs, i);
      KeptAt(chans, errs, i);
      KeptDistinct(batch, errs);
      KeptDistinct(chans, errs);
      ReadEventsOf(waiting, wchans, outcomes, k, r, e);
      assert [] + [outcomes[k].Ok?] == [outcomes[k].Ok?];
    }
  }

  /** The fields of command i and the values on its channel once its batch
      has been served, in terms of what they were before. */
  lemma {:induction false} BatchDelivered(batch: seq<Command<bool>>, chans: seq<Chan<bool>>, errs: seq<Option<Error>>,
                                          outcomes: seq<Result<Reply, Error>>, before: Snapshot<bool>, i: nat)
    requires |batch| == |chans| == |errs| && |outcomes| == Succeeded(errs) && i < |batch|
    requires Distinct(batch) && Distinct(chans)
    requires Delivered(BatchEvents(batch, chans, errs, outcomes), batch, chans, before)
    ensures chans[i].received == before.received[i]
    ensures errs[i].Some? ==>
              chans[i].sent == before.sent[i] + [false] && batch[i].reply == before.reply[i] &&
              batch[i].error == errs[i]
    ensures var k := Succeeded(errs[..i]);
            errs[i].None? ==>
              k < |outcomes| && chans[i].sent == before.sent[i] + [outcomes[k].Ok?] &&
              batch[i].reply == (if outcomes[k].Ok? then Some(outcomes[k].value) else before.reply[i]) &&
              batch[i].error == (if outcomes[k].Err? then Some(outcomes[k].error) else before.error[i])
  {
    assert DeliveredAt(BatchEvents(batch, chans, errs, outcomes), batch, chans, before, i);
    BatchOutcome(batch, chans, errs, outcomes, i, before.reply[i], before.error[i]);
  }

  /** The commands and channels are among those of a larger list. */
  ghost predicate Within(sub: seq<Command<bool>>, subChans: seq<Chan<bool>>, cmds: seq<Command<bool>>, chans: seq<Chan<bool>>) {
    (forall c :: c in sub ==> c in cmds) && (forall ch :: ch in subChans ==> ch in chans)
  }

  /** The waiting commands keep their places' channels. */
  lemma {:induction false} KeptChans(batch: seq<Command<bool>>, chans: seq<Chan<bool>>, errs: seq<Option<Error>>)
    requires |errs| == |batch| && Aligned(batch, chans)
    ensures Aligned(Kept(batch, errs), Kept(chans, errs))
    ensures Within(Kept(batch, errs), Kept(chans, errs), batch, chans)
  {
    KeptIn(batch, errs);
    KeptIn(chans, errs);
    if batch != [] {
      var n := |batch| - 1;
      KeptChans(batch[..n], chans[..n], errs[..n]);
    }
  }

  /** The argument lists of one more command: one more list, last. */
  lemma {:induction false} ArgsSnoc(batch: seq<Command<bool>>, i: nat)
    requires i < |batch|
    ensures ArgsOf(batch[..i + 1]) == ArgsOf(batch[..i]) + [batch[i].args]
  {
    assert batch[..i + 1][..i] == batch[..i];
  }

  /** One more write: one more result, last, from where the others left
      the writer. */
  lemma {:induction false} WriteAllSnoc(es: EncoderState, vs: seq<seq<Arg>>, v: seq<Arg>)
    ensures var (err, es') := Write(WriteAll(es, vs).1, v);
            WriteAll(es, vs + [v]) == (WriteAll(es, vs).0 + [err], es')
  {
    assert (vs + [v])[..|vs|] == vs;
  }

  /** One more entry: it waits when its write succeeded. */
  lemma {:induction false} KeptSnoc<X>(xs: seq<X>, errs: seq<Option<Error>>, err: Option<Error>, i: nat)
    requires i < |xs| && |errs| == i
    ensures Kept(xs[..i + 1], errs + [err]) == Kept(xs[..i], errs) + (if err.None? then [xs[i]] else [])
  {
    assert xs[..i + 1][..i] == xs[..i];
    assert (errs + [err])[..i] == errs;
  }

  /** One more write: one more failure delivery when it failed. */
  lemma {:induction false} WriteEventsSnoc(batch: seq<Command<bool>>, chans: seq<Chan<bool>>,
                                           errs: seq<Option<Error>>, err: Option<Error>, i: nat)
    requires i < |batch| == |chans| && |errs| == i
    ensures WriteEvents(batch[..i + 1], chans[..i + 1], errs + [err])
         == WriteEvents(batch[..i], chans[..i], errs) + (if err.Some? then [Event(batch[i], chans[i], false, None, err)] else [])
  {
    assert batch[..i + 1][..i] == batch[..i] && chans[..i + 1][..i] == chans[..i];
    assert (errs + [err])[..i] == errs;
  }

  /** One more write in the writing loop: the write results, the waiting
      list and the failure deliveries each grow by that write's share. */
  lemma {:induction false} WriteStep(es: EncoderState, batch: seq<Command<bool>>, chans: seq<Chan<bool>>,
                                     errs: seq<Option<Error>>, i: nat, err: Option<Error>, es': EncoderState)
    requires i < |batch| == |chans| && |errs| == i
    requires WriteAll(es, ArgsOf(batch[..i])).0 == errs
    requires (err, es') == Write(WriteAll(es, ArgsOf(batch[..i])).1, batch[i].args)
    ensures WriteAll(es, ArgsOf(batch[..i + 1])) == (errs + [err], es')
    ensures Kept(batch[..i + 1], errs + [err]) == Kept(batch[..i], errs) + (if err.None? then [batch[i]] else [])
    ensures WriteEvents(batch[..i + 1], chans[..i + 1], errs + [err])
         == WriteEvents(batch[..i], chans[..i], errs) + (if err.Some? then [Event(batch[i], chans[i], false, None, err)] else [])
  {
    ArgsSnoc(batch, i);
    WriteAllSnoc(es, ArgsOf(batch[..i]), batch[i].args);
    KeptSnoc(batch, errs, err, i);
    WriteEventsSnoc(batch, chans, errs, err, i);
  }

  /** One more read in the reading loop: the outcomes and the read
      deliveries grow by that read's share. */
  lemma {:induction false} ReadStep(d: DecoderState, waiting: seq<Command<bool>>, chans: seq<Chan<bool>>, j: nat)
    requires j < |waiting| == |chans|
    ensures var (outcome, d') := Next(ReadAll(d, j).1);
            ReadAll(d, j + 1) == (ReadAll(d, j).0 + [outcome], d') &&
            ReadEvents(waiting[..j + 1], chans[..j + 1], ReadAll(d, j).0 + [outcome])
              == ReadEvents(waiting[..j], chans[..j], ReadAll(d, j).0) + [ReadEvent(waiting[j], chans[j], outcome)]
  {
    var outcome := Next(ReadAll(d, j).1).0;
    assert waiting[..j + 1][..j] == waiting[..j] && chans[..j + 1][..j] == chans[..j];
    assert (ReadAll(d, j).0 + [outcome])[..j] == ReadAll(d, j).0;
  }

  // ------------------------------------------------------------ PipeLine

  class PipeLine {
    var cmds: seq<Command<bool>>
    var pending: seq<seq<Command<bool>>>
    var running: bool
    const enc: Encoder
    const dec: Decoder

    /** `&PipeLine{enc: ..., dec: ...}` as `DialPipeLine` builds it. */
    constructor (enc: Encoder, dec: Decoder)
      ensures cmds == [] && pending == [] && !running && this.enc == enc && this.dec == dec
    {
      cmds := [];
      pending := [];
      running := false;
      this.enc := enc;
      this.dec := dec;
    }

    /** The commands of the queued batches. */
    function Queued(): set<Command<bool>>
      reads this
    {
      set b, c | b in pending && c in b :: c
    }

    /** Every command being batched or queued has a channel. */
    predicate Valid()
      reads this, cmds, Queued()
    {
      HaveChans(cmds) && forall b, c :: b in pending && c in b ==> c.replyChan.Some?
    }

    /** `Go(cmd)`: give cmd a channel if it has none and add it to the batch
        being built; the queue is not touched. */
    method Go(cmd: Command<bool>) returns (ch: Chan<bool>)
      requires Valid()
      modifies this, cmd
      ensures Valid()
      ensures cmds == old(cmds) + [cmd] && pending == old(pending) && running == old(running)
      ensures cmd.replyChan == Some(ch)
      ensures old(cmd.replyChan).Some? ==> ch == old(cmd.replyChan).value
      ensures old(cmd.replyChan).None? ==>
                fresh(ch) && ch.capacity == ReplyChanCapacity && ch.sent == [] && ch.received == 0
      ensures cmd.reply == old(cmd.reply) && cmd.error == old(cmd.error)
    {
      EnsureChan(cmd);
      cmds := cmds + [cmd];
      ch := cmd.replyChan.value;
    }

    /** `Discard()`: drop every queued batch; the batch being built stays. */
    method Discard()
      requires Valid()
      modifies this
      ensures Valid()
      ensures pending == [] && cmds == old(cmds) && running == old(running)
    {
      pending := [];
    }

    /** `Exec()`: the batch being built becomes the last queued batch, and a
        new one starts empty. */
    method Exec()
      requires Valid()
      modifies this
      ensures Valid()
      ensures pending == old(pending) + [old(cmds)] && cmds == [] && running == old(running)
    {
      pending := pending + [cmds];
      cmds := [];
    }

    /** The channels of the queued commands. */
    function QueuedChans(): set<Chan<bool>>
      reads this, Queued()
    {
      set c | c in Queued() && c.replyChan.Some? :: c.replyChan.value
    }

    /** What serving `batch` leaves behind, given the encoder and decoder
        states and the commands' and channels' state before it: the encoder
        has written every command in order, the decoder has read one reply per
        successful write, and every command received its `BatchEvents`. */
    ghost predicate Served(batch: seq<Command<bool>>, chans: seq<Chan<bool>>,
                           e0: EncoderState, d0: DecoderState, before: Snapshot<bool>)
      reads enc, dec, batch, chans
    {
      |chans| == |batch| &&
      var (errs, es) := WriteAll(e0, ArgsOf(batch));
      var (outcomes, ds) := ReadAll(d0, Succeeded(errs));
      enc.State() == es && dec.State() == ds &&
      Delivered(BatchEvents(batch, chans, errs, outcomes), batch, chans, before)
    }

    /** The body of a claim: the writing loop and then the reading loop. */
    method ServeBatch(batch: seq<Command<bool>>, ghost chans: seq<Chan<bool>>, ghost before: Snapshot<bool>)
      requires Delivered([], batch, chans, before)
      modifies enc, dec, batch, chans
      ensures Served(batch, chans, old(enc.State()), old(dec.State()), before)
      ensures forall c: Command<bool> :: old(allocated(c)) ==> c.replyChan == old(c.replyChan)
      ensures forall ch: Chan<bool> :: old(allocated(ch)) && ch !in chans ==> unchanged(ch)
      ensures unchanged(this)
    {
      var waiting, errs := WriteBatch(batch, chans, before);
      ghost var wchans := Kept(chans, errs);
      KeptChans(batch, chans, errs);
      ghost var outcomes := ReadReplies(waiting, wchans, batch, chans, before, WriteEvents(batch, chans, errs));
    }

    /** `Serve()`. The loop claims the head batch only when `running` is
        clear, and sets `running`; nothing ever clears it again (the reset
        after the loop cannot be reached), so only the first batch queued is
        ever served. */
    method Serve()
      requires Valid()
      modifies this, enc, dec, Queued(), QueuedChans()
      ensures Valid()
      ensures running == (old(running) || old(pending) != [])
      ensures old(running) || old(pending) == [] ==>
                pending == old(pending) && enc.State() == old(enc.State()) && dec.State() == old(dec.State()) &&
                unchanged(old(Queued())) && unchanged(old(QueuedChans()))
      ensures !old(running) && old(pending) != [] ==>
                pending == old(pending[1..]) &&
                Served(old(pending[0]), old(ChanList(pending[0])), old(enc.State()), old(dec.State()),
                       old(Snap(pending[0], ChanList(pending[0]))))
      ensures forall c :: c in old(Queued()) && (old(running) || c !in old(pending[0])) ==> unchanged(c)
      ensures forall ch :: ch in old(QueuedChans()) && (old(running) || ch !in old(ChanList(pending[0]))) ==>
                unchanged(ch)
      ensures cmds == old(cmds)
    {
      ghost var claimed := false;
      ghost var e0, d0, q0, qc0 := enc.State(), dec.State(), Queued(), QueuedChans();
      ghost var b0 := if pending == [] then [] else pending[0];
      assert pending != [] ==> b0 in pending;
      ghost var c0 := ChanList(b0);
      ghost var s0 := Snap(b0, c0);
      while true
        invariant Valid()
        invariant running == (old(running) || claimed)
        invariant claimed ==> !old(running) && old(pending) != []
        invariant !claimed ==>
                    pending == old(pending) && enc.State() == e0 && dec.State() == d0 &&
                    unchanged(q0) && unchanged(qc0) && ChanList(b0) == c0 && Snap(b0, c0) == s0
        invariant claimed ==> pending == old(pending[1..]) && Served(b0, c0, e0, d0, s0)
        invariant forall c :: c in q0 && (!claimed || c !in b0) ==> unchanged(c)
        invariant forall ch :: ch in qc0 && (!claimed || ch !in c0) ==> unchanged(ch)
        invariant cmds == old(cmds)
        decreases if running then 0 else 1
      {
        if running || |pending| == 0 {
          return;
        }
        assert forall c :: c in b0 ==> c in q0;
        assert forall i :: 0 <= i < |c0| ==> b0[i] in q0 && c0[i] in qc0;
        Claim(b0, c0, s0);
        claimed := true;
      }
    }

    /** One pass of the `Serve` loop past its guard: set `running`, pop the
        head batch and serve it. */
    method Claim(ghost b0: seq<Command<bool>>, ghost c0: seq<Chan<bool>>, ghost s0: Snapshot<bool>)
      requires Valid() && !running && pending != []
      requires b0 == pending[0] && HaveChans(b0) && c0 == ChanList(b0) && s0 == Snap(b0, c0)
      modifies this, enc, dec, b0, c0
      ensures Valid() && running && pending == old(pending[1..])
      ensures Served(b0, c0, old(enc.State()), old(dec.State()), s0)
      ensures forall c: Command<bool> :: old(allocated(c)) && c !in b0 ==> unchanged(c)
      ensures forall ch: Chan<bool> :: old(allocated(ch)) && ch !in c0 ==> unchanged(ch)
      ensures cmds == old(cmds)
    {
      running := true;
      var batch := pending[0];
      pending := pending[1..];
      NothingDelivered(batch, c0);
      ghost var building, rest := cmds, pending;
      assert HaveChans(building);
      assert forall b :: b in rest ==> HaveChans(b) by {
        forall b | b in rest
          ensures HaveChans(b)
        {
          assert b in old(pending);
        }
      }
      ServeBatch(batch, c0, s0);
    }

    /** The writing loop of `Serve`: write every command of the batch in
        order; a failed write stores the error in `Error` and sends `false`,
        and the loop goes on. Returns the commands whose write succeeded. */
    method WriteBatch(batch: seq<Command<bool>>, ghost chans: seq<Chan<bool>>, ghost before: Snapshot<bool>)
      returns (waiting: seq<Command<bool>>, ghost errs: seq<Option<Error>>)
      requires Delivered([], batch, chans, before)
      modifies enc, batch, chans
      ensures (errs, enc.State()) == WriteAll(old(enc.State()), ArgsOf(batch))
      ensures |errs| == |batch| && waiting == Kept(batch, errs)
      ensures Delivered(WriteEvents(batch, chans, errs), batch, chans, before)
    {
      ghost var events: seq<Event<bool>> := [];
      waiting := [];
      errs := [];
      for i := 0 to |batch|
        invariant |errs| == i
        invariant (errs, enc.State()) == WriteAll(old(enc.State()), ArgsOf(batch[..i]))
        invariant waiting == Kept(batch[..i], errs)
        invariant events == WriteEvents(batch[..i], chans[..i], errs)
        invariant Delivered(events, batch, chans, before)
      {
        var cmd := batch[i];
        var err := WriteOne(cmd, chans[i], events, batch, chans, before);
        WriteStep(old(enc.State()), batch, chans, errs, i, err, enc.State());
        if err.Some? {
          events := events + [Event(cmd, chans[i], false, None, err)];
        } else {
          waiting := waiting + [cmd];
        }
        errs := errs + [err];
      }
      assert batch[..|batch|] == batch && chans[..|batch|] == chans;
    }

    /** One pass of the writing loop: write cmd; on failure store the error
        in `Error` and send `false`. */
    method WriteOne(cmd: Command<bool>, ghost ch: Chan<bool>, ghost events: seq<Event<bool>>,
                    ghost batch: seq<Command<bool>>, ghost chans: seq<Chan<bool>>, ghost before: Snapshot<bool>)
      returns (err: Option<Error>)
      requires cmd.replyChan == Some(ch)
      requires Delivered(events, batch, chans, before)
      modifies enc, cmd, ch
      ensures (err, enc.State()) == Write(old(enc.State()), cmd.args)
      ensures Delivered(events + (if err.Some? then [Event(cmd, ch, false, None, err)] else []), batch, chans, before)
    {
      err := enc.Encode(cmd.args);
      if err.Some? {
        var ev := Event(cmd, cmd.replyChan.value, false, None, err);
        Deliver(events, ev, batch, chans, before);
      } else {
        assert events + [] == events;
      }
    }

    /** The reading loop of `Serve`: one `Decode` per waiting command, in
        order; a failure stores the error and sends `false`, a reply is
        stored and `true` sent. */
    method ReadReplies(waiting: seq<Command<bool>>, ghost wchans: seq<Chan<bool>>, ghost cmds: seq<Command<bool>>,
                       ghost chans: seq<Chan<bool>>, ghost before: Snapshot<bool>, ghost done: seq<Event<bool>>)
      returns (ghost outcomes: seq<Result<Reply, Error>>)
      requires Aligned(waiting, wchans) && Within(waiting, wchans, cmds, chans)
      requires Delivered(done, cmds, chans, before)
      modifies dec, cmds, chans
      ensures (outcomes, dec.State()) == ReadAll(old(dec.State()), |waiting|)
      ensures Delivered(done + ReadEvents(waiting, wchans, outcomes), cmds, chans, before)
    {
      ghost var events: seq<Event<bool>> := [];
      outcomes := [];
      assert done + events == done;
      for j := 0 to |waiting|
        invariant (outcomes, dec.State()) == ReadAll(old(dec.State()), j)
        invariant events == ReadEvents(waiting[..j], wchans[..j], outcomes)
        invariant Aligned(waiting, wchans)
        invariant Delivered(done + events, cmds, chans, before)
      {
        var cmd := waiting[j];
        ReadStep(old(dec.State()), waiting, wchans, j);
        var ch := cmd.replyChan.value;
        assert ch == wchans[j] && cmd in waiting && ch in wchans;
        var outcome := dec.Decode();
        var ev := ReadEvent(cmd, ch, outcome);
        Deliver(done + events, ev, cmds, chans, before);
        assert done + events + [ev] == done + (events + [ev]);
        events := events + [ev];
        outcomes := outcomes + [outcome];
      }
      assert waiting[..|waiting|] == waiting && wchans[..|waiting|] == wchans;
    }
  }
}
