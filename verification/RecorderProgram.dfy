/** The recorder as a program: one object whose fields are the atomics, the channel
    and the writer, and whose methods are the source's operations in the source's
    own form. Calls do not interrupt each other here; each is proved to be a path of
    the interleaved system, so the object only ever shows states of its runs. */
module RecorderProgram {

  import opened Recorder
  import opened RecorderCalls
  import opened Wrappers

  class DiagnosticRecorder {
    const limits: Limits
    var now: nat
    var c: Counters                     // the shared atomics
    var receiverOpen: bool
    var queue: seq<Record>              // the bounded channel
    var timers: multiset<int>           // live timers
    var w: Writer                       // the writer thread and its file
    var handle: Handle                  // the sender side, as the channel sees it
    ghost var producers: seq<Producer>  // where the other threads stand
    ghost var closed: bool
    ghost var gone: multiset<int>
    ghost var enqueued: seq<Record>

    ghost function View(): State
      reads this
    {
      State(limits, now, c, handle, receiverOpen, queue, producers, timers, w, closed, gone, enqueued)
    }

    /** Between calls the writer stands at the head of its loop or is done. */
    ghost predicate Valid()
      reads this
    {
      Reachable(View()) && (w.place.Gate? || w.place.Done?)
    }

    constructor (limits: Limits, threads: nat)
      requires 0 <= limits.maxRecords
      ensures Valid() && Init(View()) && this.limits == limits && |producers| == threads
    {
      this.limits := limits;
      now, c, receiverOpen, queue, timers := 0, ZERO, true, [], multiset{};
      w := Writer(Gate, false, 0, 0, false, false, [], 0, 0);
      handle, producers, closed, gone, enqueued := Held, seq(threads, _ => Idle), false, multiset{}, [];
      new;
      InitialIsReachable(View());
    }

    /** `Shared::enter`: registers a section unless the gate refuses it. */
    method Enter() returns (entered: bool)
      modifies this`c
      ensures entered <==> old(c.word) < 0x7fff_ffff_ffff_ffff
      ensures c == old(c).(word := old(c.word) + if entered then 1 else 0)
    {
      entered := c.word < CLOSED - 1;
      if entered {
        c := c.(word := c.word + 1);
      }
    }

    /** Dropping a `ProducerSection`. */
    method Leave()
      modifies this`c
      ensures c == old(c).(word := old(c.word) - 1)
    {
      c := c.(word := c.word - 1);
    }

    /** `Shared::close`. */
    method Close()
      modifies this`c, this`closed
      ensures View() == CloseGate(old(View()))
      ensures old(Reachable(View())) ==> Reachable(View())
    {
      CloseLeads(View());
      ghost var before := View();
      if Reachable(before) {
        LeadsReachable(AnyCaller, before, CloseGate(before));
      }
      if c.word < CLOSED {
        c := c.(word := c.word + CLOSED);
      }
      closed := true;
    }

    /** `Shared::reserve_record`: never exceeds the record limit. */
    method ReserveRecord() returns (ok: bool)
      modifies this`c
      ensures ok <==> old(c.reserved) < limits.maxRecords
      ensures c == old(c).(reserved := old(c.reserved) + if ok then 1 else 0)
    {
      ok := c.reserved < limits.maxRecords;
      if ok {
        c := c.(reserved := c.reserved + 1);
      }
    }

    /** `try_send` on the bounded channel. */
    method TrySend(r: Record) returns (ok: bool)
      modifies this`queue, this`enqueued
      ensures ok <==> receiverOpen && |old(queue)| < QUEUE_CAPACITY
      ensures queue == Append(old(queue), if ok then Some(r) else None)
      ensures enqueued == Append(old(enqueued), if ok then Some(r) else None)
    {
      ok := receiverOpen && |queue| < QUEUE_CAPACITY;
      if ok {
        queue, enqueued := queue + [r], enqueued + [r];
      }
    }

    /** The accounting of `begin_record` inside its section. */
    method CountBegin() returns (timer: Option<int>)
      modifies this`c
      ensures timer == if now < limits.duration && old(c.accepted) < limits.maxRecords then Some(old(c.started))
                       else None
      ensures c == if timer.Some? then old(c).(started := old(c.started) + 1)
                   else if now >= limits.duration then old(c).(expired := old(c.expired) + 1)
                   else old(c).(dropped := old(c.dropped) + 1)
    {
      timer := None;
      if now >= limits.duration {
        c := c.(expired := c.expired + 1);
      } else if c.accepted >= limits.maxRecords {
        c := c.(dropped := c.dropped + 1);
      } else {
        timer, c := Some(c.started), c.(started := c.started + 1);
      }
    }

    /** `Inner::begin_record`, called by thread `t`: a timer comes back exactly while the gate
        is open, the duration has not passed and the limit is not used up. */
    method BeginRecord(ghost t: nat) returns (timer: Option<int>)
      requires Valid() && t < |producers| && producers[t].Idle? && handle == Held
      modifies this`c, this`timers
      ensures Valid() && View() == BeginCall(old(View()))
      ensures timer.Some? <==>
                old(Admitting(View())) && now < limits.duration && old(c.accepted) < limits.maxRecords
      ensures timers == if timer.Some? then old(timers) + multiset{timer.value} else old(timers)
      ensures timer.Some? ==> timer.value !in old(timers)
      ensures c.expired - old(c.expired) == if old(Admitting(View())) && now >= limits.duration then 1 else 0
      ensures c.dropped - old(c.dropped) ==
              if old(Admitting(View())) && now < limits.duration && old(c.accepted) >= limits.maxRecords then 1 else 0
    {
      BeginAccounts(View());
      ghost var before := View();
      BeginLeads(before, t);
      LeadsReachable(Thread(t), before, BeginCall(before));
      timer := None;
      var entered := Enter();
      if entered {
        timer := CountBegin();
        c := c.(admitted := c.admitted + 1);
        Leave();
      }
      if timer.Some? {
        timers := timers + multiset{timer.value};
      }
    }

    /** The accounting of `record` inside its section. */
    method Account(r: Record) returns (sent: bool)
      modifies this`c, this`queue, this`enqueued
      ensures sent <==>
                now < limits.duration && old(c.reserved) < limits.maxRecords && receiverOpen
                && |old(queue)| < QUEUE_CAPACITY
      ensures c == if sent then old(c).(reserved := old(c.reserved) + 1, accepted := old(c.accepted) + 1)
                   else if now >= limits.duration then old(c).(expired := old(c.expired) + 1)
                   else old(c).(dropped := old(c.dropped) + 1)
      ensures queue == Append(old(queue), if sent then Some(r) else None)
      ensures enqueued == Append(old(enqueued), if sent then Some(r) else None)
    {
      sent := false;
      if now >= limits.duration {
        c := c.(expired := c.expired + 1);
        return;
      }
      var reserved := ReserveRecord();
      if !reserved {
        c := c.(dropped := c.dropped + 1);
        return;
      }
      sent := TrySend(r);
      if sent {
        c := c.(accepted := c.accepted + 1);
      } else {
        c := c.(reserved := c.reserved - 1);
        c := c.(dropped := c.dropped + 1);
      }
    }

    /** `Inner::record`. */
    method Record(r: Record) returns (sent: bool)
      modifies this`c, this`queue, this`enqueued
      ensures c == RecordCounters(old(View()))
      ensures sent <==> Delivers(old(View()))
      ensures queue == Append(old(queue), if sent then Some(r) else None)
      ensures enqueued == Append(old(enqueued), if sent then Some(r) else None)
    {
      var entered := Enter();
      if entered {
        sent := Account(r);
        c := c.(finalized := c.finalized + 1);
        Leave();
      } else {
        sent, c := false, c.(lost := c.lost + 1);
      }
    }

    /** `Active::finish`, called by thread `t`: the timer is consumed whatever becomes of
        its record. */
    method Finish(r: Record, ghost t: nat)
      requires Valid() && t < |producers| && producers[t].Idle? && r.timer in timers
      modifies this`c, this`timers, this`queue, this`enqueued, this`gone
      ensures Valid() && View() == RecordCall(old(View()), r)
      ensures timers == old(timers) - multiset{r.timer}
      ensures enqueued == old(enqueued) + [r] <==>
                && old(Admitting(View())) && now < limits.duration && old(c.reserved) < limits.maxRecords
                && receiverOpen && |old(queue)| < 256
      ensures if enqueued == old(enqueued) + [r]
              then queue == old(queue) + [r] && gone == old(gone) && c.accepted == old(c.accepted) + 1
              else queue == old(queue) && gone == old(gone) + multiset{r.timer} && enqueued == old(enqueued)
    {
      AdmitsWhileOpen(View());
      ghost var before := View();
      RecordLeads(before, t, r);
      LeadsReachable(Thread(t), before, RecordCall(before, r));
      var sent := Record(r);
      timers := timers - multiset{r.timer};
      if !sent {
        gone := gone + multiset{r.timer};
      }
    }

    /** The head of an iteration: the terminal snapshot, once the word is exactly CLOSED. */
    method Seal()
      modifies this`receiverOpen, this`w
      ensures View() == Received(old(View()))
    {
      if !w.sealed && c.word == CLOSED {
        receiverOpen := false;
        w := w.(sealed := true, unfinished := if c.started >= c.finalized then c.started - c.finalized else 0);
      }
      w := w.(place := Receiving);
    }

    /** The rest of an iteration, from `try_recv` on. */
    method HandleNext(io: Io)
      requires w.place.Receiving?
      modifies this`c, this`closed, this`queue, this`w
      ensures View() == Handled(old(View()), io)
    {
      if |queue| > 0 {
        var failed := w.writeFailed;
        w := Wrote(w, queue[0], io);
        queue := queue[1..];
        if w.writeFailed && !failed {
          Close();
        }
      } else if w.sealed {
        w := w.(place := Flushing);
      } else {
        w := w.(place := Gate);
        if handle == Dropped {
          Close();
        }
      }
    }

    /** One iteration of the loop in `write_records`: takes and writes the head of the queue;
        with nothing queued it ends the loop behind the gate, closes the gate if every sender
        is gone, or waits. */
    method WriterTurn(io: Io)
      requires Reachable(View()) && w.place.Gate?
      modifies this`c, this`closed, this`receiverOpen, this`queue, this`w
      ensures Reachable(View()) && View() == Turn(old(View()), io)
      ensures Handles(old(queue), old(w), io, queue, w, closed)
      ensures old(queue) == [] ==> (w.place.Flushing? <==> old(w.sealed) || old(c.word) == CLOSED)
      ensures old(queue) == [] && w.place.Gate? && handle == Dropped ==> closed
    {
      TurnHandles(View(), io);
      TurnLeads(View(), io);
      LeadsReachable(TheWriter, View(), Turn(View(), io));
      Seal();
      HandleNext(io);
    }

    /** The tail of `write_records`: flush, summary line, flush, done. */
    method Conclude(flush: Io, last: Io)
      requires Reachable(View()) && w.place.Flushing?
      modifies this`w
      ensures Reachable(View()) && View() == Concluded(old(View()), flush, last)
      ensures w.finished && (w.writeFailed <==> old(w.writeFailed) || flush.Failed? || last.Failed?)
    {
      ConcludedLeads(View(), flush, last);
      LeadsReachable(TheWriter, View(), Concluded(View(), flush, last));
      if flush.Failed? {
        w := w.(writeFailed := true);
      }
      var summary := Summary(c.accepted, w.written, c.dropped, c.expired, w.unfinished, w.writeFailed);
      if last.Complete? {
        w := w.(file := w.file + [SummaryLine(summary)]);
      } else {
        w := w.(file := w.file + last.residue, writeFailed := true);
      }
      w := w.(place := Done, finished := true);
    }

    /** `write_records` for up to `turns` iterations; `sink(k)` is what the k-th write or
        flush does. A writer that finds nothing to do parks and takes another turn. */
    method WriteRecords(sink: nat -> Io, turns: nat)
      requires Valid()
      modifies this`c, this`closed, this`receiverOpen, this`queue, this`w
      ensures Valid() && enqueued == old(enqueued)
      ensures old(c.word) == CLOSED && turns > |old(queue)| ==> w.finished
      ensures old(w.writeFailed) ==> w.writeFailed
      ensures !old(w.writeFailed) && (forall k: nat :: sink(k).Complete?) ==> !w.writeFailed
    {
      ReachableIsSound(View(), 0);
      if w.place.Done? {
        return;
      }
      var k := 0;
      while k < turns
        invariant Reachable(View()) && w.place.Gate? && enqueued == old(enqueued)
        invariant old(c.word) == CLOSED ==> c.word == CLOSED && |queue| + k <= |old(queue)|
        invariant old(w.writeFailed) ==> w.writeFailed
        invariant !old(w.writeFailed) && (forall k: nat :: sink(k).Complete?) ==> !w.writeFailed
      {
        TurnTakes(View(), sink(k));
        WriterTurn(sink(k));
        if w.place.Flushing? {
          Conclude(sink(k), sink(k + 1));
          return;
        }
        k := k + 1;
      }
    }

    /** One atomic step of the writer, wherever it stands. */
    method TakeStep(io: Io)
      requires Reachable(View()) && !w.place.Done?
      modifies this`c, this`closed, this`receiverOpen, this`queue, this`w
      ensures Reachable(View()) && View() == WriterStep(old(View()), io)
    {
      WriterStepReachable(View(), io);
      if w.place.Sealing? {
        w, receiverOpen := w.(place := LoadingStarted), false;
      } else if w.place.Closing? {
        Close();
        w := w.(place := Gate);
      } else if w.place.Receiving? {
        w, queue := Receive(w, queue, handle), if queue != [] then queue[1..] else [];
      } else {
        w := LocalStep(c, w, io);
      }
    }

    /** The writer completes the iteration it is in. */
    method Resume(sink: nat -> Io)
      requires Reachable(View())
      modifies this`c, this`closed, this`receiverOpen, this`queue, this`w
      ensures Valid() && enqueued == old(enqueued) && |queue| <= |old(queue)|
      ensures old(c.word) == CLOSED ==> c.word == CLOSED
    {
      var k := 0;
      while !w.place.Gate? && !w.place.Done?
        invariant Reachable(View()) && enqueued == old(enqueued) && |queue| <= |old(queue)|
        invariant old(c.word) == CLOSED ==> c.word == CLOSED
        decreases TurnLeft(w.place)
      {
        ReachableIsSound(View(), 0);
        TurnEnds(View(), sink(k));
        TakeStep(sink(k));
        k := k + 1;
      }
    }

    /** `Diagnostics::shutdown`, called wherever the writer stands: closes admission and waits
        while the writer completes its iteration and takes `turns` more, as many as fit into
        the budget. `current` is what the sink does for the one, `sink` for the others. */
    method Shutdown(current: nat -> Io, sink: nat -> Io, turns: nat) returns (ok: bool)
      requires Reachable(View())
      modifies this`c, this`closed, this`receiverOpen, this`queue, this`w
      ensures Valid() && ok == ShutdownSucceeds(View())
      ensures ok ==> w.file == Lines(enqueued)
                            + [SummaryLine(Summary(|enqueued|, |enqueued|, c.dropped, c.expired, w.unfinished, false))]
      ensures ok ==> |enqueued| + c.dropped + c.expired + w.unfinished == c.admitted
      ensures AllIdle(producers) && turns > |old(queue)| ==> w.finished
    {
      Close();
      ReachableIsSound(View(), 0);
      NoSectionsMeansAllIdle(producers, 0);
      Resume(current);
      WriteRecords(sink, turns);
      ReachableIsSound(View(), 0);
      ok := w.finished && !w.writeFailed;
    }
  }
}
