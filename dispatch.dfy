/** Sending key events to the OS in timing-aware batches
    (`Keyboard.send_keyboard_events` in dragonfly/actions/keyboard.py). */
module Dispatch {
  import opened Typeables

  /** What `KeyboardInput(keycode, down)` hands on to `send_input_array`. */
  type KeyInput = (int, bool)

  /** The `(keycode, down)` part of each event, in order. */
  function Inputs(events: seq<Event>): (r: seq<KeyInput>)
    ensures |r| == |events|
    ensures forall i | 0 <= i < |events| :: r[i] == (events[i].keycode, events[i].down)
  {
    if events == [] then [] else [(events[0].keycode, events[0].down)] + Inputs(events[1..])
  }

  lemma InputsConcat(a: seq<Event>, b: seq<Event>)
    ensures Inputs(a + b) == Inputs(a) + Inputs(b)
  {
    assert forall i | 0 <= i < |a + b| :: Inputs(a + b)[i] == (Inputs(a) + Inputs(b))[i];
  }

  lemma AppendAssoc<T>(a: seq<T>, b: seq<T>, c: seq<T>)
    ensures a + b + c == a + (b + c)
  {
  }

  lemma AppendEmpty<T>(a: seq<T>)
    ensures a + [] == a
  {
  }

  function Flatten<T>(runs: seq<seq<T>>): seq<T>
  {
    if runs == [] then [] else runs[0] + Flatten(runs[1..])
  }

  /** A run that ends with an event whose timeout is nonzero: the loop flushes
      and sleeps right after it. */
  predicate Closes(run: seq<Event>)
  {
    run != [] && run[|run| - 1].timeout != 0
  }

  /** Reference definition of the batching: the events cut right after every
      event with a nonzero timeout; trailing zero-timeout events form a last,
      open run. */
  function Runs(events: seq<Event>): seq<seq<Event>>
    decreases |events|
  {
    if events == [] then []
    else
      var rest := Runs(events[1..]);
      if events[0].timeout != 0 || rest == [] then [[events[0]]] + rest
      else [[events[0]] + rest[0]] + rest[1..]
  }

  /** One `send_input_array` batch per run. */
  function InputBatches(runs: seq<seq<Event>>): (r: seq<seq<KeyInput>>)
    ensures |r| == |runs|
    ensures forall j | 0 <= j < |runs| :: r[j] == Inputs(runs[j])
  {
    if runs == [] then [] else [Inputs(runs[0])] + InputBatches(runs[1..])
  }

  function Batches(events: seq<Event>): seq<seq<KeyInput>>
  {
    InputBatches(Runs(events))
  }

  /** The nonzero timeouts of the events, in order. */
  function Sleeps(events: seq<Event>): seq<nat>
  {
    if events == [] then []
    else (if events[0].timeout != 0 then [events[0].timeout] else []) + Sleeps(events[1..])
  }

  lemma {:induction false} SleepsConcat(a: seq<Event>, b: seq<Event>)
    ensures Sleeps(a + b) == Sleeps(a) + Sleeps(b)
    decreases |a|
  {
    if a != [] {
      assert (a + b)[1..] == a[1..] + b;
      SleepsConcat(a[1..], b);
    } else {
      assert a + b == b;
    }
  }

  /** Where one more event goes: a new run after a closed one, else the end of the open run. */
  function AddEvent(runs: seq<seq<Event>>, e: Event): seq<seq<Event>>
  {
    if runs == [] || Closes(runs[|runs| - 1]) then runs + [[e]]
    else runs[..|runs| - 1] + [runs[|runs| - 1] + [e]]
  }

  lemma AddEventCons(r0: seq<Event>, runs: seq<seq<Event>>, e: Event)
    requires runs != []
    ensures AddEvent([r0] + runs, e) == [r0] + AddEvent(runs, e)
  {
    var all := [r0] + runs;
    assert all[|all| - 1] == runs[|runs| - 1];
    assert all[..|all| - 1] == [r0] + runs[..|runs| - 1];
  }

  /** Runs are never empty, and only the empty sequence has no runs. */
  lemma {:induction false} RunsNonEmpty(events: seq<Event>)
    ensures Runs(events) == [] <==> events == []
    ensures forall j | 0 <= j < |Runs(events)| :: Runs(events)[j] != []
    decreases |events|
  {
    if events != [] {
      RunsNonEmpty(events[1..]);
    }
  }

  /** Appending an event extends the runs the way the loop extends its buffer. */
  lemma {:induction false} RunsSnoc(events: seq<Event>, e: Event)
    ensures Runs(events + [e]) == AddEvent(Runs(events), e)
    decreases |events|
  {
    if events == [] {
      assert events + [e] == [e];
    } else {
      var x, rest := events[0], events[1..];
      assert (events + [e])[0] == x;
      assert (events + [e])[1..] == rest + [e];
      RunsSnoc(rest, e);
      RunsNonEmpty(rest);
      RunsNonEmpty(rest + [e]);
      var rs := Runs(rest);
      if x.timeout != 0 {
        if rs != [] {
          AddEventCons([x], rs, e);
        }
      } else if rs != [] {
        var r0 := rs[0];
        assert rs == [r0] + rs[1..];
        if rs[1..] == [] {
          assert rs == [r0];
          assert ([x] + r0)[|[x] + r0| - 1] == r0[|r0| - 1];
          if Closes(r0) {
            assert Runs(rest + [e]) == [r0, [e]];
          } else {
            assert Runs(rest + [e]) == [r0 + [e]];
            assert [x] + (r0 + [e]) == ([x] + r0) + [e];
          }
        } else {
          AddEventCons(r0, rs[1..], e);
          AddEventCons([x] + r0, rs[1..], e);
        }
      }
    }
  }

  /** The loop's view of `RunsSnoc`: closed runs already sent, and the open
      run still in the buffer. */
  lemma RunsStep(events: seq<Event>, e: Event, done: seq<seq<Event>>, pending: seq<Event>)
    requires Runs(events) == done + (if pending == [] then [] else [pending])
    requires pending == [] ==> done == [] || Closes(done[|done| - 1])
    requires pending != [] ==> !Closes(pending)
    ensures Runs(events + [e]) == done + [pending + [e]]
  {
    RunsSnoc(events, e);
    if pending == [] {
      assert Runs(events) == done;
      assert pending + [e] == [e];
    } else {
      var rs := done + [pending];
      assert rs[|rs| - 1] == pending;
      assert rs[..|rs| - 1] == done;
    }
  }

  lemma InputBatchesSnoc(runs: seq<seq<Event>>, run: seq<Event>)
    ensures InputBatches(runs + [run]) == InputBatches(runs) + [Inputs(run)]
  {
    var a, b := InputBatches(runs + [run]), InputBatches(runs) + [Inputs(run)];
    assert forall j | 0 <= j < |a| :: a[j] == b[j];
  }

  /** The runs concatenate back to the events. */
  lemma {:induction false} RunsFlatten(events: seq<Event>)
    ensures Flatten(Runs(events)) == events
    decreases |events|
  {
    if events != [] {
      RunsFlatten(events[1..]);
      var rs := Runs(events[1..]);
      if events[0].timeout == 0 && rs != [] {
        assert rs == [rs[0]] + rs[1..];
        assert Flatten(rs) == rs[0] + Flatten(rs[1..]);
      }
    }
  }

  /** Every run ends with a nonzero timeout except possibly the last, and no
      event inside a run but its last has one. */
  lemma {:induction false} RunsShape(events: seq<Event>)
    ensures var rs := Runs(events);
      (forall j | 0 <= j < |rs| :: rs[j] != [])
      && (forall j | 0 <= j < |rs| - 1 :: Closes(rs[j]))
      && (forall j, k | 0 <= j < |rs| && 0 <= k < |rs[j]| - 1 :: rs[j][k].timeout == 0)
    decreases |events|
  {
    RunsNonEmpty(events);
    if events != [] {
      RunsShape(events[1..]);
      RunsNonEmpty(events[1..]);
      var x, rs, rest := events[0], Runs(events), Runs(events[1..]);
      if x.timeout != 0 || rest == [] {
        assert rs == [[x]] + rest;
        assert forall j | 1 <= j < |rs| :: rs[j] == rest[j - 1];
      } else {
        var r0 := rest[0];
        assert rs == [[x] + r0] + rest[1..];
        assert forall j | 1 <= j < |rs| :: rs[j] == rest[j];
        assert rs[0][|rs[0]| - 1] == r0[|r0| - 1];
        assert forall k | 1 <= k < |rs[0]| :: rs[0][k] == r0[k - 1];
      }
    }
  }

  lemma {:induction false} FlattenInputBatches(runs: seq<seq<Event>>)
    ensures Flatten(InputBatches(runs)) == Inputs(Flatten(runs))
    decreases |runs|
  {
    if runs != [] {
      FlattenInputBatches(runs[1..]);
      assert InputBatches(runs)[1..] == InputBatches(runs[1..]);
      InputsConcat(runs[0], Flatten(runs[1..]));
    }
  }

  /** Concatenating the batches gives the events' `(keycode, down)` pairs, in
      order, and no batch is empty. */
  lemma BatchesCoverEvents(events: seq<Event>)
    ensures Flatten(Batches(events)) == Inputs(events)
    ensures forall j | 0 <= j < |Batches(events)| :: Batches(events)[j] != []
  {
    RunsFlatten(events);
    FlattenInputBatches(Runs(events));
    RunsNonEmpty(events);
  }

  /** The sleeps that follow each run: one after a run that closes, with its
      last timeout, none after an open run. */
  function RunSleeps(runs: seq<seq<Event>>): seq<nat>
  {
    if runs == [] then []
    else (if Closes(runs[0]) then [runs[0][|runs[0]| - 1].timeout] else []) + RunSleeps(runs[1..])
  }

  /** There is exactly one sleep per batch that ends with a nonzero timeout, and
      none after a trailing batch of zero-timeout events: no double sleep. */
  lemma {:induction false} SleepsFollowRuns(events: seq<Event>)
    ensures Sleeps(events) == RunSleeps(Runs(events))
    decreases |events|
  {
    if events != [] {
      SleepsFollowRuns(events[1..]);
      RunsNonEmpty(events[1..]);
      var x, rs := events[0], Runs(events[1..]);
      if x.timeout != 0 {
        RunSleepsCons([x], rs);
      } else if rs != [] {
        var r0 := rs[0];
        assert rs == [r0] + rs[1..];
        RunSleepsCons(r0, rs[1..]);
        RunSleepsCons([x] + r0, rs[1..]);
        assert ([x] + r0)[|[x] + r0| - 1] == r0[|r0| - 1];
      }
    }
  }

  lemma RunSleepsCons(r0: seq<Event>, runs: seq<seq<Event>>)
    ensures RunSleeps([r0] + runs)
            == (if Closes(r0) then [r0[|r0| - 1].timeout] else []) + RunSleeps(runs)
  {
    assert ([r0] + runs)[1..] == runs;
  }

  lemma {:induction false} RunSleepsSnoc(runs: seq<seq<Event>>, run: seq<Event>)
    ensures RunSleeps(runs + [run])
            == RunSleeps(runs) + (if Closes(run) then [run[|run| - 1].timeout] else [])
    decreases |runs|
  {
    if runs == [] {
      assert runs + [run] == [run];
    } else {
      assert (runs + [run])[1..] == runs[1..] + [run];
      RunSleepsSnoc(runs[1..], run);
    }
  }

  predicate AllZero(events: seq<Event>)
  {
    forall i | 0 <= i < |events| :: events[i].timeout == 0
  }

  lemma {:induction false} SleepsAllZero(events: seq<Event>)
    requires AllZero(events)
    ensures Sleeps(events) == []
    decreases |events|
  {
    if events != [] {
      SleepsAllZero(events[1..]);
    }
  }

  /** Events without timeouts up to one with a timeout form a single run. */
  lemma {:induction false} RunsCut(zeros: seq<Event>, x: Event, rest: seq<Event>)
    requires AllZero(zeros) && x.timeout != 0
    ensures Runs(zeros + [x] + rest) == [zeros + [x]] + Runs(rest)
    decreases |zeros|
  {
    var all := zeros + [x] + rest;
    if zeros == [] {
      assert all == [x] + rest;
      assert all[1..] == rest;
    } else {
      assert all[0] == zeros[0];
      assert all[1..] == zeros[1..] + [x] + rest;
      RunsCut(zeros[1..], x, rest);
      assert [zeros[0]] + (zeros[1..] + [x]) == zeros + [x];
    }
  }

  /** A nonempty sequence of events without timeouts is a single run. */
  lemma {:induction false} RunsAllZero(zeros: seq<Event>)
    requires AllZero(zeros) && zeros != []
    ensures Runs(zeros) == [zeros]
    decreases |zeros|
  {
    if |zeros| > 1 {
      assert AllZero(zeros[1..]) by {
        assert forall i | 0 <= i < |zeros| - 1 :: zeros[1..][i] == zeros[i + 1];
      }
      RunsAllZero(zeros[1..]);
      assert [zeros[0]] + zeros[1..] == zeros;
    } else {
      assert zeros[1..] == [] && zeros == [zeros[0]];
    }
  }

  /** Dispatching one keystroke: with no hold time it is a single batch and no
      sleep; with a hold time the modifier presses, the key press and the key
      release go as one batch, then the sleep, then the modifier releases as a
      second batch (if there are modifiers). */
  lemma KeystrokeBatches(t: Typeable, timeout: nat)
    ensures timeout == 0 ==>
      Batches(Keystroke(t, timeout)) == [Inputs(Keystroke(t, timeout))]
      && Sleeps(Keystroke(t, timeout)) == []
    ensures timeout != 0 ==>
      var head := Presses(t.modifiers) + [Event(t.code, true, 0), Event(t.code, false, timeout)];
      var tail := Releases(Reverse(t.modifiers));
      Batches(Keystroke(t, timeout))
        == [Inputs(head)] + (if t.modifiers == [] then [] else [Inputs(tail)])
      && Sleeps(Keystroke(t, timeout)) == [timeout]
  {
    var e := Keystroke(t, timeout);
    var zeros := Presses(t.modifiers) + [Event(t.code, true, 0)];
    var x := Event(t.code, false, timeout);
    var tail := Releases(Reverse(t.modifiers));
    assert e == zeros + [x] + tail;
    assert AllZero(tail);
    if timeout == 0 {
      assert AllZero(e);
      RunsAllZero(e);
      SleepsAllZero(e);
    } else {
      assert zeros + [x] == Presses(t.modifiers) + [Event(t.code, true, 0), Event(t.code, false, timeout)];
      RunsCut(zeros, x, tail);
      if t.modifiers != [] {
        RunsAllZero(tail);
      }
      SleepsConcat(zeros, [x]);
      SleepsConcat(zeros + [x], tail);
      SleepsAllZero(zeros);
      SleepsAllZero(tail);
    }
  }

  /** A timed press between two untimed ones: two batches and one sleep. */
  lemma DispatchExample(a: int, b: int, c: int, d: nat)
    requires d != 0
    ensures var events := [Event(a, true, 0), Event(b, true, d), Event(c, true, 0)];
      Batches(events) == [[(a, true), (b, true)], [(c, true)]] && Sleeps(events) == [d]
  {
    var events := [Event(a, true, 0), Event(b, true, d), Event(c, true, 0)];
    assert events == [Event(a, true, 0)] + [Event(b, true, d)] + [Event(c, true, 0)];
    RunsCut([Event(a, true, 0)], Event(b, true, d), [Event(c, true, 0)]);
    RunsAllZero([Event(c, true, 0)]);
    assert [Event(a, true, 0)] + [Event(b, true, d)] == [Event(a, true, 0), Event(b, true, d)];
    assert Runs(events) == [[Event(a, true, 0), Event(b, true, d)], [Event(c, true, 0)]];
    assert Inputs([Event(a, true, 0), Event(b, true, d)]) == [(a, true), (b, true)];
    assert Inputs([Event(c, true, 0)]) == [(c, true)];
    SleepsConcat([Event(a, true, 0)] + [Event(b, true, d)], [Event(c, true, 0)]);
    SleepsConcat([Event(a, true, 0)], [Event(b, true, d)]);
  }

  /** The state of `send_keyboard_events` after `i` events: the closed runs
      `done` have been sent, the open run `pending` is buffered in `items`,
      and `timeout` (the last event's) is zero while anything is buffered. */
  ghost predicate BatchProgress(events: seq<Event>, i: nat, done: seq<seq<Event>>,
                                pending: seq<Event>, items: seq<KeyInput>, timeout: nat)
  {
    i <= |events|
    && Runs(events[..i]) == done + (if pending == [] then [] else [pending])
    && (pending == [] ==> done == [] || Closes(done[|done| - 1]))
    && (pending != [] ==> !Closes(pending) && timeout == 0)
    && items == Inputs(pending)
  }

  /** `BatchProgress`, together with the logs: every closed run has been sent
      as one batch and followed by its sleep, on top of what the logs held before. */
  ghost predicate LoggedProgress(events: seq<Event>, i: nat, done: seq<seq<Event>>,
                                 pending: seq<Event>, items: seq<KeyInput>, timeout: nat,
                                 sent0: seq<seq<KeyInput>>, sent: seq<seq<KeyInput>>,
                                 slept0: seq<nat>, slept: seq<nat>)
  {
    BatchProgress(events, i, done, pending, items, timeout)
    && sent == sent0 + InputBatches(done)
    && slept == slept0 + RunSleeps(done)
  }

  /** One iteration of the loop keeps `LoggedProgress`: the event is buffered,
      and after a nonzero timeout the buffer is sent and the timeout slept. */
  lemma LoggedProgressStep(events: seq<Event>, i: nat, done: seq<seq<Event>>,
                           pending: seq<Event>, items: seq<KeyInput>, timeout: nat,
                           sent0: seq<seq<KeyInput>>, sent: seq<seq<KeyInput>>,
                           slept0: seq<nat>, slept: seq<nat>)
    requires LoggedProgress(events, i, done, pending, items, timeout, sent0, sent, slept0, slept)
    requires i < |events|
    ensures var e := events[i];
      var pending', items' := pending + [e], items + [(e.keycode, e.down)];
      if e.timeout != 0 then
        LoggedProgress(events, i + 1, done + [pending'], [], [], e.timeout,
                       sent0, sent + [items'], slept0, slept + [e.timeout])
      else
        LoggedProgress(events, i + 1, done, pending', items', e.timeout,
                       sent0, sent, slept0, slept)
  {
    var e := events[i];
    BatchProgressStep(events, i, done, pending, items, timeout);
    AppendAssoc(sent0, InputBatches(done), [items + [(e.keycode, e.down)]]);
    AppendAssoc(slept0, RunSleeps(done), [e.timeout]);
  }

  /** One iteration of the loop keeps `BatchProgress`, and closing the run adds
      one batch and one sleep. */
  lemma BatchProgressStep(events: seq<Event>, i: nat, done: seq<seq<Event>>,
                          pending: seq<Event>, items: seq<KeyInput>, timeout: nat)
    requires BatchProgress(events, i, done, pending, items, timeout) && i < |events|
    ensures var e := events[i];
      var pending', items' := pending + [e], items + [(e.keycode, e.down)];
      if e.timeout != 0 then
        BatchProgress(events, i + 1, done + [pending'], [], [], e.timeout)
        && InputBatches(done + [pending']) == InputBatches(done) + [items']
        && RunSleeps(done + [pending']) == RunSleeps(done) + [e.timeout]
      else
        BatchProgress(events, i + 1, done, pending', items', e.timeout)
  {
    var e := events[i];
    assert events[..i + 1] == events[..i] + [e];
    RunsStep(events[..i], e, done, pending);
    InputsConcat(pending, [e]);
    assert Inputs([e]) == [(e.keycode, e.down)];
    RunSleepsSnoc(done, pending + [e]);
    InputBatchesSnoc(done, pending + [e]);
  }

  /** After the last event, the closed runs plus the buffered one are all the
      runs, and the buffered one, if any, adds no sleep. */
  lemma BatchProgressEnd(events: seq<Event>, done: seq<seq<Event>>,
                         pending: seq<Event>, items: seq<KeyInput>, timeout: nat)
    requires BatchProgress(events, |events|, done, pending, items, timeout)
    ensures Batches(events) == InputBatches(done) + (if items != [] then [items] else [])
    ensures Sleeps(events) == RunSleeps(done)
    ensures items != [] ==> timeout == 0
    ensures events == [] ==> done == [] && items == []
  {
    assert events[..|events|] == events;
    SleepsFollowRuns(events);
    if pending == [] {
      assert Runs(events) == done;
      assert |items| == 0;
    } else {
      assert Runs(events) == done + [pending];
      InputBatchesSnoc(done, pending);
      RunSleepsSnoc(done, pending);
    }
  }

  /** After the last event, the logs plus the buffered batch, if any, are
      exactly the reference batches and sleeps. */
  lemma LoggedProgressEnd(events: seq<Event>, done: seq<seq<Event>>,
                          pending: seq<Event>, items: seq<KeyInput>, timeout: nat,
                          sent0: seq<seq<KeyInput>>, sent: seq<seq<KeyInput>>,
                          slept0: seq<nat>, slept: seq<nat>)
    requires LoggedProgress(events, |events|, done, pending, items, timeout,
                            sent0, sent, slept0, slept)
    ensures items != [] ==> timeout == 0
    ensures items != [] ==> sent + [items] == sent0 + Batches(events)
    ensures items == [] ==> sent == sent0 + Batches(events)
    ensures slept == slept0 + Sleeps(events)
    ensures events == [] ==> sent == sent0 && slept == slept0 && items == []
  {
    BatchProgressEnd(events, done, pending, items, timeout);
    var b := InputBatches(done);
    if items != [] {
      AppendAssoc(sent0, b, [items]);
    } else {
      AppendEmpty(b);
    }
    if events == [] {
      AppendEmpty(sent0);
      AppendEmpty(slept0);
    }
  }

  /** The observable effect of the OS calls: each `send_input_array` call
      appends its batch to `sent`, each `time.sleep` call its duration to
      `slept`. */
  class Keyboard {
    var sent: seq<seq<KeyInput>>
    var slept: seq<nat>

    constructor ()
      ensures sent == [] && slept == []
    {
      sent, slept := [], [];
    }

    /** `send_keyboard_events`: buffer the inputs; after an event with a
        nonzero timeout send the buffer, empty it and sleep; after the loop
        send what is left, then sleep for the last timeout if it is nonzero. */
    method SendKeyboardEvents(events: seq<Event>)
      modifies this
      ensures sent == old(sent) + Batches(events)
      ensures slept == old(slept) + Sleeps(events)
    {
      var items: seq<KeyInput> := [];
      var timeout: nat := 0;
      ghost var done: seq<seq<Event>> := [];
      ghost var pending: seq<Event> := [];
      for i := 0 to |events|
        invariant LoggedProgress(events, i, done, pending, items, timeout,
                                 old(sent), sent, old(slept), slept)
      {
        var e := events[i];
        LoggedProgressStep(events, i, done, pending, items, timeout,
                           old(sent), sent, old(slept), slept);
        items := items + [(e.keycode, e.down)];
        timeout := e.timeout;
        pending := pending + [e];
        if timeout != 0 {
          sent := sent + [items];
          items := [];
          slept := slept + [timeout];
          done := done + [pending];
          pending := [];
        }
      }
      LoggedProgressEnd(events, done, pending, items, timeout,
                        old(sent), sent, old(slept), slept);
      if items != [] {
        sent := sent + [items];
        AppendEmpty(slept);
        slept := slept + if timeout != 0 then [timeout] else [];
      }
    }
  }
}
