/** The command loop both `main` functions end in: poll standard input with
    a 5000 ms timeout; on a timeout or an error poll again; otherwise read one
    chunk with `fgets`; at end of input return 1; on the command token run one
    measurement cycle; on anything else exit with a diagnostic. The two front
    ends differ only in the token and in the cycle, which are parameters here.
    The poll results form a finite window: when it is used up the trace ends
    with the process still running. */
module CommandLoop {
  import opened CTypes
  import opened LibC
  import opened Events

  const POLL_TIMEOUT_MS := 5000
  const MAX_READ_BUFFER_LEN := 32

  /** What `main` returns when `fgets` finds no more input. */
  const EOF_STATUS := 1

  /** What the loop does with input that is ready: the events from the
      `fgets` on, the input left unread, and whether the loop goes on. */
  datatype Reply = Reply(events: seq<Event>, rest: seq<char>, goOn: bool)

  /** The branch of the loop taken when a poll reports input: read one chunk;
      at end of input return 1; on the token run the `k`-th cycle, after which
      the loop goes on unless the cycle ended the process; on anything else
      end the process with a diagnostic. */
  function Respond(input: seq<char>, token: seq<char>, cycle: nat -> seq<Event>, k: nat): (r: Reply)
    ensures |r.events| > 0 && r.events[0] == Gets(Fgets(input, MAX_READ_BUFFER_LEN))
    ensures r.goOn ==> |r.rest| < |input|
    ensures !r.goOn ==> Terminated(r.events)
  {
    var line := Fgets(input, MAX_READ_BUFFER_LEN);
    match line
    case None => Reply([Gets(line), Exit(EOF_STATUS)], input, false)
    case Some(chunk) =>
      if CString(chunk) == token then
        var m := cycle(k);
        Reply([Gets(line)] + m, input[|chunk|..], !Terminated(m))
      else Reply([Gets(line)] + Fatal(InvalidCommand(chunk)), input, false)
  }

  /** The events of the loop, given the poll results still to come, the input
      not yet read, the command token and the cycle run for the `k`-th and
      later measurements. */
  function Loop(polls: seq<int>, input: seq<char>, token: seq<char>, cycle: nat -> seq<Event>, k: nat)
    : seq<Event>
    decreases |polls|
  {
    if polls == [] then []
    else if polls[0] <= 0 then [Poll(POLL_TIMEOUT_MS, polls[0])] + Loop(polls[1..], input, token, cycle, k)
    else
      var r := Respond(input, token, cycle, k);
      [Poll(POLL_TIMEOUT_MS, polls[0])] + r.events
      + if r.goOn then Loop(polls[1..], r.rest, token, cycle, k + 1) else []
  }

  /** One turn of the loop, from the `i`-th poll on. */
  lemma LoopStep(polls: seq<int>, i: nat, input: seq<char>, token: seq<char>, cycle: nat -> seq<Event>, k: nat)
    requires i < |polls|
    ensures var r := Respond(input, token, cycle, k);
            Loop(polls[i..], input, token, cycle, k)
            == [Poll(POLL_TIMEOUT_MS, polls[i])]
               + if polls[i] <= 0 then Loop(polls[i + 1..], input, token, cycle, k)
                 else r.events + if r.goOn then Loop(polls[i + 1..], r.rest, token, cycle, k + 1) else []
  {
    assert polls[i..][1..] == polls[i + 1..];
  }

  /** A ready poll that reads the token runs the `k`-th cycle and, when the
      cycle does not end the process, goes on over the rest of the input. */
  lemma LoopAccepting(
    polls: seq<int>, input: seq<char>, chunk: seq<char>, token: seq<char>, cycle: nat -> seq<Event>, k: nat)
    requires polls != [] && polls[0] > 0
    requires Fgets(input, MAX_READ_BUFFER_LEN) == Some(chunk) && CString(chunk) == token
    requires !Terminated(cycle(k))
    ensures Loop(polls, input, token, cycle, k)
            == [Poll(POLL_TIMEOUT_MS, polls[0]), Gets(Some(chunk))] + cycle(k)
               + Loop(polls[1..], input[|chunk|..], token, cycle, k + 1)
  {
    var head := [Poll(POLL_TIMEOUT_MS, polls[0])];
    var read := [Gets(Some(chunk))];
    assert Respond(input, token, cycle, k) == Reply(read + cycle(k), input[|chunk|..], true);
    ConcatAssoc(head, read, cycle(k));
    assert head + read == [Poll(POLL_TIMEOUT_MS, polls[0]), Gets(Some(chunk))];
  }

  /** A ready poll that reads the token, whose cycle ends the process, ends
      the loop with that cycle. */
  lemma LoopStopping(
    polls: seq<int>, input: seq<char>, chunk: seq<char>, token: seq<char>, cycle: nat -> seq<Event>, k: nat)
    requires polls != [] && polls[0] > 0
    requires Fgets(input, MAX_READ_BUFFER_LEN) == Some(chunk) && CString(chunk) == token
    requires Terminated(cycle(k))
    ensures Loop(polls, input, token, cycle, k) == [Poll(POLL_TIMEOUT_MS, polls[0]), Gets(Some(chunk))] + cycle(k)
  {
    var head := [Poll(POLL_TIMEOUT_MS, polls[0])];
    var read := [Gets(Some(chunk))];
    assert Respond(input, token, cycle, k) == Reply(read + cycle(k), input[|chunk|..], false);
    ConcatAssoc(head, read, cycle(k));
    assert head + read == [Poll(POLL_TIMEOUT_MS, polls[0]), Gets(Some(chunk))];
  }

  /** A ready poll that reads anything but the token ends the process with
      a diagnostic. */
  lemma LoopRejecting(
    polls: seq<int>, input: seq<char>, chunk: seq<char>, token: seq<char>, cycle: nat -> seq<Event>, k: nat)
    requires polls != [] && polls[0] > 0
    requires Fgets(input, MAX_READ_BUFFER_LEN) == Some(chunk) && CString(chunk) != token
    ensures Loop(polls, input, token, cycle, k)
            == [Poll(POLL_TIMEOUT_MS, polls[0]), Gets(Some(chunk))] + Fatal(InvalidCommand(chunk))
  {
    var head := [Poll(POLL_TIMEOUT_MS, polls[0])];
    var read := [Gets(Some(chunk))];
    assert Respond(input, token, cycle, k) == Reply(read + Fatal(InvalidCommand(chunk)), input, false);
    ConcatAssoc(head, read, Fatal(InvalidCommand(chunk)));
    assert head + read == [Poll(POLL_TIMEOUT_MS, polls[0]), Gets(Some(chunk))];
  }

  /** The chunk read is the command token, as `strcmp` sees it. */
  predicate Accepts(e: Event, token: seq<char>)
  {
    e.Gets? && e.line.Some? && CString(e.line.value) == token
  }

  /** The event at `j` is allowed by the events just before it: input is read
      only after a poll that reported it ready; a measurement is triggered only
      right after the sensor settings (at start-up) or right after the command
      token was read; the sample is fetched only right after a trigger and the
      wait `wait`; a reading is printed only right after a fetch. */
  ghost predicate Justified(t: seq<Event>, j: int, token: seq<char>, wait: Event)
    requires 0 <= j < |t|
  {
    match t[j]
    case Gets(_) => j >= 1 && t[j - 1].Poll? && t[j - 1].result > 0
    case Trigger => j >= 1 && (t[j - 1] == SensorSettings || Accepts(t[j - 1], token))
    case Fetch => j >= 2 && t[j - 2] == Trigger && t[j - 1] == wait
    case Output(_) => j >= 1 && t[j - 1] == Fetch
    case _ => true
  }

  ghost predicate WellOrdered(t: seq<Event>, token: seq<char>, wait: Event)
  {
    forall j :: 0 <= j < |t| ==> Justified(t, j, token, wait)
  }

  /** What follows the chunk read at `j`: the end of input ends the process
      with status 1, the token starts a measurement, anything else ends the
      process with a diagnostic. */
  ghost predicate Reacts(t: seq<Event>, j: int, token: seq<char>)
    requires 0 <= j < |t| && t[j].Gets?
  {
    match t[j].line
    case None => t[j + 1..] == [Exit(EOF_STATUS)]
    case Some(chunk) =>
      if CString(chunk) == token then j + 1 < |t| && t[j + 1] == Trigger
      else t[j + 1..] == Fatal(InvalidCommand(chunk))
  }

  ghost predicate Dispatched(t: seq<Event>, token: seq<char>)
  {
    forall j :: 0 <= j < |t| && t[j].Gets? ==> Reacts(t, j, token)
  }

  /** A measurement cycle starts with its trigger, reads no input, triggers
      nothing else, is well ordered from its second event on, and ends the
      process only with its last event. */
  ghost predicate CycleShape(m: seq<Event>, token: seq<char>, wait: Event)
  {
    && |m| > 0 && m[0] == Trigger
    && (forall j :: 1 <= j < |m| ==> m[j] != Trigger && !m[j].Gets? && !m[j].Poll?)
    && (forall j :: 1 <= j < |m| ==> Justified(m, j, token, wait))
    && ExitOnlyAtEnd(m)
  }

  ghost predicate WellShaped(cycle: nat -> seq<Event>, token: seq<char>, wait: Event)
  {
    forall i: nat :: CycleShape(cycle(i), token, wait)
  }

  lemma QuietWellOrdered(t: seq<Event>, token: seq<char>, wait: Event)
    requires QuietTrace(t)
    ensures WellOrdered(t, token, wait)
  {
    forall j | 0 <= j < |t|
      ensures Justified(t, j, token, wait)
    {
      assert Quiet(t[j]);
    }
  }

  lemma JustifiedBefore(a: seq<Event>, b: seq<Event>, j: int, token: seq<char>, wait: Event)
    requires 0 <= j < |a| && Justified(a, j, token, wait)
    ensures Justified(a + b, j, token, wait)
  {
    var t := a + b;
    assert t[j] == a[j];
    if j >= 1 { assert t[j - 1] == a[j - 1]; }
    if j >= 2 { assert t[j - 2] == a[j - 2]; }
  }

  lemma JustifiedAfter(a: seq<Event>, b: seq<Event>, j: int, token: seq<char>, wait: Event)
    requires 0 <= j < |b| && Justified(b, j, token, wait)
    ensures Justified(a + b, |a| + j, token, wait)
  {
    var t := a + b;
    assert t[|a| + j] == b[j];
    if j >= 1 { assert t[|a| + j - 1] == b[j - 1]; }
    if j >= 2 { assert t[|a| + j - 2] == b[j - 2]; }
  }

  lemma WellOrderedConcat(a: seq<Event>, b: seq<Event>, token: seq<char>, wait: Event)
    requires WellOrdered(a, token, wait) && WellOrdered(b, token, wait)
    ensures WellOrdered(a + b, token, wait)
  {
    forall j | 0 <= j < |a + b|
      ensures Justified(a + b, j, token, wait)
    {
      if j < |a| {
        JustifiedBefore(a, b, j, token, wait);
      } else {
        JustifiedAfter(a, b, j - |a|, token, wait);
      }
    }
  }


  /** A ready poll, the token read, and a cycle form a well-ordered block. */
  lemma DispatchWellOrdered(status: int, chunk: seq<char>, m: seq<Event>, token: seq<char>, wait: Event)
    requires status > 0 && CString(chunk) == token && CycleShape(m, token, wait)
    ensures WellOrdered([Poll(POLL_TIMEOUT_MS, status), Gets(Some(chunk))] + m, token, wait)
  {
    var head := [Poll(POLL_TIMEOUT_MS, status), Gets(Some(chunk))];
    var t := head + m;
    forall j | 0 <= j < |t|
      ensures Justified(t, j, token, wait)
    {
      if j == 2 {
        assert t[2] == m[0] && t[1] == head[1];
      } else if j > 2 {
        JustifiedAfter(head, m, j - 2, token, wait);
      }
    }
  }

  /** The reply to a ready poll, case by case: the chunk read, then exit
      status 1 at the end of input, the cycle on the token, and otherwise
      the diagnostic for the chunk. */
  lemma RespondCases(input: seq<char>, token: seq<char>, cycle: nat -> seq<Event>, k: nat)
    ensures var line := Fgets(input, MAX_READ_BUFFER_LEN);
            var r := Respond(input, token, cycle, k);
            && r.events == [Gets(line)] + r.events[1..]
            && (line.None? ==> r.events[1..] == [Exit(EOF_STATUS)] && !r.goOn)
            && (line.Some? && CString(line.value) == token ==>
                  r.events[1..] == cycle(k) && r.goOn == !Terminated(cycle(k)) && r.rest == input[|line.value|..])
            && (line.Some? && CString(line.value) != token ==>
                  r.events[1..] == Fatal(InvalidCommand(line.value)) && !r.goOn)
  {
    var r := Respond(input, token, cycle, k);
    assert r.events == [r.events[0]] + r.events[1..];
  }

  /** A ready poll, the chunk read and what follows it are well ordered. */
  lemma BlockWellOrdered(status: int, line: Option<seq<char>>, after: seq<Event>, token: seq<char>, wait: Event)
    requires status > 0
    requires if line.Some? && CString(line.value) == token then CycleShape(after, token, wait) else QuietTrace(after)
    ensures WellOrdered([Poll(POLL_TIMEOUT_MS, status), Gets(line)] + after, token, wait)
  {
    var head := [Poll(POLL_TIMEOUT_MS, status), Gets(line)];
    if line.Some? && CString(line.value) == token {
      DispatchWellOrdered(status, line.value, after, token, wait);
    } else {
      assert WellOrdered(head, token, wait) by {
        assert Justified(head, 1, token, wait);
      }
      QuietWellOrdered(after, token, wait);
      WellOrderedConcat(head, after, token, wait);
    }
  }

  /** A ready poll and the reply to it are well ordered. */
  lemma RespondWellOrdered(
    status: int, input: seq<char>, token: seq<char>, cycle: nat -> seq<Event>, k: nat, wait: Event)
    requires status > 0 && WellShaped(cycle, token, wait)
    ensures WellOrdered([Poll(POLL_TIMEOUT_MS, status)] + Respond(input, token, cycle, k).events, token, wait)
  {
    var line := Fgets(input, MAX_READ_BUFFER_LEN);
    var r := Respond(input, token, cycle, k);
    RespondCases(input, token, cycle, k);
    var after := r.events[1..];
    ConcatAssoc([Poll(POLL_TIMEOUT_MS, status)], [Gets(line)], after);
    assert [Poll(POLL_TIMEOUT_MS, status)] + [Gets(line)] == [Poll(POLL_TIMEOUT_MS, status), Gets(line)];
    if line.Some? && CString(line.value) == token {
      assert CycleShape(cycle(k), token, wait);
    }
    BlockWellOrdered(status, line, after, token, wait);
  }

  /** A ready poll and the reply to it end the process only with their last
      event, and the loop goes on only when they have not ended it. */
  lemma RespondExitOnlyAtEnd(
    status: int, input: seq<char>, token: seq<char>, cycle: nat -> seq<Event>, k: nat, wait: Event)
    requires WellShaped(cycle, token, wait)
    ensures ExitOnlyAtEnd([Poll(POLL_TIMEOUT_MS, status)] + Respond(input, token, cycle, k).events)
    ensures Respond(input, token, cycle, k).goOn ==> !Terminated(Respond(input, token, cycle, k).events)
  {
    var line := Fgets(input, MAX_READ_BUFFER_LEN);
    var r := Respond(input, token, cycle, k);
    RespondCases(input, token, cycle, k);
    var after := r.events[1..];
    var head := [Poll(POLL_TIMEOUT_MS, status), Gets(line)];
    ConcatAssoc([Poll(POLL_TIMEOUT_MS, status)], [Gets(line)], after);
    assert [Poll(POLL_TIMEOUT_MS, status)] + [Gets(line)] == head;
    if line.Some? && CString(line.value) == token {
      assert CycleShape(cycle(k), token, wait);
      assert r.events[|r.events| - 1] == after[|after| - 1];
    }
    ExitOnlyAtEndConcat(head, after);
  }

  lemma {:induction false} LoopWellOrdered(
    polls: seq<int>, input: seq<char>, token: seq<char>, cycle: nat -> seq<Event>, k: nat, wait: Event)
    requires WellShaped(cycle, token, wait)
    ensures WellOrdered(Loop(polls, input, token, cycle, k), token, wait)
    decreases |polls|
  {
    if polls == [] {
    } else if polls[0] <= 0 {
      LoopWellOrdered(polls[1..], input, token, cycle, k, wait);
      WellOrderedConcat([Poll(POLL_TIMEOUT_MS, polls[0])], Loop(polls[1..], input, token, cycle, k), token, wait);
    } else {
      var r := Respond(input, token, cycle, k);
      var block := [Poll(POLL_TIMEOUT_MS, polls[0])] + r.events;
      RespondWellOrdered(polls[0], input, token, cycle, k, wait);
      if r.goOn {
        LoopWellOrdered(polls[1..], r.rest, token, cycle, k + 1, wait);
        WellOrderedConcat(block, Loop(polls[1..], r.rest, token, cycle, k + 1), token, wait);
      } else {
        assert Loop(polls, input, token, cycle, k) == block;
      }
    }
  }

  lemma {:induction false} LoopExitOnlyAtEnd(
    polls: seq<int>, input: seq<char>, token: seq<char>, cycle: nat -> seq<Event>, k: nat, wait: Event)
    requires WellShaped(cycle, token, wait)
    ensures ExitOnlyAtEnd(Loop(polls, input, token, cycle, k))
    decreases |polls|
  {
    if polls == [] {
    } else if polls[0] <= 0 {
      LoopExitOnlyAtEnd(polls[1..], input, token, cycle, k, wait);
      ExitOnlyAtEndConcat([Poll(POLL_TIMEOUT_MS, polls[0])], Loop(polls[1..], input, token, cycle, k));
    } else {
      var r := Respond(input, token, cycle, k);
      var block := [Poll(POLL_TIMEOUT_MS, polls[0])] + r.events;
      RespondExitOnlyAtEnd(polls[0], input, token, cycle, k, wait);
      if r.goOn {
        LoopExitOnlyAtEnd(polls[1..], r.rest, token, cycle, k + 1, wait);
        assert block[|block| - 1] == r.events[|r.events| - 1];
        ExitOnlyAtEndConcat(block, Loop(polls[1..], r.rest, token, cycle, k + 1));
      } else {
        assert Loop(polls, input, token, cycle, k) == block;
      }
    }
  }

  lemma ReactsAfter(a: seq<Event>, b: seq<Event>, j: int, token: seq<char>)
    requires 0 <= j < |b| && b[j].Gets? && Reacts(b, j, token)
    ensures (a + b)[|a| + j] == b[j] && Reacts(a + b, |a| + j, token)
  {
    var t := a + b;
    assert t[|a| + j] == b[j];
    assert t[|a| + j + 1..] == b[j + 1..];
  }

  /** No input is read. */
  ghost predicate ReadsNothing(t: seq<Event>)
  {
    forall j :: 0 <= j < |t| ==> !t[j].Gets?
  }

  /** Events before the first read cannot spoil the dispatch of later reads. */
  lemma DispatchedAfter(a: seq<Event>, b: seq<Event>, token: seq<char>)
    requires ReadsNothing(a)
    requires Dispatched(b, token)
    ensures Dispatched(a + b, token)
  {
    forall j | 0 <= j < |a + b| && (a + b)[j].Gets?
      ensures Reacts(a + b, j, token)
    {
      if j < |a| {
        assert false;
      } else {
        ReactsAfter(a, b, j - |a|, token);
      }
    }
  }

  /** The chunk read after a ready poll is answered as `Reacts` says,
      whatever follows the block. */
  lemma BlockDispatched(
    status: int, line: Option<seq<char>>, after: seq<Event>, tail: seq<Event>, token: seq<char>, wait: Event)
    requires line.None? ==> after == [Exit(EOF_STATUS)] && tail == []
    requires line.Some? && CString(line.value) == token ==> CycleShape(after, token, wait)
    requires line.Some? && CString(line.value) != token ==> after == Fatal(InvalidCommand(line.value)) && tail == []
    ensures var block := [Poll(POLL_TIMEOUT_MS, status), Gets(line)] + after;
            forall j :: 0 <= j < |block| && (block + tail)[j].Gets? ==> Reacts(block + tail, j, token)
  {
    var block := [Poll(POLL_TIMEOUT_MS, status), Gets(line)] + after;
    var t := block + tail;
    forall j | 0 <= j < |block| && t[j].Gets?
      ensures Reacts(t, j, token)
    {
      if j == 0 {
        assert false;
      } else if j == 1 {
        assert t[1] == Gets(line) && t[2..] == after + tail;
      } else {
        assert false;
      }
    }
  }

  /** The chunk read after a ready poll is answered as `Reacts` says,
      whatever the loop does afterwards. */
  lemma RespondDispatched(
    status: int, input: seq<char>, token: seq<char>, cycle: nat -> seq<Event>, k: nat, wait: Event,
    tail: seq<Event>)
    requires WellShaped(cycle, token, wait)
    requires !Respond(input, token, cycle, k).goOn ==> tail == []
    ensures var block := [Poll(POLL_TIMEOUT_MS, status)] + Respond(input, token, cycle, k).events;
            forall j :: 0 <= j < |block| && (block + tail)[j].Gets? ==> Reacts(block + tail, j, token)
  {
    var line := Fgets(input, MAX_READ_BUFFER_LEN);
    var r := Respond(input, token, cycle, k);
    RespondCases(input, token, cycle, k);
    var after := r.events[1..];
    ConcatAssoc([Poll(POLL_TIMEOUT_MS, status)], [Gets(line)], after);
    assert [Poll(POLL_TIMEOUT_MS, status)] + [Gets(line)] == [Poll(POLL_TIMEOUT_MS, status), Gets(line)];
    if line.Some? && CString(line.value) == token {
      assert CycleShape(cycle(k), token, wait);
    }
    BlockDispatched(status, line, after, tail, token, wait);
  }

  lemma {:induction false} LoopDispatched(
    polls: seq<int>, input: seq<char>, token: seq<char>, cycle: nat -> seq<Event>, k: nat, wait: Event)
    requires WellShaped(cycle, token, wait)
    ensures Dispatched(Loop(polls, input, token, cycle, k), token)
    decreases |polls|
  {
    var t := Loop(polls, input, token, cycle, k);
    if polls == [] {
    } else if polls[0] <= 0 {
      var rest := Loop(polls[1..], input, token, cycle, k);
      LoopDispatched(polls[1..], input, token, cycle, k, wait);
      DispatchedAfter([Poll(POLL_TIMEOUT_MS, polls[0])], rest, token);
    } else {
      var r := Respond(input, token, cycle, k);
      var block := [Poll(POLL_TIMEOUT_MS, polls[0])] + r.events;
      var tail := if r.goOn then Loop(polls[1..], r.rest, token, cycle, k + 1) else [];
      assert t == block + tail;
      if r.goOn {
        LoopDispatched(polls[1..], r.rest, token, cycle, k + 1, wait);
      }
      RespondDispatched(polls[0], input, token, cycle, k, wait, tail);
      forall j | 0 <= j < |t| && t[j].Gets?
        ensures Reacts(t, j, token)
      {
        if j >= |block| {
          ReactsAfter(block, tail, j - |block|, token);
        }
      }
    }
  }

  lemma RespondCongruence(input: seq<char>, token: seq<char>, c1: nat -> seq<Event>, c2: nat -> seq<Event>, k: nat)
    requires c1(k) == c2(k)
    ensures Respond(input, token, c1, k) == Respond(input, token, c2, k)
  {
  }

  /** The loop depends on the cycles only through the events they produce. */
  lemma {:induction false} LoopCongruence(
    polls: seq<int>, input: seq<char>, token: seq<char>, c1: nat -> seq<Event>, c2: nat -> seq<Event>, k: nat)
    requires forall i: nat :: c1(i) == c2(i)
    ensures Loop(polls, input, token, c1, k) == Loop(polls, input, token, c2, k)
    decreases |polls|
  {
    if polls != [] {
      if polls[0] <= 0 {
        LoopCongruence(polls[1..], input, token, c1, c2, k);
      } else {
        var r := Respond(input, token, c1, k);
        RespondCongruence(input, token, c1, c2, k);
        if r.goOn {
          LoopCongruence(polls[1..], r.rest, token, c1, c2, k + 1);
        }
      }
    }
  }

  lemma {:induction false} NoOutputs(t: seq<Event>)
    requires forall j :: 0 <= j < |t| ==> !t[j].Output?
    ensures OutputCount(t) == 0
  {
    if t != [] {
      assert forall j :: 0 <= j < |t[1..]| ==> t[1..][j] == t[j + 1];
      NoOutputs(t[1..]);
    }
  }

  /** With no input left, no measurement is ever made. */
  lemma {:induction false} LoopWithoutInput(
    polls: seq<int>, token: seq<char>, cycle: nat -> seq<Event>, k: nat)
    ensures OutputCount(Loop(polls, [], token, cycle, k)) == 0
    decreases |polls|
  {
    if polls != [] {
      if polls[0] <= 0 {
        LoopWithoutInput(polls[1..], token, cycle, k);
        OutputCountConcat([Poll(POLL_TIMEOUT_MS, polls[0])], Loop(polls[1..], [], token, cycle, k));
        NoOutputs([Poll(POLL_TIMEOUT_MS, polls[0])]);
      } else {
        assert Fgets([], MAX_READ_BUFFER_LEN) == None;
        assert Loop(polls, [], token, cycle, k)
               == [Poll(POLL_TIMEOUT_MS, polls[0]), Gets(None), Exit(EOF_STATUS)];
        NoOutputs(Loop(polls, [], token, cycle, k));
      }
    }
  }

  /** `n` copies of a command line. */
  function Repeat(line: seq<char>, n: nat): seq<char>
  {
    if n == 0 then [] else line + Repeat(line, n - 1)
  }

  /** A command that is one whole line: `fgets` takes it in one piece and
      `strcmp` sees all of it. */
  ghost predicate WholeLine(token: seq<char>)
  {
    && 0 < |token| < MAX_READ_BUFFER_LEN && token[|token| - 1] == '\n'
    && (forall i :: 0 <= i < |token| - 1 ==> token[i] != '\n')
    && '\0' !in token
  }

  /** The first of `n` copies of a whole-line token is read as the token,
      and the others are left. */
  lemma FirstOfRepeat(token: seq<char>, n: nat)
    requires WholeLine(token) && n > 0
    ensures Fgets(Repeat(token, n), MAX_READ_BUFFER_LEN) == Some(token)
    ensures CString(token) == token
    ensures Repeat(token, n)[|token|..] == Repeat(token, n - 1)
  {
    FgetsLine(token, Repeat(token, n - 1), MAX_READ_BUFFER_LEN);
    CStringOfText(token);
    assert (token + Repeat(token, n - 1))[|token|..] == Repeat(token, n - 1);
  }

  /** The number of lines printed when the loop serves `n` copies of `token`. */
  ghost function Answers(polls: seq<int>, token: seq<char>, cycle: nat -> seq<Event>, k: nat, n: nat): nat
  {
    OutputCount(Loop(polls, Repeat(token, n), token, cycle, k))
  }

  /** Every cycle prints one line and lets the loop go on. */
  ghost predicate Answering(cycle: nat -> seq<Event>)
  {
    forall i: nat :: OutputCount(cycle(i)) == 1 && !Terminated(cycle(i))
  }

  /** Every poll reports input ready. */
  ghost predicate AllReady(polls: seq<int>)
  {
    forall j :: 0 <= j < |polls| ==> polls[j] > 0
  }

  /** When every cycle prints one line and lets the loop go on, one ready
      poll on `n` copies of a whole-line token answers the first copy. */
  lemma AnswerFirst(polls: seq<int>, token: seq<char>, cycle: nat -> seq<Event>, k: nat, n: nat)
    requires WholeLine(token) && n > 0 && AllReady(polls) && polls != [] && Answering(cycle)
    ensures AllReady(polls[1..])
    ensures Answers(polls, token, cycle, k, n) == 1 + Answers(polls[1..], token, cycle, k + 1, n - 1)
  {
    assert polls[0] > 0;
    assert OutputCount(cycle(k)) == 1 && !Terminated(cycle(k));
    FirstOfRepeat(token, n);
    LoopAccepting(polls, Repeat(token, n), token, token, cycle, k);
    var reading := [Poll(POLL_TIMEOUT_MS, polls[0]), Gets(Some(token))];
    var rest := Loop(polls[1..], Repeat(token, n - 1), token, cycle, k + 1);
    OutputCountConcat(reading + cycle(k), rest);
    OutputCountConcat(reading, cycle(k));
    NoOutputs(reading);
    assert forall j :: 0 <= j < |polls[1..]| ==> polls[1..][j] == polls[j + 1];
  }

  /** Without commands, nothing is printed. */
  lemma NoCommands(polls: seq<int>, token: seq<char>, cycle: nat -> seq<Event>, k: nat)
    ensures Answers(polls, token, cycle, k, 0) == 0
  {
    LoopWithoutInput(polls, token, cycle, k);
    assert Repeat(token, 0) == [];
  }

  /** As long as the polls last, each of the `n` commands is answered. */
  lemma {:induction false} AnswersEach(polls: seq<int>, token: seq<char>, cycle: nat -> seq<Event>, k: nat, n: nat)
    requires WholeLine(token) && AllReady(polls) && Answering(cycle) && n <= |polls|
    ensures Answers(polls, token, cycle, k, n) == n
    decreases |polls|
  {
    if polls != [] {
      if n == 0 {
        NoCommands(polls, token, cycle, k);
      } else {
        assert AllReady(polls[1..]) by {
          assert forall j :: 0 <= j < |polls[1..]| ==> polls[1..][j] == polls[j + 1];
        }
        AnswersEach(polls[1..], token, cycle, k + 1, n - 1);
        AnswerFirst(polls, token, cycle, k, n);
      }
    }
  }

  /** When the commands outlast the polls, each poll answers one. */
  lemma {:induction false} AnswersUntilClosed(polls: seq<int>, token: seq<char>, cycle: nat -> seq<Event>, k: nat, n: nat)
    requires WholeLine(token) && AllReady(polls) && Answering(cycle) && |polls| <= n
    ensures Answers(polls, token, cycle, k, n) == |polls|
    decreases |polls|
  {
    if polls != [] {
      AnswerFirst(polls, token, cycle, k, n);
      AnswersUntilClosed(polls[1..], token, cycle, k + 1, n - 1);
    }
  }

  /** With every poll ready and every cycle printing one line, the loop
      prints one line for each of the `n` commands, as long as the polls last. */
  lemma LoopAnswers(polls: seq<int>, token: seq<char>, cycle: nat -> seq<Event>, k: nat, n: nat)
    requires WholeLine(token) && AllReady(polls) && Answering(cycle)
    ensures OutputCount(Loop(polls, Repeat(token, n), token, cycle, k)) == if n < |polls| then n else |polls|
  {
    if n <= |polls| {
      AnswersEach(polls, token, cycle, k, n);
    } else {
      AnswersUntilClosed(polls, token, cycle, k, n);
    }
  }
}
