/** Following a growing event log: however its bytes arrive, each complete line is
    rendered once, and the rows leave in batches. */
module LiveRows {
  import opened Options

  type Bytes = seq<char>

  /** An event of the log; a stamp that cannot be read is 0. */
  datatype Event = Event(source: string, kind: string, model: string, stamp: real, body: string)

  /** The model shown and the time counted from. */
  datatype Header = Header(model: string, t0: Option<real>)

  /** How the log's lines are read and its events shown. */
  datatype Reader = Reader(parse: Bytes -> Option<Event>, render: (Event, Header) -> seq<string>)

  datatype Batch = Batch(rows: seq<string>, at: real, closing: bool)

  datatype Exit = Ended | NeverAppeared | StillRunning

  // ---- The whole log at once

  /** The newline-terminated lines of the log. */
  function Lines(log: Bytes): seq<Bytes> {
    if log == [] then []
    else
      var front := log[..|log| - 1];
      if log[|log| - 1] == '\n' then Lines(front) + [Rest(front)] else Lines(front)
  }

  /** What follows the last newline. */
  function Rest(log: Bytes): Bytes {
    if log == [] then []
    else if log[|log| - 1] == '\n' then []
    else Rest(log[..|log| - 1]) + [log[|log| - 1]]
  }

  function Ours(e: Event, kind: string): bool {
    e.source == "agents-inc" && e.kind == kind
  }

  function NextHeader(h: Header, e: Event): Header {
    if Ours(e, "run.start") then Header(if e.model == "" then "?" else e.model, Some(e.stamp))
    else if h.t0.None? then h.(t0 := Some(e.stamp))
    else h
  }

  datatype Shown = Shown(rows: seq<string>, header: Header, done: bool)

  const NOTHING := Shown([], Header("?", None), false)

  function ShowLine(r: Reader, s: Shown, line: Bytes): Shown {
    var e := r.parse(line);
    if s.done || e.None? then s
    else
      var h := NextHeader(s.header, e.value);
      Shown(s.rows + r.render(e.value, h), h, Ours(e.value, "run.end"))
  }

  /** The rows of all lines up to the end of the run. */
  function Show(r: Reader, lines: seq<Bytes>): Shown {
    if lines == [] then NOTHING else ShowLine(r, Show(r, lines[..|lines| - 1]), lines[|lines| - 1])
  }

  // ---- What the header says

  predicate StartsRun(e: Event) {
    e.source == "agents-inc" && e.kind == "run.start"
  }

  /** The events of the lines, in order. */
  function Events(r: Reader, lines: seq<Bytes>): seq<Event> {
    if lines == [] then []
    else
      var e := r.parse(lines[|lines| - 1]);
      Events(r, lines[..|lines| - 1]) + if e.Some? then [e.value] else []
  }

  /** The events from the last start of the run on, or all if there is none. */
  function SinceStart(events: seq<Event>): seq<Event> {
    if events == [] || StartsRun(events[|events| - 1]) then (if events == [] then [] else [events[|events| - 1]])
    else SinceStart(events[..|events| - 1]) + [events[|events| - 1]]
  }

  /** The model of the last start of the run, and the stamp of the first event since. */
  function HeaderOf(events: seq<Event>): Header {
    var since := SinceStart(events);
    if since == [] then Header("?", None)
    else Header(if StartsRun(since[0]) && since[0].model != "" then since[0].model else "?", Some(since[0].stamp))
  }

  lemma HeaderMore(events: seq<Event>, e: Event)
    ensures HeaderOf(events + [e]) == NextHeader(HeaderOf(events), e)
  {
    var since := SinceStart(events);
    assert (events + [e])[..|events|] == events;
    if !StartsRun(e) {
      assert since != [] ==> (since + [e])[0] == since[0];
      assert since == [] ==> since + [e] == [e];
    }
  }

  /** The model shown is that of the last start of the run, and times count from the
      first event since; the end is our own event of that name, and no other. */
  lemma {:induction false} HeaderIs(r: Reader, lines: seq<Bytes>)
    ensures Show(r, lines).done <==>
            exists e :: e in Events(r, lines) && e.source == "agents-inc" && e.kind == "run.end"
    ensures !Show(r, lines).done ==> Show(r, lines).header == HeaderOf(Events(r, lines))
  {
    hide HeaderOf, NextHeader;
    if lines == [] {
      NoHeader();
    } else {
      var n := |lines| - 1;
      HeaderIs(r, lines[..n]);
      var events, parsed := Events(r, lines[..n]), r.parse(lines[n]);
      if parsed.None? {
        assert events + [] == events;
      } else {
        HeaderMore(events, parsed.value);
        assert forall e :: e in events + [parsed.value] <==> e in events || e == parsed.value;
      }
    }
  }

  lemma NoHeader()
    ensures HeaderOf([]) == Header("?", None)
  {}

  function Concat(batches: seq<Batch>): seq<string> {
    if batches == [] then [] else Concat(batches[..|batches| - 1]) + batches[|batches| - 1].rows
  }

  // ---- Pieces of the log

  /** Python's split of the bytes kept and the bytes read, at every newline. */
  method SplitLines(kept: Bytes, data: Bytes) returns (lines: seq<Bytes>, partial: Bytes)
    ensures lines == Lines(kept + data) && partial == Rest(kept + data)
  {
    var all := kept + data;
    lines, partial := [], [];
    for i := 0 to |all|
      invariant lines == Lines(all[..i]) && partial == Rest(all[..i])
    {
      assert all[..i + 1][..i] == all[..i];
      if all[i] == '\n' {
        lines, partial := lines + [partial], [];
      } else {
        partial := partial + [all[i]];
      }
    }
    assert all[..|all|] == all;
  }

  lemma {:induction false} RestInPieces(log: Bytes, data: Bytes)
    ensures Rest(log + data) == Rest(Rest(log) + data)
    decreases |data|
  {
    if data == [] {
      assert log + data == log && Rest(log) + data == Rest(log);
      RestHasNoLines(log);
    } else {
      RestInPieces(log, data[..|data| - 1]);
      LastByte(log, data);
      LastByte(Rest(log), data);
    }
  }

  lemma LastByte(log: Bytes, data: Bytes)
    requires data != []
    ensures var all := log + data;
            all != [] && all[..|all| - 1] == log + data[..|data| - 1] && all[|all| - 1] == data[|data| - 1]
  {}

  /** A log read in two pieces: the first piece's lines, then those of its rest
      joined to the second piece. */
  lemma {:induction false} LinesInPieces(log: Bytes, data: Bytes)
    ensures Lines(log + data) == Lines(log) + Lines(Rest(log) + data)
    ensures Rest(log + data) == Rest(Rest(log) + data)
    decreases |data|
  {
    RestInPieces(log, data);
    if data == [] {
      assert log + data == log && Rest(log) + data == Rest(log);
      RestHasNoLines(log);
    } else {
      var front := data[..|data| - 1];
      LinesInPieces(log, front);
      LinesNext(log, data);
      LinesNext(Rest(log), data);
      hide Lines, Rest;
    }
  }

  lemma LinesNext(log: Bytes, data: Bytes)
    requires data != []
    ensures var front := data[..|data| - 1];
            Lines(log + data) ==
            if data[|data| - 1] == '\n' then Lines(log + front) + [Rest(log + front)] else Lines(log + front)
  {
    LastByte(log, data);
    hide Rest;
  }

  lemma {:induction false} RestHasNoLines(log: Bytes)
    ensures Lines(Rest(log)) == [] && Rest(Rest(log)) == Rest(log)
  {
    if log != [] && log[|log| - 1] != '\n' {
      RestHasNoLines(log[..|log| - 1]);
      assert Rest(log)[..|Rest(log)| - 1] == Rest(log[..|log| - 1]);
    }
  }

  lemma {:induction false} ShowOn(r: Reader, lines: seq<Bytes>, more: seq<Bytes>)
    requires Show(r, lines).done
    ensures Show(r, lines + more) == Show(r, lines)
    decreases |more|
  {
    if more == [] {
      assert lines + more == lines;
    } else {
      ShowOn(r, lines, more[..|more| - 1]);
      assert (lines + more)[..|lines + more| - 1] == lines + more[..|more| - 1];
    }
  }

  // ---- Batches

  /** Before the end, a batch that is not full leaves at least `interval` after the one before it. */
  predicate Paced(batches: seq<Batch>, batch: nat, interval: real) {
    forall k | 0 < k < |batches| && |batches[k].rows| < batch && !batches[k].closing ::
      batches[k].at - batches[k - 1].at >= interval
  }

  /** `clock(k, j)` is what the j-th look at the clock during poll k reads. */
  type Clock = (nat, nat) -> real

  ghost predicate Monotone(clock: Clock, began: real) {
    && began <= clock(0, 0)
    && forall k: nat, i: nat, l: nat, j: nat | k < l || (k == l && i <= j) :: clock(k, i) <= clock(l, j)
  }

  lemma ConcatOne(batches: seq<Batch>, b: Batch)
    ensures Concat(batches + [b]) == Concat(batches) + b.rows
  {
    assert (batches + [b])[..|batches|] == batches;
  }

  /** Send the first `batch` waiting rows. */
  method Flush(out: seq<Batch>, pending: seq<string>, batch: nat, at: real, closing: bool)
    returns (out': seq<Batch>, pending': seq<string>)
    requires batch > 0 && pending != []
    ensures Concat(out') + pending' == Concat(out) + pending
    ensures |pending'| == if |pending| <= batch then 0 else |pending| - batch
    ensures |out'| == |out| + 1 && out'[..|out|] == out
    ensures out'[|out|].at == at && out'[|out|].closing == closing
    ensures |out'[|out|].rows| == if |pending| <= batch then |pending| else batch
  {
    var n := if |pending| <= batch then |pending| else batch;
    var b := Batch(pending[..n], at, closing);
    ConcatOne(out, b);
    assert pending == pending[..n] + pending[n..];
    out', pending' := out + [b], pending[n..];
  }

  lemma PacedFull(out: seq<Batch>, out': seq<Batch>, batch: nat, interval: real)
    requires Paced(out, batch, interval) && |out'| == |out| + 1 && out'[..|out|] == out
    requires |out'[|out|].rows| == batch || out'[|out|].closing
    ensures Paced(out', batch, interval)
  {
    assert forall k | 0 <= k < |out| :: out'[k] == out[k];
  }

  /** Send full batches while there are rows for one. */
  method SendFull(out: seq<Batch>, pending: seq<string>, batch: nat, ghost interval: real, clock: nat -> real,
                  tick: nat)
    returns (out': seq<Batch>, pending': seq<string>, tick': nat)
    requires batch > 0 && Paced(out, batch, interval)
    requires forall k | 0 <= k < |out| :: !out[k].closing
    ensures Concat(out') + pending' == Concat(out) + pending
    ensures Paced(out', batch, interval) && |pending'| < batch
    ensures out <= out' && forall k | 0 <= k < |out'| :: !out'[k].closing
  {
    out', pending', tick' := out, pending, tick;
    while |pending'| >= batch
      invariant Concat(out') + pending' == Concat(out) + pending
      invariant Paced(out', batch, interval)
      invariant out <= out' && forall k | 0 <= k < |out'| :: !out'[k].closing
    {
      hide Concat, Paced;
      ghost var before := out';
      out', pending' := Flush(out', pending', batch, clock(tick'), false);
      tick' := tick' + 1;
      PacedFull(before, out', batch, interval);
      assert forall k | 0 <= k < |before| :: out'[k] == before[k];
    }
  }

  /** At the end of the run, send all the rest. */
  method SendRest(out: seq<Batch>, pending: seq<string>, batch: nat, ghost interval: real, clock: nat -> real,
                  tick: nat)
    returns (out': seq<Batch>, tick': nat)
    requires batch > 0 && Paced(out, batch, interval)
    ensures Concat(out') == Concat(out) + pending
    ensures Paced(out', batch, interval)
  {
    var pending' := pending;
    out', tick' := out, tick;
    while pending' != []
      invariant Concat(out') + pending' == Concat(out) + pending
      invariant Paced(out', batch, interval)
      decreases |pending'|
    {
      hide Concat, Paced;
      ghost var before := out';
      out', pending' := Flush(out', pending', batch, clock(tick'), true);
      tick' := tick' + 1;
      PacedFull(before, out', batch, interval);
    }
  }

  /** Take the complete lines one by one, up to the end of the run. */
  method TakeLines(r: Reader, ghost before: seq<Bytes>, lines: seq<Bytes>, header: Header, pending: seq<string>,
                   ghost sent: seq<string>)
    returns (header': Header, pending': seq<string>, done: bool)
    requires var s := Show(r, before); !s.done && s.header == header && s.rows == sent + pending
    ensures var s := Show(r, before + lines); done == s.done && header' == s.header && sent + pending' == s.rows
  {
    header', pending', done := header, pending, false;
    assert before + lines[..0] == before;
    for i := 0 to |lines|
      invariant !done && Show(r, before + lines[..i]) == Shown(sent + pending', header', false)
    {
      hide Ours, NextHeader, Show;
      ShowNext(r, before, lines, i);
      var e := r.parse(lines[i]);
      if e.Some? {
        header' := NextHeader(header', e.value);
        var rows := r.render(e.value, header');
        assert sent + pending' + rows == sent + (pending' + rows);
        pending' := pending' + rows;
        if Ours(e.value, "run.end") {
          done := true;
          ShowOn(r, before + lines[..i + 1], lines[i + 1..]);
          assert before + lines[..i + 1] + lines[i + 1..] == before + lines;
          return;
        }
      }
    }
    assert lines[..|lines|] == lines;
  }

  lemma ShowNext(r: Reader, before: seq<Bytes>, lines: seq<Bytes>, i: nat)
    requires i < |lines|
    ensures Show(r, before + lines[..i + 1]) == ShowLine(r, Show(r, before + lines[..i]), lines[i])
  {
    var all := before + lines[..i + 1];
    assert all[..|all| - 1] == before + lines[..i] && all[|all| - 1] == lines[i];
    hide ShowLine;
  }

  // ---- The follower

  /** What the file holds at each poll; None while it cannot be opened.  It only grows. */
  ghost predicate Grows(polls: seq<Option<Bytes>>) {
    forall i, j | 0 <= i < j < |polls| && polls[i].Some? && polls[j].Some? :: polls[i].value <= polls[j].value
  }

  /** What was read of the file in the first n polls. */
  function Observed(polls: seq<Option<Bytes>>, n: nat): Bytes
    requires n <= |polls|
  {
    if n == 0 then [] else if polls[n - 1].Some? then polls[n - 1].value else Observed(polls, n - 1)
  }

  /** It is the last successful read, or nothing before the first one. */
  lemma {:induction false} ObservedIsLast(polls: seq<Option<Bytes>>, n: nat)
    requires n <= |polls|
    ensures if forall i | 0 <= i < n :: polls[i].None? then Observed(polls, n) == []
            else exists i | 0 <= i < n && polls[i].Some? ::
                   Observed(polls, n) == polls[i].value && forall k | i < k < n :: polls[k].None?
  {
    if n > 0 && polls[n - 1].None? {
      ObservedIsLast(polls, n - 1);
    }
  }

  lemma {:induction false} ObservedGrows(polls: seq<Option<Bytes>>, n: nat, m: nat)
    requires Grows(polls) && n <= m < |polls| && polls[m].Some?
    ensures Observed(polls, n) <= polls[m].value
  {
    if n > 0 && polls[n - 1].None? {
      ObservedGrows(polls, n - 1, m);
    }
  }

  ghost predicate Seen(polls: seq<Option<Bytes>>, n: nat) {
    n <= |polls| && exists i :: 0 <= i < n && polls[i].Some?
  }

  /** Between two polls: the rows of what was read were sent or wait, fewer than
      a batch of them, and the last flush is the last batch's. */
  ghost predicate Following(r: Reader, log: Bytes, header: Header, pending: seq<string>, out: seq<Batch>,
                            lastFlush: Option<real>, batch: nat, interval: real) {
    && Show(r, Lines(log)) == Shown(Concat(out) + pending, header, false)
    && |pending| < batch
    && Paced(out, batch, interval) && (forall k | 0 <= k < |out| :: !out[k].closing)
    && (lastFlush.None? <==> out == [])
    && (out != [] ==> lastFlush.value == out[|out| - 1].at)
  }

  /** The lines completed by the bytes just read, and the full batches. */
  method Digest(r: Reader, ghost log: Bytes, data: Bytes, partial: Bytes, header: Header, pending: seq<string>,
                out: seq<Batch>, lastFlush: Option<real>, batch: nat, interval: real, clock: nat -> real, tick: nat)
    returns (partial': Bytes, header': Header, pending': seq<string>, out': seq<Batch>, lastFlush': Option<real>,
             tick': nat, done: bool)
    requires batch > 0 && partial == Rest(log) && Following(r, log, header, pending, out, lastFlush, batch, interval)
    ensures partial' == Rest(log + data)
    ensures done == Show(r, Lines(log + data)).done
    ensures !done ==> Following(r, log + data, header', pending', out', lastFlush', batch, interval)
    ensures done ==> Concat(out') == Show(r, Lines(log + data)).rows && Paced(out', batch, interval)
  {
    hide Lines, Rest, Show, Concat, Paced;
    LinesInPieces(log, data);
    var lines;
    lines, partial' := SplitLines(partial, data);
    header', pending', done := TakeLines(r, Lines(log), lines, header, pending, Concat(out));
    out', pending', tick' := SendFull(out, pending', batch, interval, clock, tick);
    lastFlush' := if |out'| > |out| then Some(out'[|out'| - 1].at) else lastFlush;
    if done {
      out', tick' := SendRest(out', pending', batch, interval, clock, tick');
      pending' := [];
    }
  }

  /** At each of the first n polls that found no file yet, the wait was not over. */
  ghost predicate Waited(polls: seq<Option<Bytes>>, clock: Clock, began: real, wait: real, n: nat) {
    forall k: nat | k < n <= |polls| && (forall i | 0 <= i <= k :: polls[i].None?) :: clock(k, 0) - began < wait
  }

  /** Rows only wait if the last flush was less than the interval before the time of the poll. */
  ghost predicate Prompt(waiting: bool, out: seq<Batch>, time: real, interval: real) {
    waiting ==> out != [] && time - out[|out| - 1].at < interval
  }

  /** Send what waits, if the interval since the last flush is over. */
  method SendTimed(out: seq<Batch>, pending: seq<string>, lastFlush: Option<real>, batch: nat, interval: real,
                   clock: nat -> real, tick: nat)
    returns (out': seq<Batch>, pending': seq<string>, lastFlush': Option<real>)
    requires batch > 0 && |pending| < batch && Paced(out, batch, interval) && clock(0) <= clock(tick) <= clock(tick + 1)
    requires forall k | 0 <= k < |out| :: !out[k].closing
    requires (lastFlush.None? <==> out == []) && (out != [] ==> lastFlush.value == out[|out| - 1].at)
    ensures Concat(out') + pending' == Concat(out) + pending && |pending'| < batch
    ensures Paced(out', batch, interval) && forall k | 0 <= k < |out'| :: !out'[k].closing
    ensures (lastFlush'.None? <==> out' == []) && (out' != [] ==> lastFlush'.value == out'[|out'| - 1].at)
    ensures Prompt(pending' != [], out', clock(0), interval) && (pending == [] ==> pending' == [])
  {
    out', pending', lastFlush' := out, pending, lastFlush;
    if pending != [] && (lastFlush.None? || clock(tick) - lastFlush.value >= interval) {
      hide Concat, Paced;
      out', pending' := Flush(out, pending, batch, clock(tick + 1), false);
      PacedOneMore(out, out', batch, interval);
      lastFlush' := Some(clock(tick + 1));
    }
  }

  /** Follow the log over any schedule of polls.  The rows sent and waiting are
      the rendered lines of everything read, and at the end of the run all are sent.  It
      gives up at the first poll without a file whose time is past the wait, and after
      every poll rows only wait for the rest of the interval. */
  method Follow(r: Reader, polls: seq<Option<Bytes>>, clock: Clock, began: real, interval: real, batch: nat, wait: real)
    returns (exit: Exit, out: seq<Batch>, used: nat)
    requires batch > 0 && Grows(polls) && Monotone(clock, began)
    ensures used <= |polls| && Paced(out, batch, interval)
    ensures Concat(out) <= Show(r, Lines(Observed(polls, used))).rows
    ensures exit.Ended? <==> Show(r, Lines(Observed(polls, used))).done
    ensures exit.Ended? ==> Concat(out) == Show(r, Lines(Observed(polls, used))).rows
    ensures exit.NeverAppeared? ==>
              used < |polls| && (forall i | 0 <= i <= used :: polls[i].None?) && clock(used, 0) - began >= wait
    ensures Waited(polls, clock, began, wait, used)
    ensures exit.StillRunning? ==>
              used == |polls| && |Show(r, Lines(Observed(polls, used))).rows| - |Concat(out)| < batch
    ensures exit.StillRunning? && used > 0 ==>
              Prompt(Concat(out) != Show(r, Lines(Observed(polls, used))).rows, out, clock(used - 1, 0), interval)
  {
    hide Lines, Rest, Show, Concat, Paced;
    var offset, partial := 0, [];
    var header: Header, pending: seq<string> := Header("?", None), [];
    var lastFlush: Option<real> := None;
    var seen := false;
    out, used := [], 0;
    StartsFollowing(r, batch, interval);
    while used < |polls|
      invariant used <= |polls|
      invariant offset == |Observed(polls, used)| && partial == Rest(Observed(polls, used))
      invariant Following(r, Observed(polls, used), header, pending, out, lastFlush, batch, interval)
      invariant seen == Seen(polls, used)
      invariant Waited(polls, clock, began, wait, used)
      invariant used > 0 ==> Prompt(pending != [], out, clock(used - 1, 0), interval)
    {
      var data: Bytes, tick := [], 0;
      ghost var log := Observed(polls, used);
      if polls[used].Some? {
        ObservedGrows(polls, used, used);
        data := polls[used].value[offset..];
        assert polls[used].value == log + data;
        seen := true;
      } else {
        assert log + data == log;
        if !seen {
          tick := 1;
          if clock(used, 0) - began >= wait {
            return NeverAppeared, out, used;
          }
        }
      }
      ghost var time := clock(used, 0);
      var readings := (j: nat) => clock(used, j);
      used := used + 1;
      offset := offset + |data|;
      assert Observed(polls, used) == log + data;
      var done;
      partial, header, pending, out, lastFlush, tick, done :=
        Digest(r, log, data, partial, header, pending, out, lastFlush, batch, interval, readings, tick);
      if done {
        return Ended, out, used;
      }
      out, pending, lastFlush := SendTimed(out, pending, lastFlush, batch, interval, readings, tick);
    }
    exit := StillRunning;
    SomeWait(Concat(out), pending);
  }

  lemma SomeWait(sent: seq<string>, pending: seq<string>)
    ensures sent == sent + pending <==> pending == []
  {}

  lemma PacedOneMore(out: seq<Batch>, out': seq<Batch>, batch: nat, interval: real)
    requires Paced(out, batch, interval) && |out'| == |out| + 1 && out'[..|out|] == out
    requires out != [] ==> out'[|out|].at - out[|out| - 1].at >= interval
    requires forall k | 0 <= k < |out| :: !out[k].closing
    requires !out'[|out|].closing
    ensures Paced(out', batch, interval) && forall k | 0 <= k < |out'| :: !out'[k].closing
  {
    assert forall k | 0 <= k < |out| :: out'[k] == out[k];
  }

  lemma StartsFollowing(r: Reader, batch: nat, interval: real)
    requires batch > 0
    ensures Following(r, [], Header("?", None), [], [], None, batch, interval) && Rest([]) == []
  {}
}
