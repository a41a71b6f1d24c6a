/** The ask_lead exchange of one Worker turn: the Worker, the broker and the
    Lead meet only through numbered files that are created once. */
module AskLead {
  import opened Options

  /** The files of the exchange, and the broker's question counter in memory and in run.json. */
  datatype Exchange = Exchange(
    questions: map<nat, string>,  // the Worker's questions, in its own directory
    copies: map<nat, string>,     // the screened copies the Lead may read
    markers: set<nat>,            // the answered marks beside the copies
    answers: map<nat, string>,    // the answers in the Worker's directory
    counted: nat,
    saved: nat)

  const INIT := Exchange(map[], map[], {}, map[], 0, 0)

  /** The taken numbers from `n` on: what is left of a scan. */
  function Above(taken: set<nat>, n: nat): set<nat> {
    set k | k in taken && n <= k
  }

  lemma ScanShrinks(taken: set<nat>, n: nat)
    requires n in taken
    ensures Above(taken, n + 1) < Above(taken, n)
  {
    assert n in Above(taken, n) && n !in Above(taken, n + 1);
  }

  /** The scan every party uses: the first number from `n` on that is not taken. */
  function FirstFree(taken: set<nat>, n: nat): (m: nat)
    ensures n <= m && m !in taken && forall k | n <= k < m :: k in taken
    decreases Above(taken, n)
  {
    if n !in taken then n
    else
      ScanShrinks(taken, n);
      FirstFree(taken, n + 1)
  }

  /** The lowest unanswered question, relayed or not. */
  function ToRelay(x: Exchange): Option<nat> {
    var n := FirstFree(x.questions.Keys * x.markers, 1);
    if n in x.questions then Some(n) else None
  }

  /** The lowest relayed question that is not answered yet. */
  function PendingQuestion(x: Exchange): Option<nat> {
    var n := FirstFree(x.copies.Keys * x.markers, 1);
    if n in x.copies then Some(n) else None
  }

  /** Would the broker take an answer to question n?  `screened` is the verdict of the text screens. */
  predicate TakesAnswer(x: Exchange, n: int, screened: bool) {
    n >= 1 && screened && n in x.copies && n !in x.markers
  }

  // ---- Steps

  /** `AnswerLost` is an answer whose broker dies between the mark and the Worker's
      copy, `AnswerUndelivered` one whose copy cannot be written; `Restart` reloads
      the counter from run.json. */
  datatype Event =
    | Ask(text: string)
    | Relay(shown: string)
    | Answer(n: int, text: string, screened: bool)
    | AnswerLost(number: int)
    | AnswerUndelivered(asked: int, passes: bool)
    | Save
    | Restart

  function Step(x: Exchange, e: Event): Exchange {
    match e
    case Ask(text) =>
      x.(questions := x.questions[FirstFree(x.questions.Keys, 1) := text])
    case Relay(shown) =>
      var n := ToRelay(x);
      if n.Some? && n.value !in x.copies
      then x.(copies := x.copies[n.value := shown], counted := x.counted + 1) else x
    case Answer(n, text, screened) =>
      if TakesAnswer(x, n, screened)
      then x.(markers := x.markers + {n}, answers := if n in x.answers then x.answers else x.answers[n := text]) else x
    case AnswerLost(n) =>
      if TakesAnswer(x, n, true) then x.(markers := x.markers + {n}, counted := x.saved) else x.(counted := x.saved)
    case AnswerUndelivered(n, screened) =>
      if TakesAnswer(x, n, screened) then x.(markers := x.markers + {n}) else x
    case Save => x.(saved := x.counted)
    case Restart => x.(counted := x.saved)
  }

  function Run(x: Exchange, events: seq<Event>): Exchange {
    if events == [] then x else Step(Run(x, events[..|events| - 1]), events[|events| - 1])
  }

  // ---- The parties

  class Files {
    var questions: map<nat, string>
    var copies: map<nat, string>
    var markers: set<nat>
    var answers: map<nat, string>
    var counted: nat
    var saved: nat

    function View(): Exchange
      reads this
    {
      Exchange(questions, copies, markers, answers, counted, saved)
    }

    constructor ()
      ensures View() == INIT
    {
      questions, copies, markers, answers, counted, saved := map[], map[], {}, map[], 0, 0;
    }

    /** The Worker's side: write the question under the next free number. */
    method WriteQuestion(text: string) returns (n: nat)
      modifies this
      ensures View() == Step(old(View()), Ask(text))
      ensures n == FirstFree(old(questions).Keys, 1) && n !in old(questions) && questions[n] == text
    {
      n := 1;
      while n in questions
        invariant View() == old(View()) && FirstFree(questions.Keys, n) == FirstFree(questions.Keys, 1)
        decreases Above(questions.Keys, n)
      {
        ScanShrinks(questions.Keys, n);
        n := n + 1;
      }
      questions := questions[n := text];
    }

    /** The broker's side: copy the lowest unanswered question once, and say which it is. */
    method RelayQuestion(screen: string -> string) returns (n: Option<nat>)
      modifies this
      ensures n == ToRelay(old(View())) && (n.Some? ==> n.value in old(questions))
      ensures View() == Step(old(View()), Relay(if n.Some? then screen(old(questions)[n.value]) else ""))
      ensures n.Some? ==> n.value in copies && n.value !in markers
      ensures n.Some? && n.value !in old(copies) ==> copies == old(copies)[n.value := screen(old(questions)[n.value])]
    {
      var i := 1;
      while i in questions && i in markers
        invariant View() == old(View()) && FirstFree(questions.Keys * markers, i)
                                             == FirstFree(questions.Keys * markers, 1)
        decreases Above(questions.Keys * markers, i)
      {
        ScanShrinks(questions.Keys * markers, i);
        i := i + 1;
      }
      if i !in questions {
        return None;
      }
      if i !in copies {
        copies := copies[i := screen(questions[i])];
        counted := counted + 1;
      }
      return Some(i);
    }

    method Pending() returns (n: Option<nat>)
      ensures n == PendingQuestion(View())
    {
      var i := 1;
      while i in copies
        invariant FirstFree(copies.Keys * markers, i) == FirstFree(copies.Keys * markers, 1)
        decreases Above(copies.Keys, i)
      {
        if i !in markers {
          return Some(i);
        }
        ScanShrinks(copies.Keys, i);
        i := i + 1;
      }
      return None;
    }

    /** Mark question n answered, then hand the text to the Worker; neither file is
        ever overwritten.  `fault` is a hand-over that fails. */
    method AnswerQuestion(n: int, text: string, screened: bool, fault: bool) returns (answered: bool)
      modifies this
      ensures View() == Step(old(View()), if fault then AnswerUndelivered(n, screened) else Answer(n, text, screened))
      ensures answered <==> TakesAnswer(old(View()), n, screened) && n !in old(answers) && !fault
    {
      if n < 1 || !screened || n !in copies || n in markers {
        return false;
      }
      markers := markers + {n};
      if n in answers || fault {
        return false;
      }
      answers := answers[n := text];
      return true;
    }

    method SaveCounter()
      modifies this
      ensures View() == Step(old(View()), Event.Save) && saved == counted == old(counted)
    {
      saved := counted;
    }

    method RestartBroker()
      modifies this
      ensures View() == Step(old(View()), Restart) && counted == saved == old(saved)
    {
      counted := saved;
    }
  }

  // ---- What every run keeps

  /** The numbers in use are exactly 1..n. */
  ghost predicate Numbers(keys: set<nat>, n: nat) {
    forall k :: k in keys <==> 1 <= k <= n
  }

  /** q questions asked, r relayed, a answered. */
  ghost predicate InOrder(x: Exchange, q: nat, r: nat, a: nat) {
    && Numbers(x.questions.Keys, q) && Numbers(x.copies.Keys, r) && Numbers(x.markers, a)
    && a <= r <= a + 1 && r <= q
    && x.answers.Keys <= x.markers
    && x.saved <= r && x.counted <= r
  }

  lemma FirstFreeAfter(taken: set<nat>, n: nat)
    requires Numbers(taken, n)
    ensures FirstFree(taken, 1) == n + 1
  {
    assert n + 1 !in taken && (n > 0 ==> n in taken);
  }

  lemma Scans(x: Exchange, q: nat, r: nat, a: nat)
    requires InOrder(x, q, r, a)
    ensures FirstFree(x.questions.Keys, 1) == q + 1
    ensures FirstFree(x.questions.Keys * x.markers, 1) == a + 1
    ensures FirstFree(x.copies.Keys * x.markers, 1) == a + 1
  {
    FirstFreeAfter(x.questions.Keys, q);
    FirstFreeAfter(x.questions.Keys * x.markers, a);
    FirstFreeAfter(x.copies.Keys * x.markers, a);
  }

  lemma StepKeepsOrder(x: Exchange, e: Event, q: nat, r: nat, a: nat) returns (q': nat, r': nat, a': nat)
    requires InOrder(x, q, r, a)
    ensures InOrder(Step(x, e), q', r', a')
    ensures q <= q' <= q + 1 && r <= r' <= r + 1 && a <= a' <= a + 1
    ensures q' == q + 1 <==> e.Ask?
    ensures r' == r + 1 <==> e.Relay? && r == a < q
    ensures a' == a + 1 <==>
            r == a + 1 &&
            (e == AnswerLost(r) || e == AnswerUndelivered(r, true) || (e.Answer? && e.n == r && e.screened))
  {
    Scans(x, q, r, a);
    q', r', a' := q, r, a;
    match e {
      case Ask(_) => q' := q + 1;
      case Relay(_) => if r == a < q { r' := r + 1; }
      case Answer(n, _, screened) => if n == r == a + 1 && screened { a' := a + 1; }
      case AnswerLost(n) => if n == r == a + 1 { a' := a + 1; }
      case AnswerUndelivered(n, screened) => if n == r == a + 1 && screened { a' := a + 1; }
      case _ =>
    }
  }

  /** In every run the numbers asked, relayed and answered are 1..q, 1..r and
      1..a with a <= r <= a + 1 and r <= q. */
  lemma {:induction false} RunInOrder(events: seq<Event>) returns (q: nat, r: nat, a: nat)
    ensures InOrder(Run(INIT, events), q, r, a)
    decreases |events|
  {
    if events == [] {
      return 0, 0, 0;
    }
    q, r, a := RunInOrder(events[..|events| - 1]);
    q, r, a := StepKeepsOrder(Run(INIT, events[..|events| - 1]), events[|events| - 1], q, r, a);
  }

  /** The pending question is exactly the relayed unanswered one, and while it
      stands the broker relays nothing else. */
  lemma PendingIsRelayedUnanswered(x: Exchange, q: nat, r: nat, a: nat)
    requires InOrder(x, q, r, a)
    ensures PendingQuestion(x) == if r == a + 1 then Some(r) else None
    ensures ToRelay(x) == if a < q then Some(a + 1) else None
    ensures forall n :: n in x.copies.Keys - x.markers <==> PendingQuestion(x) == Some(n)
  {
    Scans(x, q, r, a);
  }

  // ---- Counting

  /** No restart hits a relay that run.json does not know of yet. */
  predicate SavedBeforeRestart(events: seq<Event>)
    decreases |events|
  {
    events == [] ||
    var before, e := events[..|events| - 1], events[|events| - 1];
    && SavedBeforeRestart(before)
    && (e.Restart? || e.AnswerLost? ==> Run(INIT, before).counted == Run(INIT, before).saved)
  }

  /** Every relayed question is counted exactly once, if no restart loses an
      unsaved count; and a count once lost is never made up. */
  lemma {:induction false} CountedOnce(events: seq<Event>)
    ensures Run(INIT, events).saved <= |Run(INIT, events).copies|
    ensures Run(INIT, events).counted == |Run(INIT, events).copies| <==> SavedBeforeRestart(events)
    ensures Run(INIT, events).counted <= |Run(INIT, events).copies|
    ensures Run(INIT, events).saved <= Run(INIT, events).counted
    decreases |events|
  {
    if events != [] {
      CountedOnce(events[..|events| - 1]);
    }
  }

  // ---- Texts

  /** Event i of the run is an answer to question n that reached the Worker. */
  predicate Delivers(events: seq<Event>, i: nat, n: nat)
    requires i < |events|
  {
    && events[i].Answer? && events[i].n == n
    && TakesAnswer(Run(INIT, events[..i]), n, events[i].screened)
    && n !in Run(INIT, events[..i]).answers
  }

  /** What a Worker may read for question n was given by exactly one event of the run, with that text. */
  lemma {:induction false} AnswerIsTheOneGiven(events: seq<Event>, n: nat)
    requires n in Run(INIT, events).answers
    ensures exists i :: 0 <= i < |events| && Delivers(events, i, n) && events[i].text == Run(INIT, events).answers[n]
    ensures forall i, j | 0 <= i < |events| && 0 <= j < |events| && Delivers(events, i, n) && Delivers(events, j, n) ::
              i == j
    decreases |events|
  {
    var last := |events| - 1;
    var before := events[..last];
    forall i | 0 <= i < last ensures events[..i] == before[..i] {}
    if n in Run(INIT, before).answers {
      AnswerIsTheOneGiven(before, n);
      var i :| 0 <= i < last && Delivers(before, i, n) && before[i].text == Run(INIT, before).answers[n];
      assert Delivers(events, i, n);
      forall k | 0 <= k < |events| && Delivers(events, k, n) ensures k == i {
        if k < last { assert Delivers(before, k, n); }
      }
    } else {
      assert Delivers(events, last, n);
      forall k | 0 <= k < |events| && Delivers(events, k, n) ensures k == last {
        if k < last { DeliveredStays(events, k, n, last); }
      }
    }
  }

  /** Event i of the run shows question n to the Lead: the lowest unanswered question, not shown before. */
  predicate Shows(events: seq<Event>, i: nat, n: nat)
    requires i < |events|
  {
    events[i].Relay? && ToRelay(Run(INIT, events[..i])) == Some(n) && n !in Run(INIT, events[..i]).copies
  }

  /** What the Lead may read as question n was shown by exactly one event of the run, with that text. */
  lemma {:induction false} CopyIsTheOneShown(events: seq<Event>, n: nat)
    requires n in Run(INIT, events).copies
    ensures exists i :: 0 <= i < |events| && Shows(events, i, n) && events[i].shown == Run(INIT, events).copies[n]
    ensures forall i, j | 0 <= i < |events| && 0 <= j < |events| && Shows(events, i, n) && Shows(events, j, n) :: i == j
    decreases |events|
  {
    var last := |events| - 1;
    var before := events[..last];
    forall i | 0 <= i < last ensures events[..i] == before[..i] {}
    if n in Run(INIT, before).copies {
      CopyIsTheOneShown(before, n);
      var i :| 0 <= i < last && Shows(before, i, n) && before[i].shown == Run(INIT, before).copies[n];
      assert Shows(events, i, n);
      forall k | 0 <= k < |events| && Shows(events, k, n) ensures k == i {
        if k < last { assert Shows(before, k, n); }
      }
    } else {
      assert Shows(events, last, n);
      forall k | 0 <= k < |events| && Shows(events, k, n) ensures k == last {
        if k < last { ShownStays(events, k, n, last); }
      }
    }
  }

  lemma {:induction false} ShownStays(events: seq<Event>, i: nat, n: nat, upto: nat)
    requires i < upto <= |events| && Shows(events, i, n)
    ensures n in Run(INIT, events[..upto]).copies
    decreases upto
  {
    assert events[..upto][..upto - 1] == events[..upto - 1];
    if i + 1 < upto {
      ShownStays(events, i, n, upto - 1);
    }
  }

  /** The broker shows each question as the screen leaves it. */
  predicate Screens(events: seq<Event>, screen: string -> string)
    decreases |events|
  {
    events == [] ||
    var before, e := events[..|events| - 1], events[|events| - 1];
    var n := ToRelay(Run(INIT, before));
    Screens(before, screen) && (e.Relay? && n.Some? ==> e.shown == screen(Run(INIT, before).questions[n.value]))
  }

  /** Then what the Lead reads as question n is the Worker's question n, screened. */
  lemma {:induction false} LeadReadsScreened(events: seq<Event>, screen: string -> string, n: nat)
    requires Screens(events, screen) && n in Run(INIT, events).copies
    ensures n in Run(INIT, events).questions && Run(INIT, events).copies[n] == screen(Run(INIT, events).questions[n])
    decreases |events|
  {
    var before := events[..|events| - 1];
    if n in Run(INIT, before).copies {
      LeadReadsScreened(before, screen, n);
    }
  }

  function Asked(events: seq<Event>): nat {
    if events == [] then 0 else Asked(events[..|events| - 1]) + if events[|events| - 1].Ask? then 1 else 0
  }

  /** Event i of the run is its n-th question. */
  predicate AsksNth(events: seq<Event>, i: nat, n: nat)
    requires i < |events|
  {
    events[i].Ask? && Asked(events[..i]) + 1 == n
  }

  lemma {:induction false} AskedGrows(events: seq<Event>, i: nat)
    requires i <= |events|
    ensures Asked(events[..i]) <= Asked(events)
    ensures i < |events| && events[i].Ask? ==> Asked(events[..i]) < Asked(events)
    decreases |events|
  {
    if i < |events| {
      var before := events[..|events| - 1];
      assert before[..i] == events[..i];
      AskedGrows(before, i);
    } else {
      assert events[..i] == events;
    }
  }

  /** A longer run has the same n-th question among its earlier events. */
  lemma AsksBefore(events: seq<Event>, n: nat)
    requires events != []
    ensures var before := events[..|events| - 1];
            forall i | 0 <= i < |before| ::
              AsksNth(events, i, n) == AsksNth(before, i, n) && (AsksNth(before, i, n) ==> n <= Asked(before))
  {
    var before := events[..|events| - 1];
    forall i | 0 <= i < |before|
      ensures AsksNth(events, i, n) == AsksNth(before, i, n) && (AsksNth(before, i, n) ==> n <= Asked(before))
    {
      assert events[..i] == before[..i];
      AskedGrows(before, i);
    }
  }

  lemma {:induction false} AskedOnce(events: seq<Event>, n: nat)
    ensures forall i, j | 0 <= i < |events| && 0 <= j < |events| && AsksNth(events, i, n) && AsksNth(events, j, n) ::
              i == j
    decreases |events|
  {
    if events != [] {
      AskedOnce(events[..|events| - 1], n);
      AsksBefore(events, n);
    }
  }

  /** The questions are numbered from 1 without a gap, and question n is exactly the n-th that was asked. */
  lemma {:induction false} QuestionIsTheNth(events: seq<Event>, n: nat)
    ensures n in Run(INIT, events).questions <==> 1 <= n <= Asked(events)
    ensures n in Run(INIT, events).questions ==>
              exists i :: 0 <= i < |events| && AsksNth(events, i, n) && events[i].text == Run(INIT, events).questions[n]
    ensures forall i, j | 0 <= i < |events| && 0 <= j < |events| && AsksNth(events, i, n) && AsksNth(events, j, n) ::
              i == j
    decreases |events|
  {
    AskedOnce(events, n);
    if events != [] {
      var last := |events| - 1;
      var before := events[..last];
      QuestionIsTheNth(before, n);
      AsksBefore(events, n);
      Numbered(before);
      hide FirstFree;
      if n in Run(INIT, before).questions {
        var i :| 0 <= i < last && AsksNth(before, i, n) && before[i].text == Run(INIT, before).questions[n];
        assert AsksNth(events, i, n);
      } else if n in Run(INIT, events).questions {
        assert AsksNth(events, last, n);
      }
    }
  }

  lemma {:induction false} Numbered(events: seq<Event>)
    ensures Numbers(Run(INIT, events).questions.Keys, Asked(events))
    ensures FirstFree(Run(INIT, events).questions.Keys, 1) == Asked(events) + 1
    decreases |events|
  {
    if events != [] {
      Numbered(events[..|events| - 1]);
    }
    FirstFreeAfter(Run(INIT, events).questions.Keys, Asked(events));
  }

  lemma {:induction false} DeliveredStays(events: seq<Event>, i: nat, n: nat, upto: nat)
    requires i < upto <= |events| && Delivers(events, i, n)
    ensures n in Run(INIT, events[..upto]).answers && n in Run(INIT, events[..upto]).markers
    decreases upto
  {
    assert events[..upto][..upto - 1] == events[..upto - 1];
    if i + 1 < upto {
      DeliveredStays(events, i, n, upto - 1);
    }
  }

  /** Every file of `x` is still in `y`, unchanged. */
  predicate KeptIn(x: Exchange, y: Exchange) {
    && (forall n | n in x.questions :: n in y.questions && y.questions[n] == x.questions[n])
    && (forall n | n in x.copies :: n in y.copies && y.copies[n] == x.copies[n])
    && (forall n | n in x.answers :: n in y.answers && y.answers[n] == x.answers[n])
    && x.markers <= y.markers
  }

  lemma StepKeepsFiles(x: Exchange, e: Event)
    ensures KeptIn(x, Step(x, e))
  {}

  /** No file of the exchange is ever replaced or removed. */
  lemma {:induction false} CreatedOnce(x: Exchange, events: seq<Event>)
    ensures KeptIn(x, Run(x, events))
    decreases |events|
  {
    hide Step;
    if events != [] {
      CreatedOnce(x, events[..|events| - 1]);
      StepKeepsFiles(Run(x, events[..|events| - 1]), events[|events| - 1]);
    }
  }

  /** The event marks a question answered and hands nothing over. */
  predicate Loses(x: Exchange, e: Event) {
    || (e.AnswerLost? && TakesAnswer(x, e.number, true))
    || (e.AnswerUndelivered? && TakesAnswer(x, e.asked, e.passes))
  }

  /** No event of the run loses an answer. */
  predicate NeverLoses(events: seq<Event>)
    decreases |events|
  {
    events == [] ||
    var before, e := events[..|events| - 1], events[|events| - 1];
    NeverLoses(before) && !Loses(Run(INIT, before), e)
  }

  /** Every question marked answered has its answer with the Worker if and only if
      no event of the run lost one. */
  lemma {:induction false} AllHandedOverIff(events: seq<Event>)
    ensures Run(INIT, events).answers.Keys <= Run(INIT, events).markers
    ensures Run(INIT, events).answers.Keys == Run(INIT, events).markers <==> NeverLoses(events)
    decreases |events|
  {
    hide Step, Loses;
    if events != [] {
      AllHandedOverIff(events[..|events| - 1]);
      HandOverStep(Run(INIT, events[..|events| - 1]), events[|events| - 1]);
    }
  }

  lemma HandOverStep(x: Exchange, e: Event)
    requires x.answers.Keys <= x.markers
    ensures Step(x, e).answers.Keys <= Step(x, e).markers
    ensures Step(x, e).answers.Keys == Step(x, e).markers <==> x.answers.Keys == x.markers && !Loses(x, e)
  {
    if x.answers.Keys != x.markers {
      var n :| n in x.markers && n !in x.answers.Keys;
      assert n in Step(x, e).markers && n !in Step(x, e).answers.Keys;
    } else if Loses(x, e) {
      var n := if e.AnswerLost? then e.number else e.asked;
      assert n in Step(x, e).markers && n !in Step(x, e).answers.Keys;
    }
  }

  /** The Worker's wait for question n: it looks until there is an answer or its
      time is over.  What it gets is the text that one answer of the run gave for n. */
  method AwaitAnswer(n: nat, looks: seq<Exchange>, clock: nat -> real, wait: real, ghost events: seq<Event>,
                     ghost at: seq<nat>)
    returns (text: Option<string>, used: nat)
    requires |at| == |looks| && forall k | 0 <= k < |looks| ::
               at[k] <= |events| && looks[k] == Run(INIT, events[..at[k]])
    ensures used <= |looks| && forall k | 0 <= k < used :: n !in looks[k].answers
    ensures text.Some? ==> used < |looks| && n in looks[used].answers && text.value == looks[used].answers[n]
    ensures text.Some? ==> exists i :: 0 <= i < |events| && Delivers(events, i, n) && events[i].text == text.value
    ensures text.None? && used < |looks| ==> used > 0 && clock(used) >= clock(0) + wait
  {
    text, used := None, 0;
    var end := clock(0) + wait;
    while used < |looks|
      invariant used <= |looks| && forall k | 0 <= k < used :: n !in looks[k].answers
    {
      if n in looks[used].answers {
        text := Some(looks[used].answers[n]);
        GivenOnce(events, at[used], n);
        return;
      }
      used := used + 1;
      if clock(used) >= end {
        return;
      }
    }
  }

  lemma GivenOnce(events: seq<Event>, m: nat, n: nat)
    requires m <= |events| && n in Run(INIT, events[..m]).answers
    ensures exists i ::
              0 <= i < |events| && Delivers(events, i, n) && events[i].text == Run(INIT, events[..m]).answers[n]
  {
    AnswerIsTheOneGiven(events[..m], n);
    var i :| 0 <= i < m && Delivers(events[..m], i, n) && events[..m][i].text == Run(INIT, events[..m]).answers[n];
    assert events[..m][..i] == events[..i];
    assert Delivers(events, i, n);
  }

  /** An answer whose broker died after the mark never reaches the Worker. */
  lemma {:induction false} LostAnswerStaysLost(x: Exchange, n: nat, events: seq<Event>)
    requires n in x.markers && n !in x.answers
    ensures n in Run(x, events).markers && n !in Run(x, events).answers
    decreases |events|
  {
    if events != [] {
      LostAnswerStaysLost(x, n, events[..|events| - 1]);
    }
  }
}
