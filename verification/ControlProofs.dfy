/** What every interleaving of gateway dispatches keeps. */
module ControlProofs {
  import opened Options
  import opened ControlSpec

  // ---- The lease

  ghost predicate LeaseKept(reqs: seq<Request>, s: Sys) {
    && |s.phases| == |reqs|
    && (s.db.lease.Some? <==> s.owner.Some?)
    && (s.owner.Some? ==> s.owner.value < |reqs| && s.db.lease == Some(reqs[s.owner.value].run))
    && (forall i | 0 <= i < |reqs| && Holds(s.phases[i]) :: s.owner == Some(i))
    && (s.owner.Some? ==>
          var p := s.phases[s.owner.value]; Holds(p) || p.Gone? || (p.Done? && s.owner.value in s.leaked))
    && (forall i | i in s.leaked :: s.owner == Some(i) && s.phases[i].Done?)
  }

  /** What one transaction does to the lease: only a granted reservation takes
      it, only its holder gives it back. */
  lemma AdvanceLease(req: Request, db: Db, p: Phase, luck: Luck)
    requires Holds(p) ==> db.lease == Some(req.run)
    ensures var (db', p') := Advance(req, db, p, luck);
            && (p.Ready? && p'.Reserved? ==> db.lease.None? && db'.lease == Some(req.run))
            && (Holds(p') && !Holds(p) ==> p.Ready? && p'.Reserved?)
            && (!Holds(p) && !Holds(p') ==> db'.lease == db.lease)
            && (Holds(p) && Holds(p') ==> db'.lease == db.lease)
            && (Holds(p) && !Holds(p') ==> p'.Done? && db'.lease == if Releasing in luck.faults then db.lease else None)
            && (p.Gone? || p.Done? ==> p' == p && db' == db)
            && (p.Begin? && p'.Claimed? ==> !Holds(p'))
  {}

  lemma StepKeepsLease(reqs: seq<Request>, s: Sys, e: Event)
    requires LeaseKept(reqs, s)
    ensures LeaseKept(reqs, Step(reqs, s, e))
  {
    if e.Go? && e.i < |reqs| {
      AdvanceLease(reqs[e.i], s.db, s.phases[e.i], e.luck);
      hide Advance;
    }
  }

  /** At most one worker is in flight in the workspace, and a dispatch that has
      returned does not hold the lease unless its own releasing transaction failed. */
  lemma {:induction false} OneInFlight(reqs: seq<Request>, events: seq<Event>)
    ensures LeaseKept(reqs, Run(reqs, events))
    ensures forall i, j | 0 <= i < |reqs| && 0 <= j < |reqs| ::
              Holds(Run(reqs, events).phases[i]) && Holds(Run(reqs, events).phases[j]) ==> i == j
    ensures forall i | 0 <= i < |reqs| && Run(reqs, events).phases[i].Done? && i !in Run(reqs, events).leaked ::
              Run(reqs, events).owner != Some(i)
    decreases |events|
  {
    if events != [] {
      OneInFlight(reqs, events[..|events| - 1]);
      StepKeepsLease(reqs, Run(reqs, events[..|events| - 1]), events[|events| - 1]);
    }
  }

  /** When every dispatch has returned and no release failed, the lease is free. */
  lemma AllReturnedLeaseIsFree(reqs: seq<Request>, events: seq<Event>)
    requires forall i | 0 <= i < |reqs| :: Run(reqs, events).phases[i].Done?
    requires Run(reqs, events).leaked == {}
    ensures Run(reqs, events).db.lease.None?
  {
    OneInFlight(reqs, events);
  }

  /** While its owner will make no further step the lease stays taken: whatever the
      other dispatches do, no worker is invoked. */
  lemma {:induction false} StrandedStays(reqs: seq<Request>, events: seq<Event>, i: nat, more: seq<Event>)
    requires i < |reqs| && Run(reqs, events).owner == Some(i)
    requires Run(reqs, events).phases[i].Gone? || Run(reqs, events).phases[i].Done?
    ensures var s, s' := Run(reqs, events), Run(reqs, events + more);
            s'.invoked == s.invoked && s'.db.lease == Some(reqs[i].run) && s'.phases[i] == s.phases[i]
              && s'.owner == Some(i)
    decreases |more|
  {
    OneInFlight(reqs, events);
    if more == [] {
      assert events + more == events;
    } else {
      var n := |more| - 1;
      var all := events + more;
      StrandedStays(reqs, events, i, more[..n]);
      assert all[..|all| - 1] == events + more[..n];
      OneInFlight(reqs, all[..|all| - 1]);
      StrandedStep(reqs, Run(reqs, all[..|all| - 1]), more[n], i);
      hide Step, LeaseKept;
    }
  }

  lemma StrandedStep(reqs: seq<Request>, s: Sys, e: Event, i: nat)
    requires LeaseKept(reqs, s) && i < |reqs| && s.owner == Some(i) && (s.phases[i].Gone? || s.phases[i].Done?)
    ensures var s' := Step(reqs, s, e);
            && |s'.phases| == |reqs| && s'.phases[i] == s.phases[i]
            && s'.invoked == s.invoked && s'.db.lease == s.db.lease && s'.owner == s.owner
  {
    if e.Go? && e.i < |reqs| {
      assert !Holds(s.phases[e.i]);
      AdvanceLease(reqs[e.i], s.db, s.phases[e.i], e.luck);
      hide Advance;
    }
  }

  /** A dispatch that dies holding the lease strands the workspace. */
  lemma DeadHolderStrands(reqs: seq<Request>, events: seq<Event>, i: nat, more: seq<Event>)
    requires i < |reqs| && Holds(Run(reqs, events).phases[i])
    ensures var s, s' := Run(reqs, events), Run(reqs, events + [Stop(i)] + more);
            s'.invoked == s.invoked && s'.db.lease == Some(reqs[i].run) && s'.phases[i].Gone? && s'.owner == Some(i)
  {
    OneInFlight(reqs, events);
    assert (events + [Stop(i)])[..|events|] == events;
    StrandedStays(reqs, events + [Stop(i)], i, more);
  }

  /** So does one that returned though its releasing transaction failed; there is at most one such. */
  lemma FailedReleaseStrands(reqs: seq<Request>, events: seq<Event>, i: nat, more: seq<Event>)
    requires i in Run(reqs, events).leaked
    ensures i < |reqs| && Run(reqs, events).leaked == {i}
    ensures var s, s' := Run(reqs, events), Run(reqs, events + more);
            s'.invoked == s.invoked && s'.db.lease == Some(reqs[i].run) && s'.phases[i].Done? && s'.owner == Some(i)
  {
    OneInFlight(reqs, events);
    StrandedStays(reqs, events, i, more);
    assert forall k | k in Run(reqs, events).leaked :: k == i;
  }

  // ---- Messages

  /** The dispatch has won its message and may still invoke its worker. */
  predicate Awaits(p: Phase) {
    p.Claimed? || p.Measured? || p.Judged? || p.Recorded? || p.Ready? || p.Reserved? || p.Armed?
  }

  predicate Claims(reqs: seq<Request>, s: Sys, i: nat)
    requires i < |reqs|
  {
    reqs[i].message in s.claimer && s.claimer[reqs[i].message] == i
  }

  ghost predicate MessagesKept(reqs: seq<Request>, s: Sys) {
    && |s.phases| == |reqs|
    && s.claimer.Keys == s.db.replay.Keys
    && (forall m | m in s.claimer :: s.claimer[m] < |reqs| && reqs[s.claimer[m]].message == m &&
                                     s.db.replay[m].hash == reqs[s.claimer[m]].hash)
    && (forall i | 0 <= i < |reqs| && (Awaits(s.phases[i]) || Holds(s.phases[i])) :: Claims(reqs, s, i))
    && (forall k | 0 <= k < |s.invoked| ::
          s.invoked[k] < |reqs| && Claims(reqs, s, s.invoked[k]) &&
          !Awaits(s.phases[s.invoked[k]]) && !s.phases[s.invoked[k]].Begin?)
    && (forall i, j | 0 <= i < j < |s.invoked| :: s.invoked[i] != s.invoked[j])
  }

  lemma AdvanceMessages(req: Request, db: Db, p: Phase, luck: Luck)
    ensures var (db', p') := Advance(req, db, p, luck);
            && (p.Begin? && p'.Claimed? ==> req.message !in db.replay &&
                                            db'.replay == db.replay[req.message := Claim(req.hash, None)])
            && (!(p.Begin? && p'.Claimed?) && (p.Counted? ==> req.message in db.replay) ==>
                  db'.replay.Keys == db.replay.Keys &&
                  forall m | m in db.replay :: db'.replay[m].hash == db.replay[m].hash)
            && (Awaits(p') || Holds(p') ==> Awaits(p) || Holds(p) || (p.Begin? && p'.Claimed?))
            && (Awaits(p') && !p'.Claimed? ==> Awaits(p))
            && (p'.Begin? ==> p.Begin?) && (p'.Claimed? ==> p.Begin?)
  {}

  /** What a step of dispatch i does to the claims. */
  lemma ClaimsMove(reqs: seq<Request>, s: Sys, e: Event)
    requires MessagesKept(reqs, s) && e.Go? && e.i < |reqs|
    ensures var i, s' := e.i, Step(reqs, s, e);
            && |s'.phases| == |reqs| && (forall j | 0 <= j < |reqs| && j != i :: s'.phases[j] == s.phases[j])
            && s'.claimer.Keys == s'.db.replay.Keys
            && (forall m | m in s'.claimer :: s'.claimer[m] < |reqs| && reqs[s'.claimer[m]].message == m &&
                                              s'.db.replay[m].hash == reqs[s'.claimer[m]].hash)
            && (forall j | 0 <= j < |reqs| && Claims(reqs, s, j) :: Claims(reqs, s', j))
            && (Awaits(s'.phases[i]) || Holds(s'.phases[i]) ==> Claims(reqs, s', i))
            && (s'.phases[i].Begin? ==> s.phases[i].Begin?)
            && (Awaits(s'.phases[i]) && !s.phases[i].Begin? ==> Awaits(s.phases[i]))
            && (s'.invoked == s.invoked ||
                (s'.invoked == s.invoked + [i] && Awaits(s.phases[i]) && !Awaits(s'.phases[i]) && !s'.phases[i].Begin?))
  {
    var i, p, req := e.i, s.phases[e.i], reqs[e.i];
    AdvanceMessages(req, s.db, p, e.luck);
    assert p.Counted? ==> Claims(reqs, s, i);
    ArmedToRunning(p, Advance(req, s.db, p, e.luck).1);
    hide Advance, Awaits, Holds;
  }

  lemma ArmedToRunning(p: Phase, p': Phase)
    ensures p.Armed? && p'.Running? ==> Awaits(p) && !Awaits(p') && !p'.Begin?
    ensures p.Counted? ==> Holds(p)
  {}

  lemma StepKeepsMessages(reqs: seq<Request>, s: Sys, e: Event)
    requires MessagesKept(reqs, s)
    ensures MessagesKept(reqs, Step(reqs, s, e))
  {
    if e.Go? && e.i < |reqs| {
      ClaimsMove(reqs, s, e);
      var s' := Step(reqs, s, e);
      hide Step, Awaits, Holds, Claims;
      forall k | 0 <= k < |s'.invoked|
        ensures s'.invoked[k] < |reqs| && Claims(reqs, s', s'.invoked[k]) &&
                !Awaits(s'.phases[s'.invoked[k]]) && !s'.phases[s'.invoked[k]].Begin?
      {
        if k < |s.invoked| {
          assert s'.invoked[k] == s.invoked[k];
        }
      }
    }
  }

  /** A worker is invoked at most once per message, by the dispatch that claimed
      it; the claim keeps that dispatch's envelope hash. */
  lemma {:induction false} OncePerMessage(reqs: seq<Request>, events: seq<Event>)
    ensures MessagesKept(reqs, Run(reqs, events))
    ensures forall j, k | 0 <= j < |Run(reqs, events).invoked| && 0 <= k < |Run(reqs, events).invoked| ::
              var a, b := Run(reqs, events).invoked[j], Run(reqs, events).invoked[k];
              a < |reqs| && b < |reqs| && (reqs[a].message == reqs[b].message ==> j == k)
    decreases |events|
  {
    if events != [] {
      OncePerMessage(reqs, events[..|events| - 1]);
      StepKeepsMessages(reqs, Run(reqs, events[..|events| - 1]), events[|events| - 1]);
    }
  }
}
