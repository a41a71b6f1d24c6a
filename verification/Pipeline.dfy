/** Draft, verify, review, correct: what the status `verified` guarantees. */
module Pipeline {
  import opened Verifier
  import R = Reviewer

  /** What one worker run sent back. */
  datatype WorkerRun =
    | Refused
    | Stopped(paused: bool)
    | NoParse(output: seq<Sentence>)
    | Answer(claims: seq<Claim>, draft: seq<Sentence>)

  datatype Status = Blocked | Paused | Failed | Returned | NeedsReview | Verified

  datatype Setup = Setup(paragraphs: seq<string>, source: string, provider: string,
                         admitted: bool, localOnly: bool, reviewEnabled: bool)

  datatype Result = Result(status: Status, draft: seq<Sentence>, claims: seq<Claim>, corrections: nat)

  function Cap(maxCorrections: int): nat {
    if maxCorrections < 0 then 0 else maxCorrections
  }

  /** The run goes to review: every claim matches, there is a draft, and
      its citations are good or some sentence lacks one. */
  predicate Reviewable(c: Setup, run: WorkerRun) {
    && run.Answer? && Passed(c.paragraphs, c.source, run.claims) && run.draft != []
    && (NoBadCitation(run.draft, Anchored(run.claims)) || !AllCite(run.draft))
  }

  predicate Approved(c: Setup, run: WorkerRun, review: R.Review) {
    run.Answer? && review.By? && review.provider != c.provider && R.Approves(|run.claims|, review.reply)
  }

  predicate Objected(c: Setup, run: WorkerRun, review: R.Review) {
    run.Answer? && review.By? && review.provider != c.provider && R.Objects(|run.claims|, review.reply)
  }

  /** The loop reaches its k-th review: every run so far was fit for review and
      every review before was a list of issues. */
  ghost predicate Reaches(c: Setup, worker: nat -> WorkerRun, reviewer: nat -> R.Review, k: nat) {
    && (forall j | 0 <= j <= k :: Reviewable(c, worker(j)))
    && (forall j | 0 <= j < k :: Objected(c, worker(j), reviewer(j)))
  }

  ghost predicate VerifiedAt(c: Setup, worker: nat -> WorkerRun, reviewer: nat -> R.Review, k: nat) {
    Reaches(c, worker, reviewer, k) && Approved(c, worker(k), reviewer(k)) && AllCite(worker(k).draft)
  }

  /** Where the loop leaves a draft for a person: approved with an uncited
      sentence, or still with issues when no correction is left. */
  ghost predicate LeftAt(c: Setup, cap: nat, worker: nat -> WorkerRun, reviewer: nat -> R.Review, k: nat) {
    && Reaches(c, worker, reviewer, k)
    && ((Approved(c, worker(k), reviewer(k)) && !AllCite(worker(k).draft)) ||
        (k == cap && Objected(c, worker(k), reviewer(k))))
  }

  // ---- One worker run

  method ProcessWorkerResult(c: Setup, run: WorkerRun)
    returns (status: Status, claims: seq<Claim>, draft: seq<Sentence>, uncited: seq<Sentence>)
    requires !run.Refused?
    ensures status == NeedsReview <==> Reviewable(c, run)
    ensures status in {NeedsReview, Returned, Paused, Failed}
    ensures (status == Paused <==> run == Stopped(true)) && (status == Failed <==> run == Stopped(false))
    ensures run.Answer? && Passed(c.paragraphs, c.source, run.claims) && run.draft != [] ==>
              && ((exists s :: s in run.draft && s.cites == []) ==> status == NeedsReview)
              && ((forall s, cite | s in run.draft && cite in s.cites :: cite in Anchored(run.claims)) ==>
                    status == NeedsReview)
              && ((forall s | s in run.draft :: s.cites != []) &&
                  (exists s, cite :: s in run.draft && cite in s.cites && cite !in Anchored(run.claims)) ==>
                    status == Returned)
    ensures run.Stopped? ==> claims == [] && draft == []
    ensures run.NoParse? ==> claims == [] && draft == run.output
    ensures run.Answer? ==> claims == run.claims && draft == run.draft
    ensures Reviewable(c, run) ==> (uncited == [] <==> AllCite(run.draft))
  {
    claims, draft, uncited := [], [], [];
    if run.Stopped? {
      return if run.paused then Paused else Failed, claims, draft, uncited;
    }
    if run.NoParse? {
      return Returned, claims, run.output, uncited;
    }
    claims, draft := run.claims, run.draft;
    var rep := Verify(c.paragraphs, c.source, claims);
    status := if rep.checked > 0 && rep.checked == rep.matched then NeedsReview else Returned;
    if status == NeedsReview && draft == [] {
      status := Returned;
    }
    if status == NeedsReview {
      var bad, cited;
      uncited, bad, cited := CheckDraft(draft, Anchored(claims));
      if bad != {} {
        status := Returned;
      }
      if uncited != [] {
        status := NeedsReview;
      }
    }
  }

  // ---- Marking what stays unresolved

  /** The paragraphs of the claims a verdict rejects. */
  function RejectedParagraphs(claims: seq<Claim>, verdicts: seq<R.Verdict>): set<string> {
    set v, i | v in verdicts && 0 <= i < |claims| && v.ok == R.Bool(false) && R.IsInt(v.claim) && R.AsInt(v.claim) == i
               && claims[i].anchor.At? :: Decimal(Value(claims[i].anchor.digits))
  }

  predicate Cites(sentence: Sentence, unresolved: set<string>) {
    exists cite | cite in sentence.cites :: Decimal(Value(cite)) in unresolved
  }

  /** Marks the sentences that cite a rejected claim's paragraph, in any spelling
      of its number, and no others. */
  method MarkUnresolved(draft: seq<Sentence>, unresolved: set<string>) returns (marked: seq<Sentence>)
    ensures |marked| == |draft|
    ensures forall i | 0 <= i < |draft| ::
              marked[i] == if Cites(draft[i], unresolved) then draft[i].(unresolved := true) else draft[i]
  {
    if unresolved == {} {
      return draft;
    }
    marked := [];
    for i := 0 to |draft|
      invariant |marked| == i
      invariant forall k | 0 <= k < i ::
                  marked[k] == if Cites(draft[k], unresolved) then draft[k].(unresolved := true) else draft[k]
    {
      marked := marked + [if Cites(draft[i], unresolved) then draft[i].(unresolved := true) else draft[i]];
    }
  }

  /** The sentence cites the paragraph of a claim that a verdict rejects, in any spelling of its number. */
  predicate CitesRejected(claims: seq<Claim>, verdicts: seq<R.Verdict>, sentence: Sentence) {
    exists cite, v, i ::
      && cite in sentence.cites && v in verdicts && v.ok == R.Bool(false) && R.IsInt(v.claim) && R.AsInt(v.claim) == i
      && 0 <= i < |claims| && claims[i].anchor.At? && Value(claims[i].anchor.digits) == Value(cite)
  }

  lemma RejectedIsCited(claims: seq<Claim>, verdicts: seq<R.Verdict>, sentence: Sentence)
    ensures Cites(sentence, RejectedParagraphs(claims, verdicts)) <==> CitesRejected(claims, verdicts, sentence)
  {
    forall cite, i | cite in sentence.cites && 0 <= i < |claims| && claims[i].anchor.At?
      ensures Decimal(Value(cite)) == Decimal(Value(claims[i].anchor.digits)) <==>
              Value(cite) == Value(claims[i].anchor.digits)
    {
      ValueOfDecimal(Value(cite));
      ValueOfDecimal(Value(claims[i].anchor.digits));
    }
    hide Decimal, Value;
    if Cites(sentence, RejectedParagraphs(claims, verdicts)) {
      var cite :| cite in sentence.cites && Decimal(Value(cite)) in RejectedParagraphs(claims, verdicts);
      var v, i :| v in verdicts && 0 <= i < |claims| && v.ok == R.Bool(false)
                  && R.IsInt(v.claim) && R.AsInt(v.claim) == i
                  && claims[i].anchor.At? && Decimal(Value(claims[i].anchor.digits)) == Decimal(Value(cite));
      assert CitesRejected(claims, verdicts, sentence);
    }
  }

  /** Exactly the sentences that cite a rejected claim's paragraph are marked, and nothing else changed. */
  ghost predicate MarksRejected(claims: seq<Claim>, verdicts: seq<R.Verdict>, draft: seq<Sentence>,
                                marked: seq<Sentence>)
  {
    |marked| == |draft| && forall i | 0 <= i < |draft| ::
      marked[i] == if CitesRejected(claims, verdicts, draft[i]) then draft[i].(unresolved := true) else draft[i]
  }

  // ---- The loop

  /** The loop comes to worker run k: every run before was reviewed, and the review was a list of issues. */
  ghost predicate Came(c: Setup, cap: nat, worker: nat -> WorkerRun, reviewer: nat -> R.Review, k: nat) {
    && k <= cap && (k > 0 ==> !c.localOnly && c.reviewEnabled)
    && forall j | 0 <= j < k :: Reviewable(c, worker(j)) && Objected(c, worker(j), reviewer(j))
  }

  function DraftBefore(worker: nat -> WorkerRun, k: nat): seq<Sentence> {
    if k > 0 && worker(k - 1).Answer? then worker(k - 1).draft else []
  }

  /** Another provider reviewed the run's claims and rejected one of them or named an omission. */
  predicate AsksAgain(c: Setup, run: WorkerRun, review: R.Review) {
    && run.Answer? && review.By? && review.provider != c.provider && review.reply.Verdicts?
    && ((exists v :: v in review.reply.verdicts && v.ok == R.Bool(false)) || review.reply.omissions != [])
  }

  lemma CameAsking(c: Setup, cap: nat, worker: nat -> WorkerRun, reviewer: nat -> R.Review, k: nat)
    requires Came(c, cap, worker, reviewer, k)
    ensures forall j | 0 <= j < k :: AsksAgain(c, worker(j), reviewer(j))
  {}

  /** The result when the loop ends with this run: its status unless the review
      decides it, and its draft, marked where a rejected draft is left for a
      person.  A run that stopped leaves the draft before it. */
  ghost predicate Shows(c: Setup, run: WorkerRun, prior: seq<Sentence>, review: R.Review, r: Result) {
    && (r.status == Blocked <==> run.Refused?)
    && (r.status == Paused <==> run == Stopped(true)) && (r.status == Failed <==> run == Stopped(false))
    && match run
       case Refused => r.draft == [] && r.claims == []
       case Stopped(_) => r.draft == prior && r.claims == []
       case NoParse(output) => r.draft == output && r.claims == []
       case Answer(claims, draft) =>
         && r.claims == claims
         && if r.status == NeedsReview && Objected(c, run, review)
            then MarksRejected(claims, review.reply.verdicts, draft, r.draft) else r.draft == draft
  }

  /** The review of a run's claims. */
  method ReviewRun(c: Setup, run: WorkerRun, review: R.Review) returns (rv: R.Result)
    requires run.Answer?
    ensures rv.status == R.Ok <==> Approved(c, run, review)
    ensures rv.status == R.Issues <==> Objected(c, run, review)
    ensures rv.status == R.Issues ==> rv.verdicts == review.reply.verdicts
  {
    rv := R.ReviewClaims(|run.claims|, c.provider, review);
  }

  method MarkRejected(claims: seq<Claim>, verdicts: seq<R.Verdict>, draft: seq<Sentence>)
    returns (marked: seq<Sentence>)
    ensures MarksRejected(claims, verdicts, draft, marked)
  {
    marked := MarkUnresolved(draft, RejectedParagraphs(claims, verdicts));
    forall i | 0 <= i < |draft|
      ensures Cites(draft[i], RejectedParagraphs(claims, verdicts)) <==> CitesRejected(claims, verdicts, draft[i])
    {
      RejectedIsCited(claims, verdicts, draft[i]);
    }
    hide Cites, CitesRejected;
  }

  /** Verified, or left for a person, exactly if some review within the cap says so, and
      then by the last run's review. */
  ghost predicate Decided(c: Setup, cap: nat, worker: nat -> WorkerRun, reviewer: nat -> R.Review, status: Status,
                          k: nat)
  {
    && (status == Verified <==> exists j: nat :: j <= cap && VerifiedAt(c, worker, reviewer, j))
    && (status == NeedsReview <==> exists j: nat :: j <= cap && LeftAt(c, cap, worker, reviewer, j))
    && (status == Verified ==> VerifiedAt(c, worker, reviewer, k))
    && (status == NeedsReview ==> LeftAt(c, cap, worker, reviewer, k))
  }

  /** The loop ends at a run that is not fit for review. */
  lemma EndsUnfit(c: Setup, cap: nat, worker: nat -> WorkerRun, reviewer: nat -> R.Review, k: nat, status: Status)
    requires !Reviewable(c, worker(k)) && status != Verified && status != NeedsReview
    requires k > 0 ==> Reaches(c, worker, reviewer, k - 1) && k <= cap && Objected(c, worker(k - 1), reviewer(k - 1))
    ensures Decided(c, cap, worker, reviewer, status, k) && (k > 0 ==> Reaches(c, worker, reviewer, k - 1))
  {
    if k > 0 {
      ReachesOneEnd(c, cap, worker, reviewer, k - 1);
    }
    hide Reviewable, Approved, Objected, AllCite;
  }

  /** The loop ends with the review of run k. */
  lemma EndsReviewed(c: Setup, cap: nat, worker: nat -> WorkerRun, reviewer: nat -> R.Review, k: nat, status: Status)
    requires Reaches(c, worker, reviewer, k) && k <= cap
    requires status == Verified <==> Approved(c, worker(k), reviewer(k)) && AllCite(worker(k).draft)
    requires status == NeedsReview <==> || (Approved(c, worker(k), reviewer(k)) && !AllCite(worker(k).draft))
                                        || Objected(c, worker(k), reviewer(k))
    requires Objected(c, worker(k), reviewer(k)) ==> k == cap
    ensures Decided(c, cap, worker, reviewer, status, k)
  {
    hide Reviewable, Approved, Objected, AllCite;
    ReachesOneEnd(c, cap, worker, reviewer, k);
    assert status == Verified ==> VerifiedAt(c, worker, reviewer, k);
    assert status == NeedsReview ==> LeftAt(c, cap, worker, reviewer, k);
    forall j: nat | j <= cap ensures VerifiedAt(c, worker, reviewer, j) ==> status == Verified
                             ensures LeftAt(c, cap, worker, reviewer, j) ==> status == NeedsReview
    {}
  }

  /** Verified exactly when some review within the cap was reached and approved a
      fully cited draft; the result then is that draft with its claims.  Every other
      end is that of the run the loop came to last. */
  method Brief(c: Setup, maxCorrections: int, worker: nat -> WorkerRun, reviewer: nat -> R.Review)
    returns (r: Result, workers: nat, reviews: nat)
    ensures !c.admitted ==> r == Result(Blocked, [], [], 0) && workers == 0
    ensures c.admitted ==>
              && Came(c, Cap(maxCorrections), worker, reviewer, r.corrections) && workers == 1 + r.corrections
              && Shows(c, worker(r.corrections), DraftBefore(worker, r.corrections), reviewer(r.corrections), r)
    ensures r.corrections <= reviews <= 1 + r.corrections
    ensures r.status in {Verified, NeedsReview} ==> reviews == workers
    ensures 0 == r.corrections || r.corrections <= maxCorrections
    ensures forall j | 0 <= j < r.corrections :: AsksAgain(c, worker(j), reviewer(j))
    ensures r.status == NeedsReview && worker(r.corrections).Answer? && AllCite(worker(r.corrections).draft) ==>
              r.corrections >= maxCorrections
    ensures c.admitted && !c.localOnly && c.reviewEnabled ==>
              Decided(c, Cap(maxCorrections), worker, reviewer, r.status, r.corrections)
    ensures !c.admitted || c.localOnly || !c.reviewEnabled ==> r.status != Verified && r.status != NeedsReview
  {
    workers, reviews := 0, 0;
    if !c.admitted {
      return Result(Blocked, [], [], 0), workers, reviews;
    }
    workers := 1;
    var cap := Cap(maxCorrections);
    hide Reviewable, Approved, Objected, AllCite, Decided;
    if worker(0).Refused? {
      Unfit(c, worker(0));
      EndsUnfit(c, cap, worker, reviewer, 0, Blocked);
      return Result(Blocked, [], [], 0), workers, reviews;
    }
    var status, claims, draft, uncited := ProcessWorkerResult(c, worker(0));
    if status != NeedsReview {
      EndsUnfit(c, cap, worker, reviewer, 0, status);
      return Result(status, draft, claims, 0), workers, reviews;
    }
    Unfit(c, worker(0));
    if c.localOnly || !c.reviewEnabled {
      return Result(Returned, draft, claims, 0), workers, reviews;
    }
    r, workers, reviews := Correct(c, cap, worker, reviewer, uncited);
    CameAsking(c, cap, worker, reviewer, r.corrections);
    LeftUncited(c, cap, worker, reviewer, r);
  }

  /** What is left for a person though fully cited has used up the corrections. */
  lemma LeftUncited(c: Setup, cap: nat, worker: nat -> WorkerRun, reviewer: nat -> R.Review, r: Result)
    requires Decided(c, cap, worker, reviewer, r.status, r.corrections)
    ensures r.status == NeedsReview && AllCite(worker(r.corrections).draft) ==> r.corrections == cap
  {
    hide Reviewable, Approved, Objected;
  }

  lemma Unfit(c: Setup, run: WorkerRun)
    ensures Reviewable(c, run) ==> run.Answer?
  {}

  /** Review and correct, from a first run that is fit for review. */
  method Correct(c: Setup, cap: nat, worker: nat -> WorkerRun, reviewer: nat -> R.Review, first: seq<Sentence>)
    returns (r: Result, workers: nat, reviews: nat)
    requires !c.localOnly && c.reviewEnabled && Reviewable(c, worker(0)) && (first == [] <==> AllCite(worker(0).draft))
    ensures Came(c, cap, worker, reviewer, r.corrections) && workers == 1 + r.corrections
    ensures Shows(c, worker(r.corrections), DraftBefore(worker, r.corrections), reviewer(r.corrections), r)
    ensures r.corrections <= reviews <= 1 + r.corrections
    ensures r.status in {Verified, NeedsReview} ==> reviews == workers
    ensures Decided(c, cap, worker, reviewer, r.status, r.corrections)
  {
    hide Reviewable, Approved, Objected, AllCite, Decided, MarksRejected;
    Unfit(c, worker(0));
    var status, claims, draft, uncited := NeedsReview, worker(0).claims, worker(0).draft, first;
    var corrections := 0;
    workers, reviews := 1, 0;
    while true
      invariant corrections <= cap && workers == 1 + corrections && reviews == corrections
      invariant Reaches(c, worker, reviewer, corrections) && worker(corrections).Answer?
      invariant claims == worker(corrections).claims && draft == worker(corrections).draft
      invariant uncited == [] <==> AllCite(worker(corrections).draft)
      decreases cap - corrections
    {
      var rv := ReviewRun(c, worker(corrections), reviewer(corrections));
      reviews := reviews + 1;
      if rv.status != R.Issues || corrections >= cap {
        status := if rv.status == R.Issues || (rv.status == R.Ok && uncited != []) then NeedsReview
                  else if rv.status == R.Ok then Verified else Returned;
        if rv.status == R.Issues {
          draft := MarkRejected(claims, rv.verdicts, draft);
        }
        EndsReviewed(c, cap, worker, reviewer, corrections, status);
        return Result(status, draft, claims, corrections), workers, reviews;
      }
      corrections := corrections + 1;
      workers := workers + 1;
      var prior := draft;
      Unfit(c, worker(corrections));
      if worker(corrections).Refused? {
        EndsUnfit(c, cap, worker, reviewer, corrections, Blocked);
        return Result(Blocked, [], [], corrections), workers, reviews;
      }
      status, claims, draft, uncited := ProcessWorkerResult(c, worker(corrections));
      if status != NeedsReview {
        EndsUnfit(c, cap, worker, reviewer, corrections, status);
        return Result(status, if status.Returned? then draft else prior, claims, corrections), workers, reviews;
      }
    }
  }

  /** When the loop reaches review k, no earlier one can have ended it, and a
      later one needs issues here and a fit run next. */
  lemma ReachesOneEnd(c: Setup, cap: nat, worker: nat -> WorkerRun, reviewer: nat -> R.Review, k: nat)
    requires Reaches(c, worker, reviewer, k) && k <= cap
    ensures forall j: nat :: VerifiedAt(c, worker, reviewer, j) || LeftAt(c, cap, worker, reviewer, j) ==>
              j >= k && (j > k ==> Objected(c, worker(k), reviewer(k)) && Reviewable(c, worker(k + 1)))
    ensures !(Approved(c, worker(k), reviewer(k)) && Objected(c, worker(k), reviewer(k)))
  {
    forall i: nat ensures !(Approved(c, worker(i), reviewer(i)) && Objected(c, worker(i), reviewer(i))) {
    }
  }

  // ---- What verified means

  /** The sentence's citations each name a paragraph in which a claim's quote stands. */
  predicate WellCited(c: Setup, claims: seq<Claim>, cite: string) {
    exists i ::
      0 <= i < |claims| && Matches(c.paragraphs, c.source, claims[i]) && Value(claims[i].anchor.digits) == Value(cite)
  }

  predicate ApprovesClaim(verdicts: seq<R.Verdict>, i: nat) {
    exists v :: v in verdicts && v.ok == R.Bool(true) && R.AsInt(v.claim) == i
  }

  /** From `verified` alone: there are claims and each quote stands in its
      paragraph, as whole words; every sentence cites, and each citation names a paragraph some
      claim quotes; another provider approved each claim and named no omission. */
  lemma VerifiedMeans(c: Setup, worker: nat -> WorkerRun, reviewer: nat -> R.Review, k: nat)
    requires VerifiedAt(c, worker, reviewer, k)
    ensures var run, review := worker(k), reviewer(k);
            && run.claims != [] && (forall i | 0 <= i < |run.claims| :: Matches(c.paragraphs, c.source, run.claims[i]))
            && (forall i | 0 <= i < |run.claims| :: StandsInPlace(c.paragraphs, c.source, run.claims[i]))
            && run.draft != []
            && (forall s | s in run.draft ::
                  s.cites != [] && forall cite | cite in s.cites :: WellCited(c, run.claims, cite))
            && review.provider != c.provider && review.reply.omissions == []
            && |review.reply.verdicts| == |run.claims|
            && (forall i | 0 <= i < |run.claims| :: ApprovesClaim(review.reply.verdicts, i))
  {
    var run, review := worker(k), reviewer(k);
    forall i | 0 <= i < |run.claims| ensures StandsInPlace(c.paragraphs, c.source, run.claims[i]) {
      MatchStands(c.paragraphs, c.source, run.claims[i]);
    }
    forall s, cite | s in run.draft && cite in s.cites ensures WellCited(c, run.claims, cite) {
      assert CitesOnly(s, Anchored(run.claims));
      CiteIsAnchored(run.claims, cite);
    }
    var verdicts := review.reply.verdicts;
    var n := |run.claims|;
    assert |multiset(R.Ids(verdicts))| == |multiset(R.Range(n))|;
    forall i | 0 <= i < n ensures ApprovesClaim(verdicts, i) {
      assert R.Range(n)[i] == i && i in multiset(R.Range(n));
      assert i in R.Ids(verdicts);
      var j :| 0 <= j < |verdicts| && R.Ids(verdicts)[j] == i;
      assert verdicts[j] in verdicts;
    }
  }
}
