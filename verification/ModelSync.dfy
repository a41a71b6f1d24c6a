/** Promoting the codex slugs of the routing tiers to the newest cached versions. */
module ModelSync {
  import opened Options
  import opened Ordering
  import opened Versions

  datatype Persona = Astra | Sol | Terra | Luna
  datatype Parsed = Parsed(version: Version, persona: Persona)
  datatype Best = Best(version: seq<nat>, slug: string)
  datatype Entry = Entry(provider: string, tier: string, rest: string)
  datatype Promotion = Promotion(persona: Persona, tier: string, was: string, now: string)

  type Parser = string -> Option<Parsed>

  const PERSONA_ORDER := [Astra, Sol, Terra, Luna]

  function TierOf(p: Persona): string {
    match p case Astra => "executive" case Sol => "orchestrator" case Terra => "workhorse" case Luna => "grunt"
  }

  lemma AllInOrder()
    ensures forall p :: p in PERSONA_ORDER[..4]
  {
    assert PERSONA_ORDER[..4] == PERSONA_ORDER;
    forall p ensures p in PERSONA_ORDER {
      match p {
        case Astra => assert PERSONA_ORDER[0] == p;
        case Sol => assert PERSONA_ORDER[1] == p;
        case Terra => assert PERSONA_ORDER[2] == p;
        case Luna => assert PERSONA_ORDER[3] == p;
      }
    }
  }

  lemma TiersDiffer(p: Persona, q: Persona)
    ensures TierOf(p) == TierOf(q) ==> p == q
  {
    assert TierOf(Astra)[0] == 'e' && TierOf(Sol)[0] == 'o' && TierOf(Terra)[0] == 'w' && TierOf(Luna)[0] == 'g';
  }

  /** The stripped version of a slug; a name that is no codex slug comes before all. */
  function SlugVersion(parse: Parser, slug: string): seq<nat> {
    if parse(slug).Some? then Strip(parse(slug).value.version) else []
  }

  // ---- The best cached slug

  function AddBest(parse: Parser, best: map<Persona, Best>, slug: string): map<Persona, Best> {
    if parse(slug).None? then best
    else
      var p, v := parse(slug).value.persona, SlugVersion(parse, slug);
      if p !in best || Less(best[p].version, v) then best[p := Best(v, slug)] else best
  }

  function BestOf(parse: Parser, cache: seq<string>): map<Persona, Best> {
    if cache == [] then map[] else AddBest(parse, BestOf(parse, cache[..|cache| - 1]), cache[|cache| - 1])
  }

  /** The best of a persona is a cached slug of its own, and no cached one is newer. */
  lemma {:induction false} BestIsNewest(parse: Parser, cache: seq<string>, p: Persona)
    ensures var best := BestOf(parse, cache);
            && (p in best <==> exists s :: s in cache && parse(s).Some? && parse(s).value.persona == p)
            && (p in best ==>
                  && best[p].slug in cache && best[p].version == SlugVersion(parse, best[p].slug)
                  && parse(best[p].slug).Some? && parse(best[p].slug).value.persona == p
                  && forall s | s in cache && parse(s).Some? && parse(s).value.persona == p ::
                       !Less(best[p].version, SlugVersion(parse, s)))
  {
    if cache != [] {
      var front, last := cache[..|cache| - 1], cache[|cache| - 1];
      BestIsNewest(parse, front, p);
      assert cache == front + [last];
      var was, best := BestOf(parse, front), BestOf(parse, cache);
      if p in was && parse(last).Some? && parse(last).value.persona == p {
        var v := SlugVersion(parse, last);
        forall s | s in cache && parse(s).Some? && parse(s).value.persona == p
          ensures !Less(best[p].version, SlugVersion(parse, s))
        {
          LessTotal(v, v);
          LessTotal(was[p].version, v);
          if Less(was[p].version, v) && s in front {
            StaysNewest(SlugVersion(parse, s), was[p].version, v);
          }
        }
      } else if parse(last).Some? && parse(last).value.persona == p {
        LessTotal(SlugVersion(parse, last), SlugVersion(parse, last));
      }
    }
  }

  lemma StaysNewest(s: seq<int>, was: seq<int>, now: seq<int>)
    requires !Less(was, s) && Less(was, now)
    ensures !Less(now, s)
  {
    LessTotal(was, s);
    LessTotal(now, s);
    if Less(now, s) {
      LessTransitive(was, now, s);
    }
  }

  // ---- Promotion

  /** The persona's tier routes to a slug older than the best, unless pinned or not editable. */
  predicate Promotes(parse: Parser, best: map<Persona, Best>, routing: map<string, string>, pinned: set<Persona>,
                     editable: set<string>, p: Persona) {
    && p in best && TierOf(p) in routing && routing[TierOf(p)] != ""
    && Less(SlugVersion(parse, routing[TierOf(p)]), best[p].version) && best[p].slug != routing[TierOf(p)]
    && p !in pinned && TierOf(p) in editable
  }

  function PersonaOf(tier: string): Option<Persona> {
    if tier == TierOf(Astra) then Some(Astra) else if tier == TierOf(Sol) then Some(Sol)
    else if tier == TierOf(Terra) then Some(Terra) else if tier == TierOf(Luna) then Some(Luna) else None
  }

  lemma PersonaOfTier(p: Persona)
    ensures PersonaOf(TierOf(p)) == Some(p)
    ensures forall tier :: PersonaOf(tier) == Some(p) ==> tier == TierOf(p)
  {
    TiersDiffer(p, Astra);
    TiersDiffer(p, Sol);
    TiersDiffer(p, Terra);
    TiersDiffer(p, Luna);
  }

  function Promoted(parse: Parser, best: map<Persona, Best>, routing: map<string, string>, pinned: set<Persona>,
                    editable: set<string>): (r: map<string, string>)
    ensures r.Keys == routing.Keys
  {
    map tier | tier in routing ::
      var p := PersonaOf(tier);
      if p.Some? && Promotes(parse, best, routing, pinned, editable, p.value) then best[p.value].slug else routing[tier]
  }

  /** The routing once the given personas were looked at. */
  function PromotedAmong(parse: Parser, best: map<Persona, Best>, routing: map<string, string>, pinned: set<Persona>,
                         editable: set<string>, among: seq<Persona>): (r: map<string, string>)
  {
    map tier | tier in routing ::
      var p := PersonaOf(tier);
      if p.Some? && p.value in among && Promotes(parse, best, routing, pinned, editable, p.value)
      then best[p.value].slug else routing[tier]
  }

  lemma PromoteNext(parse: Parser, best: map<Persona, Best>, routing: map<string, string>, pinned: set<Persona>,
                    editable: set<string>, i: nat)
    requires i < 4
    ensures var was := PromotedAmong(parse, best, routing, pinned, editable, PERSONA_ORDER[..i]);
            var now := PromotedAmong(parse, best, routing, pinned, editable, PERSONA_ORDER[..i + 1]);
            var p := PERSONA_ORDER[i];
            if Promotes(parse, best, routing, pinned, editable, p)
            then p in best && TierOf(p) in routing && now == was[TierOf(p) := best[p].slug]
            else now == was
  {
    assert PERSONA_ORDER[..i + 1] == PERSONA_ORDER[..i] + [PERSONA_ORDER[i]];
    assert PERSONA_ORDER[i] !in PERSONA_ORDER[..i];
    hide *;
    PromoteOneMore(parse, best, routing, pinned, editable, PERSONA_ORDER[..i], PERSONA_ORDER[i]);
  }

  lemma PromoteOneMore(parse: Parser, best: map<Persona, Best>, routing: map<string, string>, pinned: set<Persona>,
                       editable: set<string>, among: seq<Persona>, p: Persona)
    requires p !in among
    ensures var was := PromotedAmong(parse, best, routing, pinned, editable, among);
            var now := PromotedAmong(parse, best, routing, pinned, editable, among + [p]);
            if Promotes(parse, best, routing, pinned, editable, p)
            then p in best && TierOf(p) in routing && now == was[TierOf(p) := best[p].slug]
            else now == was
  {
    hide PersonaOf, TierOf, Less, SlugVersion;
    PersonaOfTier(p);
    assert forall q :: q in among + [p] <==> q in among || q == p;
    assert Promotes(parse, best, routing, pinned, editable, p) ==> p in best && TierOf(p) in routing;
    hide Promotes;
  }

  lemma PromotedAmongAll(parse: Parser, best: map<Persona, Best>, routing: map<string, string>, pinned: set<Persona>,
                         editable: set<string>)
    ensures PromotedAmong(parse, best, routing, pinned, editable, PERSONA_ORDER[..4]) ==
            Promoted(parse, best, routing, pinned, editable)
    ensures PromotedAmong(parse, best, routing, pinned, editable, PERSONA_ORDER[..0]) == routing
  {
    AllInOrder();
    hide Promotes, PersonaOf;
  }

  /** The promotion says what its tier routed to and routes to now. */
  predicate Records(pr: Promotion, routing: map<string, string>, edited: map<string, string>) {
    && pr.tier == TierOf(pr.persona) && pr.tier in routing && pr.tier in edited
    && edited[pr.tier] == pr.now && routing[pr.tier] == pr.was
  }

  lemma KeepRecords(promotions: seq<Promotion>, pr: Promotion, routing: map<string, string>,
                    edited: map<string, string>, i: nat)
    requires i < 4 && pr.persona == PERSONA_ORDER[i] && pr.tier == TierOf(pr.persona)
    requires pr.tier in routing && routing[pr.tier] == pr.was
    requires forall q | q in promotions :: Records(q, routing, edited) && q.persona in PERSONA_ORDER[..i]
    ensures forall q | q in promotions + [pr] ::
              Records(q, routing, edited[pr.tier := pr.now]) && q.persona in PERSONA_ORDER[..i + 1]
  {
    assert PERSONA_ORDER[i] !in PERSONA_ORDER[..i];
    forall q | q in promotions + [pr]
      ensures Records(q, routing, edited[pr.tier := pr.now]) && q.persona in PERSONA_ORDER[..i + 1]
    {
      if q in promotions {
        TiersDiffer(q.persona, pr.persona);
      } else {
        assert q == pr && PERSONA_ORDER[..i + 1][i] == pr.persona;
      }
    }
  }

  /** No tier's version falls, and a slug that changes becomes strictly newer. */
  lemma NeverLowers(parse: Parser, cache: seq<string>, routing: map<string, string>, pinned: set<Persona>,
                    editable: set<string>, tier: string)
    requires tier in routing
    ensures var now := Promoted(parse, BestOf(parse, cache), routing, pinned, editable)[tier];
            && !Less(SlugVersion(parse, now), SlugVersion(parse, routing[tier]))
            && (now != routing[tier] ==>
                  Less(SlugVersion(parse, routing[tier]), SlugVersion(parse, now)) && now in cache)
  {
    var was := SlugVersion(parse, routing[tier]);
    LessTotal(was, was);
    var p := PersonaOf(tier);
    if p.Some? {
      PersonaOfTier(p.value);
      BestIsNewest(parse, cache, p.value);
      LessTotal(was, SlugVersion(parse, Promoted(parse, BestOf(parse, cache), routing, pinned, editable)[tier]));
    }
  }

  /** After a promotion nothing is left to promote. */
  lemma PromotedIsSettled(parse: Parser, best: map<Persona, Best>, routing: map<string, string>, pinned: set<Persona>,
                          editable: set<string>, p: Persona)
    ensures !Promotes(parse, best, Promoted(parse, best, routing, pinned, editable), pinned, editable, p)
  {
    PersonaOfTier(p);
  }

  /** Where the sync left nothing to promote, the padded order of the catalogue
      finds no newer cached slug of the persona either, up to eight parts. */
  lemma SettledMeansNoDrift(parse: Parser, cache: seq<string>, routing: map<string, string>, pinned: set<Persona>,
                            editable: set<string>, p: Persona, slug: string)
    requires !Promotes(parse, BestOf(parse, cache), routing, pinned, editable, p)
    requires TierOf(p) in routing && routing[TierOf(p)] != "" && TierOf(p) in editable && p !in pinned
    requires parse(routing[TierOf(p)]).Some? && |parse(routing[TierOf(p)]).value.version| <= 8
    requires slug in cache && parse(slug).Some? && parse(slug).value.persona == p && |parse(slug).value.version| <= 8
    ensures !PaddedNewer(parse(slug).value.version, parse(routing[TierOf(p)]).value.version)
  {
    BestIsNewest(parse, cache, p);
    var now, best := SlugVersion(parse, routing[TierOf(p)]), BestOf(parse, cache)[p].version;
    var v := SlugVersion(parse, slug);
    ShortOrdersAgree(parse(slug).value.version, parse(routing[TierOf(p)]).value.version);
    LessTotal(now, best);
    LessTotal(now, v);
    LessTotal(best, v);
    if Less(now, v) && Less(v, best) {
      LessTransitive(now, v, best);
    }
  }

  lemma TierNames(tier: string, p: Persona)
    requires (tier, p) in {("executive", Astra), ("orchestrator", Sol), ("workhorse", Terra), ("grunt", Luna)}
    ensures TierOf(p) == tier && PersonaOf(tier) == Some(p)
  {
    PersonaOfTier(p);
  }

  /** Some cached slug of the persona is newer. */
  predicate HasNewer(parse: Parser, cache: seq<string>, p: Persona, slug: string) {
    exists s :: s in cache && parse(s).Some? && parse(s).value.persona == p &&
                Less(SlugVersion(parse, slug), SlugVersion(parse, s))
  }

  lemma NewerThanBest(parse: Parser, cache: seq<string>, p: Persona, slug: string)
    ensures var best := BestOf(parse, cache);
            HasNewer(parse, cache, p, slug) <==>
            p in best && Less(SlugVersion(parse, slug), best[p].version) && best[p].slug != slug
  {
    BestIsNewest(parse, cache, p);
    var best, was := BestOf(parse, cache), SlugVersion(parse, slug);
    hide BestOf, SlugVersion, Less;
    LessTotal(was, was);
    if s :| s in cache && parse(s).Some? && parse(s).value.persona == p && Less(was, SlugVersion(parse, s)) {
      var v := SlugVersion(parse, s);
      LessTotal(v, best[p].version);
      if v != best[p].version {
        LessTransitive(was, v, best[p].version);
      }
    }
  }

  /** Each tier follows its own persona: it changes to a cached slug of that persona,
      and does so where an unpinned, editable one has a newer slug in the cache. */
  lemma EachTierItsPersona(parse: Parser, cache: seq<string>, routing: map<string, string>, pinned: set<Persona>,
                           editable: set<string>, tier: string, p: Persona)
    requires tier in routing
    requires (tier, p) in {("executive", Astra), ("orchestrator", Sol), ("workhorse", Terra), ("grunt", Luna)}
    ensures var was, now := routing[tier], Promoted(parse, BestOf(parse, cache), routing, pinned, editable)[tier];
            && (now != was ==> now in cache && parse(now).Some? && parse(now).value.persona == p)
            && (now != was <==> was != "" && p !in pinned && tier in editable && HasNewer(parse, cache, p, was))
  {
    TierNames(tier, p);
    hide TierOf, PersonaOf, BestOf, SlugVersion, Less, HasNewer;
    BestIsNewest(parse, cache, p);
    NewerThanBest(parse, cache, p, routing[tier]);
  }

  lemma OtherTiersStay(parse: Parser, best: map<Persona, Best>, routing: map<string, string>, pinned: set<Persona>,
                       editable: set<string>, tier: string)
    requires tier in routing && tier !in {"executive", "orchestrator", "workhorse", "grunt"}
    ensures Promoted(parse, best, routing, pinned, editable)[tier] == routing[tier]
  {
    NoPersona(tier);
    hide PersonaOf, Promotes;
  }

  lemma NoPersona(tier: string)
    requires tier !in {"executive", "orchestrator", "workhorse", "grunt"}
    ensures PersonaOf(tier) == None
  {}

  // ---- The model entries

  predicate IsDonor(models: map<string, Entry>, tier: string, name: string) {
    name in models && models[name].provider == "codex" && models[name].tier == tier
  }

  /** The tier's slug has a model entry, or there is none to clone one from. */
  ghost predicate Healed(models: map<string, Entry>, routing: map<string, string>, tier: string) {
    tier in routing && routing[tier] != "" && routing[tier] !in models ==> forall name :: !IsDonor(models, tier, name)
  }

  /** Entries are only added: for routed slugs, as clones of entries that were there. */
  ghost predicate OnlyClones(was: map<string, Entry>, now: map<string, Entry>, routing: map<string, string>) {
    && (forall name | name in was :: name in now && now[name] == was[name])
    && (forall name | name in now && name !in was ::
          name in routing.Values && exists donor :: donor in was && was[donor] == now[name])
  }

  lemma ClonesMore(was: map<string, Entry>, all: map<string, Entry>, routing: map<string, string>, slug: string,
                   donor: string)
    requires OnlyClones(was, all, routing) && slug !in all && slug in routing.Values && donor in all
    ensures OnlyClones(was, all[slug := all[donor]], routing)
  {
    if donor !in was {
      var other :| other in was && was[other] == all[donor];
      assert was[other] == all[slug := all[donor]][slug];
    }
  }

  /** A further entry heals its own tier and unheals none. */
  lemma HealsMore(all: map<string, Entry>, routing: map<string, string>, tier: string, donor: string)
    requires tier in routing && routing[tier] !in all && IsDonor(all, tier, donor)
    ensures Healed(all[routing[tier] := all[donor]], routing, tier)
    ensures forall other | Healed(all, routing, other) :: Healed(all[routing[tier] := all[donor]], routing, other)
  {
    var now := all[routing[tier] := all[donor]];
    forall other | Healed(all, routing, other) ensures Healed(now, routing, other) {
      forall name | IsDonor(now, other, name) ensures exists n :: IsDonor(all, other, n) {
        assert IsDonor(all, other, if name in all then name else donor);
      }
    }
  }

  lemma RoutedOnly(all: map<string, Entry>, routing: map<string, string>)
    ensures forall tier | tier !in routing :: Healed(all, routing, tier)
  {}

  lemma NeedsNone(all: map<string, Entry>, routing: map<string, string>, tier: string)
    requires tier in routing && (routing[tier] == "" || routing[tier] in all)
    ensures Healed(all, routing, tier)
  {}

  lemma DonorNeeded(all: map<string, Entry>, routing: map<string, string>, tier: string)
    requires tier in routing && routing[tier] != "" && routing[tier] !in all
    ensures Healed(all, routing, tier) <==> forall name :: !IsDonor(all, tier, name)
  {}

  lemma NoDonorLeft(models: map<string, Entry>, routing: map<string, string>)
    requires forall tier :: Healed(models, routing, tier)
    ensures forall tier, name | tier in routing && routing[tier] != "" && routing[tier] !in models && name in models ::
              models[name].provider != "codex" || models[name].tier != tier
  {
    forall tier, name | tier in routing && routing[tier] != "" && routing[tier] !in models && name in models
      ensures models[name].provider != "codex" || models[name].tier != tier
    {
      assert Healed(models, routing, tier);
      assert !IsDonor(models, tier, name);
    }
  }

  /** A new entry is that of the slug which the promotion replaced, or, for a routed slug
      that had none, that of a codex model of its tier. */
  ghost predicate Sourced(was: map<string, Entry>, now: map<string, Entry>, routing: map<string, string>,
                          promotions: seq<Promotion>)
  {
    forall name | name in now && name !in was ::
      || (exists pr :: pr in promotions && pr.now == name && pr.was in now && now[pr.was] == now[name])
      || (exists tier :: tier in routing && routing[tier] == name && now[name].tier == tier
                         && now[name].provider == "codex")
  }

  /** Each promotion says what its tier routed to and routes to now, and each tier that changed has one. */
  ghost predicate Reported(promotions: seq<Promotion>, was: map<string, string>, now: map<string, string>) {
    && (forall pr | pr in promotions ::
          && pr.tier in was && was[pr.tier] == pr.was && pr.tier in now && now[pr.tier] == pr.now
          && (pr.persona, pr.tier) in
             {(Astra, "executive"), (Sol, "orchestrator"), (Terra, "workhorse"), (Luna, "grunt")})
    && Covered(promotions, was, now)
  }

  ghost predicate Covered(promotions: seq<Promotion>, was: map<string, string>, now: map<string, string>) {
    forall tier | tier in was && tier in now && now[tier] != was[tier] ::
      exists pr :: pr in promotions && pr.tier == tier
  }

  lemma CoverMore(promotions: seq<Promotion>, pr: Promotion, was: map<string, string>, now: map<string, string>)
    requires Covered(promotions, was, now)
    ensures Covered(promotions + [pr], was, now[pr.tier := pr.now])
  {
    var more := promotions + [pr];
    forall tier | tier in was && tier in now[pr.tier := pr.now] && now[pr.tier := pr.now][tier] != was[tier]
      ensures exists q :: q in more && q.tier == tier
    {
      if tier == pr.tier {
        assert more[|promotions|] == pr;
      } else {
        var q :| q in promotions && q.tier == tier;
        assert q in more;
      }
    }
  }

  lemma RecordsReport(promotions: seq<Promotion>, was: map<string, string>, now: map<string, string>)
    requires Covered(promotions, was, now) && forall pr | pr in promotions :: Records(pr, was, now)
    ensures Reported(promotions, was, now)
  {
    hide Covered;
  }

  lemma SourcedMore(was: map<string, Entry>, all: map<string, Entry>, routing: map<string, string>,
                    promotions: seq<Promotion>, slug: string, tier: string, donor: string)
    requires Sourced(was, all, routing, promotions) && slug !in all
    requires tier in routing && routing[tier] == slug && IsDonor(all, tier, donor)
    ensures Sourced(was, all[slug := all[donor]], routing, promotions)
  {
    var now := all[slug := all[donor]];
    forall name | name in now && name !in was
      ensures || (exists pr :: pr in promotions && pr.now == name && pr.was in now && now[pr.was] == now[name])
              || (exists t :: t in routing && routing[t] == name && now[name].tier == t
                              && now[name].provider == "codex")
    {
      if name != slug {
        assert name in all && all[name] == now[name];
        if pr :| pr in promotions && pr.now == name && pr.was in all && all[pr.was] == all[name] {
          assert pr.was in now && now[pr.was] == all[pr.was];
        }
      }
    }
  }

  class ModelFiles {
    const parse: Parser
    const editable: set<string>
    var routing: map<string, string>
    var models: map<string, Entry>

    constructor (parse: Parser, editable: set<string>, routing: map<string, string>, models: map<string, Entry>)
      ensures this.parse == parse && this.editable == editable && this.routing == routing && this.models == models
    {
      this.parse, this.editable, this.routing, this.models := parse, editable, routing, models;
    }

    method BestByPersona(cache: seq<string>) returns (best: map<Persona, Best>)
      ensures best == BestOf(parse, cache)
    {
      best := map[];
      for i := 0 to |cache|
        invariant best == BestOf(parse, cache[..i])
      {
        assert cache[..i + 1][..i] == cache[..i];
        var slug := cache[i];
        if parse(slug).Some? {
          var version := ParseVersion(parse(slug).value.version);
          var p := parse(slug).value.persona;
          if p !in best || Less(best[p].version, version) {
            best := best[p := Best(version, slug)];
          }
        }
      }
      assert cache[..|cache|] == cache;
    }

    /** The four personas in order; the text edits are collected, not yet written. */
    method Promote(best: map<Persona, Best>, pinned: set<Persona>)
      returns (edited: map<string, string>, promotions: seq<Promotion>)
      ensures edited == Promoted(parse, best, routing, pinned, editable)
      ensures promotions == [] ==> edited == routing
      ensures forall pr | pr in promotions :: Records(pr, routing, edited)
      ensures Reported(promotions, routing, edited)
      ensures (forall p :: !Promotes(parse, best, routing, pinned, editable, p)) ==> promotions == []
    {
      edited, promotions := routing, [];
      for i := 0 to 4
        invariant edited == PromotedAmong(parse, best, routing, pinned, editable, PERSONA_ORDER[..i])
        invariant promotions == [] ==> edited == routing
        invariant forall pr | pr in promotions :: Records(pr, routing, edited) && pr.persona in PERSONA_ORDER[..i]
        invariant (forall p :: !Promotes(parse, best, routing, pinned, editable, p)) ==> promotions == []
        invariant Covered(promotions, routing, edited)
      {
        var p := PERSONA_ORDER[i];
        hide *;
        PromoteNext(parse, best, routing, pinned, editable, i);
        if Promotes(parse, best, routing, pinned, editable, p) {
          var pr := Promotion(p, TierOf(p), routing[TierOf(p)], best[p].slug);
          KeepRecords(promotions, pr, routing, edited, i);
          CoverMore(promotions, pr, routing, edited);
          edited := edited[TierOf(p) := best[p].slug];
          promotions := promotions + [pr];
        } else {
          assert forall q | q in PERSONA_ORDER[..i] :: q in PERSONA_ORDER[..i + 1];
        }
      }
      PromotedAmongAll(parse, best, routing, pinned, editable);
      hide *;
      RecordsReport(promotions, routing, edited);
    }

    /** Of the codex entries of the tier, one of the newest. */
    method FindDonor(all: map<string, Entry>, tier: string) returns (donor: Option<string>)
      ensures donor.None? <==> forall name :: !IsDonor(all, tier, name)
      ensures donor.Some? ==>
                && IsDonor(all, tier, donor.value)
                && forall name | IsDonor(all, tier, name) ::
                     !Less(SlugVersion(parse, donor.value), SlugVersion(parse, name))
    {
      donor := None;
      var todo := all.Keys;
      while todo != {}
        invariant todo <= all.Keys
        invariant donor.None? <==> forall name | name !in todo :: !IsDonor(all, tier, name)
        invariant donor.Some? ==>
                    && IsDonor(all, tier, donor.value)
                    && forall name | name !in todo && IsDonor(all, tier, name) ::
                         !Less(SlugVersion(parse, donor.value), SlugVersion(parse, name))
        decreases |todo|
      {
        var name :| name in todo;
        todo := todo - {name};
        if IsDonor(all, tier, name) {
          var v := SlugVersion(parse, name);
          LessTotal(v, v);
          if donor.None? {
            donor := Some(name);
          } else if Less(SlugVersion(parse, donor.value), v) {
            forall other | other !in todo && IsDonor(all, tier, other) ensures !Less(v, SlugVersion(parse, other)) {
              if other != name {
                StaysNewest(SlugVersion(parse, other), SlugVersion(parse, donor.value), v);
              }
            }
            donor := Some(name);
          }
        }
      }
    }

    /** Each promoted slug gets a clone of the old slug's entry. */
    method CloneEntries(promotions: seq<Promotion>, edited: map<string, string>) returns (all: map<string, Entry>)
      requires forall pr | pr in promotions :: Records(pr, routing, edited)
      ensures OnlyClones(models, all, edited) && Sourced(models, all, edited, promotions)
      ensures promotions == [] ==> all == models
    {
      all := models;
      for i := 0 to |promotions|
        invariant OnlyClones(models, all, edited) && (promotions == [] ==> all == models)
        invariant Sourced(models, all, edited, promotions)
      {
        var pr := promotions[i];
        assert pr in promotions;
        if pr.now !in all && pr.was in all {
          assert edited[pr.tier] in edited.Values;
          all := all[pr.now := all[pr.was]];
        }
      }
    }

    /** Every routed slug without an entry gets a clone of its tier's newest codex entry. */
    method Heal(before: map<string, Entry>, edited: map<string, string>, ghost promotions: seq<Promotion>)
      returns (all: map<string, Entry>)
      requires OnlyClones(models, before, edited) && Sourced(models, before, edited, promotions)
      ensures OnlyClones(models, all, edited) && Sourced(models, all, edited, promotions)
      ensures forall tier :: Healed(all, edited, tier)
      ensures (forall tier :: Healed(before, edited, tier)) ==> all == before
    {
      hide OnlyClones, Sourced, Healed;
      all := before;
      var todo := edited.Keys;
      RoutedOnly(all, edited);
      while todo != {}
        invariant todo <= edited.Keys && OnlyClones(models, all, edited) && Sourced(models, all, edited, promotions)
        invariant forall tier | tier !in todo :: Healed(all, edited, tier)
        invariant (forall tier :: Healed(before, edited, tier)) ==> all == before
        decreases |todo|
      {
        var tier :| tier in todo;
        var slug := edited[tier];
        if slug == "" || slug in all {
          NeedsNone(all, edited, tier);
        } else {
          var donor := FindDonor(all, tier);
          DonorNeeded(all, edited, tier);
          if donor.Some? {
            assert slug in edited.Values;
            SourcedMore(models, all, edited, promotions, slug, tier, donor.value);
            ClonesMore(models, all, edited, slug, donor.value);
            HealsMore(all, edited, tier, donor.value);
            all := all[slug := all[donor.value]];
          }
        }
        todo := todo - {tier};
      }
    }

    /** One run of the sync.  A dry run writes nothing; an applied one promotes,
        clones and heals, and leaves nothing for the next. */
    method SyncCodex(cache: seq<string>, apply: bool, pinned: set<Persona>)
      returns (promotions: seq<Promotion>, added: set<string>)
      modifies this
      ensures !apply ==> routing == old(routing) && models == old(models)
      ensures apply ==> routing == Promoted(parse, BestOf(parse, cache), old(routing), pinned, editable)
      ensures apply ==> OnlyClones(old(models), models, routing)
      ensures apply ==> forall tier :: Healed(models, routing, tier)
      ensures apply ==> Sourced(old(models), models, routing, promotions)
      ensures apply ==>
                forall tier, name |
                  tier in routing && routing[tier] != "" && routing[tier] !in models && name in models ::
                  models[name].provider != "codex" || models[name].tier != tier
      ensures Reported(promotions, old(routing), Promoted(parse, BestOf(parse, cache), old(routing), pinned, editable))
      ensures apply ==> added == models.Keys - old(models).Keys
      ensures (forall p :: !Promotes(parse, BestOf(parse, cache), old(routing), pinned, editable, p)) &&
              (forall tier :: Healed(old(models), old(routing), tier)) ==>
                promotions == [] && added == {} && routing == old(routing) && models == old(models)
    {
      hide Less, Strip;
      var best := BestByPersona(cache);
      hide Promotes, Records, PromotedAmong;
      var edited;
      edited, promotions := Promote(best, pinned);
      var all := CloneEntries(promotions, edited);
      all := Heal(all, edited, promotions);
      added := all.Keys - models.Keys;
      if apply {
        routing, models := edited, all;
        NoDonorLeft(models, routing);
      }
      hide Reported, Sourced, OnlyClones, Healed;
    }

    /** Applying twice over one cache: the second run promotes and adds nothing. */
    method SyncTwice(cache: seq<string>, pinned: set<Persona>) returns (promotions: seq<Promotion>, added: set<string>)
      modifies this
      ensures promotions == [] && added == {}
      ensures routing == Promoted(parse, BestOf(parse, cache), old(routing), pinned, editable)
      ensures OnlyClones(old(models), models, routing)
    {
      var _, _ := SyncCodex(cache, true, pinned);
      forall p ensures !Promotes(parse, BestOf(parse, cache), routing, pinned, editable, p) {
        PromotedIsSettled(parse, BestOf(parse, cache), old(routing), pinned, editable, p);
      }
      promotions, added := SyncCodex(cache, true, pinned);
    }
  }
}
