/**
 The converse of the preflight's soundness. The effects each rule can have for some answers of the
 unrecognised statements decide which positions of which chains evaluation can arrive at; a packet
 is dropped for some answers exactly when it can arrive at a rule with a dropping verdict ahead.
 */
module NftArrival {
  import opened Common
  import opened NftPreflight
  import opened NftSemantics

  // ---- The effects of one rule ---------------------------------------------------------

  ghost predicate CanPass(e: Json, p: Packet) {
    Has(e, "match") && exists guess :: Holds(Get(e, "match").value, p, guess)
  }

  ghost predicate CanFail(e: Json, p: Packet) {
    Has(e, "match") && exists guess :: !Holds(Get(e, "match").value, p, guess)
  }

  /** The rule has this effect for some answers. */
  ghost predicate CanEnd(es: seq<Json>, p: Packet, effect: Effect)
    decreases |es|
  {
    if es == [] then effect.Continue?
    else
      var e := es[0];
      if Has(e, "match") then (CanPass(e, p) && CanEnd(es[1..], p, effect)) || (CanFail(e, p) && effect.Continue?)
      else if Has(e, "drop") || Has(e, "reject") then effect.DropPacket?
      else if Has(e, "vmap") then effect.DropPacket? || effect.AcceptPacket? || CanEnd(es[1..], p, effect)
      else if TargetOf(e, "jump").Chain? then effect == JumpTo(TargetOf(e, "jump").name)
      else if TargetOf(e, "goto").Chain? then effect == GotoTo(TargetOf(e, "goto").name)
      else if Has(e, "accept") then effect.AcceptPacket?
      else if Has(e, "return") then effect.ReturnFromChain?
      else effect.Continue? || CanEnd(es[1..], p, effect)
  }

  lemma {:induction false} RuleOnlyCan(es: seq<Json>, p: Packet, oracle: Oracle, k: nat)
    ensures CanEnd(es, p, RunRule(es, p, oracle, k).0)
    decreases |es|
  {
    if es != [] { RuleOnlyCan(es[1..], p, oracle, k + 1); }
  }

  /** A rule evaluated at position k looks at no answer outside the stretch it uses up. */
  lemma {:induction false} RuleReads(es: seq<Json>, p: Packet, a: Oracle, b: Oracle, k: nat)
    requires forall i: nat | k <= i < RunRule(es, p, a, k).1 :: a(i) == b(i)
    ensures RunRule(es, p, a, k).1 >= k && RunRule(es, p, b, k) == RunRule(es, p, a, k)
    decreases |es|
  {
    RuleAdvances(es, p, a, k);
    if es != [] {
      RuleAdvances(es[1..], p, a, k + 1);
      if RunRule(es, p, a, k) == RunRule(es[1..], p, a, k + 1) { RuleReads(es[1..], p, a, b, k + 1); }
    }
  }

  lemma {:induction false} RuleAdvances(es: seq<Json>, p: Packet, a: Oracle, k: nat)
    ensures RunRule(es, p, a, k).1 >= k
    decreases |es|
  {
    if es != [] { RuleAdvances(es[1..], p, a, k + 1); }
  }

  /** Answers `a` before position k and `b` from there on. */
  ghost function Splice(a: Oracle, b: Oracle, k: nat): Oracle {
    (i: nat) => if i < k then a(i) else b(i)
  }

  lemma {:induction false} RuleCan(es: seq<Json>, p: Packet, effect: Effect, k: nat) returns (oracle: Oracle)
    requires CanEnd(es, p, effect)
    ensures RunRule(es, p, oracle, k).0 == effect
    decreases |es|
  {
    var later: Oracle := (i: nat) => 0;
    if es == [] { return later; }
    if CanEnd(es[1..], p, effect) { later := RuleCan(es[1..], p, effect, k + 1); }
    var answer: nat := 0;
    if Has(es[0], "match") {
      answer := MatchAnswer(es[0], p, CanPass(es[0], p) && CanEnd(es[1..], p, effect));
    } else if Has(es[0], "vmap") {
      answer := if effect.DropPacket? then 1 else if effect.AcceptPacket? then 2 else 0;
    } else {
      answer := if effect.Continue? then 1 else 0;
    }
    oracle := Splice((i: nat) => answer, later, k + 1);
    LaterAnswersDecide(es[1..], p, oracle, later, k + 1);
    if Has(es[0], "match") { PassedOrFailed(es, p, effect, oracle, k); } else { Answered(es, p, effect, oracle, k); }
  }

  lemma MatchAnswer(e: Json, p: Packet, pass: bool) returns (answer: nat)
    requires if pass then CanPass(e, p) else CanFail(e, p)
    ensures Has(e, "match") && (Holds(Get(e, "match").value, p, answer % 2 == 0) <==> pass)
  {
    var guess :| Holds(Get(e, "match").value, p, guess) <==> pass;
    answer := if guess then 0 else 1;
  }

  lemma PassedOrFailed(es: seq<Json>, p: Packet, effect: Effect, oracle: Oracle, k: nat)
    requires es != [] && Has(es[0], "match") && CanEnd(es, p, effect)
    requires Holds(Get(es[0], "match").value, p, oracle(k) % 2 == 0) <==> CanPass(es[0], p) && CanEnd(es[1..], p, effect)
    requires CanEnd(es[1..], p, effect) ==> RunRule(es[1..], p, oracle, k + 1).0 == effect
    ensures RunRule(es, p, oracle, k).0 == effect
  {
  }

  lemma Answered(es: seq<Json>, p: Packet, effect: Effect, oracle: Oracle, k: nat)
    requires es != [] && !Has(es[0], "match") && CanEnd(es, p, effect)
    requires
      if Has(es[0], "vmap") then oracle(k) == (if effect.DropPacket? then 1 else if effect.AcceptPacket? then 2 else 0)
      else oracle(k) == if effect.Continue? then 1 else 0
    requires CanEnd(es[1..], p, effect) ==> RunRule(es[1..], p, oracle, k + 1).0 == effect
    ensures RunRule(es, p, oracle, k).0 == effect
  {
  }

  /** Dropping is having a dropping verdict ahead of every test the packet never passes. */
  lemma {:induction false} CanDropIff(es: seq<Json>, p: Packet)
    ensures CanEnd(es, p, DropPacket) <==> CanDropAhead(es, p)
    decreases |es|
  {
    if es != [] { CanDropIff(es[1..], p); }
  }

  /** The effects a rule can have, as a relation between rules and effects. */
  type Possibility = (Json, Effect) -> bool

  ghost function EffectsOn(p: Packet): Possibility {
    (item: Json, effect: Effect) => CanEnd(Statements(item), p, effect)
  }

  // ---- Chains ---------------------------------------------------------------------------

  /** How evaluations of rules can end. */
  type Endings = (seq<Json>, Outcome) -> bool

  /** One step: the first rule has one of its effects, and evaluation goes on to one of the given endings. */
  ghost predicate StepEnds(table: Table, rules: seq<Json>, can: Possibility, outcome: Outcome, ends: Endings) {
    if rules == [] then outcome.Fell?
    else
      || (outcome.Dropped? && can(rules[0], DropPacket))
      || (outcome.Fell? && can(rules[0], ReturnFromChain))
      || (can(rules[0], Continue) && ends(rules[1..], outcome))
      || (exists to :: can(rules[0], GotoTo(to)) && ends(RulesOf(table, to), outcome))
      || (exists to :: can(rules[0], JumpTo(to)) && JumpEnds(rules[1..], RulesOf(table, to), outcome, ends))
  }

  /** The chain jumped to drops the packet, or falls through to the rest. */
  ghost predicate JumpEnds(rest: seq<Json>, target: seq<Json>, outcome: Outcome, ends: Endings) {
    (outcome.Dropped? && ends(target, Dropped)) || (ends(target, Fell) && ends(rest, outcome))
  }

  /** The endings within n steps. */
  ghost function Within(table: Table, can: Possibility, n: nat): Endings
    decreases n, 1
  {
    (rules: seq<Json>, outcome: Outcome) => MayEnd(table, rules, can, outcome, n)
  }

  ghost predicate MayEnd(table: Table, rules: seq<Json>, can: Possibility, outcome: Outcome, n: nat)
    decreases n, 0
  {
    n > 0 && StepEnds(table, rules, can, outcome, Within(table, can, n - 1))
  }

  ghost predicate Advances(eval: Evaluator) {
    forall item, k: nat :: eval(item, k).1 >= k
  }

  /** The two agree wherever the first stays within these positions. */
  ghost predicate Agree(e1: Evaluator, e2: Evaluator, lo: nat, hi: nat) {
    forall item, k: nat | lo <= k && e1(item, k).1 <= hi :: e2(item, k) == e1(item, k)
  }

  lemma {:induction false} ChainAdvances(table: Table, rules: seq<Json>, eval: Evaluator, k: nat, fuel: nat)
    requires Advances(eval)
    ensures RunChain(table, rules, eval, k, fuel).1 >= k
    decreases fuel
  {
    if fuel > 0 && rules != [] {
      var (effect, k1) := eval(rules[0], k);
      match effect {
        case Continue => ChainAdvances(table, rules[1..], eval, k1, fuel - 1);
        case JumpTo(to) =>
          ChainAdvances(table, RulesOf(table, to), eval, k1, fuel - 1);
          ChainAdvances(table, rules[1..], eval, RunChain(table, RulesOf(table, to), eval, k1, fuel - 1).1, fuel - 1);
        case GotoTo(to) => ChainAdvances(table, RulesOf(table, to), eval, k1, fuel - 1);
        case _ =>
      }
    }
  }

  /** So do whole evaluations. */
  lemma {:induction false} ChainAgrees(table: Table, rules: seq<Json>, e1: Evaluator, e2: Evaluator, lo: nat, hi: nat, k: nat, fuel: nat)
    requires Advances(e1) && Agree(e1, e2, lo, hi) && lo <= k && RunChain(table, rules, e1, k, fuel).1 <= hi
    ensures RunChain(table, rules, e2, k, fuel) == RunChain(table, rules, e1, k, fuel)
    decreases fuel
  {
    if fuel > 0 && rules != [] {
      var (effect, k1) := e1(rules[0], k);
      match effect {
        case Continue =>
          ChainAdvances(table, rules[1..], e1, k1, fuel - 1);
          ChainAgrees(table, rules[1..], e1, e2, lo, hi, k1, fuel - 1);
        case JumpTo(to) =>
          var (outcome, k2) := RunChain(table, RulesOf(table, to), e1, k1, fuel - 1);
          ChainAdvances(table, RulesOf(table, to), e1, k1, fuel - 1);
          ChainAdvances(table, rules[1..], e1, k2, fuel - 1);
          ChainAgrees(table, RulesOf(table, to), e1, e2, lo, hi, k1, fuel - 1);
          if outcome.Fell? { ChainAgrees(table, rules[1..], e1, e2, lo, hi, k2, fuel - 1); }
        case GotoTo(to) =>
          ChainAdvances(table, RulesOf(table, to), e1, k1, fuel - 1);
          ChainAgrees(table, RulesOf(table, to), e1, e2, lo, hi, k1, fuel - 1);
        case _ =>
      }
    }
  }

  lemma EffectAdvances(p: Packet, a: Oracle)
    ensures Advances(RuleEffect(p, a))
  {
    forall item, k: nat
      ensures RuleEffect(p, a)(item, k).1 >= k
    {
      RuleAdvances(Statements(item), p, a, k);
    }
  }

  lemma EffectsAgree(p: Packet, a: Oracle, b: Oracle, lo: nat, hi: nat)
    requires forall i: nat | lo <= i < hi :: a(i) == b(i)
    ensures Agree(RuleEffect(p, a), RuleEffect(p, b), lo, hi)
  {
    forall item, k: nat | lo <= k && RuleEffect(p, a)(item, k).1 <= hi
      ensures RuleEffect(p, b)(item, k) == RuleEffect(p, a)(item, k)
    {
      RuleReads(Statements(item), p, a, b, k);
    }
  }

  // ---- Evaluation ends as it may end, and in no other way ---------------------------------

  ghost predicate Allowed(eval: Evaluator, can: Possibility) {
    forall item, k: nat :: can(item, eval(item, k).0)
  }

  lemma {:induction false} ChainOnlyMay(table: Table, rules: seq<Json>, eval: Evaluator, can: Possibility, k: nat, fuel: nat)
    requires Allowed(eval, can)
    ensures
      var outcome := RunChain(table, rules, eval, k, fuel).0;
      outcome.Dropped? || outcome.Fell? ==> MayEnd(table, rules, can, outcome, fuel)
    decreases fuel
  {
    if fuel > 0 && rules != [] {
      var (effect, k1) := eval(rules[0], k);
      assert can(rules[0], effect);
      match effect {
        case Continue => ChainOnlyMay(table, rules[1..], eval, can, k1, fuel - 1);
        case JumpTo(to) =>
          ChainOnlyMay(table, RulesOf(table, to), eval, can, k1, fuel - 1);
          ChainOnlyMay(table, rules[1..], eval, can, RunChain(table, RulesOf(table, to), eval, k1, fuel - 1).1, fuel - 1);
        case GotoTo(to) => ChainOnlyMay(table, RulesOf(table, to), eval, can, k1, fuel - 1);
        case _ =>
      }
    }
  }

  lemma EffectsAllowed(p: Packet, oracle: Oracle)
    ensures Allowed(RuleEffect(p, oracle), EffectsOn(p))
  {
    forall item, k: nat
      ensures EffectsOn(p)(item, RuleEffect(p, oracle)(item, k).0)
    {
      RuleOnlyCan(Statements(item), p, oracle, k);
    }
  }

  /** Answers `a` up to where `a` has taken an evaluation, then `b`: the evaluation under `a` is repeated. */
  lemma SpliceKeeps(table: Table, rules: seq<Json>, p: Packet, a: Oracle, b: Oracle, k: nat, fuel: nat)
    ensures
      var end := RunChain(table, rules, RuleEffect(p, a), k, fuel);
      RunChain(table, rules, RuleEffect(p, Splice(a, b, end.1)), k, fuel) == end
  {
    var end := RunChain(table, rules, RuleEffect(p, a), k, fuel);
    EffectAdvances(p, a);
    EffectsAgree(p, a, Splice(a, b, end.1), k, end.1);
    ChainAgrees(table, rules, RuleEffect(p, a), RuleEffect(p, Splice(a, b, end.1)), k, end.1, k, fuel);
  }

  /** An evaluation from a later position on goes as under `b`. */
  lemma SpliceFollows(table: Table, rules: seq<Json>, p: Packet, a: Oracle, b: Oracle, k: nat, later: nat, fuel: nat)
    requires k <= later
    ensures RunChain(table, rules, RuleEffect(p, Splice(a, b, k)), later, fuel) == RunChain(table, rules, RuleEffect(p, b), later, fuel)
  {
    var end := RunChain(table, rules, RuleEffect(p, b), later, fuel);
    EffectAdvances(p, b);
    EffectsAgree(p, b, Splice(a, b, k), later, end.1);
    ChainAgrees(table, rules, RuleEffect(p, b), RuleEffect(p, Splice(a, b, k)), later, end.1, later, fuel);
  }

  lemma SpliceKeepsRule(item: Json, p: Packet, a: Oracle, b: Oracle, k: nat)
    ensures
      var end := RuleEffect(p, a)(item, k);
      RuleEffect(p, Splice(a, b, end.1))(item, k) == end
  {
    RuleReads(Statements(item), p, a, Splice(a, b, RuleEffect(p, a)(item, k).1), k);
  }

  /** Evaluate a rule with one set of answers, and go on in chain `next` with another. */
  lemma RuleThen(table: Table, item: Json, effect: Effect, next: seq<Json>, p: Packet, a: Oracle, b: Oracle, k: nat, fuel: nat)
    returns (oracle: Oracle)
    requires RuleEffect(p, a)(item, k).0 == effect
    ensures
      var k1 := RuleEffect(p, a)(item, k).1;
      && RuleEffect(p, oracle)(item, k) == (effect, k1)
      && RunChain(table, next, RuleEffect(p, oracle), k1, fuel) == RunChain(table, next, RuleEffect(p, b), k1, fuel)
  {
    var k1 := RuleEffect(p, a)(item, k).1;
    oracle := Splice(a, b, k1);
    SpliceKeepsRule(item, p, a, b, k);
    SpliceFollows(table, next, p, a, b, k1, k1, fuel);
  }

  lemma {:induction false} ChainMay(table: Table, rules: seq<Json>, p: Packet, outcome: Outcome, k: nat, n: nat) returns (oracle: Oracle)
    requires (outcome.Dropped? || outcome.Fell?) && MayEnd(table, rules, EffectsOn(p), outcome, n)
    ensures RunChain(table, rules, RuleEffect(p, oracle), k, n).0 == outcome
    decreases n, 2
  {
    var can := EffectsOn(p);
    oracle := (i: nat) => 0;
    if rules == [] { return; }
    if outcome.Dropped? && can(rules[0], DropPacket) {
      oracle := RuleCan(Statements(rules[0]), p, DropPacket, k);
    } else if outcome.Fell? && can(rules[0], ReturnFromChain) {
      oracle := RuleCan(Statements(rules[0]), p, ReturnFromChain, k);
    } else if can(rules[0], Continue) && MayEnd(table, rules[1..], can, outcome, n - 1) {
      oracle := TransferMay(table, rules, Continue, rules[1..], p, outcome, k, n);
    } else if to :| can(rules[0], GotoTo(to)) && MayEnd(table, RulesOf(table, to), can, outcome, n - 1) {
      oracle := TransferMay(table, rules, GotoTo(to), RulesOf(table, to), p, outcome, k, n);
    } else {
      var to :| can(rules[0], JumpTo(to)) && JumpEnds(rules[1..], RulesOf(table, to), outcome, Within(table, can, n - 1));
      if outcome.Dropped? && MayEnd(table, RulesOf(table, to), can, Dropped, n - 1) {
        oracle := TransferMay(table, rules, JumpTo(to), RulesOf(table, to), p, outcome, k, n);
      } else {
        oracle := JumpMay(table, rules, to, p, outcome, k, n);
      }
    }
  }

  /** The rule sends evaluation elsewhere, and it ends there. */
  lemma {:induction false} TransferMay(table: Table, rules: seq<Json>, effect: Effect, next: seq<Json>, p: Packet, outcome: Outcome, k: nat, n: nat)
    returns (oracle: Oracle)
    requires n > 0 && rules != [] && (outcome.Dropped? || outcome.Fell?) && EffectsOn(p)(rules[0], effect)
    requires
      || (effect.Continue? && next == rules[1..])
      || (effect.GotoTo? && next == RulesOf(table, effect.to))
      || (effect.JumpTo? && next == RulesOf(table, effect.to) && outcome.Dropped?)
    requires MayEnd(table, next, EffectsOn(p), outcome, n - 1)
    ensures RunChain(table, rules, RuleEffect(p, oracle), k, n).0 == outcome
    decreases n, 1
  {
    var a := RuleCan(Statements(rules[0]), p, effect, k);
    var b := ChainMay(table, next, p, outcome, RuleEffect(p, a)(rules[0], k).1, n - 1);
    oracle := RuleThen(table, rules[0], effect, next, p, a, b, k, n - 1);
    TransferUnfolds(table, rules, effect, next, RuleEffect(p, oracle), k, n);
  }

  lemma TransferUnfolds(table: Table, rules: seq<Json>, effect: Effect, next: seq<Json>, eval: Evaluator, k: nat, n: nat)
    requires n > 0 && rules != [] && eval(rules[0], k).0 == effect
    requires (effect.Continue? && next == rules[1..]) || ((effect.GotoTo? || effect.JumpTo?) && next == RulesOf(table, effect.to))
    ensures
      var end := RunChain(table, next, eval, eval(rules[0], k).1, n - 1);
      !(effect.JumpTo? && end.0.Fell?) ==> RunChain(table, rules, eval, k, n) == end
  {
  }

  /** The chain jumped to falls through, and evaluation ends in the rest. */
  lemma {:induction false} JumpMay(table: Table, rules: seq<Json>, to: string, p: Packet, outcome: Outcome, k: nat, n: nat) returns (oracle: Oracle)
    requires n > 0 && rules != [] && (outcome.Dropped? || outcome.Fell?) && EffectsOn(p)(rules[0], JumpTo(to))
    requires MayEnd(table, RulesOf(table, to), EffectsOn(p), Fell, n - 1) && MayEnd(table, rules[1..], EffectsOn(p), outcome, n - 1)
    ensures RunChain(table, rules, RuleEffect(p, oracle), k, n).0 == outcome
    decreases n, 1
  {
    var target := RulesOf(table, to);
    var a := RuleCan(Statements(rules[0]), p, JumpTo(to), k);
    var k1 := RuleEffect(p, a)(rules[0], k).1;
    var b := ChainMay(table, target, p, Fell, k1, n - 1);
    var k2 := RunChain(table, target, RuleEffect(p, b), k1, n - 1).1;
    var c := ChainMay(table, rules[1..], p, outcome, k2, n - 1);
    var bc := TargetThen(table, target, rules[1..], p, b, c, k1, k2, n - 1);
    oracle := JumpThen(table, rules, to, p, a, bc, k, k2, n);
  }

  lemma JumpUnfolds(table: Table, rules: seq<Json>, to: string, eval: Evaluator, k: nat, n: nat)
    requires n > 0 && rules != [] && eval(rules[0], k).0 == JumpTo(to)
    ensures
      var end := RunChain(table, RulesOf(table, to), eval, eval(rules[0], k).1, n - 1);
      RunChain(table, rules, eval, k, n) == if end.0.Fell? then RunChain(table, rules[1..], eval, end.1, n - 1) else end
  {
  }

  /** Fall through the target with one set of answers, and go on with another. */
  lemma TargetThen(table: Table, target: seq<Json>, rest: seq<Json>, p: Packet, b: Oracle, c: Oracle, k1: nat, k2: nat, fuel: nat)
    returns (oracle: Oracle)
    requires RunChain(table, target, RuleEffect(p, b), k1, fuel).1 == k2
    ensures k1 <= k2 && RunChain(table, target, RuleEffect(p, oracle), k1, fuel) == RunChain(table, target, RuleEffect(p, b), k1, fuel)
    ensures RunChain(table, rest, RuleEffect(p, oracle), k2, fuel) == RunChain(table, rest, RuleEffect(p, c), k2, fuel)
  {
    oracle := Splice(b, c, k2);
    EffectAdvances(p, b);
    ChainAdvances(table, target, RuleEffect(p, b), k1, fuel);
    SpliceKeeps(table, target, p, b, c, k1, fuel);
    SpliceFollows(table, rest, p, b, c, k2, k2, fuel);
  }

  /** Jump with one set of answers, then the target and the rest with another. */
  lemma JumpThen(table: Table, rules: seq<Json>, to: string, p: Packet, a: Oracle, b: Oracle, k: nat, k2: nat, n: nat)
    returns (oracle: Oracle)
    requires n > 0 && rules != [] && RuleEffect(p, a)(rules[0], k).0 == JumpTo(to)
    requires RuleEffect(p, a)(rules[0], k).1 <= k2
    requires RunChain(table, RulesOf(table, to), RuleEffect(p, b), RuleEffect(p, a)(rules[0], k).1, n - 1) == (Fell, k2)
    ensures RunChain(table, rules, RuleEffect(p, oracle), k, n) == RunChain(table, rules[1..], RuleEffect(p, b), k2, n - 1)
  {
    var k1 := RuleEffect(p, a)(rules[0], k).1;
    oracle := Splice(a, b, k1);
    SpliceKeepsRule(rules[0], p, a, b, k);
    SpliceFollows(table, RulesOf(table, to), p, a, b, k1, k1, n - 1);
    SpliceFollows(table, rules[1..], p, a, b, k1, k2, n - 1);
    JumpUnfolds(table, rules, to, RuleEffect(p, oracle), k, n);
  }

  // ---- Arrival -------------------------------------------------------------------------------

  /** Evaluation can go from the first of these rules to the second ones: past it, into the chain it sends the
      packet to, or back from there. */
  ghost predicate Moves(table: Table, can: Possibility, from: seq<Json>, to: seq<Json>) {
    && from != []
    && (|| (to == from[1..] && can(from[0], Continue))
        || (exists c :: can(from[0], GotoTo(c)) && to == RulesOf(table, c))
        || (exists c :: can(from[0], JumpTo(c)) && (to == RulesOf(table, c) || (to == from[1..] && FallsThrough(table, can, c)))))
  }

  ghost predicate FallsThrough(table: Table, can: Possibility, chain: string) {
    exists n: nat :: MayEnd(table, RulesOf(table, chain), can, Fell, n)
  }

  ghost predicate ArrivesIn(table: Table, can: Possibility, from: seq<Json>, at: seq<Json>, n: nat)
    decreases n
  {
    if n == 0 then from == at else exists mid :: Moves(table, can, from, mid) && ArrivesIn(table, can, mid, at, n - 1)
  }

  /** Evaluation of `from` can arrive at these rules. */
  ghost predicate Arrives(table: Table, can: Possibility, from: seq<Json>, at: seq<Json>) {
    exists n: nat :: ArrivesIn(table, can, from, at, n)
  }

  ghost predicate ArrivesAtDrop(table: Table, can: Possibility, from: seq<Json>) {
    exists at: seq<Json> :: Arrives(table, can, from, at) && at != [] && can(at[0], DropPacket)
  }

  ghost predicate MayDrop(table: Table, can: Possibility, rules: seq<Json>) {
    exists n: nat :: MayEnd(table, rules, can, Dropped, n)
  }

  lemma MoveArrives(table: Table, can: Possibility, from: seq<Json>, mid: seq<Json>)
    requires Moves(table, can, from, mid) && ArrivesAtDrop(table, can, mid)
    ensures ArrivesAtDrop(table, can, from)
  {
    var at :| Arrives(table, can, mid, at) && at != [] && can(at[0], DropPacket);
    var n: nat :| ArrivesIn(table, can, mid, at, n);
    assert ArrivesIn(table, can, from, at, n + 1);
    assert Arrives(table, can, from, at);
  }

  lemma {:induction false} DropIsArrivedAt(table: Table, rules: seq<Json>, can: Possibility, n: nat)
    requires MayEnd(table, rules, can, Dropped, n)
    ensures ArrivesAtDrop(table, can, rules)
    decreases n
  {
    if can(rules[0], DropPacket) {
      assert ArrivesIn(table, can, rules, rules, 0);
      assert Arrives(table, can, rules, rules);
    } else {
      var next := DropIsAhead(table, rules, can, n);
      DropIsArrivedAt(table, next, can, n - 1);
      MoveArrives(table, can, rules, next);
    }
  }

  /** If the first rule does not drop the packet, evaluation can move to where it is dropped. */
  lemma DropIsAhead(table: Table, rules: seq<Json>, can: Possibility, n: nat) returns (next: seq<Json>)
    requires MayEnd(table, rules, can, Dropped, n) && !can(rules[0], DropPacket)
    ensures Moves(table, can, rules, next) && MayEnd(table, next, can, Dropped, n - 1)
  {
    if can(rules[0], Continue) && MayEnd(table, rules[1..], can, Dropped, n - 1) {
      next := rules[1..];
    } else if to :| can(rules[0], GotoTo(to)) && MayEnd(table, RulesOf(table, to), can, Dropped, n - 1) {
      next := RulesOf(table, to);
    } else {
      var to :| can(rules[0], JumpTo(to)) && JumpEnds(rules[1..], RulesOf(table, to), Dropped, Within(table, can, n - 1));
      if MayEnd(table, RulesOf(table, to), can, Dropped, n - 1) { return RulesOf(table, to); }
      next := rules[1..];
      assert MayEnd(table, RulesOf(table, to), can, Fell, n - 1);
      assert FallsThrough(table, can, to);
    }
  }

  lemma StepEndsGrows(table: Table, rules: seq<Json>, can: Possibility, outcome: Outcome, ends: Endings, more: Endings)
    requires StepEnds(table, rules, can, outcome, ends)
    requires forall next, end | ends(next, end) :: more(next, end)
    ensures StepEnds(table, rules, can, outcome, more)
  {
  }

  lemma {:induction false} MayEndLater(table: Table, rules: seq<Json>, can: Possibility, outcome: Outcome, n: nat, m: nat)
    requires MayEnd(table, rules, can, outcome, n) && n <= m
    ensures MayEnd(table, rules, can, outcome, m)
    decreases n
  {
    var ends, more := Within(table, can, n - 1), Within(table, can, m - 1);
    forall next, end | ends(next, end)
      ensures more(next, end)
    {
      MayEndLater(table, next, can, end, n - 1, m - 1);
    }
    StepEndsGrows(table, rules, can, outcome, ends, more);
  }

  lemma MoveDrops(table: Table, can: Possibility, from: seq<Json>, mid: seq<Json>, n: nat) returns (m: nat)
    requires Moves(table, can, from, mid) && MayEnd(table, mid, can, Dropped, n)
    ensures MayEnd(table, from, can, Dropped, m)
  {
    m := n + 1;
    if (mid == from[1..] && can(from[0], Continue)) || (exists c :: can(from[0], GotoTo(c)) && mid == RulesOf(table, c)) {
      return;
    }
    var c :| can(from[0], JumpTo(c)) && (mid == RulesOf(table, c) || (mid == from[1..] && FallsThrough(table, can, c)));
    if mid != RulesOf(table, c) { m := JumpedOverDrops(table, can, mid, c, n); }
    assert JumpEnds(from[1..], RulesOf(table, c), Dropped, Within(table, can, m - 1));
  }

  lemma JumpedOverDrops(table: Table, can: Possibility, rest: seq<Json>, c: string, n: nat) returns (m: nat)
    requires FallsThrough(table, can, c) && MayEnd(table, rest, can, Dropped, n)
    ensures m > 0 && JumpEnds(rest, RulesOf(table, c), Dropped, Within(table, can, m - 1))
  {
    var f: nat :| MayEnd(table, RulesOf(table, c), can, Fell, f);
    m := if f <= n then n + 1 else f + 1;
    MayEndLater(table, RulesOf(table, c), can, Fell, f, m - 1);
    MayEndLater(table, rest, can, Dropped, n, m - 1);
  }

  lemma {:induction false} ArrivalDrops(table: Table, can: Possibility, from: seq<Json>, at: seq<Json>, n: nat) returns (m: nat)
    requires ArrivesIn(table, can, from, at, n) && at != [] && can(at[0], DropPacket)
    ensures MayEnd(table, from, can, Dropped, m)
    decreases n
  {
    if n == 0 { return 1; }
    var mid :| Moves(table, can, from, mid) && ArrivesIn(table, can, mid, at, n - 1);
    m := ArrivalDrops(table, can, mid, at, n - 1);
    m := MoveDrops(table, can, from, mid, m);
  }

  /** A ruleset's base chain drops the packet for some answers and some length of evaluation. */
  ghost predicate DropsSomehow(items: seq<Json>, base: Json, p: Packet) {
    exists oracle: Oracle, fuel: nat :: BaseOutcome(items, base, p, oracle, fuel) == Dropped
  }

  lemma DropsIffMayEnd(items: seq<Json>, base: Json, p: Packet)
    requires GetStr(base, "policy") != Some("drop")
    ensures
      var table := TableOf(items, base);
      DropsSomehow(items, base, p) <==> MayDrop(table, EffectsOn(p), RulesOf(table, BaseName(base)))
  {
    var table, can := TableOf(items, base), EffectsOn(p);
    var rules := RulesOf(table, BaseName(base));
    if oracle: Oracle, fuel: nat :| BaseOutcome(items, base, p, oracle, fuel) == Dropped {
      EffectsAllowed(p, oracle);
      ChainOnlyMay(table, rules, RuleEffect(p, oracle), can, 0, fuel);
      assert MayEnd(table, rules, can, Dropped, fuel);
    }
    if MayDrop(table, can, rules) {
      var n: nat :| MayEnd(table, rules, can, Dropped, n);
      var oracle := ChainMay(table, rules, p, Dropped, 0, n);
      assert BaseOutcome(items, base, p, oracle, n) == Dropped;
    }
  }

  lemma MayDropIffArrives(table: Table, rules: seq<Json>, can: Possibility)
    ensures MayDrop(table, can, rules) <==> ArrivesAtDrop(table, can, rules)
  {
    if MayDrop(table, can, rules) {
      var n: nat :| MayEnd(table, rules, can, Dropped, n);
      DropIsArrivedAt(table, rules, can, n);
    }
    if at :| Arrives(table, can, rules, at) && at != [] && can(at[0], DropPacket) {
      var n: nat :| ArrivesIn(table, can, rules, at, n);
      var m := ArrivalDrops(table, can, rules, at, n);
      assert MayEnd(table, rules, can, Dropped, m);
    }
  }

  /** Whenever the policy itself does not drop, which the preflight insists on: for some answers of the statements
      it does not recognise a packet is dropped, if and only if evaluation can arrive at a rule with a dropping
      verdict ahead of every test the packet never passes. */
  lemma DropsIffArrives(items: seq<Json>, base: Json, p: Packet)
    requires GetStr(base, "policy") != Some("drop")
    ensures
      var table := TableOf(items, base);
      DropsSomehow(items, base, p) <==>
      exists at :: Arrives(table, EffectsOn(p), RulesOf(table, BaseName(base)), at) && at != [] && CanDropAhead(Statements(at[0]), p)
  {
    var table := TableOf(items, base);
    DropsIffMayEnd(items, base, p);
    MayDropIffArrives(table, RulesOf(table, BaseName(base)), EffectsOn(p));
    forall item: Json
      ensures EffectsOn(p)(item, DropPacket) <==> CanDropAhead(Statements(item), p)
    {
      CanDropIff(Statements(item), p);
    }
  }
}
