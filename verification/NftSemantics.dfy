/**
 What an nft ruleset does to a forwarded packet, and the soundness of the preflight
 of `NftPreflight` against it. Everything the preflight does not recognise is decided
 by an arbitrary oracle, consulted afresh at every use.
 */
module NftSemantics {
  import opened Common
  import opened NftPreflight

  datatype Packet = Packet(iif: string, oif: string, ctState: string)

  /** A packet of the tunnelled flow, in either direction. */
  predicate OurFlow(p: Packet, tun: string, phys: string) {
    && ((p.iif == tun && p.oif == phys) || (p.iif == phys && p.oif == tun))
    && p.ctState != "invalid"
  }

  type Oracle = nat -> nat

  // ---- Predicates ------------------------------------------------------------------

  predicate Extends(name: string, stem: string, rest: string) {
    name == stem + rest
  }

  /** The names an interface pattern stands for: a trailing `*` is any text at all. */
  ghost predicate Denotes(pattern: string, name: string) {
    if pattern != [] && pattern[|pattern| - 1] == '*'
    then var stem := pattern[..|pattern| - 1]; exists rest :: Extends(name, stem, rest)
    else name == pattern
  }

  lemma InterfaceMatchesDenotes(pattern: string, name: string)
    ensures InterfaceMatches(pattern, name) <==> Denotes(pattern, name)
  {
    if pattern != [] && pattern[|pattern| - 1] == '*' {
      var stem := pattern[..|pattern| - 1];
      if stem <= name { assert Extends(name, stem, name[|stem|..]); }
    }
  }

  lemma AnyMatchesListed(patterns: seq<string>, name: string)
    ensures AnyMatches(patterns, name) <==> Listed(patterns, name)
  {
    forall i | 0 <= i < |patterns|
      ensures InterfaceMatches(patterns[i], name) <==> Denotes(patterns[i], name)
    {
      InterfaceMatchesDenotes(patterns[i], name);
    }
  }

  ghost predicate Listed(patterns: seq<string>, name: string) {
    exists i | 0 <= i < |patterns| :: Denotes(patterns[i], name)
  }

  /** Truth of an interface-name test, where nft's meaning is known. */
  ghost function InterfaceTest(m: Json, p: Packet): Option<bool> {
    var key := Pointer(m, "left", "meta", "key");
    if (key != Some("iifname") && key != Some("oifname")) || RightStrings(m).None? then None
    else
      var listed := Listed(RightStrings(m).value, if key == Some("iifname") then p.iif else p.oif);
      if Positive(m) then Some(listed) else if Negative(m) then Some(!listed) else None
  }

  /** Truth of a connection-tracking state test, where nft's meaning is known. */
  function StateTest(m: Json, p: Packet): Option<bool> {
    if Pointer(m, "left", "ct", "key") == Some("state") && Positive(m) && RightStrings(m).Some?
    then Some(p.ctState in RightStrings(m).value)
    else None
  }

  /** Does a match hold? Nft gives a match a single operand, so at most one test is known. */
  ghost predicate Holds(m: Json, p: Packet, guess: bool) {
    if InterfaceTest(m, p).None? && StateTest(m, p).None? then guess
    else
      && (InterfaceTest(m, p).Some? ==> InterfaceTest(m, p).value)
      && (StateTest(m, p).Some? ==> StateTest(m, p).value)
  }

  // ---- Rules -----------------------------------------------------------------------

  datatype Effect = Continue | DropPacket | AcceptPacket | ReturnFromChain | JumpTo(to: string) | GotoTo(to: string)

  predicate IsVerdict(e: Json) {
    && !Has(e, "match")
    && (CanDrop(e) || TargetOf(e, "jump").Chain? || TargetOf(e, "goto").Chain? || Has(e, "accept") || Has(e, "return"))
  }

  /** Evaluate statements from the left. A failed match ends the rule without a verdict;
      so may any unrecognised statement (a rate limit, say). A verdict map is arbitrary. */
  ghost function RunRule(es: seq<Json>, p: Packet, oracle: Oracle, k: nat): (r: (Effect, nat))
    decreases |es|
  {
    if es == [] then (Continue, k)
    else
      var e := es[0];
      if Has(e, "match") then
        if Holds(Get(e, "match").value, p, oracle(k) % 2 == 0) then RunRule(es[1..], p, oracle, k + 1) else (Continue, k + 1)
      else if Has(e, "drop") || Has(e, "reject") then (DropPacket, k)
      else if Has(e, "vmap") then
        if oracle(k) % 3 == 0 then RunRule(es[1..], p, oracle, k + 1)
        else if oracle(k) % 3 == 1 then (DropPacket, k + 1) else (AcceptPacket, k + 1)
      else if TargetOf(e, "jump").Chain? then (JumpTo(TargetOf(e, "jump").name), k)
      else if TargetOf(e, "goto").Chain? then (GotoTo(TargetOf(e, "goto").name), k)
      else if Has(e, "accept") then (AcceptPacket, k)
      else if Has(e, "return") then (ReturnFromChain, k)
      else if oracle(k) % 2 == 0 then RunRule(es[1..], p, oracle, k + 1)
      else (Continue, k + 1)
  }

  /** No verdict statement stands before the first test the packet never passes. */
  ghost predicate Silent(es: seq<Json>, p: Packet) {
    es == [] || NeverHolds(es[0], p) || (!IsVerdict(es[0]) && Silent(es[1..], p))
  }

  /** A match that the packet does not satisfy, whatever the oracle says. */
  ghost predicate NeverHolds(e: Json, p: Packet) {
    Has(e, "match") && forall guess :: !Holds(Get(e, "match").value, p, guess)
  }

  lemma {:induction false} SilentRuleContinues(es: seq<Json>, p: Packet, oracle: Oracle, k: nat)
    requires Silent(es, p)
    ensures RunRule(es, p, oracle, k).0 == Continue
    decreases |es|
  {
    if es != [] && !NeverHolds(es[0], p) { SilentRuleContinues(es[1..], p, oracle, k + 1); }
  }

  /** Only answers from position k on matter to a rule evaluated there. */
  lemma {:induction false} LaterAnswersDecide(es: seq<Json>, p: Packet, a: Oracle, b: Oracle, k: nat)
    requires forall i: nat | i >= k :: a(i) == b(i)
    ensures RunRule(es, p, a, k) == RunRule(es, p, b, k)
    decreases |es|
  {
    if es != [] { LaterAnswersDecide(es[1..], p, a, b, k + 1); }
  }

  /** The verdict that stands there can drop. */
  ghost predicate CanDropAhead(es: seq<Json>, p: Packet) {
    && es != [] && !NeverHolds(es[0], p)
    && if IsVerdict(es[0]) then CanDrop(es[0]) else CanDropAhead(es[1..], p)
  }

  lemma {:induction false} LoudRuleActs(es: seq<Json>, p: Packet, k: nat) returns (oracle: Oracle)
    requires !Silent(es, p)
    ensures RunRule(es, p, oracle, k).0 != Continue
    ensures CanDropAhead(es, p) ==> RunRule(es, p, oracle, k).0 == DropPacket
    decreases |es|
  {
    var e := es[0];
    if IsVerdict(e) {
      oracle := (i: nat) => 1;
    } else {
      var later := LoudRuleActs(es[1..], p, k + 1);
      var answer: nat :| answer < 2 && (Has(e, "match") ==> Holds(Get(e, "match").value, p, answer % 2 == 0)) && (!Has(e, "match") ==> answer == 0);
      oracle := (i: nat) => if i == k then answer else later(i);
      LaterAnswersDecide(es[1..], p, oracle, later, k + 1);
    }
  }

  /** A rule is passed over whatever the unrecognised statements answer if and only if no verdict
      stands before the first test the packet never passes. */
  lemma RuleContinuesIff(es: seq<Json>, p: Packet)
    ensures (forall oracle: Oracle, k: nat :: RunRule(es, p, oracle, k).0 == Continue) <==> Silent(es, p)
  {
    if Silent(es, p) {
      forall oracle: Oracle, k: nat
        ensures RunRule(es, p, oracle, k).0 == Continue
      {
        SilentRuleContinues(es, p, oracle, k);
      }
    } else {
      var oracle := LoudRuleActs(es, p, 0);
      assert RunRule(es, p, oracle, 0).0 != Continue;
    }
  }

  // ---- Chains -----------------------------------------------------------------------

  datatype Outcome = Dropped | Accepted | Fell | Diverged

  ghost predicate AreRules(table: Table, rules: seq<Json>, chain: string) {
    forall i | 0 <= i < |rules| :: rules[i] in table.items && RuleOf(table, rules[i], chain)
  }

  function RulesIn(table: Table, items: seq<Json>, chain: string): (rules: seq<Json>)
    requires forall item | item in items :: item in table.items
    ensures AreRules(table, rules, chain)
  {
    if items == [] then []
    else
      assert items[0] in items;
      (if RuleOf(table, items[0], chain) then [items[0]] else []) + RulesIn(table, items[1..], chain)
  }

  function RulesOf(table: Table, chain: string): (rules: seq<Json>)
    ensures AreRules(table, rules, chain)
  {
    RulesIn(table, table.items, chain)
  }

  function Statements(item: Json): seq<Json> {
    if Expressions(item).Some? then Expressions(item).value else []
  }

  /** What one rule does, as a function of the rule and the position in the oracle. */
  type Evaluator = (Json, nat) -> (Effect, nat)

  ghost function RuleEffect(p: Packet, oracle: Oracle): Evaluator {
    (item: Json, k: nat) => RunRule(Statements(item), p, oracle, k)
  }

  /** Run the remaining rules of a chain. `jump` comes back to the next rule when its
      target falls through or returns; `goto` does not. Evaluation is cut off after
      `fuel` steps, so a cyclic ruleset has a meaning for every amount of fuel. */
  function RunChain(table: Table, rules: seq<Json>, eval: Evaluator, k: nat, fuel: nat): (r: (Outcome, nat))
    decreases fuel
  {
    if fuel == 0 then (Diverged, k)
    else if rules == [] then (Fell, k)
    else
      var (effect, k1) := eval(rules[0], k);
      match effect
      case Continue => RunChain(table, rules[1..], eval, k1, fuel - 1)
      case DropPacket => (Dropped, k1)
      case AcceptPacket => (Accepted, k1)
      case ReturnFromChain => (Fell, k1)
      case JumpTo(to) =>
        var (outcome, k2) := RunChain(table, RulesOf(table, to), eval, k1, fuel - 1);
        if outcome.Fell? then RunChain(table, rules[1..], eval, k2, fuel - 1) else (outcome, k2)
      case GotoTo(to) => RunChain(table, RulesOf(table, to), eval, k1, fuel - 1)
  }

  /** The fate of a packet at one base chain, including its policy. */
  ghost function BaseOutcome(items: seq<Json>, base: Json, p: Packet, oracle: Oracle, fuel: nat): Outcome {
    var table := TableOf(items, base);
    var outcome := RunChain(table, RulesOf(table, BaseName(base)), RuleEffect(p, oracle), 0, fuel).0;
    if outcome != Fell then outcome
    else if GetStr(base, "policy") == Some("drop") then Dropped
    else Accepted
  }

  // ---- Soundness ----------------------------------------------------------------------

  lemma InterfaceTestAgrees(m: Json, p: Packet)
    ensures MatchPossible(m, p.iif, p.oif) <==> InterfaceTest(m, p) != Some(false)
  {
    if RightStrings(m).Some? {
      AnyMatchesListed(RightStrings(m).value, p.iif);
      AnyMatchesListed(RightStrings(m).value, p.oif);
    }
  }

  /** A state test against the empty set, which no packet passes. */
  predicate StateInNothing(m: Json) {
    Pointer(m, "left", "ct", "key") == Some("state") && Positive(m) && RightStrings(m) == Some([])
  }

  /** The preflight's test of one match is exact but for a state test against the empty set: it answers yes
      there too, and otherwise if and only if some packet between these interfaces, in some connection
      state, can pass the match. */
  lemma MatchPossibleExact(m: Json, input: string, output: string)
    ensures (exists state, guess :: Holds(m, Packet(input, output, state), guess)) <==> MatchPossible(m, input, output) && !StateInNothing(m)
  {
    var state := if RightStrings(m).Some? && RightStrings(m).value != [] then RightStrings(m).value[0] else "";
    InterfaceTestAgrees(m, Packet(input, output, state));
    if MatchPossible(m, input, output) && !StateInNothing(m) {
      assert Holds(m, Packet(input, output, state), true);
    } else {
      forall state, guess
        ensures !Holds(m, Packet(input, output, state), guess)
      {
        InterfaceTestAgrees(m, Packet(input, output, state));
      }
    }
  }

  lemma InvalidOnlyNeverHolds(m: Json, p: Packet)
    requires InvalidOnly(m) && p.ctState != "invalid"
    ensures forall guess :: !Holds(m, p, guess)
  {
  }

  lemma UnrelatedHasBlocker(es: seq<Json>, p: Packet, tun: string, phys: string) returns (e: Json)
    requires Unrelated(es, tun, phys) && OurFlow(p, tun, phys)
    ensures e in es && NeverHolds(e, p)
  {
    if m :| m in Matches(es) && InvalidOnly(m) {
      e :| e in es && Has(e, "match") && Get(e, "match").value == m;
      InvalidOnlyNeverHolds(m, p);
    } else {
      assert !Possible(es, p.iif, p.oif);
      var m :| m in Matches(es) && !MatchPossible(m, p.iif, p.oif);
      e :| e in es && Has(e, "match") && Get(e, "match").value == m;
      InterfaceTestAgrees(m, p);
    }
  }

  /** In particular a discarded rule whose verdict comes last is passed over. */
  lemma {:induction false} VerdictLastIsSilent(es: seq<Json>, e: Json, p: Packet)
    requires e in es && NeverHolds(e, p) && forall i | 0 <= i < |es| - 1 :: !IsVerdict(es[i])
    ensures Silent(es, p)
    decreases |es|
  {
    if es[0] != e {
      assert e in es[1..];
      assert forall i | 0 <= i < |es[1..]| - 1 :: es[1..][i] == es[i + 1];
      VerdictLastIsSilent(es[1..], e, p);
    }
  }

  /** A rule the preflight discards in a chain it visits from chain `name`. */
  ghost predicate Discarded(sc: Scope, name: string, item: Json) {
    && item in sc.table.items && Unrelated(Statements(item), sc.tun, sc.phys)
    && exists chain :: Reachable(sc, name, chain) && RuleOf(sc.table, item, chain)
  }

  /** Every such rule is passed over by the packet. */
  ghost predicate DiscardsSilent(sc: Scope, name: string, p: Packet) {
    forall item | Discarded(sc, name, item) :: Silent(Statements(item), p)
  }

  lemma VerdictLastDiscardsSilent(sc: Scope, name: string, p: Packet)
    requires OurFlow(p, sc.tun, sc.phys)
    requires forall item | Discarded(sc, name, item) :: forall i | 0 <= i < |Statements(item)| - 1 :: !IsVerdict(Statements(item)[i])
    ensures DiscardsSilent(sc, name, p)
  {
    forall item | Discarded(sc, name, item)
      ensures Silent(Statements(item), p)
    {
      var e := UnrelatedHasBlocker(Statements(item), p, sc.tun, sc.phys);
      VerdictLastIsSilent(Statements(item), e, p);
    }
  }

  lemma {:induction false} HarmlessRule(es: seq<Json>, p: Packet, oracle: Oracle, k: nat)
    requires forall e | e in es :: !CanDrop(e)
    ensures RunRule(es, p, oracle, k).0 != DropPacket
    ensures RunRule(es, p, oracle, k).0.JumpTo? ==> exists e | e in es :: TargetOf(e, "jump") == Chain(RunRule(es, p, oracle, k).0.to)
    ensures RunRule(es, p, oracle, k).0.GotoTo? ==> exists e | e in es :: TargetOf(e, "goto") == Chain(RunRule(es, p, oracle, k).0.to)
    decreases |es|
  {
    if es != [] {
      assert es[0] in es;
      assert forall e | e in es[1..] :: e in es;
      HarmlessRule(es[1..], p, oracle, k + 1);
    }
  }

  ghost predicate Stays(effect: Effect, chains: iset<string>) {
    effect != DropPacket && (effect.JumpTo? || effect.GotoTo? ==> effect.to in chains)
  }

  /** No rule of these chains drops the packet or leads outside of them. */
  ghost predicate Harmless(table: Table, eval: Evaluator, chains: iset<string>) {
    forall chain, item, k: nat | chain in chains && item in table.items && RuleOf(table, item, chain) ::
      Stays(eval(item, k).0, chains)
  }

  lemma {:induction false} HarmlessChainSafe(table: Table, chains: iset<string>, chain: string, rules: seq<Json>,
                                             eval: Evaluator, k: nat, fuel: nat)
    requires Harmless(table, eval, chains) && chain in chains && AreRules(table, rules, chain)
    ensures RunChain(table, rules, eval, k, fuel).0 != Dropped
    decreases fuel
  {
    if fuel > 0 && rules != [] {
      var (effect, k1) := eval(rules[0], k);
      assert Stays(effect, chains);
      match effect {
        case Continue => HarmlessChainSafe(table, chains, chain, rules[1..], eval, k1, fuel - 1);
        case JumpTo(to) =>
          HarmlessChainSafe(table, chains, to, RulesOf(table, to), eval, k1, fuel - 1);
          var k2 := RunChain(table, RulesOf(table, to), eval, k1, fuel - 1).1;
          HarmlessChainSafe(table, chains, chain, rules[1..], eval, k2, fuel - 1);
        case GotoTo(to) => HarmlessChainSafe(table, chains, to, RulesOf(table, to), eval, k1, fuel - 1);
        case _ =>
      }
    }
  }

  /** One rule of a reachable chain: no drop, and transfers stay reachable. */
  lemma ReachableRuleStays(sc: Scope, name: string, chain: string, item: Json, p: Packet, oracle: Oracle, k: nat)
    requires DiscardsSilent(sc, name, p)
    requires !Hazard(sc, chain) && !Unreadable(sc, chain)
    requires Reachable(sc, name, chain) && item in sc.table.items && RuleOf(sc.table, item, chain)
    ensures Stays(RunRule(Statements(item), p, oracle, k).0, iset c | Reachable(sc, name, c))
  {
    var es := Statements(item);
    var effect := RunRule(es, p, oracle, k).0;
    if Unrelated(es, sc.tun, sc.phys) {
      assert Discarded(sc, name, item);
      SilentRuleContinues(es, p, oracle, k);
    } else {
      assert Related(sc, item, chain);
      HarmlessRule(es, p, oracle, k);
      if effect.JumpTo? || effect.GotoTo? {
        assert Edge(sc, chain, effect.to);
        ReachableStep(sc, name, chain, effect.to);
      }
    }
  }

  /** Soundness: an accepted ruleset drops no packet of our flow at any external forward
      base chain, for every oracle and however long evaluation runs, provided the rules the
      preflight discards on its way are passed over. */
  lemma PreflightSound(ruleset: Json, tun: string, phys: string, base: Json, p: Packet, oracle: Oracle, fuel: nat)
    requires Clean(ruleset, tun, phys)
    requires BaseOf(Items(ruleset).value, base) && ExternalForward(base)
    requires OurFlow(p, tun, phys) && DiscardsSilent(ScopeOf(Items(ruleset).value, base, tun, phys), BaseName(base), p)
    ensures BaseOutcome(Items(ruleset).value, base, p, oracle, fuel) != Dropped
  {
    var items := Items(ruleset).value;
    var sc := ScopeOf(items, base, tun, phys);
    var name := BaseName(base);
    var chains := iset c | Reachable(sc, name, c);
    ReachableSelf(sc, name);
    var eval := RuleEffect(p, oracle);
    forall chain, item, k: nat | chain in chains && item in sc.table.items && RuleOf(sc.table, item, chain)
      ensures Stays(eval(item, k).0, chains)
    {
      ReachableRuleStays(sc, name, chain, item, p, oracle, k);
    }
    HarmlessChainSafe(sc.table, chains, name, RulesOf(sc.table, name), eval, 0, fuel);
  }

  // ---- The condition on discarded rules is needed ----------------------------------------

  const VERDICT_MAP: Json := Obj(map["vmap" := Null])
  const LOOPBACK_TEST: Json :=
    Obj(map["op" := Str("=="), "left" := Obj(map["meta" := Obj(map["key" := Str("iifname")])]), "right" := Str("lo")])
  const MISORDERED: seq<Json> := [VERDICT_MAP, Obj(map["match" := LOOPBACK_TEST])]
  const FORWARD_BASE: Json :=
    Obj(map["family" := Str("inet"), "table" := Str("t"), "name" := Str("f"), "hook" := Str("forward")])
  const MISORDERED_RULE: Json :=
    Obj(map["rule" := Obj(map["family" := Str("inet"), "table" := Str("t"), "chain" := Str("f"), "expr" := Arr(MISORDERED)])])
  const MISORDERED_ITEMS: seq<Json> := [Obj(map["chain" := FORWARD_BASE]), MISORDERED_RULE]

  lemma MisorderedUnrelated()
    ensures Unrelated(MISORDERED, "fp0", "eth0")
  {
    assert MISORDERED[1] in MISORDERED && Has(MISORDERED[1], "match");
    assert LOOPBACK_TEST in Matches(MISORDERED);
    assert RightStrings(LOOPBACK_TEST) == Some(["lo"]);
    assert !MatchPossible(LOOPBACK_TEST, "fp0", "eth0");
    assert !MatchPossible(LOOPBACK_TEST, "eth0", "fp0");
  }

  /** A ruleset all of whose rules are readable and unrelated is accepted. */
  lemma UnrelatedRulesAreClean(items: seq<Json>, base: Json, tun: string, phys: string)
    requires GetStr(base, "policy") != Some("drop")
    requires forall item | item in items && Has(item, "rule") ::
               Expressions(item).Some? && Unrelated(Expressions(item).value, tun, phys)
    ensures CleanBase(items, base, tun, phys)
  {
  }

  lemma MisorderedRuleShape()
    ensures Expressions(MISORDERED_RULE) == Some(MISORDERED)
    ensures forall item | item in MISORDERED_ITEMS && Has(item, "rule") :: item == MISORDERED_RULE
  {
  }

  lemma MisorderedBases(base: Json)
    requires BaseOf(MISORDERED_ITEMS, base)
    ensures base == FORWARD_BASE && GetStr(base, "policy").None?
  {
  }

  lemma MisorderedClean()
    ensures Clean(Obj(map["nftables" := Arr(MISORDERED_ITEMS)]), "fp0", "eth0")
  {
    var ruleset := Obj(map["nftables" := Arr(MISORDERED_ITEMS)]);
    assert Items(ruleset) == Some(MISORDERED_ITEMS);
    forall base | BaseOf(MISORDERED_ITEMS, base) && ExternalForward(base)
      ensures CleanBase(MISORDERED_ITEMS, base, "fp0", "eth0")
    {
      MisorderedUnrelated();
      MisorderedRuleShape();
      MisorderedBases(base);
      UnrelatedRulesAreClean(MISORDERED_ITEMS, base, "fp0", "eth0");
    }
  }

  lemma MisorderedRules()
    ensures RulesOf(TableOf(MISORDERED_ITEMS, FORWARD_BASE), "f") == [MISORDERED_RULE]
  {
    var items := MISORDERED_ITEMS;
    var table := TableOf(items, FORWARD_BASE);
    assert RuleOf(table, items[1], "f") && !RuleOf(table, items[0], "f");
    assert items[1..] == [items[1]] && items[1..][1..] == [];
    assert RulesIn(table, items[1..], "f") == [items[1]];
  }

  lemma LeadingRuleDrops(items: seq<Json>, base: Json, p: Packet, oracle: Oracle, fuel: nat)
    requires fuel >= 1 && RulesOf(TableOf(items, base), BaseName(base)) != []
    requires RunRule(Statements(RulesOf(TableOf(items, base), BaseName(base))[0]), p, oracle, 0).0 == DropPacket
    ensures BaseOutcome(items, base, p, oracle, fuel) == Dropped
  {
  }

  lemma MisorderedDrops(p: Packet, oracle: Oracle)
    requires oracle(0) % 3 == 1
    ensures RunRule(Statements(MISORDERED_RULE), p, oracle, 0).0 == DropPacket
  {
    MisorderedRuleShape();
    assert Statements(MISORDERED_RULE) == MISORDERED && MISORDERED[0] == VERDICT_MAP;
  }

  /** A test written after a verdict map is enough for the preflight to discard the rule, although
      the map may have dropped the packet before the test is looked at. */
  lemma TestAfterVerdictMapDefeatsPreflight(oracle: Oracle)
    requires oracle(0) % 3 == 1
    ensures Clean(Obj(map["nftables" := Arr(MISORDERED_ITEMS)]), "fp0", "eth0")
    ensures BaseOutcome(MISORDERED_ITEMS, FORWARD_BASE, Packet("fp0", "eth0", "new"), oracle, 1) == Dropped
  {
    var p := Packet("fp0", "eth0", "new");
    MisorderedClean();
    MisorderedRules();
    MisorderedDrops(p, oracle);
    LeadingRuleDrops(MISORDERED_ITEMS, FORWARD_BASE, p, oracle, 1);
  }
}
