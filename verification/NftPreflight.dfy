/**
 The forward-path preflight of `node/src/firewall.rs`: a worklist analysis over an nft
 ruleset, and exactly which rulesets it accepts.
 */
module NftPreflight {
  import opened Common

  // ---- The ruleset, as `nft -j list ruleset` prints it ------------------------------

  datatype Json =
    | Null
    | Bool(b: bool)
    | Number(n: int)
    | Str(s: string)
    | Arr(items: seq<Json>)
    | Obj(fields: map<string, Json>)

  function Get(v: Json, key: string): Option<Json> {
    if v.Obj? && key in v.fields then Some(v.fields[key]) else None
  }

  predicate Has(v: Json, key: string) {
    Get(v, key).Some?
  }

  function GetStr(v: Json, key: string): Option<string> {
    match Get(v, key)
    case Some(Str(s)) => Some(s)
    case _ => None
  }

  function StrOr(v: Json, key: string, default: string): string {
    match GetStr(v, key)
    case Some(s) => s
    case None => default
  }

  function Pointer(v: Json, outer: string, inner: string, leaf: string): Option<string> {
    match Get(v, outer)
    case None => None
    case Some(o) =>
      match Get(o, inner)
      case None => None
      case Some(i) => GetStr(i, leaf)
  }

  function Items(ruleset: Json): Option<seq<Json>> {
    match Get(ruleset, "nftables")
    case Some(Arr(items)) => Some(items)
    case _ => None
  }

  // ---- Rule predicates ---------------------------------------------------------------

  /** A trailing `*` makes the pattern a prefix; any other pattern is a literal name. */
  predicate InterfaceMatches(pattern: string, name: string) {
    if pattern != [] && pattern[|pattern| - 1] == '*'
    then pattern[..|pattern| - 1] <= name
    else pattern == name
  }

  /** The strings an operand denotes; named sets and non-string members denote none. */
  function MatchStrings(v: Json): Option<seq<string>> {
    if v.Str? then
      if v.s != [] && v.s[0] == '@' then None else Some([v.s])
    else
      match Get(v, "set")
      case Some(Arr(items)) =>
        if forall i | 0 <= i < |items| :: items[i].Str?
        then Some(seq(|items|, i requires 0 <= i < |items| && items[i].Str? => items[i].s))
        else None
      case _ => None
  }

  function RightStrings(m: Json): Option<seq<string>> {
    match Get(m, "right")
    case None => None
    case Some(right) => MatchStrings(right)
  }

  predicate Positive(m: Json) {
    GetStr(m, "op") == Some("==") || GetStr(m, "op") == Some("in")
  }

  predicate Negative(m: Json) {
    GetStr(m, "op") == Some("!=")
  }

  predicate AnyMatches(patterns: seq<string>, name: string) {
    exists i | 0 <= i < |patterns| :: InterfaceMatches(patterns[i], name)
  }

  function Matches(exprs: seq<Json>): set<Json> {
    set e | e in exprs && Has(e, "match") :: Get(e, "match").value
  }

  predicate InvalidOnly(m: Json) {
    && Positive(m)
    && Pointer(m, "left", "ct", "key") == Some("state")
    && RightStrings(m).Some?
    && RightStrings(m).value != []
    && forall s | s in RightStrings(m).value :: s == "invalid"
  }

  /** One match of `possible`: can a packet with these interfaces satisfy it? */
  predicate MatchPossible(m: Json, input: string, output: string) {
    var key := Pointer(m, "left", "meta", "key");
    if key != Some("iifname") && key != Some("oifname") then true
    else if RightStrings(m).None? then true
    else
      var matched := AnyMatches(RightStrings(m).value, if key == Some("iifname") then input else output);
      if Positive(m) then matched else if Negative(m) then !matched else true
  }

  predicate Possible(exprs: seq<Json>, input: string, output: string) {
    forall m | m in Matches(exprs) :: MatchPossible(m, input, output)
  }

  predicate Unrelated(exprs: seq<Json>, tun: string, phys: string) {
    || (exists m | m in Matches(exprs) :: InvalidOnly(m))
    || (!Possible(exprs, tun, phys) && !Possible(exprs, phys, tun))
  }

  // ---- Chains and the graph the analysis walks -----------------------------------------

  datatype Table = Table(items: seq<Json>, family: string, name: string)

  predicate RuleOf(table: Table, item: Json, chain: string) {
    match Get(item, "rule")
    case None => false
    case Some(r) =>
      && GetStr(r, "family") == Some(table.family)
      && GetStr(r, "table") == Some(table.name)
      && GetStr(r, "chain") == Some(chain)
  }

  /** A table together with the two interfaces whose flow is being checked. */
  datatype Scope = Scope(table: Table, tun: string, phys: string)

  function Expressions(item: Json): Option<seq<Json>> {
    match Get(item, "rule")
    case None => None
    case Some(r) =>
      match Get(r, "expr")
      case Some(Arr(es)) => Some(es)
      case _ => None
  }

  predicate CanDrop(e: Json) {
    Has(e, "drop") || Has(e, "reject") || Has(e, "vmap")
  }

  /** The target of a `jump` or `goto` key: absent, a chain name, or malformed. */
  datatype Target = NoTarget | Chain(name: string) | BadTarget

  function TargetOf(e: Json, key: string): Target {
    match Get(e, key)
    case None => NoTarget
    case Some(t) =>
      match GetStr(t, "target")
      case Some(name) => Chain(name)
      case None => BadTarget
  }

  /** A rule the analysis looks into, in chain `chain`. */
  ghost predicate Related(sc: Scope, item: Json, chain: string) {
    && item in sc.table.items
    && RuleOf(sc.table, item, chain)
    && Expressions(item).Some?
    && !Unrelated(Expressions(item).value, sc.tun, sc.phys)
  }

  ghost predicate Edge(sc: Scope, from: string, to: string) {
    exists item, e ::
      && Related(sc, item, from)
      && e in Expressions(item).value
      && (TargetOf(e, "jump") == Chain(to) || TargetOf(e, "goto") == Chain(to))
  }

  ghost predicate IsPath(sc: Scope, path: seq<string>) {
    path != [] && forall i | 0 <= i < |path| - 1 :: Edge(sc, path[i], path[i + 1])
  }

  ghost predicate Reachable(sc: Scope, from: string, to: string) {
    exists path :: IsPath(sc, path) && path[0] == from && path[|path| - 1] == to
  }

  /** A rule that could discard our flow. */
  ghost predicate Hazard(sc: Scope, chain: string) {
    exists item, e :: Related(sc, item, chain) && e in Expressions(item).value && CanDrop(e)
  }

  /** A rule the analysis cannot read. */
  ghost predicate Unreadable(sc: Scope, chain: string) {
    || (exists item :: item in sc.table.items && RuleOf(sc.table, item, chain) && Expressions(item).None?)
    || (exists item, e :: Related(sc, item, chain) && e in Expressions(item).value
                          && (TargetOf(e, "jump").BadTarget? || TargetOf(e, "goto").BadTarget?))
  }

  // ---- Base chains -----------------------------------------------------------------------

  predicate ExternalForward(base: Json) {
    var family := StrOr(base, "family", "");
    && (family == "inet" || family == "ip" || family == "ip6")
    && !("fluxpeer_" <= StrOr(base, "table", ""))
    && GetStr(base, "hook") == Some("forward")
  }

  function TableOf(items: seq<Json>, base: Json): Table {
    Table(items, StrOr(base, "family", ""), StrOr(base, "table", ""))
  }

  function ScopeOf(items: seq<Json>, base: Json, tun: string, phys: string): Scope {
    Scope(TableOf(items, base), tun, phys)
  }

  function BaseName(base: Json): string {
    StrOr(base, "name", "")
  }

  predicate BaseOf(items: seq<Json>, base: Json) {
    exists i | 0 <= i < |items| :: Get(items[i], "chain") == Some(base)
  }

  /** Nothing reachable from this base chain can discard the flow or defeats the analysis. */
  ghost predicate CleanBase(items: seq<Json>, base: Json, tun: string, phys: string) {
    var sc := ScopeOf(items, base, tun, phys);
    && GetStr(base, "policy") != Some("drop")
    && forall c | Reachable(sc, BaseName(base), c) :: !Hazard(sc, c) && !Unreadable(sc, c)
  }

  ghost predicate Clean(ruleset: Json, tun: string, phys: string) {
    && Items(ruleset).Some?
    && forall base | BaseOf(Items(ruleset).value, base) && ExternalForward(base) ::
         CleanBase(Items(ruleset).value, base, tun, phys)
  }

  ghost predicate HasPolicyHazard(items: seq<Json>, base: Json, tun: string, phys: string) {
    var sc := ScopeOf(items, base, tun, phys);
    || GetStr(base, "policy") == Some("drop")
    || exists c :: Reachable(sc, BaseName(base), c) && Hazard(sc, c)
  }

  ghost predicate HasUnreadable(items: seq<Json>, base: Json, tun: string, phys: string) {
    var sc := ScopeOf(items, base, tun, phys);
    exists c :: Reachable(sc, BaseName(base), c) && Unreadable(sc, c)
  }

  // ---- Reachability facts ------------------------------------------------------------------

  lemma ReachableSelf(sc: Scope, c: string)
    ensures Reachable(sc, c, c)
  {
    assert IsPath(sc, [c]);
  }

  lemma ReachableStep(sc: Scope, a: string, b: string, c: string)
    requires Reachable(sc, a, b) && Edge(sc, b, c)
    ensures Reachable(sc, a, c)
  {
    var path :| IsPath(sc, path) && path[0] == a && path[|path| - 1] == b;
    var longer := path + [c];
    forall i | 0 <= i < |longer| - 1
      ensures Edge(sc, longer[i], longer[i + 1])
    {
      if i < |path| - 1 { assert Edge(sc, path[i], path[i + 1]); }
    }
    assert IsPath(sc, longer);
  }

  ghost predicate ClosedUnderEdges(sc: Scope, chains: set<string>) {
    forall a, b | a in chains && Edge(sc, a, b) :: b in chains
  }

  lemma {:induction false} ClosedContainsPath(sc: Scope, chains: set<string>, path: seq<string>, i: nat)
    requires ClosedUnderEdges(sc, chains) && IsPath(sc, path) && path[0] in chains && i < |path|
    ensures path[i] in chains
  {
    if i > 0 {
      ClosedContainsPath(sc, chains, path, i - 1);
      assert Edge(sc, path[i - 1], path[(i - 1) + 1]);
    }
  }

  lemma ClosedContainsReachable(sc: Scope, chains: set<string>, from: string)
    requires ClosedUnderEdges(sc, chains) && from in chains
    ensures forall c | Reachable(sc, from, c) :: c in chains
  {
    forall c | Reachable(sc, from, c)
      ensures c in chains
    {
      var path :| IsPath(sc, path) && path[0] == from && path[|path| - 1] == c;
      ClosedContainsPath(sc, chains, path, |path| - 1);
    }
  }

  // ---- The analysis ---------------------------------------------------------------------------

  datatype Verdict = Ok | Policy | Inspection

  /** Every chain name a rule of the scope can name as a target. */
  ghost function Targets(sc: Scope): set<string> {
    set item, e, t | item in sc.table.items && Expressions(item).Some? && e in Expressions(item).value
                     && t in TargetNames(e) :: t
  }

  function TargetNames(e: Json): set<string> {
    (if TargetOf(e, "jump").Chain? then {TargetOf(e, "jump").name} else {})
    + (if TargetOf(e, "goto").Chain? then {TargetOf(e, "goto").name} else {})
  }

  /** One rule of the worklist loop: reject it, or push the chains it can transfer to. */
  method ScanRule(sc: Scope, item: Json, chain: string) returns (v: Verdict, pushed: seq<string>)
    requires item in sc.table.items && RuleOf(sc.table, item, chain)
    ensures v.Policy? ==> Hazard(sc, chain)
    ensures v.Inspection? ==> Unreadable(sc, chain)
    ensures v.Ok? ==> Expressions(item).Some?
    ensures v.Ok? && Related(sc, item, chain) ==>
              forall e | e in Expressions(item).value ::
                && !CanDrop(e)
                && !TargetOf(e, "jump").BadTarget? && !TargetOf(e, "goto").BadTarget?
                && forall t | t in TargetNames(e) :: t in pushed
    ensures forall t | t in pushed :: Edge(sc, chain, t) && t in Targets(sc)
  {
    pushed := [];
    if Expressions(item).None? { return Inspection, []; }
    var exprs := Expressions(item).value;
    if Unrelated(exprs, sc.tun, sc.phys) { return Ok, []; }
    assert Related(sc, item, chain);
    for i := 0 to |exprs|
      invariant forall e | e in exprs[..i] ::
                  && !CanDrop(e)
                  && !TargetOf(e, "jump").BadTarget? && !TargetOf(e, "goto").BadTarget?
                  && forall t | t in TargetNames(e) :: t in pushed
      invariant forall t | t in pushed :: Edge(sc, chain, t) && t in Targets(sc)
    {
      var e := exprs[i];
      assert e in exprs;
      if CanDrop(e) { return Policy, []; }
      var jump := TargetOf(e, "jump");
      if jump.BadTarget? { return Inspection, []; }
      if jump.Chain? {
        assert jump.name in TargetNames(e);
        pushed := pushed + [jump.name];
      }
      var goto := TargetOf(e, "goto");
      if goto.BadTarget? { return Inspection, []; }
      if goto.Chain? {
        assert goto.name in TargetNames(e);
        pushed := pushed + [goto.name];
      }
      assert exprs[..i + 1] == exprs[..i] + [e];
    }
    assert exprs[..|exprs|] == exprs;
    v := Ok;
  }

  /** What a scanned chain guarantees: readable, harmless, and all its targets queued. */
  ghost predicate Scanned(sc: Scope, chain: string, queued: set<string>) {
    && !Hazard(sc, chain)
    && !Unreadable(sc, chain)
    && forall t | Edge(sc, chain, t) :: t in queued
  }

  ghost predicate ItemScanned(sc: Scope, item: Json, chain: string, queued: set<string>) {
    RuleOf(sc.table, item, chain) ==>
      && Expressions(item).Some?
      && (Related(sc, item, chain) ==>
            forall e | e in Expressions(item).value ::
              && !CanDrop(e)
              && !TargetOf(e, "jump").BadTarget? && !TargetOf(e, "goto").BadTarget?
              && forall t | t in TargetNames(e) :: t in queued)
  }

  lemma AllItemsScanned(sc: Scope, chain: string, queued: set<string>)
    requires forall item | item in sc.table.items :: ItemScanned(sc, item, chain, queued)
    ensures Scanned(sc, chain, queued)
  {
  }

  /** Scan every rule of one chain, pushing its targets onto the stack. */
  method ScanChain(sc: Scope, chain: string) returns (v: Verdict, pushed: seq<string>)
    ensures v.Policy? ==> Hazard(sc, chain)
    ensures v.Inspection? ==> Unreadable(sc, chain)
    ensures v.Ok? ==> Scanned(sc, chain, Elements(pushed))
    ensures forall t | t in pushed :: Edge(sc, chain, t) && t in Targets(sc)
  {
    pushed := [];
    for i := 0 to |sc.table.items|
      invariant forall item | item in sc.table.items[..i] :: ItemScanned(sc, item, chain, Elements(pushed))
      invariant forall t | t in pushed :: Edge(sc, chain, t) && t in Targets(sc)
    {
      var item := sc.table.items[i];
      ghost var before := Elements(pushed);
      if RuleOf(sc.table, item, chain) {
        var more;
        v, more := ScanRule(sc, item, chain);
        if !v.Ok? { return v, []; }
        pushed := pushed + more;
      }
      ghost var after := Elements(pushed);
      assert before <= after;
      assert sc.table.items[..i + 1] == sc.table.items[..i] + [item];
      assert ItemScanned(sc, item, chain, after);
    }
    assert sc.table.items[..|sc.table.items|] == sc.table.items;
    AllItemsScanned(sc, chain, Elements(pushed));
    v := Ok;
  }

  /** The worklist invariant: everything queued is reachable, everything seen is scanned. */
  ghost predicate Working(sc: Scope, name: string, seen: set<string>, pending: set<string>) {
    && seen + pending <= Targets(sc) + {name}
    && (forall c | c in pending :: Reachable(sc, name, c))
    && name in seen + pending
    && (forall c | c in seen :: Scanned(sc, c, seen + pending))
  }

  lemma PopUnseen(sc: Scope, name: string, seen: set<string>, pending: set<string>,
                  chain: string, rest: set<string>, pushed: set<string>)
    requires Working(sc, name, seen, pending)
    requires chain !in seen && pending == rest + {chain}
    requires Scanned(sc, chain, pushed) && pushed <= Targets(sc)
    requires forall t | t in pushed :: Edge(sc, chain, t)
    ensures Working(sc, name, seen + {chain}, rest + pushed)
    ensures |Targets(sc) + {name} - (seen + {chain})| < |Targets(sc) + {name} - seen|
  {
    forall t | t in pushed
      ensures Reachable(sc, name, t)
    {
      ReachableStep(sc, name, chain, t);
    }
    var open := seen + {chain} + (rest + pushed);
    assert seen + pending <= open;
    var universe := Targets(sc) + {name};
    assert chain in universe - seen;
    SmallerSet(universe - (seen + {chain}), universe - seen);
  }

  lemma PopSeen(sc: Scope, name: string, seen: set<string>, pending: set<string>, chain: string, rest: set<string>)
    requires Working(sc, name, seen, pending)
    requires chain in seen && pending == rest + {chain}
    ensures Working(sc, name, seen, rest)
  {
  }

  lemma WorkDone(sc: Scope, name: string, seen: set<string>)
    requires Working(sc, name, seen, {})
    ensures forall c | Reachable(sc, name, c) :: !Hazard(sc, c) && !Unreadable(sc, c)
  {
    assert seen + {} == seen;
    ClosedContainsReachable(sc, seen, name);
  }

  function Elements(s: seq<string>): set<string> {
    set x | x in s
  }

  lemma ElementsOfConcat(a: seq<string>, b: seq<string>)
    ensures Elements(a + b) == Elements(a) + Elements(b)
  {
  }

  lemma ElementsOfLast(s: seq<string>)
    requires s != []
    ensures Elements(s) == Elements(s[..|s| - 1]) + {s[|s| - 1]}
  {
  }

  /** The worklist over one base chain. It ends on cyclic jumps too: each round either
      shrinks the stack or marks one of finitely many names as seen. */
  method Walk(sc: Scope, name: string) returns (v: Verdict)
    ensures v.Ok? ==> forall c | Reachable(sc, name, c) :: !Hazard(sc, c) && !Unreadable(sc, c)
    ensures v.Policy? ==> exists c :: Reachable(sc, name, c) && Hazard(sc, c)
    ensures v.Inspection? ==> exists c :: Reachable(sc, name, c) && Unreadable(sc, c)
  {
    var pending := [name];
    var seen: set<string> := {};
    ReachableSelf(sc, name);
    assert Elements(pending) == {name};
    while pending != []
      invariant Working(sc, name, seen, Elements(pending))
      decreases |Targets(sc) + {name} - seen|, |pending|
    {
      var chain := pending[|pending| - 1];
      var rest := pending[..|pending| - 1];
      ElementsOfLast(pending);
      if chain in seen {
        PopSeen(sc, name, seen, Elements(pending), chain, Elements(rest));
        pending := rest;
      } else {
        assert chain in Elements(pending);
        var pushed;
        v, pushed := ScanChain(sc, chain);
        if !v.Ok? { return; }
        PopUnseen(sc, name, seen, Elements(pending), chain, Elements(rest), Elements(pushed));
        seen := seen + {chain};
        pending := rest + pushed;
        ElementsOfConcat(rest, pushed);
      }
    }
    assert Elements(pending) == {};
    WorkDone(sc, name, seen);
    v := Ok;
  }

  method CheckBase(items: seq<Json>, base: Json, tun: string, phys: string) returns (v: Verdict)
    ensures v.Ok? <==> CleanBase(items, base, tun, phys)
    ensures v.Policy? ==> HasPolicyHazard(items, base, tun, phys)
    ensures v.Inspection? ==> HasUnreadable(items, base, tun, phys)
  {
    if GetStr(base, "policy") == Some("drop") { return Policy; }
    v := Walk(ScopeOf(items, base, tun, phys), BaseName(base));
  }

  lemma SmallerSet(a: set<string>, b: set<string>)
    requires a < b
    ensures |a| < |b|
  {
    var x :| x in b && x !in a;
    assert a <= b - {x};
    SubsetSize(a, b - {x});
  }

  /** `nft_check_forward`: accepts exactly the rulesets whose external forward chains are clean. */
  method NftCheckForward(ruleset: Json, tun: string, phys: string) returns (v: Verdict)
    ensures v.Ok? <==> Clean(ruleset, tun, phys)
    ensures v.Policy? ==> Items(ruleset).Some? && exists base ::
              && BaseOf(Items(ruleset).value, base) && ExternalForward(base)
              && HasPolicyHazard(Items(ruleset).value, base, tun, phys)
    ensures v.Inspection? ==> Items(ruleset).None? || exists base ::
              && BaseOf(Items(ruleset).value, base) && ExternalForward(base)
              && HasUnreadable(Items(ruleset).value, base, tun, phys)
  {
    if Items(ruleset).None? { return Inspection; }
    var items := Items(ruleset).value;
    for i := 0 to |items|
      invariant forall j | 0 <= j < i && Has(items[j], "chain") && ExternalForward(Get(items[j], "chain").value) ::
                  CleanBase(items, Get(items[j], "chain").value, tun, phys)
    {
      if Has(items[i], "chain") {
        var base := Get(items[i], "chain").value;
        assert BaseOf(items, base);
        if ExternalForward(base) {
          v := CheckBase(items, base, tun, phys);
          if !v.Ok? { return; }
        }
      }
    }
    forall base | BaseOf(items, base) && ExternalForward(base)
      ensures CleanBase(items, base, tun, phys)
    {
      var i :| 0 <= i < |items| && Get(items[i], "chain") == Some(base);
    }
    v := Ok;
  }
}
