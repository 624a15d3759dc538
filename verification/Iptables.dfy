/**
 The iptables half of `node/src/firewall.rs`: rule lists shared with other owners, edited one
 command at a time. This module holds the pure effect of those edits on a chain.
 */
module Iptables {

  /** A rule is its argument list, as `iptables -S` prints it after the chain name. */
  type Rule = seq<string>
  type Chain = seq<Rule>

  // ---- Ownership ---------------------------------------------------------------------

  predicate Tagged(rule: Rule, tag: string) {
    exists i | 0 <= i < |rule| - 1 :: rule[i] == "--comment" && rule[i + 1] == tag
  }

  /** A rule of instance `id`; with `only`, just its kill-switch rules. */
  predicate Owned(rule: Rule, id: string, only: bool) {
    || Tagged(rule, id + ":killswitch")
    || (!only && (Tagged(rule, id + ":forward") || Tagged(rule, id + ":nat")))
  }

  /** The rules of a chain that are not ours, in order. */
  function Foreign(c: Chain, id: string, only: bool): (f: Chain)
    ensures forall r | r in f :: r in c && !Owned(r, id, only)
  {
    if c == [] then []
    else (if Owned(c[0], id, only) then [] else [c[0]]) + Foreign(c[1..], id, only)
  }

  // ---- Single-rule edits -----------------------------------------------------------------

  function DeleteFirst(c: Chain, rule: Rule): Chain {
    if c == [] then []
    else if c[0] == rule then c[1..]
    else [c[0]] + DeleteFirst(c[1..], rule)
  }

  function Without(c: Chain, rule: Rule): (r: Chain)
    ensures rule !in r
    ensures forall x | x in r :: x in c
  {
    if c == [] then []
    else (if c[0] == rule then [] else [c[0]]) + Without(c[1..], rule)
  }

  function Copies(c: Chain, rule: Rule): nat {
    if c == [] then 0 else (if c[0] == rule then 1 else 0) + Copies(c[1..], rule)
  }

  /** Insert at the front unless present. */
  function EnsureFront(c: Chain, rule: Rule): Chain {
    if rule in c then c else [rule] + c
  }

  /** Append unless present. */
  function EnsureBack(c: Chain, rule: Rule): Chain {
    if rule in c then c else c + [rule]
  }

  lemma {:induction false} CopiesZero(c: Chain, rule: Rule)
    ensures Copies(c, rule) == 0 <==> rule !in c
    ensures rule !in c ==> Without(c, rule) == c
  {
    if c != [] {
      CopiesZero(c[1..], rule);
      assert c == [c[0]] + c[1..];
    }
  }

  lemma {:induction false} DeleteFirstEffect(c: Chain, rule: Rule)
    requires rule in c
    ensures Copies(DeleteFirst(c, rule), rule) == Copies(c, rule) - 1
    ensures Without(DeleteFirst(c, rule), rule) == Without(c, rule)
  {
    if c[0] != rule {
      var rest := DeleteFirst(c[1..], rule);
      DeleteFirstEffect(c[1..], rule);
      assert ([c[0]] + rest)[1..] == rest;
    }
  }

  // ---- Counting copies -------------------------------------------------------------------

  /** No rule has more copies in `p` than in `q`. */
  ghost predicate Fewer(p: Chain, q: Chain) {
    forall x :: Copies(p, x) <= Copies(q, x)
  }

  /** Only copies of `rule` went on the way from `q` to `p`. */
  ghost predicate OnlyFewer(p: Chain, q: Chain, rule: Rule) {
    Fewer(p, q) && forall x | x != rule :: Copies(p, x) == Copies(q, x)
  }

  /** No rule is made a second copy of on the way from `p` to `q`. */
  ghost predicate Spares(p: Chain, q: Chain) {
    forall x :: Copies(q, x) <= 1 || Copies(q, x) <= Copies(p, x)
  }

  lemma FewerIn(p: Chain, q: Chain, x: Rule)
    requires Fewer(p, q) && x in p
    ensures x in q
  {
    CopiesZero(p, x);
    CopiesZero(q, x);
  }

  lemma {:induction false} CopiesConcat(a: Chain, b: Chain, x: Rule)
    ensures Copies(a + b, x) == Copies(a, x) + Copies(b, x)
  {
    if a == [] {
      assert a + b == b;
    } else {
      assert (a + b)[1..] == a[1..] + b;
      CopiesConcat(a[1..], b, x);
    }
  }

  lemma {:induction false} DeleteFirstCopies(c: Chain, rule: Rule, x: Rule)
    ensures Copies(DeleteFirst(c, rule), x) <= Copies(c, x)
    ensures x != rule ==> Copies(DeleteFirst(c, rule), x) == Copies(c, x)
  {
    if c != [] && c[0] != rule {
      var rest := DeleteFirst(c[1..], rule);
      DeleteFirstCopies(c[1..], rule, x);
      assert ([c[0]] + rest)[1..] == rest;
    }
  }

  lemma DeleteFirstOnlyFewer(c: Chain, rule: Rule)
    ensures OnlyFewer(DeleteFirst(c, rule), c, rule)
  {
    forall x
      ensures Copies(DeleteFirst(c, rule), x) <= Copies(c, x)
      ensures x != rule ==> Copies(DeleteFirst(c, rule), x) == Copies(c, x)
    {
      DeleteFirstCopies(c, rule, x);
    }
  }

  /** Inserting a rule only when it is missing makes no second copy, and leaves other counts alone. */
  lemma EnsureCopies(c: Chain, rule: Rule, x: Rule)
    ensures
      var n := if x == rule && rule !in c then 1 else Copies(c, x);
      Copies(EnsureFront(c, rule), x) == n && Copies(EnsureBack(c, rule), x) == n
  {
    CopiesZero(c, rule);
    CopiesConcat([rule], c, x);
    CopiesConcat(c, [rule], x);
    assert Copies([rule], x) == (if x == rule then 1 else 0) by { assert [rule][1..] == []; }
  }

  lemma EnsureSpares(c: Chain, rule: Rule)
    ensures Spares(c, EnsureFront(c, rule)) && Spares(c, EnsureBack(c, rule))
  {
    forall x
      ensures Copies(EnsureFront(c, rule), x) <= 1 || Copies(EnsureFront(c, rule), x) <= Copies(c, x)
      ensures Copies(EnsureBack(c, rule), x) <= 1 || Copies(EnsureBack(c, rule), x) <= Copies(c, x)
    {
      EnsureCopies(c, rule, x);
    }
  }

  // ---- Foreign rules are untouched by owned edits ---------------------------------------------

  lemma {:induction false} ForeignConcat(a: Chain, b: Chain, id: string, only: bool)
    ensures Foreign(a + b, id, only) == Foreign(a, id, only) + Foreign(b, id, only)
  {
    if a == [] {
      assert a + b == b;
    } else {
      assert (a + b)[1..] == a[1..] + b;
      ForeignConcat(a[1..], b, id, only);
    }
  }

  lemma ForeignOwned(rule: Rule, id: string, only: bool)
    requires Owned(rule, id, only)
    ensures Foreign([rule], id, only) == []
  {
  }

  lemma EnsureKeepsForeign(c: Chain, rule: Rule, id: string)
    requires Owned(rule, id, false)
    ensures Foreign(EnsureFront(c, rule), id, false) == Foreign(c, id, false)
    ensures Foreign(EnsureBack(c, rule), id, false) == Foreign(c, id, false)
  {
    ForeignOwned(rule, id, false);
    ForeignConcat([rule], c, id, false);
    ForeignConcat(c, [rule], id, false);
  }

  lemma {:induction false} DeleteKeepsForeign(c: Chain, rule: Rule, id: string, only: bool)
    requires Owned(rule, id, only)
    ensures Foreign(DeleteFirst(c, rule), id, only) == Foreign(c, id, only)
  {
    if c != [] && c[0] != rule {
      var rest := DeleteFirst(c[1..], rule);
      DeleteKeepsForeign(c[1..], rule, id, only);
      assert ([c[0]] + rest)[1..] == rest;
    }
  }

  lemma {:induction false} ForeignOfNoneOwned(c: Chain, id: string, only: bool)
    requires forall r | r in c :: !Owned(r, id, only)
    ensures Foreign(c, id, only) == c
  {
    if c != [] {
      assert c[0] in c;
      ForeignOfNoneOwned(c[1..], id, only);
      assert c == [c[0]] + c[1..];
    }
  }

  /** Everything owned by the kill switch is owned outright. */
  lemma {:induction false} ForeignNested(c: Chain, id: string)
    ensures Foreign(Foreign(c, id, true), id, false) == Foreign(c, id, false)
  {
    if c != [] {
      ForeignNested(c[1..], id);
      var head := if Owned(c[0], id, true) then [] else [c[0]];
      ForeignConcat(head, Foreign(c[1..], id, true), id, false);
    }
  }

  // ---- `Up` on one chain ---------------------------------------------------------------------

  function Outbound(phys: string, tun: string, id: string): Rule {
    ["-i", tun, "-o", phys, "-m", "comment", "--comment", id + ":forward", "-j", "ACCEPT"]
  }

  function Inbound(phys: string, tun: string, id: string): Rule {
    ["-i", phys, "-o", tun, "-m", "conntrack", "--ctstate", "RELATED,ESTABLISHED",
     "-m", "comment", "--comment", id + ":forward", "-j", "ACCEPT"]
  }

  function Ingress(phys: string, tun: string, id: string): Rule {
    ["-i", phys, "-o", tun, "-m", "conntrack", "!", "--ctstate", "RELATED,ESTABLISHED",
     "-m", "comment", "--comment", id + ":forward", "-j", "DROP"]
  }

  lemma ForwardRules(phys: string, tun: string, id: string)
    ensures Owned(Outbound(phys, tun, id), id, false) && Owned(Inbound(phys, tun, id), id, false) && Owned(Ingress(phys, tun, id), id, false)
    ensures Outbound(phys, tun, id) != Inbound(phys, tun, id)
    ensures Outbound(phys, tun, id) != Ingress(phys, tun, id) && Inbound(phys, tun, id) != Ingress(phys, tun, id)
  {
    var o, i, g := Outbound(phys, tun, id), Inbound(phys, tun, id), Ingress(phys, tun, id);
    assert o[6] == "--comment" && o[7] == id + ":forward";
    assert i[10] == "--comment" && i[11] == id + ":forward";
    assert g[11] == "--comment" && g[12] == id + ":forward";
    assert |o| == 10 && |i| == 14 && |g| == 15;
  }

  /** Guard first, then both ACCEPTs drained and put in front of it. */
  function UpChain(c: Chain, phys: string, tun: string, id: string): Chain {
    var guarded := EnsureFront(c, Ingress(phys, tun, id));
    [Inbound(phys, tun, id), Outbound(phys, tun, id)]
    + Without(Without(guarded, Outbound(phys, tun, id)), Inbound(phys, tun, id))
  }

  lemma {:induction false} WithoutKeepsForeign(c: Chain, rule: Rule, id: string, only: bool)
    requires Owned(rule, id, only)
    ensures Foreign(Without(c, rule), id, only) == Foreign(c, id, only)
  {
    if c != [] {
      WithoutKeepsForeign(c[1..], rule, id, only);
      var head := if c[0] == rule then [] else [c[0]];
      ForeignConcat(head, Without(c[1..], rule), id, only);
    }
  }

  lemma {:induction false} WithoutKeepsOthers(c: Chain, rule: Rule, x: Rule)
    requires x in c && x != rule
    ensures x in Without(c, rule)
  {
    if c[0] != x {
      assert x in c[1..];
      WithoutKeepsOthers(c[1..], rule, x);
    }
  }

  lemma UpKeepsForeign(c: Chain, phys: string, tun: string, id: string)
    ensures Foreign(UpChain(c, phys, tun, id), id, false) == Foreign(c, id, false)
  {
    var o, i, g := Outbound(phys, tun, id), Inbound(phys, tun, id), Ingress(phys, tun, id);
    ForwardRules(phys, tun, id);
    var guarded := EnsureFront(c, g);
    var rest := Without(Without(guarded, o), i);
    EnsureKeepsForeign(c, g, id);
    WithoutKeepsForeign(guarded, o, id, false);
    WithoutKeepsForeign(Without(guarded, o), i, id, false);
    PairKeepsForeign(i, o, rest, id);
  }

  lemma PairKeepsForeign(first: Rule, second: Rule, rest: Chain, id: string)
    requires Owned(first, id, false) && Owned(second, id, false)
    ensures Foreign([first, second] + rest, id, false) == Foreign(rest, id, false)
  {
    ForeignOwned(first, id, false);
    ForeignOwned(second, id, false);
    ForeignConcat([first], [second], id, false);
    assert [first, second] == [first] + [second];
    ForeignConcat([first, second], rest, id, false);
  }

  /** The two ACCEPTs are the first two rules, each once, with the guard behind them; foreign
      rules keep their order. */
  lemma UpOrdersRules(c: Chain, phys: string, tun: string, id: string)
    ensures
      var u := UpChain(c, phys, tun, id);
      && |u| >= 3 && u[0] == Inbound(phys, tun, id) && u[1] == Outbound(phys, tun, id)
      && Ingress(phys, tun, id) in u[2..] && u[0] !in u[1..] && u[1] !in u[2..]
      && Foreign(u, id, false) == Foreign(c, id, false)
  {
    var o, i, g := Outbound(phys, tun, id), Inbound(phys, tun, id), Ingress(phys, tun, id);
    ForwardRules(phys, tun, id);
    var guarded := EnsureFront(c, g);
    assert g in guarded;
    WithoutKeepsOthers(guarded, o, g);
    WithoutKeepsOthers(Without(guarded, o), i, g);
    assert UpChain(c, phys, tun, id)[2..] == Without(Without(guarded, o), i);
    UpKeepsForeign(c, phys, tun, id);
  }

  /** From a chain without rules of this instance, `Up` puts exactly its three rules in front. */
  lemma UpFromClean(c: Chain, phys: string, tun: string, id: string)
    requires forall r | r in c :: !Owned(r, id, false)
    ensures UpChain(c, phys, tun, id) == [Inbound(phys, tun, id), Outbound(phys, tun, id), Ingress(phys, tun, id)] + c
    ensures Foreign(UpChain(c, phys, tun, id), id, false) == c
  {
    var o, i, g := Outbound(phys, tun, id), Inbound(phys, tun, id), Ingress(phys, tun, id);
    ForwardRules(phys, tun, id);
    assert o !in [g] + c && i !in [g] + c;
    CopiesZero([g] + c, o);
    CopiesZero([g] + c, i);
    UpOrdersRules(c, phys, tun, id);
    ForeignOfNoneOwned(c, id, false);
  }

  // ---- Where the ingress guard ends up -----------------------------------------------------------

  /** No foreign rule stands ahead of the first copy of `rule`. */
  predicate Leads(c: Chain, rule: Rule, id: string) {
    rule in c && (c[0] == rule || (Owned(c[0], id, false) && Leads(c[1..], rule, id)))
  }

  lemma {:induction false} WithoutKeepsLead(c: Chain, drop: Rule, rule: Rule, id: string)
    requires Owned(drop, id, false) && drop != rule && rule in c
    ensures rule in Without(c, drop) && (Leads(Without(c, drop), rule, id) <==> Leads(c, rule, id))
  {
    WithoutKeepsOthers(c, drop, rule);
    if c[0] != rule {
      assert rule in c[1..];
      WithoutKeepsLead(c[1..], drop, rule, id);
      if c[0] != drop {
        assert ([c[0]] + Without(c[1..], drop))[1..] == Without(c[1..], drop);
      } else {
        assert Without(c, drop) == Without(c[1..], drop);
      }
    }
  }

  lemma LeadsBehindOwned(first: Rule, second: Rule, rest: Chain, rule: Rule, id: string)
    requires Owned(first, id, false) && Owned(second, id, false) && first != rule && second != rule
    ensures Leads([first, second] + rest, rule, id) <==> Leads(rest, rule, id)
  {
    var c := [first, second] + rest;
    assert c[1..] == [second] + rest && c[1..][1..] == rest;
  }

  /** The guard is only inserted when absent, so an existing one stays where it was: all three
      rules precede foreign ones exactly when the chain had no guard or a leading one. */
  lemma UpGuardLeadsIff(c: Chain, phys: string, tun: string, id: string)
    ensures
      var g := Ingress(phys, tun, id);
      Leads(UpChain(c, phys, tun, id), g, id) <==> (g !in c || Leads(c, g, id))
  {
    var o, i, g := Outbound(phys, tun, id), Inbound(phys, tun, id), Ingress(phys, tun, id);
    ForwardRules(phys, tun, id);
    var guarded := EnsureFront(c, g);
    assert g in guarded;
    WithoutKeepsLead(guarded, o, g, id);
    WithoutKeepsLead(Without(guarded, o), i, g, id);
    LeadsBehindOwned(i, o, Without(Without(guarded, o), i), g, id);
  }

  /** A guard installed earlier, with a foreign rule put ahead of it since, stays behind that rule. */
  lemma GuardStaysBehind(foreign: Rule, phys: string, tun: string, id: string)
    requires !Owned(foreign, id, false)
    ensures
      var o, i, g := Outbound(phys, tun, id), Inbound(phys, tun, id), Ingress(phys, tun, id);
      UpChain([foreign, g], phys, tun, id) == [i, o, foreign, g] && !Leads(UpChain([foreign, g], phys, tun, id), g, id)
  {
    var o, i, g := Outbound(phys, tun, id), Inbound(phys, tun, id), Ingress(phys, tun, id);
    ForwardRules(phys, tun, id);
    UpGuardLeadsIff([foreign, g], phys, tun, id);
    assert [foreign, g][1..] == [g] && [g][1..] == [];
    assert Without([g], o) == [g] && Without([g], i) == [g];
    assert Without([foreign, g], o) == [foreign, g] && Without([foreign, g], i) == [foreign, g];
  }

  // ---- The kill-switch chain -----------------------------------------------------------------------

  function KillReturn(iface: string, id: string): Rule {
    ["-i", iface, "-m", "comment", "--comment", id + ":killswitch", "-j", "RETURN"]
  }

  function KillDrop(id: string): Rule {
    ["-m", "comment", "--comment", id + ":killswitch", "-j", "DROP"]
  }

  function KillJump(phys: string, chain: string, id: string): Rule {
    ["-o", phys, "-m", "comment", "--comment", id + ":killswitch", "-j", chain]
  }

  lemma KillRules(phys: string, iface: string, chain: string, id: string, only: bool)
    ensures Owned(KillReturn(iface, id), id, only) && Owned(KillDrop(id), id, only) && Owned(KillJump(phys, chain, id), id, only)
    ensures KillReturn(iface, id) != KillDrop(id)
  {
    var r, d, j := KillReturn(iface, id), KillDrop(id), KillJump(phys, chain, id);
    assert r[4] == "--comment" && r[5] == id + ":killswitch";
    assert d[2] == "--comment" && d[3] == id + ":killswitch";
    assert j[4] == "--comment" && j[5] == id + ":killswitch";
    assert |r| == 8 && |d| == 6;
  }

  function KillChain(c: Chain, tun: string, id: string): Chain {
    EnsureBack(EnsureBack(EnsureBack(c, KillReturn("fp+", id)), KillReturn(tun, id)), KillDrop(id))
  }

  /** `rule` has a copy ahead of every copy of `drop`. */
  predicate Before(c: Chain, rule: Rule, drop: Rule) {
    c != [] && (c[0] == rule || (c[0] != drop && Before(c[1..], rule, drop)))
  }

  /** Packets from both exempt interfaces return before the chain drops. */
  predicate Exempts(c: Chain, tun: string, id: string) {
    Before(c, KillReturn("fp+", id), KillDrop(id)) && Before(c, KillReturn(tun, id), KillDrop(id))
  }

  lemma {:induction false} BeforeAppend(c: Chain, x: Rule, rule: Rule, drop: Rule)
    requires rule != drop
    ensures Before(c + [x], rule, drop) <==> Before(c, rule, drop) || (x == rule && drop !in c)
    ensures drop !in c ==> (Before(c, rule, drop) <==> rule in c)
  {
    if c == [] {
      assert [] + [x] == [x];
    } else {
      assert (c + [x])[1..] == c[1..] + [x];
      BeforeAppend(c[1..], x, rule, drop);
    }
  }

  lemma BeforeEnsured(c: Chain, x: Rule, rule: Rule, drop: Rule)
    requires rule != drop
    ensures Before(EnsureBack(c, x), rule, drop) <==> Before(c, rule, drop) || (x == rule && drop !in c)
  {
    BeforeAppend(c, x, rule, drop);
  }

  /** Appending the missing rules puts both exemptions ahead of the DROP exactly when the chain
      had no DROP yet, or already had both exemptions ahead of it. */
  lemma KillChainExemptsIff(c: Chain, tun: string, id: string)
    ensures Exempts(KillChain(c, tun, id), tun, id) <==> (KillDrop(id) !in c || Exempts(c, tun, id))
  {
    var fp, own, drop := KillReturn("fp+", id), KillReturn(tun, id), KillDrop(id);
    KillRules("", "fp+", "", id, true);
    KillRules("", tun, "", id, true);
    var c1 := EnsureBack(c, fp);
    var c2 := EnsureBack(c1, own);
    BeforeEnsured(c, fp, fp, drop);
    BeforeEnsured(c, fp, own, drop);
    BeforeEnsured(c1, own, fp, drop);
    BeforeEnsured(c1, own, own, drop);
    BeforeEnsured(c2, drop, fp, drop);
    BeforeEnsured(c2, drop, own, drop);
  }

  lemma PartlyDrained(tun: string, id: string)
    requires tun != "fp+"
    ensures Without(KillChain([], tun, id), KillReturn("fp+", id)) == [KillReturn(tun, id), KillDrop(id)]
  {
    var fp, own, drop := KillReturn("fp+", id), KillReturn(tun, id), KillDrop(id);
    KillRules("", "fp+", "", id, true);
    KillRules("", tun, "", id, true);
    assert fp[1] != own[1];
    var filled := [fp, own, drop];
    assert KillChain([], tun, id) == filled;
    assert filled[1..] == [own, drop] && [own, drop][1..] == [drop] && [drop][1..] == [];
    assert Without([drop], fp) == [drop] && Without([own, drop], fp) == [own, drop];
  }

  /** A cleanup that drained the first exemption of a filled chain and failed before the rest leaves a
      chain on which switching on again appends the exemption behind the DROP. */
  lemma ExemptionAppendedBehindDrop(tun: string, id: string)
    requires tun != "fp+"
    ensures
      var c := [KillReturn(tun, id), KillDrop(id)];
      && Without(KillChain([], tun, id), KillReturn("fp+", id)) == c
      && KillChain(c, tun, id) == c + [KillReturn("fp+", id)]
      && !Exempts(KillChain(c, tun, id), tun, id)
  {
    var fp, own, drop := KillReturn("fp+", id), KillReturn(tun, id), KillDrop(id);
    KillRules("", "fp+", "", id, true);
    KillRules("", tun, "", id, true);
    assert fp[1] != own[1];
    var c := [own, drop];
    assert fp !in c;
    assert !Before(c[1..], fp, drop);
    KillChainExemptsIff(c, tun, id);
    PartlyDrained(tun, id);
  }
}
