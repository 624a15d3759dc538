/**
 The iptables operations as they run: commands against the host's tables, any of which may
 fail, in the order `node/src/firewall.rs` issues them.
 */
module IptablesHost {
  import opened Iptables

  datatype Bin = V4 | V6
  datatype Table = Filter | Nat
  datatype ChainId = ChainId(bin: Bin, table: Table, name: string)
  type Tables = map<ChainId, Chain>

  /** How a command ends. `NoMatch` is exit code 1, `Absent` a missing table or chain, and
      `Unavailable` a missing tool or, for ip6tables, unusable IPv6. */
  datatype Outcome = Succeeded | NoMatch | Absent | Unavailable | Broken

  datatype Result = Ok | Err

  /** `optional_iptables6`: failures of the IPv6 tool that are tolerated. */
  predicate Optional(bin: Bin, o: Outcome) {
    bin.V6? && (o.Absent? || o.Unavailable?)
  }

  function Ensured(c: Chain, front: bool, rule: Rule): Chain {
    if front then EnsureFront(c, rule) else EnsureBack(c, rule)
  }

  /** A missing chain has no rules. */
  function ChainOf(m: Tables, c: ChainId): Chain {
    if c in m then m[c] else []
  }

  /** The subsequence of rules not owned by the instance is the same in every chain. */
  ghost predicate SameForeign(a: Tables, b: Tables, id: string, only: bool) {
    forall c :: Foreign(ChainOf(a, c), id, only) == Foreign(ChainOf(b, c), id, only)
  }

  /** Only one chain's contents changed. */
  ghost predicate OnlyChain(a: Tables, b: Tables, c: ChainId) {
    a.Keys == b.Keys && forall x | x in a && x != c :: b[x] == a[x]
  }

  lemma OnlyChainForeign(a: Tables, b: Tables, c: ChainId, id: string, only: bool)
    requires OnlyChain(a, b, c) && Foreign(ChainOf(a, c), id, only) == Foreign(ChainOf(b, c), id, only)
    ensures SameForeign(a, b, id, only)
  {
  }

  /** Outcomes that come from the environment, not from what the tables hold. */
  function Fault(o: Outcome): nat {
    if o.Unavailable? || o.Broken? then 1 else 0
  }

  class Host {
    var chains: Tables

    /** How many commands the environment has made fail. */
    ghost var faults: nat

    // ---- Commands ------------------------------------------------------------------------

    method Check(c: ChainId, rule: Rule) returns (o: Outcome)
      modifies `faults
      ensures faults == old(faults) + Fault(o)
      ensures o.Succeeded? ==> c in chains && rule in chains[c]
      ensures o.NoMatch? ==> c in chains && rule !in chains[c]
      ensures o.Absent? ==> c !in chains
    {
      var failure := Glitch();
      if !failure.Succeeded? { return failure; }
      if c !in chains { return Absent; }
      o := if rule in chains[c] then Succeeded else NoMatch;
    }

    /** An arbitrary environment: no failure, a missing tool, or anything else going wrong. */
    method Glitch() returns (o: Outcome)
      modifies `faults
      ensures o.Succeeded? || o.Unavailable? || o.Broken?
      ensures faults == old(faults) + Fault(o)
    {
      var fails: bool, missing: bool := *, *;
      o := if !fails then Succeeded else if missing then Unavailable else Broken;
      faults := faults + Fault(o);
    }

    /** `-I` (front) or `-A` (back). */
    method Add(c: ChainId, front: bool, rule: Rule) returns (o: Outcome)
      modifies this
      ensures faults == old(faults) + Fault(o)
      ensures o.Succeeded? ==>
                c in old(chains) && chains == old(chains)[c := if front then [rule] + old(chains)[c] else old(chains)[c] + [rule]]
      ensures !o.Succeeded? ==> chains == old(chains) && !o.NoMatch?
      ensures o.Absent? ==> c !in chains
    {
      o := Glitch();
      if !o.Succeeded? { return; }
      if c !in chains { return Absent; }
      chains := chains[c := if front then [rule] + chains[c] else chains[c] + [rule]];
    }

    method Delete(c: ChainId, rule: Rule) returns (o: Outcome)
      modifies this
      ensures faults == old(faults) + Fault(o)
      ensures o.Succeeded? ==>
                c in old(chains) && rule in old(chains)[c] && chains == old(chains)[c := DeleteFirst(old(chains)[c], rule)]
      ensures !o.Succeeded? ==> chains == old(chains)
      ensures o.NoMatch? ==> c in chains && rule !in chains[c]
      ensures o.Absent? ==> c !in chains
    {
      o := Glitch();
      if !o.Succeeded? { return; }
      if c !in chains { return Absent; }
      if rule !in chains[c] { return NoMatch; }
      chains := chains[c := DeleteFirst(chains[c], rule)];
    }

    // ---- `iptables_ensure_with` and `iptables_drain_with` ------------------------------------

    /** `swallowed` records a tolerated IPv6 failure: the result is Ok with nothing done. */
    method Ensure(c: ChainId, front: bool, rule: Rule) returns (r: Result, ghost swallowed: bool)
      modifies this
      ensures old(faults) <= faults
      ensures faults == old(faults) && c in old(chains) ==> r.Ok? && !swallowed
      ensures r.Ok? && !swallowed ==> c in old(chains) && chains == old(chains)[c := Ensured(old(chains)[c], front, rule)]
      ensures r.Err? || swallowed ==> chains == old(chains)
      ensures swallowed ==> r.Ok? && c.bin.V6?
    {
      var o := Check(c, rule);
      if o.NoMatch? { o := Add(c, front, rule); }
      swallowed := Optional(c.bin, o);
      r := if o.Succeeded? || Optional(c.bin, o) then Ok else Err;
    }

    /** Remove every copy of a rule, giving up after 256 rounds. */
    method Drain(c: ChainId, rule: Rule, ghost id: string, ghost only: bool) returns (r: Result, ghost swallowed: bool)
      requires Owned(rule, id, only)
      modifies this
      ensures old(faults) <= faults
      ensures OnlyChain(old(chains), chains, c) && SameForeign(old(chains), chains, id, only)
      ensures OnlyFewer(ChainOf(chains, c), ChainOf(old(chains), c), rule)
      ensures r.Ok? && !swallowed ==> ChainOf(chains, c) == Without(ChainOf(old(chains), c), rule)
      ensures r.Ok? && !swallowed ==> Copies(ChainOf(old(chains), c), rule) < 256
      ensures faults == old(faults) && Copies(ChainOf(old(chains), c), rule) < 256 ==> r.Ok?
      ensures swallowed ==> r.Ok? && c.bin.V6? && faults > old(faults)
    {
      swallowed := false;
      for i := 0 to 256
        invariant OnlyChain(old(chains), chains, c)
        invariant Foreign(ChainOf(chains, c), id, only) == Foreign(ChainOf(old(chains), c), id, only)
        invariant OnlyFewer(ChainOf(chains, c), ChainOf(old(chains), c), rule)
        invariant Without(ChainOf(chains, c), rule) == Without(ChainOf(old(chains), c), rule)
        invariant Copies(ChainOf(chains, c), rule) + i == Copies(ChainOf(old(chains), c), rule)
        invariant !swallowed && faults == old(faults)
      {
        OnlyChainForeign(old(chains), chains, c, id, only);
        var o := Check(c, rule);
        if o.NoMatch? || o.Absent? || Optional(c.bin, o) {
          CopiesZero(ChainOf(chains, c), rule);
          return Ok, !o.NoMatch? && !o.Absent?;
        }
        if !o.Succeeded? { return Err, false; }
        ghost var before := chains[c];
        o := Delete(c, rule);
        if Optional(c.bin, o) { return Ok, true; }
        if !o.Succeeded? { return Err, false; }
        DeleteFirstEffect(before, rule);
        DeleteKeepsForeign(before, rule, id, only);
        DeleteFirstOnlyFewer(before, rule);
      }
      OnlyChainForeign(old(chains), chains, c, id, only);
      r := Err;
    }

    // ---- `Up` ---------------------------------------------------------------------------------

    method DrainBoth(c: ChainId, first: Rule, second: Rule, ghost id: string) returns (r: Result, ghost swallowed: bool)
      requires Owned(first, id, false) && Owned(second, id, false)
      modifies this
      ensures old(faults) <= faults
      ensures OnlyChain(old(chains), chains, c) && SameForeign(old(chains), chains, id, false)
      ensures Fewer(ChainOf(chains, c), ChainOf(old(chains), c))
      ensures r.Ok? && !swallowed ==> ChainOf(chains, c) == Without(Without(ChainOf(old(chains), c), first), second)
      ensures faults == old(faults) && Copies(ChainOf(old(chains), c), first) < 256 && Copies(ChainOf(old(chains), c), second) < 256 ==>
                r.Ok? && !swallowed
      ensures swallowed ==> c.bin.V6?
    {
      ghost var skip: bool;
      r, swallowed := Drain(c, first, id, false);
      if r.Err? { return; }
      r, skip := Drain(c, second, id, false);
      swallowed := swallowed || skip;
    }

    method FrontBoth(c: ChainId, first: Rule, second: Rule, ghost id: string) returns (r: Result, ghost swallowed: bool)
      requires Owned(first, id, false) && Owned(second, id, false)
      modifies this
      ensures old(faults) <= faults
      ensures OnlyChain(old(chains), chains, c) && SameForeign(old(chains), chains, id, false)
      ensures Spares(ChainOf(old(chains), c), ChainOf(chains, c))
      ensures r.Ok? && !swallowed ==> c in old(chains) && chains[c] == EnsureFront(EnsureFront(old(chains)[c], first), second)
      ensures faults == old(faults) && c in old(chains) ==> r.Ok? && !swallowed
      ensures swallowed ==> c.bin.V6?
    {
      ghost var skip: bool;
      r, swallowed := EnsureOwned(c, first, id);
      if r.Err? { return; }
      r, skip := EnsureOwned(c, second, id);
      swallowed := swallowed || skip;
    }

    /** The five commands on one chain: guard, drain both ACCEPTs, put them in front. */
    method UpOne(c: ChainId, phys: string, tun: string, id: string) returns (r: Result, ghost swallowed: bool)
      modifies this
      ensures old(faults) <= faults
      ensures OnlyChain(old(chains), chains, c) && SameForeign(old(chains), chains, id, false)
      ensures Spares(ChainOf(old(chains), c), ChainOf(chains, c))
      ensures r.Ok? && !swallowed ==> c in old(chains) && chains[c] == UpChain(old(chains)[c], phys, tun, id)
      ensures faults == old(faults) && c in old(chains) && Drainable(old(chains)[c], phys, tun, id) ==> r.Ok? && !swallowed
      ensures swallowed ==> c.bin.V6?
    {
      var outbound, inbound := Outbound(phys, tun, id), Inbound(phys, tun, id);
      ForwardRules(phys, tun, id);
      ghost var skip: bool;
      r, swallowed := EnsureOwned(c, Ingress(phys, tun, id), id);
      if r.Err? { return; }
      EnsureCopies(ChainOf(old(chains), c), Ingress(phys, tun, id), outbound);
      EnsureCopies(ChainOf(old(chains), c), Ingress(phys, tun, id), inbound);
      r, skip := DrainBoth(c, outbound, inbound, id);
      swallowed := swallowed || skip;
      if r.Err? { return; }
      r, skip := FrontBoth(c, outbound, inbound, id);
      swallowed := swallowed || skip;
      UpChainSteps(ChainOf(old(chains), c), phys, tun, id);
    }

    method EnsureOwned(c: ChainId, rule: Rule, ghost id: string) returns (r: Result, ghost swallowed: bool)
      requires Owned(rule, id, false)
      modifies this
      ensures old(faults) <= faults
      ensures OnlyChain(old(chains), chains, c) && SameForeign(old(chains), chains, id, false)
      ensures Spares(ChainOf(old(chains), c), ChainOf(chains, c))
      ensures r.Ok? && !swallowed ==> c in old(chains) && chains[c] == EnsureFront(old(chains)[c], rule)
      ensures faults == old(faults) && c in old(chains) ==> r.Ok? && !swallowed
      ensures swallowed ==> r.Ok? && c.bin.V6?
    {
      r, swallowed := Ensure(c, true, rule);
      EnsureKeepsForeign(ChainOf(old(chains), c), rule, id);
      EnsureSpares(ChainOf(old(chains), c), rule);
      OnlyChainForeign(old(chains), chains, c, id, false);
    }

    method AppendOwned(c: ChainId, rule: Rule, ghost id: string) returns (r: Result, ghost swallowed: bool)
      requires Owned(rule, id, false)
      modifies this
      ensures old(faults) <= faults
      ensures OnlyChain(old(chains), chains, c) && SameForeign(old(chains), chains, id, false)
      ensures Spares(ChainOf(old(chains), c), ChainOf(chains, c))
      ensures r.Ok? && !swallowed ==> c in old(chains) && chains[c] == EnsureBack(old(chains)[c], rule)
      ensures faults == old(faults) && c in old(chains) ==> r.Ok? && !swallowed
      ensures swallowed ==> c.bin.V6?
    {
      r, swallowed := Ensure(c, false, rule);
      EnsureKeepsForeign(ChainOf(old(chains), c), rule, id);
      EnsureSpares(ChainOf(old(chains), c), rule);
      OnlyChainForeign(old(chains), chains, c, id, false);
    }

    /** `-S <chain>`. */
    method ListChain(c: ChainId) returns (o: Outcome, rules: Chain)
      modifies `faults
      ensures faults == old(faults) + Fault(o)
      ensures o.Succeeded? ==> c in chains && rules == chains[c]
      ensures o.Absent? ==> c !in chains
      ensures !o.NoMatch?
    {
      rules := [];
      o := Glitch();
      if !o.Succeeded? { return; }
      if c !in chains { return Absent, []; }
      rules := chains[c];
    }

    /** `Up` for one address family: the forward chain, Docker's chain if there is one, and the
        masquerade rule when the overlay belongs to this family. */
    method UpFamily(bin: Bin, phys: string, tun: string, id: string, overlay: string, masq: bool) returns (r: Result, ghost swallowed: bool)
      modifies this
      ensures old(faults) <= faults
      ensures Edited(old(chains), chains, bin, id)
      ensures swallowed ==> bin.V6?
      ensures r.Ok? && !swallowed ==> Upped(old(chains), chains, bin, phys, tun, id, overlay, masq)
      ensures faults == old(faults) && UpReady(old(chains), bin, phys, tun, id, masq) ==> r.Ok? && !swallowed
    {
      var post := NatChain(bin);
      r, swallowed := UpFilter(bin, phys, tun, id);
      if r.Err? || !masq { return; }
      ghost var middle := chains;
      ghost var skip: bool;
      MasqueradeOwned(phys, id, overlay);
      r, skip := AppendOwned(post, Masquerade(phys, id, overlay), id);
      EditedByOne(old(chains), middle, chains, post, bin, id);
      swallowed := swallowed || skip;
    }

    /** The filter table's part of it. */
    method UpFilter(bin: Bin, phys: string, tun: string, id: string) returns (r: Result, ghost swallowed: bool)
      modifies this
      ensures old(faults) <= faults
      ensures Edited(old(chains), chains, bin, id)
      ensures NatChain(bin) in chains ==> chains[NatChain(bin)] == old(chains)[NatChain(bin)]
      ensures swallowed ==> bin.V6?
      ensures r.Ok? && !swallowed ==> UppedFilter(old(chains), chains, bin, phys, tun, id)
      ensures faults == old(faults) && UpReady(old(chains), bin, phys, tun, id, false) ==> r.Ok? && !swallowed
    {
      var forward, docker := ForwardChain(bin), DockerChain(bin);
      ghost var skip: bool;
      swallowed := false;
      var o, rules := ListChain(forward);
      if Optional(bin, o) { return Ok, true; }
      if !o.Succeeded? { return Err, false; }
      o, rules := ListChain(docker);
      var hasDocker := o.Succeeded?;
      if !hasDocker && !o.Absent? && !Optional(bin, o) { return Err, false; }
      swallowed := !hasDocker && !o.Absent?;
      r, skip := UpOne(forward, phys, tun, id);
      EditedByOne(old(chains), old(chains), chains, forward, bin, id);
      swallowed := swallowed || skip;
      if r.Err? || !hasDocker { return; }
      ghost var middle := chains;
      r, skip := UpOne(docker, phys, tun, id);
      EditedByOne(old(chains), middle, chains, docker, bin, id);
      swallowed := swallowed || skip;
    }

    /** `iptables_with(Up)`: both families in turn. */
    method Up(phys: string, tun: string, id: string, overlay: string, overlayIs6: bool) returns (r: Result, ghost swallowed: bool)
      modifies this
      ensures old(faults) <= faults
      ensures chains.Keys == old(chains).Keys && SameForeign(old(chains), chains, id, false) && Sparing(old(chains), chains)
      ensures forall c | c in chains && c !in TouchedByUp(c.bin) :: chains[c] == old(chains)[c]
      ensures r.Ok? ==> Upped(old(chains), chains, V4, phys, tun, id, overlay, !overlayIs6)
      ensures r.Ok? && !swallowed ==> Upped(old(chains), chains, V6, phys, tun, id, overlay, overlayIs6)
      ensures faults == old(faults) && UpReady(old(chains), V4, phys, tun, id, !overlayIs6) && UpReady(old(chains), V6, phys, tun, id, overlayIs6) ==>
                r.Ok? && !swallowed
    {
      r, swallowed := UpFamily(V4, phys, tun, id, overlay, !overlayIs6);
      if r.Err? { return; }
      ghost var middle := chains;
      EditedOnlyFamily(old(chains), middle, V4, id);
      UpReadyStands(old(chains), middle, V6, phys, tun, id, overlayIs6);
      r, swallowed := UpFamily(V6, phys, tun, id, overlay, overlayIs6);
      EditedOnlyFamily(middle, chains, V6, id);
      EditedBoth(old(chains), middle, chains, id);
      if r.Ok? {
        UppedStands(old(chains), middle, chains, V4, phys, tun, id, overlay, !overlayIs6);
        if !swallowed { UppedOnTop(old(chains), middle, chains, V6, phys, tun, id, overlay, overlayIs6); }
      }
    }

    // ---- `iptables_cleanup` -----------------------------------------------------------------------

    /** `-t <table> -S`: every rule of the table with the chain it is in. */
    method ListTable(bin: Bin, table: Table) returns (o: Outcome, lines: seq<(ChainId, Rule)>)
      modifies `faults
      ensures faults == old(faults) + Fault(o)
      ensures !o.NoMatch?
      ensures o.Absent? ==> forall c | c in chains :: c.bin != bin || c.table != table
      ensures o.Succeeded? ==> forall line | line in lines :: line.0.bin == bin && line.0.table == table && line.0 in chains
      ensures o.Succeeded? ==>
                forall c, rule | c in chains && c.bin == bin && c.table == table && rule in chains[c] :: (c, rule) in lines
    {
      lines := [];
      o := Glitch();
      if !o.Succeeded? { return; }
      var todo := set c | c in chains && c.bin == bin && c.table == table;
      ghost var all := todo;
      assert forall c | c in chains && c.bin == bin && c.table == table :: c in todo;
      if todo == {} { return Absent, []; }
      while todo != {}
        invariant todo <= all && faults == old(faults)
        invariant forall line | line in lines :: line.0 in all
        invariant forall c, rule | c in all - todo && rule in chains[c] :: (c, rule) in lines
        decreases |todo|
      {
        var c :| c in todo;
        lines := lines + LinesOf(c, chains[c]);
        todo := todo - {c};
      }
    }

    method DrainLine(c: ChainId, rule: Rule, ghost start: Tables, ghost lines: seq<(ChainId, Rule)>, ghost id: string, ghost only: bool)
      returns (r: Result, ghost swallowed: bool)
      requires Owned(rule, id, only) && Cleaning(start, chains, c.bin, c.table, id, only)
      modifies this
      ensures old(faults) <= faults
      ensures Cleaning(start, chains, c.bin, c.table, id, only)
      ensures r.Ok? && !swallowed && Gone(old(chains), lines, id, only) ==> Gone(chains, lines + [(c, rule)], id, only)
      ensures r.Ok? && !swallowed && Counted(start, old(chains), lines, id, only) ==> Counted(start, chains, lines + [(c, rule)], id, only)
      ensures faults == old(faults) && Copies(ChainOf(start, c), rule) < 256 ==> r.Ok?
      ensures swallowed ==> faults > old(faults)
    {
      r, swallowed := Drain(c, rule, id, only);
      DrainCleans(start, old(chains), chains, c, c.bin, c.table, id, only);
      DrainKeepsGone(old(chains), chains, c, rule, lines, id, only);
      DrainKeepsCounted(start, old(chains), chains, c, rule, lines, id, only);
    }

    /** Drain the owned ones among the listed rules. */
    method DrainLines(lines: seq<(ChainId, Rule)>, ghost bin: Bin, ghost table: Table, id: string, only: bool) returns (r: Result, ghost swallowed: bool)
      requires forall line | line in lines :: line.0.bin == bin && line.0.table == table
      modifies this
      ensures Cleaning(old(chains), chains, bin, table, id, only)
      ensures old(faults) <= faults
      ensures r.Ok? && !swallowed ==> Gone(chains, lines, id, only) && Counted(old(chains), chains, lines, id, only)
      ensures faults == old(faults) && FewCopies(old(chains), bin, table, id, only) ==> r.Ok?
      ensures swallowed ==> faults > old(faults)
    {
      swallowed := false;
      for i := 0 to |lines|
        invariant old(faults) <= faults && (swallowed ==> faults > old(faults))
        invariant Cleaning(old(chains), chains, bin, table, id, only)
        invariant !swallowed ==> Gone(chains, lines[..i], id, only) && Counted(old(chains), chains, lines[..i], id, only)
      {
        var (c, rule) := lines[i];
        assert lines[i] in lines;
        if Owned(rule, id, only) {
          ghost var skip: bool;
          r, skip := DrainLine(c, rule, old(chains), lines[..i], id, only);
          swallowed := swallowed || skip;
          if r.Err? { return; }
        }
        assert lines[..i + 1] == lines[..i] + [(c, rule)];
      }
      assert lines[..|lines|] == lines;
      r := Ok;
    }

    /** Drain every owned rule the table lists. Reading the rules themselves makes cleanup
        independent of the interface names and addresses they were made for. */
    method CleanTable(bin: Bin, table: Table, id: string, only: bool) returns (r: Result, ghost swallowed: bool)
      modifies this
      ensures old(faults) <= faults
      ensures Shrunk(old(chains), chains) && SameForeign(old(chains), chains, id, only)
      ensures faults == old(faults) ==> (r.Ok? <==> FewCopies(old(chains), bin, table, id, only))
      ensures swallowed ==> faults > old(faults)
      ensures OnlyTable(old(chains), chains, bin, table)
      ensures r.Ok? && !swallowed ==> Cleaned(old(chains), chains, bin, table, id, only)
    {
      swallowed := false;
      var o, lines := ListTable(bin, table);
      if o.Unavailable? || Optional(bin, o) || o.Absent? {
        if o.Absent? { ListedIsFew(chains, chains, [], bin, table, id, only); }
        return Ok, !o.Absent?;
      }
      if !o.Succeeded? { return Err, false; }
      r, swallowed := DrainLines(lines, bin, table, id, only);
      if r.Ok? && !swallowed {
        forall c: ChainId | c.bin == bin && c.table == table
          ensures ChainOf(chains, c) == Foreign(ChainOf(old(chains), c), id, only)
        {
          if c in chains { ListedIsClean(old(chains), chains, lines, c, id, only); }
        }
        ListedIsFew(old(chains), chains, lines, bin, table, id, only);
      }
    }

    /** `-N` and `-X`: only an empty chain that no rule refers to can be deleted. */
    method NewChain(c: ChainId) returns (o: Outcome)
      modifies this
      ensures old(faults) <= faults
      ensures o.Succeeded? ==> c !in old(chains) && chains == old(chains)[c := []]
      ensures !o.Succeeded? ==> chains == old(chains)
    {
      o := Glitch();
      if !o.Succeeded? { return; }
      if c in chains { return Broken; }
      chains := chains[c := []];
    }

    method DeleteChain(c: ChainId) returns (o: Outcome)
      modifies this
      ensures old(faults) <= faults
      ensures o.Succeeded? ==> c in old(chains) && Deletable(old(chains), c) && chains == old(chains) - {c}
      ensures !o.Succeeded? ==> chains == old(chains)
      ensures faults == old(faults) ==> !o.Unavailable? && (o.Succeeded? || o.Absent? <==> Deletable(old(chains), c))
    {
      o := Glitch();
      if !o.Succeeded? { return; }
      if c !in chains { return Absent; }
      if !Deletable(chains, c) { return Broken; }
      chains := chains - {c};
    }

    method CleanFamily(bin: Bin, tun: string, id: string, only: bool) returns (r: Result, ghost swallowed: bool)
      modifies this
      ensures old(faults) <= faults
      ensures SameForeign(old(chains), chains, id, only) && OnlyFamily(old(chains), chains, bin)
      ensures r.Ok? && !swallowed ==> forall c: ChainId | c.bin == bin :: ChainOf(chains, c) == Foreign(ChainOf(old(chains), c), id, only)
      ensures faults == old(faults) ==> (r.Ok? <==> Removable(old(chains), bin, tun, id, only))
      ensures swallowed ==> faults > old(faults)
    {
      r, swallowed := CleanTables(bin, id, only);
      if r.Err? { return; }
      ghost var before := chains;
      if !swallowed { OwnChainIsFree(old(chains), before, bin, tun, id, only); }
      r := DeleteOwnChain(bin, tun);
      OnlyFamilyJoins(old(chains), before, chains, bin);
    }

    /** The instance's own chain, if there is one. */
    method DeleteOwnChain(bin: Bin, tun: string) returns (r: Result)
      modifies this
      ensures old(faults) <= faults
      ensures OnlyFamily(old(chains), chains, bin) && forall c :: ChainOf(chains, c) == ChainOf(old(chains), c)
      ensures faults == old(faults) ==> (r.Ok? <==> Deletable(old(chains), KillChainId(bin, tun)))
    {
      var o := DeleteChain(KillChainId(bin, tun));
      r := if o.Succeeded? || o.Unavailable? || Optional(bin, o) || o.Absent? then Ok else Err;
    }

    /** Both tables of one family. */
    method CleanTables(bin: Bin, id: string, only: bool) returns (r: Result, ghost swallowed: bool)
      modifies this
      ensures old(faults) <= faults && chains.Keys == old(chains).Keys
      ensures SameForeign(old(chains), chains, id, only) && OnlyFamily(old(chains), chains, bin)
      ensures r.Ok? && !swallowed ==> forall c: ChainId | c.bin == bin :: ChainOf(chains, c) == Foreign(ChainOf(old(chains), c), id, only)
      ensures faults == old(faults) ==> (r.Ok? <==> FewCopies(old(chains), bin, Filter, id, only) && FewCopies(old(chains), bin, Nat, id, only))
      ensures swallowed ==> faults > old(faults)
    {
      ghost var skip: bool;
      r, swallowed := CleanTable(bin, Filter, id, only);
      if r.Err? { return; }
      ghost var middle := chains;
      FewCopiesStands(old(chains), middle, bin, Nat, id, only);
      r, skip := CleanTable(bin, Nat, id, only);
      if r.Ok? && !swallowed && !skip { TablesCleaned(old(chains), middle, chains, bin, id, only); }
      swallowed := swallowed || skip;
    }

    /** `iptables_cleanup`: `Down`, or with `only` just the kill switch. Unless the environment makes a command
        fail, it succeeds exactly when the drain loop gives up on no owned rule and nobody else uses its chains. */
    method Cleanup(tun: string, id: string, only: bool) returns (r: Result, ghost swallowed: bool)
      modifies this
      ensures old(faults) <= faults
      ensures SameForeign(old(chains), chains, id, only)
      ensures r.Ok? && !swallowed ==> forall c :: ChainOf(chains, c) == Foreign(ChainOf(old(chains), c), id, only)
      ensures faults == old(faults) ==> (r.Ok? <==> Removable(old(chains), V4, tun, id, only) && Removable(old(chains), V6, tun, id, only))
      ensures swallowed ==> faults > old(faults)
    {
      ghost var skip: bool;
      r, swallowed := CleanFamily(V4, tun, id, only);
      if r.Err? { return; }
      RemovableStands(old(chains), chains, V6, tun, id, only);
      r, skip := CleanFamily(V6, tun, id, only);
      swallowed := swallowed || skip;
    }

    // ---- `iptables_killswitch_on` --------------------------------------------------------------------

    /** Fill the instance's own chain: two exemptions, then the DROP. */
    method FillKillChain(c: ChainId, tun: string, id: string) returns (r: Result, ghost swallowed: bool)
      modifies this
      ensures OnlyChain(old(chains), chains, c) && SameForeign(old(chains), chains, id, false)
      ensures r.Ok? && !swallowed ==> c in old(chains) && chains[c] == KillChain(old(chains)[c], tun, id)
      ensures swallowed ==> c.bin.V6?
    {
      KillRules("", "fp+", "", id, false);
      KillRules("", tun, "", id, false);
      ghost var skip: bool;
      r, swallowed := AppendOwned(c, KillReturn("fp+", id), id);
      if r.Err? { return; }
      r, skip := AppendOwned(c, KillReturn(tun, id), id);
      swallowed := swallowed || skip;
      if r.Err? { return; }
      r, skip := AppendOwned(c, KillDrop(id), id);
      swallowed := swallowed || skip;
    }

    /** One address family. */
    method KillswitchFamily(bin: Bin, phys: string, tun: string, id: string) returns (r: Result, ghost swallowed: bool)
      modifies this
      ensures SameForeign(old(chains), chains, id, false) && OnlyFamily(old(chains), chains, bin)
      ensures swallowed ==> bin.V6?
      ensures r.Ok? && !swallowed ==> Switched(old(chains), chains, bin, phys, tun, id)
    {
      var own, fwd := KillChainId(bin, tun), ForwardChain(bin);
      swallowed := false;
      var o, rules := ListChain(own);
      if o.Absent? {
        o := NewChain(own);
        if Optional(bin, o) { return Ok, true; }
        if !o.Succeeded? { return Err, false; }
      } else if Optional(bin, o) {
        return Ok, true;
      } else if !o.Succeeded? {
        return Err, false;
      }
      assert forall c :: ChainOf(chains, c) == ChainOf(old(chains), c);
      DistinctNames(bin, tun);
      r, swallowed := FillKillChain(own, tun, id);
      if r.Err? { return; }
      KillRules(phys, "", own.name, id, false);
      r := LeadJump(fwd, KillJump(phys, own.name, id), id);
    }

    /** Put our jump in front unless it already opens the chain among its like. */
    method LeadJump(c: ChainId, jump: Rule, ghost id: string) returns (r: Result)
      requires Owned(jump, id, false)
      modifies this
      ensures OnlyChain(old(chains), chains, c) && SameForeign(old(chains), chains, id, false)
      ensures r.Ok? ==> c in old(chains) && chains[c] == Guarded(old(chains)[c], jump)
    {
      var o, rules := ListChain(c);
      if !o.Succeeded? { return Err; }
      if !LeadingJump(rules, jump) {
        o := Add(c, true, jump);
        ForeignOwned(jump, id, false);
        ForeignConcat([jump], rules, id, false);
        OnlyChainForeign(old(chains), chains, c, id, false);
        if !o.Succeeded? { return Err; }
      }
      r := Ok;
    }

    /** `iptables_with(KillswitchOn)`: both families in turn. */
    method KillswitchOn(phys: string, tun: string, id: string) returns (r: Result, ghost swallowed: bool)
      modifies this
      ensures SameForeign(old(chains), chains, id, false)
      ensures r.Ok? ==> Switched(old(chains), chains, V4, phys, tun, id)
      ensures r.Ok? && !swallowed ==> Switched(old(chains), chains, V6, phys, tun, id)
    {
      r, swallowed := KillswitchFamily(V4, phys, tun, id);
      if r.Err? { return; }
      ghost var middle := chains;
      r, swallowed := KillswitchFamily(V6, phys, tun, id);
      SameForeignJoins(old(chains), middle, chains, id);
      if r.Ok? {
        SwitchedStands(old(chains), middle, chains, V4, phys, tun, id);
        if !swallowed { SwitchedOnTop(old(chains), middle, chains, V6, phys, tun, id); }
      }
    }

    // ---- Runs --------------------------------------------------------------------------------------------

    /** One operation of one instance. However it ends, rules of others keep their order. */
    method Perform(op: Op) returns (r: Result)
      modifies this
      ensures SameForeign(old(chains), chains, op.id, false)
    {
      ghost var swallowed: bool;
      match op
      case Up(id, phys, tun, overlay, overlayIs6) => r, swallowed := Up(phys, tun, id, overlay, overlayIs6);
      case Down(id, tun) => r, swallowed := Cleanup(tun, id, false);
      case KillOn(id, phys, tun) => r, swallowed := KillswitchOn(phys, tun, id);
      case KillOff(id, tun) =>
        r, swallowed := Cleanup(tun, id, true);
        SameForeignWeakens(old(chains), chains, id);
    }

    /** Any sequence of operations by any of the instances, each of which may fail at any command: in
        every chain the rules owned by none of them keep their order. */
    method PerformAll(ops: seq<Op>, ghost ids: set<string>) returns (results: seq<Result>)
      requires forall op | op in ops :: op.id in ids
      modifies this
      ensures |results| == |ops|
      ensures forall c :: ForeignToAll(ChainOf(chains, c), ids) == ForeignToAll(ChainOf(old(chains), c), ids)
    {
      results := [];
      for i := 0 to |ops|
        invariant |results| == i
        invariant forall c :: ForeignToAll(ChainOf(chains, c), ids) == ForeignToAll(ChainOf(old(chains), c), ids)
      {
        ghost var before := chains;
        assert ops[i] in ops;
        var r := Perform(ops[i]);
        results := results + [r];
        forall c
          ensures ForeignToAll(ChainOf(chains, c), ids) == ForeignToAll(ChainOf(old(chains), c), ids)
        {
          InstanceKeepsForeignRules(before, chains, ops[i].id, ids, c);
        }
      }
    }

    /** `Up` and then `Down`. On tables that hold nothing of the instance, a `Down` none of whose commands
        the environment makes fail succeeds and puts every chain back, however the `Up` before it ended. */
    method UpThenDown(phys: string, tun: string, id: string, overlay: string, overlayIs6: bool)
      returns (up: Result, down: Result, ghost upFaults: nat, ghost downFaults: nat)
      modifies this
      ensures SameForeign(old(chains), chains, id, false)
      ensures Untouched(old(chains), tun, id) && downFaults == 0 ==>
                down.Ok? && forall c :: ChainOf(chains, c) == ChainOf(old(chains), c)
      ensures UpReady(old(chains), V4, phys, tun, id, !overlayIs6) && UpReady(old(chains), V6, phys, tun, id, overlayIs6) && upFaults == 0 ==> up.Ok?
      ensures faults == old(faults) + upFaults + downFaults
    {
      ghost var swallowed: bool;
      up, swallowed := Up(phys, tun, id, overlay, overlayIs6);
      upFaults := faults - old(faults);
      ghost var middle, before := chains, faults;
      down, swallowed := Cleanup(tun, id, false);
      downFaults := faults - before;
      SameForeignJoins(old(chains), middle, chains, id);
      if Untouched(old(chains), tun, id) && downFaults == 0 {
        UppedIsRemovable(old(chains), middle, V4, tun, id);
        UppedIsRemovable(old(chains), middle, V6, tun, id);
        forall c
          ensures ChainOf(chains, c) == ChainOf(old(chains), c)
        {
          CleanIsForeign(old(chains), c, id);
        }
      }
    }
  }

  /** The operations of one forwarding instance. */
  datatype Op =
    | Up(id: string, phys: string, tun: string, overlay: string, overlayIs6: bool)
    | Down(id: string, tun: string)
    | KillOn(id: string, phys: string, tun: string)
    | KillOff(id: string, tun: string)

  /** The other family's chains are untouched. */
  ghost predicate OnlyFamily(a: Tables, b: Tables, bin: Bin) {
    forall c: ChainId | c.bin != bin :: (c in b <==> c in a) && ChainOf(b, c) == ChainOf(a, c)
  }

  lemma OnlyFamilyJoins(a: Tables, b: Tables, d: Tables, bin: Bin)
    requires OnlyFamily(a, b, bin) && OnlyFamily(b, d, bin)
    ensures OnlyFamily(a, d, bin)
  {
  }

  /** What a completed switch-on of one family did. */
  ghost predicate Switched(a: Tables, b: Tables, bin: Bin, phys: string, tun: string, id: string) {
    var own, fwd := KillChainId(bin, tun), ForwardChain(bin);
    && own in b && ChainOf(b, own) == KillChain(ChainOf(a, own), tun, id)
    && fwd in a && fwd in b && ChainOf(b, fwd) == Guarded(ChainOf(a, fwd), KillJump(phys, own.name, id))
  }

  lemma SwitchedStands(a: Tables, b: Tables, d: Tables, bin: Bin, phys: string, tun: string, id: string)
    requires Switched(a, b, bin, phys, tun, id) && OnlyFamily(b, d, if bin.V4? then V6 else V4)
    ensures Switched(a, d, bin, phys, tun, id)
  {
  }

  lemma SwitchedOnTop(a: Tables, b: Tables, d: Tables, bin: Bin, phys: string, tun: string, id: string)
    requires Switched(b, d, bin, phys, tun, id) && OnlyFamily(a, b, if bin.V4? then V6 else V4)
    ensures Switched(a, d, bin, phys, tun, id)
  {
  }

  lemma CleanIsForeign(a: Tables, c: ChainId, id: string)
    requires forall k | k in a :: NoneOwned(a[k], id)
    ensures Foreign(ChainOf(a, c), id, false) == ChainOf(a, c)
  {
    ForeignOfNoneOwned(ChainOf(a, c), id, false);
  }

  /** The tables hold no rule of the instance, and its own chains are missing, or empty with nothing referring to them. */
  ghost predicate Untouched(m: Tables, tun: string, id: string) {
    (forall c | c in m :: NoneOwned(m[c], id)) && forall bin: Bin :: Deletable(m, KillChainId(bin, tun))
  }

  /** However far `Up` got on such tables, a cleanup finds at most one copy of each rule of the instance and
      its own chain to itself. */
  lemma UppedIsRemovable(a: Tables, b: Tables, bin: Bin, tun: string, id: string)
    requires Untouched(a, tun, id) && a.Keys == b.Keys && SameForeign(a, b, id, false) && Sparing(a, b)
    ensures Removable(b, bin, tun, id, false)
  {
    var own := KillChainId(bin, tun);
    forall c: ChainId, rule | Owned(rule, id, false)
      ensures Copies(ChainOf(b, c), rule) < 256
    {
      assert Spares(ChainOf(a, c), ChainOf(b, c));
      CopiesZero(ChainOf(a, c), rule);
    }
    forall k: ChainId, rule | rule in ChainOf(b, k) && !Owned(rule, id, false)
      ensures rule in ChainOf(a, k)
    {
      ForeignKeeps(ChainOf(b, k), rule, id, false);
    }
    assert Deletable(a, own);
    ReferredIff(a, own);
  }

  lemma {:induction false} ForeignKeeps(c: Chain, rule: Rule, id: string, only: bool)
    requires rule in c && !Owned(rule, id, only)
    ensures rule in Foreign(c, id, only)
  {
    if c[0] != rule { ForeignKeeps(c[1..], rule, id, only); }
  }

  function KillChainId(bin: Bin, tun: string): ChainId {
    ChainId(bin, Filter, "FPKS_" + tun)
  }

  lemma DistinctNames(bin: Bin, tun: string)
    ensures KillChainId(bin, tun) != ForwardChain(bin)
  {
    assert KillChainId(bin, tun).name[1] == 'P' && ForwardChain(bin).name[1] == 'O';
  }

  /** The rule's text contains `-j FPKS_`. */
  predicate JumpsToKillChain(rule: Rule) {
    exists i | 0 <= i < |rule| - 1 :: EndsWith(rule[i], "-j") && "FPKS_" <= rule[i + 1]
  }

  predicate EndsWith(s: string, suffix: string) {
    |suffix| <= |s| && s[|s| - |suffix|..] == suffix
  }

  /** Our jump is among the kill-switch jumps that open the chain. */
  predicate LeadingJump(c: Chain, jump: Rule) {
    c != [] && JumpsToKillChain(c[0]) && (c[0] == jump || LeadingJump(c[1..], jump))
  }

  function Guarded(c: Chain, jump: Rule): Chain {
    if LeadingJump(c, jump) then c else [jump] + c
  }

  /** After switching on, nothing but kill-switch jumps stands ahead of ours. */
  lemma GuardedLeads(c: Chain, phys: string, tun: string, id: string)
    ensures LeadingJump(Guarded(c, KillJump(phys, "FPKS_" + tun, id)), KillJump(phys, "FPKS_" + tun, id))
  {
    var jump := KillJump(phys, "FPKS_" + tun, id);
    assert EndsWith(jump[6], "-j") && "FPKS_" <= jump[7];
  }

  /** No chain has gained a copy of a rule. */
  ghost predicate Shrunk(a: Tables, b: Tables) {
    a.Keys == b.Keys && forall c :: Fewer(ChainOf(b, c), ChainOf(a, c))
  }

  /** The drain loop gives up on no rule of the instance in this table. */
  ghost predicate FewCopies(m: Tables, bin: Bin, table: Table, id: string, only: bool) {
    forall c: ChainId, rule | c.bin == bin && c.table == table && Owned(rule, id, only) :: Copies(ChainOf(m, c), rule) < 256
  }

  /** The rule jumps or goes to a chain of that name. */
  predicate RefersTo(rule: Rule, name: string) {
    exists i | 0 <= i < |rule| - 1 :: (rule[i] == "-j" || rule[i] == "-g") && rule[i + 1] == name
  }

  /** A rule of the same table refers to the chain. */
  predicate Referred(m: Tables, c: ChainId) {
    exists k | k in m :: k.bin == c.bin && k.table == c.table && exists rule | rule in m[k] :: RefersTo(rule, c.name)
  }

  predicate Deletable(m: Tables, c: ChainId) {
    c !in m || (m[c] == [] && !Referred(m, c))
  }

  /** Nobody else has a rule in the chain, if there is one, or a rule that refers to it. */
  ghost predicate OwnAlone(m: Tables, c: ChainId, id: string, only: bool) {
    c in m ==>
      && (forall rule | rule in ChainOf(m, c) :: Owned(rule, id, only))
      && forall k: ChainId, rule | k.bin == c.bin && k.table == c.table && rule in ChainOf(m, k) && RefersTo(rule, c.name) :: Owned(rule, id, only)
  }

  /** What a cleanup of one family needs of the tables to succeed. */
  ghost predicate Removable(m: Tables, bin: Bin, tun: string, id: string, only: bool) {
    && FewCopies(m, bin, Filter, id, only) && FewCopies(m, bin, Nat, id, only)
    && OwnAlone(m, KillChainId(bin, tun), id, only)
  }

  lemma FewCopiesStands(a: Tables, b: Tables, bin: Bin, table: Table, id: string, only: bool)
    requires forall c: ChainId | c.bin == bin && c.table == table :: ChainOf(b, c) == ChainOf(a, c)
    ensures FewCopies(a, bin, table, id, only) <==> FewCopies(b, bin, table, id, only)
  {
    forall c: ChainId, rule | c.bin == bin && c.table == table && Owned(rule, id, only)
      ensures Copies(ChainOf(a, c), rule) < 256 <==> Copies(ChainOf(b, c), rule) < 256
    {
    }
  }

  /** Once a family is clean, its own chain is free to be deleted exactly when nobody else used it. */
  lemma OwnChainIsFree(a: Tables, b: Tables, bin: Bin, tun: string, id: string, only: bool)
    requires a.Keys == b.Keys && forall c: ChainId | c.bin == bin :: ChainOf(b, c) == Foreign(ChainOf(a, c), id, only)
    ensures OwnAlone(a, KillChainId(bin, tun), id, only) <==> Deletable(b, KillChainId(bin, tun))
  {
    var own := KillChainId(bin, tun);
    forall k: ChainId, rule | k.bin == bin
      ensures rule in ChainOf(b, k) <==> rule in ChainOf(a, k) && !Owned(rule, id, only)
    {
      if rule in ChainOf(a, k) && !Owned(rule, id, only) { ForeignKeeps(ChainOf(a, k), rule, id, only); }
    }
    ReferredIff(b, own);
    assert ChainOf(b, own) == [] <==> forall rule :: rule !in ChainOf(b, own) by {
      if ChainOf(b, own) != [] { assert ChainOf(b, own)[0] in ChainOf(b, own); }
    }
  }

  lemma ReferredIff(m: Tables, c: ChainId)
    ensures Referred(m, c) <==> exists k: ChainId, rule :: k.bin == c.bin && k.table == c.table && rule in ChainOf(m, k) && RefersTo(rule, c.name)
  {
    if k: ChainId, rule :| k.bin == c.bin && k.table == c.table && rule in ChainOf(m, k) && RefersTo(rule, c.name) {
      assert k in m && rule in m[k];
    }
    if Referred(m, c) {
      var k :| k in m && k.bin == c.bin && k.table == c.table && exists rule | rule in m[k] :: RefersTo(rule, c.name);
      var rule :| rule in m[k] && RefersTo(rule, c.name);
      assert rule in ChainOf(m, k);
    }
  }

  /** Cleaning the other family changes none of this. */
  lemma RemovableStands(a: Tables, b: Tables, bin: Bin, tun: string, id: string, only: bool)
    requires OnlyFamily(a, b, if bin.V4? then V6 else V4)
    ensures Removable(a, bin, tun, id, only) <==> Removable(b, bin, tun, id, only)
  {
    FewCopiesStands(a, b, bin, Filter, id, only);
    FewCopiesStands(a, b, bin, Nat, id, only);
  }

  /** Part-way through cleaning one table. */
  ghost predicate Cleaning(a: Tables, b: Tables, bin: Bin, table: Table, id: string, only: bool) {
    && Shrunk(a, b) && SameForeign(a, b, id, only)
    && forall c | c in a && (c.bin != bin || c.table != table) :: b[c] == a[c]
  }

  lemma DrainCleans(a: Tables, b: Tables, d: Tables, c: ChainId, bin: Bin, table: Table, id: string, only: bool)
    requires Cleaning(a, b, bin, table, id, only) && c.bin == bin && c.table == table
    requires OnlyChain(b, d, c) && SameForeign(b, d, id, only) && Fewer(ChainOf(d, c), ChainOf(b, c))
    ensures Cleaning(a, d, bin, table, id, only)
  {
    forall k
      ensures Fewer(ChainOf(d, k), ChainOf(a, k))
    {
      assert Fewer(ChainOf(b, k), ChainOf(a, k));
      assert k != c ==> ChainOf(d, k) == ChainOf(b, k);
    }
  }

  /** The chains of one table hold just their foreign rules. */
  ghost predicate Cleaned(a: Tables, b: Tables, bin: Bin, table: Table, id: string, only: bool) {
    forall c: ChainId | c.bin == bin && c.table == table :: ChainOf(b, c) == Foreign(ChainOf(a, c), id, only)
  }

  ghost predicate OnlyTable(a: Tables, b: Tables, bin: Bin, table: Table) {
    forall c: ChainId | c.bin != bin || c.table != table :: ChainOf(b, c) == ChainOf(a, c)
  }

  lemma TablesCleaned(a: Tables, b: Tables, d: Tables, bin: Bin, id: string, only: bool)
    requires Cleaned(a, b, bin, Filter, id, only) && OnlyTable(a, b, bin, Filter)
    requires Cleaned(b, d, bin, Nat, id, only) && OnlyTable(b, d, bin, Nat)
    ensures forall c: ChainId | c.bin == bin :: ChainOf(d, c) == Foreign(ChainOf(a, c), id, only)
  {
    forall c: ChainId | c.bin == bin
      ensures ChainOf(d, c) == Foreign(ChainOf(a, c), id, only)
    {
      if c.table == Filter { assert ChainOf(d, c) == ChainOf(b, c); } else { assert ChainOf(b, c) == ChainOf(a, c); }
    }
  }

  /** None of the owned rules listed is left where it was listed. */
  ghost predicate Gone(m: Tables, lines: seq<(ChainId, Rule)>, id: string, only: bool) {
    forall line | line in lines && Owned(line.1, id, only) :: line.1 !in ChainOf(m, line.0)
  }

  lemma DrainKeepsGone(a: Tables, b: Tables, c: ChainId, rule: Rule, lines: seq<(ChainId, Rule)>, id: string, only: bool)
    requires OnlyChain(a, b, c) && Fewer(ChainOf(b, c), ChainOf(a, c))
    ensures Gone(a, lines, id, only) && rule !in ChainOf(b, c) ==> Gone(b, lines + [(c, rule)], id, only)
  {
    forall x | x in ChainOf(b, c)
      ensures x in ChainOf(a, c)
    {
      FewerIn(ChainOf(b, c), ChainOf(a, c), x);
    }
  }

  /** The owned rules listed had few copies at the start, and the copies of all others are as they were. */
  ghost predicate Counted(start: Tables, m: Tables, lines: seq<(ChainId, Rule)>, id: string, only: bool) {
    && (forall line | line in lines && Owned(line.1, id, only) :: Copies(ChainOf(start, line.0), line.1) < 256)
    && forall c: ChainId, x :: Copies(ChainOf(m, c), x) == Copies(ChainOf(start, c), x) || Copies(ChainOf(start, c), x) < 256
  }

  lemma DrainKeepsCounted(start: Tables, a: Tables, b: Tables, c: ChainId, rule: Rule, lines: seq<(ChainId, Rule)>, id: string, only: bool)
    requires OnlyChain(a, b, c) && OnlyFewer(ChainOf(b, c), ChainOf(a, c), rule)
    ensures Counted(start, a, lines, id, only) && Copies(ChainOf(a, c), rule) < 256 ==> Counted(start, b, lines + [(c, rule)], id, only)
  {
    if Counted(start, a, lines, id, only) && Copies(ChainOf(a, c), rule) < 256 {
      assert Copies(ChainOf(start, c), rule) < 256;
      forall k: ChainId, x
        ensures Copies(ChainOf(b, k), x) == Copies(ChainOf(start, k), x) || Copies(ChainOf(start, k), x) < 256
      {
        assert Copies(ChainOf(a, k), x) == Copies(ChainOf(start, k), x) || Copies(ChainOf(start, k), x) < 256;
        assert k != c ==> ChainOf(b, k) == ChainOf(a, k);
      }
    }
  }

  /** If every owned rule of a table is listed and had few copies, no rule had many. */
  lemma ListedIsFew(a: Tables, b: Tables, lines: seq<(ChainId, Rule)>, bin: Bin, table: Table, id: string, only: bool)
    requires Counted(a, b, lines, id, only)
    requires forall c, rule | c in a && c.bin == bin && c.table == table && rule in a[c] :: (c, rule) in lines
    ensures FewCopies(a, bin, table, id, only)
  {
    forall c: ChainId, rule | c.bin == bin && c.table == table && Owned(rule, id, only)
      ensures Copies(ChainOf(a, c), rule) < 256
    {
      if rule in ChainOf(a, c) { assert (c, rule) in lines; } else { CopiesZero(ChainOf(a, c), rule); }
    }
  }

  /** Once every owned rule listed is gone, what is left of a listed chain is its foreign rules. */
  lemma ListedIsClean(a: Tables, b: Tables, lines: seq<(ChainId, Rule)>, c: ChainId, id: string, only: bool)
    requires c in a && Shrunk(a, b) && SameForeign(a, b, id, only) && Gone(b, lines, id, only)
    requires forall rule | rule in a[c] :: (c, rule) in lines
    ensures b[c] == Foreign(a[c], id, only)
  {
    assert ChainOf(b, c) == b[c] && ChainOf(a, c) == a[c];
    forall rule | rule in b[c]
      ensures !Owned(rule, id, only)
    {
      FewerIn(ChainOf(b, c), ChainOf(a, c), rule);
      assert (c, rule) in lines;
    }
    ForeignOfNoneOwned(b[c], id, only);
  }

  lemma UpChainSteps(c: Chain, phys: string, tun: string, id: string)
    ensures
      var outbound, inbound := Outbound(phys, tun, id), Inbound(phys, tun, id);
      var drained := Without(Without(EnsureFront(c, Ingress(phys, tun, id)), outbound), inbound);
      EnsureFront(EnsureFront(drained, outbound), inbound) == UpChain(c, phys, tun, id)
  {
    var outbound, inbound := Outbound(phys, tun, id), Inbound(phys, tun, id);
    ForwardRules(phys, tun, id);
    FrontTwice(Without(Without(EnsureFront(c, Ingress(phys, tun, id)), outbound), inbound), outbound, inbound);
  }

  lemma FrontTwice(c: Chain, first: Rule, second: Rule)
    requires first !in c && second !in c && first != second
    ensures EnsureFront(EnsureFront(c, first), second) == [second, first] + c
  {
  }

  function LinesOf(c: ChainId, rules: Chain): (lines: seq<(ChainId, Rule)>)
    ensures forall line | line in lines :: line.0 == c
    ensures forall rule | rule in rules :: (c, rule) in lines
  {
    if rules == [] then [] else [(c, rules[0])] + LinesOf(c, rules[1..])
  }

  // ---- Specifications of whole operations ----------------------------------------------------------

  function ForwardChain(bin: Bin): ChainId {
    ChainId(bin, Filter, "FORWARD")
  }

  function DockerChain(bin: Bin): ChainId {
    ChainId(bin, Filter, "DOCKER-USER")
  }

  function NatChain(bin: Bin): ChainId {
    ChainId(bin, Nat, "POSTROUTING")
  }

  function Masquerade(phys: string, id: string, overlay: string): Rule {
    ["-s", overlay, "-o", phys, "-m", "comment", "--comment", id + ":nat", "-j", "MASQUERADE"]
  }

  lemma MasqueradeOwned(phys: string, id: string, overlay: string)
    ensures Owned(Masquerade(phys, id, overlay), id, false)
  {
    assert Masquerade(phys, id, overlay)[6] == "--comment" && Masquerade(phys, id, overlay)[7] == id + ":nat";
  }

  function TouchedByUp(bin: Bin): set<ChainId> {
    {ForwardChain(bin), DockerChain(bin), NatChain(bin)}
  }

  /** No chain has gained a second copy of a rule. */
  ghost predicate Sparing(a: Tables, b: Tables) {
    forall c :: Spares(ChainOf(a, c), ChainOf(b, c))
  }

  lemma SparingJoins(a: Tables, b: Tables, d: Tables)
    requires Sparing(a, b) && Sparing(b, d)
    ensures Sparing(a, d)
  {
    forall c
      ensures Spares(ChainOf(a, c), ChainOf(d, c))
    {
      assert Spares(ChainOf(a, c), ChainOf(b, c)) && Spares(ChainOf(b, c), ChainOf(d, c));
    }
  }

  /** Owned rules of one family's forwarding chains were drained or inserted, and nothing else. */
  ghost predicate Edited(a: Tables, b: Tables, bin: Bin, id: string) {
    && a.Keys == b.Keys && SameForeign(a, b, id, false) && Sparing(a, b)
    && forall c | c in b && c !in TouchedByUp(bin) :: b[c] == a[c]
  }

  lemma EditedByOne(a: Tables, b: Tables, d: Tables, c: ChainId, bin: Bin, id: string)
    requires Edited(a, b, bin, id) && c in TouchedByUp(bin)
    requires OnlyChain(b, d, c) && SameForeign(b, d, id, false) && Spares(ChainOf(b, c), ChainOf(d, c))
    ensures Edited(a, d, bin, id)
  {
    forall k
      ensures Spares(ChainOf(b, k), ChainOf(d, k))
    {
      assert k != c ==> ChainOf(d, k) == ChainOf(b, k);
    }
    SparingJoins(a, b, d);
  }

  lemma EditedOnlyFamily(a: Tables, b: Tables, bin: Bin, id: string)
    requires Edited(a, b, bin, id)
    ensures OnlyFamily(a, b, bin)
  {
    forall c: ChainId | c.bin != bin
      ensures (c in b <==> c in a) && ChainOf(b, c) == ChainOf(a, c)
    {
      assert c !in TouchedByUp(bin);
    }
  }

  lemma EditedBoth(a: Tables, b: Tables, d: Tables, id: string)
    requires Edited(a, b, V4, id) && Edited(b, d, V6, id)
    ensures d.Keys == a.Keys && SameForeign(a, d, id, false) && Sparing(a, d)
    ensures forall c | c in d && c !in TouchedByUp(c.bin) :: d[c] == a[c]
  {
    SameForeignJoins(a, b, d, id);
    SparingJoins(a, b, d);
    forall c | c in d && c !in TouchedByUp(c.bin)
      ensures d[c] == a[c]
    {
      assert c !in TouchedByUp(V4) && c !in TouchedByUp(V6);
    }
  }

  /** The drain loop gives up on neither ACCEPT. */
  predicate Drainable(c: Chain, phys: string, tun: string, id: string) {
    Copies(c, Outbound(phys, tun, id)) < 256 && Copies(c, Inbound(phys, tun, id)) < 256
  }

  /** What `Up` of one family needs of the tables to succeed. */
  predicate UpReady(m: Tables, bin: Bin, phys: string, tun: string, id: string, masq: bool) {
    && ForwardChain(bin) in m && Drainable(ChainOf(m, ForwardChain(bin)), phys, tun, id)
    && Drainable(ChainOf(m, DockerChain(bin)), phys, tun, id)
    && (masq ==> NatChain(bin) in m)
  }

  lemma UpReadyStands(a: Tables, b: Tables, bin: Bin, phys: string, tun: string, id: string, masq: bool)
    requires OnlyFamily(a, b, if bin.V4? then V6 else V4)
    ensures UpReady(a, bin, phys, tun, id, masq) ==> UpReady(b, bin, phys, tun, id, masq)
  {
  }

  /** What a completed `Up` of one family did to the filter table. */
  ghost predicate UppedFilter(a: Tables, b: Tables, bin: Bin, phys: string, tun: string, id: string) {
    && a.Keys == b.Keys && ForwardChain(bin) in a
    && b[ForwardChain(bin)] == UpChain(a[ForwardChain(bin)], phys, tun, id)
    && (DockerChain(bin) in a ==> b[DockerChain(bin)] == UpChain(a[DockerChain(bin)], phys, tun, id))
  }

  /** What a completed `Up` of one family did. */
  ghost predicate Upped(a: Tables, b: Tables, bin: Bin, phys: string, tun: string, id: string, overlay: string, masq: bool) {
    && UppedFilter(a, b, bin, phys, tun, id)
    && (masq ==> NatChain(bin) in a && b[NatChain(bin)] == EnsureBack(a[NatChain(bin)], Masquerade(phys, id, overlay)))
    && (!masq && NatChain(bin) in a ==> b[NatChain(bin)] == a[NatChain(bin)])
  }

  lemma SameForeignJoins(a: Tables, b: Tables, d: Tables, id: string)
    requires SameForeign(a, b, id, false) && SameForeign(b, d, id, false)
    ensures SameForeign(a, d, id, false)
  {
  }

  /** One family's result is untouched by the other's run after it, or before it. */
  lemma UppedStands(a: Tables, b: Tables, d: Tables, bin: Bin, phys: string, tun: string, id: string, overlay: string, masq: bool)
    requires Upped(a, b, bin, phys, tun, id, overlay, masq)
    requires OnlyFamily(b, d, if bin.V4? then V6 else V4) && b.Keys == d.Keys
    ensures Upped(a, d, bin, phys, tun, id, overlay, masq)
  {
  }

  lemma UppedOnTop(a: Tables, b: Tables, d: Tables, bin: Bin, phys: string, tun: string, id: string, overlay: string, masq: bool)
    requires Upped(b, d, bin, phys, tun, id, overlay, masq)
    requires OnlyFamily(a, b, if bin.V4? then V6 else V4) && a.Keys == b.Keys
    ensures Upped(a, d, bin, phys, tun, id, overlay, masq)
  {
  }

  // ---- Round trips and runs -----------------------------------------------------------------------------

  ghost predicate NoneOwned(c: Chain, id: string) {
    forall r | r in c :: !Owned(r, id, false)
  }

  /** The rules owned by none of a set of instances, in order. */
  function ForeignToAll(c: Chain, ids: set<string>): Chain {
    if c == [] then []
    else (if exists id | id in ids :: Owned(c[0], id, false) then [] else [c[0]]) + ForeignToAll(c[1..], ids)
  }

  lemma {:induction false} ForeignToAllConcat(a: Chain, b: Chain, ids: set<string>)
    ensures ForeignToAll(a + b, ids) == ForeignToAll(a, ids) + ForeignToAll(b, ids)
  {
    if a == [] {
      assert a + b == b;
    } else {
      assert (a + b)[1..] == a[1..] + b;
      ForeignToAllConcat(a[1..], b, ids);
    }
  }

  lemma {:induction false} ForeignToAllOfForeign(c: Chain, id: string, ids: set<string>)
    requires id in ids
    ensures ForeignToAll(Foreign(c, id, false), ids) == ForeignToAll(c, ids)
  {
    if c != [] {
      ForeignToAllOfForeign(c[1..], id, ids);
      var head := if Owned(c[0], id, false) then [] else [c[0]];
      ForeignToAllConcat(head, Foreign(c[1..], id, false), ids);
    }
  }

  /** Kill-switch cleanup is also an edit of owned rules only. */
  lemma SameForeignWeakens(a: Tables, b: Tables, id: string)
    requires SameForeign(a, b, id, true)
    ensures SameForeign(a, b, id, false)
  {
    forall c
      ensures Foreign(ChainOf(a, c), id, false) == Foreign(ChainOf(b, c), id, false)
    {
      ForeignNested(ChainOf(a, c), id);
      ForeignNested(ChainOf(b, c), id);
    }
  }

  lemma InstanceKeepsForeignRules(a: Tables, b: Tables, id: string, ids: set<string>, c: ChainId)
    requires id in ids && SameForeign(a, b, id, false)
    ensures ForeignToAll(ChainOf(b, c), ids) == ForeignToAll(ChainOf(a, c), ids)
  {
    ForeignToAllOfForeign(ChainOf(a, c), id, ids);
    ForeignToAllOfForeign(ChainOf(b, c), id, ids);
  }
}
