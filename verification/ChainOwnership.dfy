/**
 What `own_chain` leaves in the chain tables, and why its single edits disturb neither the
 host's rules nor the confinement of the other slots.
 */
module ChainOwnership {
  import opened Wrappers
  import opened Netfilter
  import opened SlotPolicy
  import opened Recency

  /** One chain of a slot and the built-in chains that hook it. */
  datatype Part = Part(id: ChainId, hooks: seq<ChainId>)

  function Hook(n: Slot, id: ChainId): Rule
    requires id in BUILTINS
  {
    HookOf(n, id).value
  }

  ghost predicate PartOf(n: Slot, part: Part) {
    && OwnRules(n, part.id).Some?
    && (forall i | 0 <= i < |part.hooks| :: part.hooks[i] in BUILTINS)
    && NoRepeats(part.hooks)
  }

  /** The three calls that `firewall` makes, in its order. */
  function Parts(n: Slot): seq<Part> {
    [Part(ChainId(V4, InputChain(n)), [ChainId(V4, FORWARD), ChainId(V4, INPUT)]),
     Part(ChainId(V6, InputChain(n)), [ChainId(V6, FORWARD), ChainId(V6, INPUT)]),
     Part(ChainId(V4, RelayChain(n)), [ChainId(V4, OUTPUT)])]
  }

  lemma PartsAreParts(n: Slot)
    ensures forall i | 0 <= i < 3 :: PartOf(n, Parts(n)[i])
  {
    assert InputChain(n)[3] == '_' && RelayChain(n)[3] == 'R';
    assert FORWARD[0] != INPUT[0];
  }

  function HookSet(part: Part): set<ChainId> {
    set k | k in part.hooks
  }

  function OwnIds(n: Slot): set<ChainId> {
    {ChainId(V4, InputChain(n)), ChainId(V6, InputChain(n)), ChainId(V4, RelayChain(n))}
  }

  lemma OwnIdsExactly(n: Slot, id: ChainId)
    ensures id in OwnIds(n) <==> OwnRules(n, id).Some?
    ensures id in OwnIds(n) ==> id !in BUILTINS
  {
    ChainsApart(n, n, id);
  }

  /** The own chains `ids` hold the wanted rules, and each of `hooks` starts with the slot's hook and has it once. */
  function Installed(c: Chains, n: Slot, ids: set<ChainId>, hooks: set<ChainId>): Chains
    requires hooks <= BUILTINS
  {
    map k | k in c.Keys + ids ::
      if k in ids then OwnRules(n, k).GetOr([])
      else if k in hooks then [Hook(n, k)] + Without(c[k], Hook(n, k))
      else c[k]
  }

  /** The own chains `ids` are gone, and so is every copy of the slot's hook in `hooks`. */
  function Uninstalled(c: Chains, n: Slot, ids: set<ChainId>, hooks: set<ChainId>): Chains
    requires hooks <= BUILTINS
  {
    map k | k in c && k !in ids :: if k in hooks then Without(c[k], Hook(n, k)) else c[k]
  }

  lemma WithoutTwice(rules: seq<Rule>, r: Rule)
    ensures Without([r] + Without(rules, r), r) == Without(rules, r)
    ensures Without(Without(rules, r), r) == Without(rules, r)
  {
    WithoutFacts(rules, r);
    WithoutFacts(Without(rules, r), r);
    WithoutConcat([r], Without(rules, r), r);
    WithoutFacts([r], r);
  }

  lemma InstallTwice(c: Chains, n: Slot, ids: set<ChainId>, hooks: set<ChainId>)
    requires hooks <= BUILTINS && ids !! hooks
    ensures Installed(Installed(c, n, ids, hooks), n, ids, hooks) == Installed(c, n, ids, hooks)
  {
    forall k | k in c && k in hooks
      ensures Without(Installed(c, n, ids, hooks)[k], Hook(n, k)) == Without(c[k], Hook(n, k))
    {
      WithoutTwice(c[k], Hook(n, k));
    }
  }

  lemma RemoveUndoes(c: Chains, n: Slot, ids: set<ChainId>, hooks: set<ChainId>)
    requires hooks <= BUILTINS && ids !! hooks
    ensures Uninstalled(Installed(c, n, ids, hooks), n, ids, hooks) == Uninstalled(c, n, ids, hooks)
  {
    forall k | k in c && k in hooks
      ensures Without(Installed(c, n, ids, hooks)[k], Hook(n, k)) == Without(c[k], Hook(n, k))
    {
      WithoutTwice(c[k], Hook(n, k));
    }
  }

  /** Installing one part and then another installs both. */
  lemma InstallBoth(c: Chains, n: Slot, ids: set<ChainId>, hooks: set<ChainId>, ids': set<ChainId>, hooks': set<ChainId>)
    requires hooks <= BUILTINS && hooks' <= BUILTINS && hooks !! hooks' && (ids + ids') !! (hooks + hooks')
    ensures Installed(Installed(c, n, ids, hooks), n, ids', hooks') == Installed(c, n, ids + ids', hooks + hooks')
    ensures Uninstalled(Uninstalled(c, n, ids, hooks), n, ids', hooks') == Uninstalled(c, n, ids + ids', hooks + hooks')
  {
  }

  /** All of a slot's rules installed, everything else as it was. */
  function Firewalled(c: Chains, n: Slot): Chains {
    Installed(c, n, OwnIds(n), BUILTINS)
  }

  /** No rule and no chain of a slot left, everything else as it was. */
  function Cleared(c: Chains, n: Slot): Chains {
    Uninstalled(c, n, OwnIds(n), BUILTINS)
  }

  lemma OwnIdsApart(n: Slot)
    ensures OwnIds(n) !! BUILTINS
  {
    forall k | k in OwnIds(n)
      ensures k !in BUILTINS
    {
      OwnIdsExactly(n, k);
    }
  }

  /** Setting a slot up twice is setting it up once; removing it afterwards is removing it before. */
  lemma FirewallTwice(c: Chains, n: Slot)
    ensures Firewalled(Firewalled(c, n), n) == Firewalled(c, n)
    ensures Cleared(Firewalled(c, n), n) == Cleared(c, n)
  {
    OwnIdsApart(n);
    InstallTwice(c, n, OwnIds(n), BUILTINS);
    RemoveUndoes(c, n, OwnIds(n), BUILTINS);
  }

  /** What one call of `own_chain` leaves. */
  function Owned(c: Chains, n: Slot, part: Part): Chains
    requires HookSet(part) <= BUILTINS
  {
    Installed(c, n, {part.id}, HookSet(part))
  }

  function Disowned(c: Chains, n: Slot, part: Part): Chains
    requires HookSet(part) <= BUILTINS
  {
    Uninstalled(c, n, {part.id}, HookSet(part))
  }

  lemma PartsCover(n: Slot)
    ensures var p := Parts(n);
            && HookSet(p[0]) == {ChainId(V4, FORWARD), ChainId(V4, INPUT)}
            && HookSet(p[1]) == {ChainId(V6, FORWARD), ChainId(V6, INPUT)}
            && HookSet(p[2]) == {ChainId(V4, OUTPUT)}
  {
  }

  /** The three calls of `firewall` together. */
  lemma FirewallInParts(c: Chains, n: Slot)
    ensures var p := Parts(n);
            && HookSet(p[0]) <= BUILTINS && HookSet(p[1]) <= BUILTINS && HookSet(p[2]) <= BUILTINS
            && Owned(Owned(Owned(c, n, p[0]), n, p[1]), n, p[2]) == Firewalled(c, n)
            && Disowned(Disowned(Disowned(c, n, p[0]), n, p[1]), n, p[2]) == Cleared(c, n)
  {
    var p := Parts(n);
    PartsCover(n);
    OwnIdsApart(n);
    var i0, i1, i2 := {p[0].id}, {p[1].id}, {p[2].id};
    var h0, h1, h2 := HookSet(p[0]), HookSet(p[1]), HookSet(p[2]);
    assert i0 + i1 + i2 == OwnIds(n) && h0 + h1 + h2 == BUILTINS;
    assert FORWARD[0] != OUTPUT[0] && INPUT[0] != OUTPUT[0];
    InstallBoth(c, n, i0, h0, i1, h1);
    InstallBoth(c, n, i0 + i1, h0 + h1, i2, h2);
  }

  lemma OwnIsNoHook(n: Slot, part: Part)
    requires PartOf(n, part)
    ensures part.id !in part.hooks && part.id !in BUILTINS
  {
    ChainsApart(n, n, part.id);
  }

  // ---------------------------------------------------------------- single edits

  lemma {:induction false} RemoveFirstFacts(rules: seq<Rule>, r: Rule)
    requires r in rules
    ensures |RemoveFirst(rules, r)| == |rules| - 1
    ensures Without(RemoveFirst(rules, r), r) == Without(rules, r)
  {
    if rules[0] != r {
      RemoveFirstFacts(rules[1..], r);
    }
  }

  lemma {:induction false} DeleteKeepsLead(rules: seq<Rule>, hook: Rule, r: Rule, pool: seq<Slot>, id: ChainId)
    requires Leads(rules, hook, pool, id) && r != hook
    ensures Leads(RemoveFirst(rules, r), hook, pool, id)
  {
    if rules[0] != hook && rules[0] != r {
      DeleteKeepsLead(rules[1..], hook, r, pool, id);
      assert RemoveFirst(rules, r)[1..] == RemoveFirst(rules[1..], r);
    }
  }

  lemma {:induction false} DeleteKeepsForeign(rules: seq<Rule>, r: Rule, pool: seq<Slot>, id: ChainId)
    requires Ours(pool, id, r)
    ensures Foreign(RemoveFirst(rules, r), pool, id) == Foreign(rules, pool, id)
  {
    if rules != [] && rules[0] != r {
      DeleteKeepsForeign(rules[1..], r, pool, id);
      assert RemoveFirst(rules, r)[1..] == RemoveFirst(rules[1..], r);
    }
  }

  lemma InsertKeeps(rules: seq<Rule>, hook: Rule, r: Rule, pool: seq<Slot>, id: ChainId)
    requires Ours(pool, id, r)
    ensures Leads(rules, hook, pool, id) ==> Leads([r] + rules, hook, pool, id)
    ensures Foreign([r] + rules, pool, id) == Foreign(rules, pool, id)
  {
    assert ([r] + rules)[1..] == rules;
  }

  /** The slots other than `n` that were confined still are, and the host's policy is the same. */
  ghost predicate Undisturbed(c: Chains, d: Chains, n: Slot, pool: seq<Slot>) {
    && (forall m | m in pool && m.tap != n.tap && Confined(c, m, pool) :: Confined(d, m, pool))
    && HostPolicy(d, pool) == HostPolicy(c, pool)
    && (BUILTINS <= c.Keys ==> BUILTINS <= d.Keys)
  }

  lemma UndisturbedSame(c: Chains, n: Slot, pool: seq<Slot>)
    ensures Undisturbed(c, c, n, pool)
  {
  }

  lemma BuiltinsKept(c: Chains, d: Chains, n: Slot, pool: seq<Slot>)
    requires Undisturbed(c, d, n, pool) && BUILTINS <= c.Keys
    ensures BUILTINS <= d.Keys
  {
  }

  lemma UndisturbedTwice(a: Chains, b: Chains, c: Chains, n: Slot, pool: seq<Slot>)
    requires Undisturbed(a, b, n, pool) && Undisturbed(b, c, n, pool)
    ensures Undisturbed(a, c, n, pool)
  {
  }

  lemma ConfinedAfterOwnEdit(c: Chains, d: Chains, m: Slot, n: Slot, pool: seq<Slot>, id: ChainId)
    requires m.tap != n.tap && OwnRules(n, id).Some? && Confined(c, m, pool)
    requires forall k | k != id :: (k in c <==> k in d) && (k in c ==> c[k] == d[k])
    ensures Confined(d, m, pool)
  {
    ChainsApart(n, n, id);
    ChainsApart(n, m, id);
  }

  lemma OthersAfterOwnEdit(c: Chains, d: Chains, n: Slot, pool: seq<Slot>, id: ChainId)
    requires OwnRules(n, id).Some?
    requires forall k | k != id :: (k in c <==> k in d) && (k in c ==> c[k] == d[k])
    ensures forall m | m in pool && m.tap != n.tap && Confined(c, m, pool) :: Confined(d, m, pool)
  {
    forall m | m in pool && m.tap != n.tap && Confined(c, m, pool)
      ensures Confined(d, m, pool)
    {
      ConfinedAfterOwnEdit(c, d, m, n, pool, id);
    }
  }

  lemma HostPolicyAfterOwnEdit(c: Chains, d: Chains, n: Slot, pool: seq<Slot>, id: ChainId)
    requires n in pool && OwnRules(n, id).Some?
    requires forall k | k != id :: (k in c <==> k in d) && (k in c ==> c[k] == d[k])
    ensures HostPolicy(d, pool) == HostPolicy(c, pool)
  {
    assert PoolChain(pool, id);
  }

  /** Any change of the slot's own chain. */
  lemma OwnEdit(c: Chains, d: Chains, n: Slot, pool: seq<Slot>, id: ChainId)
    requires n in pool && OwnRules(n, id).Some?
    requires forall k | k != id :: (k in c <==> k in d) && (k in c ==> c[k] == d[k])
    ensures Undisturbed(c, d, n, pool)
  {
    hide Confined, HostPolicy;
    OthersAfterOwnEdit(c, d, n, pool, id);
    HostPolicyAfterOwnEdit(c, d, n, pool, id);
    ChainsApart(n, n, id);
  }

  lemma HooksDiffer(m: Slot, n: Slot, pool: seq<Slot>, id: ChainId)
    requires Distinguishable(pool) && m in pool && n in pool && m.tap != n.tap && id in BUILTINS
    ensures Hook(m, id) != Hook(n, id)
  {
    var i :| 0 <= i < |pool| && pool[i] == m;
    var j :| 0 <= j < |pool| && pool[j] == n;
    assert i < j || j < i;
  }

  lemma LeadAfterHookEdit(before: seq<Rule>, rules: seq<Rule>, m: Slot, n: Slot, pool: seq<Slot>, id: ChainId)
    requires Distinguishable(pool) && m in pool && n in pool && m.tap != n.tap && id in BUILTINS
    requires Leads(before, Hook(m, id), pool, id)
    requires rules == RemoveFirst(before, Hook(n, id)) || rules == [Hook(n, id)] + before
    ensures Leads(rules, Hook(m, id), pool, id)
  {
    HooksDiffer(m, n, pool, id);
    assert Ours(pool, id, Hook(n, id));
    DeleteKeepsLead(before, Hook(m, id), Hook(n, id), pool, id);
    InsertKeeps(before, Hook(m, id), Hook(n, id), pool, id);
  }

  lemma ConfinedAfterHookEdit(c: Chains, rules: seq<Rule>, m: Slot, n: Slot, pool: seq<Slot>, id: ChainId)
    requires Distinguishable(pool) && m in pool && n in pool && m.tap != n.tap
    requires id in BUILTINS && id in c && Confined(c, m, pool)
    requires rules == RemoveFirst(c[id], Hook(n, id)) || rules == [Hook(n, id)] + c[id]
    ensures Confined(c[id := rules], m, pool)
  {
    LeadAfterHookEdit(c[id], rules, m, n, pool, id);
    ChainsApart(n, m, id);
  }

  lemma HostPolicyAfterHookEdit(c: Chains, rules: seq<Rule>, n: Slot, pool: seq<Slot>, id: ChainId)
    requires n in pool && id in BUILTINS && id in c
    requires rules == RemoveFirst(c[id], Hook(n, id)) || rules == [Hook(n, id)] + c[id]
    ensures HostPolicy(c[id := rules], pool) == HostPolicy(c, pool)
  {
    var r := Hook(n, id);
    assert Ours(pool, id, r);
    DeleteKeepsForeign(c[id], r, pool, id);
    InsertKeeps(c[id], r, r, pool, id);
  }

  /** Deleting one copy of the slot's hook, or putting one in front. */
  lemma HookEdit(c: Chains, rules: seq<Rule>, n: Slot, pool: seq<Slot>, id: ChainId)
    requires Distinguishable(pool) && n in pool && id in BUILTINS && id in c
    requires rules == RemoveFirst(c[id], Hook(n, id)) || rules == [Hook(n, id)] + c[id]
    ensures Undisturbed(c, c[id := rules], n, pool)
  {
    forall m | m in pool && m.tap != n.tap && Confined(c, m, pool)
      ensures Confined(c[id := rules], m, pool)
    {
      ConfinedAfterHookEdit(c, rules, m, n, pool, id);
    }
    HostPolicyAfterHookEdit(c, rules, n, pool, id);
  }

  // ---------------------------------------------------------------- the stages of own_chain

  /** The tables with every copy of the slot's hooks deleted from these chains. */
  ghost function Purged(c: Chains, n: Slot, hooks: seq<ChainId>): Chains
    requires forall i | 0 <= i < |hooks| :: hooks[i] in BUILTINS
  {
    map k | k in c :: if k in hooks then Without(c[k], Hook(n, k)) else c[k]
  }

  lemma PurgedNext(c: Chains, n: Slot, hooks: seq<ChainId>, i: nat)
    requires i < |hooks| && NoRepeats(hooks) && BUILTINS <= c.Keys
    requires forall j | 0 <= j < |hooks| :: hooks[j] in BUILTINS
    ensures var k := hooks[i];
            Purged(c, n, hooks[..i])[k := Without(Purged(c, n, hooks[..i])[k], Hook(n, k))] == Purged(c, n, hooks[..i + 1])
  {
    assert hooks[..i + 1] == hooks[..i] + [hooks[i]];
    assert hooks[i] !in hooks[..i];
  }

  /** The tables with the slot's hook in front of each of these chains. */
  ghost function Hooked(c: Chains, n: Slot, hooks: seq<ChainId>): Chains
    requires forall i | 0 <= i < |hooks| :: hooks[i] in BUILTINS
  {
    map k | k in c :: if k in hooks then [Hook(n, k)] + c[k] else c[k]
  }

  lemma HookedNone(c: Chains, n: Slot)
    ensures Hooked(c, n, []) == c
  {
  }

  lemma HookedNext(c: Chains, n: Slot, hooks: seq<ChainId>, i: nat)
    requires i < |hooks| && NoRepeats(hooks) && BUILTINS <= c.Keys
    requires forall j | 0 <= j < |hooks| :: hooks[j] in BUILTINS
    ensures var k := hooks[i];
            Hooked(c, n, hooks[..i])[k := [Hook(n, k)] + Hooked(c, n, hooks[..i])[k]] == Hooked(c, n, hooks[..i + 1])
  {
    assert hooks[..i + 1] == hooks[..i] + [hooks[i]];
    assert hooks[i] !in hooks[..i];
  }

  lemma OwnedInStages(c: Chains, n: Slot, part: Part)
    requires PartOf(n, part)
    ensures HookSet(part) <= BUILTINS
    ensures Hooked(Purged(c, n, part.hooks)[part.id := OwnRules(n, part.id).value], n, part.hooks) == Owned(c, n, part)
    ensures Purged(c, n, part.hooks) - {part.id} == Disowned(c, n, part)
  {
    OwnIsNoHook(n, part);
  }

  /** An installed slot is confined. */
  lemma FirewalledConfines(c: Chains, n: Slot, pool: seq<Slot>)
    requires BUILTINS <= c.Keys
    ensures Confined(Firewalled(c, n), n, pool)
    ensures forall k | k in BUILTINS :: Occurrences(Firewalled(c, n)[k], Hook(n, k)) == 1
  {
    OwnIdsApart(n);
    forall id | OwnRules(n, id).Some?
      ensures id in Firewalled(c, n) && Firewalled(c, n)[id] == OwnRules(n, id).value
    {
      OwnIdsExactly(n, id);
    }
    forall k | k in BUILTINS
      ensures Occurrences(Firewalled(c, n)[k], Hook(n, k)) == 1
    {
      WithoutFacts(c[k], Hook(n, k));
      NoOccurrence(Without(c[k], Hook(n, k)), Hook(n, k));
      assert Firewalled(c, n)[k][1..] == Without(c[k], Hook(n, k));
    }
  }

  function Occurrences(rules: seq<Rule>, r: Rule): nat {
    if rules == [] then 0 else (if rules[0] == r then 1 else 0) + Occurrences(rules[1..], r)
  }

  lemma {:induction false} OccurrencesExactly(rules: seq<Rule>, r: Rule)
    ensures Occurrences(rules, r) == multiset(rules)[r]
  {
    if rules != [] {
      OccurrencesExactly(rules[1..], r);
      assert rules == [rules[0]] + rules[1..];
    }
  }

  lemma {:induction false} NoOccurrence(rules: seq<Rule>, r: Rule)
    requires r !in rules
    ensures Occurrences(rules, r) == 0
  {
    if rules != [] {
      NoOccurrence(rules[1..], r);
    }
  }

  lemma {:induction false} ForeignNext(rules: seq<Rule>, pool: seq<Slot>, i: nat, id: ChainId)
    requires i < |pool|
    ensures Foreign(rules, pool[..i + 1], id)
            == if HookOf(pool[i], id).Some? then Without(Foreign(rules, pool[..i], id), HookOf(pool[i], id).value)
               else Foreign(rules, pool[..i], id)
  {
    if rules != [] {
      ForeignNext(rules[1..], pool, i, id);
      var r := rules[0];
      assert pool[..i + 1] == pool[..i] + [pool[i]];
      assert Ours(pool[..i + 1], id, r) <==> Ours(pool[..i], id, r) || HookOf(pool[i], id) == Some(r);
      if !Ours(pool[..i], id, r) {
        assert Foreign(rules, pool[..i], id)[1..] == Foreign(rules[1..], pool[..i], id);
      } else {
        assert Foreign(rules, pool[..i], id) == Foreign(rules[1..], pool[..i], id);
        assert Foreign(rules, pool[..i + 1], id) == Foreign(rules[1..], pool[..i + 1], id);
      }
    }
  }

  lemma PoolChainNext(pool: seq<Slot>, i: nat, id: ChainId)
    requires i < |pool|
    ensures PoolChain(pool[..i + 1], id) <==> PoolChain(pool[..i], id) || id in OwnIds(pool[i])
  {
    OwnIdsExactly(pool[i], id);
    assert pool[..i + 1] == pool[..i] + [pool[i]];
  }

  lemma HooksBuiltins(n: Slot, id: ChainId)
    ensures HookOf(n, id).Some? <==> id in BUILTINS
  {
    match id.tool {
      case V4 =>
      case V6 => assert OUTPUT[0] != INPUT[0] && OUTPUT[0] != FORWARD[0];
    }
  }

  lemma ClearNextAt(c: Chains, pool: seq<Slot>, i: nat, id: ChainId)
    requires i < |pool| && id in c
    ensures var cleared := Cleared(HostPolicy(c, pool[..i]), pool[i]);
            var next := HostPolicy(c, pool[..i + 1]);
            (id in cleared <==> id in next) && (id in next ==> cleared[id] == next[id])
  {
    PoolChainNext(pool, i, id);
    ForeignNext(c[id], pool, i, id);
    HooksBuiltins(pool[i], id);
  }

  /** Clearing slot after slot leads to the host's own policy. */
  lemma ClearNext(c: Chains, pool: seq<Slot>, i: nat)
    requires i < |pool|
    ensures Cleared(HostPolicy(c, pool[..i]), pool[i]) == HostPolicy(c, pool[..i + 1])
  {
    var cleared := Cleared(HostPolicy(c, pool[..i]), pool[i]);
    var next := HostPolicy(c, pool[..i + 1]);
    forall id | id in c
      ensures (id in cleared <==> id in next) && (id in next ==> cleared[id] == next[id])
    {
      ClearNextAt(c, pool, i, id);
    }
    assert cleared.Keys <= c.Keys && next.Keys <= c.Keys;
  }

  lemma {:induction false} NoPoolNoChange(rules: seq<Rule>, id: ChainId)
    ensures Foreign(rules, [], id) == rules
  {
    if rules != [] {
      NoPoolNoChange(rules[1..], id);
    }
  }

  lemma HostPolicyOfNoPool(c: Chains)
    ensures HostPolicy(c, []) == c
  {
    forall id | id in c
      ensures Foreign(c[id], [], id) == c[id]
    {
      NoPoolNoChange(c[id], id);
    }
  }

  // ---------------------------------------------------------------- links

  type Links = map<string, bool>

  predicate IsUp(links: Links, tap: string) {
    tap in links && links[tap]
  }

  /** A slot whose link is up has all its rules in force. */
  ghost predicate SafeState(c: Chains, links: Links, pool: seq<Slot>) {
    forall m | m in pool && IsUp(links, m.tap) :: Confined(c, m, pool)
  }

  lemma LinkDown(c: Chains, links: Links, tap: string, pool: seq<Slot>)
    requires SafeState(c, links, pool)
    ensures SafeState(c, links[tap := false], pool) && SafeState(c, links - {tap}, pool)
  {
  }

  lemma LinkUp(c: Chains, links: Links, n: Slot, pool: seq<Slot>)
    requires Distinguishable(pool) && n in pool && SafeState(c, links, pool) && Confined(c, n, pool)
    ensures SafeState(c, links[n.tap := true], pool)
  {
    forall m | m in pool && m.tap == n.tap
      ensures m == n
    {
      var i :| 0 <= i < |pool| && pool[i] == m;
      var j :| 0 <= j < |pool| && pool[j] == n;
      assert i == j || i < j || j < i;
    }
  }

  /** With the slot's own link down, edits of its rules keep the whole pool safe. */
  lemma EditWhileDown(c: Chains, d: Chains, links: Links, n: Slot, pool: seq<Slot>)
    requires SafeState(c, links, pool) && !IsUp(links, n.tap) && Undisturbed(c, d, n, pool)
    ensures SafeState(d, links, pool)
  {
  }
}
