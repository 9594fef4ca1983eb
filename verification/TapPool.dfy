/**
 The host commands of the TAP pool tool. Every command is one step; `budget` is the number
 of commands that still succeed, so a run under each budget ends in each state that a failed
 command, or a stop of the tool, can leave behind.
 */
module TapPool {
  import opened Wrappers
  import opened Netfilter
  import opened SlotPolicy
  import opened ChainOwnership
  import opened Recency

  /** The program's two loops over ports and protocols build the list that the policy names. */
  method BuildInputRules(n: Slot) returns (rules: seq<Rule>)
    ensures rules == InputRules(n)
  {
    rules := [PeerRule(n).(tracked := true), PortRule(n, Port(19091), Tcp)];
    var ports := [Port(n.turn), RELAY];
    var protocols := [Tcp, Udp];
    ghost var all := InputRules(n);
    var i := 0;
    while i < |ports|
      invariant i <= 2 && rules == all[..2 + 2 * i]
    {
      var j := 0;
      while j < |protocols|
        invariant j <= 2 && rules == all[..2 + 2 * i + j]
      {
        rules := rules + [PortRule(n, ports[i], protocols[j])];
        j := j + 1;
      }
      i := i + 1;
    }
    rules := rules + [ANY];
  }

  /** One more hook in front of a built-in chain. */
  lemma UpIsConfined(c: Chains, links: Links, pool: seq<Slot>)
    requires SafeState(c, links, pool)
    ensures forall m | m in pool && IsUp(links, m.tap) :: Confined(c, m, pool)
  {
  }

  lemma InsertAfter(c0: Chains, c: Chains, n: Slot, pool: seq<Slot>, k: ChainId)
    requires Distinguishable(pool) && n in pool && k in BUILTINS && k in c && Undisturbed(c0, c, n, pool)
    ensures Undisturbed(c0, c[k := [Hook(n, k)] + c[k]], n, pool)
  {
    var d := c[k := [Hook(n, k)] + c[k]];
    HookEdit(c, d[k], n, pool, k);
    UndisturbedTwice(c0, c, d, n, pool);
  }

  class Host {
    const pool: seq<Slot>
    var chains: Chains
    var links: Links
    var budget: nat

    constructor (pool: seq<Slot>, chains: Chains, links: Links, budget: nat)
      requires Distinguishable(pool) && BUILTINS <= chains.Keys
      ensures this.pool == pool && this.chains == chains && this.links == links && this.budget == budget
      ensures Valid()
    {
      this.pool, this.chains, this.links, this.budget := pool, chains, links, budget;
    }

    ghost predicate Valid()
      reads this
    {
      Distinguishable(pool) && BUILTINS <= chains.Keys
    }

    /** A slot whose link is up has all its rules in force. */
    ghost predicate Safe()
      reads this
    {
      SafeState(chains, links, pool)
    }

    method Spend() returns (ok: bool)
      modifies `budget
      ensures ok == (old(budget) > 0) && budget == if ok then old(budget) - 1 else 0
    {
      ok := budget > 0;
      if ok {
        budget := budget - 1;
      }
    }

    /** Deletes the slot's hook from a built-in chain as long as `-C` finds it. */
    method PurgeHook(n: Slot, k: ChainId) returns (ok: bool)
      requires Valid() && n in pool && k in BUILTINS
      modifies `chains, `budget
      ensures Undisturbed(old(chains), chains, n, pool)
      ensures ok ==> chains == old(chains)[k := Without(old(chains)[k], Hook(n, k))]
      ensures !ok ==> budget == 0
    {
      hide Undisturbed;
      var hook := HookOf(n, k).value;
      ghost var c0 := chains;
      UndisturbedSame(c0, n, pool);
      while hook in chains[k]
        invariant k in chains && chains == c0[k := chains[k]]
        invariant Without(chains[k], hook) == Without(c0[k], hook)
        invariant Undisturbed(c0, chains, n, pool)
        decreases |chains[k]|
      {
        ok := Spend();
        if !ok {
          return false;
        }
        ghost var c := chains;
        RemoveFirstFacts(chains[k], hook);
        HookEdit(chains, RemoveFirst(chains[k], hook), n, pool, k);
        chains := chains[k := RemoveFirst(chains[k], hook)];
        UndisturbedTwice(c0, c, chains, n, pool);
      }
      WithoutFacts(chains[k], hook);
      return true;
    }

    method PurgeHooks(n: Slot, part: Part) returns (ok: bool)
      requires Valid() && n in pool && PartOf(n, part)
      modifies `chains, `budget
      ensures Undisturbed(old(chains), chains, n, pool)
      ensures ok ==> chains == Purged(old(chains), n, part.hooks)
      ensures !ok ==> budget == 0
    {
      ghost var c0 := chains;
      var i := 0;
      while i < |part.hooks|
        invariant i <= |part.hooks|
        invariant Undisturbed(c0, chains, n, pool)
        invariant chains == Purged(c0, n, part.hooks[..i])
      {
        ghost var c := chains;
        ok := PurgeHook(n, part.hooks[i]);
        UndisturbedTwice(c0, c, chains, n, pool);
        if !ok {
          return false;
        }
        PurgedNext(c0, n, part.hooks, i);
        i := i + 1;
      }
      assert part.hooks[..i] == part.hooks;
      return true;
    }

    /** Flushes or creates the chain, then appends the wanted rules one by one. */
    method FillChain(n: Slot, id: ChainId, rules: seq<Rule>) returns (ok: bool)
      requires Valid() && n in pool && OwnRules(n, id).Some?
      modifies `chains, `budget
      ensures Undisturbed(old(chains), chains, n, pool)
      ensures ok ==> chains == old(chains)[id := rules]
      ensures !ok ==> budget == 0
    {
      ghost var c0 := chains;
      ok := Spend();
      if ok {
        chains := chains[id := []];
        var i := 0;
        while i < |rules| && ok
          invariant i <= |rules| && chains == c0[id := rules[..i]] && (!ok ==> budget == 0)
          decreases |rules| - i, ok
        {
          ok := Spend();
          if ok {
            chains := chains[id := chains[id] + [rules[i]]];
            i := i + 1;
            assert rules[..i] == rules[..i - 1] + [rules[i - 1]];
          }
        }
        assert ok ==> rules[..i] == rules;
      }
      OwnEdit(c0, chains, n, pool, id);
    }

    method InsertHooks(n: Slot, part: Part) returns (ok: bool)
      requires Valid() && n in pool && PartOf(n, part)
      modifies `chains, `budget
      ensures Undisturbed(old(chains), chains, n, pool)
      ensures ok ==> chains == Hooked(old(chains), n, part.hooks)
      ensures !ok ==> budget == 0
    {
      hide Undisturbed, Hooked;
      ghost var c0 := chains;
      var hooks := part.hooks;
      ok := true;
      UndisturbedSame(c0, n, pool);
      HookedNone(c0, n);
      var i := 0;
      while i < |hooks| && ok
        invariant i <= |hooks| && (!ok ==> budget == 0)
        invariant Undisturbed(c0, chains, n, pool)
        invariant chains == Hooked(c0, n, hooks[..i])
        decreases |hooks| - i, ok
      {
        ok := Spend();
        if ok {
          var k := hooks[i];
          BuiltinsKept(c0, chains, n, pool);
          InsertAfter(c0, chains, n, pool, k);
          HookedNext(c0, n, hooks, i);
          chains := chains[k := [HookOf(n, k).value] + chains[k]];
          i := i + 1;
        }
      }
      assert ok ==> hooks[..i] == hooks;
    }

    predicate Referenced(id: ChainId)
      reads this
    {
      exists k, r :: k in chains && k.tool == id.tool && r in chains[k] && r.target == Jump(id.name)
    }

    /** That is: some chain of the tool does not avoid it. */
    lemma ReferencedExactly(id: ChainId)
      ensures Referenced(id) <==> exists k | k in chains :: k.tool == id.tool && !Avoids(chains[k], id.tool, iset{id})
    {
      forall k | k in chains {
        AvoidsExactly(chains[k], id.tool, iset{id});
      }
    }

    /** Flushes and deletes the chain if it exists; `-X` fails while a rule jumps to it. */
    method DestroyChain(n: Slot, id: ChainId) returns (ok: bool)
      requires Valid() && n in pool && OwnRules(n, id).Some?
      modifies `chains, `budget
      ensures Undisturbed(old(chains), chains, n, pool)
      ensures ok ==> chains == old(chains) - {id}
      ensures !ok ==> budget == 0 || Referenced(id)
    {
      hide Undisturbed;
      ghost var c0 := chains;
      ok := true;
      if id in chains {
        ok := Spend();
        if ok {
          chains := chains[id := []];
          ok := Spend();
          if ok && Referenced(id) {
            ok := false;
          }
          if ok {
            chains := chains - {id};
          }
        }
      }
      OwnEdit(c0, chains, n, pool, id);
    }

    /** `own_chain`: owns one chain of the slot and its hooks, or gives them up. */
    method OwnChain(n: Slot, part: Part, remove: bool) returns (ok: bool)
      requires Valid() && n in pool && PartOf(n, part)
      modifies `chains, `budget
      ensures Undisturbed(old(chains), chains, n, pool)
      ensures HookSet(part) <= BUILTINS
      ensures ok ==> chains == if remove then Disowned(old(chains), n, part) else Owned(old(chains), n, part)
      ensures !ok ==> budget == 0 || (remove && Referenced(part.id))
    {
      ghost var c0 := chains;
      OwnedInStages(c0, n, part);
      ok := PurgeHooks(n, part);
      ghost var c1 := chains;
      if !ok {
        return false;
      }
      if remove {
        ok := DestroyChain(n, part.id);
        UndisturbedTwice(c0, c1, chains, n, pool);
        return;
      }
      ok := FillChain(n, part.id, OwnRules(n, part.id).value);
      UndisturbedTwice(c0, c1, chains, n, pool);
      if !ok {
        return false;
      }
      ghost var c2 := chains;
      ok := InsertHooks(n, part);
      UndisturbedTwice(c0, c2, chains, n, pool);
    }

    /** All three chains of a slot. */
    method Firewall(n: Slot, remove: bool) returns (ok: bool)
      requires Valid() && n in pool
      modifies `chains, `budget
      ensures Undisturbed(old(chains), chains, n, pool)
      ensures ok ==> chains == if remove then Cleared(old(chains), n) else Firewalled(old(chains), n)
      ensures !ok ==> budget == 0 || (remove && exists id :: id in OwnIds(n) && Referenced(id))
    {
      ghost var c0 := chains;
      PartsAreParts(n);
      FirewallInParts(c0, n);
      var parts := Parts(n);
      ok := OwnChain(n, parts[0], remove);
      ghost var c1 := chains;
      if !ok {
        return false;
      }
      ok := OwnChain(n, parts[1], remove);
      UndisturbedTwice(c0, c1, chains, n, pool);
      ghost var c2 := chains;
      if !ok {
        return false;
      }
      ok := OwnChain(n, parts[2], remove);
      UndisturbedTwice(c0, c2, chains, n, pool);
    }

    // -------------------------------------------------------------- links

    method SetLink(tap: string, up: bool) returns (ok: bool)
      modifies `links, `budget
      ensures links == if ok then old(links)[tap := up] else old(links)
      ensures ok == (old(budget) > 0) && budget == if ok then old(budget) - 1 else 0
    {
      ok := Spend();
      if ok {
        links := links[tap := up];
      }
    }

    /** Takes every existing link of the pool down. It needs no assumption on the rules. */
    method Invalidate() returns (ok: bool)
      modifies `links, `budget
      ensures links.Keys == old(links).Keys
      ensures forall tap | IsUp(links, tap) :: IsUp(old(links), tap)
      ensures ok ==> forall m | m in pool :: !IsUp(links, m.tap)
      ensures old(Safe()) ==> Safe()
      ensures !ok ==> budget == 0
    {
      var i := 0;
      while i < |pool|
        invariant i <= |pool|
        invariant links.Keys == old(links).Keys
        invariant forall tap | IsUp(links, tap) :: IsUp(old(links), tap)
        invariant forall j | 0 <= j < i :: !IsUp(links, pool[j].tap)
      {
        if pool[i].tap in links {
          ok := SetLink(pool[i].tap, false);
          if !ok {
            return false;
          }
        }
        i := i + 1;
      }
      return true;
    }

    /** The guarded part of `restore`: each link is down while its rules are replaced. */
    method Restore() returns (ok: bool)
      requires Valid() && Safe()
      modifies `chains, `links, `budget
      ensures Valid() && Safe()
      ensures HostPolicy(chains, pool) == HostPolicy(old(chains), pool)
      ensures ok ==> forall m | m in pool :: IsUp(links, m.tap) && Confined(chains, m, pool)
      ensures !ok ==> budget == 0
    {
      hide SafeState, HostPolicy, Confined;
      ghost var c0 := chains;
      var i := 0;
      while i < |pool|
        invariant i <= |pool|
        invariant Valid() && Safe()
        invariant HostPolicy(chains, pool) == HostPolicy(c0, pool)
        invariant forall j | 0 <= j < i :: IsUp(links, pool[j].tap)
      {
        ok := RestoreSlot(i);
        if !ok {
          return false;
        }
        i := i + 1;
      }
      UpIsConfined(chains, links, pool);
      return true;
    }

    method RestoreSlot(i: nat) returns (ok: bool)
      requires Valid() && Safe() && i < |pool|
      modifies `chains, `links, `budget
      ensures Valid() && Safe()
      ensures HostPolicy(chains, pool) == HostPolicy(old(chains), pool)
      ensures forall tap | tap != pool[i].tap :: IsUp(links, tap) == IsUp(old(links), tap)
      ensures ok ==> IsUp(links, pool[i].tap)
      ensures !ok ==> budget == 0
    {
      var n := pool[i];
      LinkDown(chains, links, n.tap, pool);
      // An existing link goes down; a missing device is created, and a new device is down.
      ok := SetLink(n.tap, false);
      if !ok {
        return false;
      }
      ok := Spend();
      if !ok {
        return false;
      }
      ghost var c := chains;
      ok := Firewall(n, false);
      EditWhileDown(c, chains, links, n, pool);
      if !ok {
        return false;
      }
      var flushed := Spend();
      var added := Spend();
      if !flushed || !added {
        return false;
      }
      FirewalledConfines(c, n, pool);
      LinkUp(chains, links, n, pool);
      ok := SetLink(n.tap, true);
    }

    /** The action `restore`: invalidate, then restore. From any state of rules and links, whatever command is
        the last one: either only links went down, or every slot that is up is confined. */
    method RestoreAction() returns (ok: bool)
      requires Valid()
      modifies `chains, `links, `budget
      ensures Valid()
      ensures Safe() || (!ok && chains == old(chains) && forall tap | IsUp(links, tap) :: IsUp(old(links), tap))
      ensures HostPolicy(chains, pool) == HostPolicy(old(chains), pool)
      ensures ok ==> forall m | m in pool :: IsUp(links, m.tap) && Confined(chains, m, pool)
      ensures !ok ==> budget == 0
    {
      ok := Invalidate();
      if !ok {
        return false;
      }
      ok := Restore();
    }

    /** The guarded part of removal. A complete run leaves exactly the host's own rules and no device. */
    method Remove() returns (ok: bool)
      requires Valid() && Safe()
      modifies `chains, `links, `budget
      ensures Valid() && Safe()
      ensures HostPolicy(chains, pool) == HostPolicy(old(chains), pool)
      ensures ok ==> chains == HostPolicy(old(chains), pool) && forall m | m in pool :: m.tap !in links
      ensures !ok ==> budget == 0 || exists m, id :: m in pool && id in OwnIds(m) && Referenced(id)
    {
      ghost var c0 := chains;
      HostPolicyOfNoPool(c0);
      assert pool[..0] == [];
      var i := 0;
      while i < |pool|
        invariant i <= |pool|
        invariant Valid() && Safe()
        invariant HostPolicy(chains, pool) == HostPolicy(c0, pool)
        invariant chains == HostPolicy(c0, pool[..i])
        invariant forall j | 0 <= j < i :: pool[j].tap !in links
      {
        ClearNext(c0, pool, i);
        ok := RemoveSlot(i);
        if !ok {
          return false;
        }
        i := i + 1;
      }
      assert pool[..i] == pool;
      return true;
    }

    method RemoveSlot(i: nat) returns (ok: bool)
      requires Valid() && Safe() && i < |pool|
      modifies `chains, `links, `budget
      ensures Valid() && Safe()
      ensures HostPolicy(chains, pool) == HostPolicy(old(chains), pool)
      ensures links.Keys <= old(links).Keys
      ensures ok ==> chains == Cleared(old(chains), pool[i]) && pool[i].tap !in links
      ensures !ok ==> budget == 0 || exists id :: id in OwnIds(pool[i]) && Referenced(id)
    {
      var n := pool[i];
      var present := n.tap in links;
      LinkDown(chains, links, n.tap, pool);
      if present {
        ok := SetLink(n.tap, false);
        if !ok {
          return false;
        }
      }
      ghost var c := chains;
      ok := Firewall(n, true);
      EditWhileDown(c, chains, links, n, pool);
      if !ok {
        return false;
      }
      if present {
        ok := Spend();
        if !ok {
          return false;
        }
        links := links - {n.tap};
      }
      return true;
    }
  }
}
