/**
 The confinement rules of the TAP pool's four slots, and what they mean for a packet.
 */
module SlotPolicy {
  import opened Wrappers
  import opened Netfilter

  const SLOTS := 4
  const RELAY := Ports(49152, 49215)
  const INPUT := "INPUT"
  const FORWARD := "FORWARD"
  const OUTPUT := "OUTPUT"

  datatype Slot = Slot(tap: string, host: Address, guest: Address, turn: nat)

  /** The pool of one user: `prefix` is `ebv<uid>s`, `d0` and `d1` the first two digest bytes of the uid. */
  function Network(prefix: string, d0: nat, d1: nat, i: nat): Slot
    requires i < SLOTS
  {
    var third, base := 200 + d0 % 40, (d1 % 16) * 16;
    Slot(prefix + ["0123"[i]], Address(192, 168, third, base + i * 4 + 1), Address(192, 168, third, base + i * 4 + 2), 41000)
  }

  function Networks(prefix: string, d0: nat, d1: nat): seq<Slot> {
    seq(SLOTS, i requires 0 <= i < SLOTS => Network(prefix, d0, d1, i))
  }

  /** No two slots share a device name or an address. */
  ghost predicate Distinguishable(pool: seq<Slot>) {
    && (forall i, j | 0 <= i < j < |pool| ::
          pool[i].tap != pool[j].tap && pool[i].host != pool[j].host && pool[i].guest != pool[j].guest)
    && (forall i, j | 0 <= i < |pool| && 0 <= j < |pool| :: pool[i].host != pool[j].guest)
  }

  /** Each slot has its own /30: host and guest are its two usable addresses. */
  lemma NetworksDistinguishable(prefix: string, d0: nat, d1: nat)
    ensures Distinguishable(Networks(prefix, d0, d1))
    ensures forall i | 0 <= i < SLOTS ::
              var n := Networks(prefix, d0, d1)[i];
              && n.host.d / 4 == n.guest.d / 4 == (d1 % 16) * 4 + i && n.host.d % 4 == 1 && n.guest.d % 4 == 2
              && 200 <= n.host.c < 240 && n.guest.d < 255
              && n.host.a == n.guest.a == 192 && n.host.b == n.guest.b == 168 && n.host.c == n.guest.c
              && n.tap[..|n.tap| - 1] == prefix && n.tap[|n.tap| - 1] as int == '0' as int + i && n.turn == 41000
  {
    var pool := Networks(prefix, d0, d1);
    forall i, j | 0 <= i < j < SLOTS
      ensures pool[i].tap != pool[j].tap
    {
      assert pool[i].tap[|prefix|] != pool[j].tap[|prefix|];
    }
  }

  /** Two users' pools share an address exactly when their digests agree modulo 40 and 16; then they share all of them. */
  lemma PoolsApart(prefix: string, d0: nat, d1: nat, other: string, e0: nat, e1: nat, i: nat, j: nat)
    requires i < SLOTS && j < SLOTS
    ensures Network(prefix, d0, d1, i).host == Network(other, e0, e1, j).host <==> d0 % 40 == e0 % 40 && d1 % 16 == e1 % 16 && i == j
    ensures Network(prefix, d0, d1, i).guest == Network(other, e0, e1, j).guest <==> d0 % 40 == e0 % 40 && d1 % 16 == e1 % 16 && i == j
    ensures Network(prefix, d0, d1, i).host != Network(other, e0, e1, j).guest
  {
  }

  function PeerRule(n: Slot): Rule {
    ANY.(src := Some(n.guest), dst := Some(n.host), target := Accept)
  }

  function PortRule(n: Slot, ports: Ports, protocol: Protocol): Rule {
    PeerRule(n).(protocol := Some(protocol), dports := Some(ports))
  }

  function Port(p: nat): Ports {
    Ports(p, p)
  }

  /** The program builds this list in two loops; see `TapPool.BuildInputRules`. */
  function InputRules(n: Slot): seq<Rule> {
    [PeerRule(n).(tracked := true), PortRule(n, Port(19091), Tcp),
     PortRule(n, Port(n.turn), Tcp), PortRule(n, Port(n.turn), Udp),
     PortRule(n, RELAY, Tcp), PortRule(n, RELAY, Udp), ANY]
  }

  function RelayRules(n: Slot): seq<Rule> {
    var toHost := ANY.(dst := Some(n.host), protocol := Some(Udp), target := Return);
    [toHost.(dports := Some(RELAY)), toHost.(dports := Some(Port(n.turn))), ANY]
  }

  function InputChain(n: Slot): string { "EBV_" + n.tap }

  function RelayChain(n: Slot): string { "EBVR_" + n.tap }

  /** The rule by which a slot hooks a built-in chain, if it does. */
  function HookOf(n: Slot, id: ChainId): Option<Rule> {
    if id.name == FORWARD then Some(ANY.(iface := Some(n.tap)))
    else if id.name == INPUT then Some(ANY.(iface := Some(n.tap), target := Jump(InputChain(n))))
    else if id == ChainId(V4, OUTPUT) then
      Some(ANY.(src := Some(n.host), protocol := Some(Udp), sports := Some(RELAY), target := Jump(RelayChain(n))))
    else None
  }

  /** The content of a slot's own chains. */
  function OwnRules(n: Slot, id: ChainId): Option<seq<Rule>> {
    if id == ChainId(V4, InputChain(n)) then Some(InputRules(n))
    else if id == ChainId(V6, InputChain(n)) then Some([ANY])
    else if id == ChainId(V4, RelayChain(n)) then Some(RelayRules(n))
    else None
  }

  const BUILTINS: set<ChainId> :=
    {ChainId(V4, INPUT), ChainId(V4, FORWARD), ChainId(V6, INPUT), ChainId(V6, FORWARD), ChainId(V4, OUTPUT)}

  lemma ChainsApart(m: Slot, n: Slot, id: ChainId)
    ensures OwnRules(n, id).Some? ==> HookOf(m, id).None?
    ensures OwnRules(n, id).Some? && OwnRules(m, id).Some? ==> m.tap == n.tap
  {
    assert InputChain(n)[3] == '_' && RelayChain(n)[3] == 'R' && INPUT[3] == 'U' && FORWARD[3] == 'W' && OUTPUT[3] == 'P';
    assert InputChain(m)[3] == '_' && RelayChain(m)[3] == 'R';
    assert InputChain(m)[4..] == m.tap && InputChain(n)[4..] == n.tap;
    assert RelayChain(m)[5..] == m.tap && RelayChain(n)[5..] == n.tap;
  }

  // ---------------------------------------------------------------- confinement

  ghost predicate Ours(pool: seq<Slot>, id: ChainId, r: Rule) {
    exists m :: m in pool && HookOf(m, id) == Some(r)
  }

  /** A slot's hook stands before every rule that is not a hook of the pool. */
  ghost predicate Leads(rules: seq<Rule>, hook: Rule, pool: seq<Slot>, id: ChainId) {
    rules != [] && (rules[0] == hook || (Ours(pool, id, rules[0]) && Leads(rules[1..], hook, pool, id)))
  }

  /** All IPv4 input, IPv6, forward and relay rules of the slot are in force. */
  ghost predicate Confined(chains: Chains, n: Slot, pool: seq<Slot>) {
    && (forall id | OwnRules(n, id).Some? :: id in chains && chains[id] == OwnRules(n, id).value)
    && (forall id | id in BUILTINS :: id in chains && Leads(chains[id], HookOf(n, id).value, pool, id))
  }

  /** A hook of another slot says nothing about packets of this slot. */
  predicate Concerns(n: Slot, id: ChainId, p: Packet) {
    if id.name == OUTPUT then p.src == n.host else p.iface == n.tap
  }

  lemma OthersSkip(m: Slot, n: Slot, pool: seq<Slot>, id: ChainId, p: Packet)
    requires Distinguishable(pool) && m in pool && n in pool && m != n
    requires HookOf(m, id).Some? && Concerns(n, id, p)
    ensures !Matches(HookOf(m, id).value, p)
  {
    var i :| 0 <= i < |pool| && pool[i] == m;
    var j :| 0 <= j < |pool| && pool[j] == n;
    assert i < j || j < i;
  }

  /** A chain decides a packet of the slot from the slot's hook on; `rest` is what follows that hook. */
  lemma {:induction false} HookDecides(chains: Chains, n: Slot, pool: seq<Slot>, id: ChainId, rules: seq<Rule>, p: Packet, depth: nat)
    returns (rest: seq<Rule>)
    requires Distinguishable(pool) && n in pool && HookOf(n, id).Some?
    requires Leads(rules, HookOf(n, id).value, pool, id) && Concerns(n, id, p)
    ensures Decide(chains, id.tool, rules, p, depth) == Decide(chains, id.tool, [HookOf(n, id).value] + rest, p, depth)
    ensures Foreign(rest, pool, id) == Foreign(rules, pool, id)
  {
    if rules[0] == HookOf(n, id).value {
      rest := rules[1..];
      assert rules == [rules[0]] + rest;
      assert Ours(pool, id, rules[0]);
    } else {
      var m :| m in pool && HookOf(m, id) == Some(rules[0]);
      OthersSkip(m, n, pool, id, p);
      rest := HookDecides(chains, n, pool, id, rules[1..], p, depth);
    }
  }

  /** The rules of a chain that are not the pool's, in order. */
  ghost function Foreign(rules: seq<Rule>, pool: seq<Slot>, id: ChainId): seq<Rule> {
    if rules == [] then []
    else (if Ours(pool, id, rules[0]) then [] else [rules[0]]) + Foreign(rules[1..], pool, id)
  }

  /** The input packets of a slot that the policy admits, in words of the packet alone. */
  predicate Admits(n: Slot, p: Packet) {
    && p.src == n.guest && p.dst == n.host
    && (|| p.tracked
        || (p.protocol == Tcp && p.dport == 19091)
        || ((p.protocol == Tcp || p.protocol == Udp) && (p.dport == n.turn || 49152 <= p.dport <= 49215)))
  }

  lemma InputRulesDecide(chains: Chains, tool: Tool, n: Slot, p: Packet, depth: nat)
    ensures Decide(chains, tool, InputRules(n), p, depth) == if Admits(n, p) then Accepted else Dropped
  {
    var r := InputRules(n);
    assert r[1..][0] == r[1] && r[1..][1..] == r[2..];
    assert r[2..][0] == r[2] && r[2..][1..] == r[3..];
    assert r[3..][0] == r[3] && r[3..][1..] == r[4..];
    assert r[4..][0] == r[4] && r[4..][1..] == r[5..];
    assert r[5..][0] == r[5] && r[5..][1..] == r[6..];
    assert r[6..][0] == r[6];
    assert Decide(chains, tool, r[6..], p, depth) == Dropped;
    assert Decide(chains, tool, r[5..], p, depth) == if Matches(r[5], p) then Accepted else Dropped;
    assert Decide(chains, tool, r[4..], p, depth) == if Matches(r[4], p) then Accepted else Decide(chains, tool, r[5..], p, depth);
    assert Decide(chains, tool, r[3..], p, depth) == if Matches(r[3], p) then Accepted else Decide(chains, tool, r[4..], p, depth);
    assert Decide(chains, tool, r[2..], p, depth) == if Matches(r[2], p) then Accepted else Decide(chains, tool, r[3..], p, depth);
    assert Decide(chains, tool, r[1..], p, depth) == if Matches(r[1], p) then Accepted else Decide(chains, tool, r[2..], p, depth);
  }

  /** Input from the slot's device is decided by its chain alone; forwarding and IPv6 are closed. */
  lemma InputVerdict(chains: Chains, n: Slot, pool: seq<Slot>, p: Packet, depth: nat)
    requires Distinguishable(pool) && n in pool && Confined(chains, n, pool)
    requires p.iface == n.tap && depth > 0
    ensures Decide(chains, V4, chains[ChainId(V4, INPUT)], p, depth) == if Admits(n, p) then Accepted else Dropped
    ensures Decide(chains, V6, chains[ChainId(V6, INPUT)], p, depth) == Dropped
    ensures Decide(chains, V4, chains[ChainId(V4, FORWARD)], p, depth) == Dropped
    ensures Decide(chains, V6, chains[ChainId(V6, FORWARD)], p, depth) == Dropped
  {
    forall id | id in BUILTINS && id.name != OUTPUT
      ensures Decide(chains, id.tool, chains[id], p, depth)
              == if id == ChainId(V4, INPUT) && Admits(n, p) then Accepted else Dropped
    {
      var rest := HookDecides(chains, n, pool, id, chains[id], p, depth);
      var own := ChainId(id.tool, InputChain(n));
      assert OwnRules(n, own).Some?;
      if id == ChainId(V4, INPUT) {
        InputRulesDecide(chains, V4, n, p, depth - 1);
      } else {
        assert Decide(chains, id.tool, [ANY], p, depth - 1) == Dropped;
      }
    }
    assert ChainId(V4, INPUT) in BUILTINS && ChainId(V6, INPUT) in BUILTINS;
    assert ChainId(V4, FORWARD) in BUILTINS && ChainId(V6, FORWARD) in BUILTINS;
  }

  /** Media that leaves the slot's relay ports. */
  predicate Relayed(n: Slot, p: Packet) {
    p.src == n.host && p.protocol == Udp && 49152 <= p.sport <= 49215
  }

  predicate ToRelayPeer(n: Slot, p: Packet) {
    p.dst == n.host && (49152 <= p.dport <= 49215 || p.dport == n.turn)
  }

  lemma RelayRulesDecide(chains: Chains, n: Slot, p: Packet, depth: nat)
    requires p.protocol == Udp
    ensures Decide(chains, V4, RelayRules(n), p, depth) == if ToRelayPeer(n, p) then Continues else Dropped
  {
    var r := RelayRules(n);
    assert r[1..][0] == r[1] && r[1..][1..] == r[2..] && r[2..][0] == r[2];
    assert Decide(chains, V4, r[2..], p, depth) == Dropped;
    assert Decide(chains, V4, r[1..], p, depth) == if Matches(r[1], p) then Continues else Dropped;
  }

  /** A rule that is no RETURN either decides or hands over to the rules behind it. */
  lemma DecideFirst(chains: Chains, tool: Tool, rules: seq<Rule>, p: Packet, depth: nat)
    requires rules != [] && !rules[0].target.Return?
    ensures var first := Decide(chains, tool, [rules[0]], p, depth);
            Decide(chains, tool, rules, p, depth)
            == if first.Continues? then Decide(chains, tool, rules[1..], p, depth) else first
  {
    assert [rules[0]][1..] == [];
  }

  /** The pool's hooks can be struck from a chain when they all let the packet go on. */
  lemma {:induction false} StrikeOurs(chains: Chains, pool: seq<Slot>, id: ChainId, rules: seq<Rule>, p: Packet, depth: nat)
    requires forall m | m in pool && HookOf(m, id).Some? ::
               Decide(chains, id.tool, [HookOf(m, id).value], p, depth) == Continues
    ensures Decide(chains, id.tool, rules, p, depth) == Decide(chains, id.tool, Foreign(rules, pool, id), p, depth)
  {
    if rules != [] {
      StrikeOurs(chains, pool, id, rules[1..], p, depth);
      if Ours(pool, id, rules[0]) {
        var m :| m in pool && HookOf(m, id) == Some(rules[0]);
        DecideFirst(chains, id.tool, rules, p, depth);
        assert Foreign(rules, pool, id) == Foreign(rules[1..], pool, id);
      } else {
        assert Foreign(rules, pool, id)[1..] == Foreign(rules[1..], pool, id);
      }
    }
  }

  /** Relayed media reaches only the relay ports and the TURN listener, and those as the host's own rules say. */
  lemma RelayVerdict(chains: Chains, n: Slot, pool: seq<Slot>, p: Packet, depth: nat)
    requires Distinguishable(pool) && n in pool && Confined(chains, n, pool)
    requires Relayed(n, p) && depth > 0
    ensures var id := ChainId(V4, OUTPUT);
            Decide(chains, V4, chains[id], p, depth)
            == if ToRelayPeer(n, p) then Decide(chains, V4, Foreign(chains[id], pool, id), p, depth) else Dropped
  {
    var id := ChainId(V4, OUTPUT);
    assert id in BUILTINS;
    assert OwnRules(n, ChainId(V4, RelayChain(n))).Some? by {
      assert InputChain(n)[3] == '_' && RelayChain(n)[3] == 'R';
    }
    RelayRulesDecide(chains, n, p, depth - 1);
    if ToRelayPeer(n, p) {
      forall m | m in pool && HookOf(m, id).Some?
        ensures Decide(chains, V4, [HookOf(m, id).value], p, depth) == Continues
      {
        if m != n { OthersSkip(m, n, pool, id, p); }
      }
      StrikeOurs(chains, pool, id, chains[id], p, depth);
    } else {
      var rest := HookDecides(chains, n, pool, id, chains[id], p, depth);
    }
  }

  // ---------------------------------------------------------------- the host's own policy

  ghost predicate PoolChain(pool: seq<Slot>, id: ChainId) {
    exists m :: m in pool && OwnRules(m, id).Some?
  }

  ghost function PoolChains(pool: seq<Slot>): iset<ChainId> {
    iset id | PoolChain(pool, id)
  }

  /** The chain tables as they would be without the pool: no chain and no rule of it. */
  ghost function HostPolicy(c: Chains, pool: seq<Slot>): Chains {
    map id | id in c && !PoolChain(pool, id) :: Foreign(c[id], pool, id)
  }

  /** No rule of the host jumps into a chain of the pool. */
  ghost predicate Independent(c: Chains, pool: seq<Slot>) {
    forall id | id in HostPolicy(c, pool) :: Avoids(HostPolicy(c, pool)[id], id.tool, PoolChains(pool))
  }

  /** That is: a rule that stands in a chain outside the pool, is no hook of the pool and jumps, jumps outside the pool. */
  lemma IndependentExactly(c: Chains, pool: seq<Slot>)
    ensures Independent(c, pool) <==>
              forall id, r | id in c && !PoolChain(pool, id) && r in c[id] && !Ours(pool, id, r) && r.target.Jump? ::
                !PoolChain(pool, ChainId(id.tool, r.target.chain))
  {
    var h := HostPolicy(c, pool);
    forall id | id in h
      ensures Avoids(h[id], id.tool, PoolChains(pool)) <==>
                forall r | r in c[id] && !Ours(pool, id, r) && r.target.Jump? :: !PoolChain(pool, ChainId(id.tool, r.target.chain))
    {
      AvoidsExactly(h[id], id.tool, PoolChains(pool));
      ForeignExactly(c[id], pool, id);
    }
  }

  lemma {:induction false} ForeignExactly(rules: seq<Rule>, pool: seq<Slot>, id: ChainId)
    ensures forall r :: r in Foreign(rules, pool, id) <==> r in rules && !Ours(pool, id, r)
  {
    if rules != [] {
      ForeignExactly(rules[1..], pool, id);
      assert rules == [rules[0]] + rules[1..];
    }
  }

  /** A packet that neither comes from a slot's device nor is media relayed for a slot. */
  predicate Unrelated(pool: seq<Slot>, p: Packet) {
    forall m | m in pool :: p.iface != m.tap && !Relayed(m, p)
  }

  /** These are exactly the packets that no hook of the pool matches. */
  lemma UnrelatedExactly(pool: seq<Slot>, p: Packet)
    ensures Unrelated(pool, p) <==>
              forall m, id | m in pool && HookOf(m, id).Some? :: !Matches(HookOf(m, id).value, p)
  {
    if !Unrelated(pool, p) {
      var m :| m in pool && (p.iface == m.tap || Relayed(m, p));
      var id := ChainId(V4, if p.iface == m.tap then FORWARD else OUTPUT);
      assert HookOf(m, id).Some? && Matches(HookOf(m, id).value, p);
    }
  }

  lemma UnrelatedSkips(c: Chains, pool: seq<Slot>, id: ChainId, p: Packet, depth: nat)
    requires Unrelated(pool, p)
    ensures Decide(c, id.tool, Foreign(if id in c then c[id] else [], pool, id), p, depth)
            == Decide(c, id.tool, if id in c then c[id] else [], p, depth)
  {
    forall m | m in pool && HookOf(m, id).Some?
      ensures Decide(c, id.tool, [HookOf(m, id).value], p, depth) == Continues
    {
      UnrelatedExactly(pool, p);
      assert !Matches(HookOf(m, id).value, p);
    }
    StrikeOurs(c, pool, id, if id in c then c[id] else [], p, depth);
  }

  /** A packet that no hook of the pool matches meets exactly the host's own policy, whatever state the pool is in. */
  lemma HostVerdict(c: Chains, pool: seq<Slot>, id: ChainId, p: Packet, depth: nat)
    requires Independent(c, pool) && Unrelated(pool, p) && id in c && !PoolChain(pool, id)
    ensures var h := HostPolicy(c, pool);
            Decide(c, id.tool, c[id], p, depth) == Decide(h, id.tool, h[id], p, depth)
  {
    var h := HostPolicy(c, pool);
    forall other, k: nat | other in h
      ensures Decide(c, other.tool, c[other], p, k) == Decide(c, other.tool, h[other], p, k)
    {
      UnrelatedSkips(c, pool, other, p, k);
    }
    SameDecisions(c, h, PoolChains(pool), id.tool, h[id], p, depth);
  }
}
