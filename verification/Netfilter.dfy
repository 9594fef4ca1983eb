/**
 Chains of packet filter rules and what they decide: the first matching rule wins, a
 jump that comes back goes on with the next rule.
 */
module Netfilter {
  import opened Wrappers

  datatype Tool = V4 | V6
  datatype Protocol = Tcp | Udp | OtherProtocol
  datatype Address = Address(a: nat, b: nat, c: nat, d: nat)
  datatype Ports = Ports(low: nat, high: nat)
  datatype Target = Accept | Drop | Return | Jump(chain: string)

  /** `tracked` is the conntrack match for ESTABLISHED and RELATED; absent fields match everything. */
  datatype Rule = Rule(iface: Option<string>, src: Option<Address>, dst: Option<Address>,
                       protocol: Option<Protocol>, sports: Option<Ports>, dports: Option<Ports>,
                       tracked: bool, target: Target)

  const ANY := Rule(None, None, None, None, None, None, false, Drop)

  datatype Packet = Packet(iface: string, src: Address, dst: Address, protocol: Protocol,
                           sport: nat, dport: nat, tracked: bool)

  datatype ChainId = ChainId(tool: Tool, name: string)
  type Chains = map<ChainId, seq<Rule>>

  predicate Within(p: Option<Ports>, port: nat) {
    p.Some? ==> p.value.low <= port <= p.value.high
  }

  predicate Matches(r: Rule, p: Packet) {
    && (r.iface.Some? ==> r.iface.value == p.iface)
    && (r.src.Some? ==> r.src.value == p.src)
    && (r.dst.Some? ==> r.dst.value == p.dst)
    && (r.protocol.Some? ==> r.protocol.value == p.protocol)
    && Within(r.sports, p.sport) && Within(r.dports, p.dport)
    && (r.tracked ==> p.tracked)
  }

  datatype Verdict = Accepted | Dropped | Continues

  /** `depth` bounds nested jumps; the kernel admits no jump cycle. */
  function Decide(chains: Chains, tool: Tool, rules: seq<Rule>, p: Packet, depth: nat): Verdict
    decreases depth, |rules|
  {
    if rules == [] then Continues
    else if !Matches(rules[0], p) then Decide(chains, tool, rules[1..], p, depth)
    else match rules[0].target
      case Accept => Accepted
      case Drop => Dropped
      case Return => Continues
      case Jump(name) =>
        var inner := if depth == 0 || ChainId(tool, name) !in chains then Continues
                     else Decide(chains, tool, chains[ChainId(tool, name)], p, depth - 1);
        if inner.Continues? then Decide(chains, tool, rules[1..], p, depth) else inner
  }

  /** `-D`: deletes the first equal rule. */
  function RemoveFirst(rules: seq<Rule>, r: Rule): seq<Rule> {
    if rules == [] then []
    else if rules[0] == r then rules[1..]
    else [rules[0]] + RemoveFirst(rules[1..], r)
  }

  /** No rule jumps into one of these chains. */
  ghost predicate Avoids(rules: seq<Rule>, tool: Tool, own: iset<ChainId>) {
    rules != [] ==>
      && (rules[0].target.Jump? ==> ChainId(tool, rules[0].target.chain) !in own)
      && Avoids(rules[1..], tool, own)
  }

  lemma {:induction false} AvoidsExactly(rules: seq<Rule>, tool: Tool, own: iset<ChainId>)
    ensures Avoids(rules, tool, own) <==> forall r | r in rules && r.target.Jump? :: ChainId(tool, r.target.chain) !in own
  {
    if rules != [] {
      AvoidsExactly(rules[1..], tool, own);
      assert rules == [rules[0]] + rules[1..];
    }
  }

  /** Tables agree on rules that avoid the chains they differ in, when each other chain decides alike. */
  lemma {:induction false} SameDecisions(c: Chains, h: Chains, own: iset<ChainId>, tool: Tool, rules: seq<Rule>, p: Packet, depth: nat)
    requires forall id :: id in h <==> id in c && id !in own
    requires forall id, k: nat | id in h :: Decide(c, id.tool, c[id], p, k) == Decide(c, id.tool, h[id], p, k)
    requires forall id | id in h :: Avoids(h[id], id.tool, own)
    requires Avoids(rules, tool, own)
    ensures Decide(c, tool, rules, p, depth) == Decide(h, tool, rules, p, depth)
    decreases depth, |rules|
  {
    if rules != [] {
      SameDecisions(c, h, own, tool, rules[1..], p, depth);
      if rules[0].target.Jump? && depth > 0 {
        var to := ChainId(tool, rules[0].target.chain);
        if to in h {
          SameDecisions(c, h, own, tool, h[to], p, depth - 1);
        }
      }
    }
  }
}
