/**
 Tunnel ports: CloudCore instances negotiate a port each in a shared record, entries of
 deleted instances are cleaned up, and the iptables manager keeps one DNAT rule per entry.
 Updates of the shared record are atomic, as the API server's conflict check makes them.
 */
module TunnelPorts {
  import opened Common

  const SERVER_PORT: int := 10350
  const FIRST_PORT: int := SERVER_PORT + 1

  type Address = string
  type Ports = map<Address, int>

  /** TunnelPortRecord: the port of each live address, and every port ever used. */
  datatype PortRecord = PortRecord(ipTunnelPort: Ports, port: set<int>)

  // ---------------------------------------------------------------- the search

  /** p is the first port above the server port that is not used. */
  ghost predicate FirstFree(p: int, used: set<int>) {
    FIRST_PORT <= p && p !in used && forall q :: FIRST_PORT <= q < p ==> q in used
  }

  function Range(lo: int, hi: int): (r: set<int>)
    ensures forall q :: q in r <==> lo <= q < hi
    decreases hi - lo
  {
    if lo >= hi then {} else Range(lo, hi - 1) + {hi - 1}
  }

  lemma {:induction false} RangeSize(lo: int, hi: int)
    requires lo <= hi
    ensures |Range(lo, hi)| == hi - lo
    decreases hi - lo
  {
    if lo < hi {
      RangeSize(lo, hi - 1);
    }
  }

  /** negotiatePort finds the first free port within one more probe than there are used ports. */
  method NegotiatePort(used: set<int>) returns (port: int, probes: nat)
    ensures FirstFree(port, used)
    ensures probes == port - SERVER_PORT <= |used| + 1
  {
    port, probes := SERVER_PORT, 0;
    ghost var bound := |used|;
    while true
      invariant probes == port - SERVER_PORT <= bound
      invariant forall q :: FIRST_PORT <= q <= port ==> q in used
      decreases bound - probes
    {
      port, probes := port + 1, probes + 1;
      if port !in used {
        return;
      }
      RangeSize(FIRST_PORT, port + 1);
      SubsetSize(Range(FIRST_PORT, port + 1), used);
    }
  }

  // ---------------------------------------------------------------- record, rules and their steps

  /** The DNAT rule that sends a tunnel port to an instance. */
  datatype Rule = Rule(ip: Address, port: int)

  datatype Grant = Grant(ip: Address, port: int)

  datatype Net = Net(
    record: Option<PortRecord>,
    previous: Ports,                // preTunnelPortRecord of the iptables manager
    chain: set<Rule>,               // the TUNNEL-PORT chain
    grants: seq<Grant>              // history: every port handed out
  )

  function Start(): Net {
    Net(None, map[], {}, [])
  }

  function Used(n: Net): set<int> {
    if n.record.Some? then n.record.value.port else {}
  }

  function Live(n: Net): Ports {
    if n.record.Some? then n.record.value.ipTunnelPort else map[]
  }

  function RulesOf(ports: Ports): set<Rule> {
    set ip | ip in ports :: Rule(ip, ports[ip])
  }

  /** The rules of addresses that have left the record. */
  function DroppedRules(previous: Ports, latest: Ports): set<Rule> {
    set ip | ip in previous && ip !in latest :: Rule(ip, previous[ip])
  }

  /** One reconcile in which every rule operation succeeds. */
  function Reconciled(chain: set<Rule>, previous: Ports, latest: Ports): set<Rule> {
    chain + RulesOf(latest) - DroppedRules(previous, latest)
  }

  datatype Step = Negotiate(ip: Address, port: int) | Clean(ip: Address) | Reconcile

  ghost predicate Enabled(n: Net, t: Step) {
    match t
    case Negotiate(ip, p) => if ip in Live(n) then p == Live(n)[ip] else FirstFree(p, Used(n))
    case _ => true
  }

  function Apply(n: Net, t: Step): Net {
    match t
    case Negotiate(ip, p) =>
      if ip in Live(n) then n
      else n.(record := Some(PortRecord(Live(n)[ip := p], Used(n) + {p})), grants := n.grants + [Grant(ip, p)])
    case Clean(ip) =>
      if n.record.Some? then n.(record := Some(n.record.value.(ipTunnelPort := Live(n) - {ip}))) else n
    case Reconcile =>
      if n.record.Some? then n.(chain := Reconciled(n.chain, n.previous, Live(n)), previous := Live(n)) else n
  }

  ghost predicate Run(trace: seq<Step>, n: Net)
    decreases |trace|
  {
    if trace == [] then n == Start()
    else
      var last := |trace| - 1;
      exists m :: Run(trace[..last], m) && Enabled(m, trace[last]) && n == Apply(m, trace[last])
  }

  // ---------------------------------------------------------------- the methods

  /** The shared record in the API server. */
  class PortMap {
    var record: Option<PortRecord>

    constructor ()
      ensures record == None
    {
      record := None;
    }

    /** NegotiateTunnelPort for this instance's address. */
    method Negotiate(ip: Address) returns (port: int)
      modifies this
      ensures var before := Net(old(record), map[], {}, []);
              Enabled(before, Step.Negotiate(ip, port)) && record == Apply(before, Step.Negotiate(ip, port)).record
    {
      match record {
        case Some(r) =>
          if ip in r.ipTunnelPort {
            return r.ipTunnelPort[ip];
          }
          var probes;
          port, probes := NegotiatePort(r.port);
          record := Some(PortRecord(r.ipTunnelPort[ip := port], r.port + {port}));
        case None =>
          var probes;
          port, probes := NegotiatePort({});
          record := Some(PortRecord(map[ip := port], {port}));
      }
    }

    /** CleanCloudCoreIPPort; without a record it fails and changes nothing. */
    method Clean(ip: Address) returns (ok: bool)
      modifies this
      ensures ok == old(record).Some?
      ensures record == Apply(Net(old(record), map[], {}, []), Step.Clean(ip)).record
    {
      if record.None? {
        return false;
      }
      var r := record.value;
      if ip in r.ipTunnelPort {
        record := Some(r.(ipTunnelPort := r.ipTunnelPort - {ip}));
      } else {
        assert r.ipTunnelPort - {ip} == r.ipTunnelPort;
      }
      return true;
    }
  }

  class IptablesManager {
    var previous: Ports
    var chain: set<Rule>

    /** Run flushes the chain before the first reconcile. */
    constructor ()
      ensures previous == map[] && chain == {}
    {
      previous, chain := map[], {};
    }

    /** EnsureRule for each; the first failing operation ends it. */
    method EnsureRules(rules: set<Rule>, operationsOk: nat -> bool) returns (ok: bool)
      modifies this
      ensures previous == old(previous) && old(chain) <= chain <= old(chain) + rules
      ensures ok ==> chain == old(chain) + rules
      ensures (forall i :: operationsOk(i)) ==> ok
    {
      var todo, i := rules, 0;
      while todo != {}
        invariant todo <= rules && chain == old(chain) + (rules - todo) && previous == old(previous)
        decreases |todo|
      {
        var rule :| rule in todo;
        if !operationsOk(i) {
          return false;
        }
        chain, todo, i := chain + {rule}, todo - {rule}, i + 1;
      }
      return true;
    }

    /** DeleteRule for each; the first failing operation ends it. */
    method DeleteRules(rules: set<Rule>, operationsOk: nat -> bool) returns (ok: bool)
      modifies this
      ensures previous == old(previous) && old(chain) - rules <= chain <= old(chain)
      ensures ok ==> chain == old(chain) - rules
      ensures (forall i :: operationsOk(i)) ==> ok
    {
      var todo, i := rules, 0;
      while todo != {}
        invariant todo <= rules && chain == old(chain) - (rules - todo) && previous == old(previous)
        decreases |todo|
      {
        var rule :| rule in todo;
        if !operationsOk(i) {
          return false;
        }
        chain, todo, i := chain - {rule}, todo - {rule}, i + 1;
      }
      return true;
    }

    /** reconcile against the latest record.  A failure leaves the rules of dropped addresses behind for
        good, because the record they are known from has already been replaced. */
    method Reconcile(latest: Ports, ensuresOk: nat -> bool, deletesOk: nat -> bool) returns (ok: bool)
      modifies this
      ensures previous == latest
      ensures ok ==> chain == Reconciled(old(chain), old(previous), latest)
      ensures (forall i :: ensuresOk(i)) && (forall i :: deletesOk(i)) ==> ok
      ensures old(chain) - DroppedRules(old(previous), latest) <= chain <= old(chain) + RulesOf(latest)
    {
      var dropped := DroppedRules(previous, latest);
      previous := latest;
      ok := EnsureRules(RulesOf(latest), ensuresOk);
      if ok {
        ok := DeleteRules(dropped, deletesOk);
      }
    }
  }

  // ---------------------------------------------------------------- allocation, over every run

  /** The i-th port handed out is the i-th above the server port, and live entries come from grants. */
  ghost predicate PortInv(n: Net) {
    && (forall p :: p in Used(n) <==> FIRST_PORT <= p < FIRST_PORT + |n.grants|)
    && (forall i :: 0 <= i < |n.grants| ==> n.grants[i].port == FIRST_PORT + i)
    && FromGrants(Live(n), n.grants)
    && FromGrants(n.previous, n.grants)
    && (forall r :: r in n.chain ==> Granted(r.ip, r.port, n.grants))
  }

  ghost predicate Granted(ip: Address, port: int, grants: seq<Grant>) {
    0 <= port - FIRST_PORT < |grants| && grants[port - FIRST_PORT].ip == ip
  }

  ghost predicate FromGrants(ports: Ports, grants: seq<Grant>) {
    forall ip :: ip in ports ==> Granted(ip, ports[ip], grants)
  }

  lemma PortStep(n: Net, t: Step)
    requires PortInv(n) && Enabled(n, t)
    ensures PortInv(Apply(n, t))
  {
    if t.Negotiate? && t.ip !in Live(n) {
      NextPort(n, t.port);
    }
  }

  /** With a contiguous set of used ports the first free port is the next one. */
  lemma NextPort(n: Net, p: int)
    requires PortInv(n) && FirstFree(p, Used(n))
    ensures p == FIRST_PORT + |n.grants|
  {
    assert FIRST_PORT + |n.grants| !in Used(n);
  }

  lemma {:induction false} PortInvOfRuns(trace: seq<Step>, n: Net)
    requires Run(trace, n)
    ensures PortInv(n)
    decreases |trace|
  {
    if trace != [] {
      var last := |trace| - 1;
      var m :| Run(trace[..last], m) && Enabled(m, trace[last]) && n == Apply(m, trace[last]);
      PortInvOfRuns(trace[..last], m);
      PortStep(m, trace[last]);
    }
  }

  /** Over every run: the used ports are a contiguous interval, live addresses hold distinct ports
      inside it, and no port is ever handed out twice, cleanup or not. */
  lemma PortsNeverClash(trace: seq<Step>, n: Net)
    requires Run(trace, n)
    ensures forall p :: p in Used(n) <==> 10351 <= p < 10351 + |n.grants|
    ensures forall a, b :: a in Live(n) && b in Live(n) && a != b ==> Live(n)[a] != Live(n)[b]
    ensures forall a :: a in Live(n) ==> Live(n)[a] in Used(n)
    ensures forall i, j :: 0 <= i < j < |n.grants| ==> n.grants[i].port != n.grants[j].port
  {
    PortInvOfRuns(trace, n);
  }

  // ---------------------------------------------------------------- rules, over every run

  predicate SamePorts(previous: Ports, latest: Ports) {
    forall ip :: ip in previous && ip in latest ==> previous[ip] == latest[ip]
  }

  /** From a chain that matches the previous record, reconcile reaches the latest record exactly when
      no address kept its place with a different port. */
  lemma ChainRefinesRecordIff(previous: Ports, latest: Ports)
    ensures Reconciled(RulesOf(previous), previous, latest) == RulesOf(latest) <==> SamePorts(previous, latest)
  {
    var after := Reconciled(RulesOf(previous), previous, latest);
    if SamePorts(previous, latest) {
      forall r ensures r in after <==> r in RulesOf(latest) {}
    } else {
      var ip :| ip in previous && ip in latest && previous[ip] != latest[ip];
      var stale := Rule(ip, previous[ip]);
      assert stale in RulesOf(previous) && stale !in DroppedRules(previous, latest) && stale !in RulesOf(latest);
    }
  }

  ghost predicate SteadyRun(trace: seq<Step>, n: Net)
    decreases |trace|
  {
    if trace == [] then n == Start()
    else
      var last := |trace| - 1;
      exists m :: SteadyRun(trace[..last], m) && Enabled(m, trace[last]) && n == Apply(m, trace[last]) &&
                  (trace[last].Reconcile? ==> SamePorts(m.previous, Live(m)))
  }

  /** If no address changes port between two reconciles, the chain always holds exactly one rule per
      entry of the record it was last reconciled with. */
  lemma {:induction false} ChainRefinesRecord(trace: seq<Step>, n: Net)
    requires SteadyRun(trace, n)
    ensures n.chain == RulesOf(n.previous)
    decreases |trace|
  {
    if trace != [] {
      var last := |trace| - 1;
      var m :| SteadyRun(trace[..last], m) && Enabled(m, trace[last]) && n == Apply(m, trace[last]) &&
               (trace[last].Reconcile? ==> SamePorts(m.previous, Live(m)));
      ChainRefinesRecord(trace[..last], m);
      ChainRefinesRecordIff(m.previous, Live(m));
    }
  }

  /** Even when addresses change ports and stale rules stay behind, right after a reconcile every live
      port has exactly one rule, and it leads to the address that holds the port. */
  lemma LivePortsAreRouted(trace: seq<Step>, n: Net, ip: Address, r: Rule)
    requires Run(trace, n) && ip in Live(n)
    ensures var after := Apply(n, Reconcile);
            && Rule(ip, Live(n)[ip]) in after.chain
            && (r in after.chain && r.port == Live(n)[ip] ==> r.ip == ip)
  {
    PortInvOfRuns(trace, n);
    PortStep(n, Reconcile);
    var after := Apply(n, Reconcile);
    assert Rule(ip, Live(n)[ip]) in RulesOf(Live(n));
    assert Rule(ip, Live(n)[ip]) !in DroppedRules(n.previous, Live(n));
    assert Live(after) == Live(n);
  }

  lemma OneMoreStep(trace: seq<Step>, n: Net, t: Step)
    requires Run(trace, n) && Enabled(n, t)
    ensures Run(trace + [t], Apply(n, t))
  {
    var more := trace + [t];
    var last := |more| - 1;
    assert more[..last] == trace && more[last] == t;
    assert Run(more[..last], n) && Enabled(n, more[last]);
  }

  /** One address, with its rule. */
  function OneRule(): Net {
    var ports: Ports := map["ip" := FIRST_PORT];
    Net(Some(PortRecord(ports, {FIRST_PORT})), ports, {Rule("ip", FIRST_PORT)}, [Grant("ip", FIRST_PORT)])
  }

  lemma FirstTwoSteps(t: Step)
    requires t == Negotiate("ip", FIRST_PORT)
    ensures Enabled(Start(), t) && Apply(Apply(Start(), t), Reconcile) == OneRule()
  {
    var ports: Ports := map["ip" := FIRST_PORT];
    assert Live(Start())["ip" := FIRST_PORT] == ports && Used(Start()) + {FIRST_PORT} == {FIRST_PORT};
    assert RulesOf(ports) == {Rule("ip", ports["ip"])};
    assert Reconciled({}, map[], ports) == {Rule("ip", FIRST_PORT)};
  }

  lemma OneRuleRun() returns (trace: seq<Step>)
    ensures Run(trace, OneRule())
  {
    var t := Negotiate("ip", FIRST_PORT);
    FirstTwoSteps(t);
    trace := [];
    OneMoreStep(trace, Start(), t);
    trace := trace + [t];
    OneMoreStep(trace, Apply(Start(), t), Reconcile);
    trace := trace + [Reconcile];
  }

  /** An address that is cleaned up and negotiates again between two reconciles leaves its old rule behind. */
  lemma StaleRuleRun()
    ensures exists trace, n :: Run(trace, n) && n.chain != RulesOf(n.previous)
  {
    var again := Negotiate("ip", FIRST_PORT + 1);
    var trace := OneRuleRun();
    var n := OneRule();
    OneMoreStep(trace, n, Clean("ip"));
    trace, n := trace + [Clean("ip")], Apply(n, Clean("ip"));
    OneMoreStep(trace, n, again);
    trace, n := trace + [again], Apply(n, again);
    assert Live(n) == map["ip" := FIRST_PORT + 1] && n.previous == map["ip" := FIRST_PORT] && n.record.Some?;
    OneMoreStep(trace, n, Reconcile);
    StaleRule(n);
  }

  lemma StaleRule(n: Net)
    requires n.record.Some? && Live(n) == map["ip" := FIRST_PORT + 1] && n.previous == map["ip" := FIRST_PORT]
    requires Rule("ip", FIRST_PORT) in n.chain
    ensures Apply(n, Reconcile).chain != RulesOf(Apply(n, Reconcile).previous)
  {
    var after := Apply(n, Reconcile);
    assert Rule("ip", FIRST_PORT) in after.chain && Rule("ip", FIRST_PORT) !in RulesOf(after.previous);
  }

  // ---------------------------------------------------------------- a port is kept until it is cleaned up

  /** A live address keeps its port, and its rule if it has one, through every step but its own cleanup; that
      takes its entry, and gives no port back. */
  lemma PortIsKept(n: Net, t: Step, a: Address)
    requires Enabled(n, t) && a in Live(n)
    ensures t != Clean(a) ==> a in Live(Apply(n, t)) && Live(Apply(n, t))[a] == Live(n)[a]
    ensures t != Clean(a) && Rule(a, Live(n)[a]) in n.chain ==> Rule(a, Live(n)[a]) in Apply(n, t).chain
    ensures t == Clean(a) ==> a !in Live(Apply(n, t)) && Used(Apply(n, t)) == Used(n)
  {
    if t.Reconcile? {
      assert Rule(a, Live(n)[a]) in RulesOf(Live(n)) && Rule(a, Live(n)[a]) !in DroppedRules(n.previous, Live(n));
    }
  }

  ghost predicate Leads(n: Net, trace: seq<Step>, n': Net)
    decreases |trace|
  {
    if trace == [] then n' == n
    else
      var last := |trace| - 1;
      exists m :: Leads(n, trace[..last], m) && Enabled(m, trace[last]) && n' == Apply(m, trace[last])
  }

  /** Whatever instances come and go: until it is cleaned up, an address has the port it was given, and from
      the next reconcile on the rule for it. */
  lemma {:induction false} PortKeptUntilCleaned(n: Net, trace: seq<Step>, n': Net, a: Address)
    requires Leads(n, trace, n') && a in Live(n) && Clean(a) !in trace
    ensures a in Live(n') && Live(n')[a] == Live(n)[a]
    ensures Rule(a, Live(n)[a]) in n.chain || Reconcile in trace ==> Rule(a, Live(n)[a]) in n'.chain
    decreases |trace|
  {
    if trace != [] {
      var last := |trace| - 1;
      var m :| Leads(n, trace[..last], m) && Enabled(m, trace[last]) && n' == Apply(m, trace[last]);
      PortKeptUntilCleaned(n, trace[..last], m, a);
      assert trace[last] in trace && trace == trace[..last] + [trace[last]];
      PortIsKept(m, trace[last], a);
      if trace[last].Reconcile? {
        assert Rule(a, Live(m)[a]) in RulesOf(Live(m)) && Rule(a, Live(m)[a]) !in DroppedRules(m.previous, Live(m));
      }
    }
  }
}
