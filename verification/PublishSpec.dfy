/** What publishing a service does to the configuration (ham/dnsapi.py,
    `wizard_publish`), step by step as functions of the collections. A new id
    comes from `mint`, which gives an id outside any set. */
module PublishSpec {
  import opened Options
  import opened Names
  import opened Collections
  import opened ServiceGraph
  import opened CertificateMatch
  import RuleOrder

  datatype Scheme = Http | Https | Tcp

  datatype Url = Url(scheme: Scheme, host: string, port: nat, path: string)

  /** `label` is the server name typed before the target's address, if any. */
  datatype Target = Target(serverName: string, host: string, port: nat, https: bool)

  datatype Health = Health(
    kind: string, interval: string, httpMethod: string, uri: string, version: string,
    host: string, status: string, user: string, post41: bool)

  /** The service being edited: none, the one of a rule, or a tcp listener's. */
  datatype Service = NoService | RuleService(id: Id) | ListenerService(id: Id)

  datatype Request = Request(
    urls: seq<Url>, targets: seq<Target>, base: string, named: bool, checkPort: nat,
    proxyProtocol: Option<string>, poolOptions: map<string, string>, health: Option<Health>,
    service: Service, wantCertificate: bool, certificateId: Id, newCertificate: bool,
    account: string, challenge: string, httpRedirect: bool)

  type Mint = set<Id> -> Id

  ghost predicate Generates(mint: Mint) {
    forall used :: mint(used) !in used
  }

  function IsTcp(r: Request): bool
    requires r.urls != []
  {
    r.urls[0].scheme == Tcp
  }

  // ----- what is being edited -----

  function ExistingRule(g: Graph, r: Request): Option<Item<Rule>> {
    if r.service.RuleService? then Lookup(g.rules, r.service.id) else None
  }

  function ExistingListener(g: Graph, r: Request): Option<Item<Listener>> {
    if r.service.ListenerService? then Lookup(g.listeners, r.service.id) else None
  }

  function ExistingPool(g: Graph, r: Request): Option<Item<Pool>> {
    var id := if ExistingRule(g, r).Some? then ExistingRule(g, r).value.body.pool
              else if ExistingListener(g, r).Some? then ExistingListener(g, r).value.body.defaultPool
              else None;
    if id.Some? then Lookup(g.pools, id.value) else None
  }

  function MonitorOf(monitors: seq<Item<Check>>, pool: Option<Item<Pool>>): Option<Item<Check>> {
    if pool.Some? && pool.value.body.monitor.Some? then Lookup(monitors, pool.value.body.monitor.value)
    else None
  }

  /** The host names of the rule being edited. */
  function OldHosts(conditions: seq<Item<Condition>>, ids: seq<Id>): seq<string> {
    if ids == [] then []
    else
      var c := Lookup(conditions, ids[0]);
      (if c.Some? && c.value.body.kind == HostMatches && c.value.body.value != "" then [c.value.body.value] else [])
      + OldHosts(conditions, ids[1..])
  }

  // ----- servers -----

  function ByName(t: Target, claimed: seq<Id>): Item<Server> -> bool {
    (s: Item<Server>) => s.name == t.serverName && s.id !in claimed
  }

  function ByAddress(t: Target, claimed: seq<Id>): Item<Server> -> bool {
    (s: Item<Server>) => s.body.address == t.host && s.body.port == t.port && s.body.ssl == t.https && s.id !in claimed
  }

  function Repointed(s: Item<Server>, t: Target): Item<Server> {
    s.(body := s.body.(address := t.host, port := t.port, ssl := t.https))
  }

  function Configured(r: Request, s: Item<Server>): Item<Server> {
    s.(body := s.body.(
      checkPort := if r.checkPort != 0 then r.checkPort else s.body.checkPort,
      proxyProtocol := r.proxyProtocol.Or(s.body.proxyProtocol)))
  }

  function ServerName(r: Request, t: Target): string {
    if t.serverName != "" then t.serverName
    else if |r.targets| == 1 then r.base + "-srv"
    else r.base + "-" + t.host
  }

  function NewServer(r: Request, mint: Mint, servers: seq<Item<Server>>, t: Target): Item<Server> {
    Item(mint(Ids(servers)), Unique(NamesOf(servers), ServerName(r, t)),
         Server(t.host, t.port, t.https, 0, "", true))
  }

  /** A server of the target's own name is repointed; else one at its address is
      used; else one is made. A server serves one target only. */
  function ServerFor(r: Request, mint: Mint, servers: seq<Item<Server>>, t: Target, claimed: seq<Id>): Item<Server> {
    if t.serverName != "" && Find(servers, ByName(t, claimed)).Some? then
      Repointed(Find(servers, ByName(t, claimed)).value, t)
    else if Find(servers, ByAddress(t, claimed)).Some? then Find(servers, ByAddress(t, claimed)).value
    else NewServer(r, mint, servers, t)
  }

  datatype Claims = Claims(servers: seq<Item<Server>>, ids: seq<Id>)

  function ClaimOne(r: Request, mint: Mint, c: Claims, t: Target): Claims {
    var s := Configured(r, ServerFor(r, mint, c.servers, t, c.ids));
    Claims(Upsert(c.servers, s), c.ids + [s.id])
  }

  function ClaimAll(r: Request, mint: Mint, c: Claims, ts: seq<Target>): Claims
    decreases |ts|
  {
    if ts == [] then c else ClaimAll(r, mint, ClaimOne(r, mint, c, ts[0]), ts[1..])
  }

  // ----- the health monitor -----

  function Default(s: string, d: string): string {
    if s == "" then d else s
  }

  function Wanted(h: Health): Check {
    Check(Default(h.kind, "none"), Default(h.interval, "2s"), Default(h.httpMethod, "GET"), Default(h.uri, "/"),
          h.version, h.host,
          if h.kind == "http" then h.status else "",
          Default(h.user, if h.kind == "pgsql" then "postgres" else "haproxy"), h.post41)
  }

  function Like(want: Check): Item<Check> -> bool {
    (m: Item<Check>) => m.body.(mysqlPost41 := want.mysqlPost41) == want
  }

  predicate UsedElsewhere(pools: seq<Item<Pool>>, monitor: Id, pool: Id) {
    exists b :: b in pools && b.body.monitor == Some(monitor) && b.id != pool
  }

  /** Silence about health checking keeps the monitor the pool has. */
  predicate KeepsMonitor(r: Request, own: Option<Item<Check>>) {
    r.health.None? && own.Some?
  }

  function CheckKind(r: Request, own: Option<Item<Check>>): string {
    if KeepsMonitor(r, own) then Default(own.value.body.kind, "none")
    else if r.health.Some? then Default(r.health.value.kind, "none")
    else "none"
  }

  datatype MonitorChoice = MonitorChoice(monitors: seq<Item<Check>>, monitor: Option<Id>)

  function NewMonitor(r: Request, mint: Mint, monitors: seq<Item<Check>>, want: Check): Item<Check> {
    Item(mint(Ids(monitors)), Unique(NamesOf(monitors), r.base + "-check"), want)
  }

  /** Change the pool's own monitor, unless another pool shares it; else use one
      with the same settings; else make one. */
  function MonitorFor(r: Request, mint: Mint, monitors: seq<Item<Check>>, own: Option<Item<Check>>, shared: bool,
          want: Check): Item<Check>
  {
    if own.Some? && !shared then own.value.(body := want)
    else if Find(monitors, Like(want)).Some? then Find(monitors, Like(want)).value
    else NewMonitor(r, mint, monitors, want)
  }

  function ChooseMonitor(r: Request, mint: Mint, monitors: seq<Item<Check>>, own: Option<Item<Check>>, shared: bool)
    : MonitorChoice
  {
    if KeepsMonitor(r, own) then MonitorChoice(monitors, Some(own.value.id))
    else if r.health.Some? && CheckKind(r, own) != "none" then
      var m := MonitorFor(r, mint, monitors, own, shared, Wanted(r.health.value));
      MonitorChoice(Upsert(monitors, m), Some(m.id))
    else MonitorChoice(monitors, None)
  }

  /** A monitor only this pool used goes when checking is switched off. */
  function MonitorStep(r: Request, mint: Mint, monitors: seq<Item<Check>>, own: Option<Item<Check>>, shared: bool)
    : MonitorChoice
  {
    var c := ChooseMonitor(r, mint, monitors, own, shared);
    if CheckKind(r, own) == "none" && own.Some? && !shared then
      c.(monitors := Without(c.monitors, own.value.id))
    else c
  }

  // ----- the pool -----

  function PoolNamed(r: Request): Item<Pool> -> bool {
    (b: Item<Pool>) => b.name == Secure(r.base)
  }

  /** The pool the service uses, whatever its name; else the one of the name. */
  function OldPool(r: Request, pools: seq<Item<Pool>>, own: Option<Item<Pool>>): Option<Item<Pool>> {
    if own.Some? then own else Find(pools, PoolNamed(r))
  }

  function PoolName(r: Request, pools: seq<Item<Pool>>, own: Option<Item<Pool>>): string {
    if own.Some? && own.value.name != Secure(r.base) && r.named then
      Unique(NamesOf(Without(pools, own.value.id)), r.base)
    else if OldPool(r, pools, own).Some? then OldPool(r, pools, own).value.name
    else Unique(NamesOf(pools), r.base)
  }

  function PoolFor(r: Request, mint: Mint, pools: seq<Item<Pool>>, own: Option<Item<Pool>>, servers: seq<Id>,
          monitor: Option<Id>): Item<Pool>
  {
    var former := OldPool(r, pools, own);
    Item(if former.Some? then former.value.id else mint(Ids(pools)),
         PoolName(r, pools, own),
         Pool(servers, monitor, (if former.Some? then former.value.body.options else map[]) + r.poolOptions))
  }

  function Referenced(pools: seq<Item<Pool>>): set<Id> {
    set b, s | b in pools && s in b.body.servers :: s
  }

  predicate Orphan(servers: seq<Item<Server>>, id: Id, used: set<Id>) {
    id !in used && Lookup(servers, id).Some? && Lookup(servers, id).value.body.wizardMade
  }

  /** `_drop_orphan_wizard_servers`. */
  function DropOrphans(servers: seq<Item<Server>>, candidates: seq<Id>, used: set<Id>): seq<Item<Server>>
    decreases |candidates|
  {
    if candidates == [] then servers
    else DropOrphans(if Orphan(servers, candidates[0], used) then Without(servers, candidates[0]) else servers,
                     candidates[1..], used)
  }

  function PreviousServers(r: Request, pools: seq<Item<Pool>>, own: Option<Item<Pool>>): seq<Id> {
    if OldPool(r, pools, own).Some? then OldPool(r, pools, own).value.body.servers else []
  }

  // ----- a tcp listener -----

  predicate BindsPort(l: Listener, port: nat) {
    exists b :: b in l.binds && b.port == port
  }

  function OnPort(port: nat): Item<Listener> -> bool {
    (f: Item<Listener>) => BindsPort(f.body, port)
  }

  function OthersOnPort(port: nat, id: Id): Item<Listener> -> bool {
    (f: Item<Listener>) => f.id != id && BindsPort(f.body, port)
  }

  function TcpBind(u: Url): Bind {
    Bind(Default(u.host, "0.0.0.0"), u.port)
  }

  /** The listener a tcp service uses: the one being edited, with its port
      changed, or the one on the port. */
  function TcpListener(listeners: seq<Item<Listener>>, u: Url, edited: Option<Item<Listener>>): Option<Item<Listener>> {
    if edited.Some? then Some(edited.value.(body := edited.value.body.(binds := [TcpBind(u)])))
    else Find(listeners, OnPort(u.port))
  }

  predicate TcpRefused(listeners: seq<Item<Listener>>, u: Url, edited: Option<Item<Listener>>, pool: Id) {
    (edited.Some? && Find(listeners, OthersOnPort(u.port, edited.value.id)).Some?) ||
    var l := TcpListener(listeners, u, edited);
    l.Some? && (!l.value.body.tcp || (l.value.body.defaultPool.Some? && l.value.body.defaultPool != Some(pool)))
  }

  function NewTcpListener(r: Request, mint: Mint, listeners: seq<Item<Listener>>, u: Url): Item<Listener> {
    Item(mint(Ids(listeners)), Unique(NamesOf(listeners), r.base + "-listener"),
         Listener(true, false, [TcpBind(u)], [], [], None, false))
  }

  function TcpStep(r: Request, mint: Mint, listeners: seq<Item<Listener>>, u: Url, edited: Option<Item<Listener>>,
          pool: Id)
    : Option<seq<Item<Listener>>>
  {
    if TcpRefused(listeners, u, edited, pool) then None
    else
      var l := TcpListener(listeners, u, edited).Or(NewTcpListener(r, mint, listeners, u));
      Some(Upsert(listeners, l.(body := l.body.(defaultPool := Some(pool)))))
  }

  // ----- names and ports of the service -----

  predicate SameHost(a: string, b: string) {
    Lower(a) == Lower(b)
  }

  predicate HostKnown(h: string, hosts: seq<string>) {
    exists k :: k in hosts && SameHost(k, h)
  }

  function AddHosts(hosts: seq<string>, urls: seq<Url>): seq<string>
    decreases |urls|
  {
    if urls == [] then hosts
    else AddHosts(if HostKnown(urls[0].host, hosts) then hosts else hosts + [urls[0].host], urls[1..])
  }

  function AddPorts(ports: seq<nat>, urls: seq<Url>): seq<nat>
    decreases |urls|
  {
    if urls == [] then ports
    else AddPorts(if urls[0].port in ports then ports else ports + [urls[0].port], urls[1..])
  }

  function Hosts(r: Request): seq<string> {
    AddHosts([], r.urls)
  }

  function Ports(r: Request): seq<nat> {
    AddPorts([], r.urls)
  }

  // ----- conditions -----

  /** A condition the rule needs, and the name a new one asks for. */
  datatype Need = Need(kind: ConditionKind, value: string, wantedName: string)

  function HostNeeds(r: Request, hosts: seq<string>, single: bool): seq<Need> {
    if hosts == [] then []
    else [Need(HostMatches, hosts[0], "host-" + if single then r.base else Secure(Labels(hosts[0])[0]))]
         + HostNeeds(r, hosts[1..], single)
  }

  /** One condition for each host name, then one for the path if there is one. */
  function Needs(r: Request): seq<Need>
    requires r.urls != []
  {
    HostNeeds(r, Hosts(r), |Hosts(r)| == 1)
    + if r.urls[0].path != "" then [Need(PathStartsWith, r.urls[0].path, "path-" + r.base)] else []
  }

  /** A condition's negation is not looked at. */
  predicate MeetsNeed(c: Condition, n: Need) {
    c.kind == n.kind && if n.kind == HostMatches then SameHost(c.value, n.value) else c.value == n.value
  }

  function Meets(n: Need): Item<Condition> -> bool {
    (c: Item<Condition>) => MeetsNeed(c.body, n)
  }

  datatype Conditions = Conditions(all: seq<Item<Condition>>, ids: seq<Id>)

  function ConditionFor(mint: Mint, all: seq<Item<Condition>>, n: Need): Item<Condition> {
    if Find(all, Meets(n)).Some? then Find(all, Meets(n)).value
    else Item(mint(Ids(all)), Unique(NamesOf(all), n.wantedName), Condition(n.kind, n.value, false))
  }

  function NeedOne(mint: Mint, c: Conditions, n: Need): Conditions {
    var x := ConditionFor(mint, c.all, n);
    Conditions(Upsert(c.all, x), c.ids + [x.id])
  }

  function NeedAll(mint: Mint, c: Conditions, ns: seq<Need>): Conditions
    decreases |ns|
  {
    if ns == [] then c else NeedAll(mint, NeedOne(mint, c, ns[0]), ns[1..])
  }

  // ----- the rule -----

  function WithConditions(ids: seq<Id>): Item<Rule> -> bool {
    (x: Item<Rule>) => x.body.useBackend && SetOf(x.body.conditions) == SetOf(ids)
  }

  function OldRule(rules: seq<Item<Rule>>, own: Option<Item<Rule>>, ids: seq<Id>): Option<Item<Rule>> {
    if own.Some? then own else Find(rules, WithConditions(ids))
  }

  function RuleFor(r: Request, mint: Mint, rules: seq<Item<Rule>>, own: Option<Item<Rule>>, ids: seq<Id>, pool: Id)
    : Item<Rule>
  {
    var former := OldRule(rules, own, ids);
    if former.Some? then
      former.value.(body := former.value.body.(conditions := ids, anyOf := |Hosts(r)| > 1, pool := Some(pool)))
    else
      Item(mint(Ids(rules)), Unique(NamesOf(rules), "to-" + r.base),
           Rule(true, false, |Hosts(r)| > 1, ids, Some(pool)))
  }

  function UsedConditions(rules: seq<Item<Rule>>): set<Id> {
    set x, c | x in rules && c in x.body.conditions :: c
  }

  function PreviousConditions(rules: seq<Item<Rule>>, own: Option<Item<Rule>>, ids: seq<Id>): seq<Id> {
    if OldRule(rules, own, ids).Some? then OldRule(rules, own, ids).value.body.conditions else []
  }

  // ----- the certificate -----

  function Uncovered(c: Item<Certificate>, hosts: seq<string>): seq<string> {
    if hosts == [] then []
    else (if BestFor([c], hosts[0]).None? then [hosts[0]] else []) + Uncovered(c, hosts[1..])
  }

  /** A certificate found for the first name is made to name the others too. */
  function Extended(c: Item<Certificate>, hosts: seq<string>): Item<Certificate> {
    c.(body := c.body.(domains := c.body.domains + Uncovered(c, hosts)))
  }

  function NamesOnly(host: string): Item<Certificate> -> bool {
    (c: Item<Certificate>) => c.body.domains == [host]
  }

  /** A certificate that was never issued, for a name the service no longer has. */
  function Stale(certs: seq<Item<Certificate>>, formerHosts: seq<string>, host: string): Option<Item<Certificate>> {
    if formerHosts == [] then None
    else
      var c := Find(certs, NamesOnly(formerHosts[0]));
      if !SameHost(formerHosts[0], host) && c.Some? && !c.value.body.issued then c
      else Stale(certs, formerHosts[1..], host)
  }

  function Repurposed(r: Request, c: Item<Certificate>): Item<Certificate> {
    c.(body := c.body.(domains := Hosts(r),
                       account := Default(c.body.account, r.account),
                       challenge := Default(c.body.challenge, r.challenge)))
  }

  function NewCertificate(r: Request, mint: Mint, certs: seq<Item<Certificate>>): Item<Certificate> {
    Item(mint(Ids(certs)), Unique(NamesOf(certs), r.base), Certificate(Hosts(r), r.account, r.challenge, false))
  }

  function WantsCertificate(r: Request): bool
    requires r.urls != []
  {
    r.urls[0].scheme == Https && r.wantCertificate
  }

  function CertificateFor(r: Request, mint: Mint, certs: seq<Item<Certificate>>,
          formerHosts: seq<string>): Item<Certificate>
    requires r.urls != []
  {
    if r.certificateId != "" && Lookup(certs, r.certificateId).Some? then Lookup(certs, r.certificateId).value
    else if !r.newCertificate && BestFor(certs, r.urls[0].host).Some? then
      Extended(BestFor(certs, r.urls[0].host).value.cert, Hosts(r))
    else if Stale(certs, formerHosts, r.urls[0].host).Some? then
      Repurposed(r, Stale(certs, formerHosts, r.urls[0].host).value)
    else NewCertificate(r, mint, certs)
  }

  // ----- the listeners of an http or https service -----

  function Serving(port: nat, ssl: bool): Item<Listener> -> bool {
    (f: Item<Listener>) => BindsPort(f.body, port) && !f.body.tcp && f.body.ssl == ssl
  }

  function PortName(port: nat, ssl: bool): string {
    (if ssl then "https-" else "http-") + Decimal(port)
  }

  function NewListener(mint: Mint, listeners: seq<Item<Listener>>, port: nat, ssl: bool): Item<Listener> {
    Item(mint(Ids(listeners)), Unique(NamesOf(listeners), PortName(port, ssl)),
         Listener(false, ssl, [Bind("0.0.0.0", port)], [], [], None, false))
  }

  predicate PortTaken(listeners: seq<Item<Listener>>, port: nat, ssl: bool) {
    Find(listeners, Serving(port, ssl)).None? && Find(listeners, OnPort(port)).Some?
  }

  function Carrying(rules: seq<Item<Rule>>, l: Item<Listener>, rule: Id, cert: Option<Id>): Item<Listener> {
    l.(body := l.body.(
      rules := RuleOrder.Place(rules, l.body.rules, rule),
      certificates := if cert.Some? && cert.value !in l.body.certificates then l.body.certificates + [cert.value]
                      else l.body.certificates))
  }

  function ListenerFor(mint: Mint, rules: seq<Item<Rule>>, listeners: seq<Item<Listener>>, port: nat, ssl: bool,
          rule: Id, cert: Option<Id>): Item<Listener>
  {
    Carrying(rules, Find(listeners, Serving(port, ssl)).Or(NewListener(mint, listeners, port, ssl)), rule, cert)
  }

  datatype Served = Served(listeners: seq<Item<Listener>>, ids: seq<Id>)

  function ServeOne(mint: Mint, rules: seq<Item<Rule>>, s: Served, port: nat, ssl: bool, rule: Id,
          cert: Option<Id>): Served
  {
    var l := ListenerFor(mint, rules, s.listeners, port, ssl, rule, cert);
    Served(Upsert(s.listeners, l), s.ids + [l.id])
  }

  function ServeAll(mint: Mint, rules: seq<Item<Rule>>, s: Served, ports: seq<nat>, ssl: bool, rule: Id,
          cert: Option<Id>): Option<Served>
    decreases |ports|
  {
    if ports == [] then Some(s)
    else if PortTaken(s.listeners, ports[0], ssl) then None
    else ServeAll(mint, rules, ServeOne(mint, rules, s, ports[0], ssl, rule, cert), ports[1..], ssl, rule, cert)
  }

  /** A port an edited service no longer lists stops serving its rule. */
  function Release(listeners: seq<Item<Listener>>, serving: seq<Id>, rule: Id): seq<Item<Listener>> {
    if listeners == [] then []
    else
      var l := listeners[0];
      [if l.id in serving then l else l.(body := l.body.(rules := RuleOrder.Others(l.body.rules, rule)))]
      + Release(listeners[1..], serving, rule)
  }

  function PlainOn80(): Item<Listener> -> bool {
    (f: Item<Listener>) => BindsPort(f.body, 80) && !f.body.ssl
  }

  function RedirectFor(mint: Mint, listeners: seq<Item<Listener>>): Item<Listener> {
    var l := Find(listeners, PlainOn80());
    if l.Some? then l.value.(body := l.value.body.(toHttps := true))
    else Item(mint(Ids(listeners)), Unique(NamesOf(listeners), "http-redirect"),
              Listener(false, false, [Bind("0.0.0.0", 80)], [], [], None, true))
  }

  // ----- the whole -----

  /** Servers, monitor and pool: what both kinds of service start with. */
  datatype Backend = Backend(graph: Graph, pool: Id)

  function BackendStep(g: Graph, r: Request, mint: Mint): Backend {
    var ownPool := ExistingPool(g, r);
    var own := MonitorOf(g.monitors, ownPool);
    var shared := own.Some? && ownPool.Some? && UsedElsewhere(g.pools, own.value.id, ownPool.value.id);
    var claims := ClaimAll(r, mint, Claims(g.servers, []), r.targets);
    var choice := MonitorStep(r, mint, g.monitors, own, shared);
    var pool := PoolFor(r, mint, g.pools, ownPool, claims.ids, choice.monitor);
    var pools := Upsert(g.pools, pool);
    Backend(g.(servers := DropOrphans(claims.servers, PreviousServers(r, g.pools, ownPool), Referenced(pools)),
               monitors := choice.monitors,
               pools := pools),
            pool.id)
  }

  /** Conditions, rule and certificate. */
  datatype Routing = Routing(graph: Graph, rule: Id, cert: Option<Id>)

  function RuleStep(g: Graph, r: Request, mint: Mint, own: Option<Item<Rule>>, pool: Id): Routing
    requires r.urls != []
  {
    var c := NeedAll(mint, Conditions(g.conditions, []), Needs(r));
    var rule := RuleFor(r, mint, g.rules, own, c.ids, pool);
    var rules := Upsert(g.rules, rule);
    Routing(g.(conditions := DropUnused(c.all, PreviousConditions(g.rules, own, c.ids), UsedConditions(rules)),
               rules := rules),
            rule.id, None)
  }

  function CertificateStep(s: Routing, r: Request, mint: Mint, formerHosts: seq<string>): Routing
    requires r.urls != []
  {
    if WantsCertificate(r) then
      var c := CertificateFor(r, mint, s.graph.certificates, formerHosts);
      Routing(s.graph.(certificates := Upsert(s.graph.certificates, c)), s.rule, Some(c.id))
    else s
  }

  function ListenerStep(s: Routing, r: Request, mint: Mint, edited: bool): Option<Graph>
    requires r.urls != []
  {
    var ssl := r.urls[0].scheme == Https;
    var served := ServeAll(mint, s.graph.rules, Served(s.graph.listeners, []), Ports(r), ssl, s.rule, s.cert);
    if served.None? then None
    else
      var kept := if edited then Release(served.value.listeners, served.value.ids, s.rule) else served.value.listeners;
      Some(s.graph.(listeners := if ssl && r.httpRedirect then Upsert(kept, RedirectFor(mint, kept)) else kept))
  }

  /** The configuration after publishing, or none when a port is refused. */
  function Published(g: Graph, r: Request, mint: Mint): Option<Graph>
    requires r.urls != []
  {
    var b := BackendStep(g, r, mint);
    if IsTcp(r) then
      var ls := TcpStep(r, mint, g.listeners, r.urls[0], ExistingListener(g, r), b.pool);
      if ls.None? then None else Some(b.graph.(listeners := ls.value))
    else
      var own := ExistingRule(g, r);
      var formerHosts := OldHosts(g.conditions, if own.Some? then own.value.body.conditions else []);
      ListenerStep(CertificateStep(RuleStep(b.graph, r, mint, own, b.pool), r, mint, formerHosts), r, mint, own.Some?)
  }
}
