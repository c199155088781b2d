/**
 One bridge of the rapid spanning tree as a value, and each operation of
 rstp.c as a function on it. `RstpBridge` holds the same state in fields and
 updates it step by step; its methods are proved against these functions.

 Left to the caller, as inputs: the clock, link state, the cost a port's speed
 gives it, and which interfaces MLAG keeps out of the tree.
 */
module RstpState {
  import opened RstpVector

  datatype Info = InfoDisabled | InfoAged | InfoMine | InfoReceived
  datatype Role = RoleDisabled | RoleRoot | RoleDesignated | RoleAlternate | RoleBackup
  datatype PortState = Discarding | Learning | Forwarding
  datatype Times = Times(msgAge: int, maxAge: int, hello: int, fwd: int)

  /** The role a BPDU's flags claim; a configuration BPDU claims none. */
  datatype Claim = ClaimUnknown | ClaimAltBackup | ClaimRoot | ClaimDesignated
  datatype BpduType = ConfigBpdu | RstBpdu | TcnBpdu

  datatype Bpdu = Bpdu(
    kind: BpduType, vector: Vector, times: Times,
    tc: bool, proposal: bool, claim: Claim, learning: bool, agreement: bool)

  datatype Port = Port(
    used: bool, enabled: bool,
    adminEdge: bool, cfgCost: nat, bpduGuard: bool, rootGuard: bool,
    bpduTripped: bool, rootBlocked: bool,
    operEdge: bool, cost: nat, id: nat,
    role: Role, state: PortState, info: Info,
    pv: Vector, pt: Times,
    proposing: bool, proposed: bool, agreed: bool, agree: bool,
    sendRstp: bool, newInfo: bool, tcAck: bool, heard: bool,
    rcvdUntil: int, fdUntil: int, tcUntil: int, helloNext: int, edgeUntil: int,
    txWindow: int, txCount: nat,
    pending: bool, msg: Bpdu)

  datatype Bridge = Bridge(
    on: bool, id: nat, ports: seq<Port>,
    rootPv: Vector, rootKey: int, rootTimes: Times,
    reselect: bool, helloMs: int, maxAgeMs: int, fwdMs: int, tcCount: nat)

  /** What one run sees of the world around the bridge. */
  datatype Env = Env(link: seq<bool>, excluded: seq<bool>, speedCost: seq<nat>, tx: seq<Tx>)

  /** What became of a frame handed to a port, if there was a port. */
  datatype Tx = NoPort | Refused | Sent

  predicate EnvFits(e: Env, n: nat) {
    |e.link| == n && |e.excluded| == n && |e.speedCost| == n && |e.tx| == n
  }

  const MIGRATE_MS := 3000
  const TX_HOLD := 6

  // ----- roles -----

  /** What a bridge offers when it takes itself for the root. */
  function SelfVector(id: nat): Vector {
    Vector(id, 0, id, 0)
  }

  function DesignatedVector(rootPv: Vector, id: nat, p: Port): Vector {
    Vector(rootPv.root, rootPv.cost, id, p.id)
  }

  /** May this port's information name the way to the root? */
  predicate Candidate(id: nat, p: Port) {
    p.enabled && p.info == InfoReceived && p.pv.bridge != id && !p.rootGuard
  }

  /** The root vector through a port: its cost added in 32 bits. */
  function RootVector(p: Port): Vector {
    p.pv.(cost := (p.pv.cost + p.cost) % COST_RANGE)
  }

  datatype Choice = Choice(best: Vector, key: int)

  predicate Takes(id: nat, ports: seq<Port>, p: Port, c: Choice)
    requires c.key < |ports|
  {
    Candidate(id, p) &&
    (Less(RootVector(p), c.best) ||
     (RootVector(p) == c.best && c.key >= 0 && p.id < ports[c.key].id))
  }

  /** The choice among the first n ports, in table order. */
  function Choose(id: nat, ports: seq<Port>, n: nat): (c: Choice)
    requires n <= |ports|
    ensures -1 <= c.key < n
  {
    if n == 0 then Choice(SelfVector(id), -1)
    else
      var c := Choose(id, ports, n - 1);
      if Takes(id, ports, ports[n - 1], c) then Choice(RootVector(ports[n - 1]), n - 1) else c
  }

  function TimesFor(b: Bridge, key: int): Times
    requires -1 <= key < |b.ports|
  {
    if key < 0 then Times(0, b.maxAgeMs, b.helloMs, b.fwdMs)
    else b.ports[key].pt.(msgAge := b.ports[key].pt.msgAge + 1000)
  }

  function RoleFor(p: Port, isRoot: bool, dv: Vector): Role {
    if !p.enabled then RoleDisabled
    else if isRoot then RoleRoot
    else if p.info == InfoReceived && Less(p.pv, dv) then
      if p.pv.bridge == dv.bridge then RoleBackup else RoleAlternate
    else RoleDesignated
  }

  /** updtInfo: a designated port's information becomes the bridge's own. */
  function UpdateInfo(p: Port, role: Role, dv: Vector, rt: Times): Port {
    var news := role == RoleDesignated && (p.info != InfoMine || p.pv != dv);
    p.(rootBlocked := (role == RoleAlternate || role == RoleBackup) && p.rootGuard,
       pv := if news then dv else p.pv, pt := if news then rt else p.pt,
       info := if news then InfoMine else p.info,
       agreed := p.agreed && !news, newInfo := p.newInfo || news)
  }

  function SetRole(p: Port, role: Role): Port {
    var news := role != p.role;
    p.(role := role, proposing := p.proposing && !news, fdUntil := if news then 0 else p.fdUntil,
       newInfo := p.newInfo || news, agree := p.agree && (!news || role == RoleRoot))
  }

  function AssignRole(p: Port, isRoot: bool, dv: Vector, rt: Times): Port {
    var role := RoleFor(p, isRoot, dv);
    SetRole(UpdateInfo(p, role, dv, rt), role)
  }

  function AssignRoles(id: nat, ports: seq<Port>, c: Choice, rt: Times): seq<Port> {
    seq(|ports|, i requires 0 <= i < |ports| =>
      AssignRole(ports[i], i == c.key, DesignatedVector(c.best, id, ports[i]), rt))
  }

  function SyncPort(p: Port): Port {
    var sync := p.enabled && p.role == RoleDesignated && !p.operEdge && !p.agreed;
    p.(state := if sync then Discarding else p.state, fdUntil := if sync then 0 else p.fdUntil)
  }

  function SyncAll(ports: seq<Port>): seq<Port> {
    seq(|ports|, i requires 0 <= i < |ports| => SyncPort(ports[i]))
  }

  predicate Synced(p: Port) {
    !p.enabled || p.role != RoleDesignated || p.operEdge || p.agreed || p.state == Discarding
  }

  predicate AllSynced(ports: seq<Port>, except: int) {
    forall j :: 0 <= j < |ports| && j != except ==> Synced(ports[j])
  }

  function SelectRoles(b: Bridge): (r: Bridge)
    ensures |r.ports| == |b.ports|
  {
    var c := Choose(b.id, b.ports, |b.ports|);
    var rt := TimesFor(b, c.key);
    var ports := AssignRoles(b.id, b.ports, c, rt);
    var moved := c.key != b.rootKey || c.best != b.rootPv;
    var cleared := if moved && c.key >= 0 then ports[c.key := ports[c.key].(agree := false)] else ports;
    b.(ports := if moved then SyncAll(cleared) else cleared,
       rootPv := c.best, rootKey := c.key, rootTimes := rt, reselect := false)
  }

  // ----- topology change -----

  predicate Announces(p: Port, isSource: bool, rcvd: bool, now: int) {
    p.enabled && !p.operEdge && !(rcvd && isSource) &&
    (p.role == RoleRoot || p.role == RoleDesignated) && now >= p.tcUntil
  }

  function TcPort(p: Port, isSource: bool, rcvd: bool, now: int, helloMs: int): Port {
    var news := Announces(p, isSource, rcvd, now);
    p.(tcUntil := if news then now + helloMs + 1000 else p.tcUntil, newInfo := p.newInfo || news)
  }

  function TcPorts(ports: seq<Port>, from: int, rcvd: bool, now: int, helloMs: int): seq<Port> {
    seq(|ports|, i requires 0 <= i < |ports| => TcPort(ports[i], i == from, rcvd, now, helloMs))
  }

  predicate SomeAnnounce(ports: seq<Port>, from: int, rcvd: bool, now: int) {
    exists i :: 0 <= i < |ports| && Announces(ports[i], i == from, rcvd, now)
  }

  function TopologyChange(b: Bridge, from: int, rcvd: bool, now: int): (r: Bridge)
    ensures |r.ports| == |b.ports|
  {
    b.(ports := TcPorts(b.ports, from, rcvd, now, b.helloMs),
       tcCount := if SomeAnnounce(b.ports, from, rcvd, now) || !rcvd then b.tcCount + 1 else b.tcCount)
  }

  // ----- a received BPDU -----

  /** Superior designated information, or a change from the same designated port. */
  predicate Supersedes(p: Port, v: Vector) {
    Less(v, p.pv) ||
    (p.info == InfoReceived && v.bridge == p.pv.bridge && v.port == p.pv.port && v != p.pv)
  }

  /** What hearing any bridge at all does to a port: it is no edge, and what
      was sent says which protocol its neighbour speaks. */
  function Heed(p: Port): Port {
    p.(pending := false, heard := true, operEdge := false, edgeUntil := 0,
       sendRstp := p.msg.kind == RstBpdu,
       newInfo := p.newInfo || (p.msg.kind == RstBpdu && !p.sendRstp),
       tcAck := p.tcAck || p.msg.kind == TcnBpdu)
  }

  function MsgClaim(m: Bpdu): Claim {
    if m.kind == ConfigBpdu then ClaimDesignated else m.claim
  }

  /** An agreement from the bridge below, naming the root this bridge follows. */
  predicate Agrees(p: Port, rootPv: Vector) {
    p.role == RoleDesignated && p.msg.agreement && p.msg.vector.root == rootPv.root &&
    MsgClaim(p.msg) != ClaimDesignated
  }

  /** What a believable BPDU is to the port that hears it: its own, looped back;
      designated information that is superior, repeated, or inferior -- disputed
      if its sender already learns; an agreement; or nothing new. */
  datatype Verdict = Looped | Superior | Repeated | Disputed | Inferior | Agreement | Ignored

  function Judge(p: Port, id: nat, rootPv: Vector): Verdict {
    if p.msg.vector.bridge == id && p.msg.vector.port == p.id then Looped
    else if MsgClaim(p.msg) == ClaimDesignated then
      if Supersedes(p, p.msg.vector) then Superior
      else if p.msg.vector == p.pv && p.info == InfoReceived then Repeated
      else if p.role == RoleDesignated && p.msg.learning then Disputed
      else Inferior
    else if Agrees(p, rootPv) then Agreement
    else Ignored
  }

  function Told(p: Port, v: Verdict, now: int, helloMs: int): Port {
    var m, takes, keeps := p.msg, v == Superior || v == Looped, v == Superior || v == Repeated;
    var hello := if v == Looped || m.times.hello <= 0 then helloMs else m.times.hello;
    p.(pv := if takes then m.vector else p.pv,
       info := if takes then InfoReceived else p.info,
       pt := if keeps then m.times else p.pt,
       rcvdUntil := if takes || keeps then now + 3 * hello else p.rcvdUntil,
       proposed := if keeps then m.proposal else p.proposed,
       agreed := (p.agreed && v != Superior && v != Disputed) || v == Agreement,
       proposing := p.proposing && v != Agreement,
       state := if v == Disputed then Discarding else p.state,
       newInfo := p.newInfo || v == Disputed || v == Inferior)
  }

  /** A BPDU that is neither a TCN, nor too old, nor guarded against. */
  function RcvVector(b: Bridge, k: nat, now: int): (r: Bridge)
    requires k < |b.ports|
    ensures |r.ports| == |b.ports|
  {
    var p := b.ports[k];
    var v := Judge(p, b.id, b.rootPv);
    var b' := b.(ports := b.ports[k := Told(p, v, now, b.helloMs)],
                 reselect := b.reselect || v == Looped || v == Superior || (v == Repeated && p.pt != p.msg.times));
    if p.msg.tc && v != Looped then TopologyChange(b', k, true, now) else b'
  }

  function Receive(b: Bridge, k: nat, now: int): (r: Bridge)
    requires k < |b.ports|
    ensures |r.ports| == |b.ports|
  {
    var p := b.ports[k];
    if p.bpduGuard then
      b.(ports := b.ports[k := p.(pending := false, bpduTripped := true)], reselect := true)
    else
      var b' := b.(ports := b.ports[k := Heed(p)], reselect := b.reselect || p.operEdge);
      if p.msg.kind == TcnBpdu then TopologyChange(b', k, true, now)
      else if p.msg.times.msgAge >= p.msg.times.maxAge then b'
      else RcvVector(b', k, now)
  }

  // ----- per-port transitions -----

  /** Silence for the migrate time makes a port an edge. */
  predicate EdgeNow(p: Port, now: int) {
    p.operEdge || (!p.heard && p.edgeUntil != 0 && now >= p.edgeUntil)
  }

  /** When the forward delay in hand runs out. */
  function WaitsUntil(p: Port, now: int, fwd: int): int {
    if p.fdUntil == 0 then now + fwd else p.fdUntil
  }

  /** A designated port: forwarding at once as an edge or once agreed, else
      through learning, a forward delay each. */
  function DesignatedStep(p: Port, now: int, fwd: int): Port {
    var edge := EdgeNow(p, now);
    var goes := p.state != Forwarding && (edge || p.agreed);
    var waits := p.state != Forwarding && !goes;
    var until := WaitsUntil(p, now, fwd);
    var moves := waits && now >= until;
    p.(operEdge := edge,
       proposing := if waits then p.proposing || p.sendRstp else p.proposing && !goes,
       newInfo := p.newInfo || (waits && p.sendRstp && !p.proposing),
       state := if goes || (moves && p.state == Learning) then Forwarding
                else if moves then Learning else p.state,
       fdUntil := if moves then now + fwd else if waits then until else p.fdUntil)
  }

  /** A disabled, alternate or backup port discards; the latter two answer a
      proposal at once, being synced already. */
  function Stop(p: Port): Port {
    var answers := p.proposed && p.role != RoleDisabled;
    p.(state := Discarding, agree := p.agree || answers, newInfo := p.newInfo || answers,
       proposed := p.proposed && !answers)
  }

  /** The root port: sync if proposed to, agree once all is synced, forward. */
  function RootStep(ports: seq<Port>, k: nat): (r: seq<Port>)
    requires k < |ports|
    ensures |r| == |ports|
  {
    var p := ports[k];
    var ps := if p.proposed then SyncAll(ports) else ports;
    var agrees := !p.agree && AllSynced(ps, k);
    ps[k := p.(proposed := false, agree := p.agree || agrees, newInfo := p.newInfo || agrees, state := Forwarding)]
  }

  /** A root or designated port's transition; one that starts forwarding, and is
      no edge, is a topology change. */
  function Go(b: Bridge, k: nat, now: int): (r: Bridge)
    requires k < |b.ports|
    ensures |r.ports| == |b.ports|
  {
    var p := b.ports[k];
    var ports := if p.role == RoleRoot then RootStep(b.ports, k)
                 else b.ports[k := DesignatedStep(p, now, b.rootTimes.fwd)];
    var b' := b.(ports := ports);
    if p.state != Forwarding && ports[k].state == Forwarding && !ports[k].operEdge
    then TopologyChange(b', k, false, now) else b'
  }

  // ----- one run -----

  /** Link and guard decide whether a port takes part. One coming up knows
      nothing, starts as the edge it is configured to be or not, and speaks RSTP;
      one going down forgets what it knew. A live port's cost is the
      configured one, or its speed's. */
  function LinkStep(p: Port, link: bool, speedCost: nat, now: int): Port {
    var up := p.used && link;
    var part := up && !p.bpduTripped;
    var comes, goes := part && !p.enabled, !part && p.enabled;
    p.(bpduTripped := up && p.bpduTripped, enabled := part, cost := if part then PortCost(p, speedCost) else p.cost,
       info := if comes then InfoAged else if goes then InfoDisabled else p.info,
       pending := p.pending && !goes,
       operEdge := if comes then p.adminEdge else p.operEdge,
       heard := p.heard && !comes, edgeUntil := if comes then now + MIGRATE_MS else p.edgeUntil,
       sendRstp := p.sendRstp || comes, helloNext := if comes then now else p.helloNext,
       agreed := p.agreed && !comes, agree := p.agree && !comes,
       proposed := p.proposed && !comes, proposing := p.proposing && !comes)
  }

  function PortCost(p: Port, speedCost: nat): nat {
    if p.cfgCost > 0 then p.cfgCost else speedCost
  }

  function AgeOut(b: Bridge, k: nat, now: int): (r: Bridge)
    requires k < |b.ports|
    ensures |r.ports| == |b.ports|
  {
    var p := b.ports[k];
    if p.info == InfoReceived && now >= p.rcvdUntil
    then b.(ports := b.ports[k := p.(info := InfoAged)], reselect := true) else b
  }

  /** Kept out of the tree by MLAG: forwarding, whatever the tree says. */
  function Exclude(b: Bridge, k: nat): (r: Bridge)
    requires k < |b.ports|
    ensures |r.ports| == |b.ports|
  {
    var p := b.ports[k];
    var q := p.(enabled := false, info := if p.enabled then InfoDisabled else p.info, state := Forwarding);
    b.(ports := b.ports[k := q], reselect := b.reselect || p.enabled)
  }

  /** Link, guard and cost. */
  function Enter(b: Bridge, k: nat, link: bool, speedCost: nat, now: int): (r: Bridge)
    requires k < |b.ports|
    ensures |r.ports| == |b.ports|
  {
    var p := b.ports[k];
    var q := LinkStep(p, link, speedCost, now);
    b.(ports := b.ports[k := q], reselect := b.reselect || q.enabled != p.enabled || q.cost != p.cost)
  }

  /** The first pass over one port: exclusion, link, cost, a waiting BPDU, ageing. */
  function Admit(b: Bridge, k: nat, e: Env, now: int): (r: Bridge)
    requires k < |b.ports| && EnvFits(e, |b.ports|)
    ensures |r.ports| == |b.ports|
  {
    if b.ports[k].used && e.excluded[k] then Exclude(b, k)
    else
      var b' := Enter(b, k, e.link[k], e.speedCost[k], now);
      if !b'.ports[k].enabled then b'
      else AgeOut(if b'.ports[k].pending then Receive(b', k, now) else b', k, now)
  }

  function AdmitAll(b: Bridge, n: nat, e: Env, now: int): (r: Bridge)
    requires n <= |b.ports| && EnvFits(e, |b.ports|)
    ensures |r.ports| == |b.ports|
  {
    if n == 0 then b else Admit(AdmitAll(b, n - 1, e, now), n - 1, e, now)
  }

  predicate Carries(p: Port) {
    p.role == RoleRoot || p.role == RoleDesignated
  }

  /** The second pass: what must stop does so before anything starts. */
  function Lower(b: Bridge, k: nat, e: Env): (r: Bridge)
    requires k < |b.ports| && EnvFits(e, |b.ports|)
    ensures |r.ports| == |b.ports|
  {
    var p := b.ports[k];
    if p.enabled && !Carries(p) then b.(ports := b.ports[k := Stop(p)])
    else if !p.enabled && p.used && !e.excluded[k] then b.(ports := b.ports[k := p.(state := Discarding)])
    else b
  }

  function LowerAll(b: Bridge, n: nat, e: Env): (r: Bridge)
    requires n <= |b.ports| && EnvFits(e, |b.ports|)
    ensures |r.ports| == |b.ports|
  {
    if n == 0 then b else Lower(LowerAll(b, n - 1, e), n - 1, e)
  }

  /** The third pass: root and designated ports. */
  function Raise(b: Bridge, k: nat, now: int): (r: Bridge)
    requires k < |b.ports|
    ensures |r.ports| == |b.ports|
  {
    if b.ports[k].enabled && Carries(b.ports[k]) then Go(b, k, now) else b
  }

  function RaiseAll(b: Bridge, n: nat, now: int): (r: Bridge)
    requires n <= |b.ports|
    ensures |r.ports| == |b.ports|
  {
    if n == 0 then b else Raise(RaiseAll(b, n - 1, now), n - 1, now)
  }

  /** Does the last pass have anything to send on this port? */
  predicate HasNews(p: Port, now: int) {
    match p.role
    case RoleDesignated => p.newInfo || now >= p.helloNext
    case RoleRoot => (p.newInfo && p.sendRstp) || p.tcAck
    case RoleDisabled => false
    case _ => p.newInfo && p.agree && p.sendRstp
  }

  /** BPDUs sent so far in the second that now is in, if there is one to send. */
  function SentAlready(p: Port, now: int): nat {
    if p.enabled && HasNews(p, now) && now - p.txWindow >= 1000 then 0 else p.txCount
  }

  /** The last pass hands a frame over: at most so many a second, and only where
      there is a port. */
  predicate Speaks(p: Port, tx: Tx, now: int) {
    p.enabled && HasNews(p, now) && SentAlready(p, now) < TX_HOLD && tx != NoPort
  }

  /** A port with something due, a frame handed over or not, so many sent before. */
  function Spent(p: Port, due: bool, speaks: bool, count: nat, tx: Tx, helloMs: int, now: int): Port {
    p.(txWindow := if due && now - p.txWindow >= 1000 then now else p.txWindow,
       txCount := if speaks && tx == Sent then count + 1 else count,
       newInfo := p.newInfo && (!p.enabled || (due && !speaks)),
       tcAck := p.tcAck && (!speaks || p.sendRstp),
       helloNext := if due && p.role == RoleDesignated then now + helloMs else p.helloNext)
  }

  /** The last pass, per port; a port with nowhere to send keeps its news. */
  function SendPort(p: Port, tx: Tx, helloMs: int, now: int): Port {
    Spent(p, p.enabled && HasNews(p, now), Speaks(p, tx, now), SentAlready(p, now), tx, helloMs, now)
  }

  function SendAll(ports: seq<Port>, tx: seq<Tx>, helloMs: int, now: int): seq<Port>
    requires |tx| == |ports|
  {
    seq(|ports|, i requires 0 <= i < |ports| => SendPort(ports[i], tx[i], helloMs, now))
  }

  function Settle(b: Bridge): (r: Bridge)
    ensures |r.ports| == |b.ports|
  {
    if b.reselect then SelectRoles(b) else b
  }

  function Run(b: Bridge, e: Env, now: int): (r: Bridge)
    requires EnvFits(e, |b.ports|)
    ensures |r.ports| == |b.ports|
  {
    if !b.on then b
    else
      var n := |b.ports|;
      var b1 := Settle(AdmitAll(b, n, e, now));
      var b2 := RaiseAll(LowerAll(b1, n, e), n, now);
      b2.(ports := SendAll(b2.ports, e.tx, b2.helloMs, now))
  }

  // ----- everything else that touches the state -----

  /** rstp_rx: a BPDU waits for the next run, if the port takes part. A TCN
      carries no vector, so the last one stays. */
  function Rx(b: Bridge, k: nat, m: Bpdu): Bridge
    requires k < |b.ports|
  {
    if !b.on || !b.ports[k].enabled then b else b.(ports := b.ports[k := Held(b.ports[k], m)])
  }

  function Held(p: Port, m: Bpdu): Port {
    p.(msg := if m.kind == TcnBpdu then p.msg.(kind := TcnBpdu) else m, pending := true)
  }

  /** nosaic_rstp_iface: an interface becomes switched, or routed again. */
  function Iface(b: Bridge, k: nat, switched: bool): Bridge
    requires k < |b.ports|
  {
    var p := b.ports[k];
    var q := p.(used := switched, state := if switched && b.on then Discarding else Forwarding,
                enabled := p.enabled && !switched, role := if switched then RoleDisabled else p.role);
    b.(ports := b.ports[k := q], reselect := true)
  }

  datatype PortConfig = PortConfig(edge: bool, cost: nat, id: nat, bpduGuard: bool, rootGuard: bool)

  /** nosaic_rstp_port, once the request has been checked. */
  function Configure(b: Bridge, k: nat, c: PortConfig): Bridge
    requires k < |b.ports|
  {
    var p := b.ports[k];
    var q := p.(adminEdge := c.edge, cfgCost := c.cost, bpduGuard := c.bpduGuard, rootGuard := c.rootGuard,
                bpduTripped := false, id := c.id,
                operEdge := if !c.edge then false else if !p.heard then true else p.operEdge);
    b.(ports := b.ports[k := q], reselect := true)
  }

  datatype BridgeConfig = BridgeConfig(on: bool, id: nat, hello: int, fwd: int, maxAge: int)

  /** The times nosaic_rstp_set accepts, in seconds (17.14). */
  predicate ValidTimes(c: BridgeConfig) {
    1 <= c.hello <= 10 && 4 <= c.fwd <= 30 && 6 <= c.maxAge <= 40 &&
    c.maxAge <= 2 * (c.fwd - 1) && c.maxAge >= 2 * (c.hello + 1)
  }

  /** A time of 0 asks for the default. */
  function Defaulted(c: BridgeConfig): BridgeConfig {
    c.(hello := if c.hello == 0 then 2 else c.hello,
       fwd := if c.fwd == 0 then 15 else c.fwd,
       maxAge := if c.maxAge == 0 then 20 else c.maxAge)
  }

  function Restart(p: Port, on: bool): Port {
    p.(enabled := false, info := InfoDisabled, role := RoleDisabled, pending := false,
       state := if !p.used then p.state else if on then Discarding else Forwarding)
  }

  function RestartAll(ports: seq<Port>, on: bool): seq<Port> {
    seq(|ports|, i requires 0 <= i < |ports| => Restart(ports[i], on))
  }

  /** nosaic_rstp_set: new times; and, if the switch or the priority changed,
      every port afresh. A refused request changes nothing. */
  function Set(b: Bridge, request: BridgeConfig): Bridge {
    var c := Defaulted(request);
    if !ValidTimes(c) then b
    else
      var same := c.hello * 1000 == b.helloMs && c.fwd * 1000 == b.fwdMs && c.maxAge * 1000 == b.maxAgeMs;
      var b' := b.(helloMs := c.hello * 1000, fwdMs := c.fwd * 1000, maxAgeMs := c.maxAge * 1000,
                   reselect := b.reselect || !same);
      if c.id == b.id && c.on == b.on then b'
      else
        b'.(id := c.id, on := c.on, rootPv := Vector(0, 0, 0, 0), rootKey := -1, reselect := true,
            ports := RestartAll(b.ports, c.on))
  }
}
