/**
 One switch of an MLAG pair, as values: what it knows of its peer and its
 role, and, for each MLAG id, its own half, what the peer last said of the
 other, and the flood block. The functions are the operations of mlag.c on
 them. Chip state is reduced to which floods may leave by a half.
 */
module MlagState {

  datatype Role = NoRole | Primary | Secondary

  /** The switch and its peer. MAC addresses are compared as numbers, which is
      how memcmp orders them. */
  datatype Base = Base(
    mac: nat, prio: nat,
    heard: bool, lastLink: int, lastHb: int, peerMac: nat, peerPrio: nat,
    sysSet: bool, sysId: nat, role: Role,
    alive: bool, hbAlive: bool, shut: bool)

  /** Which floods are kept off a half: none, those from the peer-link, or
      those from every other port. */
  datatype Block = Open | FromPeerLink | FromAll

  datatype Hold = HoldNone | HoldReload | HoldPeer

  /** One MLAG id on one switch. A time of 0 means the event has not happened. */
  datatype Half = Half(
    localUp: bool, localUpSince: int, localReady: bool,
    peerUp: nat, peerKnown: bool, peerAck: bool, peerDownSince: int,
    block: Block, held: Hold)

  /** What a hello says of one id: 2 carrying, 1 ready, 0 neither; and whether
      the sender has seen the other half and will not copy floods to it. */
  datatype Entry = Entry(up: nat, ack: bool)

  const IDLE_HALF := Half(false, 0, false, 0, false, false, 0, Open, HoldNone)

  // ----- hellos -----

  function EntryOf(h: Half, shut: bool, active: bool, ready: bool): Entry {
    Entry(if shut then 0 else if active then 2 else if ready then 1 else 0,
          h.peerUp >= 1 && (!h.localUp || h.block != Open))
  }

  datatype Heard = Unlisted | Listed(entry: Entry)

  /** mlag_rx, for one id: what this hello says replaces what the last one did. */
  function HalfRx(h: Half, e: Heard, now: int): Half {
    var up := if e.Listed? then e.entry.up else 0;
    var down := e.Listed? && up == 0;
    h.(peerUp := up, peerKnown := e.Listed?, peerAck := e.Listed? && e.entry.ack,
       peerDownSince := if !down then 0 else if h.peerDownSince == 0 then now else h.peerDownSince)
  }

  function BaseRx(b: Base, prio: nat, mac: nat, now: int): Base {
    b.(heard := true, lastLink := now, peerPrio := prio, peerMac := mac)
  }

  // ----- evaluation -----

  /** Who leads: the smaller priority, then the smaller MAC. */
  predicate First(prio: nat, mac: nat, prio': nat, mac': nat) {
    prio < prio' || (prio == prio' && mac < mac')
  }

  function BaseEvaluate(b: Base, linkUp: bool, hbConfigured: bool, deadMs: int, now: int): Base {
    var alive := b.heard && now - b.lastLink < deadMs && linkUp;
    var hb := hbConfigured && now - b.lastHb < deadMs;
    var first := First(b.prio, b.mac, b.peerPrio, b.peerMac);
    var role := if alive then (if first then Primary else Secondary) else if !hb then NoRole else b.role;
    b.(alive := alive, hbAlive := hb, role := role, sysSet := true,
       sysId := if alive then (if first then b.mac else b.peerMac) else if b.sysSet then b.sysId else b.mac,
       shut := !alive && hb && role == Secondary)
  }

  /** What an evaluation reads of the LAG behind a half, and of the clock. */
  datatype LagView = LagView(active: bool, ready: bool, reloading: bool, settleMs: int, now: int)

  function UpSince(h: Half, v: LagView): int {
    if v.active == h.localUp then h.localUpSince else if v.active then v.now else 0
  }

  /** Both halves have stayed put: the peer's down, this one up, for settleMs. */
  predicate Single(h: Half, v: LagView) {
    h.peerDownSince != 0 && v.now - h.peerDownSince >= v.settleMs &&
    v.active && v.now - UpSince(h, v) >= v.settleMs
  }

  function BlockFor(h: Half, alive: bool, shut: bool, v: LagView): Block {
    if alive && v.active && !shut && !h.peerAck then FromAll
    else if alive && !shut && !Single(h, v) then FromPeerLink
    else Open
  }

  function HalfEvaluate(h: Half, alive: bool, shut: bool, v: LagView): Half {
    h.(localUp := v.active, localUpSince := UpSince(h, v), localReady := v.ready,
       block := BlockFor(h, alive, shut, v),
       held := if v.reloading then HoldReload
               else if alive && v.active && !shut && !h.peerAck then HoldPeer else HoldNone)
  }

  /** Does this evaluation ask for a hello at once? */
  predicate Triggers(h: Half, alive: bool, shut: bool, v: LagView) {
    v.active != h.localUp || v.ready != h.localReady || BlockFor(h, alive, shut, v) != h.block
  }
}
