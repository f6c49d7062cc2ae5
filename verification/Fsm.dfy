// The option negotiation automaton of fsm.c (section 4 of RFC 1661).
//
// `Next` and `Output` describe one event on the automaton's variables, driven by the
// state transition table of section 4.1 of RFC 1661 together with the list of
// cells in which this implementation departs from it.

module FsmTable {
  import opened Bytes
  import opened Callouts

  datatype State =
    Initial | Starting | Closed | Stopped | Closing | Stopping | ReqSent | AckRcvd | AckSent | Opened

  predicate Timed(s: State) {
    s in {Closing, Stopping, ReqSent, AckRcvd, AckSent}
  }

  predicate Negotiating(s: State) { s in {ReqSent, AckRcvd, AckSent} }

  const HEADERLEN := 4
  const CONFREQ: byte := 1
  const CONFACK: byte := 2
  const CONFNAK: byte := 3
  const CONFREJ: byte := 4
  const TERMREQ: byte := 5
  const TERMACK: byte := 6
  const CODEREJ: byte := 7

  // What is set before the automaton runs: the flags, the limits, and the
  // longest packet the peer takes.
  datatype Config = Config(
    passive: bool, restart: bool, silent: bool,
    timeouttime: int, maxConf: int, maxTerm: int, maxNak: int, mru: int)

  // The variables of one automaton.  `timers` are the deadlines of the
  // fsm_timeout entries pending for it on the callout list.
  datatype View = View(
    cfg: Config,
    state: State,
    id: byte, reqid: byte, seenAck: bool,
    retransmits: int, nakloops: int, rnakloops: int,
    reason: seq<byte>,
    timers: seq<Instant>)

  // What an automaton does to the world: callbacks and packets sent.
  datatype Action =
    ResetOptions | Up | Down | StartLower | Finish | Retransmit
  | Send(code: byte, id: byte, data: seq<byte>)

  // All that an automaton has said, latest last.
  datatype Log = Silence | Said(before: Log, act: Action)

  datatype Verdict = Ack | Nak | Rej

  function VerdictCode(v: Verdict): byte {
    match v case Ack => CONFACK case Nak => CONFNAK case Rej => CONFREJ
  }

  // The events, with the answers the protocol-specific callbacks give to them.
  datatype Event =
    LowerUp | LowerDown | Open | Close(reason: seq<byte>) | Expire | ProtReject
  | ConfReq(id: byte, verdict: Verdict, reply: seq<byte>)
  | ConfAck(id: byte, good: bool)
  | ConfNakRej(id: byte, nak: bool, ret: int)
  | TermReq(id: byte)
  | TermAck
  | CodeRej(len: nat)
  | Other(packet: seq<byte>, handled: bool)

  // The clock, and the options addci would write into a Configure-Request.
  datatype Env = Env(now: Instant, options: seq<byte>)

  // Actions of section 4.4 of RFC 1661; those of one cell happen in this order.
  datatype Ops = Ops(
    tld: bool := false, tls: bool := false, irc: bool := false, zrc: bool := false,
    scr: bool := false, str: bool := false,
    sca: bool := false, scn: bool := false, sta: bool := false, scj: bool := false,
    tlu: bool := false, tlf: bool := false)

  datatype Kind =
    KUp | KDown | KOpen | KClose | TOplus | TOminus | RCRplus | RCRminus
  | RCA | RCN | RTR | RTA | RUC | RXJplus | RXJminus

  // One cell of the table; `Void` is an event that cannot occur in a state.
  datatype Cell = Void | Go(ops: Ops, next: State)

  // The table of section 4.1 of RFC 1661, read for the options it leaves open as
  // "no restart, no passive, no crossed connection".
  function Rfc1661(k: Kind, s: State): Cell {
    match k
    case KUp => if s == Initial then Go(Ops(), Closed)
        else if s == Starting then Go(Ops(irc := true, scr := true), ReqSent) else Void
    case KDown => (
      match s
      case Initial | Starting => Void
      case Closed | Closing => Go(Ops(), Initial)
      case Stopped => Go(Ops(tls := true), Starting)
      case Opened => Go(Ops(tld := true), Starting)
      case Stopping | ReqSent | AckRcvd | AckSent => Go(Ops(), Starting))
    case KOpen => (
      match s
      case Initial => Go(Ops(tls := true), Starting)
      case Closed => Go(Ops(irc := true, scr := true), ReqSent)
      case Closing => Go(Ops(), Stopping)
      case _ => Go(Ops(), s))
    case KClose => (
      match s
      case Initial | Closed | Closing => Go(Ops(), s)
      case Starting => Go(Ops(tlf := true), Initial)
      case Stopped => Go(Ops(), Closed)
      case Stopping => Go(Ops(), Closing)
      case Opened => Go(Ops(tld := true, irc := true, str := true), Closing)
      case ReqSent | AckRcvd | AckSent => Go(Ops(irc := true, str := true), Closing))
    case TOplus => (
      match s
      case Closing | Stopping => Go(Ops(str := true), s)
      case ReqSent | AckRcvd => Go(Ops(scr := true), ReqSent)
      case AckSent => Go(Ops(scr := true), AckSent)
      case _ => Void)
    case TOminus => (
      match s
      case Closing => Go(Ops(tlf := true), Closed)
      case Stopping | ReqSent | AckRcvd | AckSent => Go(Ops(tlf := true), Stopped)
      case _ => Void)
    case RCRplus => (
      match s
      case Initial | Starting => Void
      case Closed => Go(Ops(sta := true), s)
      case Stopped => Go(Ops(irc := true, scr := true, sca := true), AckSent)
      case Closing | Stopping => Go(Ops(), s)
      case ReqSent | AckSent => Go(Ops(sca := true), AckSent)
      case AckRcvd => Go(Ops(sca := true, tlu := true), Opened)
      case Opened => Go(Ops(tld := true, scr := true, sca := true), AckSent))
    case RCRminus => (
      match s
      case Initial | Starting => Void
      case Closed => Go(Ops(sta := true), s)
      case Stopped => Go(Ops(irc := true, scr := true, scn := true), ReqSent)
      case Closing | Stopping => Go(Ops(), s)
      case ReqSent | AckSent => Go(Ops(scn := true), ReqSent)
      case AckRcvd => Go(Ops(scn := true), AckRcvd)
      case Opened => Go(Ops(tld := true, scr := true, scn := true), ReqSent))
    case RCA => (
      match s
      case Initial | Starting => Void
      case Closed | Stopped => Go(Ops(sta := true), s)
      case Closing | Stopping => Go(Ops(), s)
      case ReqSent => Go(Ops(irc := true), AckRcvd)
      case AckRcvd => Go(Ops(scr := true), ReqSent)
      case AckSent => Go(Ops(irc := true, tlu := true), Opened)
      case Opened => Go(Ops(tld := true, scr := true), ReqSent))
    case RCN => (
      match s
      case Initial | Starting => Void
      case Closed | Stopped => Go(Ops(sta := true), s)
      case Closing | Stopping => Go(Ops(), s)
      case ReqSent | AckSent => Go(Ops(irc := true, scr := true), s)
      case AckRcvd => Go(Ops(scr := true), ReqSent)
      case Opened => Go(Ops(tld := true, scr := true), ReqSent))
    case RTR => (
      match s
      case Initial | Starting => Void
      case Closed | Stopped | Closing | Stopping | ReqSent => Go(Ops(sta := true), s)
      case AckRcvd | AckSent => Go(Ops(sta := true), ReqSent)
      case Opened => Go(Ops(tld := true, zrc := true, sta := true), Stopping))
    case RTA => (
      match s
      case Initial | Starting => Void
      case Closing => Go(Ops(tlf := true), Closed)
      case Stopping => Go(Ops(tlf := true), Stopped)
      case AckRcvd => Go(Ops(), ReqSent)
      case Opened => Go(Ops(tld := true, scr := true), ReqSent)
      case _ => Go(Ops(), s))
    case RUC => if s in {Initial, Starting} then Void else Go(Ops(scj := true), s)
    case RXJplus => (
      match s
      case Initial | Starting => Void
      case AckRcvd => Go(Ops(), ReqSent)
      case _ => Go(Ops(), s))
    case RXJminus => (
      match s
      case Initial | Starting => Void
      case Closed | Closing => Go(Ops(tlf := true), Closed)
      case Opened => Go(Ops(tld := true, irc := true, str := true), Stopping)
      case _ => Go(Ops(tlf := true), Stopped))
  }

  // fsm_lowerup: a silent end waits for its peer to speak first.
  function UpCell(f: View, s: State): Cell {
    if s == Starting && f.cfg.silent then Go(Ops(), Stopped) else Rfc1661(KUp, s)
  }

  // What fsm.c does, cell by cell: RFC 1661 except where a case says otherwise.
  function Code(f: View, k: Kind, ret: int): Cell {
    match k
    case KUp => UpCell(f, f.state)
    case KOpen =>
      if f.state == Closed && f.cfg.silent then Go(Ops(), Stopped)
      else if f.cfg.restart && f.state in {Closing, Stopped, Opened} then
        // A second Open is a Down followed by an Up; Stopping is left out here.
        var down := Rfc1661(KDown, if f.state == Closing then Stopping else f.state);
        var up := UpCell(f, down.next);
        Go(up.ops.(tld := down.ops.tld, tls := down.ops.tls), up.next)
      else Rfc1661(k, f.state)
    case KClose =>
      if f.state == Starting then Go(Ops(), Initial) else NoTerm(f, Rfc1661(k, f.state), Closed)
    case TOminus =>
      if Negotiating(f.state) && f.cfg.passive then Go(Ops(), Stopped) else Rfc1661(k, f.state)
    case RCRplus | RCRminus | RTA => Anew(Rfc1661(k, f.state), f.state == Opened)
    case RCA => Anew(Rfc1661(k, f.state), f.state in {AckRcvd, Opened})
    case RCN =>
      if f.state in {ReqSent, AckSent} && ret < 0 then Go(Ops(), Stopped)
      else Anew(Rfc1661(k, f.state), f.state in {AckRcvd, Opened})
    case RXJminus => NoTerm(f, Rfc1661(k, f.state), Stopped)
    case _ => Rfc1661(k, f.state)
  }

  // Every request but a repeated one restarts the counter.
  function Anew(c: Cell, anew: bool): Cell { if c.Go? && anew then Go(c.ops.(irc := true), c.next) else c }

  // With no Terminate-Requests allowed, one is sent all the same and the end is immediate.
  function NoTerm(f: View, c: Cell, end: State): Cell {
    if c.Go? && c.ops.str && f.cfg.maxTerm == 0 then Go(c.ops.(tlf := true), end) else c
  }

  function Bump(id: byte): byte { (id + 1) % 0x100 }

  // Nothing longer than the peer's receive unit is sent.
  function Clip(data: seq<byte>, mru: int): seq<byte>
    requires mru >= HEADERLEN
  {
    if |data| > mru - HEADERLEN then data[..mru - HEADERLEN] else data
  }

  function Append(out: Log, b: bool, a: Action): Log { if b then Said(out, a) else out }

  // A new request, or a Terminate-Request, gets a new identifier; a request sent
  // again on a timeout keeps the old one.
  predicate Renews(o: Ops) { o.str || (o.irc && o.scr) }

  function Bumped(f: View, o: Ops): byte { if Renews(o) || o.scj then Bump(f.id) else f.id }

  // A request sent from outside the negotiation starts it from scratch.
  predicate Resets(f: View, o: Ops) { o.scr && !Negotiating(f.state) }

  function Counter(f: View, o: Ops): int {
    if o.zrc then 0 else if o.irc then (if o.str then f.cfg.maxTerm else f.cfg.maxConf) else f.retransmits
  }

  // The variables after one cell.
  function Move(f: View, c: Cell, now: Instant): View {
    if c.Void? then f
    else
      var o := c.ops;
      f.(state := c.next,
         id := Bumped(f, o),
         reqid := if Renews(o) then Bump(f.id) else f.reqid,
         seenAck := f.seenAck && !o.scr,
         retransmits := if o.scr || (o.str && Counter(f, o) != 0) then Counter(f, o) - 1 else Counter(f, o),
         nakloops := if Resets(f, o) then 0 else f.nakloops,
         rnakloops := if Resets(f, o) then 0 else f.rnakloops,
         timers := if !Timed(c.next) then []
                   else if o.scr || o.str || o.zrc then [Deadline(now, f.cfg.timeouttime, 0)]
                   else f.timers)
  }

  // What it says, after `out` was said before; `reply` is the packet that a Sca,
  // Scn, Sta or Scj sends back.
  function Says(out: Log, f: View, c: Cell, options: seq<byte>, reply: Action): Log
    requires f.cfg.mru >= HEADERLEN
  {
    if c.Void? then out
    else SaysLast(Request(SaysFirst(out, c.ops), f, c.ops, options), f, c.ops, reply)
  }

  function SaysFirst(out: Log, o: Ops): Log {
    Append(Append(out, o.tld, Down), o.tls, StartLower)
  }

  function SaysLast(out: Log, f: View, o: Ops, reply: Action): Log
    requires f.cfg.mru >= HEADERLEN
  {
    var out := Append(out, o.str, Send(TERMREQ, Bump(f.id), Clip(f.reason, f.cfg.mru)));
    var out := Append(out, o.sca || o.scn || o.sta || o.scj, reply);
    Append(Append(out, o.tlu, Up), o.tlf, Finish)
  }

  function Request(out: Log, f: View, o: Ops, options: seq<byte>): Log
    requires f.cfg.mru >= HEADERLEN
  {
    if !o.scr then out
    else
      var out := Append(out, Resets(f, o), ResetOptions);
      var out := Append(out, !o.irc, Retransmit);
      Said(out, Send(CONFREQ, if Renews(o) then Bump(f.id) else f.reqid, Clip(options, f.cfg.mru)))
  }

  // Acks, Naks and Rejects count only for the request outstanding.
  predicate Expected(f: View, id: byte) { id == f.reqid && !f.seenAck }

  predicate Listening(f: View) { f.state !in {Initial, Starting} }

  // What a handler decides before it looks at the state: toss the packet, or
  // carry out the cell for one kind of event, with `reply` for what is sent back.
  datatype Task = Toss(f: View) | Do(f: View, kind: Kind, ret: int, reply: Action)

  function Dispatch(f: View, ev: Event): Task
    requires f.cfg.mru >= HEADERLEN
  {
    match ev
    case LowerUp => Do(f, KUp, 0, Up)
    case LowerDown => Do(f, KDown, 0, Up)
    case Open => Do(f, KOpen, 0, Up)
    case Close(reason) => Do(f.(reason := reason), KClose, 0, Up)
    case Expire => Do(f, if f.retransmits <= 0 then TOminus else TOplus, 0, Up)
    case ProtReject => Do(f, RXJminus, 0, Up)
    case ConfReq(id, verdict, reply) =>
      Do(f, if verdict == Ack then RCRplus else RCRminus, 0,
         if f.state == Closed then Send(TERMACK, id, []) else Send(VerdictCode(verdict), id, Clip(reply, f.cfg.mru)))
    case ConfAck(id, good) =>
      if !Listening(f) || !Expected(f, id) || !good then Toss(f)
      else Do(f.(seenAck := true, rnakloops := 0), RCA, 0, Send(TERMACK, id, []))
    case ConfNakRej(id, nak, ret) =>
      if !Listening(f) || !Expected(f, id) then Toss(f)
      else
        var g := f.(rnakloops := if nak then f.rnakloops + 1 else 0);
        if ret == 0 then Toss(g) else Do(g.(seenAck := true), RCN, ret, Send(TERMACK, id, []))
    case TermReq(id) => Do(f, RTR, 0, Send(TERMACK, id, []))
    case TermAck => Do(f, RTA, 0, Up)
    case CodeRej(len) => if len < HEADERLEN then Toss(f) else Do(f, RXJplus, 0, Up)
    case Other(packet, handled) =>
      if handled then Toss(f) else Do(f, RUC, 0, Send(CODEREJ, Bump(f.id), Clip(packet, f.cfg.mru)))
  }

  // Naks sent since the last Ack.
  function CountNaks(f: View, ev: Event, c: Cell): View {
    if ev.ConfReq? && (CellOps(c).sca || CellOps(c).scn) then
      match ev.verdict
      case Ack => f.(nakloops := 0)
      case Nak => f.(nakloops := f.nakloops + 1)
      case Rej => f
    else f
  }

  function Next(f: View, ev: Event, e: Env): View
    requires f.cfg.mru >= HEADERLEN
  {
    match Dispatch(f, ev)
    case Toss(g) => g
    case Do(g, k, ret, reply) => CountNaks(Move(g, Code(g, k, ret), e.now), ev, Code(g, k, ret))
  }

  function Output(out: Log, f: View, ev: Event, e: Env): Log
    requires f.cfg.mru >= HEADERLEN
  {
    match Dispatch(f, ev)
    case Toss(g) => out
    case Do(g, k, ret, reply) => Says(out, g, Code(g, k, ret), e.options, reply)
  }

  function CellOps(c: Cell): Ops { if c.Go? then c.ops else Ops() }

  // What the protocol's own callbacks answer while one packet is handled.
  datatype Answers = Answers(verdict: Verdict, reply: seq<byte>, ackGood: bool, ret: int, handled: bool)

  datatype Decoded = Dropped | Packet(ev: Event)

  // fsm_input: code, identifier, length, and the data the length covers.
  function Decode(p: seq<byte>, a: Answers): Decoded {
    if |p| < HEADERLEN then Dropped
    else
      var id, len := p[1], Short(p[2], p[3]);
      if len < HEADERLEN || len > |p| then Dropped
      else if p[0] == CONFREQ then Packet(ConfReq(id, a.verdict, a.reply))
      else if p[0] == CONFACK then Packet(ConfAck(id, a.ackGood))
      else if p[0] == CONFNAK then Packet(ConfNakRej(id, true, a.ret))
      else if p[0] == CONFREJ then Packet(ConfNakRej(id, false, a.ret))
      else if p[0] == TERMREQ then Packet(TermReq(id))
      else if p[0] == TERMACK then Packet(TermAck)
      else if p[0] == CODEREJ then Packet(CodeRej(len - HEADERLEN))
      else Packet(Other(p[..len], a.handled))
  }
}
