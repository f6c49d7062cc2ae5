// Two LCP endpoints, each an automaton of FsmTable with the option callbacks of
// lcp.c, joined by two queues that keep order and may lose packets.

module LcpLink {
  import opened Bytes
  import opened Callouts
  import opened FsmTable
  import opened LcpOptions
  import opened OptionFilter
  import opened LcpJudge
  import opened LcpHeard
  import FsmRuns

  // A packet under way.  `serial` and `opts` are its history, which nobody reads:
  // how many identifiers the requester had used when it sent the request this
  // packet is or answers, and the options behind the request.
  datatype Msg = Msg(code: byte, id: byte, data: seq<byte>, serial: nat, opts: Options)

  // `ids` counts the identifiers used, `current` is the one in reqid, and `asked`
  // and `askedOpts` tell of the last Configure-Request sent.  `heard` and
  // `heardOpts` tell of the last request of the peer that reqci has judged.
  datatype Side = Side(f: View, go: Options, ho: Options,
                       ids: nat, current: nat, asked: nat, askedOpts: Options,
                       heard: nat, heardOpts: Options)

  // All that is not decided by the two automata: the clock, the options after
  // resetci, those nakci or rejci would try next and what they return, what
  // extcode returns, what we allow just now, and magic().
  datatype Chance = Chance(now: Instant, initial: Options, tried: Options, ret: int, handled: bool,
                           ao: Options, multilink: bool, magic: nat -> u32)

  // What was said, as packets.
  function Packets(out: Log, mine: nat, opts: Options, theirs: nat): seq<Msg> {
    match out
    case Silence => []
    case Said(before, a) =>
      Packets(before, mine, opts, theirs)
      + if a.Send? then [Msg(a.code, a.id, a.data, if a.code == CONFREQ then mine else theirs, opts)] else []
  }

  // The options after the callbacks have run: resetci wherever a request starts a
  // negotiation, and whatever an accepted Nak or Reject makes us try.
  function GoAfter(s: Side, g: View, k: Kind, c: Cell, z: Chance): Options {
    if Resets(g, CellOps(c)) then z.initial else if k == RCN && g.state != Opened then z.tried else s.go
  }

  // One side carries out a cell.
  function Obey(s: Side, g: View, k: Kind, c: Cell, reply: Action, ev: Event, z: Chance, theirs: nat): (Side,
      seq<Msg>)
    requires g.cfg.mru >= HEADERLEN
  {
    var o := CellOps(c);
    var go := GoAfter(s, g, k, c, z);
    var ids := if Renews(o) || o.scj then s.ids + 1 else s.ids;
    var current := if Renews(o) then ids else s.current;
    (s.(f := CountNaks(FsmTable.Move(g, c, z.now), ev, c), go := go, ids := ids, current := current,
        asked := if o.scr then current else s.asked,
        askedOpts := if o.scr then go else s.askedOpts),
     Packets(Says(Silence, g, c, RequestOf(go), reply), current, go, theirs))
  }

  // One side handles one event; `theirs` is the serial of the packet it answers.
  function Handle(s: Side, ev: Event, z: Chance, theirs: nat): (Side, seq<Msg>)
    requires s.f.cfg.mru >= HEADERLEN
  {
    match Dispatch(s.f, ev)
    case Toss(g) => (s.(f := g), [])
    case Do(g, k, ret, reply) => Obey(s, g, k, Code(g, k, ret), reply, ev, z, theirs)
  }

  // That is the automaton's own step, with the request written from the options
  // as the callbacks leave them.
  lemma HandleIsNext(s: Side, ev: Event, z: Chance, theirs: nat)
    requires s.f.cfg.mru >= HEADERLEN
    ensures var (s', out) := Handle(s, ev, z, theirs);
            var e := Env(z.now, RequestOf(s'.go));
            && s'.f == Next(s.f, ev, e)
            && out == Packets(Output(Silence, s.f, ev, e), s'.current, s'.go, theirs)
  {
  }

  // reqci is called unless the automaton is down, closed or closing.
  predicate Heeds(f: View) { f.state in {Stopped, ReqSent, AckRcvd, AckSent, Opened} }

  // The answer reqci gives, and what it records.  From Stopped and Opened it sees
  // the options a new negotiation starts with, and no Naks yet.
  function JudgeOf(s: Side, z: Chance): (Options, seq<byte>, nat) -> Judgement<Options> {
    var renewed := !Negotiating(s.f.state);
    Judges(Context(z.ao, if renewed then z.initial else s.go, z.multilink), z.magic,
           (if renewed then 0 else s.f.nakloops) >= s.f.cfg.maxNak)
  }

  function Receive(s: Side, m: Msg, z: Chance): (Side, seq<Msg>)
    requires s.f.cfg.mru >= HEADERLEN
  {
    if m.code == CONFREQ then
      if Heeds(s.f) then
        var rs := Rulings(JudgeOf(s, z), ZERO, m.data, 0);
        var (s', out) := Handle(s, ConfReq(m.id, Worst(rs), Reply(rs, m.data)), z, m.serial);
        (s'.(ho := Recorded(JudgeOf(s, z), ZERO, m.data, 0), heard := m.serial, heardOpts := m.opts), out)
      else Handle(s, ConfReq(m.id, Rej, []), z, m.serial)
    else if m.code == CONFACK then Handle(s, ConfAck(m.id, m.data == RequestOf(s.go)), z, 0)
    else if m.code == CONFNAK || m.code == CONFREJ then
      Handle(s, ConfNakRej(m.id, m.code == CONFNAK, z.ret), z, 0)
    else if m.code == TERMREQ then Handle(s, TermReq(m.id), z, 0)
    else if m.code == TERMACK then Handle(s, TermAck, z, 0)
    else if m.code == CODEREJ then Handle(s, CodeRej(|m.data|), z, 0)
    else Handle(s, Other([m.code, m.id] + PutShort((|m.data| + HEADERLEN) % 0x1_0000) + m.data, z.handled), z, 0)
  }

  datatype Link = Link(a: Side, b: Side, ab: seq<Msg>, ba: seq<Msg>)

  function Flip(l: Link): Link { Link(l.b, l.a, l.ba, l.ab) }

  // What side a, or the queue towards it, may do next.  An Ack is delivered while
  // a has used fewer than 256 identifiers since the request it answers.
  datatype Step =
    Local(ev: Event, z: Chance)
  | Deliver(z: Chance)
  | Lose(i: nat)
  | Configure(cfg: Config)
  | SendProtRej(data: seq<byte>)

  predicate Possible(l: Link, st: Step) {
    match st
    case Local(ev, _) =>
      (ev.LowerUp? || ev.LowerDown? || ev.Open? || ev.Close? || ev.Expire? || ev.ProtReject?)
      && FsmRuns.Enabled(l.a.f, ev)
    case Deliver(_) => l.ba != [] && (l.ba[0].code == CONFACK ==> l.a.ids < l.ba[0].serial + 0x100)
    case Lose(i) => i < |l.ba|
    case Configure(cfg) => cfg.mru >= MINMRU
    case SendProtRej(_) => true
  }

  const PROTREJ: byte := 8

  function Taken(l: Link, st: Step): Link
    requires l.a.f.cfg.mru >= HEADERLEN && Possible(l, st)
  {
    match st
    case Local(ev, z) => var (a, out) := Handle(l.a, ev, z, 0); l.(a := a, ab := l.ab + out)
    case Deliver(z) => var (a, out) := Receive(l.a, l.ba[0], z); l.(a := a, ab := l.ab + out, ba := l.ba[1..])
    case Lose(i) => l.(ba := l.ba[..i] + l.ba[i+1..])
    case Configure(cfg) => l.(a := l.a.(f := l.a.f.(cfg := cfg)), ab := l.ab + [])
    case SendProtRej(data) =>
      var a := l.a.(f := l.a.f.(id := Bump(l.a.f.id)), ids := l.a.ids + 1);
      l.(a := a, ab := l.ab + [Msg(PROTREJ, a.f.id, data, 0, ZERO)])
  }

  predicate Busy(s: State) { Negotiating(s) || s == Opened }

  ghost predicate Own(s: Side) {
    && FsmRuns.Inv(s.f) && s.f.cfg.mru >= MINMRU
    && s.f.id == s.ids % 0x100 && s.f.reqid == s.current % 0x100
    && s.asked <= s.current <= s.ids
    && (Busy(s.f.state) ==> s.asked == s.current && s.go == s.askedOpts)
  }

  // A request of a on its way to b.
  ghost predicate Underway(m: Msg, a: Side, b: Side) {
    && b.heard <= m.serial <= a.asked
    && m.id == m.serial % 0x100
    && m.data == RequestOf(m.opts)
    && (m.serial == a.asked ==> m.opts == a.askedOpts)
  }

  // What b knows of a's requests, and a of b's answers: q leads to b, r back to a.
  ghost predicate Half(a: Side, b: Side, q: seq<Msg>, r: seq<Msg>) {
    && b.heard <= a.asked && (b.heard == a.asked ==> b.heardOpts == a.askedOpts)
    && (forall i :: 0 <= i < |q| && q[i].code == CONFREQ ==> Underway(q[i], a, b))
    && (forall i, j ::
          0 <= i < j < |q| && q[i].code == CONFREQ && q[j].code == CONFREQ ==> q[i].serial <= q[j].serial)
    && (forall i :: 0 <= i < |r| && r[i].code == CONFACK ==> r[i].serial <= b.heard && r[i].id == r[i].serial % 0x100)
    && (a.f.state in {AckRcvd, Opened} ==> b.heard >= a.current)
    && (b.f.state in {AckSent, Opened} ==> b.ho == Heard(b.heardOpts))
  }

  ghost predicate Agreeing(l: Link) {
    && Own(l.a) && Own(l.b)
    && Half(l.a, l.b, l.ab, l.ba) && Half(l.b, l.a, l.ba, l.ab)
  }

  // The point of it all.
  lemma OpenedMeansAgreed(l: Link)
    requires Agreeing(l) && l.a.f.state == Opened && l.b.f.state == Opened
    ensures l.b.ho == Heard(l.a.go) && l.a.ho == Heard(l.b.go)
  {
  }

  // The longest request is far below the smallest receive unit.
  lemma RequestsFit(go: Options, mru: int)
    requires mru >= MINMRU
    ensures Clip(RequestOf(go), mru) == RequestOf(go)
  {
    CiLenIsLength(go);
  }

  lemma PacketsOfCell(f: View, c: Cell, options: seq<byte>, reply: Action, mine: nat, opts: Options, theirs: nat)
    requires f.cfg.mru >= HEADERLEN && c.Go?
    requires c.ops.sca || c.ops.scn || c.ops.sta || c.ops.scj ==> reply.Send?
    ensures Packets(Says(Silence, f, c, options, reply), mine, opts, theirs)
            == (if c.ops.scr then
                  [Msg(CONFREQ, if Renews(c.ops) then Bump(f.id) else f.reqid, Clip(options, f.cfg.mru), mine, opts)]
                else [])
               + (if c.ops.str then [Msg(TERMREQ, Bump(f.id), Clip(f.reason, f.cfg.mru), theirs, opts)] else [])
               + (if c.ops.sca || c.ops.scn || c.ops.sta || c.ops.scj then
                    [Msg(reply.code, reply.id, reply.data, if reply.code == CONFREQ then mine else theirs, opts)]
                  else [])
  {
    var x := SaysFirst(Silence, c.ops);
    NoPacketsFirst(c.ops, mine, opts, theirs);
    PacketsOfRequest(x, f, c.ops, options, mine, opts, theirs);
    PacketsOfLast(Request(x, f, c.ops, options), f, c.ops, reply, mine, opts, theirs);
  }

  lemma NoPacketsFirst(o: Ops, mine: nat, opts: Options, theirs: nat)
    ensures Packets(SaysFirst(Silence, o), mine, opts, theirs) == []
  {
    assert Packets(Append(Silence, o.tld, Down), mine, opts, theirs) == [];
  }

  lemma PacketsOfRequest(x: Log, f: View, o: Ops, options: seq<byte>, mine: nat, opts: Options, theirs: nat)
    requires f.cfg.mru >= HEADERLEN
    ensures Packets(Request(x, f, o, options), mine, opts, theirs)
            == Packets(x, mine, opts, theirs)
               + if o.scr then [Msg(CONFREQ, if Renews(o) then Bump(f.id)
                   else f.reqid, Clip(options, f.cfg.mru), mine, opts)]
                 else []
  {
    if o.scr {
      var y := Append(x, Resets(f, o), ResetOptions);
      var z := Append(y, !o.irc, Retransmit);
      assert Packets(z, mine, opts, theirs) == Packets(y, mine, opts, theirs) == Packets(x, mine, opts, theirs);
    }
  }

  lemma PacketsOfLast(x: Log, f: View, o: Ops, reply: Action, mine: nat, opts: Options, theirs: nat)
    requires f.cfg.mru >= HEADERLEN
    requires o.sca || o.scn || o.sta || o.scj ==> reply.Send?
    ensures Packets(SaysLast(x, f, o, reply), mine, opts, theirs)
            == Packets(x, mine, opts, theirs)
               + (if o.str then [Msg(TERMREQ, Bump(f.id), Clip(f.reason, f.cfg.mru), theirs, opts)] else [])
               + (if o.sca || o.scn || o.sta || o.scj then
                    [Msg(reply.code, reply.id, reply.data, if reply.code == CONFREQ then mine else theirs, opts)]
                  else [])
  {
    var y := Append(x, o.str, Send(TERMREQ, Bump(f.id), Clip(f.reason, f.cfg.mru)));
    var z := Append(y, o.sca || o.scn || o.sta || o.scj, reply);
    var u := Append(z, o.tlu, Up);
    assert Packets(u, mine, opts, theirs) == Packets(z, mine, opts, theirs);
    assert Packets(Append(u, o.tlf, Finish), mine, opts, theirs) == Packets(u, mine, opts, theirs);
  }

  // What the table says about requests and answers.
  predicate LinkCell(f: View, k: Kind, c: Cell) {
    if c.Void? then k == RCN ==> !Busy(f.state)
    else
      && (c.next in {AckRcvd, Opened} ==> !Renews(c.ops) && !c.ops.scr && (k == RCA || f.state in {AckRcvd, Opened}))
      && (c.next in {AckSent, Opened} ==> k == RCRplus || (k != RCRminus && f.state in {AckSent, Opened}))
      && (Busy(c.next) && !c.ops.scr ==> Busy(f.state) && !Renews(c.ops) && k != RCN)
      && (c.ops.scr && !Renews(c.ops) ==> Negotiating(f.state) && k == TOplus)
      && (c.ops.sca ==> k == RCRplus && f.state != Closed) && (c.ops.scn ==> k == RCRminus)
      && (c.ops.scj ==> k == RUC)
      && (c.ops.sta ==> k in {RCRplus, RCRminus, RCA, RCN, RTR})
      && (c.ops.sta && k in {RCRplus, RCRminus} ==> f.state == Closed)
      && !(c.ops.str && c.ops.scr)
      && (Timed(c.next) ==> FsmRuns.Rearms(c) || Timed(f.state))
  }

  lemma CellsLink(f: View, k: Kind, ret: int)
    requires k in {RCA, RCN} ==> f.state !in {AckRcvd, Opened}
    ensures LinkCell(f, k, Code(f, k, ret))
  {
    if f.state in {Initial, Starting, Closed, Stopped, Closing} {
      EarlyCellsLink(f, k, ret);
    } else {
      LateCellsLink(f, k, ret);
    }
  }

  lemma EarlyCellsLink(f: View, k: Kind, ret: int)
    requires f.state in {Initial, Starting, Closed, Stopped, Closing}
    ensures LinkCell(f, k, Code(f, k, ret))
  {
    if f.state in {Stopped, Closing} {
      EndingCellsLink(f, k, ret);
    }
  }

  lemma EndingCellsLink(f: View, k: Kind, ret: int)
    requires f.state in {Stopped, Closing}
    ensures LinkCell(f, k, Code(f, k, ret))
  {
  }

  lemma LateCellsLink(f: View, k: Kind, ret: int)
    requires f.state !in {Initial, Starting, Closed, Stopped, Closing}
    requires k in {RCA, RCN} ==> f.state !in {AckRcvd, Opened}
    ensures LinkCell(f, k, Code(f, k, ret))
  {
    if Negotiating(f.state) {
      NegotiatingCellsLink(f, k, ret);
    }
  }

  lemma NegotiatingCellsLink(f: View, k: Kind, ret: int)
    requires Negotiating(f.state)
    requires k in {RCA, RCN} ==> f.state != AckRcvd
    ensures LinkCell(f, k, Code(f, k, ret))
  {
  }

  // The view a handler works on differs from the side's in what the gate noted.
  predicate Gated(s: Side, g: View) {
    g == s.f.(reason := g.reason, seenAck := g.seenAck, rnakloops := g.rnakloops)
  }

  lemma ObeyKeepsInv(s: Side, g: View, k: Kind, c: Cell, reply: Action, ev: Event, z: Chance, theirs: nat)
    requires Own(s) && Gated(s, g) && LinkCell(g, k, c)
    requires g.state in {AckRcvd, Opened} || k == RCA ==> g.seenAck
    ensures var f := Obey(s, g, k, c, reply, ev, z, theirs).0.f; FsmRuns.Inv(f) && f.cfg == s.f.cfg
  {
    if c.Go? {
      FsmRuns.MoveKeepsInv(g, c, z.now);
    }
  }

  lemma ObeyCounts(s: Side, g: View, k: Kind, c: Cell, reply: Action, ev: Event, z: Chance, theirs: nat)
    requires Own(s) && Gated(s, g) && LinkCell(g, k, c)
    ensures var s' := Obey(s, g, k, c, reply, ev, z, theirs).0;
            && s'.f.id == s'.ids % 0x100 && s'.f.reqid == s'.current % 0x100
            && s'.asked <= s'.current <= s'.ids
            && s.asked <= s'.asked && s.ids <= s'.ids
  {
    BumpCounts(s.f.id, s.ids);
    ObeyIdentifiers(s, g, c, reply, k, ev, z, theirs);
  }

  lemma BumpCounts(id: byte, n: nat)
    requires id == n % 0x100
    ensures Bump(id) == (n + 1) % 0x100
  {
  }

  lemma ObeyIdentifiers(s: Side, g: View, c: Cell, reply: Action, k: Kind, ev: Event, z: Chance, theirs: nat)
    requires g.cfg.mru >= HEADERLEN && g.id == s.f.id && g.reqid == s.f.reqid
    ensures var s' := Obey(s, g, k, c, reply, ev, z, theirs).0;
            && (s'.f.id, s'.ids) in {(s.f.id, s.ids), (Bump(s.f.id), s.ids + 1)}
            && (s'.f.reqid, s'.current) in {(s.f.reqid, s.current), (Bump(s.f.id), s.ids + 1)}
  {
  }

  lemma ObeyOptions(s: Side, g: View, k: Kind, c: Cell, reply: Action, ev: Event, z: Chance, theirs: nat)
    requires Own(s) && Gated(s, g) && LinkCell(g, k, c)
    ensures var s' := Obey(s, g, k, c, reply, ev, z, theirs).0;
            && (Busy(s'.f.state) ==> s'.asked == s'.current && s'.go == s'.askedOpts)
            && (s'.asked == s.asked ==> s'.askedOpts == s.askedOpts)
            && s'.heard == s.heard && s'.heardOpts == s.heardOpts && s'.ho == s.ho
  {
  }

  lemma ObeyKeepsOwn(s: Side, g: View, k: Kind, c: Cell, reply: Action, ev: Event, z: Chance, theirs: nat)
    requires Own(s) && Gated(s, g) && LinkCell(g, k, c)
    requires g.state in {AckRcvd, Opened} || k == RCA ==> g.seenAck
    ensures var s' := Obey(s, g, k, c, reply, ev, z, theirs).0;
            && Own(s')
            && s.asked <= s'.asked && s.ids <= s'.ids
            && (s'.asked == s.asked ==> s'.askedOpts == s.askedOpts)
            && s'.heard == s.heard && s'.heardOpts == s.heardOpts && s'.ho == s.ho
  {
    ObeyKeepsInv(s, g, k, c, reply, ev, z, theirs);
    ObeyCounts(s, g, k, c, reply, ev, z, theirs);
    ObeyOptions(s, g, k, c, reply, ev, z, theirs);
  }

  // The bookkeeping of one event.
  lemma HandleKeepsOwn(s: Side, ev: Event, z: Chance, theirs: nat)
    requires Own(s)
    ensures var s' := Handle(s, ev, z, theirs).0;
            && Own(s')
            && s.asked <= s'.asked && s.ids <= s'.ids
            && (s'.asked == s.asked ==> s'.askedOpts == s.askedOpts)
            && s'.heard == s.heard && s'.heardOpts == s.heardOpts && s'.ho == s.ho
  {
    FsmRuns.DispatchFits(s.f, ev);
    match Dispatch(s.f, ev)
    case Toss(g) =>
    case Do(g, k, ret, reply) =>
      CellsLink(g, k, ret);
      ObeyKeepsOwn(s, g, k, Code(g, k, ret), reply, ev, z, theirs);
  }

  // Which events carry which kind.
  lemma KindsOfEvents(f: View, ev: Event)
    requires FsmRuns.Inv(f)
    ensures var t := Dispatch(f, ev);
            t.Do? ==>
              && (t.kind == RCA ==> ev.ConfAck? && ev.good && ev.id == f.reqid)
              && (t.kind == RCRplus <==> ev.ConfReq? && ev.verdict == Ack)
              && (t.kind == RCRminus <==> ev.ConfReq? && ev.verdict != Ack)
              && (t.kind == RCRplus && f.state != Closed ==>
                    t.reply.Send? && t.reply.code == CONFACK && t.reply.id == ev.id)
              && (t.reply.Send? ==> t.reply.code != CONFREQ)
              && (t.reply.Send? && t.reply.code == CONFACK ==> t.kind == RCRplus)
              && (t.kind in {RCRplus, RCRminus, RCA, RCN, RTR, RUC} ==> t.reply.Send?)
  {
  }

  // Who is in AckRcvd or Opened has had an Ack, and who is in AckSent or Opened
  // has sent one.
  ghost predicate StatesFit(s: Side, s': Side, ev: Event) {
    && (s'.f.state in {AckRcvd, Opened} ==>
          && s'.current == s.current
          && (s.f.state in {AckRcvd, Opened} || (ev.ConfAck? && ev.good && ev.id == s.f.reqid)))
    && (s'.f.state in {AckSent, Opened} ==>
          (ev.ConfReq? && ev.verdict == Ack)
              || (s.f.state in {AckSent, Opened} && !(ev.ConfReq? && Heeds(s.f))))
  }

  lemma HandleStates(s: Side, ev: Event, z: Chance, theirs: nat)
    requires Own(s)
    ensures StatesFit(s, Handle(s, ev, z, theirs).0, ev)
  {
    FsmRuns.DispatchFits(s.f, ev);
    KindsOfEvents(s.f, ev);
    match Dispatch(s.f, ev)
    case Toss(g) =>
    case Do(g, k, ret, reply) =>
      CellsLink(g, k, ret);
      ObeyFits(s, g, k, Code(g, k, ret), reply, ev, z, theirs);
  }

  lemma ObeyFits(s: Side, g: View, k: Kind, c: Cell, reply: Action, ev: Event, z: Chance, theirs: nat)
    requires Own(s) && Gated(s, g) && LinkCell(g, k, c)
    requires k == RCA ==> ev.ConfAck? && ev.good && ev.id == s.f.reqid
    requires k == RCRplus <==> ev.ConfReq? && ev.verdict == Ack
    requires k == RCRminus <==> ev.ConfReq? && ev.verdict != Ack
    requires c.Void? ==> !(ev.ConfReq? && Heeds(s.f))
    ensures StatesFit(s, Obey(s, g, k, c, reply, ev, z, theirs).0, ev)
  {
    ObeyStates(s, g, k, c, reply, ev, z, theirs);
  }

  lemma ObeyStates(s: Side, g: View, k: Kind, c: Cell, reply: Action, ev: Event, z: Chance, theirs: nat)
    requires Own(s) && Gated(s, g) && LinkCell(g, k, c)
    ensures var s' := Obey(s, g, k, c, reply, ev, z, theirs).0;
            && (s'.f.state in {AckRcvd, Opened} ==>
                  s'.current == s.current && (k == RCA || s.f.state in {AckRcvd, Opened}))
            && (s'.f.state in {AckSent, Opened} && c.Go? ==>
                  k == RCRplus || (k != RCRminus && s.f.state in {AckSent, Opened}))
            && (c.Void? ==> s'.f.state == s.f.state)
  {
  }

  // The packets of one event: a request tells the truth about itself, and an Ack
  // answers the request just judged.
  predicate Truthful(m: Msg, s': Side, ev: Event, theirs: nat) {
    && (m.code == CONFREQ ==>
          m.serial == s'.asked && m.id == m.serial % 0x100 && m.opts == s'.askedOpts && m.data == RequestOf(m.opts))
    && (m.code == CONFACK ==> ev.ConfReq? && ev.verdict == Ack && m.serial == theirs && m.id == ev.id)
  }

  lemma ObeyRequest(s: Side, g: View, k: Kind, c: Cell, reply: Action, ev: Event, z: Chance, theirs: nat)
    requires Own(s) && Gated(s, g) && LinkCell(g, k, c) && c.Go? && c.ops.scr
    ensures var s' := Obey(s, g, k, c, reply, ev, z, theirs).0;
            Truthful(Msg(CONFREQ, if Renews(c.ops) then Bump(g.id) else g.reqid, RequestOf(s'.go), s'.current, s'.go),
                     s', ev, theirs)
  {
    ObeyCounts(s, g, k, c, reply, ev, z, theirs);
  }

  lemma ObeyPackets(s: Side, g: View, k: Kind, c: Cell, reply: Action, ev: Event, z: Chance, theirs: nat)
    requires Own(s) && Gated(s, g) && LinkCell(g, k, c)
    requires k in {RCRplus, RCRminus, RCA, RCN, RTR, RUC} ==> reply.Send?
    requires reply.Send? ==> reply.code != CONFREQ
    requires reply.Send? && reply.code == CONFACK ==> ev.ConfReq? && ev.verdict == Ack && reply.id == ev.id
    ensures var (s', out) := Obey(s, g, k, c, reply, ev, z, theirs);
            forall m :: m in out ==> Truthful(m, s', ev, theirs)
  {
    if c.Go? {
      var s' := Obey(s, g, k, c, reply, ev, z, theirs).0;
      RequestsFit(s'.go, g.cfg.mru);
      if c.ops.scr {
        ObeyRequest(s, g, k, c, reply, ev, z, theirs);
      }
      PacketsOneOf(g, c, RequestOf(s'.go), reply, s'.current, s'.go, theirs);
    }
  }

  // Each packet of a cell is a request, a Terminate-Request, or the reply.
  lemma PacketsOneOf(f: View, c: Cell, options: seq<byte>, reply: Action, mine: nat, opts: Options, theirs: nat)
    requires f.cfg.mru >= HEADERLEN && c.Go? && Clip(options, f.cfg.mru) == options
    requires c.ops.sca || c.ops.scn || c.ops.sta || c.ops.scj ==> reply.Send?
    requires reply.Send? ==> reply.code != CONFREQ
    ensures forall m :: m in Packets(Says(Silence, f, c, options, reply), mine, opts, theirs) ==>
              || (c.ops.scr && m == Msg(CONFREQ, if Renews(c.ops) then Bump(f.id) else f.reqid, options, mine, opts))
              || m.code == TERMREQ
              || (reply.Send? && m == Msg(reply.code, reply.id, reply.data, theirs, opts))
  {
    PacketsOfCell(f, c, options, reply, mine, opts, theirs);
    var out := Packets(Says(Silence, f, c, options, reply), mine, opts, theirs);
    var req := Msg(CONFREQ, if Renews(c.ops) then Bump(f.id) else f.reqid, options, mine, opts);
    var term := Msg(TERMREQ, Bump(f.id), Clip(f.reason, f.cfg.mru), theirs, opts);
    var answers := c.ops.sca || c.ops.scn || c.ops.sta || c.ops.scj;
    var answer := if reply.Send? then Msg(reply.code, reply.id, reply.data, theirs, opts) else term;
    OneOfThree(out, c.ops.scr, req, c.ops.str, term, answers, answer);
  }

  lemma OneOfThree(out: seq<Msg>, a: bool, x: Msg, b: bool, y: Msg, c: bool, z: Msg)
    requires out == (if a then [x] else []) + (if b then [y] else []) + (if c then [z] else [])
    ensures forall m :: m in out ==> (a && m == x) || (b && m == y) || (c && m == z)
  {
  }

  lemma HandlePackets(s: Side, ev: Event, z: Chance, theirs: nat)
    requires Own(s)
    ensures var (s', out) := Handle(s, ev, z, theirs);
            forall m :: m in out ==> Truthful(m, s', ev, theirs)
  {
    FsmRuns.DispatchFits(s.f, ev);
    KindsOfEvents(s.f, ev);
    match Dispatch(s.f, ev)
    case Toss(g) =>
    case Do(g, k, ret, reply) =>
      CellsLink(g, k, ret);
      ObeyPackets(s, g, k, Code(g, k, ret), reply, ev, z, theirs);
  }

  // What one side's move means for the two halves of the invariant.  `r'` is what
  // is left of the queue towards it.
  ghost predicate Moves(a: Side, a': Side, out: seq<Msg>) {
    && a.asked <= a'.asked
    && (a'.asked == a.asked ==> a'.askedOpts == a.askedOpts)
    && (forall m :: m in out && m.code == CONFREQ ==>
          m.serial == a'.asked && m.id == m.serial % 0x100 && m.opts == a'.askedOpts && m.data == RequestOf(m.opts))
    && (forall m :: m in out && m.code == CONFACK ==> m.serial == a'.heard && m.id == m.serial % 0x100)
  }

  ghost predicate Within(r': seq<Msg>, r: seq<Msg>) {
    r' == r || (r != [] && r' == r[1..])
  }

  lemma MineKept(a: Side, b: Side, q: seq<Msg>, r: seq<Msg>, a': Side, out: seq<Msg>, r': seq<Msg>)
    requires Half(a, b, q, r) && Moves(a, a', out) && Within(r', r)
    requires a'.f.state in {AckRcvd, Opened} ==> b.heard >= a'.current
    ensures Half(a', b, q + out, r')
  {
    var q' := q + out;
    forall i | 0 <= i < |q'| && q'[i].code == CONFREQ ensures Underway(q'[i], a', b) {
      if i < |q| {
        assert Underway(q[i], a, b);
      } else {
        assert q'[i] in out;
      }
    }
    forall i, j | 0 <= i < j < |q'| && q'[i].code == CONFREQ && q'[j].code == CONFREQ
      ensures q'[i].serial <= q'[j].serial
    {
      if i < |q| { assert Underway(q[i], a, b); } else { assert q'[i] in out; }
      if j >= |q| { assert q'[j] in out; }
    }
  }

  lemma TheirsKept(a: Side, b: Side, q: seq<Msg>, r: seq<Msg>, a': Side, out: seq<Msg>, r': seq<Msg>)
    requires Half(b, a, r, q) && Moves(a, a', out) && Within(r', r)
    requires a.heard <= a'.heard <= b.asked
    requires a'.heard == b.asked ==> a'.heardOpts == b.askedOpts
    requires forall i :: 0 <= i < |r'| && r'[i].code == CONFREQ ==> a'.heard <= r'[i].serial
    requires a'.f.state in {AckSent, Opened} ==> a'.ho == Heard(a'.heardOpts)
    ensures Half(b, a', r', q + out)
  {
    var d := |r| - |r'|;
    assert forall i :: 0 <= i < |r'| ==> r'[i] == r[i + d];
    var q' := q + out;
    forall i | 0 <= i < |q'| && q'[i].code == CONFACK
      ensures q'[i].serial <= a'.heard && q'[i].id == q'[i].serial % 0x100
    {
      if i >= |q| { assert q'[i] in out; }
    }
    forall i | 0 <= i < |r'| && r'[i].code == CONFREQ ensures Underway(r'[i], b, a') {
      assert Underway(r[i + d], b, a);
    }
  }

  lemma HandleMoves(s: Side, ev: Event, z: Chance, theirs: nat)
    requires Own(s) && (ev.ConfReq? ==> ev.verdict == Rej)
    ensures var (s', out) := Handle(s, ev, z, theirs); Moves(s, s', out)
  {
    HandleKeepsOwn(s, ev, z, theirs);
    HandlePackets(s, ev, z, theirs);
  }

  // An event that is not a judged request leaves what was heard alone.
  lemma QuietEventAgrees(l: Link, ev: Event, z: Chance, r': seq<Msg>, theirs: nat)
    requires Agreeing(l) && Within(r', l.ba)
    requires ev.ConfReq? ==> ev.verdict == Rej && !Heeds(l.a.f)
    requires ev.ConfAck? && ev.good && Expected(l.a.f, ev.id) ==> l.b.heard >= l.a.current
    ensures var (a', out) := Handle(l.a, ev, z, theirs); Agreeing(Link(a', l.b, l.ab + out, r'))
  {
    var (a', out) := Handle(l.a, ev, z, theirs);
    HandleKeepsOwn(l.a, ev, z, theirs);
    HandleMoves(l.a, ev, z, theirs);
    HandleStates(l.a, ev, z, theirs);
    MineKept(l.a, l.b, l.ab, l.ba, a', out, r');
    var d := |l.ba| - |r'|;
    forall i | 0 <= i < |r'| && r'[i].code == CONFREQ ensures a'.heard <= r'[i].serial {
      assert r'[i] == l.ba[i + d] && Underway(l.ba[i + d], l.b, l.a);
    }
    TheirsKept(l.a, l.b, l.ab, l.ba, a', out, r');
  }

  // Identifiers are octets; fewer than 256 of them apart, they tell requests apart.
  lemma SameIdentifier(serial: nat, current: nat, ids: nat)
    requires serial <= current <= ids < serial + 0x100
    requires serial % 0x100 == current % 0x100
    ensures serial == current
  {
  }

  // A request judged: what it leaves behind on the side that heard it.
  lemma RequestTaken(s: Side, m: Msg, z: Chance) returns (a': Side, out: seq<Msg>)
    requires Own(s) && s.f.cfg.mru >= HEADERLEN && Heeds(s.f)
    requires m.code == CONFREQ && m.data == RequestOf(m.opts) && m.id == m.serial % 0x100
    ensures Receive(s, m, z) == (a', out) && Own(a') && Moves(s, a', out)
    ensures a'.heard == m.serial && a'.heardOpts == m.opts
    ensures a'.f.state in {AckRcvd, Opened} ==> s.f.state in {AckRcvd, Opened} && a'.current == s.current
    ensures a'.f.state in {AckSent, Opened} ==> a'.ho == Heard(m.opts)
  {
    var rs := Rulings(JudgeOf(s, z), ZERO, m.data, 0);
    var ev := ConfReq(m.id, Worst(rs), Reply(rs, m.data));
    var h;
    h, out := Handle(s, ev, z, m.serial).0, Handle(s, ev, z, m.serial).1;
    a' := h.(ho := Recorded(JudgeOf(s, z), ZERO, m.data, 0), heard := m.serial, heardOpts := m.opts);
    HandleKeepsOwn(s, ev, z, m.serial);
    HandlePackets(s, ev, z, m.serial);
    HandleStates(s, ev, z, m.serial);
    if Worst(rs) == Ack {
      RecordedIsHeard(s, m.opts, z);
    }
  }

  lemma FrontUnderway(a: Side, b: Side, q: seq<Msg>, r: seq<Msg>)
    requires Half(a, b, q, r) && q != [] && q[0].code == CONFREQ
    ensures Underway(q[0], a, b)
    ensures forall i :: 0 <= i < |q[1..]| && q[1..][i].code == CONFREQ ==> q[0].serial <= q[1..][i].serial
  {
  }

  lemma RequestAgrees(l: Link, z: Chance)
    requires Agreeing(l) && l.a.f.cfg.mru >= HEADERLEN && l.ba != [] && l.ba[0].code == CONFREQ && Heeds(l.a.f)
    ensures var (a', out) := Receive(l.a, l.ba[0], z); Agreeing(Link(a', l.b, l.ab + out, l.ba[1..]))
  {
    FrontUnderway(l.b, l.a, l.ba, l.ab);
    var a', out := RequestTaken(l.a, l.ba[0], z);
    MineKept(l.a, l.b, l.ab, l.ba, a', out, l.ba[1..]);
    TheirsKept(l.a, l.b, l.ab, l.ba, a', out, l.ba[1..]);
  }

  lemma RecordedIsHeard(s: Side, opts: Options, z: Chance)
    requires Worst(Rulings(JudgeOf(s, z), ZERO, RequestOf(opts), 0)) == Ack
    ensures Recorded(JudgeOf(s, z), ZERO, RequestOf(opts), 0) == Heard(opts)
  {
    var renewed := !Negotiating(s.f.state);
    AcknowledgedIsHeard(Context(z.ao, if renewed then z.initial else s.go, z.multilink), opts, z.magic,
                        (if renewed then 0 else s.f.nakloops) >= s.f.cfg.maxNak);
  }

  lemma DeliverAgrees(l: Link, z: Chance)
    requires Agreeing(l) && Possible(l, Deliver(z))
    ensures Agreeing(Taken(l, Deliver(z)))
  {
    var m := l.ba[0];
    if m.code == CONFREQ {
      if Heeds(l.a.f) {
        RequestAgrees(l, z);
      } else {
        QuietEventAgrees(l, ConfReq(m.id, Rej, []), z, l.ba[1..], m.serial);
      }
    } else if m.code == CONFACK {
      if m.id == l.a.f.reqid {
        SameIdentifier(m.serial, l.a.current, l.a.ids);
      }
      QuietEventAgrees(l, ConfAck(m.id, m.data == RequestOf(l.a.go)), z, l.ba[1..], 0);
    } else if m.code == CONFNAK || m.code == CONFREJ {
      QuietEventAgrees(l, ConfNakRej(m.id, m.code == CONFNAK, z.ret), z, l.ba[1..], 0);
    } else if m.code == TERMREQ {
      QuietEventAgrees(l, TermReq(m.id), z, l.ba[1..], 0);
    } else if m.code == TERMACK {
      QuietEventAgrees(l, TermAck, z, l.ba[1..], 0);
    } else if m.code == CODEREJ {
      QuietEventAgrees(l, CodeRej(|m.data|), z, l.ba[1..], 0);
    } else {
      QuietEventAgrees(l, Other([m.code, m.id] + PutShort((|m.data| + HEADERLEN) % 0x1_0000) + m.data, z.handled),
                       z, l.ba[1..], 0);
    }
  }

  lemma LossAgrees(a: Side, b: Side, q: seq<Msg>, r: seq<Msg>, i: nat)
    requires i < |r| && Half(a, b, q, r) && Half(b, a, r, q)
    ensures var r' := r[..i] + r[i+1..]; Half(a, b, q, r') && Half(b, a, r', q)
  {
    var r' := r[..i] + r[i+1..];
    assert forall k :: 0 <= k < |r'| ==> r'[k] == if k < i then r[k] else r[k+1];
  }

  lemma StillAgrees(l: Link, a': Side, out: seq<Msg>)
    requires Agreeing(l) && Own(a')
    requires a'.f.state == l.a.f.state
    requires a' == l.a.(f := a'.f, ids := a'.ids)
    requires forall m :: m in out ==> m.code == PROTREJ
    ensures Agreeing(Link(a', l.b, l.ab + out, l.ba))
  {
    MineKept(l.a, l.b, l.ab, l.ba, a', out, l.ba);
    assert forall i :: 0 <= i < |l.ba| && l.ba[i].code == CONFREQ ==> Underway(l.ba[i], l.b, l.a);
    TheirsKept(l.a, l.b, l.ab, l.ba, a', out, l.ba);
  }

  lemma StepAgrees(l: Link, st: Step)
    requires Agreeing(l) && Possible(l, st)
    ensures Agreeing(Taken(l, st))
  {
    match st
    case Local(ev, z) => QuietEventAgrees(l, ev, z, l.ba, 0);
    case Deliver(z) => DeliverAgrees(l, z);
    case Lose(i) => LossAgrees(l.a, l.b, l.ab, l.ba, i);
    case Configure(cfg) => StillAgrees(l, l.a.(f := l.a.f.(cfg := cfg)), []);
    case SendProtRej(data) => ProtRejAgrees(l, data);
  }

  lemma ProtRejAgrees(l: Link, data: seq<byte>)
    requires Agreeing(l)
    ensures Agreeing(Taken(l, SendProtRej(data)))
  {
    BumpCounts(l.a.f.id, l.a.ids);
    StillAgrees(l, l.a.(f := l.a.f.(id := Bump(l.a.f.id)), ids := l.a.ids + 1),
                [Msg(PROTREJ, Bump(l.a.f.id), data, 0, ZERO)]);
  }

  // Either side may move.
  datatype Move = Move(byB: bool, step: Step)

  function Turned(l: Link, byB: bool): Link { if byB then Flip(l) else l }

  ghost predicate Play(l: Link, ms: seq<Move>, l': Link)
    decreases |ms|
  {
    if ms == [] then l' == l
    else
      var t := Turned(l, ms[0].byB);
      && t.a.f.cfg.mru >= HEADERLEN
      && Possible(t, ms[0].step)
      && Play(Turned(Taken(t, ms[0].step), ms[0].byB), ms[1..], l')
  }

  predicate Untouched(s: Side) {
    && FsmRuns.Fresh(s.f) && s.f.cfg.mru >= MINMRU && s.f.id == 0 && s.f.reqid == 0
    && s.ids == s.current == s.asked == s.heard == 0 && s.askedOpts == s.heardOpts == ZERO
  }

  // In every run of the two endpoints from the start, whenever both are Opened,
  // each has recorded of the other exactly what the other's request asks for.
  lemma {:induction false} OpenedTogether(l: Link, ms: seq<Move>, l': Link)
    requires Untouched(l.a) && Untouched(l.b) && l.ab == [] && l.ba == []
    requires Play(l, ms, l')
    requires l'.a.f.state == Opened && l'.b.f.state == Opened
    ensures l'.b.ho == Heard(l'.a.go) && l'.a.ho == Heard(l'.b.go)
  {
    UntouchedAgree(l);
    PlayAgrees(l, ms, l');
    OpenedMeansAgreed(l');
  }

  lemma {:induction false} PlayAgrees(l: Link, ms: seq<Move>, l': Link)
    requires Agreeing(l) && Play(l, ms, l')
    ensures Agreeing(l')
    decreases |ms|
  {
    if ms != [] {
      var t := Turned(l, ms[0].byB);
      StepAgrees(t, ms[0].step);
      PlayAgrees(Turned(Taken(t, ms[0].step), ms[0].byB), ms[1..], l');
    }
  }

  lemma UntouchedAgree(l: Link)
    requires Untouched(l.a) && Untouched(l.b) && l.ab == [] && l.ba == []
    ensures Agreeing(l)
  {
  }
}
