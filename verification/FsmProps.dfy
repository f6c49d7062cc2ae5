// What the automaton keeps in every run.

module FsmRuns {
  import opened Bytes
  import opened Callouts
  import opened FsmTable

  // Held in every reachable state: a timer is pending exactly in the five timed
  // states, and nobody waits in AckRcvd or Opened for an Ack already seen.
  predicate Inv(f: View) {
    && f.cfg.mru >= HEADERLEN
    && |f.timers| == (if Timed(f.state) then 1 else 0)
    && (f.state in {AckRcvd, Opened} ==> f.seenAck)
  }

  predicate Rearms(c: Cell) { CellOps(c).scr || CellOps(c).str || CellOps(c).zrc }

  // A cell that ends in a timed state starts the timer or finds it running, and
  // only an Ack, or an Ack seen before, leads to AckRcvd or Opened.
  predicate Fits(f: View, k: Kind, c: Cell) {
    c.Go? ==>
      && (Timed(c.next) ==> Rearms(c) || Timed(f.state))
      && (c.next in {AckRcvd, Opened} ==> !c.ops.scr && (k == RCA || f.state in {AckRcvd, Opened}))
  }

  lemma CellsFit(f: View, k: Kind, ret: int)
    requires k == RCA ==> f.state != Opened
    ensures Fits(f, k, Code(f, k, ret))
  {
    if k in {KUp, KDown, KOpen, KClose, TOplus, TOminus} {
      LocalCellsFit(f, k, ret);
    } else {
      RemoteCellsFit(f, k, ret);
    }
  }

  lemma LocalCellsFit(f: View, k: Kind, ret: int)
    requires k in {KUp, KDown, KOpen, KClose, TOplus, TOminus}
    ensures Fits(f, k, Code(f, k, ret))
  {
  }

  lemma RemoteCellsFit(f: View, k: Kind, ret: int)
    requires k !in {KUp, KDown, KOpen, KClose, TOplus, TOminus}
    requires k == RCA ==> f.state != Opened
    ensures Fits(f, k, Code(f, k, ret))
  {
    if k in {RCRplus, RCRminus, RCA, RCN} {
      ConfigureCellsFit(f, k, ret);
    } else {
      OtherCellsFit(f, k, ret);
    }
  }

  lemma ConfigureCellsFit(f: View, k: Kind, ret: int)
    requires k in {RCRplus, RCRminus, RCA, RCN}
    requires k == RCA ==> f.state != Opened
    ensures Fits(f, k, Code(f, k, ret))
  {
  }

  lemma OtherCellsFit(f: View, k: Kind, ret: int)
    requires k in {RTR, RTA, RUC, RXJplus, RXJminus}
    ensures Fits(f, k, Code(f, k, ret))
  {
  }

  // Nobody gets past the gate of fsm_rconfack in AckRcvd or Opened.
  lemma DispatchFits(f: View, ev: Event)
    requires Inv(f)
    ensures var t := Dispatch(f, ev);
            && t.f == f.(reason := t.f.reason, seenAck := t.f.seenAck, rnakloops := t.f.rnakloops)
            && (t.Toss? ==> t.f.seenAck == f.seenAck)
            && (t.Do? && t.kind in {RCA, RCN} ==> !f.seenAck && t.f.seenAck)
            && (t.Do? && t.kind !in {RCA, RCN} ==> t.f.seenAck == f.seenAck)
            && (t.Do? && t.kind in {RCRplus, RCRminus, RCA, RCN, RTR, RUC} ==> t.reply.Send?)
  {
  }

  lemma MoveKeepsInv(f: View, c: Cell, now: Instant)
    requires f.cfg.mru >= HEADERLEN
    requires |f.timers| == if Timed(f.state) then 1 else 0
    requires c.Go?
    requires Timed(c.next) ==> Rearms(c) || Timed(f.state)
    requires c.next in {AckRcvd, Opened} ==> !c.ops.scr && f.seenAck
    ensures Inv(Move(f, c, now))
  {
  }

  lemma StepKeepsInv(f: View, ev: Event, e: Env)
    requires Inv(f)
    ensures Inv(Next(f, ev, e))
  {
    DispatchFits(f, ev);
    match Dispatch(f, ev)
    case Toss(g) =>
    case Do(g, k, ret, reply) =>
      CellsFit(g, k, ret);
      var c := Code(g, k, ret);
      if c.Go? {
        MoveKeepsInv(g, c, e.now);
      }
  }

  datatype Input = Input(ev: Event, env: Env)

  // An Expire can only come from the callout list, so only while a timer is pending.
  predicate Enabled(f: View, ev: Event) { ev.Expire? ==> f.timers != [] }

  // From f, with `out` said before, the inputs lead to g and `out'`.
  ghost predicate Run(f: View, out: Log, ins: seq<Input>, g: View, out': Log)
    requires Inv(f)
    decreases |ins|
  {
    if ins == [] then g == f && out' == out
    else
      StepKeepsInv(f, ins[0].ev, ins[0].env);
      && Enabled(f, ins[0].ev)
      && Run(Next(f, ins[0].ev, ins[0].env), Output(out, f, ins[0].ev, ins[0].env), ins[1..], g, out')
  }

  // fsm_init, before anything has happened.
  predicate Fresh(f: View) { f.state == Initial && f.timers == [] && f.cfg.mru >= HEADERLEN }

  lemma {:induction false} RunKeepsInv(f: View, out: Log, ins: seq<Input>, g: View, out': Log)
    requires Inv(f) && Run(f, out, ins, g, out')
    ensures Inv(g)
    decreases |ins|
  {
    if ins != [] {
      StepKeepsInv(f, ins[0].ev, ins[0].env);
      RunKeepsInv(Next(f, ins[0].ev, ins[0].env), Output(out, f, ins[0].ev, ins[0].env), ins[1..], g, out');
    }
  }

  // Somebody who is told `up` and `down`, starting down, and is confused by two of
  // a kind in a row.
  datatype Link = Broken | Known(up: bool)

  function Tell(l: Link, a: Action): Link {
    if l.Broken? then Broken
    else match a
      case Up => if l.up then Broken else Known(true)
      case Down => if l.up then Known(false) else Broken
      case _ => l
  }

  function Follow(out: Log): Link {
    match out case Silence => Known(false) case Said(before, a) => Tell(Follow(before), a)
  }

  function Ups(out: Log): nat {
    match out case Silence => 0 case Said(before, a) => Ups(before) + if a.Up? then 1 else 0
  }

  function Downs(out: Log): nat {
    match out case Silence => 0 case Said(before, a) => Downs(before) + if a.Down? then 1 else 0
  }

  function Finishes(out: Log): nat {
    match out case Silence => 0 case Said(before, a) => Finishes(before) + if a.Finish? then 1 else 0
  }

  function Sends(out: Log): nat {
    match out case Silence => 0 case Said(before, a) => Sends(before) + if a.Send? then 1 else 0
  }

  // `x` had been said at some moment on the way to `out`.
  predicate Moment(x: Log, out: Log) { x == out || (out.Said? && Moment(x, out.before)) }

  // Whoever is never confused has heard as many `down` as `up`, or one less, at
  // every moment, and one less exactly while up.
  lemma {:induction false} FollowCounts(x: Log, out: Log)
    requires Follow(out).Known? && Moment(x, out)
    ensures Follow(x).Known?
    ensures Ups(x) - Downs(x) == if Follow(x).up then 1 else 0
    decreases out
  {
    if out.Said? {
      if x != out {
        FollowCounts(x, out.before);
      } else {
        FollowCounts(out.before, out.before);
      }
    }
  }

  lemma SaysFirstTells(out: Log, o: Ops)
    ensures var out' := SaysFirst(out, o);
            && Follow(out') == (if o.tld then Tell(Follow(out), Down) else Follow(out))
            && Finishes(out') == Finishes(out) && Sends(out') == Sends(out)
  {
  }

  lemma RequestTells(out: Log, f: View, o: Ops, options: seq<byte>)
    requires f.cfg.mru >= HEADERLEN
    ensures var out' := Request(out, f, o, options);
            && Follow(out') == Follow(out) && Finishes(out') == Finishes(out)
            && Sends(out') == Sends(out) + if o.scr then 1 else 0
  {
    if o.scr {
      var x := Append(out, Resets(f, o), ResetOptions);
      var y := Append(x, !o.irc, Retransmit);
      assert Follow(y) == Follow(x) == Follow(out) && Finishes(y) == Finishes(x) && Sends(y) == Sends(x);
    }
  }

  lemma SaysLastTells(out: Log, f: View, o: Ops, reply: Action)
    requires f.cfg.mru >= HEADERLEN
    requires o.sca || o.scn || o.sta || o.scj ==> reply.Send?
    ensures var out' := SaysLast(out, f, o, reply);
            && Follow(out') == (if o.tlu then Tell(Follow(out), Up) else Follow(out))
            && Finishes(out') == Finishes(out) + (if o.tlf then 1 else 0)
            && Sends(out') == Sends(out) + (if o.str then 1 else 0)
                              + if o.sca || o.scn || o.sta || o.scj then 1 else 0
  {
    var x := Append(out, o.str, Send(TERMREQ, Bump(f.id), Clip(f.reason, f.cfg.mru)));
    var y := Append(x, o.sca || o.scn || o.sta || o.scj, reply);
    var z := Append(y, o.tlu, Up);
    assert Follow(y) == Follow(x) == Follow(out) && Finishes(y) == Finishes(x) == Finishes(out);
    assert Finishes(z) == Finishes(y) && Sends(z) == Sends(y);
  }

  // One cell says `down` first and `up` last, and tells whether it has finished.
  lemma SaysTells(out: Log, f: View, c: Cell, options: seq<byte>, reply: Action)
    requires f.cfg.mru >= HEADERLEN && c.Go?
    requires c.ops.sca || c.ops.scn || c.ops.sta || c.ops.scj ==> reply.Send?
    ensures var out' := Says(out, f, c, options, reply);
            var l := if c.ops.tld then Tell(Follow(out), Down) else Follow(out);
            && Follow(out') == (if c.ops.tlu then Tell(l, Up) else l)
            && Finishes(out') == Finishes(out) + (if c.ops.tlf then 1 else 0)
            && Sends(out') == Sends(out) + (if c.ops.scr then 1 else 0) + (if c.ops.str then 1 else 0)
                              + if c.ops.sca || c.ops.scn || c.ops.sta || c.ops.scj then 1 else 0
  {
    var x := SaysFirst(out, c.ops);
    SaysFirstTells(out, c.ops);
    RequestTells(x, f, c.ops, options);
    SaysLastTells(Request(x, f, c.ops, options), f, c.ops, reply);
  }

  // tld on every way out of Opened, tlu on every way in, and nowhere else; and answers
  // are given to what they answer.
  predicate Announces(f: View, k: Kind, c: Cell) {
    c.Go? ==>
      && (c.ops.tld <==> f.state == Opened && c.next != Opened)
      && (c.ops.tlu <==> f.state != Opened && c.next == Opened)
      && (c.ops.sca ==> k == RCRplus) && (c.ops.scn ==> k == RCRminus) && (c.ops.scj ==> k == RUC)
      && (c.ops.sta ==> k in {RCRplus, RCRminus, RCA, RCN, RTR})
  }

  lemma CellsTell(f: View, k: Kind, ret: int)
    requires k in {RCA, RCN} ==> f.state !in {AckRcvd, Opened}
    ensures Announces(f, k, Code(f, k, ret))
  {
    if k in {KUp, KDown, KOpen, KClose, TOplus, TOminus} {
      LocalCellsTell(f, k, ret);
    } else {
      RemoteCellsTell(f, k, ret);
    }
  }

  lemma LocalCellsTell(f: View, k: Kind, ret: int)
    requires k in {KUp, KDown, KOpen, KClose, TOplus, TOminus}
    ensures Announces(f, k, Code(f, k, ret))
  {
  }

  lemma RemoteCellsTell(f: View, k: Kind, ret: int)
    requires k !in {KUp, KDown, KOpen, KClose, TOplus, TOminus}
    requires k in {RCA, RCN} ==> f.state !in {AckRcvd, Opened}
    ensures Announces(f, k, Code(f, k, ret))
  {
  }

  lemma StepFollows(out: Log, f: View, ev: Event, e: Env)
    requires Inv(f) && Follow(out) == Known(f.state == Opened)
    ensures Follow(Output(out, f, ev, e)) == Known(Next(f, ev, e).state == Opened)
  {
    DispatchFits(f, ev);
    match Dispatch(f, ev)
    case Toss(g) =>
    case Do(g, k, ret, reply) =>
      CellsTell(g, k, ret);
      var c := Code(g, k, ret);
      if c.Go? {
        SaysTells(out, g, c, e.options, reply);
      }
  }

  lemma {:induction false} RunFollows(f: View, out: Log, ins: seq<Input>, g: View, out': Log)
    requires Inv(f) && Run(f, out, ins, g, out')
    requires Follow(out) == Known(f.state == Opened)
    ensures Follow(out') == Known(g.state == Opened)
    decreases |ins|
  {
    if ins != [] {
      StepKeepsInv(f, ins[0].ev, ins[0].env);
      StepFollows(out, f, ins[0].ev, ins[0].env);
      RunFollows(Next(f, ins[0].ev, ins[0].env), Output(out, f, ins[0].ev, ins[0].env), ins[1..], g, out');
    }
  }

  // Over any run the upper layers hear `up` and `down` in strict alternation,
  // and have heard one `up` more exactly when the automaton is Opened.
  lemma UpDownAlternate(f: View, ins: seq<Input>, g: View, out: Log)
    requires Fresh(f) && Run(f, Silence, ins, g, out)
    ensures Follow(out) == Known(g.state == Opened)
    ensures Ups(out) - Downs(out) == if g.state == Opened then 1 else 0
    ensures forall x :: Moment(x, out) ==> 0 <= Ups(x) - Downs(x) <= 1
  {
    RunFollows(f, Silence, ins, g, out);
    forall x | Moment(x, out) ensures 0 <= Ups(x) - Downs(x) <= 1 {
      FollowCounts(x, out);
    }
    FollowCounts(out, out);
  }

  // In every reachable state a second Ack, Nak or Reject for the current request
  // is tossed, so the arms of fsm_rconfack and fsm_rconfnakrej for AckRcvd and
  // Opened are never reached.
  lemma LateAnswersTossed(f: View, ins: seq<Input>, g: View, out: Log, ev: Event, e: Env)
    requires Fresh(f) && Run(f, Silence, ins, g, out)
    requires ev.ConfAck? || ev.ConfNakRej?
    requires g.state in {AckRcvd, Opened}
    ensures g.cfg.mru >= HEADERLEN && Next(g, ev, e) == g && Output(out, g, ev, e) == out
  {
    RunKeepsInv(f, Silence, ins, g, out);
  }

  lemma ExactlyOneTimer(f: View, ins: seq<Input>, g: View, out: Log)
    requires Fresh(f) && Run(f, Silence, ins, g, out)
    ensures |g.timers| == if Timed(g.state) then 1 else 0
  {
    RunKeepsInv(f, Silence, ins, g, out);
  }

  // Only the clock runs: what `|envs|` expiries lead to.
  function Expiries(f: View, out: Log, envs: seq<Env>): (View, Log)
    requires Inv(f)
    decreases |envs|
  {
    if envs == [] then (f, out)
    else
      StepKeepsInv(f, Expire, envs[0]);
      Expiries(Next(f, Expire, envs[0]), Output(out, f, Expire, envs[0]), envs[1..])
  }

  function Budget(f: View): nat { if f.retransmits <= 0 then 0 else f.retransmits }

  // Where giving up ends, and whether anybody is told.
  function End(f: View): State { if f.state == Closing then Closed else Stopped }
  predicate Tells(f: View) { !(Negotiating(f.state) && f.cfg.passive) }

  lemma ExpiryMoves(f: View, e: Env)
    requires Inv(f) && Timed(f.state)
    ensures var g := Next(f, Expire, e);
            if f.retransmits <= 0 then g.state == End(f) && g.timers == []
            else Timed(g.state) && g.retransmits == f.retransmits - 1 && End(g) == End(f) && Tells(g) == Tells(f)
  {
  }

  lemma ExpirySays(f: View, out: Log, e: Env)
    requires Inv(f) && Timed(f.state)
    ensures var out' := Output(out, f, Expire, e);
            if f.retransmits <= 0 then
              Finishes(out') == Finishes(out) + (if Tells(f) then 1 else 0) && Sends(out') == Sends(out)
            else Finishes(out') == Finishes(out) && Sends(out') == Sends(out) + 1
  {
    var k := if f.retransmits <= 0 then TOminus else TOplus;
    ExpiryCell(f, k);
    SaysTells(out, f, Code(f, k, 0), e.options, Up);
  }

  lemma ExpiryCell(f: View, k: Kind)
    requires Timed(f.state) && k in {TOminus, TOplus}
    ensures var c := Code(f, k, 0);
            && c.Go? && !c.ops.sca && !c.ops.scn && !c.ops.sta && !c.ops.scj
            && (c.ops.tlf <==> k == TOminus && Tells(f))
            && (c.ops.scr <==> k == TOplus && Negotiating(f.state))
            && (c.ops.str <==> k == TOplus && !Negotiating(f.state))
  {
  }

  // With nothing but expiries every timed state gives up after exactly
  // max(retransmits, 0) + 1 of them, having resent once per unit of the counter,
  // and `finished` is called once, except from a passive negotiation.
  lemma {:induction false} GivesUp(f: View, out: Log, envs: seq<Env>)
    requires Inv(f) && Timed(f.state) && |envs| <= Budget(f) + 1
    ensures var (g, out') := Expiries(f, out, envs);
            if |envs| <= Budget(f) then
              && Timed(g.state) && g.timers != []
              && Finishes(out') == Finishes(out) && Sends(out') == Sends(out) + |envs|
            else
              && g.state == End(f) && g.timers == []
              && Finishes(out') == Finishes(out) + (if Tells(f) then 1 else 0)
              && Sends(out') == Sends(out) + Budget(f)
    decreases |envs|
  {
    if envs != [] {
      ExpiryMoves(f, envs[0]);
      ExpirySays(f, out, envs[0]);
      StepKeepsInv(f, Expire, envs[0]);
      if f.retransmits > 0 {
        GivesUp(Next(f, Expire, envs[0]), Output(out, f, Expire, envs[0]), envs[1..]);
      }
    }
  }

  // The cells in which fsm.c is not RFC 1661, all of them.
  predicate Departs(f: View, k: Kind, ret: int) {
    match k
    case KUp => f.state == Starting && f.cfg.silent
    case KOpen => (f.state == Closed && f.cfg.silent) || (f.cfg.restart && f.state in {Closing, Stopped, Opened})
    case KClose => f.state == Starting || (f.cfg.maxTerm == 0 && (Negotiating(f.state) || f.state == Opened))
    case TOminus => Negotiating(f.state) && f.cfg.passive
    case RCRplus | RCRminus | RTA => f.state == Opened
    case RCA => f.state in {AckRcvd, Opened}
    case RCN => f.state in {AckRcvd, Opened} || (f.state in {ReqSent, AckSent} && ret < 0)
    case RXJminus => f.state == Opened && f.cfg.maxTerm == 0
    case _ => false
  }

  lemma DepartsExactlyThere(f: View, k: Kind, ret: int)
    ensures Code(f, k, ret) != Rfc1661(k, f.state) <==> Departs(f, k, ret)
  {
  }

  // The same next state and the same actions, but for a counter started anew with a new
  // request, and an end that is not reported.
  ghost predicate SameRoute(c: Cell, r: Cell, quiet: bool) {
    && (c.Void? <==> r.Void?)
    && (c.Go? ==>
          && c.next == r.next && c.ops.(irc := r.ops.irc, tlf := r.ops.tlf) == r.ops
          && (c.ops.irc != r.ops.irc ==> c.ops.irc && c.ops.scr)
          && (c.ops.tlf != r.ops.tlf ==> r.ops.tlf && quiet))
  }

  // Left to itself, without the options that change its manners and with Terminate-
  // Requests allowed, it goes from state to state as RFC 1661 has it and says the same,
  // but for two things: a new request always restarts the counter, and giving up
  // before the lower layer ever came up is not reported.
  lemma PlainFollowsRfc(f: View, k: Kind, ret: int)
    requires !f.cfg.silent && !f.cfg.restart && !f.cfg.passive && f.cfg.maxTerm != 0 && ret >= 0
    ensures SameRoute(Code(f, k, ret), Rfc1661(k, f.state), k == KClose && f.state == Starting)
  {
    var r := Rfc1661(k, f.state);
    if k in {KUp, KDown, KOpen, KClose} {
      PlainOutside(f, k, ret);
    } else if Restarts(k, f.state) {
      RestartAsks(k, f.state);
      PlainRestart(f, k, ret);
      SameAnew(r);
    } else {
      PlainOther(f, k, ret);
      SameItself(r);
    }
  }

  // Where a negotiation that was over, or half over, begins again.
  predicate Restarts(k: Kind, s: State) {
    (k in {RCRplus, RCRminus, RTA} && s == Opened) || (k in {RCA, RCN} && s in {AckRcvd, Opened})
  }

  lemma RestartAsks(k: Kind, s: State)
    requires Restarts(k, s)
    ensures Rfc1661(k, s).Go? && Rfc1661(k, s).ops.scr
  {
  }

  lemma PlainRestart(f: View, k: Kind, ret: int)
    requires Restarts(k, f.state)
    ensures Code(f, k, ret) == Anew(Rfc1661(k, f.state), true)
  {
  }

  lemma PlainOther(f: View, k: Kind, ret: int)
    requires k !in {KUp, KDown, KOpen, KClose} && !Restarts(k, f.state)
    requires !f.cfg.passive && f.cfg.maxTerm != 0 && ret >= 0
    ensures Code(f, k, ret) == Rfc1661(k, f.state)
  {
  }

  lemma SameAnew(r: Cell)
    requires r.Go? && r.ops.scr
    ensures SameRoute(Anew(r, true), r, false)
  {
  }

  lemma SameItself(r: Cell)
    ensures SameRoute(r, r, false)
  {
  }

  lemma PlainOutside(f: View, k: Kind, ret: int)
    requires k in {KUp, KDown, KOpen, KClose}
    requires !f.cfg.silent && !f.cfg.restart && f.cfg.maxTerm != 0
    ensures SameRoute(Code(f, k, ret), Rfc1661(k, f.state), k == KClose && f.state == Starting)
  {
  }
}
