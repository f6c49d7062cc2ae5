// fsm.c itself: the handlers, working on the fields of one automaton and on the
// callout list it shares with everybody, each proved to be one event of FsmTable.
// The list is the sequence of entries that CalloutList links together.

module Automaton {
  import opened Bytes
  import opened Callouts
  import opened FsmTable
  import FsmRuns

  const FSM_TIMEOUT := 0

  // A second Open, where it is a restart, is LowerDown and then LowerUp.
  lemma OpenRestarts(f: View, out: Log, e: Env)
    requires FsmRuns.Inv(f) && f.cfg.restart && f.state in {Closing, Stopped, Opened}
    ensures var f' := if f.state == Closing then f.(state := Stopping) else f;
            var g := Next(f', LowerDown, e);
            && FsmRuns.Inv(f') && FsmRuns.Inv(g)
            && Next(f, Open, e) == Next(g, LowerUp, e)
            && Output(out, f, Open, e) == Output(Output(out, f', LowerDown, e), g, LowerUp, e)
  {
    var f' := if f.state == Closing then f.(state := Stopping) else f;
    FsmRuns.StepKeepsInv(f', LowerDown, e);
  }

  // What single handlers amount to, read off the table once and for all states.

  lemma NakRejEffect(f: View, id: byte, nak: bool, ret: int, out: Log, e: Env)
    requires FsmRuns.Inv(f) && Listening(f)
    ensures var ev := ConfNakRej(id, nak, ret);
            var g := f.(rnakloops := if nak then f.rnakloops + 1 else 0);
            && FsmRuns.Inv(Next(f, ev, e))
            && Next(f, ev, e) ==
               (if !Expected(f, id) then f
                else if ret == 0 then g
                else if f.state !in {ReqSent, AckSent} then g.(seenAck := true)
                else if ret < 0 then g.(seenAck := true, state := Stopped, timers := [])
                else g.(id := Bump(f.id), reqid := Bump(f.id), seenAck := false, retransmits := f.cfg.maxConf - 1,
                        timers := [Deadline(e.now, f.cfg.timeouttime, 0)]))
            && Output(out, f, ev, e) ==
               (if !Expected(f, id) || ret == 0 then out
                else if f.state in {Closed, Stopped} then Said(out, Send(TERMACK, id, []))
                else if f.state in {ReqSent, AckSent} && ret > 0 then
                  Said(out, Send(CONFREQ, Bump(f.id), Clip(e.options, f.cfg.mru)))
                else out)
  {
    FsmRuns.StepKeepsInv(f, ConfNakRej(id, nak, ret), e);
  }

  lemma AckEffect(f: View, id: byte, good: bool, out: Log, e: Env)
    requires FsmRuns.Inv(f) && Listening(f)
    ensures var ev := ConfAck(id, good);
            var g := f.(seenAck := true, rnakloops := 0);
            && FsmRuns.Inv(Next(f, ev, e))
            && Next(f, ev, e) ==
               (if !Expected(f, id) || !good then f
                else if f.state == ReqSent then g.(state := AckRcvd, retransmits := f.cfg.maxConf)
                else if f.state == AckSent then g.(state := Opened, retransmits := f.cfg.maxConf, timers := [])
                else g)
            && Output(out, f, ev, e) ==
               (if !Expected(f, id) || !good then out
                else if f.state in {Closed, Stopped} then Said(out, Send(TERMACK, id, []))
                else Append(out, f.state == AckSent, Up))
  {
    FsmRuns.StepKeepsInv(f, ConfAck(id, good), e);
  }

  // A request from outside the negotiation starts it afresh.
  function Restarted(f: View, now: Instant): View {
    f.(state := ReqSent, id := Bump(f.id), reqid := Bump(f.id), seenAck := false,
       retransmits := f.cfg.maxConf - 1, nakloops := 0, rnakloops := 0,
       timers := [Deadline(now, f.cfg.timeouttime, 0)])
  }

  function RestartSays(out: Log, f: View, options: seq<byte>): Log
    requires f.cfg.mru >= HEADERLEN
  {
    Said(Said(Append(out, f.state == Opened, Down), ResetOptions),
         Send(CONFREQ, Bump(f.id), Clip(options, f.cfg.mru)))
  }

  function Answered(f: View, verdict: Verdict): View {
    var opens := verdict == Ack && f.state == AckRcvd;
    f.(state := if opens then Opened else if verdict == Ack then AckSent
                else if f.state == AckRcvd then AckRcvd else ReqSent,
       nakloops := if verdict == Ack then 0 else if verdict == Nak then f.nakloops + 1 else f.nakloops,
       timers := if opens then [] else f.timers)
  }

  function AnswerSays(out: Log, f: View, id: byte, verdict: Verdict, reply: seq<byte>): Log
    requires f.cfg.mru >= HEADERLEN
  {
    Append(Said(out, Send(VerdictCode(verdict), id, Clip(reply, f.cfg.mru))),
           verdict == Ack && f.state == AckRcvd, Up)
  }

  lemma ConfReqEffect(f: View, id: byte, verdict: Verdict, reply: seq<byte>, out: Log, e: Env)
    requires FsmRuns.Inv(f) && Listening(f)
    ensures var ev := ConfReq(id, verdict, reply);
            && FsmRuns.Inv(Next(f, ev, e))
            && Next(f, ev, e) ==
               (if f.state in {Closed, Closing, Stopping} then f
                else if f.state in {Opened, Stopped} then Answered(Restarted(f, e.now), verdict)
                else Answered(f, verdict))
            && Output(out, f, ev, e) ==
               (if f.state == Closed then Said(out, Send(TERMACK, id, []))
                else if f.state in {Closing, Stopping} then out
                else if f.state in {Opened, Stopped} then
                  AnswerSays(RestartSays(out, f, e.options), Restarted(f, e.now), id, verdict, reply)
                else AnswerSays(out, f, id, verdict, reply))
  {
    FsmRuns.StepKeepsInv(f, ConfReq(id, verdict, reply), e);
  }

  lemma ExpireEffect(f: View, out: Log, e: Env)
    requires FsmRuns.Inv(f)
    ensures var armed := [Deadline(e.now, f.cfg.timeouttime, 0)];
            && FsmRuns.Inv(Next(f, Expire, e))
            && Next(f, Expire, e) ==
               (if !Timed(f.state) then f
                else if f.retransmits <= 0
                    then f.(state := if f.state == Closing then Closed else Stopped, timers := [])
                else if Negotiating(f.state) then
                  f.(state := if f.state == AckRcvd then ReqSent else f.state, seenAck := false,
                     retransmits := f.retransmits - 1, timers := armed)
                else f.(id := Bump(f.id), reqid := Bump(f.id), retransmits := f.retransmits - 1, timers := armed))
            && Output(out, f, Expire, e) ==
               (if !Timed(f.state) then out
                else if f.retransmits <= 0 then Append(out, !(Negotiating(f.state) && f.cfg.passive), Finish)
                else if Negotiating(f.state) then
                  Said(Said(out, Retransmit), Send(CONFREQ, f.reqid, Clip(e.options, f.cfg.mru)))
                else Said(out, Send(TERMREQ, Bump(f.id), Clip(f.reason, f.cfg.mru))))
  {
    FsmRuns.StepKeepsInv(f, Expire, e);
  }

  lemma TermReqEffect(f: View, id: byte, out: Log, e: Env)
    requires FsmRuns.Inv(f) && Listening(f)
    ensures var ev := TermReq(id);
            && FsmRuns.Inv(Next(f, ev, e))
            && Next(f, ev, e) ==
               (if f.state in {AckRcvd, AckSent} then f.(state := ReqSent)
                else if f.state == Opened then
                  f.(state := Stopping, retransmits := 0, timers := [Deadline(e.now, f.cfg.timeouttime, 0)])
                else f)
            && Output(out, f, ev, e) == Said(Append(out, f.state == Opened, Down), Send(TERMACK, id, []))
  {
    FsmRuns.StepKeepsInv(f, TermReq(id), e);
  }

  lemma TermAckEffect(f: View, out: Log, e: Env)
    requires FsmRuns.Inv(f) && Listening(f)
    ensures && FsmRuns.Inv(Next(f, TermAck, e))
            && Next(f, TermAck, e) ==
               (if f.state == Closing then f.(state := Closed, timers := [])
                else if f.state == Stopping then f.(state := Stopped, timers := [])
                else if f.state == AckRcvd then f.(state := ReqSent)
                else if f.state == Opened then Restarted(f, e.now)
                else f)
            && Output(out, f, TermAck, e) ==
               (if f.state == Opened then RestartSays(out, f, e.options)
                else Append(out, f.state in {Closing, Stopping}, Finish))
  {
    FsmRuns.StepKeepsInv(f, TermAck, e);
  }

  // Nothing is heard before the lower layer is up.
  lemma DeafUntilUp(f: View, ev: Event, out: Log, e: Env)
    requires FsmRuns.Inv(f) && !Listening(f)
    requires !ev.LowerUp? && !ev.LowerDown? && !ev.Open? && !ev.Close? && !ev.Expire? && !ev.ProtReject?
    ensures Next(f, ev, e) == f && Output(out, f, ev, e) == out
  {
    var t := Dispatch(f, ev);
    if t.Do? {
      assert t.f == f && t.kind in {RCRplus, RCRminus, RTR, RTA, RXJplus, RUC};
      assert Code(f, t.kind, t.ret) == Void;
    }
  }

  class Fsm {
    const unit: nat
    var callouts: seq<Entry>
    // This automaton's deadlines on that list, and everybody else's entries.
    ghost var timers: seq<Instant>
    ghost var others: seq<Entry>
    var cfg: Config
    var state: State
    var id: byte
    var reqid: byte
    var seenAck: bool
    var retransmits: int
    var nakloops: int
    var rnakloops: int
    var reason: seq<byte>
    ghost var trace: Log

    ghost function View(): View
      reads this
    {
      FsmTable.View(cfg, state, id, reqid, seenAck, retransmits, nakloops, rnakloops, reason, timers)
    }

    ghost predicate Listed()
      reads this
    {
      && Sorted(callouts)
      && timers == Pending(callouts, FSM_TIMEOUT, unit)
      && others == Others(callouts, FSM_TIMEOUT, unit)
    }

    ghost predicate Valid()
      reads this
    {
      Listed() && FsmRuns.Inv(View())
    }

    // One event has been carried out in full.
    twostate predicate Did(ev: Event, e: Env)
      requires old(cfg.mru >= HEADERLEN)
      reads this
    {
      && View() == Next(old(View()), ev, e)
      && trace == Output(old(trace), old(View()), ev, e)
      && others == old(others)
    }

    constructor (unit: nat, callouts: seq<Entry>)
      requires Sorted(callouts) && Pending(callouts, FSM_TIMEOUT, unit) == []
      ensures Valid() && FsmRuns.Fresh(View()) && trace == Silence
      ensures this.unit == unit && this.callouts == callouts
    {
      this.unit, this.callouts := unit, callouts;
      timers, others := [], Others(callouts, FSM_TIMEOUT, unit);
      cfg := Config(false, false, false, 3, 10, 2, 5, 1500);
      state := Initial;
      id, reqid, seenAck := 0, 0, false;
      retransmits, nakloops, rnakloops := 0, 0, 0;
      reason := [];
      trace := Silence;
    }

    // TIMEOUT(fsm_timeout, f, f->timeouttime)
    method Arm(now: Instant)
      requires Listed() && timers == []
      modifies this`callouts, this`timers
      ensures Listed() && others == old(others)
      ensures View() == old(View()).(timers := [Deadline(now, cfg.timeouttime, 0)])
    {
      var e := Entry(Deadline(now, cfg.timeouttime, 0), FSM_TIMEOUT, unit);
      InsertKeepsOrder(callouts, e);
      ArmedPending(callouts, e, FSM_TIMEOUT, unit);
      callouts := Insert(callouts, e);
      timers := [e.at];
    }

    // UNTIMEOUT(fsm_timeout, f)
    method Disarm()
      requires Listed() && |timers| == 1
      modifies this`callouts, this`timers
      ensures Listed() && others == old(others)
      ensures View() == old(View()).(timers := [])
    {
      RemoveKeepsOrder(callouts, FSM_TIMEOUT, unit);
      CancelledPending(callouts, FSM_TIMEOUT, unit);
      callouts := Remove(callouts, FSM_TIMEOUT, unit);
      timers := [];
    }

    // fsm_sdata; the header it puts in front is code, id and length.
    method SData(code: byte, id: byte, data: seq<byte>)
      requires cfg.mru >= HEADERLEN
      modifies this`trace
      ensures trace == Said(old(trace), Send(code, id, Clip(data, cfg.mru)))
    {
      var datalen := |data|;
      if datalen > cfg.mru - HEADERLEN {
        datalen := cfg.mru - HEADERLEN;
      }
      assert data[..|data|] == data;
      trace := Said(trace, Send(code, id, data[..datalen]));
    }

    ghost method Tell(a: Action)
      modifies this`trace
      ensures trace == Said(old(trace), a)
    {
      trace := Said(trace, a);
    }

    method Renew(again: bool)
      requires cfg.mru >= HEADERLEN
      modifies this`trace, this`nakloops, this`rnakloops, this`retransmits, this`id, this`reqid, this`seenAck
      ensures var f := old(View());
          && (id == if again then f.id else Bump(f.id))
          && (reqid == if again then f.reqid else Bump(f.id))
          && (retransmits == if again then f.retransmits else f.cfg.maxConf)
          && (nakloops == if !Negotiating(f.state) then 0 else f.nakloops)
          && (rnakloops == if !Negotiating(f.state) then 0 else f.rnakloops)
          && !seenAck
          && trace == Append(old(trace), !Negotiating(f.state), ResetOptions)
    {
      if state != ReqSent && state != AckRcvd && state != AckSent {
        Tell(ResetOptions);
        nakloops := 0;
        rnakloops := 0;
      }
      if !again {
        retransmits := cfg.maxConf;
        id := Bump(id);
        reqid := id;
      }
      seenAck := false;
    }

    // fsm_sconfreq: the caller has cancelled any timer that was running.
    method SConfReq(again: bool, e: Env)
      requires Listed() && cfg.mru >= HEADERLEN && timers == []
      modifies this
      ensures Listed()
      ensures others == old(others)
      ensures var f := old(View()); var o := Ops(irc := !again, scr := true);
              View() == f.(id := if again then f.id else Bump(f.id),
                           reqid := if again then f.reqid else Bump(f.id),
                           seenAck := false,
                           retransmits := (if again then f.retransmits else f.cfg.maxConf) - 1,
                           nakloops := if Resets(f, o) then 0 else f.nakloops,
                           rnakloops := if Resets(f, o) then 0 else f.rnakloops,
                           timers := [Deadline(e.now, f.cfg.timeouttime, 0)])
      ensures var f := old(View());
              trace == Said(Append(old(trace), !Negotiating(f.state), ResetOptions),
                            Send(CONFREQ, if again then f.reqid else Bump(f.id), Clip(e.options, f.cfg.mru)))
    {
      Renew(again);
      SData(CONFREQ, reqid, Clip(e.options, cfg.mru));
      retransmits := retransmits - 1;
      Arm(e.now);
    }

    method LowerUp(e: Env)
      requires Valid()
      modifies this
      ensures Valid()
      ensures Did(Event.LowerUp, e)
    {
      ghost var f := View();
      match state
      case Initial => state := Closed;
      case Starting =>
        if cfg.silent {
          state := Stopped;
        } else {
          SConfReq(false, e);
          state := ReqSent;
        }
      case _ =>
      FsmRuns.StepKeepsInv(f, Event.LowerUp, e);
    }

    method LowerDown(e: Env)
      requires Valid()
      modifies this
      ensures Valid()
      ensures Did(Event.LowerDown, e)
    {
      FsmRuns.StepKeepsInv(View(), Event.LowerDown, e);
      if state == Closed {
        state := Initial;
      } else if state == Stopped {
        state := Starting;
        Tell(StartLower);
      } else if state == Closing {
        state := Initial;
        Disarm();
      } else if state in {Stopping, ReqSent, AckRcvd, AckSent} {
        state := Starting;
        Disarm();
      } else if state == Opened {
        Tell(Down);
        state := Starting;
      }
    }

    method Open(e: Env)
      requires Valid()
      modifies this
      ensures Valid()
      ensures Did(Event.Open, e)
    {
      FsmRuns.StepKeepsInv(View(), Event.Open, e);
      if state == Initial {
        state := Starting;
        Tell(StartLower);
      } else if state == Closed {
        if cfg.silent {
          state := Stopped;
        } else {
          SConfReq(false, e);
          state := ReqSent;
        }
      } else if state in {Closing, Stopped, Opened} {
        if cfg.restart {
          OpenRestarts(View(), trace, e);
          if state == Closing {
            state := Stopping;
          }
          LowerDown(e);
          LowerUp(e);
        } else if state == Closing {
          state := Stopping;
        }
      }
    }

    // The beginning of terminate_layer: the layers above hear of it, or the timer stops.
    method Leave()
      requires Listed() && (state == Opened || |timers| == 1) && (state == Opened ==> timers == [])
      modifies this`callouts, this`timers, this`trace
      ensures Listed() && others == old(others)
      ensures View() == old(View()).(timers := []) && trace == Append(old(trace), state == Opened, Down)
    {
      if state != Opened {
        Disarm();
      } else {
        Tell(Down);
      }
    }

    // A Terminate-Request with a new identifier.
    method Farewell()
      requires cfg.mru >= HEADERLEN
      modifies this`id, this`reqid, this`trace
      ensures View() == old(View()).(id := Bump(old(id)), reqid := Bump(old(id)))
      ensures trace == Said(old(trace), Send(TERMREQ, Bump(old(id)), Clip(reason, cfg.mru)))
    {
      id := Bump(id);
      reqid := id;
      SData(TERMREQ, reqid, reason);
    }

    // terminate_layer
    method TerminateLayer(next: State, e: Env)
      requires Valid() && (Negotiating(state) || state == Opened) && next in {Closing, Stopping}
      modifies this
      ensures Listed()
      ensures others == old(others)
      ensures var f := old(View()); var end := f.cfg.maxTerm == 0;
              && View() == f.(state := if !end then next else if next == Closing then Closed else Stopped,
                              id := Bump(f.id), reqid := Bump(f.id),
                              retransmits := if end then 0 else f.cfg.maxTerm - 1,
                              timers := if end then [] else [Deadline(e.now, f.cfg.timeouttime, 0)])
              && trace == Append(Said(Append(old(trace), f.state == Opened, Down),
                                      Send(TERMREQ, Bump(f.id), Clip(f.reason, f.cfg.mru))), end, Finish)
    {
      Leave();
      retransmits := cfg.maxTerm;
      Farewell();
      if retransmits == 0 {
        state := if next == Closing then Closed else Stopped;
        Tell(Finish);
        return;
      }
      Arm(e.now);
      retransmits := retransmits - 1;
      state := next;
    }

    method Close(why: seq<byte>, e: Env)
      requires Valid()
      modifies this
      ensures Valid()
      ensures Did(Event.Close(why), e)
    {
      FsmRuns.StepKeepsInv(View(), Event.Close(why), e);
      reason := why;
      if state == Starting {
        state := Initial;
      } else if state == Stopped {
        state := Closed;
      } else if state == Stopping {
        state := Closing;
      } else if Negotiating(state) || state == Opened {
        TerminateLayer(Closing, e);
      }
    }

    // fsm_timeout, which calltimeout calls once it has taken the entry off the list.
    method Timeout(ghost taken: View, e: Env)
      requires Listed() && FsmRuns.Inv(taken) && View() == taken.(timers := [])
      modifies this
      ensures Valid()
      ensures View() == Next(taken, Expire, e) && others == old(others)
      ensures trace == Output(old(trace), taken, Expire, e)
    {
      ExpireEffect(taken, trace, e);
      if state in {Closing, Stopping} {
        Repeat(e);
      } else if Negotiating(state) {
        Retry(e);
      }
    }

    // A Terminate-Request once more, or no more.
    method Repeat(e: Env)
      requires Listed() && cfg.mru >= HEADERLEN && timers == []
      modifies this
      ensures Listed() && others == old(others)
      ensures var f := old(View());
              if f.retransmits <= 0 then
                View() == f.(state := if f.state == Closing then Closed else Stopped)
                    && trace == Said(old(trace), Finish)
              else
                && View() == f.(id := Bump(f.id), reqid := Bump(f.id), retransmits := f.retransmits - 1,
                                timers := [Deadline(e.now, f.cfg.timeouttime, 0)])
                && trace == Said(old(trace), Send(TERMREQ, Bump(f.id), Clip(f.reason, f.cfg.mru)))
    {
      if retransmits <= 0 {
        state := if state == Closing then Closed else Stopped;
        Tell(Finish);
      } else {
        Farewell();
        Arm(e.now);
        retransmits := retransmits - 1;
      }
    }

    // A Configure-Request once more, or no more.
    method Retry(e: Env)
      requires Listed() && cfg.mru >= HEADERLEN && timers == [] && Negotiating(state)
      modifies this
      ensures Listed() && others == old(others)
      ensures var f := old(View());
              if f.retransmits <= 0 then
                View() == f.(state := Stopped) && trace == Append(old(trace), !f.cfg.passive, Finish)
              else
                && View() == f.(state := if f.state == AckRcvd then ReqSent else f.state, seenAck := false,
                                retransmits := f.retransmits - 1, timers := [Deadline(e.now, f.cfg.timeouttime, 0)])
                && trace == Said(Said(old(trace), Retransmit), Send(CONFREQ, f.reqid, Clip(e.options, f.cfg.mru)))
    {
      if retransmits <= 0 {
        state := Stopped;
        if !cfg.passive {
          Tell(Finish);
        }
      } else {
        Tell(Retransmit);
        SConfReq(true, e);
        if state == AckRcvd {
          state := ReqSent;
        }
      }
    }

    // Go down if up, and start the negotiation again.
    method Restart(e: Env)
      requires Listed() && cfg.mru >= HEADERLEN && timers == [] && state in {Opened, Stopped}
      modifies this
      ensures Listed() && others == old(others)
      ensures View() == Restarted(old(View()), e.now)
      ensures trace == RestartSays(old(trace), old(View()), e.options)
    {
      if state == Opened {
        Tell(Down);
      }
      SConfReq(false, e);
      state := ReqSent;
    }

    // fsm_rconfreq
    method RConfReq(id: byte, verdict: Verdict, reply: seq<byte>, e: Env)
      requires Valid() && Listening(View())
      modifies this
      ensures Valid()
      ensures Did(ConfReq(id, verdict, reply), e)
    {
      ConfReqEffect(View(), id, verdict, reply, trace, e);
      if state == Closed {
        SData(TERMACK, id, []);
        return;
      }
      if state in {Closing, Stopping} {
        return;
      }
      if state in {Opened, Stopped} {
        Restart(e);
      }
      Answer(id, verdict, reply);
    }

    // The second half of fsm_rconfreq: the answer, and what follows from it.
    method Answer(id: byte, verdict: Verdict, reply: seq<byte>)
      requires Listed() && cfg.mru >= HEADERLEN && Negotiating(state) && |timers| == 1
      modifies this
      ensures Listed() && others == old(others)
      ensures View() == Answered(old(View()), verdict)
      ensures trace == AnswerSays(old(trace), old(View()), id, verdict, reply)
    {
      SData(VerdictCode(verdict), id, reply);
      if verdict == Ack {
        if state == AckRcvd {
          Disarm();
          state := Opened;
          Tell(Up);
        } else {
          state := AckSent;
        }
        nakloops := 0;
      } else {
        if state != AckRcvd {
          state := ReqSent;
        }
        if verdict == Nak {
          nakloops := nakloops + 1;
        }
      }
    }

    // fsm_rconfack
    method RConfAck(id: byte, good: bool, e: Env)
      requires Valid() && Listening(View())
      modifies this
      ensures Valid()
      ensures Did(ConfAck(id, good), e)
    {
      AckEffect(View(), id, good, trace, e);
      if id != reqid || seenAck {
        return;
      }
      if !good {
        return;
      }
      seenAck := true;
      rnakloops := 0;
      Acked(id);
    }

    // What an expected Ack does.  The arms for ACKRCVD and OPENED can never run: there
    // no Ack is expected.
    method Acked(id: byte)
      requires Listed() && cfg.mru >= HEADERLEN && Listening(View()) && state !in {AckRcvd, Opened}
      requires Timed(state) ==> |timers| == 1
      modifies this`state, this`retransmits, this`callouts, this`timers, this`trace
      ensures Listed() && others == old(others)
      ensures var f := old(View());
              && View() == (if f.state == ReqSent then f.(state := AckRcvd, retransmits := f.cfg.maxConf)
                            else if f.state == AckSent
                                then f.(state := Opened, retransmits := f.cfg.maxConf, timers := [])
                            else f)
              && trace == if f.state in {Closed, Stopped} then Said(old(trace), Send(TERMACK, id, []))
                          else Append(old(trace), f.state == AckSent, Up)
    {
      if state in {Closed, Stopped} {
        SData(TERMACK, id, []);
      } else if state == ReqSent {
        state := AckRcvd;
        retransmits := cfg.maxConf;
      } else if state == AckSent {
        Disarm();
        state := Opened;
        retransmits := cfg.maxConf;
        Tell(Up);
      }
    }

    // fsm_rconfnakrej; `ret` is what nakci or rejci returned.
    method RConfNakRej(nak: bool, id: byte, ret: int, e: Env)
      requires Valid() && Listening(View())
      modifies this
      ensures Valid()
      ensures Did(ConfNakRej(id, nak, ret), e)
    {
      NakRejEffect(View(), id, nak, ret, trace, e);
      if id != reqid || seenAck {
        return;
      }
      rnakloops := if nak then rnakloops + 1 else 0;
      if ret == 0 {
        return;
      }
      seenAck := true;
      if state in {Closed, Stopped} {
        SData(TERMACK, id, []);
      } else if state in {ReqSent, AckSent} {
        Disarm();
        if ret < 0 {
          state := Stopped;
        } else {
          SConfReq(false, e);
        }
      } else if state in {AckRcvd, Opened} {
        assert false;
      }
    }

    // fsm_rtermreq
    method RTermReq(id: byte, e: Env)
      requires Valid() && Listening(View())
      modifies this
      ensures Valid()
      ensures Did(TermReq(id), e)
    {
      TermReqEffect(View(), id, trace, e);
      if state in {AckRcvd, AckSent} {
        state := ReqSent;
      } else if state == Opened {
        retransmits := 0;
        state := Stopping;
        Tell(Down);
        Arm(e.now);
      }
      SData(TERMACK, id, []);
    }

    // fsm_rtermack
    method RTermAck(e: Env)
      requires Valid() && Listening(View())
      modifies this
      ensures Valid()
      ensures Did(TermAck, e)
    {
      TermAckEffect(View(), trace, e);
      if state in {Closing, Stopping} {
        Disarm();
        state := if state == Closing then Closed else Stopped;
        Tell(Finish);
      } else if state == AckRcvd {
        state := ReqSent;
      } else if state == Opened {
        Restart(e);
      }
    }

    // fsm_rcoderej
    method RCodeRej(len: nat, e: Env)
      requires Valid() && Listening(View())
      modifies this
      ensures Valid()
      ensures Did(CodeRej(len), e)
    {
      FsmRuns.StepKeepsInv(View(), CodeRej(len), e);
      if len < HEADERLEN {
        return;
      }
      if state == AckRcvd {
        state := ReqSent;
      }
    }

    // The default case of fsm_input; `handled` is what extcode returned.
    method RUnknown(packet: seq<byte>, handled: bool, e: Env)
      requires Valid() && Listening(View())
      modifies this
      ensures Valid()
      ensures Did(Other(packet, handled), e)
    {
      FsmRuns.StepKeepsInv(View(), Other(packet, handled), e);
      if !handled {
        id := Bump(id);
        SData(CODEREJ, id, packet);
      }
    }

    // fsm_protreject
    method ProtReject(e: Env)
      requires Valid()
      modifies this
      ensures Valid()
      ensures Did(Event.ProtReject, e)
    {
      FsmRuns.StepKeepsInv(View(), Event.ProtReject, e);
      if state == Opened {
        TerminateLayer(Stopping, e);
      } else if state !in {Initial, Starting} {
        if Timed(state) {
          Disarm();
        }
        state := if state in {Closing, Closed} then Closed else Stopped;
        Tell(Finish);
      }
    }

    // fsm_input
    method Input(p: seq<byte>, a: Answers, e: Env)
      requires Valid()
      modifies this
      ensures Valid()
      ensures match Decode(p, a)
              case Dropped => View() == old(View()) && trace == old(trace) && others == old(others)
              case Packet(ev) => Did(ev, e)
    {
      if |p| < HEADERLEN {
        return;
      }
      var code, id, len := p[0], p[1], Short(p[2], p[3]);
      if len < HEADERLEN || len > |p| {
        return;
      }
      if state in {Initial, Starting} {
        DeafUntilUp(View(), Decode(p, a).ev, trace, e);
        return;
      }
      if code == CONFREQ {
        RConfReq(id, a.verdict, a.reply, e);
      } else if code == CONFACK {
        RConfAck(id, a.ackGood, e);
      } else if code == CONFNAK || code == CONFREJ {
        RConfNakRej(code == CONFNAK, id, a.ret, e);
      } else if code == TERMREQ {
        RTermReq(id, e);
      } else if code == TERMACK {
        RTermAck(e);
      } else if code == CODEREJ {
        RCodeRej(len - HEADERLEN, e);
      } else {
        RUnknown(p[..len], a.handled, e);
      }
    }
  }
}
