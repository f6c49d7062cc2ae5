// The callout list of pppd's main loop: a singly linked list of timers kept in
// order of deadline.  main.c walks it with a pointer to the previous link; here
// that pointer is the variable `prev`, null while the head itself is meant.

module Callouts {

  const MILLION := 1000000

  datatype Time = Time(sec: int, usec: int)

  // What gettimeofday returns, and what every deadline is normalised to.
  type Instant = t: Time | 0 <= t.usec < MILLION witness Time(0, 0)

  // The comparisons main.c writes out on (seconds, microseconds).
  predicate Before(a: Instant, b: Instant) {
    a.sec < b.sec || (a.sec == b.sec && a.usec < b.usec)
  }

  predicate Due(at: Instant, now: Instant) {
    at.sec < now.sec || (at.sec == now.sec && at.usec <= now.usec)
  }

  function Micros(t: Time): int { t.sec * MILLION + t.usec }

  lemma ComparisonsCountMicros(a: Instant, b: Instant)
    ensures Before(a, b) <==> Micros(a) < Micros(b)
    ensures Due(a, b) <==> Micros(a) <= Micros(b)
  {
  }

  // The carry of microseconds into seconds loses no time.
  function Deadline(now: Instant, secs: int, usecs: nat): (t: Instant)
    ensures Micros(t) == Micros(now) + secs * MILLION + usecs
  {
    var usec := now.usec + usecs;
    if usec >= MILLION then Time(now.sec + secs + usec / MILLION, usec % MILLION)
    else Time(now.sec + secs, usec)
  }

  // Time left until a deadline, borrowing from the seconds; never negative.
  function Left(at: Instant, now: Instant): (t: Instant)
    ensures Micros(t) == if Micros(at) <= Micros(now) then 0 else Micros(at) - Micros(now)
  {
    var sec, usec := at.sec - now.sec, at.usec - now.usec;
    var t := if usec < 0 then Time(sec - 1, usec + MILLION) else Time(sec, usec);
    if t.sec < 0 then Time(0, 0) else t
  }

  datatype Entry = Entry(at: Instant, func: nat, arg: nat)

  predicate Matches(e: Entry, func: nat, arg: nat) { e.func == func && e.arg == arg }

  // Sorted by deadline.
  ghost predicate Sorted(es: seq<Entry>) {
    forall i, j :: 0 <= i < j < |es| ==> !Before(es[j].at, es[i].at)
  }

  // The first entry with a later deadline, where a new entry is linked in.
  function Slot(es: seq<Entry>, at: Instant): (k: nat)
    ensures k <= |es|
    ensures forall i :: 0 <= i < k ==> !Before(at, es[i].at)
    ensures k < |es| ==> Before(at, es[k].at)
  {
    if es == [] || Before(at, es[0].at) then 0
    else 1 + Slot(es[1..], at)
  }

  function Insert(es: seq<Entry>, e: Entry): seq<Entry> {
    var k := Slot(es, e.at);
    es[..k] + [e] + es[k..]
  }

  lemma SortedConcat(a: seq<Entry>, b: seq<Entry>)
    requires Sorted(a) && Sorted(b)
    requires forall i, j :: 0 <= i < |a| && 0 <= j < |b| ==> !Before(b[j].at, a[i].at)
    ensures Sorted(a + b)
  {
    forall i, j | 0 <= i < j < |a + b| ensures !Before((a + b)[j].at, (a + b)[i].at) {
      if j < |a| {
        assert !Before(a[j].at, a[i].at);
      } else if |a| <= i {
        assert !Before(b[j-|a|].at, b[i-|a|].at);
      } else {
        assert !Before(b[j-|a|].at, a[i].at);
      }
    }
  }

  // Equal deadlines keep their order of insertion: everything in front of the
  // new entry is due no later than it, everything behind is due strictly later.
  lemma InsertKeepsOrder(es: seq<Entry>, e: Entry)
    requires Sorted(es)
    ensures Sorted(Insert(es, e))
    ensures forall i :: 0 <= i < Slot(es, e.at) ==> !Before(e.at, es[i].at)
    ensures forall i :: Slot(es, e.at) <= i < |es| ==> Before(e.at, es[i].at)
  {
    var k := Slot(es, e.at);
    LaterBehind(es, k, e.at);
    assert Sorted(es[..k] + es[k..]) by {
      assert es == es[..k] + es[k..];
    }
    SortedAround(es[..k], e, es[k..]);
  }

  lemma LaterBehind(es: seq<Entry>, k: nat, at: Instant)
    requires Sorted(es) && k <= |es| && (k < |es| ==> Before(at, es[k].at))
    ensures forall i :: k <= i < |es| ==> Before(at, es[i].at)
    ensures forall i :: 0 <= i < |es[k..]| ==> !Before(es[k..][i].at, at)
  {
    forall i | k <= i < |es| ensures Before(at, es[i].at) {
      assert i == k || !Before(es[i].at, es[k].at);
    }
  }

  lemma SortedAround(a: seq<Entry>, e: Entry, b: seq<Entry>)
    requires Sorted(a + b)
    requires forall i :: 0 <= i < |a| ==> !Before(e.at, a[i].at)
    requires forall i :: 0 <= i < |b| ==> !Before(b[i].at, e.at)
    ensures Sorted(a + [e] + b)
  {
    var c := a + [e] + b;
    forall i, j | 0 <= i < j < |c| ensures !Before(c[j].at, c[i].at) {
      var i', j' := if i < |a| then i else i - 1, if j < |a| then j else j - 1;
      if i != |a| && j != |a| {
        assert c[i] == (a + b)[i'] && c[j] == (a + b)[j'];
        assert !Before((a + b)[j'].at, (a + b)[i'].at);
      }
    }
  }

  lemma InsertAddsOne(es: seq<Entry>, e: Entry)
    ensures multiset(Insert(es, e)) == multiset(es) + multiset{e}
  {
    var k := Slot(es, e.at);
    assert es == es[..k] + es[k..];
    assert multiset(es[..k] + es[k..]) == multiset(es[..k]) + multiset(es[k..]);
    assert multiset(es[..k] + [e] + es[k..]) == multiset(es[..k]) + multiset([e]) + multiset(es[k..]);
  }

  // The first entry for (func, arg), or the end of the list.
  function Find(es: seq<Entry>, func: nat, arg: nat): (k: nat)
    ensures k <= |es|
    ensures forall i :: 0 <= i < k ==> !Matches(es[i], func, arg)
    ensures k < |es| ==> Matches(es[k], func, arg)
  {
    if es == [] || Matches(es[0], func, arg) then 0
    else 1 + Find(es[1..], func, arg)
  }

  function Remove(es: seq<Entry>, func: nat, arg: nat): seq<Entry> {
    var k := Find(es, func, arg);
    if k < |es| then es[..k] + es[k+1..] else es
  }

  lemma RemoveKeepsOrder(es: seq<Entry>, func: nat, arg: nat)
    requires Sorted(es)
    ensures Sorted(Remove(es, func, arg))
  {
    var k := Find(es, func, arg);
    if k < |es| {
      SortedConcat(es[..k], es[k+1..]);
    }
  }

  lemma CutOne<T>(s: seq<T>, k: nat)
    requires k < |s|
    ensures multiset(s) == multiset(s[..k] + s[k+1..]) + multiset{s[k]}
  {
    assert s == s[..k] + ([s[k]] + s[k+1..]);
  }

  lemma RemoveTakesOne(es: seq<Entry>, func: nat, arg: nat)
    ensures var k := Find(es, func, arg);
            multiset(es) == multiset(Remove(es, func, arg))
                            + if k < |es| then multiset{es[k]} else multiset{}
  {
    var k := Find(es, func, arg);
    if k < |es| {
      CutOne(es, k);
    }
  }

  // The deadlines pending for one (func, arg), and the entries of everybody else.
  function Pending(es: seq<Entry>, func: nat, arg: nat): seq<Instant> {
    if es == [] then []
    else (if Matches(es[0], func, arg) then [es[0].at] else []) + Pending(es[1..], func, arg)
  }

  function Others(es: seq<Entry>, func: nat, arg: nat): seq<Entry> {
    if es == [] then []
    else (if Matches(es[0], func, arg) then [] else [es[0]]) + Others(es[1..], func, arg)
  }

  lemma PendingSplit(a: seq<Entry>, b: seq<Entry>, func: nat, arg: nat)
    ensures Pending(a + b, func, arg) == Pending(a, func, arg) + Pending(b, func, arg)
    ensures Others(a + b, func, arg) == Others(a, func, arg) + Others(b, func, arg)
  {
    MineSplit(a, b, func, arg);
    OthersSplit(a, b, func, arg);
  }

  lemma {:induction false} MineSplit(a: seq<Entry>, b: seq<Entry>, func: nat, arg: nat)
    ensures Pending(a + b, func, arg) == Pending(a, func, arg) + Pending(b, func, arg)
  {
    if a == [] {
      assert a + b == b;
    } else {
      assert (a + b)[0] == a[0] && (a + b)[1..] == a[1..] + b;
      MineSplit(a[1..], b, func, arg);
      var front := if Matches(a[0], func, arg) then [a[0].at] else [];
      assert front + (Pending(a[1..], func, arg) + Pending(b, func, arg))
          == (front + Pending(a[1..], func, arg)) + Pending(b, func, arg);
    }
  }

  lemma {:induction false} OthersSplit(a: seq<Entry>, b: seq<Entry>, func: nat, arg: nat)
    ensures Others(a + b, func, arg) == Others(a, func, arg) + Others(b, func, arg)
  {
    if a == [] {
      assert a + b == b;
    } else {
      assert (a + b)[0] == a[0] && (a + b)[1..] == a[1..] + b;
      OthersSplit(a[1..], b, func, arg);
      var front := if Matches(a[0], func, arg) then [] else [a[0]];
      assert front + (Others(a[1..], func, arg) + Others(b, func, arg))
          == (front + Others(a[1..], func, arg)) + Others(b, func, arg);
    }
  }

  // Arming a timer touches only its owner's deadlines ...
  lemma ArmedPending(es: seq<Entry>, e: Entry, func: nat, arg: nat)
    ensures Matches(e, func, arg) && Pending(es, func, arg) == []
            ==> Pending(Insert(es, e), func, arg) == [e.at]
    ensures Matches(e, func, arg) ==> Others(Insert(es, e), func, arg) == Others(es, func, arg)
    ensures !Matches(e, func, arg) ==> Pending(Insert(es, e), func, arg) == Pending(es, func, arg)
  {
    var k := Slot(es, e.at);
    assert es == es[..k] + es[k..];
    ArmedAt(es[..k], e, es[k..], func, arg);
  }

  lemma ArmedAt(a: seq<Entry>, e: Entry, b: seq<Entry>, func: nat, arg: nat)
    ensures Matches(e, func, arg) && Pending(a + b, func, arg) == [] ==> Pending(a + [e] + b, func, arg) == [e.at]
    ensures Matches(e, func, arg) ==> Others(a + [e] + b, func, arg) == Others(a + b, func, arg)
    ensures !Matches(e, func, arg) ==> Pending(a + [e] + b, func, arg) == Pending(a + b, func, arg)
  {
    PendingSplit(a, b, func, arg);
    PendingOfOne(a, e, b, func, arg);
  }

  lemma {:induction false} NoneBefore(es: seq<Entry>, func: nat, arg: nat)
    requires forall i :: 0 <= i < |es| ==> !Matches(es[i], func, arg)
    ensures Pending(es, func, arg) == [] && Others(es, func, arg) == es
  {
    if es != [] {
      NoneBefore(es[1..], func, arg);
    }
  }

  lemma PendingOfOne(a: seq<Entry>, e: Entry, b: seq<Entry>, func: nat, arg: nat)
    ensures Pending(a + [e] + b, func, arg)
            == Pending(a, func, arg) + (if Matches(e, func, arg) then [e.at] else []) + Pending(b, func, arg)
    ensures Others(a + [e] + b, func, arg)
            == Others(a, func, arg) + (if Matches(e, func, arg) then [] else [e]) + Others(b, func, arg)
  {
    PendingSplit(a + [e], b, func, arg);
    PendingSplit(a, [e], func, arg);
    OnlyOne(e, func, arg);
  }

  lemma OnlyOne(e: Entry, func: nat, arg: nat)
    ensures Pending([e], func, arg) == if Matches(e, func, arg) then [e.at] else []
    ensures Others([e], func, arg) == if Matches(e, func, arg) then [] else [e]
  {
  }

  lemma CancelledAt(a: seq<Entry>, e: Entry, b: seq<Entry>, func: nat, arg: nat)
    requires Matches(e, func, arg) && forall i :: 0 <= i < |a| ==> !Matches(a[i], func, arg)
    ensures Pending(a + b, func, arg) == Rest(Pending(a + [e] + b, func, arg))
    ensures Others(a + b, func, arg) == Others(a + [e] + b, func, arg)
  {
    NoneBefore(a, func, arg);
    PendingOfOne(a, e, b, func, arg);
    PendingSplit(a, b, func, arg);
  }

  // ... and cancelling one removes its owner's first deadline and nothing else.
  lemma CancelledPending(es: seq<Entry>, func: nat, arg: nat)
    ensures Pending(Remove(es, func, arg), func, arg) == Rest(Pending(es, func, arg))
    ensures Others(Remove(es, func, arg), func, arg) == Others(es, func, arg)
  {
    var k := Find(es, func, arg);
    if k < |es| {
      CancelledAt(es[..k], es[k], es[k+1..], func, arg);
      assert es == es[..k] + [es[k]] + es[k+1..];
    } else {
      NoneBefore(es, func, arg);
    }
  }

  function Rest<T>(s: seq<T>): seq<T> { if s == [] then [] else s[1..] }

  lemma CancelledForAnother(es: seq<Entry>, func: nat, arg: nat, func': nat, arg': nat)
    requires func != func' || arg != arg'
    ensures Pending(Remove(es, func, arg), func', arg') == Pending(es, func', arg')
  {
    var k := Find(es, func, arg);
    if k < |es| {
      PendingOfOne(es[..k], es[k], es[k+1..], func', arg');
      PendingSplit(es[..k], es[k+1..], func', arg');
      assert es == es[..k] + [es[k]] + es[k+1..];
    }
  }

  // What a callback may do to the list while calltimeout runs.
  datatype Op = Arm(func: nat, arg: nat, secs: int, usecs: nat, now: Instant) | Cancel(func: nat, arg: nat)

  // One round of calltimeout: the clock it reads, and what the callback does if it fires.
  datatype Turn = Turn(now: Instant, ops: seq<Op>)

  function Armed(op: Op): Entry
    requires op.Arm?
  {
    Entry(Deadline(op.now, op.secs, op.usecs), op.func, op.arg)
  }

  function Perform(es: seq<Entry>, ops: seq<Op>): seq<Entry>
    decreases |ops|
  {
    if ops == [] then es
    else match ops[0]
      case Arm(_, _, _, _, _) => Perform(Insert(es, Armed(ops[0])), ops[1..])
      case Cancel(func, arg) => Perform(Remove(es, func, arg), ops[1..])
  }

  // The rounds of calltimeout that fire, and the list they leave.
  function RunDue(es: seq<Entry>, turns: seq<Turn>): (r: (seq<Entry>, seq<Entry>))
    ensures |r.0| <= |turns|
    decreases |turns|
  {
    if turns == [] || es == [] || !Due(es[0].at, turns[0].now) then ([], es)
    else
      var (fired, rest) := RunDue(Perform(es[1..], turns[0].ops), turns[1..]);
      ([es[0]] + fired, rest)
  }

  function AddedBy(ops: seq<Op>): multiset<Entry> {
    if ops == [] then multiset{}
    else (if ops[0].Arm? then multiset{Armed(ops[0])} else multiset{}) + AddedBy(ops[1..])
  }

  function Added(turns: seq<Turn>): multiset<Entry> {
    if turns == [] then multiset{} else AddedBy(turns[0].ops) + Added(turns[1..])
  }

  predicate NoCancel(turns: seq<Turn>) {
    forall i, j :: 0 <= i < |turns| && 0 <= j < |turns[i].ops| ==> turns[i].ops[j].Arm?
  }

  lemma {:induction false} PerformConserves(es: seq<Entry>, ops: seq<Op>)
    ensures Sorted(es) ==> Sorted(Perform(es, ops))
    ensures multiset(Perform(es, ops)) <= multiset(es) + AddedBy(ops)
    ensures (forall j :: 0 <= j < |ops| ==> ops[j].Arm?) ==> multiset(Perform(es, ops)) == multiset(es) + AddedBy(ops)
    decreases |ops|
  {
    if ops != [] {
      match ops[0]
      case Arm(_, _, _, _, _) =>
        InsertAddsOne(es, Armed(ops[0]));
        if Sorted(es) { InsertKeepsOrder(es, Armed(ops[0])); }
        PerformConserves(Insert(es, Armed(ops[0])), ops[1..]);
      case Cancel(func, arg) =>
        RemoveTakesOne(es, func, arg);
        if Sorted(es) { RemoveKeepsOrder(es, func, arg); }
        PerformConserves(Remove(es, func, arg), ops[1..]);
    }
  }

  lemma {:induction false} NeverEarly(es: seq<Entry>, turns: seq<Turn>)
    requires Sorted(es)
    ensures var (fired, rest) := RunDue(es, turns);
            && Sorted(rest)
            && (forall i :: 0 <= i < |fired| ==> Due(fired[i].at, turns[i].now))
            && (|fired| < |turns| && rest != [] ==> !Due(rest[0].at, turns[|fired|].now))
    decreases |turns|
  {
    if turns == [] || es == [] || !Due(es[0].at, turns[0].now) {
    } else {
      var next := Perform(es[1..], turns[0].ops);
      TailSorted(es);
      PerformConserves(es[1..], turns[0].ops);
      NeverEarly(next, turns[1..]);
      DueInFront(es[0], RunDue(next, turns[1..]).0, turns);
    }
  }

  lemma DueInFront(e: Entry, fired: seq<Entry>, turns: seq<Turn>)
    requires turns != [] && |fired| < |turns| && Due(e.at, turns[0].now)
    requires forall i :: 0 <= i < |fired| ==> Due(fired[i].at, turns[1..][i].now)
    ensures forall i :: 0 <= i < |[e] + fired| ==> Due(([e] + fired)[i].at, turns[i].now)
  {
    forall i | 0 <= i < |fired| + 1 ensures Due(([e] + fired)[i].at, turns[i].now) {
      if i > 0 { assert turns[i] == turns[1..][i-1] && ([e] + fired)[i] == fired[i-1]; }
    }
  }

  lemma TailSorted(es: seq<Entry>)
    requires Sorted(es) && es != []
    ensures Sorted(es[1..])
  {
  }

  // Every entry fires at most once; unless a callback cancels it, an entry that
  // was or became pending has fired or is pending still.
  lemma {:induction false} FiresOnce(es: seq<Entry>, turns: seq<Turn>)
    ensures var (fired, rest) := RunDue(es, turns);
            && multiset(fired) + multiset(rest) <= multiset(es) + Added(turns[..|fired|])
            && (NoCancel(turns) ==> multiset(fired) + multiset(rest) == multiset(es) + Added(turns[..|fired|]))
    decreases |turns|
  {
    if turns == [] || es == [] || !Due(es[0].at, turns[0].now) {
      assert turns[..0] == [];
    } else {
      var next := Perform(es[1..], turns[0].ops);
      PerformConserves(es[1..], turns[0].ops);
      FiresOnce(next, turns[1..]);
      FiresOnceStep(es, turns, next);
      if NoCancel(turns) {
        NoCancelBehind(turns);
      }
      var (fired, rest) := RunDue(next, turns[1..]);
      Chain(multiset{es[0]}, multiset(es[1..]), multiset(next), multiset(fired), multiset(rest),
            AddedBy(turns[0].ops), Added(turns[1..][..|fired|]));
    }
  }

  lemma Chain<T>(x: multiset<T>, es: multiset<T>, next: multiset<T>, f: multiset<T>, r: multiset<T>,
                 a: multiset<T>, b: multiset<T>)
    requires next <= es + a && f + r <= next + b
    ensures (x + f) + r <= (x + es) + (a + b)
    ensures next == es + a && f + r == next + b ==> (x + f) + r == (x + es) + (a + b)
  {
    forall e: T | e in (x + f) + r ensures ((x + f) + r)[e] <= ((x + es) + (a + b))[e] {
      assert (f + r)[e] <= (next + b)[e] && next[e] <= (es + a)[e];
    }
    if next == es + a && f + r == next + b {
      assert (x + f) + r == x + (f + r) == x + (es + a + b) == (x + es) + (a + b);
    }
  }

  lemma FiresOnceStep(es: seq<Entry>, turns: seq<Turn>, next: seq<Entry>)
    requires turns != [] && es != [] && Due(es[0].at, turns[0].now)
    requires next == Perform(es[1..], turns[0].ops)
    ensures var n := |RunDue(next, turns[1..]).0|;
            && multiset(RunDue(es, turns).0) == multiset{es[0]} + multiset(RunDue(next, turns[1..]).0)
            && multiset(es) == multiset{es[0]} + multiset(es[1..])
            && Added(turns[..n+1]) == AddedBy(turns[0].ops) + Added(turns[1..][..n])
  {
    assert es == [es[0]] + es[1..];
    AddedFirst(turns, |RunDue(next, turns[1..]).0|);
  }

  lemma AddedFirst(turns: seq<Turn>, n: nat)
    requires n < |turns|
    ensures Added(turns[..n + 1]) == AddedBy(turns[0].ops) + Added(turns[1..][..n])
  {
    var front := turns[..n + 1];
    assert front[0] == turns[0] && front[1..] == turns[1..][..n];
  }

  lemma NoCancelBehind(turns: seq<Turn>)
    requires turns != [] && NoCancel(turns)
    ensures NoCancel(turns[1..]) && forall j :: 0 <= j < |turns[0].ops| ==> turns[0].ops[j].Arm?
  {
    assert forall i :: 0 <= i < |turns[1..]| ==> turns[1..][i] == turns[i+1];
  }

  // Whether no callback cancels the entries of (func, arg).
  predicate Leaves(ops: seq<Op>, func: nat, arg: nat) {
    forall j :: 0 <= j < |ops| && ops[j].Cancel? ==> ops[j].func != func || ops[j].arg != arg
  }

  predicate Spares(turns: seq<Turn>, func: nat, arg: nat) {
    forall i :: 0 <= i < |turns| ==> Leaves(turns[i].ops, func, arg)
  }

  lemma {:induction false} PerformLeaves(es: seq<Entry>, ops: seq<Op>, e: Entry)
    requires Leaves(ops, e.func, e.arg)
    ensures multiset(Perform(es, ops))[e] == multiset(es)[e] + AddedBy(ops)[e]
    decreases |ops|
  {
    if ops != [] {
      assert Leaves(ops[1..], e.func, e.arg);
      match ops[0]
      case Arm(_, _, _, _, _) =>
        InsertAddsOne(es, Armed(ops[0]));
        PerformLeaves(Insert(es, Armed(ops[0])), ops[1..], e);
      case Cancel(func, arg) =>
        assert ops[0].Cancel?;
        RemoveTakesOne(es, func, arg);
        PerformLeaves(Remove(es, func, arg), ops[1..], e);
    }
  }

  lemma SparesBehind(turns: seq<Turn>, n: nat, e: Entry)
    requires n < |turns| && Spares(turns[..n + 1], e.func, e.arg)
    ensures Leaves(turns[0].ops, e.func, e.arg) && Spares(turns[1..][..n], e.func, e.arg)
  {
    assert turns[0] == turns[..n + 1][0];
    assert forall i :: 0 <= i < n ==> turns[1..][..n][i] == turns[..n + 1][i + 1];
  }

  // An entry that nobody cancels has fired, as often as it was armed, or is pending.
  lemma {:induction false} UncancelledStays(es: seq<Entry>, turns: seq<Turn>, e: Entry)
    requires Spares(turns[..|RunDue(es, turns).0|], e.func, e.arg)
    ensures var (fired, rest) := RunDue(es, turns);
            multiset(fired)[e] + multiset(rest)[e] == multiset(es)[e] + Added(turns[..|fired|])[e]
    decreases |turns|
  {
    if turns == [] || es == [] || !Due(es[0].at, turns[0].now) {
      assert turns[..0] == [];
    } else {
      var next := Perform(es[1..], turns[0].ops);
      SparesBehind(turns, |RunDue(next, turns[1..]).0|, e);
      PerformLeaves(es[1..], turns[0].ops, e);
      UncancelledStays(next, turns[1..], e);
      FiresOnceStep(es, turns, next);
    }
  }

  lemma NoneDue(es: seq<Entry>, now: Instant, e: Entry)
    requires Sorted(es) && (es != [] ==> !Due(es[0].at, now)) && Due(e.at, now)
    ensures multiset(es)[e] == 0
  {
    if e in multiset(es) {
      var i :| 0 <= i < |es| && es[i] == e;
      NoneEarlier(es, i, now);
    }
  }

  lemma NoneEarlier(es: seq<Entry>, i: nat, now: Instant)
    requires Sorted(es) && i < |es| && !Due(es[0].at, now)
    ensures !Due(es[i].at, now)
  {
    assert i == 0 || !Before(es[i].at, es[0].at);
  }

  lemma {:induction false} AddedPrefix(turns: seq<Turn>, n: nat)
    requires n <= |turns|
    ensures |Added(turns[..n])| <= |Added(turns)|
    decreases n
  {
    if n > 0 {
      AddedPrefix(turns[1..], n - 1);
      assert turns[..n][1..] == turns[1..][..n - 1];
    } else {
      assert turns[..0] == [];
    }
  }

  // With a round for every entry, armed before or meanwhile, and one to spare,
  // calltimeout comes to an end.
  lemma RoundsSuffice(es: seq<Entry>, turns: seq<Turn>)
    requires |es| + |Added(turns)| < |turns|
    ensures |RunDue(es, turns).0| < |turns|
  {
    var (fired, rest) := RunDue(es, turns);
    FiresOnce(es, turns);
    AddedPrefix(turns, |fired|);
    FewerAre(multiset(fired) + multiset(rest), multiset(es) + Added(turns[..|fired|]));
    assert |multiset(fired)| == |fired| && |multiset(es)| == |es|;
  }

  lemma FewerAre<T>(a: multiset<T>, b: multiset<T>)
    requires a <= b
    ensures |a| <= |b|
  {
    assert b == a + (b - a);
  }

  // Then, whatever the callbacks arm and cancel, every entry that was pending or has
  // been armed, is due at the last reading of the clock, and is not cancelled has fired,
  // just as often as it was armed.
  lemma FiresAllDue(es: seq<Entry>, turns: seq<Turn>, e: Entry)
    requires Sorted(es) && |es| + |Added(turns)| < |turns|
    ensures var fired := RunDue(es, turns).0;
            && |fired| < |turns|
            && (Due(e.at, turns[|fired|].now) && Spares(turns[..|fired|], e.func, e.arg) ==>
                  multiset(fired)[e] == multiset(es)[e] + Added(turns[..|fired|])[e])
  {
    var (fired, rest) := RunDue(es, turns);
    RoundsSuffice(es, turns);
    NeverEarly(es, turns);
    if Due(e.at, turns[|fired|].now) && Spares(turns[..|fired|], e.func, e.arg) {
      UncancelledStays(es, turns, e);
      NoneDue(rest, turns[|fired|].now, e);
    }
  }

  // With callbacks that leave the list alone and rounds to spare, exactly the
  // entries due by `now` fire, in list order.
  lemma {:induction false} FiresInOrder(es: seq<Entry>, turns: seq<Turn>, now: Instant)
    requires Sorted(es) && |es| < |turns|
    requires forall i :: 0 <= i < |turns| ==> turns[i] == Turn(now, [])
    ensures var (fired, rest) := RunDue(es, turns);
            && es == fired + rest
            && (forall i :: 0 <= i < |fired| ==> Due(fired[i].at, now))
            && (forall i :: 0 <= i < |rest| ==> !Due(rest[i].at, now))
  {
    if es == [] {
    } else if Due(es[0].at, now) {
      assert turns[0] == Turn(now, []);
      FiresInOrder(es[1..], turns[1..], now);
      var (fired, rest) := RunDue(es[1..], turns[1..]);
      assert RunDue(es, turns) == ([es[0]] + fired, rest);
      assert es == [es[0]] + es[1..];
    } else {
      assert turns[0] == Turn(now, []);
      forall i | 0 <= i < |es| ensures !Due(es[i].at, now) {
        if i > 0 { assert !Before(es[i].at, es[0].at); }
      }
    }
  }

  // Rounds are still to come from the i-th on, and then all is as in `goal`.
  ghost predicate Running(goal: (seq<Entry>, seq<Entry>), fired: seq<Entry>, es: seq<Entry>, turns: seq<Turn>,
      i: nat) {
    i <= |turns| && forall s: seq<Turn> :: s == turns[i..] ==> (fired + RunDue(es, s).0, RunDue(es, s).1) == goal
  }

  lemma RunningStarts(es: seq<Entry>, turns: seq<Turn>)
    ensures Running(RunDue(es, turns), [], es, turns, 0)
  {
    assert turns[0..] == turns;
    assert [] + RunDue(es, turns).0 == RunDue(es, turns).0;
  }

  lemma RunningStep(goal: (seq<Entry>, seq<Entry>), fired: seq<Entry>, es: seq<Entry>, turns: seq<Turn>, i: nat)
    requires Running(goal, fired, es, turns, i) && i < |turns| && es != [] && Due(es[0].at, turns[i].now)
    ensures Running(goal, fired + [es[0]], Perform(es[1..], turns[i].ops), turns, i + 1)
  {
    var s := turns[i..];
    assert s[0] == turns[i] && s[1..] == turns[i+1..];
    var r := RunDue(Perform(es[1..], turns[i].ops), s[1..]);
    assert RunDue(es, s) == ([es[0]] + r.0, r.1);
    assert fired + ([es[0]] + r.0) == fired + [es[0]] + r.0;
  }

  lemma RunningEnd(goal: (seq<Entry>, seq<Entry>), fired: seq<Entry>, es: seq<Entry>, turns: seq<Turn>, i: nat)
    requires Running(goal, fired, es, turns, i)
    requires i == |turns| || es == [] || !Due(es[0].at, turns[i].now)
    ensures goal == (fired, es)
  {
    var s := turns[i..];
    assert i < |turns| ==> s[0] == turns[i];
    assert RunDue(es, s) == ([], es);
    assert fired + [] == fired;
  }

  class Callout {
    const at: Instant
    const func: nat
    const arg: nat
    var next: Callout?

    constructor (at: Instant, func: nat, arg: nat)
      ensures this.at == at && this.func == func && this.arg == arg
    {
      this.at, this.func, this.arg := at, func, arg;
    }

    function Content(): Entry { Entry(at, func, arg) }
  }

  class CalloutList {
    var head: Callout?
    ghost var links: seq<Callout>
    ghost var entries: seq<Entry>

    ghost predicate Valid()
      reads this, links
    {
      && head == Nth(0)
      && (forall i {:trigger links[i].next} :: 0 <= i < |links| ==> links[i].next == Nth(i + 1))
      && (forall i, j :: 0 <= i < j < |links| ==> links[i] != links[j])
      && |entries| == |links|
      && (forall i {:trigger entries[i]} :: 0 <= i < |links| ==> entries[i] == links[i].Content())
    }

    ghost function Nth(i: nat): Callout?
      reads this
    {
      if i < |links| then links[i] else null
    }

    constructor ()
      ensures Valid() && entries == []
      ensures fresh(links)
    {
      head := null;
      links, entries := [], [];
    }

    // *pp = newp, where pp points at the link between the k-th entry and the one before.
    method LinkIn(prev: Callout?, p: Callout?, newp: Callout, ghost k: nat)
      requires Valid() && k <= |links| && newp !in links
      requires p == Nth(k) && prev == if k == 0 then null else links[k-1]
      modifies this, links, newp
      ensures Valid() && links == old(links[..k] + [newp] + links[k..])
      ensures entries == old(entries[..k]) + [newp.Content()] + old(entries[k..])
    {
      newp.next := p;
      if prev == null {
        head := newp;
      } else {
        prev.next := newp;
      }
      links := links[..k] + [newp] + links[k..];
      entries := entries[..k] + [newp.Content()] + entries[k..];
    }

    // *pp = p->next
    method Unlink(prev: Callout?, p: Callout, ghost k: nat)
      requires Valid() && k < |links|
      requires p == links[k] && prev == if k == 0 then null else links[k-1]
      modifies this, links
      ensures Valid() && links == old(links[..k] + links[k+1..])
      ensures entries == old(entries[..k] + entries[k+1..])
    {
      if prev == null {
        head := p.next;
      } else {
        prev.next := p.next;
      }
      links := links[..k] + links[k+1..];
      entries := entries[..k] + entries[k+1..];
    }

    method Timeout(func: nat, arg: nat, secs: int, usecs: nat, now: Instant)
      requires Valid()
      modifies this, links
      ensures Valid() && fresh(set c | c in links && c !in old(links))
      ensures entries == Insert(old(entries), Entry(Deadline(now, secs, usecs), func, arg))
    {
      var at := Deadline(now, secs, usecs);
      var newp := new Callout(at, func, arg);
      ghost var es := entries;
      var prev: Callout? := null;
      var p := head;
      ghost var k := 0;
      while p != null && !Before(at, p.at)
        invariant 0 <= k <= |links|
        invariant p == Nth(k) && prev == if k == 0 then null else links[k-1]
        invariant k + Slot(es[k..], at) == Slot(es, at)
        decreases |links| - k
        modifies {}
      {
        assert es[k..][1..] == es[k+1..];
        prev, p := p, p.next;
        k := k + 1;
      }
      LinkIn(prev, p, newp, k);
    }

    method Untimeout(func: nat, arg: nat)
      requires Valid()
      modifies this, links
      ensures Valid() && forall c :: c in links ==> c in old(links)
      ensures entries == Remove(old(entries), func, arg)
    {
      ghost var es := entries;
      var prev: Callout? := null;
      var p := head;
      ghost var k := 0;
      while p != null && !(p.func == func && p.arg == arg)
        invariant 0 <= k <= |links|
        invariant p == Nth(k) && prev == if k == 0 then null else links[k-1]
        invariant k + Find(es[k..], func, arg) == Find(es, func, arg)
        decreases |links| - k
        modifies {}
      {
        assert es[k..][1..] == es[k+1..];
        prev, p := p, p.next;
        k := k + 1;
      }
      if p != null {
        Unlink(prev, p, k);
      }
    }

    // The callback's own calls to timeout and untimeout.
    method React(ops: seq<Op>)
      requires Valid()
      modifies this, links
      ensures Valid() && fresh(set c | c in links && c !in old(links))
      ensures entries == Perform(old(entries), ops)
    {
      for i := 0 to |ops|
        invariant Valid() && fresh(set c | c in links && c !in old(links))
        invariant Perform(entries, ops[i..]) == Perform(old(entries), ops)
      {
        assert ops[i..][0] == ops[i] && ops[i..][1..] == ops[i+1..];
        match ops[i]
        case Arm(func, arg, secs, usecs, now) => Timeout(func, arg, secs, usecs, now);
        case Cancel(func, arg) => Untimeout(func, arg);
      }
    }

    // The rounds are those the caller's clock readings allow; a run of calltimeout
    // that goes on for ever is every one of its finite beginnings.
    method CallTimeout(turns: seq<Turn>) returns (fired: seq<Entry>)
      requires Valid()
      modifies this, links
      ensures Valid() && fresh(set c | c in links && c !in old(links))
      ensures fired == RunDue(old(entries), turns).0 && entries == RunDue(old(entries), turns).1
    {
      fired := [];
      var i: nat := 0;
      ghost var goal := RunDue(entries, turns);
      RunningStarts(entries, turns);
      while head != null && i < |turns|
        invariant Valid() && fresh(set c | c in links && c !in old(links))
        invariant Running(goal, fired, entries, turns, i)
        decreases |turns| - i
      {
        var p := head;
        assert entries[0] == p.Content();
        if !Due(p.at, turns[i].now) {
          break;
        }
        RunningStep(goal, fired, entries, turns, i);
        head := p.next;
        links, entries := links[1..], entries[1..];
        React(turns[i].ops);
        fired := fired + [p.Content()];
        i := i + 1;
      }
      RunningEnd(goal, fired, entries, turns, i);
    }

    method TimeLeft(now: Instant) returns (left: Time, any: bool)
      requires Valid()
      ensures any <==> entries != []
      ensures any ==> left == Left(entries[0].at, now)
    {
      any := head != null;
      left := Time(0, 0);
      if any {
        left := Time(head.at.sec - now.sec, head.at.usec - now.usec);
        if left.usec < 0 {
          left := Time(left.sec - 1, left.usec + MILLION);
        }
        if left.sec < 0 {
          left := Time(0, 0);
        }
      }
    }
  }
}
