/** The message queue and the quotas of an online coach (src/coach.cpp). */
module Coach {
  import opened Numbers

  datatype Kind = Meta | Freeform | Info | Advice | Define | Del | Rule

  datatype Msg = Msg(kind: Kind, text: string, timeRecv: int)

  datatype Reply = OkSay | TooMany(kind: Kind) | CannotSayFreeform

  /** Messages left, or allowed per window, of the six counted kinds. */
  datatype Quotas = Quotas(define: int, advice: int, info: int, meta: int, del: int, rule: int) {
    function Of(k: Kind): int
      requires k != Freeform
    {
      match k
      case Define => define
      case Advice => advice
      case Info => info
      case Meta => meta
      case Del => del
      case Rule => rule
    }

    function Less(k: Kind): Quotas
      requires k != Freeform
    {
      match k
      case Define => this.(define := define - 1)
      case Advice => this.(advice := advice - 1)
      case Info => this.(info := info - 1)
      case Meta => this.(meta := meta - 1)
      case Del => this.(del := del - 1)
      case Rule => this.(rule := rule - 1)
    }
  }

  datatype Params = Params(
    messPerCycle: int, messDelay: int, winSize: int, win: Quotas,
    freeformWaitPeriod: int, freeformSendPeriod: int, freeformCountMax: int)

  type ServerParams = p: Params | p.winSize >= 1 && p.freeformWaitPeriod >= 1
    witness Params(1, 0, 1, Quotas(1, 1, 1, 1, 1, 1), 1, 0, 0)

  datatype State = State(
    queue: seq<Msg>, left: Quotas, updateTime: int,
    freeformSaid: int, freeformAllowed: int, said: seq<Msg>)

  function Start(p: ServerParams): State {
    State([], Quotas(-1, -1, -1, -1, -1, -1), -1, 0, p.freeformCountMax, [])
  }

  // ----- one operation

  /** playOnPeriod is the time since play was last resumed. */
  function CanSendFreeform(p: ServerParams, playOn: bool, playOnPeriod: int): bool {
    if !playOn then true
    else if playOnPeriod > p.freeformWaitPeriod then playOnPeriod % p.freeformWaitPeriod < p.freeformSendPeriod
    else false
  }

  function SayReply(p: ServerParams, s: State, kind: Kind, playOn: bool, playOnPeriod: int): Reply {
    if kind == Freeform then
      if CanSendFreeform(p, playOn, playOnPeriod) then
        if s.freeformSaid < s.freeformAllowed || s.freeformAllowed < 0 then OkSay else TooMany(Freeform)
      else CannotSayFreeform
    else if !playOn || s.left.Of(kind) > 0 then OkSay
    else TooMany(kind)
  }

  function Say(p: ServerParams, s: State, kind: Kind, text: string, time: int, playOn: bool, playOnPeriod: int): State {
    if SayReply(p, s, kind, playOn, playOnPeriod) != OkSay then s
    else
      var s1 := s.(queue := s.queue + [Msg(kind, text, time)]);
      if kind == Freeform then s1.(freeformSaid := s.freeformSaid + 1)
      else if playOn then s1.(left := s.left.Less(kind))
      else s1
  }

  predicate Due(p: ServerParams, m: Msg, time: int, playOn: bool) {
    !playOn || time - m.timeRecv >= p.messDelay
  }

  /** How many messages at the front of the queue are due. */
  function DueLength(p: ServerParams, queue: seq<Msg>, time: int, playOn: bool): (n: nat)
    ensures n <= |queue|
  {
    if queue == [] || !Due(p, queue[0], time, playOn) then 0 else 1 + DueLength(p, queue[1..], time, playOn)
  }

  function CheckQueue(p: ServerParams, s: State, time: int, playOn: bool): State {
    var n := if p.messPerCycle > 0 then DueLength(p, s.queue, time, playOn) else 0;
    s.(queue := s.queue[n..], said := s.said + s.queue[..n])
  }

  predicate WindowOpens(p: ServerParams, s: State, time: int) {
    !(s.updateTime >= 0 && time - s.updateTime < p.winSize)
  }

  function UpdateLeft(p: ServerParams, s: State, time: int): State {
    if WindowOpens(p, s, time) then s.(left := p.win, updateTime := time) else s
  }

  function Award(p: ServerParams, s: State): State {
    if s.freeformAllowed > 0 then s.(freeformAllowed := s.freeformAllowed + p.freeformCountMax) else s
  }

  // ----- runs

  /** A say command, the coach part of a simulation step, or the award of more
      freeform messages; time is the time of the match. */
  datatype Event =
    | SayEvent(time: int, kind: Kind, text: string, playOn: bool, playOnPeriod: int)
    | StepEvent(time: int, playOn: bool)
    | AwardEvent(time: int)

  function Apply(p: ServerParams, s: State, e: Event): State {
    match e
    case SayEvent(time, kind, text, playOn, period) => Say(p, s, kind, text, time, playOn, period)
    case StepEvent(time, playOn) => UpdateLeft(p, CheckQueue(p, s, time, playOn), time)
    case AwardEvent(_) => Award(p, s)
  }

  function Run(p: ServerParams, s: State, es: seq<Event>): State
    decreases |es|
  {
    if es == [] then s else Run(p, Apply(p, s, es[0]), es[1..])
  }

  predicate Accepts(p: ServerParams, s: State, e: Event) {
    e.SayEvent? && SayReply(p, s, e.kind, e.playOn, e.playOnPeriod) == OkSay
  }

  /** The messages accepted during a run, in order. */
  function Accepted(p: ServerParams, s: State, es: seq<Event>): seq<Msg>
    decreases |es|
  {
    if es == [] then []
    else
      var now := if Accepts(p, s, es[0]) then [Msg(es[0].kind, es[0].text, es[0].time)] else [];
      now + Accepted(p, Apply(p, s, es[0]), es[1..])
  }

  /** How many messages of a counted kind are accepted during play. */
  function PlayOnCount(p: ServerParams, s: State, es: seq<Event>, k: Kind): nat
    decreases |es|
  {
    if es == [] then 0
    else
      var now := if Accepts(p, s, es[0]) && es[0].kind == k && es[0].playOn then 1 else 0;
      now + PlayOnCount(p, Apply(p, s, es[0]), es[1..], k)
  }

  /** All events happen between from and to, in order of time. */
  ghost predicate Timed(es: seq<Event>, from: int, to: int) {
    && (forall i :: 0 <= i < |es| ==> from <= es[i].time <= to)
    && (forall i, j :: 0 <= i < j < |es| ==> es[i].time <= es[j].time)
  }

  lemma TimedTail(es: seq<Event>, from: int, to: int)
    requires es != [] && Timed(es, from, to)
    ensures Timed(es[1..], es[0].time, to) && Timed(es[1..], from, to)
  {
    forall i | 0 <= i < |es[1..]| ensures es[0].time <= es[1..][i].time <= to {
      assert es[1..][i] == es[i + 1];
    }
  }

  // ----- the queue

  lemma InOutStep(p: ServerParams, s: State, e: Event)
    ensures var s' := Apply(p, s, e);
            s'.said + s'.queue == s.said + s.queue + if Accepts(p, s, e) then [Msg(e.kind, e.text, e.time)] else []
  {
    assert s.said + s.queue + [] == s.said + s.queue;
    match e {
      case SayEvent(time, kind, text, playOn, period) =>
        Regroup(s.said, s.queue, [Msg(kind, text, time)]);
      case StepEvent(time, playOn) =>
        CheckKeeps(p, s, time, playOn);
        hide CheckQueue;
      case AwardEvent(_) =>
    }
  }

  lemma CheckKeeps(p: ServerParams, s: State, time: int, playOn: bool)
    ensures var s' := CheckQueue(p, s, time, playOn); s'.said + s'.queue == s.said + s.queue
  {
    var n := if p.messPerCycle > 0 then DueLength(p, s.queue, time, playOn) else 0;
    Regroup(s.said, s.queue[..n], s.queue[n..]);
    assert s.queue[..n] + s.queue[n..] == s.queue;
  }

  /** Nothing accepted is lost, repeated or overtaken: what has been said followed by
      what is queued is what there was, followed by what was accepted. */
  lemma {:induction false} FirstInFirstOut(p: ServerParams, s: State, es: seq<Event>)
    ensures var s' := Run(p, s, es); s'.said + s'.queue == s.said + s.queue + Accepted(p, s, es)
    decreases |es|
  {
    if es == [] {
      assert s.said + s.queue + [] == s.said + s.queue;
    } else {
      var s1 := Apply(p, s, es[0]);
      var now := if Accepts(p, s, es[0]) then [Msg(es[0].kind, es[0].text, es[0].time)] else [];
      InOutStep(p, s, es[0]);
      hide Apply, Accepts;
      FirstInFirstOut(p, s1, es[1..]);
      Regroup(s.said + s.queue, now, Accepted(p, s1, es[1..]));
    }
  }

  ghost predicate Stamped(queue: seq<Msg>, now: int) {
    && (forall i :: 0 <= i < |queue| ==> queue[i].timeRecv <= now)
    && (forall i, j :: 0 <= i < j < |queue| ==> queue[i].timeRecv <= queue[j].timeRecv)
  }

  lemma {:induction false} DueIsPrefix(p: ServerParams, queue: seq<Msg>, now: int, time: int, playOn: bool)
    requires Stamped(queue, now)
    ensures var n := DueLength(p, queue, time, playOn);
            forall i :: 0 <= i < |queue| ==> (i < n <==> Due(p, queue[i], time, playOn))
    decreases |queue|
  {
    if queue != [] && Due(p, queue[0], time, playOn) {
      DueIsPrefix(p, queue[1..], now, time, playOn);
      var n := DueLength(p, queue[1..], time, playOn);
      forall i | 0 < i < |queue| ensures i < n + 1 <==> Due(p, queue[i], time, playOn) {
        assert queue[i] == queue[1..][i - 1];
      }
    }
  }

  lemma StampedDrop(queue: seq<Msg>, n: nat, now: int, later: int)
    requires Stamped(queue, now) && n <= |queue| && now <= later
    ensures Stamped(queue[n..], later)
  {}

  lemma StampedAppend(queue: seq<Msg>, m: Msg, now: int)
    requires Stamped(queue, now) && now <= m.timeRecv
    ensures Stamped(queue + [m], m.timeRecv)
  {}

  lemma StampedStep(p: ServerParams, s: State, e: Event, now: int)
    requires Stamped(s.queue, now) && now <= e.time
    ensures Stamped(Apply(p, s, e).queue, e.time)
  {
    var s' := Apply(p, s, e);
    if e.SayEvent? {
      StampedAppend(s.queue, Msg(e.kind, e.text, e.time), now);
    }
    var n := if e.StepEvent? && p.messPerCycle > 0 then DueLength(p, s.queue, e.time, e.playOn) else 0;
    StampedDrop(s.queue, n, now, e.time);
    assert s.queue[0..] == s.queue;
  }

  lemma {:induction false} StampsStaySorted(p: ServerParams, s: State, es: seq<Event>, from: int, to: int)
    requires Stamped(s.queue, from) && Timed(es, from, to) && from <= to
    ensures Stamped(Run(p, s, es).queue, to)
    decreases |es|
  {
    if es == [] {
    } else {
      TimedTail(es, from, to);
      StampedStep(p, s, es[0], from);
      StampsStaySorted(p, Apply(p, s, es[0]), es[1..], es[0].time, to);
    }
  }

  /** In a state reached by any run in the order of time, one check of the queue says
      exactly the messages that are due: all of them while play is stopped, those
      that have waited long enough during play. */
  lemma DrainSaysTheDue(p: ServerParams, es: seq<Event>, from: int, to: int, time: int, playOn: bool)
    requires p.messPerCycle >= 1 && Timed(es, from, to) && from <= to
    ensures var s := Run(p, Start(p), es);
            var s' := CheckQueue(p, s, time, playOn);
            var n := |s.queue| - |s'.queue|;
              && n >= 0 && s'.queue == s.queue[n..] && s'.said == s.said + s.queue[..n]
              && (forall i :: 0 <= i < |s.queue| ==> (i < n <==> !playOn || time - s.queue[i].timeRecv >= p.messDelay))
    ensures !playOn ==> CheckQueue(p, Run(p, Start(p), es), time, playOn).queue == []
  {
    var s := Run(p, Start(p), es);
    StampsStaySorted(p, Start(p), es, from, to);
    DueIsPrefix(p, s.queue, to, time, playOn);
    var n := DueLength(p, s.queue, time, playOn);
    if !playOn && n < |s.queue| { assert Due(p, s.queue[n], time, playOn); }
  }

  /** Without a positive messPerCycle nothing is ever said. */
  lemma SwitchedOff(p: ServerParams, s: State, time: int, playOn: bool)
    requires p.messPerCycle <= 0
    ensures CheckQueue(p, s, time, playOn) == s
  {
    assert s.queue[0..] == s.queue && s.said + s.queue[..0] == s.said;
  }

  /** How many messages of a queue are due, wherever they stand. */
  function DueCount(p: ServerParams, queue: seq<Msg>, time: int, playOn: bool): nat {
    if queue == [] then 0 else (if Due(p, queue[0], time, playOn) then 1 else 0) + DueCount(p, queue[1..], time, playOn)
  }

  lemma {:induction false} DueCounted(p: ServerParams, queue: seq<Msg>, now: int, time: int, playOn: bool)
    requires Stamped(queue, now)
    ensures DueLength(p, queue, time, playOn) == DueCount(p, queue, time, playOn)
    decreases |queue|
  {
    if queue == [] {
    } else {
      StampedDrop(queue, 1, now, now);
      DueCounted(p, queue[1..], now, time, playOn);
      if !Due(p, queue[0], time, playOn) {
        DueIsPrefix(p, queue, now, time, playOn);
        NoneDue(p, queue, time, playOn);
      }
    }
  }

  lemma {:induction false} NoneDue(p: ServerParams, queue: seq<Msg>, time: int, playOn: bool)
    requires forall i :: 0 <= i < |queue| ==> !Due(p, queue[i], time, playOn)
    ensures DueCount(p, queue, time, playOn) == 0
    decreases |queue|
  {
    if queue == [] {
    } else {
      NoneDue(p, queue[1..], time, playOn);
    }
  }

  /** The number of messages one check says is the number that are due, whatever
      messPerCycle is (if only positive); so it stays within messPerCycle exactly if no
      more than that are due. */
  lemma CapHolds(p: ServerParams, es: seq<Event>, from: int, to: int, time: int, playOn: bool)
    requires p.messPerCycle >= 1 && Timed(es, from, to) && from <= to
    ensures var s := Run(p, Start(p), es);
            var n := |CheckQueue(p, s, time, playOn).said| - |s.said|;
            && n == DueCount(p, s.queue, time, playOn)
            && (n <= p.messPerCycle <==> DueCount(p, s.queue, time, playOn) <= p.messPerCycle)
  {
    StampsStaySorted(p, Start(p), es, from, to);
    DueCounted(p, Run(p, Start(p), es).queue, to, time, playOn);
  }

  /** With play stopped, one message per cycle and two said, the next check says both. */
  lemma CapExceeded(text: string)
    ensures var p := Params(1, 0, 1, Quotas(1, 1, 1, 1, 1, 1), 1, 0, 0);
            var es := [SayEvent(0, Info, text, false, 0), SayEvent(0, Info, text, false, 0)];
            |CheckQueue(p, Run(p, Start(p), es), 0, false).said| == 2 > p.messPerCycle
  {
    var p: ServerParams := Params(1, 0, 1, Quotas(1, 1, 1, 1, 1, 1), 1, 0, 0);
    var e := SayEvent(0, Info, text, false, 0);
    assert [e, e][1..] == [e] && [e][1..] == [];
    var s1 := Apply(p, Start(p), e);
    var s2 := Apply(p, s1, e);
    assert Run(p, Start(p), [e, e]) == Run(p, s1, [e]) == Run(p, s2, []) == s2;
    assert s2.queue == [Msg(Info, text, 0), Msg(Info, text, 0)];
    assert s2.queue[1..] == [Msg(Info, text, 0)] && s2.queue[1..][1..] == [];
    assert DueLength(p, s2.queue, 0, false) == 1 + DueLength(p, s2.queue[1..], 0, false) == 2 + DueLength(p, s2.queue[1..][1..], 0, false);
  }

  // ----- the quotas

  function Positive(a: int): nat { if a > 0 then a else 0 }

  /** The windows opened by the steps of a run. */
  function Windows(p: ServerParams, s: State, es: seq<Event>): nat
    decreases |es|
  {
    if es == [] then 0
    else
      var now := if es[0].StepEvent? && WindowOpens(p, s, es[0].time) then 1 else 0;
      now + Windows(p, Apply(p, s, es[0]), es[1..])
  }

  lemma CountedStep(p: ServerParams, s: State, e: Event, k: Kind)
    requires k != Freeform && Positive(s.left.Of(k)) <= Positive(p.win.Of(k))
    ensures var left := Positive(Apply(p, s, e).left.Of(k));
            && left <= Positive(p.win.Of(k))
            && left + (if Accepts(p, s, e) && e.kind == k && e.playOn then 1 else 0)
               <= Positive(s.left.Of(k)) + if e.StepEvent? && WindowOpens(p, s, e.time) then Positive(p.win.Of(k)) else 0
  {}

  lemma {:induction false} CountedByWindows(p: ServerParams, s: State, es: seq<Event>, k: Kind)
    requires k != Freeform && Positive(s.left.Of(k)) <= Positive(p.win.Of(k))
    ensures PlayOnCount(p, s, es, k) <= Positive(s.left.Of(k)) + Positive(p.win.Of(k)) * Windows(p, s, es)
    ensures Positive(Run(p, s, es).left.Of(k)) <= Positive(p.win.Of(k))
    decreases |es|
  {
    if es == [] {
    } else {
      var s1 := Apply(p, s, es[0]);
      CountedStep(p, s, es[0], k);
      hide Positive, Accepts, WindowOpens, Apply;
      CountedByWindows(p, s1, es[1..], k);
      OneMore(Positive(p.win.Of(k)), Windows(p, s1, es[1..]));
    }
  }

  lemma {:induction false} WindowsSpaced(p: ServerParams, s: State, es: seq<Event>, from: int, to: int)
    requires 0 <= s.updateTime <= from <= to && Timed(es, from, to)
    ensures p.winSize * Windows(p, s, es) <= to - s.updateTime
    decreases |es|
  {
    if es == [] {
    } else {
      TimedTail(es, from, to);
      var s1 := Apply(p, s, es[0]);
      assert s1.updateTime == (if es[0].StepEvent? && WindowOpens(p, s, es[0].time) then es[0].time else s.updateTime);
      WindowsSpaced(p, s1, es[1..], es[0].time, to);
      OneMore(p.winSize, Windows(p, s1, es[1..]));
    }
  }

  /** Between two times at most one window more opens than fit in between, whatever
      happened before. */
  lemma {:induction false} WindowsBounded(p: ServerParams, s: State, es: seq<Event>, from: int, to: int)
    requires 0 <= from <= to && Timed(es, from, to)
    ensures Windows(p, s, es) <= (to - from) / p.winSize + 1
    decreases |es|
  {
    if es == [] {
    } else {
      TimedTail(es, from, to);
      var s1 := Apply(p, s, es[0]);
      if es[0].StepEvent? && WindowOpens(p, s, es[0].time) {
        WindowsSpaced(p, s1, es[1..], es[0].time, to);
        Fits(p.winSize, Windows(p, s1, es[1..]), to - from);
      } else {
        WindowsBounded(p, s1, es[1..], from, to);
      }
    }
  }

  lemma OneMore(w: int, n: nat)
    ensures w * (1 + n) == w + w * n
  {}

  lemma Fits(w: int, n: nat, t: int)
    requires w >= 1 && w * n <= t
    ensures n <= t / w
  {
    if t / w + 1 <= n { Multiples(t / w + 1, n, w); }
  }

  /** From the start of the match, a period of T cycles accepts during play at most
      win * (T / winSize + 1) messages of each counted kind. */
  lemma QuotaFromStart(p: ServerParams, es: seq<Event>, T: nat, k: Kind)
    requires k != Freeform && Timed(es, 0, T)
    ensures PlayOnCount(p, Start(p), es, k) <= Positive(p.win.Of(k)) * (T / p.winSize + 1)
  {
    CountedByWindows(p, Start(p), es, k);
    WindowsBounded(p, Start(p), es, 0, T);
    Multiples(Windows(p, Start(p), es), T / p.winSize + 1, Positive(p.win.Of(k)));
  }

  /** Any slice of T cycles out of the middle of a match accepts at most
      win * (T / winSize + 2). */
  lemma QuotaOfSlice(p: ServerParams, before: seq<Event>, es: seq<Event>, from: nat, T: nat, k: Kind)
    requires k != Freeform && Timed(es, from, from + T)
    ensures PlayOnCount(p, Run(p, Start(p), before), es, k) <= Positive(p.win.Of(k)) * (T / p.winSize + 2)
  {
    var s := Run(p, Start(p), before);
    CountedByWindows(p, Start(p), before, k);
    CountedByWindows(p, s, es, k);
    WindowsBounded(p, s, es, from, from + T);
    var w := Positive(p.win.Of(k));
    Multiples(Windows(p, s, es), T / p.winSize + 1, w);
    assert w * (T / p.winSize + 2) == w * (T / p.winSize + 1) + w;
  }

  /** The comment beside the counters takes a negative quota for no limit; the code
      takes it for none: such a kind is never accepted during play. */
  lemma NegativeQuotaSilences(p: ServerParams, es: seq<Event>, T: nat, k: Kind)
    requires k != Freeform && p.win.Of(k) < 0 && Timed(es, 0, T)
    ensures PlayOnCount(p, Start(p), es, k) == 0
  {
    QuotaFromStart(p, es, T, k);
  }

  /** Freeform messages during play: not before the waiting period is over, and then
      during the first cycles of every further period; but the very first of these
      cycles is lost. */
  lemma FreeformWindows(p: ServerParams, n: nat, j: nat)
    requires j < p.freeformWaitPeriod
    ensures CanSendFreeform(p, true, n * p.freeformWaitPeriod + j)
       <==> n >= 1 && j < p.freeformSendPeriod && !(n == 1 && j == 0)
  {
    var w := p.freeformWaitPeriod;
    Remainder(n, j, w);
    if n >= 2 { Multiples(2, n, w); }
    assert n == 0 ==> n * w == 0;
  }

  lemma Remainder(n: nat, j: nat, w: nat)
    requires j < w
    ensures (n * w + j) % w == j
  {
    var q, r := (n * w + j) / w, (n * w + j) % w;
    assert q * w + r == n * w + j;
    if q < n { Multiples(q + 1, n, w); }
    if q > n { Multiples(n + 1, q, w); }
  }

  function Awards(es: seq<Event>): nat {
    if es == [] then 0 else (if es[0].AwardEvent? then 1 else 0) + Awards(es[1..])
  }

  function FreeformCount(p: ServerParams, s: State, es: seq<Event>): nat
    decreases |es|
  {
    if es == [] then 0
    else
      var now := if Accepts(p, s, es[0]) && es[0].kind == Freeform then 1 else 0;
      now + FreeformCount(p, Apply(p, s, es[0]), es[1..])
  }

  /** In any run at most freeformCountMax messages, and as many again for every award,
      are accepted in free form. */
  lemma {:induction false} FreeformBounded(p: ServerParams, s: State, es: seq<Event>)
    requires p.freeformCountMax >= 0 && 0 <= s.freeformSaid <= s.freeformAllowed
    ensures var s' := Run(p, s, es);
            && s'.freeformSaid == s.freeformSaid + FreeformCount(p, s, es) <= s'.freeformAllowed
            && s'.freeformAllowed <= s.freeformAllowed + p.freeformCountMax * Awards(es)
    decreases |es|
  {
    if es == [] {
    } else {
      FreeformBounded(p, Apply(p, s, es[0]), es[1..]);
      OneMore(p.freeformCountMax, Awards(es[1..]));
    }
  }

  // ----- exactly which messages are accepted

  /** When the last window was opened by the steps of a run, if any was: a step opens one if
      there is none yet or the last one is winSize old. */
  function LastOpening(winSize: int, es: seq<Event>, before: Option<int>): Option<int>
    decreases |es|
  {
    if es == [] then before
    else LastOpening(winSize, es[1..], if Opens(winSize, es[0], before) then Some(es[0].time) else before)
  }

  predicate Opens(winSize: int, e: Event, before: Option<int>) {
    e.StepEvent? && (before == None || e.time - before.value >= winSize)
  }

  /** How many messages of kind k have got the reply OkSay during play since the last
      opening of a window. */
  function AcceptedSince(p: ServerParams, s: State, es: seq<Event>, k: Kind, opening: Option<int>, before: nat): nat
    decreases |es|
  {
    if es == [] then before
    else
      var e := es[0];
      var opens := Opens(p.winSize, e, opening);
      AcceptedSince(p, Apply(p, s, e), es[1..], k, if opens then Some(e.time) else opening,
                    if opens then 0
                    else if e.SayEvent? && e.kind == k && e.playOn && SayReply(p, s, k, true, e.playOnPeriod) == OkSay then before + 1
                    else before)
  }

  /** The state agrees with the history. */
  ghost predicate Agrees(p: ServerParams, s: State, k: Kind, opening: Option<int>, used: nat)
    requires k != Freeform
  {
    && (opening == None ==> s.updateTime < 0 && s.left.Of(k) <= 0)
    && (opening.Some? ==> s.updateTime == opening.value >= 0 && s.left.Of(k) == p.win.Of(k) - used)
  }

  lemma AgreesStep(p: ServerParams, s: State, e: Event, k: Kind, opening: Option<int>, used: nat)
    requires k != Freeform && Agrees(p, s, k, opening, used) && e.time >= 0
    ensures var opens := Opens(p.winSize, e, opening);
            Agrees(p, Apply(p, s, e), k, if opens then Some(e.time) else opening,
                   if opens then 0
                   else if e.SayEvent? && e.kind == k && e.playOn && SayReply(p, s, k, true, e.playOnPeriod) == OkSay then used + 1
                   else used)
  {}

  lemma {:induction false} AgreesRun(p: ServerParams, s: State, es: seq<Event>, k: Kind, opening: Option<int>, used: nat)
    requires k != Freeform && Agrees(p, s, k, opening, used) && forall i :: 0 <= i < |es| ==> es[i].time >= 0
    ensures Agrees(p, Run(p, s, es), k, LastOpening(p.winSize, es, opening), AcceptedSince(p, s, es, k, opening, used))
    decreases |es|
  {
    if es == [] {
    } else {
      var e := es[0];
      var opens := Opens(p.winSize, e, opening);
      AgreesStep(p, s, e, k, opening, used);
      hide Agrees, Apply, SayReply;
      AgreesRun(p, Apply(p, s, e), es[1..], k, if opens then Some(e.time) else opening,
                if opens then 0
                else if e.SayEvent? && e.kind == k && e.playOn && SayReply(p, s, k, true, e.playOnPeriod) == OkSay then used + 1
                else used);
    }
  }

  /** The reply to a message of a counted kind after any run: with play stopped it is
      accepted; during play exactly if a window has been opened and fewer than the quota of
      that very kind have been accepted during play since. A message that is not accepted
      is answered with the complaint about its kind. */
  lemma CountedReply(p: ServerParams, es: seq<Event>, k: Kind, playOn: bool, playOnPeriod: int)
    requires k != Freeform && forall i :: 0 <= i < |es| ==> es[i].time >= 0
    ensures var hasWindow := LastOpening(p.winSize, es, None).Some?;
            var used := AcceptedSince(p, Start(p), es, k, None, 0);
            SayReply(p, Run(p, Start(p), es), k, playOn, playOnPeriod)
            == if !playOn || (hasWindow && used < p.win.Of(k)) then OkSay else TooMany(k)
  {
    AgreesRun(p, Start(p), es, k, None, 0);
  }

  /** Freeform messages get through during play in the first cycles of every period after
      the first, and always while play is stopped. */
  predicate PeriodOpen(p: ServerParams, playOn: bool, playOnPeriod: int) {
    var n, j := playOnPeriod / p.freeformWaitPeriod, playOnPeriod % p.freeformWaitPeriod;
    !playOn || (n >= 1 && j < p.freeformSendPeriod && !(n == 1 && j == 0))
  }

  function Allowance(p: ServerParams, es: seq<Event>): int {
    if p.freeformCountMax > 0 then p.freeformCountMax * (1 + Awards(es)) else p.freeformCountMax
  }

  lemma FreeformOpen(p: ServerParams, playOn: bool, playOnPeriod: int)
    ensures CanSendFreeform(p, playOn, playOnPeriod) <==> PeriodOpen(p, playOn, playOnPeriod)
  {
    var w := p.freeformWaitPeriod;
    var n, j := playOnPeriod / w, playOnPeriod % w;
    if n >= 0 {
      assert n * w + j == playOnPeriod;
      FreeformWindows(p, n, j);
    } else {
      BelowZero(playOnPeriod, w);
    }
  }

  lemma BelowZero(a: int, w: int)
    requires w >= 1 && a / w < 0
    ensures a < 0
  {}

  lemma {:induction false} FreeformState(p: ServerParams, s: State, es: seq<Event>)
    ensures var s' := Run(p, s, es);
            && s'.freeformSaid == s.freeformSaid + FreeformCount(p, s, es)
            && (s.freeformAllowed <= 0 ==> s'.freeformAllowed == s.freeformAllowed)
            && (s.freeformAllowed > 0 && p.freeformCountMax > 0 ==>
                  s'.freeformAllowed == s.freeformAllowed + p.freeformCountMax * Awards(es))
    decreases |es|
  {
    if es == [] {
    } else {
      FreeformState(p, Apply(p, s, es[0]), es[1..]);
      OneMore(p.freeformCountMax, Awards(es[1..]));
    }
  }

  /** The reply to a freeform message after any run: accepted exactly if the period is open
      and fewer have been accepted than are allowed, or the allowance is negative; the
      allowance grows by its first amount with every award, if that is positive. */
  lemma FreeformReply(p: ServerParams, es: seq<Event>, playOn: bool, playOnPeriod: int)
    ensures SayReply(p, Run(p, Start(p), es), Freeform, playOn, playOnPeriod)
         == if !PeriodOpen(p, playOn, playOnPeriod) then CannotSayFreeform
            else if FreeformCount(p, Start(p), es) < Allowance(p, es) || Allowance(p, es) < 0 then OkSay
            else TooMany(Freeform)
  {
    FreeformOpen(p, playOn, playOnPeriod);
    FreeformState(p, Start(p), es);
    OneMore(p.freeformCountMax, Awards(es));
  }

  // ----- the coach

  class OnlineCoach {
    const p: ServerParams
    var queue: seq<Msg>
    var left: Quotas
    var updateTime: int
    var freeformSaid: int
    var freeformAllowed: int
    var said: seq<Msg>

    function Current(): State
      reads this
    {
      State(queue, left, updateTime, freeformSaid, freeformAllowed, said)
    }

    constructor (p: ServerParams)
      ensures this.p == p && Current() == Start(p)
    {
      this.p := p;
      queue, left, updateTime := [], Quotas(-1, -1, -1, -1, -1, -1), -1;
      freeformSaid, freeformAllowed, said := 0, p.freeformCountMax, [];
    }

    /** A say command that has been parsed into a message of the given kind. */
    method ParseSay(kind: Kind, text: string, time: int, playOn: bool, playOnPeriod: int) returns (reply: Reply)
      modifies this`queue, this`left, this`freeformSaid
      ensures reply == SayReply(p, old(Current()), kind, playOn, playOnPeriod)
      ensures Current() == Say(p, old(Current()), kind, text, time, playOn, playOnPeriod)
    {
      var shouldQueue := false;
      reply := TooMany(kind);
      if kind == Freeform {
        if CanSendFreeform(p, playOn, playOnPeriod) {
          if freeformSaid < freeformAllowed || freeformAllowed < 0 {
            shouldQueue := true;
            freeformSaid := freeformSaid + 1;
          }
        } else {
          reply := CannotSayFreeform;
        }
      } else if !playOn {
        shouldQueue := true;
      } else if left.Of(kind) > 0 {
        left := left.Less(kind);
        shouldQueue := true;
      }
      if shouldQueue {
        queue := queue + [Msg(kind, text, time)];
        reply := OkSay;
      }
    }

    /** The counter i of the source only ever grows: clang_mess_per_cycle switches the
        loop on, it does not limit it. */
    method CheckMessageQueue(time: int, playOn: bool) returns (messagesSent: nat)
      modifies this`queue, this`said
      ensures Current() == CheckQueue(p, old(Current()), time, playOn)
      ensures messagesSent == |old(queue)| - |queue|
    {
      messagesSent := 0;
      var i := p.messPerCycle;
      ghost var due := DueLength(p, queue, time, playOn);
      while i > 0 && |queue| > 0
        invariant p.messPerCycle > 0 ==> i > 0
        invariant p.messPerCycle <= 0 ==> i <= 0 && messagesSent == 0
        invariant 0 <= messagesSent <= due <= |old(queue)|
        invariant queue == old(queue)[messagesSent..] && said == old(said) + old(queue)[..messagesSent]
        invariant due == messagesSent + DueLength(p, queue, time, playOn)
        decreases |queue|
      {
        var msg := queue[0];
        if !playOn || time - msg.timeRecv >= p.messDelay {
          said := said + [msg];
          queue := queue[1..];
          messagesSent := messagesSent + 1;
          assert old(queue)[..messagesSent] == old(queue)[..messagesSent - 1] + [msg];
        } else {
          break;
        }
        i := i + 1;
      }
    }

    method UpdateMessagesLeft(time: int) returns (updated: bool)
      modifies this`left, this`updateTime
      ensures updated == WindowOpens(p, old(Current()), time)
      ensures Current() == UpdateLeft(p, old(Current()), time)
    {
      if updateTime >= 0 && time - updateTime < p.winSize { return false; }
      left := p.win;
      updateTime := time;
      return true;
    }

    method AwardFreeformMessageCount()
      modifies this`freeformAllowed
      ensures Current() == Award(p, old(Current()))
    {
      if freeformAllowed > 0 { freeformAllowed := freeformAllowed + p.freeformCountMax; }
    }

    /** The coach part of a simulation step. */
    method Step(time: int, playOn: bool)
      modifies this
      ensures Current() == Apply(p, old(Current()), StepEvent(time, playOn))
    {
      var sent := CheckMessageQueue(time, playOn);
      var updated := UpdateMessagesLeft(time);
    }
  }
}
