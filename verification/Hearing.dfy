/** What a player hears: the version 8 mailbox with its focus (src/audio.cpp,
    src/audio.h) and the hear capacity of the listener (src/player.cpp). */
module Hearing {
  import opened Numbers

  datatype Side = Left | Neutral | Right

  /** A player who says something; the mailbox is ordered by address. */
  datatype Speaker = Speaker(address: int, side: Side, unum: nat)

  datatype Entry = Entry(from: Speaker, msg: string)

  datatype Heard =
    | CoachSaid(side: Side, said: string)
    | OwnVoice(said: string)
    | Full(ally: bool, speaker: Speaker, said: string)
    | Short(ally: bool, speaker: Speaker)

  datatype Ears = Ears(leftPartial: bool, leftComplete: bool, rightPartial: bool, rightComplete: bool) {
    predicate Complete(side: Side) { (side == Left && leftComplete) || (side == Right && rightComplete) }

    predicate Partial(side: Side) { (side == Left && leftPartial) || (side == Right && rightPartial) }
  }

  datatype Capacity = Capacity(teammate: int, opponent: int) {
    function Of(ally: bool): int { if ally then teammate else opponent }

    function Spend(ally: bool, decay: nat): Capacity {
      if ally then this.(teammate := teammate - decay) else this.(opponent := opponent - decay)
    }
  }

  /** The parameters and the state of the listener that the sender consults. */
  datatype Rules = Rules(side: Side, hearMax: nat, hearInc: nat, hearDecay: nat) {
    predicate Ally(s: Speaker) { s.side == side }
  }

  // ----- what is delivered

  /** One cached message of another player. */
  function Handle(r: Rules, ears: Ears, cap: Capacity, e: Entry): (Capacity, seq<Heard>) {
    var ally := r.Ally(e.from);
    if cap.Of(ally) >= r.hearDecay then
      if ears.Complete(e.from.side) then (cap.Spend(ally, r.hearDecay), [Full(ally, e.from, e.msg)])
      else (cap, [])
    else
      (cap, if ears.Partial(e.from.side) then [Short(ally, e.from)] else [])
  }

  function Deliver(r: Rules, ears: Ears, cap: Capacity, order: seq<Entry>): (Capacity, seq<Heard>)
    decreases |order|
  {
    if order == [] then (cap, [])
    else
      var (cap1, out1) := Handle(r, ears, cap, order[0]);
      var (cap2, out2) := Deliver(r, ears, cap1, order[1..]);
      (cap2, out1 + out2)
  }

  function CoachOutput(msgs: seq<(Side, string)>): (out: seq<Heard>)
    ensures |out| == |msgs| && forall i :: 0 <= i < |out| ==> out[i] == CoachSaid(msgs[i].0, msgs[i].1)
  {
    seq(|msgs|, i requires 0 <= i < |msgs| => CoachSaid(msgs[i].0, msgs[i].1))
  }

  function OwnOutput(msgs: seq<string>): (out: seq<Heard>)
    ensures |out| == |msgs| && forall i :: 0 <= i < |out| ==> out[i] == OwnVoice(msgs[i])
  {
    seq(|msgs|, i requires 0 <= i < |msgs| => OwnVoice(msgs[i]))
  }

  function Refill(r: Rules, c: int): int {
    if c + r.hearInc > r.hearMax then r.hearMax else c + r.hearInc
  }

  // ----- counting

  function CountFrom(order: seq<Entry>, k: int): nat {
    if order == [] then 0 else (if order[0].from.address == k then 1 else 0) + CountFrom(order[1..], k)
  }

  function FullFrom(out: seq<Heard>, k: int): nat {
    if out == [] then 0 else (if out[0].Full? && out[0].speaker.address == k then 1 else 0) + FullFrom(out[1..], k)
  }

  function FullOf(out: seq<Heard>, ally: bool): nat {
    if out == [] then 0 else (if out[0].Full? && out[0].ally == ally then 1 else 0) + FullOf(out[1..], ally)
  }

  lemma {:induction false} FullFromConcat(a: seq<Heard>, b: seq<Heard>, k: int)
    ensures FullFrom(a + b, k) == FullFrom(a, k) + FullFrom(b, k)
  {
    if a == [] {
      assert a + b == b;
    } else {
      assert (a + b)[1..] == a[1..] + b;
      FullFromConcat(a[1..], b, k);
    }
  }

  lemma {:induction false} FullOfConcat(a: seq<Heard>, b: seq<Heard>, ally: bool)
    ensures FullOf(a + b, ally) == FullOf(a, ally) + FullOf(b, ally)
  {
    if a == [] {
      assert a + b == b;
    } else {
      assert (a + b)[1..] == a[1..] + b;
      FullOfConcat(a[1..], b, ally);
    }
  }

  /** Messages of the focused player come first. */
  ghost predicate FocusFirst(order: seq<Entry>, k: int) {
    forall i, j :: 0 <= i < j < |order| && order[j].from.address == k ==> order[i].from.address == k
  }

  ghost predicate AllFrom(order: seq<Entry>, k: int) {
    forall i :: 0 <= i < |order| ==> order[i].from.address == k
  }

  ghost predicate Has(mailbox: seq<Entry>, k: int) {
    exists i :: 0 <= i < |mailbox| && mailbox[i].from.address == k
  }

  /** How many of n messages a budget c pays for at the price decay. */
  function Affordable(n: nat, c: nat, decay: nat): nat {
    if decay == 0 || n <= c / decay then n else c / decay
  }

  ghost predicate OneSpeaker(order: seq<Entry>, s: Speaker) {
    forall i :: 0 <= i < |order| && order[i].from.address == s.address ==> order[i].from == s
  }

  lemma AffordMore(c: nat, decay: nat, n: nat)
    requires 0 < decay <= c
    ensures 1 + Affordable(n, c - decay, decay) == Affordable(n + 1, c, decay)
  {
    assert c / decay == (c - decay) / decay + 1 by {
      var q := (c - decay) / decay;
      assert q * decay <= c - decay < (q + 1) * decay;
      QuotientIs(c, decay, q + 1);
    }
  }

  lemma QuotientIs(c: nat, decay: nat, q: nat)
    requires 0 < decay && q * decay <= c < (q + 1) * decay
    ensures c / decay == q
  {
    var p := c / decay;
    assert p * decay <= c < (p + 1) * decay;
    if p < q { Multiples(p + 1, q, decay); }
    if q < p { Multiples(q + 1, p, decay); }
  }

  lemma {:induction false} FocusedPrefix(r: Rules, ears: Ears, cap: Capacity, order: seq<Entry>, s: Speaker)
    requires FocusFirst(order, s.address) && OneSpeaker(order, s)
    requires ears.Complete(s.side) && cap.Of(r.Ally(s)) >= 0
    ensures FullFrom(Deliver(r, ears, cap, order).1, s.address)
         == Affordable(CountFrom(order, s.address), cap.Of(r.Ally(s)), r.hearDecay)
    decreases |order|
  {
    var c := cap.Of(r.Ally(s));
    if order == [] {
    } else if order[0].from.address != s.address {
      NoneFrom(r, ears, cap, order, s.address);
    } else {
      var (cap1, out1) := Handle(r, ears, cap, order[0]);
      FocusedPrefix(r, ears, cap1, order[1..], s);
      FullFromConcat(out1, Deliver(r, ears, cap1, order[1..]).1, s.address);
      if r.hearDecay > 0 && c >= r.hearDecay {
        AffordMore(c, r.hearDecay, CountFrom(order[1..], s.address));
      } else if c < r.hearDecay {
        QuotientIs(c, r.hearDecay, 0);
      }
    }
  }

  lemma {:induction false} CountFromConcat(a: seq<Entry>, b: seq<Entry>, k: int)
    ensures CountFrom(a + b, k) == CountFrom(a, k) + CountFrom(b, k)
  {
    if a == [] {
      assert a + b == b;
    } else {
      assert (a + b)[1..] == a[1..] + b;
      CountFromConcat(a[1..], b, k);
    }
  }

  lemma Without(b: seq<Entry>, i: nat, k: int)
    requires i < |b|
    ensures CountFrom(b, k) == CountFrom([b[i]], k) + CountFrom(b[..i] + b[i + 1..], k)
  {
    assert b == b[..i] + ([b[i]] + b[i + 1..]);
    CountFromConcat(b[..i], [b[i]] + b[i + 1..], k);
    CountFromConcat([b[i]], b[i + 1..], k);
    CountFromConcat(b[..i], b[i + 1..], k);
  }

  lemma MinusOne<T>(b: seq<T>, i: nat)
    requires i < |b|
    ensures multiset(b[..i] + b[i + 1..]) == multiset(b) - multiset{b[i]}
    ensures multiset(b[..i] + b[i + 1..]) + multiset{b[i]} == multiset(b)
  {
    assert b == b[..i] + [b[i]] + b[i + 1..];
  }

  lemma RestPermuted<T>(a: seq<T>, b: seq<T>, i: nat)
    requires multiset(a) == multiset(b) && i < |b| && a != [] && a[0] == b[i]
    ensures multiset(a[1..]) == multiset(b[..i] + b[i + 1..])
  {
    MinusOne(b, i);
    MinusFirst(a);
  }

  lemma MinusFirst<T>(a: seq<T>)
    requires a != []
    ensures multiset(a[1..]) == multiset(a) - multiset{a[0]}
  {
    assert a == [a[0]] + a[1..];
  }

  lemma {:induction false} CountFromPermuted(a: seq<Entry>, b: seq<Entry>, k: int)
    requires multiset(a) == multiset(b)
    ensures CountFrom(a, k) == CountFrom(b, k)
    decreases |a|
  {
    if a == [] {
      assert |multiset(a)| == |multiset(b)|;
    } else {
      assert a[0] in multiset(b);
      var i :| 0 <= i < |b| && b[i] == a[0];
      Without(b, i, k);
      RestPermuted(a, b, i);
      CountFromPermuted(a[1..], b[..i] + b[i + 1..], k);
      assert CountFrom([b[i]], k) == if a[0].from.address == k then 1 else 0;
    }
  }

  /** Whatever the draws, in one cycle a focused player is heard in full exactly as
      often as the capacity of the listener at its start pays for: min(messages
      cached from that player, capacity / decay). */
  lemma FocusedHeard(r: Rules, ears: Ears, cap: Capacity, mailbox: seq<Entry>, order: seq<Entry>, s: Speaker)
    requires multiset(order) == multiset(mailbox) && FocusFirst(order, s.address)
    requires OneSpeaker(mailbox, s)
    requires ears.Complete(s.side) && cap.Of(r.Ally(s)) >= 0
    ensures FullFrom(Deliver(r, ears, cap, order).1, s.address)
         == Affordable(CountFrom(mailbox, s.address), cap.Of(r.Ally(s)), r.hearDecay)
  {
    forall i | 0 <= i < |order| && order[i].from.address == s.address ensures order[i].from == s {
      assert order[i] in multiset(mailbox);
    }
    FocusedPrefix(r, ears, cap, order, s);
    CountFromPermuted(order, mailbox, s.address);
  }

  lemma {:induction false} NoneFrom(r: Rules, ears: Ears, cap: Capacity, order: seq<Entry>, k: int)
    requires forall i :: 0 <= i < |order| ==> order[i].from.address != k
    ensures FullFrom(Deliver(r, ears, cap, order).1, k) == 0 == CountFrom(order, k)
    decreases |order|
  {
    if order == [] {
    } else {
      var (cap1, out1) := Handle(r, ears, cap, order[0]);
      NoneFrom(r, ears, cap1, order[1..], k);
      FullFromConcat(out1, Deliver(r, ears, cap1, order[1..]).1, k);
    }
  }

  // ----- ears

  /** How many messages of an order come from a side, or from a team. */
  function CountSide(order: seq<Entry>, side: Side): nat {
    if order == [] then 0 else (if order[0].from.side == side then 1 else 0) + CountSide(order[1..], side)
  }

  function CountTeam(r: Rules, order: seq<Entry>, ally: bool): nat {
    if order == [] then 0 else (if r.Ally(order[0].from) == ally then 1 else 0) + CountTeam(r, order[1..], ally)
  }

  /** What is heard of the players of a side. */
  predicate From(h: Heard, side: Side) { (h.Full? || h.Short?) && h.speaker.side == side }

  function HeardFrom(out: seq<Heard>, side: Side): nat {
    if out == [] then 0 else (if From(out[0], side) then 1 else 0) + HeardFrom(out[1..], side)
  }

  lemma HeardFromConcat(a: seq<Heard>, b: seq<Heard>, side: Side)
    requires |a| <= 1
    ensures HeardFrom(a + b, side) == HeardFrom(a, side) + HeardFrom(b, side)
  {
    if a == [] { assert a + b == b; } else { assert (a + b)[1..] == b; }
  }

  /** With the complete ear for one side off, whatever the other ears and the rest of the
      mailbox, that side costs nothing and nothing of it is heard in full. It is heard in
      short, every message of it, if the capacity is used up and the partial ear is on,
      and otherwise not at all: a listener with capacity to spare hears nothing. */
  lemma {:induction false} CompleteEarOff(r: Rules, ears: Ears, cap: Capacity, order: seq<Entry>, side: Side)
    requires side != Neutral && r.side != Neutral && !ears.Complete(side)
    ensures var (cap', out) := Deliver(r, ears, cap, order);
            var ally := side == r.side;
            && cap'.Of(ally) == cap.Of(ally)
            && (forall i :: 0 <= i < |out| && From(out[i], side) ==> out[i].Short?)
            && HeardFrom(out, side) == if cap.Of(ally) < r.hearDecay && ears.Partial(side) then CountSide(order, side) else 0
    decreases |order|
  {
    if order == [] {
    } else {
      var (cap1, out1) := Handle(r, ears, cap, order[0]);
      CompleteEarOff(r, ears, cap1, order[1..], side);
      HeardFromConcat(out1, Deliver(r, ears, cap1, order[1..]).1, side);
    }
  }

  ghost predicate BothEars(ears: Ears, order: seq<Entry>) {
    forall i :: 0 <= i < |order| ==> ears.Complete(order[i].from.side) && ears.Partial(order[i].from.side)
  }

  /** With both ears on nothing goes unheard: every message is heard in its turn, in
      full or, once the capacity for that team is used up, in short; and from a team
      heard in short nothing more is heard in full. */
  lemma {:induction false} BothEarsHear(r: Rules, ears: Ears, cap: Capacity, order: seq<Entry>)
    requires BothEars(ears, order)
    ensures var out := Deliver(r, ears, cap, order).1;
            && |out| == |order|
            && (forall i :: 0 <= i < |order| ==>
                  && (out[i].Full? || out[i].Short?)
                  && out[i].speaker == order[i].from && out[i].ally == r.Ally(order[i].from)
                  && (out[i].Full? ==> out[i].said == order[i].msg))
            && (forall i :: 0 <= i < |order| && cap.Of(out[i].ally) < r.hearDecay ==> out[i].Short?)
            && (forall i, j :: 0 <= i < j < |order| && out[i].Short? && out[j].ally == out[i].ally ==> out[j].Short?)
    decreases |order|
  {
    if order == [] {
    } else {
      var (cap1, out1) := Handle(r, ears, cap, order[0]);
      var rest := Deliver(r, ears, cap1, order[1..]).1;
      BothEarsHear(r, ears, cap1, order[1..]);
      assert Deliver(r, ears, cap, order).1 == [out1[0]] + rest;
    }
  }

  /** And of each team exactly as many are heard in full as its capacity pays for, in
      whatever order they are drawn: min(messages of the team, capacity / decay). */
  lemma {:induction false} BothEarsCount(r: Rules, ears: Ears, cap: Capacity, order: seq<Entry>, ally: bool)
    requires BothEars(ears, order) && cap.Of(ally) >= 0
    ensures FullOf(Deliver(r, ears, cap, order).1, ally)
         == Affordable(CountTeam(r, order, ally), cap.Of(ally), r.hearDecay)
    decreases |order|
  {
    var c := cap.Of(ally);
    if r.hearDecay > 0 && c < r.hearDecay { QuotientIs(c, r.hearDecay, 0); }
    if order == [] {
    } else {
      var (cap1, out1) := Handle(r, ears, cap, order[0]);
      BothEarsCount(r, ears, cap1, order[1..], ally);
      FullOfConcat(out1, Deliver(r, ears, cap1, order[1..]).1, ally);
      FullOfOne(out1[0], ally);
      assert out1 == [out1[0]];
      if r.hearDecay > 0 && c >= r.hearDecay {
        AffordMore(c, r.hearDecay, CountTeam(r, order[1..], ally));
      }
    }
  }

  lemma FullOfOne(h: Heard, ally: bool)
    ensures FullOf([h], ally) == if h.Full? && h.ally == ally then 1 else 0
  {
    assert [h][1..] == [];
  }

  // ----- every message in its turn

  lemma HandleCosts(r: Rules, ears: Ears, cap: Capacity, e: Entry, ally: bool)
    ensures var (cap', out) := Handle(r, ears, cap, e);
            cap'.Of(ally) == cap.Of(ally) - r.hearDecay * FullOf(out, ally)
  {
    var out := Handle(r, ears, cap, e).1;
    if out != [] {
      FullOfOne(out[0], ally);
      assert out == [out[0]];
    }
  }

  lemma {:induction false} DeliverCosts(r: Rules, ears: Ears, cap: Capacity, order: seq<Entry>, ally: bool)
    ensures var (cap', out) := Deliver(r, ears, cap, order);
            cap'.Of(ally) == cap.Of(ally) - r.hearDecay * FullOf(out, ally)
    decreases |order|
  {
    if order == [] {
    } else {
      var (cap1, out1) := Handle(r, ears, cap, order[0]);
      var rest := Deliver(r, ears, cap1, order[1..]).1;
      DeliverCosts(r, ears, cap1, order[1..], ally);
      FullOfConcat(out1, rest, ally);
      HandleCosts(r, ears, cap, order[0], ally);
      hide Handle;
      Distribute(r.hearDecay, FullOf(out1, ally), FullOf(rest, ally));
    }
  }

  /** What message number i becomes, for every state of the ears and every order: with
      what the messages heard in full before it have left of the capacity for its team, it
      is heard in full with its text if the complete ear for its side is on; with less left
      than a message costs, it is heard in short if the partial ear is on; and otherwise it
      is not heard. */
  lemma EachInItsTurn(r: Rules, ears: Ears, cap: Capacity, order: seq<Entry>, i: nat)
    requires i < |order|
    ensures var before := Deliver(r, ears, cap, order[..i]).1;
            var after := Deliver(r, ears, cap, order[..i + 1]).1;
            var (e, ally) := (order[i], order[i].from.side == r.side);
            var left := (if ally then cap.teammate else cap.opponent) - r.hearDecay * FullOf(before, ally);
            var complete := if e.from.side == Left then ears.leftComplete else e.from.side == Right && ears.rightComplete;
            var partial := if e.from.side == Left then ears.leftPartial else e.from.side == Right && ears.rightPartial;
            after == before + if left >= r.hearDecay && complete then [Full(ally, e.from, e.msg)]
                              else if left < r.hearDecay && partial then [Short(ally, e.from)]
                              else []
  {
    var ally := order[i].from.side == r.side;
    assert order[..i + 1] == order[..i] + [order[i]];
    DeliverSnoc(r, ears, cap, order[..i], order[i]);
    DeliverCosts(r, ears, cap, order[..i], ally);
  }

  /** So with the complete ear on and the partial ear off, what is heard of a side is heard
      in full. */
  lemma {:induction false} CompleteOnly(r: Rules, ears: Ears, cap: Capacity, order: seq<Entry>, side: Side)
    requires !ears.Partial(side)
    ensures forall h :: h in Deliver(r, ears, cap, order).1 && From(h, side) ==> h.Full?
    decreases |order|
  {
    if order == [] {
    } else {
      CompleteOnly(r, ears, Handle(r, ears, cap, order[0]).0, order[1..], side);
    }
  }

  // ----- the token bucket over a run

  /** What can happen to the capacity of a listener: the end of a cycle, a mailbox
      emptied by a version 8 sender, or a message sent at once by an older sender. */
  datatype Event =
    | Update
    | Mailbox(ears: Ears, order: seq<Entry>)
    | AtOnce(enabled: bool, near: bool, e: Entry)

  function SendAtOnce(r: Rules, enabled: bool, near: bool, cap: Capacity, e: Entry): (Capacity, seq<Heard>) {
    var ally := r.Ally(e.from);
    if enabled && cap.Of(ally) >= r.hearDecay && near
    then (cap.Spend(ally, r.hearDecay), [Full(ally, e.from, e.msg)])
    else (cap, [])
  }

  function Happen(r: Rules, cap: Capacity, ev: Event): (Capacity, seq<Heard>) {
    match ev
    case Update => (Capacity(Refill(r, cap.teammate), Refill(r, cap.opponent)), [])
    case Mailbox(ears, order) => Deliver(r, ears, cap, order)
    case AtOnce(enabled, near, e) => SendAtOnce(r, enabled, near, cap, e)
  }

  function Run(r: Rules, cap: Capacity, evs: seq<Event>): (Capacity, seq<Heard>)
    decreases |evs|
  {
    if evs == [] then (cap, [])
    else
      var (cap1, out1) := Happen(r, cap, evs[0]);
      var (cap2, out2) := Run(r, cap1, evs[1..]);
      (cap2, out1 + out2)
  }

  function Updates(evs: seq<Event>): nat {
    if evs == [] then 0 else (if evs[0].Update? then 1 else 0) + Updates(evs[1..])
  }

  ghost predicate InRange(r: Rules, cap: Capacity) {
    0 <= cap.teammate <= r.hearMax && 0 <= cap.opponent <= r.hearMax
  }

  lemma Distribute(d: int, a: int, b: int)
    ensures d * (a + b) == d * a + d * b
  {}

  /** The cost of an output. */
  function Cost(r: Rules, out: seq<Heard>, ally: bool): int { r.hearDecay * FullOf(out, ally) }

  lemma CostConcat(r: Rules, a: seq<Heard>, b: seq<Heard>, ally: bool)
    ensures Cost(r, a + b, ally) == Cost(r, a, ally) + Cost(r, b, ally)
  {
    FullOfConcat(a, b, ally);
    Distribute(r.hearDecay, FullOf(a, ally), FullOf(b, ally));
  }

  lemma CostOfOne(r: Rules, h: Heard, ally: bool)
    ensures Cost(r, [h], ally) == if h.Full? && h.ally == ally then r.hearDecay else 0
    ensures Cost(r, [], ally) == 0
  {
    assert FullOf([h], ally) == if h.Full? && h.ally == ally then 1 else 0;
  }

  lemma {:induction false} DeliverSpends(r: Rules, ears: Ears, cap: Capacity, order: seq<Entry>, ally: bool)
    requires InRange(r, cap)
    ensures var (cap', out) := Deliver(r, ears, cap, order);
            InRange(r, cap') && cap'.Of(ally) + Cost(r, out, ally) == cap.Of(ally)
    decreases |order|
  {
    if order == [] {
      CostOfOne(r, OwnVoice(""), ally);
    } else {
      var (cap1, out1) := Handle(r, ears, cap, order[0]);
      CostOfOne(r, if out1 == [] then OwnVoice("") else out1[0], ally);
      DeliverSpends(r, ears, cap1, order[1..], ally);
      CostConcat(r, out1, Deliver(r, ears, cap1, order[1..]).1, ally);
    }
  }

  lemma HappenSpends(r: Rules, cap: Capacity, ev: Event, ally: bool)
    requires InRange(r, cap)
    ensures var (cap', out) := Happen(r, cap, ev);
            InRange(r, cap') && cap'.Of(ally) + Cost(r, out, ally) <= cap.Of(ally) + if ev.Update? then r.hearInc else 0
  {
    var out := Happen(r, cap, ev).1;
    CostOfOne(r, if out == [] then OwnVoice("") else out[0], ally);
    if ev.Mailbox? { DeliverSpends(r, ev.ears, cap, ev.order, ally); }
  }

  /** Over any run, from any state reachable by it, messages heard in full never cost
      more than the capacity at hand plus what the updates add; and the capacity
      stays in its range. */
  lemma {:induction false} BucketHolds(r: Rules, cap: Capacity, evs: seq<Event>, ally: bool)
    requires InRange(r, cap)
    ensures var (cap', out) := Run(r, cap, evs);
            && InRange(r, cap')
            && cap'.Of(ally) + r.hearDecay * FullOf(out, ally) <= cap.Of(ally) + r.hearInc * Updates(evs)
    decreases |evs|
  {
    if evs == [] {
    } else {
      var (cap1, out1) := Happen(r, cap, evs[0]);
      HappenSpends(r, cap, evs[0], ally);
      BucketHolds(r, cap1, evs[1..], ally);
      CostConcat(r, out1, Run(r, cap1, evs[1..]).1, ally);
      Distribute(r.hearInc, if evs[0].Update? then 1 else 0, Updates(evs[1..]));
    }
  }

  lemma RefillMore(r: Rules, c: int, n: nat)
    ensures n * r.hearInc >= 0 && (n + 1) * r.hearInc == n * r.hearInc + r.hearInc
    ensures var d := Refill(r, c) + n * r.hearInc;
            (if d <= r.hearMax then d else r.hearMax) == if c + (n + 1) * r.hearInc <= r.hearMax then c + (n + 1) * r.hearInc else r.hearMax
  {
    assert (n + 1) * r.hearInc == n * r.hearInc + r.hearInc;
    assert n * r.hearInc >= 0;
  }

  /** Without anything heard, n updates bring back n increments, up to the maximum. */
  lemma {:induction false} Refills(r: Rules, cap: Capacity, n: nat, ally: bool)
    requires InRange(r, cap)
    ensures var c := cap.Of(ally) + n * r.hearInc;
            Run(r, cap, seq(n, i => Update)).0.Of(ally) == if c <= r.hearMax then c else r.hearMax
    decreases n
  {
    var evs: seq<Event> := seq(n, i => Update);
    if n == 0 {
      assert evs == [];
    } else {
      var cap1 := Happen(r, cap, Update).0;
      assert evs[0] == Update && evs[1..] == seq(n - 1, i => Update);
      Refills(r, cap1, n - 1, ally);
      RefillMore(r, cap.Of(ally), n - 1);
    }
  }

  /** Messages sent at once to an enabled listener in range are heard in full as far as the
      capacity pays: min(messages of the team, capacity / decay). */
  lemma {:induction false} AtOnceCount(r: Rules, cap: Capacity, evs: seq<Event>, ally: bool)
    requires cap.Of(ally) >= 0
    requires forall i :: 0 <= i < |evs| ==> evs[i].AtOnce? && evs[i].enabled && evs[i].near && (evs[i].e.from.side == r.side <==> ally)
    ensures FullOf(Run(r, cap, evs).1, ally) == Affordable(|evs|, cap.Of(ally), r.hearDecay)
    decreases |evs|
  {
    var c := cap.Of(ally);
    if r.hearDecay > 0 && c < r.hearDecay { QuotientIs(c, r.hearDecay, 0); }
    if evs == [] {
    } else {
      var (cap1, out1) := Happen(r, cap, evs[0]);
      AtOnceCount(r, cap1, evs[1..], ally);
      FullOfConcat(out1, Run(r, cap1, evs[1..]).1, ally);
      if c >= r.hearDecay {
        FullOfOne(out1[0], ally);
        assert out1 == [out1[0]];
        if r.hearDecay > 0 { AffordMore(c, r.hearDecay, |evs| - 1); }
      }
    }
  }

  /** Out of range, or for a disabled listener, nothing is heard and nothing spent. */
  lemma OutOfRange(r: Rules, enabled: bool, near: bool, cap: Capacity, e: Entry)
    requires !enabled || !near
    ensures SendAtOnce(r, enabled, near, cap, e) == (cap, [])
  {}

  // ----- the listener and its sender

  class Player {
    var cap: Capacity
    var enabled: bool
    const r: Rules

    constructor (r: Rules)
      ensures this.r == r && cap == Capacity(r.hearMax, r.hearMax) && enabled
    {
      this.r, cap, enabled := r, Capacity(r.hearMax, r.hearMax), true;
    }

    predicate CanHearFullFrom(s: Speaker)
      reads this
    {
      cap.Of(r.Ally(s)) >= r.hearDecay
    }

    method DecrementHearCapacity(s: Speaker)
      modifies this`cap
      ensures cap == old(cap).Spend(r.Ally(s), r.hearDecay)
    {
      if r.Ally(s) {
        cap := cap.(teammate := cap.teammate - r.hearDecay);
      } else {
        cap := cap.(opponent := cap.opponent - r.hearDecay);
      }
    }

    method UpdateCapacity()
      modifies this`cap
      ensures (cap, []) == Happen(r, old(cap), Update)
    {
      cap := cap.(teammate := cap.teammate + r.hearInc);
      if cap.teammate > r.hearMax { cap := cap.(teammate := r.hearMax); }
      cap := cap.(opponent := cap.opponent + r.hearInc);
      if cap.opponent > r.hearMax { cap := cap.(opponent := r.hearMax); }
    }
  }

  /** The mailbox is a multimap: its entries are ordered by key, and a key stands for one
      player. */
  ghost predicate Keyed(mailbox: seq<Entry>, players: int -> Speaker) {
    && (forall i :: 0 <= i < |mailbox| ==> mailbox[i].from == players(mailbox[i].from.address))
    && forall i, j :: 0 <= i < j < |mailbox| ==> mailbox[i].from.address <= mailbox[j].from.address
  }

  lemma KeyedInsert(a: seq<Entry>, i: nat, e: Entry, players: int -> Speaker)
    requires Keyed(a, players) && i <= |a| && e.from == players(e.from.address)
    requires i > 0 ==> a[i - 1].from.address <= e.from.address
    requires i < |a| ==> a[i].from.address > e.from.address
    ensures Keyed(a[..i] + [e] + a[i..], players)
  {}

  lemma KeyedErase(a: seq<Entry>, i: nat, players: int -> Speaker)
    requires Keyed(a, players) && i < |a|
    ensures Keyed(a[..i] + a[i + 1..], players)
  {}

  lemma KeyedOne(a: seq<Entry>, players: int -> Speaker, s: Speaker)
    requires Keyed(a, players) && s == players(s.address)
    ensures OneSpeaker(a, s)
  {}

  class AudioSenderV8 {
    const listener: Player
    // the players by their addresses, which are the keys of the mailbox
    ghost const players: int -> Speaker
    var coachMsgs: seq<(Side, string)>
    var selfMsgs: seq<string>
    var playerMsgs: seq<Entry>
    var focused: bool
    var key: int
    var focusCount: nat
    var ears: Ears
    var out: seq<Heard>

    constructor (listener: Player, ghost players: int -> Speaker)
      requires forall a :: players(a).address == a
      ensures this.listener == listener && this.players == players && Valid()
      ensures coachMsgs == [] && selfMsgs == [] && playerMsgs == [] && out == []
      ensures !focused && ears == Ears(false, true, false, true)
    {
      this.listener, this.players := listener, players;
      coachMsgs, selfMsgs, playerMsgs, out := [], [], [], [];
      focused, key, focusCount := false, 0, 0;
      ears := Ears(false, true, false, true);
    }

    ghost predicate Valid()
      reads this
    {
      (forall a :: players(a).address == a) && Keyed(playerMsgs, players)
    }

    method SendCoachAudio(side: Side, msg: string)
      modifies this`coachMsgs
      ensures coachMsgs == old(coachMsgs) + [(side, msg)]
    {
      coachMsgs := coachMsgs + [(side, msg)];
    }

    method SendSelfAudio(msg: string)
      modifies this`selfMsgs
      ensures selfMsgs == old(selfMsgs) + [msg]
    {
      selfMsgs := selfMsgs + [msg];
    }

    /** Cache a message of another player; near says that it is within hearing range. */
    method SendNonSelfPlayerAudio(e: Entry, near: bool)
      requires Valid() && e.from == players(e.from.address)
      modifies this`playerMsgs
      ensures Valid()
      ensures var deaf := !ears.Complete(e.from.side) && !ears.Partial(e.from.side) && e.from.side != Neutral;
              multiset(playerMsgs) == multiset(old(playerMsgs)) + if listener.enabled && near && !deaf then multiset{e} else multiset{}
    {
      if !(listener.enabled && near) { return; }
      if !ears.leftComplete && !ears.leftPartial && e.from.side == Left { return; }
      if !ears.rightComplete && !ears.rightPartial && e.from.side == Right { return; }
      Insert(e);
    }

    /** Multimap insertion: behind the entries with the same key. */
    method Insert(e: Entry)
      requires Valid() && e.from == players(e.from.address)
      modifies this`playerMsgs
      ensures Valid() && multiset(playerMsgs) == multiset(old(playerMsgs)) + multiset{e}
    {
      hide Keyed;
      var i := |playerMsgs|;
      while i > 0 && playerMsgs[i - 1].from.address > e.from.address
        invariant 0 <= i <= |playerMsgs|
        invariant playerMsgs == old(playerMsgs)
        invariant i < |playerMsgs| ==> playerMsgs[i].from.address > e.from.address
      {
        i := i - 1;
      }
      KeyedInsert(playerMsgs, i, e, players);
      InsertAt(playerMsgs, i, e);
      playerMsgs := playerMsgs[..i] + [e] + playerMsgs[i..];
    }

    static lemma InsertAt<T>(s: seq<T>, i: nat, e: T)
      requires i <= |s|
      ensures multiset(s[..i] + [e] + s[i..]) == multiset(s) + multiset{e}
    {
      assert s == s[..i] + s[i..];
    }

    method FocusOn(s: Speaker)
      modifies this`focused, this`key, this`focusCount
      ensures focused && key == s.address && focusCount == old(focusCount) + 1
    {
      key := s.address;
      focused := true;
      focusCount := focusCount + 1;
    }

    method FocusOff()
      modifies this`focused, this`focusCount
      ensures !focused && focusCount == old(focusCount) + 1
    {
      focused := false;
      focusCount := focusCount + 1;
    }

    /** Side Neutral addresses both ears. */
    method SetEar(on: bool, side: Side, complete: bool, partial: bool)
      modifies this`ears
      ensures forall s :: s != Neutral ==>
                && ears.Complete(s) == (if complete && side in {s, Neutral} then on else old(ears).Complete(s))
                && ears.Partial(s) == (if partial && side in {s, Neutral} then on else old(ears).Partial(s))
    {
      if side != Right {
        if complete { ears := ears.(leftComplete := on); }
        if partial { ears := ears.(leftPartial := on); }
      }
      if side != Left {
        if complete { ears := ears.(rightComplete := on); }
        if partial { ears := ears.(rightPartial := on); }
      }
    }

    /** Remove the entry at position i of the mailbox. */
    method Erase(i: nat) returns (e: Entry)
      requires Valid() && i < |playerMsgs|
      modifies this`playerMsgs
      ensures Valid() && e == old(playerMsgs)[i]
      ensures multiset(playerMsgs) + multiset{e} == multiset(old(playerMsgs))
      ensures |playerMsgs| < |old(playerMsgs)|
    {
      hide Keyed;
      e := playerMsgs[i];
      KeyedErase(playerMsgs, i, players);
      MinusOne(playerMsgs, i);
      playerMsgs := playerMsgs[..i] + playerMsgs[i + 1..];
    }

    method GetUnfocused() returns (e: Entry)
      requires Valid() && playerMsgs != []
      modifies this`playerMsgs
      ensures Valid() && multiset(playerMsgs) + multiset{e} == multiset(old(playerMsgs))
      ensures |playerMsgs| < |old(playerMsgs)|
    {
      if |playerMsgs| == 1 {
        e := Erase(0);
      } else {
        var idx: nat :| idx < |playerMsgs|;
        e := Erase(idx);
      }
    }

    method GetFocused() returns (e: Entry)
      requires Valid() && playerMsgs != []
      modifies this`playerMsgs
      ensures Valid() && multiset(playerMsgs) + multiset{e} == multiset(old(playerMsgs))
      ensures |playerMsgs| < |old(playerMsgs)|
      ensures e.from.address == key || forall x :: x in old(playerMsgs) ==> x.from.address != key
    {
      var first := 0;
      while first < |playerMsgs| && playerMsgs[first].from.address != key
        invariant 0 <= first <= |playerMsgs| && playerMsgs == old(playerMsgs)
        invariant forall j :: 0 <= j < first ==> playerMsgs[j].from.address != key
      {
        first := first + 1;
      }
      var last := first;
      while last < |playerMsgs| && playerMsgs[last].from.address == key
        invariant first <= last <= |playerMsgs| && playerMsgs == old(playerMsgs)
        invariant forall j :: first <= j < last ==> playerMsgs[j].from.address == key
      {
        last := last + 1;
      }
      if first == last {
        e := GetUnfocused();
      } else if last - first == 1 {
        e := Erase(first);
      } else {
        var idx: nat :| idx < last - first;
        e := Erase(first + idx);
      }
    }

    method SendCachedNonSelfPlayerAudio(e: Entry)
      modifies listener`cap, this`out
      ensures (listener.cap, out) == (var (c, h) := Handle(listener.r, ears, old(listener.cap), e); (c, old(out) + h))
    {
      var ally := listener.r.Ally(e.from);
      if listener.CanHearFullFrom(e.from) {
        if (e.from.side == Left && ears.leftComplete) || (e.from.side == Right && ears.rightComplete) {
          out := out + [Full(ally, e.from, e.msg)];
          listener.DecrementHearCapacity(e.from);
        }
      } else {
        if (e.from.side == Left && ears.leftPartial) || (e.from.side == Right && ears.rightPartial) {
          out := out + [Short(ally, e.from)];
        }
      }
      assert old(out) + [] == old(out);
    }

    method FlushCoach()
      modifies this`coachMsgs, this`out
      ensures coachMsgs == []
      ensures out == old(out) + if listener.enabled then CoachOutput(old(coachMsgs)) else []
    {
      var i := 0;
      while i < |coachMsgs|
        invariant 0 <= i <= |coachMsgs| && coachMsgs == old(coachMsgs)
        invariant out == old(out) + if listener.enabled then CoachOutput(coachMsgs[..i]) else []
      {
        if listener.enabled { out := out + [CoachSaid(coachMsgs[i].0, coachMsgs[i].1)]; }
        assert CoachOutput(coachMsgs[..i + 1]) == CoachOutput(coachMsgs[..i]) + [CoachSaid(coachMsgs[i].0, coachMsgs[i].1)];
        i := i + 1;
      }
      assert coachMsgs[..i] == coachMsgs;
      coachMsgs := [];
    }

    method FlushSelf()
      modifies this`selfMsgs, this`out
      ensures selfMsgs == []
      ensures out == old(out) + if listener.enabled then OwnOutput(old(selfMsgs)) else []
    {
      var i := 0;
      while i < |selfMsgs|
        invariant 0 <= i <= |selfMsgs| && selfMsgs == old(selfMsgs)
        invariant out == old(out) + if listener.enabled then OwnOutput(selfMsgs[..i]) else []
      {
        if listener.enabled { out := out + [OwnVoice(selfMsgs[i])]; }
        assert OwnOutput(selfMsgs[..i + 1]) == OwnOutput(selfMsgs[..i]) + [OwnVoice(selfMsgs[i])];
        i := i + 1;
      }
      assert selfMsgs[..i] == selfMsgs;
      selfMsgs := [];
    }

    /** Draw the next entry and send it. */
    method SendNext() returns (e: Entry)
      requires Valid() && playerMsgs != []
      modifies this`playerMsgs, this`out, listener`cap
      ensures Valid() && multiset(playerMsgs) + multiset{e} == multiset(old(playerMsgs))
      ensures |playerMsgs| < |old(playerMsgs)|
      ensures focused && e.from.address != key ==> !Has(old(playerMsgs), key)
      ensures e.from.address == key ==> Has(old(playerMsgs), key)
      ensures Has(playerMsgs, key) ==> Has(old(playerMsgs), key)
      ensures (listener.cap, out) == (var (c, h) := Handle(listener.r, ears, old(listener.cap), e); (c, old(out) + h))
    {
      if focused { e := GetFocused(); } else { e := GetUnfocused(); }
      HasMore(playerMsgs, e, old(playerMsgs), key);
      SendCachedNonSelfPlayerAudio(e);
    }

    static lemma HasMore(a: seq<Entry>, e: Entry, b: seq<Entry>, k: int)
      requires multiset(a) + multiset{e} == multiset(b)
      ensures Has(a, k) || e.from.address == k ==> Has(b, k)
    {
      if Has(a, k) {
        var i :| 0 <= i < |a| && a[i].from.address == k;
        assert a[i] in multiset(a) && a[i] in multiset(b);
      }
      assert e in multiset(b);
    }

    /** The draining loop: order is the order in which the entries were drawn. */
    method DrainPlayers() returns (ghost order: seq<Entry>)
      requires Valid()
      modifies this`playerMsgs, this`out, listener`cap
      ensures Valid() && playerMsgs == [] && multiset(order) == multiset(old(playerMsgs))
      ensures focused ==> FocusFirst(order, key)
      ensures (listener.cap, out) == (var (c, h) := Deliver(listener.r, ears, old(listener.cap), order); (c, old(out) + h))
    {
      order := [];
      assert out + [] == out;
      while playerMsgs != []
        invariant Valid() && multiset(order) + multiset(playerMsgs) == multiset(old(playerMsgs))
        invariant focused ==> FocusFirst(order, key) && (Has(playerMsgs, key) ==> AllFrom(order, key))
        invariant listener.cap == Deliver(listener.r, ears, old(listener.cap), order).0
        invariant out == old(out) + Deliver(listener.r, ears, old(listener.cap), order).1
        decreases |playerMsgs|
      {
        ghost var cap0, out0 := listener.cap, out;
        var e := SendNext();
        DeliverSnoc(listener.r, ears, old(listener.cap), order, e);
        Regroup(old(out), Deliver(listener.r, ears, old(listener.cap), order).1, Handle(listener.r, ears, cap0, e).1);
        FocusSnoc(order, e, key);
        order := order + [e];
      }
    }

    static lemma FocusSnoc(order: seq<Entry>, e: Entry, k: int)
      ensures FocusFirst(order, k) && (e.from.address == k ==> AllFrom(order, k)) ==> FocusFirst(order + [e], k)
      ensures AllFrom(order, k) && e.from.address == k ==> AllFrom(order + [e], k)
    {}

    /** Empty all three caches into the output. The order in which the other players
        are heard is drawn at random; it is a permutation of the mailbox that begins
        with the messages of the focused player. */
    method NewCycle() returns (ghost order: seq<Entry>)
      requires Valid()
      modifies this`coachMsgs, this`selfMsgs, this`playerMsgs, this`out, listener`cap
      ensures Valid() && coachMsgs == [] && selfMsgs == [] && playerMsgs == []
      ensures multiset(order) == multiset(old(playerMsgs))
      ensures focused ==> FocusFirst(order, key)
      ensures var s, (c, h) := players(key), Deliver(listener.r, ears, old(listener.cap), order);
              && listener.cap == c
              && (focused && ears.Complete(s.side) && old(listener.cap).Of(listener.r.Ally(s)) >= 0 ==>
                    FullFrom(h, key)
                    == Affordable(CountFrom(old(playerMsgs), key), old(listener.cap).Of(listener.r.Ally(s)), listener.r.hearDecay))
              && out == old(out)
                        + (if listener.enabled then CoachOutput(old(coachMsgs)) + OwnOutput(old(selfMsgs)) else [])
                        + h
    {
      hide Keyed, Deliver, FullFrom, CountFrom, Affordable, FocusFirst, OneSpeaker, CoachOutput, OwnOutput;
      FlushCoach();
      FlushSelf();
      assert out == old(out) + if listener.enabled then CoachOutput(old(coachMsgs)) + OwnOutput(old(selfMsgs)) else [];
      ghost var cap, mailbox, s := listener.cap, playerMsgs, players(key);
      order := DrainPlayers();
      if focused && ears.Complete(s.side) && cap.Of(listener.r.Ally(s)) >= 0 {
        KeyedOne(mailbox, players, s);
        FocusedHeard(listener.r, ears, cap, mailbox, order, s);
      }
    }
  }

  lemma {:induction false} DeliverSnoc(r: Rules, ears: Ears, cap: Capacity, order: seq<Entry>, e: Entry)
    ensures var (c, h) := Deliver(r, ears, cap, order);
            var (c', h') := Handle(r, ears, c, e);
            Deliver(r, ears, cap, order + [e]) == (c', h + h')
    decreases |order|
  {
    var (c, h) := Deliver(r, ears, cap, order);
    var (c', h') := Handle(r, ears, c, e);
    if order == [] {
      assert order + [e] == [e] && [e][1..] == [];
      assert h + h' == h' == h' + [];
    } else {
      assert (order + [e])[0] == order[0] && (order + [e])[1..] == order[1..] + [e];
      var (cap1, out1) := Handle(r, ears, cap, order[0]);
      DeliverSnoc(r, ears, cap1, order[1..], e);
      assert h + h' == out1 + (Deliver(r, ears, cap1, order[1..]).1 + h');
    }
  }
}
