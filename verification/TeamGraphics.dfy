/** The broadcast of team graphics to a monitor (src/monitor.cpp). */
module TeamGraphics {

  datatype Key = Key(x: nat, y: nat)

  /** The order of the map in which a team keeps its tiles. */
  predicate Less(a: Key, b: Key) { a.x < b.x || (a.x == b.x && a.y < b.y) }

  /** The keys of a map, in the order of the map. */
  predicate Ordered(tiles: seq<Key>) {
    forall i, j :: 0 <= i < j < |tiles| ==> Less(tiles[i], tiles[j])
  }

  function Keys(tiles: seq<Key>): set<Key> { set k | k in tiles }

  predicate NoRepeats<T(==)>(s: seq<T>) {
    forall i, j :: 0 <= i < j < |s| ==> s[i] != s[j]
  }

  /** Walk backwards through the tiles; collect the unsent ones until the budget is
      used up. */
  function Sweep(tiles: seq<Key>, sent: set<Key>, budget: nat): seq<Key>
    decreases |tiles|
  {
    if tiles == [] || budget == 0 then []
    else
      var n := |tiles| - 1;
      if tiles[n] in sent then Sweep(tiles[..n], sent, budget)
      else [tiles[n]] + Sweep(tiles[..n], sent, budget - 1)
  }

  /** One side of a call, behind its test of the sizes. */
  function SideKeys(tiles: seq<Key>, sent: set<Key>, budget: nat): seq<Key> {
    if |sent| < |tiles| then Sweep(tiles, sent, budget) else []
  }

  datatype Side = Left | Right

  datatype Monitor = Monitor(leftSent: set<Key>, rightSent: set<Key>, log: seq<(Side, Key)>)

  datatype Teams = Teams(left: seq<Key>, right: seq<Key>)

  function MaxSend(beforeKickOff: bool): nat { if beforeKickOff then 32 else 8 }

  function Tagged(side: Side, keys: seq<Key>): seq<(Side, Key)> {
    seq(|keys|, i requires 0 <= i < |keys| => (side, keys[i]))
  }

  function Send(t: Teams, m: Monitor, beforeKickOff: bool): Monitor {
    var l := SideKeys(t.left, m.leftSent, MaxSend(beforeKickOff));
    var r := SideKeys(t.right, m.rightSent, if |l| <= MaxSend(beforeKickOff) then MaxSend(beforeKickOff) - |l| else 0);
    Monitor(m.leftSent + Keys(l), m.rightSent + Keys(r), m.log + Tagged(Left, l) + Tagged(Right, r))
  }

  // ----- one side

  lemma {:induction false} KeysCount(tiles: seq<Key>)
    requires Ordered(tiles)
    ensures |Keys(tiles)| == |tiles|
  {
    if tiles == [] {
      assert Keys(tiles) == {};
    } else {
      var n := |tiles| - 1;
      KeysCount(tiles[..n]);
      assert tiles[n] !in tiles[..n];
      assert Keys(tiles) == Keys(tiles[..n]) + {tiles[n]};
    }
  }

  /** The tiles of one side that a monitor has not got yet. */
  function Unsent(tiles: seq<Key>, sent: set<Key>): nat { |Keys(tiles) - sent| }

  function Lesser(a: nat, b: nat): nat { if a < b then a else b }

  lemma SweepStep(tiles: seq<Key>, sent: set<Key>, budget: nat, n: nat)
    requires Ordered(tiles) && 0 < n <= |tiles| && budget > 0
    ensures var key, rest := tiles[n - 1], tiles[..n - 1];
            && Keys(tiles[..n]) == Keys(rest) + {key} && key !in Keys(rest)
            && Ordered(rest)
            && (forall k :: k in Keys(rest) ==> Less(k, key))
            && Sweep(tiles[..n], sent, budget)
               == if key in sent then Sweep(rest, sent, budget) else [key] + Sweep(rest, sent, budget - 1)
  {
    assert tiles[..n][..n - 1] == tiles[..n - 1];
  }

  predicate Descending(keys: seq<Key>) {
    forall i, j :: 0 <= i < j < |keys| ==> Less(keys[j], keys[i])
  }

  lemma DescendingFrom(key: Key, rest: seq<Key>)
    requires Descending(rest) && forall k :: k in Keys(rest) ==> Less(k, key)
    ensures Descending([key] + rest) && Keys([key] + rest) == {key} + Keys(rest)
  {
    forall i | 0 <= i < |rest| ensures Less(rest[i], key) {
      assert rest[i] in Keys(rest);
    }
  }

  lemma OneMoreUnsent(rest: seq<Key>, sent: set<Key>, key: Key, tiles: seq<Key>)
    requires Keys(tiles) == Keys(rest) + {key} && key !in Keys(rest)
    ensures Unsent(tiles, sent) == Unsent(rest, sent) + if key in sent then 0 else 1
  {
    hide Keys;
    if key in sent {
      assert Keys(tiles) - sent == Keys(rest) - sent;
    } else {
      assert Keys(tiles) - sent == (Keys(rest) - sent) + {key};
    }
  }

  /** A sweep sends unsent tiles only, none twice, highest key first, and as many as
      the budget and the backlog allow. */
  lemma {:induction false} SweepExact(tiles: seq<Key>, sent: set<Key>, budget: nat)
    requires Ordered(tiles)
    ensures var out := Sweep(tiles, sent, budget);
            && |out| == Lesser(budget, Unsent(tiles, sent))
            && Keys(out) <= Keys(tiles) && Keys(out) !! sent
            && Descending(out)
    decreases |tiles|
  {
    hide Ordered;
    hide Keys;
    hide Descending;
    hide Sweep;
    hide Unsent;
    if tiles == [] || budget == 0 {
      SweepDone(tiles, sent, budget);
    } else {
      var n := |tiles| - 1;
      var key, rest := tiles[n], tiles[..n];
      assert tiles[..n + 1] == tiles;
      SweepStep(tiles, sent, budget, n + 1);
      OneMoreUnsent(rest, sent, key, tiles);
      if key in sent {
        SweepExact(rest, sent, budget);
      } else {
        SweepExact(rest, sent, budget - 1);
        DescendingFrom(key, Sweep(rest, sent, budget - 1));
      }
    }
  }

  lemma SweepDone(tiles: seq<Key>, sent: set<Key>, budget: nat)
    requires tiles == [] || budget == 0
    ensures Sweep(tiles, sent, budget) == [] && Keys([]) == {} && Descending([])
    ensures tiles == [] ==> Unsent(tiles, sent) == 0
  {
    if tiles == [] { assert Keys(tiles) - sent == {}; }
  }

  lemma Emptied(side: Side)
    ensures Keys([]) == {} && Tagged(side, []) == []
  {}

  lemma Appended(side: Side, out: seq<Key>, key: Key)
    ensures Keys(out + [key]) == Keys(out) + {key}
    ensures Tagged(side, out + [key]) == Tagged(side, out) + [(side, key)]
  {}

  /** Comparing sizes is asking whether a tile is unsent, as long as only tiles of the
      team have been sent. */
  lemma SizeTest(tiles: seq<Key>, sent: set<Key>)
    requires Ordered(tiles) && sent <= Keys(tiles)
    ensures |sent| < |tiles| <==> exists k :: k in Keys(tiles) && k !in sent
    ensures Unsent(tiles, sent) == |tiles| - |sent|
  {
    KeysCount(tiles);
    hide Ordered;
    hide Keys;
    var unsent := Keys(tiles) - sent;
    assert Keys(tiles) == unsent + sent && unsent !! sent;
    if unsent != {} {
      var k :| k in unsent;
      assert k in Keys(tiles) && k !in sent;
    }
  }

  lemma SideExact(tiles: seq<Key>, sent: set<Key>, budget: nat)
    requires Ordered(tiles) && sent <= Keys(tiles)
    ensures var out := SideKeys(tiles, sent, budget);
            && |out| == Lesser(budget, Unsent(tiles, sent))
            && Keys(out) !! sent && NoRepeats(out)
            && sent + Keys(out) <= Keys(tiles)
            && Unsent(tiles, sent + Keys(out)) == Unsent(tiles, sent) - |out|
  {
    SizeTest(tiles, sent);
    SweepExact(tiles, sent, budget);
    var out := SideKeys(tiles, sent, budget);
    assert NoRepeats(out);
    assert Keys([]) == {};
    Distinct(out);
    Removed(Keys(tiles), sent, Keys(out));
  }

  lemma Removed(all: set<Key>, sent: set<Key>, out: set<Key>)
    requires sent + out <= all && sent !! out
    ensures |all - (sent + out)| == |all - sent| - |out|
  {
    var left := all - (sent + out);
    assert all - sent == left + out && left !! out;
  }

  lemma {:induction false} Distinct(s: seq<Key>)
    requires NoRepeats(s)
    ensures |Keys(s)| == |s|
  {
    if s == [] {
      assert Keys(s) == {};
    } else {
      var n := |s| - 1;
      Distinct(s[..n]);
      assert Keys(s) == Keys(s[..n]) + {s[n]};
    }
  }

  // ----- runs

  ghost predicate Inv(t: Teams, m: Monitor) {
    && Ordered(t.left) && Ordered(t.right)
    && m.leftSent <= Keys(t.left) && m.rightSent <= Keys(t.right)
    && LogFits(m.log, m.leftSent, m.rightSent)
    && |m.log| == |m.leftSent| + |m.rightSent|
  }

  function Backlog(t: Teams, m: Monitor): nat {
    Unsent(t.left, m.leftSent) + Unsent(t.right, m.rightSent)
  }

  lemma LogExtended(log: seq<(Side, Key)>, side: Side, keys: seq<Key>, sent: set<Key>)
    requires NoRepeats(log) && NoRepeats(keys) && Keys(keys) !! sent
    requires forall i :: 0 <= i < |log| && log[i].0 == side ==> log[i].1 in sent
    ensures var log' := log + Tagged(side, keys);
            && NoRepeats(log')
            && (forall i :: 0 <= i < |log'| && log'[i].0 == side ==> log'[i].1 in sent + Keys(keys))
            && (forall i :: 0 <= i < |log'| && log'[i].0 != side ==> i < |log|)
  {
    forall i | 0 <= i < |keys| ensures keys[i] !in sent {
      assert keys[i] in Keys(keys);
    }
  }

  lemma CountAdded(sent: set<Key>, keys: seq<Key>)
    requires NoRepeats(keys) && Keys(keys) !! sent
    ensures |sent + Keys(keys)| == |sent| + |keys|
  {
    Distinct(keys);
  }

  /** The keys in the log that went out for one side. */
  predicate LogFits(log: seq<(Side, Key)>, left: set<Key>, right: set<Key>) {
    && (forall i :: 0 <= i < |log| && log[i].0 == Left ==> log[i].1 in left)
    && (forall i :: 0 <= i < |log| && log[i].0 == Right ==> log[i].1 in right)
    && NoRepeats(log)
  }

  lemma SideLogged(log: seq<(Side, Key)>, left: set<Key>, right: set<Key>, side: Side, keys: seq<Key>)
    requires LogFits(log, left, right)
    requires NoRepeats(keys) && Keys(keys) !! (if side == Left then left else right)
    ensures side == Left ==> LogFits(log + Tagged(side, keys), left + Keys(keys), right)
    ensures side == Right ==> LogFits(log + Tagged(side, keys), left, right + Keys(keys))
  {
    hide NoRepeats;
    LogExtended(log, side, keys, if side == Left then left else right);
  }

  lemma SendKeepsLog(t: Teams, m: Monitor, beforeKickOff: bool)
    requires Inv(t, m)
    ensures var m' := Send(t, m, beforeKickOff); LogFits(m'.log, m'.leftSent, m'.rightSent)
  {
    hide Ordered;
    hide NoRepeats;
    hide Keys;
    hide LogFits;
    hide SideKeys;
    hide Sweep;
    var max := MaxSend(beforeKickOff);
    var l := SideKeys(t.left, m.leftSent, max);
    SideExact(t.left, m.leftSent, max);
    var r := SideKeys(t.right, m.rightSent, max - |l|);
    SideExact(t.right, m.rightSent, max - |l|);
    SideLogged(m.log, m.leftSent, m.rightSent, Left, l);
    SideLogged(m.log + Tagged(Left, l), m.leftSent + Keys(l), m.rightSent, Right, r);
  }

  lemma TaggedLength(m: Monitor, l: seq<Key>, r: seq<Key>)
    ensures var log := m.log + Tagged(Left, l) + Tagged(Right, r);
            |log| == |m.log| + |l| + |r| && log[..|m.log|] == m.log && LeftFirst(log, |m.log|, |l|)
  {}

  /** The sides in the part of a log that a call has added. */
  ghost predicate LeftFirst(log: seq<(Side, Key)>, from: nat, lefts: nat) {
    forall i :: from <= i < |log| ==> log[i].0 == if i < from + lefts then Left else Right
  }

  /** One call sends exactly min(32 before kick-off and 8 later, unsent left + unsent right)
      tiles, none that was sent before, and those of the left side first: a tile of the
      right side goes only after all the unsent ones of the left. */
  lemma SendExact(t: Teams, m: Monitor, beforeKickOff: bool)
    requires Inv(t, m)
    ensures var m', max := Send(t, m, beforeKickOff), if beforeKickOff then 32 else 8;
            && Inv(t, m')
            && |m'.log| - |m.log| == Lesser(max, Backlog(t, m))
            && |m.log| <= |m'.log| && m'.log[..|m.log|] == m.log
            && LeftFirst(m'.log, |m.log|, Lesser(max, Unsent(t.left, m.leftSent)))
            && Backlog(t, m') == Backlog(t, m) - Lesser(max, Backlog(t, m))
  {
    hide LeftFirst;
    hide Ordered;
    hide NoRepeats;
    hide Keys;
    hide LogFits;
    hide SideKeys;
    hide Sweep;
    hide Tagged;
    hide Unsent;
    var max := MaxSend(beforeKickOff);
    var l := SideKeys(t.left, m.leftSent, max);
    SideExact(t.left, m.leftSent, max);
    var r := SideKeys(t.right, m.rightSent, max - |l|);
    SideExact(t.right, m.rightSent, max - |l|);
    CountAdded(m.leftSent, l);
    CountAdded(m.rightSent, r);
    SendKeepsLog(t, m, beforeKickOff);
    TaggedLength(m, l, r);
  }

  /** A new tile for one side (adding a key again replaces its picture only), or a
      call for this monitor. */
  datatype Event = AddLeft(key: Key) | AddRight(key: Key) | Call(beforeKickOff: bool)

  /** The keys in order with k among them. */
  function Insert(tiles: seq<Key>, k: Key): seq<Key> {
    if tiles == [] then [k]
    else if tiles[0] == k then tiles
    else if Less(k, tiles[0]) then [k] + tiles
    else [tiles[0]] + Insert(tiles[1..], k)
  }

  lemma {:induction false} InsertOrdered(tiles: seq<Key>, k: Key)
    requires Ordered(tiles)
    ensures Ordered(Insert(tiles, k)) && Keys(Insert(tiles, k)) == Keys(tiles) + {k}
    decreases |tiles|
  {
    if tiles != [] && tiles[0] != k && !Less(k, tiles[0]) {
      var rest := Insert(tiles[1..], k);
      InsertOrdered(tiles[1..], k);
      forall x | x in rest ensures Less(tiles[0], x) {
        assert x in Keys(rest);
      }
      assert Keys([tiles[0]] + rest) == {tiles[0]} + Keys(rest);
      assert Keys(tiles) == {tiles[0]} + Keys(tiles[1..]);
    } else if tiles != [] && tiles[0] != k {
      assert Keys([k] + tiles) == {k} + Keys(tiles);
    }
  }

  function ApplyTeams(t: Teams, e: Event): Teams {
    match e
    case AddLeft(k) => t.(left := Insert(t.left, k))
    case AddRight(k) => t.(right := Insert(t.right, k))
    case Call(_) => t
  }

  function Apply(t: Teams, m: Monitor, e: Event): Monitor {
    if e.Call? then Send(t, m, e.beforeKickOff) else m
  }

  function RunTeams(t: Teams, es: seq<Event>): Teams
    decreases |es|
  {
    if es == [] then t else RunTeams(ApplyTeams(t, es[0]), es[1..])
  }

  function Run(t: Teams, m: Monitor, es: seq<Event>): Monitor
    decreases |es|
  {
    if es == [] then m else Run(ApplyTeams(t, es[0]), Apply(t, m, es[0]), es[1..])
  }

  lemma InvStep(t: Teams, m: Monitor, e: Event)
    requires Inv(t, m)
    ensures Inv(ApplyTeams(t, e), Apply(t, m, e))
  {
    hide Ordered, LogFits, Send, Keys, Insert;
    match e {
      case AddLeft(k) => InsertOrdered(t.left, k);
      case AddRight(k) => InsertOrdered(t.right, k);
      case Call(b) => SendExact(t, m, b);
    }
  }

  /** However additions and calls interleave, only tiles of the teams are ever marked
      as sent, and every key goes to this monitor at most once. */
  lemma {:induction false} SentOnce(t: Teams, m: Monitor, es: seq<Event>)
    requires Inv(t, m)
    ensures Inv(RunTeams(t, es), Run(t, m, es))
    decreases |es|
  {
    if es == [] {
    } else {
      InvStep(t, m, es[0]);
      hide Inv, ApplyTeams, Apply;
      SentOnce(ApplyTeams(t, es[0]), Apply(t, m, es[0]), es[1..]);
    }
  }

  lemma CallStep(t: Teams, m: Monitor, e: Event)
    requires Inv(t, m) && e.Call?
    ensures ApplyTeams(t, e) == t && Inv(t, Apply(t, m, e))
    ensures Backlog(t, Apply(t, m, e)) <= if Backlog(t, m) <= 8 then 0 else Backlog(t, m) - 8
  {
    SendExact(t, m, e.beforeKickOff);
    hide Inv, Backlog, Send;
  }

  /** With no new tiles, every call takes its share off the backlog until nothing is
      left: after n calls during a match at most backlog - 8 n tiles are unsent. */
  lemma {:induction false} BacklogClears(t: Teams, m: Monitor, es: seq<Event>)
    requires Inv(t, m) && forall i :: 0 <= i < |es| ==> es[i].Call?
    ensures RunTeams(t, es) == t
    ensures Backlog(t, Run(t, m, es)) <= if Backlog(t, m) <= 8 * |es| then 0 else Backlog(t, m) - 8 * |es|
    decreases |es|
  {
    if es == [] {
    } else {
      CallStep(t, m, es[0]);
      hide Inv, Backlog, ApplyTeams, Apply;
      BacklogClears(t, Apply(t, m, es[0]), es[1..]);
    }
  }

  /** The std::set of keys that a monitor keeps for one side. */
  class KeySet {
    var keys: set<Key>

    constructor ()
      ensures keys == {}
    {
      keys := {};
    }
  }

  class MonitorState {
    const leftSent: KeySet
    const rightSent: KeySet
    var log: seq<(Side, Key)>

    function Current(): Monitor
      reads this, leftSent, rightSent
    {
      Monitor(leftSent.keys, rightSent.keys, log)
    }

    constructor ()
      ensures Current() == Monitor({}, {}, [])
      ensures leftSent != rightSent && fresh(leftSent) && fresh(rightSent)
    {
      leftSent := new KeySet();
      rightSent := new KeySet();
      log := [];
    }

    /** The part of a call for one side, with a running count over both sides. */
    method SendSide(side: Side, tiles: seq<Key>, graphics: KeySet, maxSend: nat, sendCount0: nat)
      returns (sendCount: nat)
      requires Ordered(tiles) && sendCount0 <= maxSend
      modifies this`log, graphics
      ensures var keys := SideKeys(tiles, old(graphics.keys), maxSend - sendCount0);
              && |keys| <= maxSend - sendCount0
              && sendCount == sendCount0 + |keys|
              && graphics.keys == old(graphics.keys) + Keys(keys)
              && log == old(log) + Tagged(side, keys)
    {
      sendCount := sendCount0;
      hide Ordered;
      hide Sweep;
      hide Keys;
      hide Tagged;
      Emptied(side);
      if |graphics.keys| >= |tiles| { return; }
      var n := |tiles|;
      ghost var sent0 := graphics.keys;
      ghost var budget := maxSend - sendCount0;
      ghost var out: seq<Key> := [];
      assert tiles[..n] == tiles;
      while n > 0 && sendCount < maxSend
        invariant 0 <= n <= |tiles| && sendCount == sendCount0 + |out| <= maxSend
        invariant Sweep(tiles, sent0, budget) == out + Sweep(tiles[..n], sent0, maxSend - sendCount)
        invariant graphics.keys == sent0 + Keys(out)
        invariant log == old(log) + Tagged(side, out)
        invariant Keys(out) !! Keys(tiles[..n])
      {
        var key := tiles[n - 1];
        SweepStep(tiles, sent0, maxSend - sendCount, n);
        n := n - 1;
        if key in graphics.keys { continue; }
        log := log + [(side, key)];
        graphics.keys := graphics.keys + {key};
        Appended(side, out, key);
        out := out + [key];
        sendCount := sendCount + 1;
      }
      SweepDone(tiles[..n], sent0, maxSend - sendCount);
      assert out + [] == out;
      assert SideKeys(tiles, sent0, budget) == out;
    }

    method SendTeamGraphics(t: Teams, beforeKickOff: bool)
      requires leftSent != rightSent && Inv(t, Current())
      modifies this`log, leftSent, rightSent
      ensures Current() == Send(t, old(Current()), beforeKickOff)
    {
      hide Ordered;
      hide NoRepeats;
      hide Keys;
      hide LogFits;
      hide SideKeys;
      hide Tagged;
      hide Unsent;
      var maxSend := if beforeKickOff then 32 else 8;
      SideExact(t.left, leftSent.keys, maxSend);
      var sendCount := SendSide(Left, t.left, leftSent, maxSend, 0);
      SideExact(t.right, rightSent.keys, maxSend - sendCount);
      sendCount := SendSide(Right, t.right, rightSent, maxSend, sendCount);
    }
  }
}
