/** The delta-encoded game log (src/logger.cpp). */
module GameLog {
  import opened Numbers

  datatype PlayMode = Null | BeforeKickOff | TimeOver | Mode(index: nat)

  datatype Team = Team(name: string, score: int, penTaken: int)

  /** What a show record stands for; body is everything the log does not encode as
      differences. */
  datatype Stadium = Stadium(playMode: PlayMode, left: Team, right: Team, body: int)

  datatype Record = PlayModeRecord(playMode: PlayMode) | TeamRecord(left: Team, right: Team) | ShowRecord(body: int)

  /** The static variables of the writer: the values last written. */
  datatype Written = Written(playMode: PlayMode, left: Team, right: Team)

  const NOTHING := Written(Null, Team("", 0, 0), Team("", 0, 0))

  datatype State = State(written: Written, wroteFinalCycle: bool)

  const START := State(NOTHING, false)

  function Delta(w: Written, s: Stadium): seq<Record> {
    (if w.playMode != s.playMode then [PlayModeRecord(s.playMode)] else [])
    + (if w.left != s.left || w.right != s.right then [TeamRecord(s.left, s.right)] else [])
    + [ShowRecord(s.body)]
  }

  predicate Shown(st: State, open: bool, s: Stadium) {
    open && s.playMode != BeforeKickOff && (s.playMode == TimeOver ==> !st.wroteFinalCycle)
  }

  function Write(st: State, open: bool, s: Stadium): (State, seq<Record>) {
    if Shown(st, open, s)
    then (State(Written(s.playMode, s.left, s.right), st.wroteFinalCycle || s.playMode == TimeOver), Delta(st.written, s))
    else (st, [])
  }

  /** A sequence of calls; open says whether the log is open at the time. */
  function Log(st: State, calls: seq<(bool, Stadium)>): seq<Record>
    decreases |calls|
  {
    if calls == [] then []
    else
      var (next, records) := Write(st, calls[0].0, calls[0].1);
      records + Log(next, calls[1..])
  }

  /** The states that are logged. */
  function ShownStates(st: State, calls: seq<(bool, Stadium)>): seq<Stadium>
    decreases |calls|
  {
    if calls == [] then []
    else
      var rest := ShownStates(Write(st, calls[0].0, calls[0].1).0, calls[1..]);
      if Shown(st, calls[0].0, calls[0].1) then [calls[0].1] + rest else rest
  }

  // ----- the reader

  /** A reader that knows only the records: it keeps the last values it has read and
      puts together one state at every show record. */
  function Replay(known: Written, records: seq<Record>): seq<Stadium>
    decreases |records|
  {
    if records == [] then []
    else
      match records[0]
      case PlayModeRecord(pm) => Replay(known.(playMode := pm), records[1..])
      case TeamRecord(left, right) => Replay(known.(left := left, right := right), records[1..])
      case ShowRecord(body) => [Stadium(known.playMode, known.left, known.right, body)] + Replay(known, records[1..])
  }

  lemma ReplayDelta(w: Written, s: Stadium, rest: seq<Record>)
    ensures Replay(w, Delta(w, s) + rest) == [s] + Replay(Written(s.playMode, s.left, s.right), rest)
  {
    var modes := if w.playMode != s.playMode then [PlayModeRecord(s.playMode)] else [];
    var teams := if w.left != s.left || w.right != s.right then [TeamRecord(s.left, s.right)] else [];
    var w1 := w.(playMode := s.playMode);
    assert Delta(w, s) + rest == modes + (teams + ([ShowRecord(s.body)] + rest));
    Skip(w, modes, teams + ([ShowRecord(s.body)] + rest));
    Skip(w1, teams, [ShowRecord(s.body)] + rest);
    assert ([ShowRecord(s.body)] + rest)[1..] == rest;
    assert s == Stadium(s.playMode, s.left, s.right, s.body);
  }

  lemma Skip(w: Written, records: seq<Record>, rest: seq<Record>)
    requires |records| <= 1 && (records != [] ==> !records[0].ShowRecord?)
    ensures Replay(w, records + rest) ==
              if records == [] then Replay(w, rest)
              else if records[0].PlayModeRecord? then Replay(w.(playMode := records[0].playMode), rest)
              else Replay(w.(left := records[0].left, right := records[0].right), rest)
  {
    if records == [] {
      assert records + rest == rest;
    } else {
      assert (records + rest)[1..] == rest;
    }
  }

  /** The log replays: whatever happens in the match, a reader that starts from the
      writer's initial values recovers every logged state, with its play mode, team
      names, scores and penalties, from the differences alone. */
  lemma {:induction false} LogReplays(st: State, calls: seq<(bool, Stadium)>)
    ensures Replay(st.written, Log(st, calls)) == ShownStates(st, calls)
    decreases |calls|
  {
    if calls == [] {
    } else {
      var (next, records) := Write(st, calls[0].0, calls[0].1);
      LogReplays(next, calls[1..]);
      if Shown(st, calls[0].0, calls[0].1) {
        ReplayDelta(st.written, calls[0].1, Log(next, calls[1..]));
      } else {
        assert [] + Log(next, calls[1..]) == Log(next, calls[1..]);
      }
    }
  }

  function FinalShows(states: seq<Stadium>): nat {
    if states == [] then 0 else (if states[0].playMode == TimeOver then 1 else 0) + FinalShows(states[1..])
  }

  /** A state of the match itself. */
  predicate InMatch(s: Stadium) { s.playMode != BeforeKickOff && s.playMode != TimeOver }

  function MatchStates(states: seq<Stadium>): seq<Stadium> {
    if states == [] then []
    else (if InMatch(states[0]) then [states[0]] else []) + MatchStates(states[1..])
  }

  function OpenStates(calls: seq<(bool, Stadium)>): seq<Stadium> {
    if calls == [] then []
    else (if calls[0].0 then [calls[0].1] else []) + OpenStates(calls[1..])
  }

  lemma MatchStatesFirst(a: seq<Stadium>, b: seq<Stadium>)
    requires |a| <= 1
    ensures MatchStates(a + b) == MatchStates(a) + MatchStates(b)
    ensures FinalShows(a + b) == FinalShows(a) + FinalShows(b)
  {
    if a == [] {
      assert a + b == b;
    } else {
      assert (a + b)[1..] == b && MatchStates(a) == if InMatch(a[0]) then [a[0]] else [];
    }
  }

  /** Which states are logged: none before kick-off, exactly one after the end of the
      match (if the log is open then), and of the match itself all those for which the
      log is open, each as often as it is written and in its order. */
  lemma {:induction false} WhatIsShown(st: State, calls: seq<(bool, Stadium)>)
    ensures var shown := ShownStates(st, calls);
            && (forall s :: s in shown ==> s.playMode != BeforeKickOff)
            && MatchStates(shown) == MatchStates(OpenStates(calls))
            && FinalShows(shown) ==
                 if !st.wroteFinalCycle && exists i :: 0 <= i < |calls| && calls[i].0 && calls[i].1.playMode == TimeOver then 1 else 0
    decreases |calls|
  {
    if calls == [] {
    } else {
      var (open, s) := calls[0];
      var next := Write(st, open, s).0;
      WhatIsShown(next, calls[1..]);
      var rest := ShownStates(next, calls[1..]);
      assert forall i :: 0 < i < |calls| ==> calls[i] == calls[1..][i - 1];
      MatchStatesFirst(if Shown(st, open, s) then [s] else [], rest);
      MatchStatesFirst(if open then [s] else [], OpenStates(calls[1..]));
      assert [] + rest == rest;
    }
  }

  // ----- no record without a change

  function PlayModeRecords(records: seq<Record>): seq<PlayMode> {
    if records == [] then []
    else (if records[0].PlayModeRecord? then [records[0].playMode] else []) + PlayModeRecords(records[1..])
  }

  function TeamRecords(records: seq<Record>): seq<(Team, Team)> {
    if records == [] then []
    else (if records[0].TeamRecord? then [(records[0].left, records[0].right)] else []) + TeamRecords(records[1..])
  }

  /** The play modes of a sequence of states without repetitions of the one before. */
  function ModeChanges(last: PlayMode, states: seq<Stadium>): seq<PlayMode>
    decreases |states|
  {
    if states == [] then []
    else (if states[0].playMode != last then [states[0].playMode] else []) + ModeChanges(states[0].playMode, states[1..])
  }

  function TeamChanges(last: (Team, Team), states: seq<Stadium>): seq<(Team, Team)>
    decreases |states|
  {
    if states == [] then []
    else
      var teams := (states[0].left, states[0].right);
      (if teams != last then [teams] else []) + TeamChanges(teams, states[1..])
  }

  lemma {:induction false} ModesConcat(a: seq<Record>, b: seq<Record>)
    ensures PlayModeRecords(a + b) == PlayModeRecords(a) + PlayModeRecords(b)
  {
    if a == [] {
      assert a + b == b;
    } else {
      assert (a + b)[1..] == a[1..] + b;
      ModesConcat(a[1..], b);
      Regroup(if a[0].PlayModeRecord? then [a[0].playMode] else [], PlayModeRecords(a[1..]), PlayModeRecords(b));
    }
  }

  lemma {:induction false} TeamsConcat(a: seq<Record>, b: seq<Record>)
    ensures TeamRecords(a + b) == TeamRecords(a) + TeamRecords(b)
  {
    if a == [] {
      assert a + b == b;
    } else {
      assert (a + b)[1..] == a[1..] + b;
      TeamsConcat(a[1..], b);
      Regroup(if a[0].TeamRecord? then [(a[0].left, a[0].right)] else [], TeamRecords(a[1..]), TeamRecords(b));
    }
  }

  lemma RecordsConcat(a: seq<Record>, b: seq<Record>)
    ensures PlayModeRecords(a + b) == PlayModeRecords(a) + PlayModeRecords(b)
    ensures TeamRecords(a + b) == TeamRecords(a) + TeamRecords(b)
  {
    ModesConcat(a, b);
    TeamsConcat(a, b);
  }

  lemma DeltaRecords(w: Written, s: Stadium)
    ensures PlayModeRecords(Delta(w, s)) == if w.playMode != s.playMode then [s.playMode] else []
    ensures TeamRecords(Delta(w, s)) == if (w.left, w.right) != (s.left, s.right) then [(s.left, s.right)] else []
  {
    var modes := if w.playMode != s.playMode then [PlayModeRecord(s.playMode)] else [];
    var teams := if w.left != s.left || w.right != s.right then [TeamRecord(s.left, s.right)] else [];
    RecordsConcat(modes + teams, [ShowRecord(s.body)]);
    RecordsConcat(modes, teams);
    OneRecord(ShowRecord(s.body));
    OneRecord(PlayModeRecord(s.playMode));
    OneRecord(TeamRecord(s.left, s.right));
  }

  lemma OneRecord(r: Record)
    ensures PlayModeRecords([r]) == if r.PlayModeRecord? then [r.playMode] else []
    ensures TeamRecords([r]) == if r.TeamRecord? then [(r.left, r.right)] else []
  {
    assert [r][1..] == [];
  }

  /** The log holds a record of the play mode, or of the teams, for every change from one
      logged state to the next, and no other. */
  lemma {:induction false} OnlyChanges(st: State, calls: seq<(bool, Stadium)>)
    ensures PlayModeRecords(Log(st, calls)) == ModeChanges(st.written.playMode, ShownStates(st, calls))
    ensures TeamRecords(Log(st, calls)) == TeamChanges((st.written.left, st.written.right), ShownStates(st, calls))
    decreases |calls|
  {
    if calls == [] {
    } else {
      var (open, s) := calls[0];
      var (next, records) := Write(st, open, s);
      OnlyChanges(next, calls[1..]);
      RecordsConcat(records, Log(next, calls[1..]));
      if Shown(st, open, s) {
        DeltaRecords(st.written, s);
        assert ShownStates(st, calls)[1..] == ShownStates(next, calls[1..]);
      }
    }
  }

  class Logger {
    var playMode: PlayMode
    var teamLeft: Team
    var teamRight: Team
    var wroteFinalCycle: bool
    var log: seq<Record>

    function Current(): State
      reads this
    {
      State(Written(playMode, teamLeft, teamRight), wroteFinalCycle)
    }

    constructor ()
      ensures Current() == START && log == []
    {
      playMode, teamLeft, teamRight := Null, Team("", 0, 0), Team("", 0, 0);
      wroteFinalCycle, log := false, [];
    }

    method WriteGameLogImpl(s: Stadium)
      modifies this`playMode, this`teamLeft, this`teamRight, this`log
      ensures log == old(log) + Delta(old(Current()).written, s)
      ensures Current().written == Written(s.playMode, s.left, s.right)
    {
      ghost var w := Current().written;
      if playMode != s.playMode {
        playMode := s.playMode;
        log := log + [PlayModeRecord(s.playMode)];
      }
      if teamLeft.score != s.left.score || teamRight.score != s.right.score
         || teamLeft.penTaken != s.left.penTaken || teamRight.penTaken != s.right.penTaken
         || s.left.name != teamLeft.name || s.right.name != teamRight.name
      {
        teamLeft := s.left;
        teamRight := s.right;
        log := log + [TeamRecord(s.left, s.right)];
      }
      log := log + [ShowRecord(s.body)];
      assert log == old(log) + Delta(w, s);
    }

    method WriteGameLog(open: bool, s: Stadium)
      modifies this
      ensures (Current(), log) == (var (next, records) := Write(old(Current()), open, s); (next, old(log) + records))
    {
      if !open {
        assert log + [] == log;
        return;
      }
      if s.playMode != BeforeKickOff && s.playMode != TimeOver {
        WriteGameLogImpl(s);
      } else if s.playMode == TimeOver && !wroteFinalCycle {
        WriteGameLogImpl(s);
        wroteFinalCycle := true;
      } else {
        assert log + [] == log;
      }
    }
  }
}
