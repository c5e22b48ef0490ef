/** Who may act when: the command flags, timers and state bits of a player
    (src/player.cpp). */
module ActionLock {

  datatype Bit =
    | Stand | Goalie | Discard | YellowCard | RedCard
    | KickBit | KickFault | CatchBit | CatchFault | TackleBit | TackleFault | FoulCharged

  datatype Params = Params(tackleCycles: nat, foulCycles: nat, catchBanCycle: nat)

  datatype State = State(
    commandDone: bool, kickCycles: int, tackleCycles: int, foulCycles: int, catchBan: int,
    bits: set<Bit>, enabled: bool, cardCount: nat, leftLegTaken: bool, rightLegTaken: bool)

  const START := State(false, 0, 0, 0, 0, {Stand}, true, 0, false, false)

  /** How a tackle turns out: out of reach or on a zero tackle distance, missed by
      chance, or on the ball; and then whether play is stopped, and whether it is an
      intentional foul. */
  datatype TackleOutcome = NoReach | Missed | OnBall(stopped: bool, foul: bool)

  datatype Event =
    | Kick(fault: bool)
    | Turn
    | Move(allowed: bool)
    | Catch(eligible: bool, fault: bool)
    | Tackle(outcome: TackleOutcome)
    | Dash
    | DashLeft
    | DashRight
    | Bye
    | Disconnect
    | Reconnect(goalie: bool)
    | MadeGoalie
    | SentOff
    | YellowCardShown
    | RedCardShown
    | Substituted
    | ChargeFoul
    | ResetFlags
    | ResetState
    | UpdateCapacity

  /** The guard of goalieCatch: eligible stands for the goalie in a play mode in which
      catching is allowed. */
  predicate CatchPasses(s: State, e: Event) {
    e.Catch? && !s.commandDone && e.eligible && s.catchBan <= 0
  }

  function ApplyTackle(p: Params, s: State, outcome: TackleOutcome): State {
    var s1 := s.(commandDone := true, leftLegTaken := true, rightLegTaken := true, tackleCycles := p.tackleCycles);
    match outcome
    case NoReach => s1.(bits := s.bits + {TackleFault})
    case Missed => s1.(bits := s.bits + {TackleBit, TackleFault})
    case OnBall(stopped, foul) =>
      var s2 := s1.(bits := s.bits + {TackleBit});
      if foul && !stopped then s2.(tackleCycles := 0) else s2
  }

  function ApplyCatch(p: Params, s: State, eligible: bool, fault: bool): State {
    var s1 := s.(commandDone := true, bits := s.bits + {CatchBit});
    if !eligible || s.catchBan > 0 then s1.(bits := s1.bits + {CatchFault})
    else s1.(catchBan := p.catchBanCycle, bits := s1.bits + if fault then {CatchFault} else {})
  }

  function DashOne(s: State, left: bool): State {
    if (if left then s.leftLegTaken else s.rightLegTaken) then s
    else if left then s.(leftLegTaken := true, commandDone := true)
    else s.(rightLegTaken := true, commandDone := true)
  }

  /** What disable leaves of the bits; no bit stands for a disabled player. */
  function Disabled(s: State): State { s.(bits := s.bits * {YellowCard, RedCard}, enabled := false) }

  function Enabled(s: State, goalie: bool): State {
    s.(bits := if goalie then {Stand, Goalie} else {Stand}, enabled := true)
  }

  /** Only a standing player is discarded; disable has just cleared the bit that is
      asked for. */
  function Discarded(s: State): State {
    if Stand in s.bits then
      var s1 := Disabled(s);
      s1.(bits := if Discard !in s1.bits then s1.bits + {Discard} else s1.bits - {Discard})
    else s
  }

  function SendOff(s: State): State {
    var s1 := Discarded(s);
    s1.(bits := s1.bits - {YellowCard} + {RedCard}, cardCount := 2)
  }

  function Caution(s: State): State {
    if s.cardCount == 1 then SendOff(s) else s.(bits := s.bits + {YellowCard}, cardCount := s.cardCount + 1)
  }

  function Reset(s: State): State {
    var kick := if s.kickCycles >= 0 then s.kickCycles - 1 else s.kickCycles;
    var tackle := if s.tackleCycles > 0 then s.tackleCycles - 1 else s.tackleCycles;
    var foul := if s.foulCycles > 0 then s.foulCycles - 1 else s.foulCycles;
    State(s.commandDone && !(kick <= 0 && tackle == 0 && foul == 0), kick, tackle, foul, s.catchBan, s.bits, s.enabled, s.cardCount, false, false)
  }

  function Kept(s: State): set<Bit> {
    {Stand, Goalie, Discard, YellowCard, RedCard}
    + (if s.kickCycles > 0 then {KickBit, KickFault} else {})
    + (if s.tackleCycles > 0 then {TackleBit, TackleFault} else {})
    + (if s.foulCycles > 0 then {FoulCharged} else {})
  }

  /** One event, with the guards of those who call the player: the stadium shows cards to
      enabled players only and does not reconnect one with a red card, and the team makes
      only an enabled player its goalie. */
  function Apply(p: Params, s: State, e: Event): State {
    match e
    case Kick(fault) =>
      if s.commandDone then s
      else s.(commandDone := true, kickCycles := 1, bits := s.bits + {KickBit} + if fault then {KickFault} else {})
    case Turn => if s.commandDone then s else s.(commandDone := true, leftLegTaken := true, rightLegTaken := true)
    case Move(allowed) =>
      if s.commandDone || !allowed then s else s.(commandDone := true, leftLegTaken := true, rightLegTaken := true)
    case Catch(eligible, fault) => if s.commandDone then s else ApplyCatch(p, s, eligible, fault)
    case Tackle(outcome) => if s.commandDone then s else ApplyTackle(p, s, outcome)
    case Dash => if s.commandDone then s else DashOne(DashOne(s, true), false)
    case DashLeft => DashOne(s, true)
    case DashRight => DashOne(s, false)
    case Bye => Disabled(s).(commandDone := true)
    case Disconnect => Disabled(s)
    case Reconnect(goalie) => if s.cardCount >= 2 then s else Enabled(s, goalie)
    case MadeGoalie => if s.enabled then Enabled(s, true) else s
    case SentOff => if s.enabled then Discarded(s) else s
    case YellowCardShown => if s.enabled then Caution(s) else s
    case RedCardShown => if s.enabled then SendOff(s) else s
    case Substituted => s.(bits := s.bits * {Stand, Goalie, Discard}, cardCount := 0)
    case ChargeFoul => s.(foulCycles := p.foulCycles, commandDone := true, bits := s.bits + {FoulCharged})
    case ResetFlags => Reset(s)
    case ResetState => s.(bits := s.bits * Kept(s))
    case UpdateCapacity => if s.catchBan > 0 then s.(catchBan := s.catchBan - 1) else s
  }

  function Run(p: Params, s: State, es: seq<Event>): State
    decreases |es|
  {
    if es == [] then s else Run(p, Apply(p, s, es[0]), es[1..])
  }

  // ----- the lock

  predicate Inv(s: State) {
    && s.kickCycles >= -1 && s.tackleCycles >= 0 && s.foulCycles >= 0 && s.catchBan >= 0
    && (s.kickCycles > 0 || s.tackleCycles > 0 || s.foulCycles > 0 ==> s.commandDone)
    && (s.leftLegTaken || s.rightLegTaken ==> s.commandDone)
  }

  lemma InvStep(p: Params, s: State, e: Event)
    requires Inv(s)
    ensures Inv(Apply(p, s, e))
  {}

  /** In every reachable state a running kick, tackle or foul timer, or a leg in use,
      means that the player is locked. */
  lemma {:induction false} RunningTimerLocks(p: Params, s: State, es: seq<Event>)
    requires Inv(s)
    ensures Inv(Run(p, s, es)) && Inv(START)
    decreases |es|
  {
    if es == [] {
    } else {
      InvStep(p, s, es[0]);
      hide Inv, Apply;
      RunningTimerLocks(p, Apply(p, s, es[0]), es[1..]);
    }
  }

  function Max(a: int, b: int): int { if a < b then b else a }

  function Resets(s: State, n: nat): State
    decreases n
  {
    if n == 0 then s else Resets(Reset(s), n - 1)
  }

  /** From a locked state the lock opens after exactly max(1, kick, tackle, foul)
      resets, if nothing else happens, and it stays open. */
  lemma {:induction false} LockOpens(s: State, n: nat)
    requires Inv(s)
    ensures Resets(s, n).commandDone <==>
              s.commandDone && n < Max(1, Max(s.kickCycles, Max(s.tackleCycles, s.foulCycles)))
    decreases n
  {
    if n == 0 {
    } else {
      LockOpens(Reset(s), n - 1);
    }
  }

  predicate BodyCommand(e: Event) {
    e.Kick? || e.Turn? || (e.Move? && e.allowed) || e.Catch? || e.Tackle? || e.Dash?
  }

  /** The body commands of a run that take effect. */
  function Effective(p: Params, s: State, es: seq<Event>): nat
    decreases |es|
  {
    if es == [] then 0
    else
      var now := if BodyCommand(es[0]) && !s.commandDone then 1 else 0;
      now + Effective(p, Apply(p, s, es[0]), es[1..])
  }

  lemma LockStep(p: Params, s: State, e: Event)
    requires Inv(s) && !e.ResetFlags?
    ensures s.commandDone || BodyCommand(e) ==> Apply(p, s, e).commandDone
  {}

  /** Between two resets at most one body command takes effect, and none when the
      player starts out locked. */
  lemma {:induction false} OneBodyCommand(p: Params, s: State, es: seq<Event>)
    requires Inv(s) && forall i :: 0 <= i < |es| ==> !es[i].ResetFlags?
    ensures Effective(p, s, es) <= if s.commandDone then 0 else 1
    ensures s.commandDone ==> Run(p, s, es).commandDone
    decreases |es|
  {
    if es == [] {
    } else {
      InvStep(p, s, es[0]);
      LockStep(p, s, es[0]);
      hide Inv, Apply, BodyCommand;
      OneBodyCommand(p, Apply(p, s, es[0]), es[1..]);
    }
  }

  /** The event locks the player, if it is not locked already. */
  predicate Locks(e: Event) { BodyCommand(e) || e.DashLeft? || e.DashRight? || e.Bye? || e.ChargeFoul? }

  /** Whether the player has been locked since the last reset that left no timer running. */
  predicate LockedSince(p: Params, s: State, es: seq<Event>, before: bool)
    decreases |es|
  {
    if es == [] then before
    else
      var s' := Apply(p, s, es[0]);
      LockedSince(p, s', es[1..],
                  if es[0].ResetFlags? then s'.kickCycles > 0 || s'.tackleCycles > 0 || s'.foulCycles > 0
                  else before || Locks(es[0]))
  }

  lemma LockedStep(p: Params, s: State, e: Event)
    requires Inv(s)
    ensures var s' := Apply(p, s, e);
            s'.commandDone <==> if e.ResetFlags? then s'.kickCycles > 0 || s'.tackleCycles > 0 || s'.foulCycles > 0
                                else s.commandDone || Locks(e)
  {}

  /** Exactly the body commands, the dashes, goodbye and foul charges lock the player, and
      exactly the resets that leave no timer running open the lock. */
  lemma {:induction false} LockTracked(p: Params, s: State, es: seq<Event>)
    requires Inv(s)
    ensures Run(p, s, es).commandDone <==> LockedSince(p, s, es, s.commandDone)
    decreases |es|
  {
    if es == [] {
    } else {
      LockedStep(p, s, es[0]);
      InvStep(p, s, es[0]);
      hide Inv, Apply, Locks;
      LockTracked(p, Apply(p, s, es[0]), es[1..]);
    }
  }

  /** How many resets a command given to an unlocked player keeps it locked. */
  function Duration(p: Params, e: Event): nat {
    match e
    case Tackle(outcome) => if outcome.OnBall? && outcome.foul && !outcome.stopped then 1 else if p.tackleCycles > 1 then p.tackleCycles else 1
    case ChargeFoul => if p.foulCycles > 1 then p.foulCycles else 1
    case _ => 1
  }

  /** A tackle locks for tackleCycles resets, an intentional foul on the ball and any other
      command for one, a foul charge for foulCycles. */
  lemma LockLasts(p: Params, s: State, e: Event, n: nat)
    requires Inv(s) && !s.commandDone && Locks(e)
    ensures Resets(Apply(p, s, e), n).commandDone <==> n < Duration(p, e)
  {
    InvStep(p, s, e);
    LockOpens(Apply(p, s, e), n);
  }

  // ----- single legs

  /** The event uses a leg: a dash with that leg alone, or a command for the body that
      takes effect and takes both legs. */
  predicate Uses(s: State, e: Event, left: bool) {
    || (if left then e.DashLeft? else e.DashRight?)
    || (!s.commandDone && (e.Dash? || e.Turn? || e.Tackle? || (e.Move? && e.allowed)))
  }

  /** Whether a leg has been used since the last reset. */
  predicate Used(p: Params, s: State, es: seq<Event>, left: bool, before: bool)
    decreases |es|
  {
    if es == [] then before
    else Used(p, Apply(p, s, es[0]), es[1..], left, !es[0].ResetFlags? && (before || Uses(s, es[0], left)))
  }

  function LegTaken(s: State, left: bool): bool { if left then s.leftLegTaken else s.rightLegTaken }

  function DashWith(left: bool): Event { if left then DashLeft else DashRight }

  lemma UsedStep(p: Params, s: State, e: Event, left: bool)
    requires Inv(s)
    ensures LegTaken(Apply(p, s, e), left) <==> !e.ResetFlags? && (LegTaken(s, left) || Uses(s, e, left))
  {}

  lemma {:induction false} LegsUsed(p: Params, s: State, es: seq<Event>, left: bool)
    requires Inv(s)
    ensures LegTaken(Run(p, s, es), left) <==> Used(p, s, es, left, LegTaken(s, left))
    decreases |es|
  {
    if es == [] {
    } else {
      UsedStep(p, s, es[0], left);
      InvStep(p, s, es[0]);
      hide Inv, Apply, Uses, LegTaken;
      LegsUsed(p, Apply(p, s, es[0]), es[1..], left);
    }
  }

  /** After any run, a dash with a single leg is refused exactly if that leg has been used
      since the last reset. The lock of the player does not matter. */
  lemma SingleLegRefused(p: Params, es: seq<Event>, left: bool)
    ensures var s := Run(p, START, es); Apply(p, s, DashWith(left)) == s <==> Used(p, START, es, left, false)
  {
    LegsUsed(p, START, es, left);
  }

  /** So right after a reset a player held by a tackle or a foul can dash with either
      leg, although not with both at once. */
  lemma SingleLegIgnoresLock(p: Params, s: State)
    requires Inv(s)
    ensures var held := Reset(s);
            && DashOne(held, true).leftLegTaken && DashOne(held, false).rightLegTaken
            && !held.leftLegTaken && !held.rightLegTaken
            && (s.tackleCycles > 1 || s.foulCycles > 1 ==>
                  held.commandDone && Apply(p, held, Dash) == held && Apply(p, held, DashLeft) != held)
  {}

  // ----- the bits

  /** The three things that have both a timer and bits. */
  datatype Mark = KickMark | TackleMark | FoulMark

  function Timer(s: State, mark: Mark): int {
    match mark
    case KickMark => s.kickCycles
    case TackleMark => s.tackleCycles
    case FoulMark => s.foulCycles
  }

  predicate Shows(s: State, mark: Mark) {
    match mark
    case KickMark => KickBit in s.bits
    case TackleMark => TackleBit in s.bits || TackleFault in s.bits
    case FoulMark => FoulCharged in s.bits
  }

  /** The event starts the timer and sets the bits. */
  predicate Starts(s: State, e: Event, mark: Mark) {
    match mark
    case KickMark => e.Kick? && !s.commandDone
    case TackleMark => e.Tackle? && !s.commandDone
    case FoulMark => e.ChargeFoul?
  }

  /** The event enables the player, once more or again. */
  predicate Enables(s: State, e: Event) {
    (e.Reconnect? && s.cardCount < 2) || (e.MadeGoalie? && s.enabled)
  }

  /** The event takes the bits away and leaves the timer running. */
  predicate Erases(s: State, e: Event) {
    || e.Bye? || e.Disconnect? || e.Substituted? || Enables(s, e)
    || (s.enabled && Stand in s.bits && (e.SentOff? || e.RedCardShown? || (e.YellowCardShown? && s.cardCount == 1)))
  }

  /** Whether the bits have been erased since the last start of their timer. */
  predicate Erased(p: Params, s: State, es: seq<Event>, mark: Mark, before: bool)
    decreases |es|
  {
    if es == [] then before
    else Erased(p, Apply(p, s, es[0]), es[1..], mark, !Starts(s, es[0], mark) && (before || Erases(s, es[0])))
  }

  predicate Tracked(s: State, mark: Mark, erased: bool) { Timer(s, mark) > 0 ==> (Shows(s, mark) <==> !erased) }

  lemma TrackedStep(p: Params, s: State, e: Event, mark: Mark, erased: bool)
    requires Inv(s) && Tracked(s, mark, erased)
    ensures Tracked(Apply(p, s, e), mark, !Starts(s, e, mark) && (erased || Erases(s, e)))
  {}

  lemma {:induction false} MarksTracked(p: Params, s: State, es: seq<Event>, mark: Mark, erased: bool)
    requires Inv(s) && Tracked(s, mark, erased)
    ensures Tracked(Run(p, s, es), mark, Erased(p, s, es, mark, erased))
    decreases |es|
  {
    if es == [] {
    } else {
      var s1 := Apply(p, s, es[0]);
      TrackedStep(p, s, es[0], mark, erased);
      InvStep(p, s, es[0]);
      hide Inv, Apply, Starts, Erases, Tracked;
      MarksTracked(p, s1, es[1..], mark, !Starts(s, es[0], mark) && (erased || Erases(s, es[0])));
    }
  }

  lemma ResetShows(p: Params, s: State, mark: Mark)
    ensures var s' := Apply(p, s, ResetState);
            && (Shows(s', mark) <==> Timer(s, mark) > 0 && Shows(s, mark)) && Timer(s', mark) == Timer(s, mark)
            && s'.commandDone == s.commandDone
            && (forall b :: b in {Stand, Goalie, Discard, YellowCard, RedCard} ==> (b in s'.bits <==> b in s.bits))
            && (forall b :: b in {KickBit, KickFault} ==> (b in s'.bits <==> b in s.bits && s.kickCycles > 0))
            && (forall b :: b in {TackleBit, TackleFault} ==> (b in s'.bits <==> b in s.bits && s.tackleCycles > 0))
            && CatchBit !in s'.bits && CatchFault !in s'.bits
  {}

  predicate Blank(s: State) {
    !s.commandDone && s.bits !! {KickBit, KickFault, CatchBit, CatchFault, TackleBit, TackleFault}
  }

  lemma KickShown(p: Params, s: State, e: Event)
    requires Blank(s)
    ensures var bits := Apply(p, s, e).bits; (KickBit in bits <==> e.Kick?) && (KickFault in bits <==> e.Kick? && e.fault)
  {}

  lemma CatchShown(p: Params, s: State, e: Event)
    requires Blank(s)
    ensures var bits := Apply(p, s, e).bits;
            (CatchBit in bits <==> e.Catch?) && (CatchFault in bits <==> e.Catch? && (!e.eligible || s.catchBan > 0 || e.fault))
  {}

  lemma TackleShown(p: Params, s: State, e: Event)
    requires Blank(s)
    ensures var bits := Apply(p, s, e).bits;
            && (TackleBit in bits <==> e.Tackle? && (e.outcome.Missed? || e.outcome.OnBall?))
            && (TackleFault in bits <==> e.Tackle? && (e.outcome.Missed? || e.outcome.NoReach?))
  {}

  /** Which bits an event gives an unlocked player that has none of these. */
  lemma FaultsShown(p: Params, s: State, e: Event)
    requires Blank(s)
    ensures var bits := Apply(p, s, e).bits;
            && (KickBit in bits <==> e.Kick?) && (KickFault in bits <==> e.Kick? && e.fault)
            && (CatchBit in bits <==> e.Catch?)
            && (CatchFault in bits <==> e.Catch? && (!e.eligible || s.catchBan > 0 || e.fault))
            && (TackleBit in bits <==> e.Tackle? && (e.outcome.Missed? || e.outcome.OnBall?))
            && (TackleFault in bits <==> e.Tackle? && (e.outcome.Missed? || e.outcome.NoReach?))
  {
    KickShown(p, s, e);
    CatchShown(p, s, e);
    TackleShown(p, s, e);
    hide Apply;
  }

  /** After resetState, in every reachable state, a kick, tackle or foul shows in the
      bits exactly while its timer runs and the bits have not been erased since the
      timer was started; and the bits of a catch are gone. */
  lemma BitsFollowTimers(p: Params, es: seq<Event>, mark: Mark)
    ensures var s' := Apply(p, Run(p, START, es), ResetState);
            && (Shows(s', mark) <==> Timer(s', mark) > 0 && !Erased(p, START, es, mark, false))
            && (Shows(s', mark) ==> s'.commandDone)
            && (KickFault in s'.bits ==> s'.kickCycles > 0)
            && CatchBit !in s'.bits && CatchFault !in s'.bits
  {
    RunningTimerLocks(p, START, es);
    MarksTracked(p, START, es, mark, false);
    ResetShows(p, Run(p, START, es), mark);
    hide Apply, Shows, Erased;
  }

  /** A foul timer without its bit: the charged player says goodbye, or is substituted
      and stays on the pitch, frozen without the mark that says so. */
  lemma FoulBitLost(p: Params, e: Event)
    requires p.foulCycles > 0 && e in {Bye, Substituted}
    ensures var s' := Apply(p, Run(p, START, [ChargeFoul, e]), ResetState);
            && s'.foulCycles > 0 && s'.commandDone && FoulCharged !in s'.bits
            && (Stand in s'.bits <==> e == Substituted)
  {
    var s1 := Apply(p, START, ChargeFoul);
    assert [ChargeFoul, e][1..] == [e] && [e][1..] == [];
    assert Run(p, START, [ChargeFoul, e]) == Run(p, s1, [e]) == Run(p, Apply(p, s1, e), []) == Apply(p, s1, e);
  }

  /** The bits that tell a player's role: a player who comes back stands and has no other
      mark but that of a goalie; one who is sent off keeps the cards and is marked as
      discarded. */
  lemma RolesShown(p: Params, s: State, goalie: bool)
    ensures s.cardCount < 2 ==> Apply(p, s, Reconnect(goalie)).bits == {Stand} + if goalie then {Goalie} else {}
    ensures s.enabled ==> Apply(p, s, MadeGoalie).bits == {Stand, Goalie}
    ensures s.enabled && Stand in s.bits ==>
              var s' := Apply(p, s, SentOff);
              && !s'.enabled && Discard in s'.bits && Stand !in s'.bits && Goalie !in s'.bits
              && forall b :: b in {YellowCard, RedCard} ==> (b in s'.bits <==> b in s.bits)
  {}

  // ----- cards

  predicate CardInv(s: State, lost: bool) {
    && s.cardCount <= 2 && (s.enabled ==> Stand in s.bits && s.cardCount <= 1)
    && (RedCard in s.bits <==> s.cardCount == 2)
    && (YellowCard in s.bits <==> s.cardCount == 1 && !lost)
  }

  /** Whether the player has been enabled since the last first yellow card. */
  predicate Lost(p: Params, s: State, es: seq<Event>, before: bool)
    decreases |es|
  {
    if es == [] then before
    else Lost(p, Apply(p, s, es[0]), es[1..], LostNow(s, es[0], before))
  }

  predicate LostNow(s: State, e: Event, before: bool) {
    Enables(s, e) || (before && !(e.YellowCardShown? && s.enabled && s.cardCount == 0))
  }

  predicate CardEvent(e: Event) {
    e in {Bye, Disconnect, MadeGoalie, SentOff, YellowCardShown, RedCardShown, Substituted, ResetState} || e.Reconnect?
  }

  lemma OtherEvents(p: Params, s: State, e: Event)
    requires !CardEvent(e)
    ensures var s' := Apply(p, s, e);
            && s'.enabled == s.enabled && s'.cardCount == s.cardCount
            && forall b :: b in {Stand, YellowCard, RedCard} ==> (b in s'.bits <==> b in s.bits)
  {}

  lemma CardStep(p: Params, s: State, e: Event, lost: bool)
    requires CardInv(s, lost)
    ensures CardInv(Apply(p, s, e), LostNow(s, e, lost))
  {
    if !CardEvent(e) {
      OtherEvents(p, s, e);
      hide Apply;
    }
  }

  lemma {:induction false} CardRun(p: Params, s: State, es: seq<Event>, lost: bool)
    requires CardInv(s, lost)
    ensures CardInv(Run(p, s, es), Lost(p, s, es, lost))
    decreases |es|
  {
    if es == [] {
    } else {
      CardStep(p, s, es[0], lost);
      hide CardInv, Apply, LostNow;
      CardRun(p, Apply(p, s, es[0]), es[1..], LostNow(s, es[0], lost));
    }
  }

  /** After any run, a red card shows exactly if it counts. A yellow card shows exactly if
      it counts and the player has not been enabled since it was shown. */
  lemma CardsShown(p: Params, es: seq<Event>)
    ensures var s := Run(p, START, es);
            && s.cardCount <= 2
            && (RedCard in s.bits <==> s.cardCount == 2)
            && (YellowCard in s.bits <==> s.cardCount == 1 && !Lost(p, START, es, false))
            && (s.cardCount == 2 ==> !s.enabled)
  {
    CardRun(p, START, es, false);
  }

  /** A player comes back without the yellow card but with its count: the next yellow card
      sends off a player who shows none. */
  lemma CardForgotten(p: Params, goalie: bool)
    ensures var back := Run(p, START, [YellowCardShown, Disconnect, Reconnect(goalie)]);
            && back.enabled && YellowCard !in back.bits
            && RedCard in Apply(p, back, YellowCardShown).bits && Stand !in Apply(p, back, YellowCardShown).bits
  {
    var s1 := Apply(p, START, YellowCardShown);
    var s2 := Apply(p, s1, Disconnect);
    var es := [YellowCardShown, Disconnect, Reconnect(goalie)];
    assert es[1..] == [Disconnect, Reconnect(goalie)] && es[1..][1..] == [Reconnect(goalie)] && es[1..][1..][1..] == [];
    assert Run(p, START, es) == Run(p, s1, es[1..]) == Run(p, s2, es[1..][1..]) == Apply(p, s2, Reconnect(goalie));
  }

  // ----- the goalie

  function Updates(es: seq<Event>): nat {
    if es == [] then 0 else (if es[0].UpdateCapacity? then 1 else 0) + Updates(es[1..])
  }

  lemma BanStep(p: Params, s: State, e: Event)
    ensures Apply(p, s, e).catchBan <= 0 ==> s.catchBan <= if e.UpdateCapacity? then 1 else 0
    ensures Apply(p, s, e).catchBan >= s.catchBan - if e.UpdateCapacity? then 1 else 0
  {}

  lemma {:induction false} BanLasts(p: Params, s: State, es: seq<Event>)
    ensures Run(p, s, es).catchBan <= 0 ==> s.catchBan <= Updates(es)
    decreases |es|
  {
    if es == [] {
    } else {
      BanStep(p, s, es[0]);
      hide Apply;
      BanLasts(p, Apply(p, s, es[0]), es[1..]);
    }
  }

  lemma {:induction false} BanRunsDown(p: Params, s: State, es: seq<Event>)
    requires s.catchBan >= 0 && forall i :: 0 <= i < |es| ==> es[i].UpdateCapacity?
    ensures Run(p, s, es).catchBan == if |es| <= s.catchBan then s.catchBan - |es| else 0
    decreases |es|
  {
    if es == [] {
    } else {
      BanRunsDown(p, Apply(p, s, es[0]), es[1..]);
    }
  }

  /** The capacity updates since the last catch that passed the guard, from so many before. */
  function UpdatesSince(p: Params, s: State, es: seq<Event>, before: nat): nat
    decreases |es|
  {
    if es == [] then before
    else UpdatesSince(p, Apply(p, s, es[0]), es[1..],
                      if CatchPasses(s, es[0]) then 0 else if es[0].UpdateCapacity? then before + 1 else before)
  }

  predicate BanIs(p: Params, s: State, n: nat) { s.catchBan == if n < p.catchBanCycle then p.catchBanCycle - n else 0 }

  lemma BanIsStep(p: Params, s: State, e: Event, n: nat)
    requires BanIs(p, s, n)
    ensures BanIs(p, Apply(p, s, e), if CatchPasses(s, e) then 0 else if e.UpdateCapacity? then n + 1 else n)
  {}

  /** After any run the ban is what the updates since the last catch that passed have left
      of it: nothing else starts it or shortens it. */
  lemma {:induction false} BanTracked(p: Params, s: State, es: seq<Event>, n: nat)
    requires BanIs(p, s, n)
    ensures BanIs(p, Run(p, s, es), UpdatesSince(p, s, es, n))
    decreases |es|
  {
    if es == [] {
    } else {
      BanIsStep(p, s, es[0], n);
      hide BanIs, Apply, CatchPasses;
      BanTracked(p, Apply(p, s, es[0]), es[1..],
                 if CatchPasses(s, es[0]) then 0 else if es[0].UpdateCapacity? then n + 1 else n);
    }
  }

  /** Two catches that pass the guard are at least catchBanCycle capacity updates
      apart, whatever happens in between. */
  lemma CatchesSpaced(p: Params, s: State, first: Event, es: seq<Event>, second: Event)
    requires CatchPasses(s, first) && CatchPasses(Run(p, Apply(p, s, first), es), second)
    ensures Updates(es) >= p.catchBanCycle
  {
    BanLasts(p, Apply(p, s, first), es);
  }

  /** And with updates alone the ban is over after exactly catchBanCycle of them. */
  lemma BanEnds(p: Params, s: State, first: Event, es: seq<Event>)
    requires CatchPasses(s, first) && forall i :: 0 <= i < |es| ==> es[i].UpdateCapacity?
    ensures Run(p, Apply(p, s, first), es).catchBan <= 0 <==> |es| >= p.catchBanCycle
  {
    BanRunsDown(p, Apply(p, s, first), es);
  }

  class Player {
    const p: Params
    var commandDone: bool
    var kickCycles: int
    var tackleCycles: int
    var foulCycles: int
    var catchBan: int
    var bits: set<Bit>
    var enabled: bool
    var cardCount: nat
    var leftLegTaken: bool
    var rightLegTaken: bool

    function Current(): State
      reads this
    {
      State(commandDone, kickCycles, tackleCycles, foulCycles, catchBan, bits, enabled, cardCount, leftLegTaken, rightLegTaken)
    }

    constructor (p: Params)
      ensures this.p == p && Current() == START
    {
      this.p := p;
      commandDone, kickCycles, tackleCycles, foulCycles, catchBan := false, 0, 0, 0, 0;
      bits, enabled, cardCount, leftLegTaken, rightLegTaken := {Stand}, true, 0, false, false;
    }

    method DoKick(fault: bool)
      modifies this
      ensures Current() == Apply(p, old(Current()), Kick(fault))
    {
      if commandDone { return; }
      commandDone := true;
      kickCycles := 1;
      bits := bits + {KickBit};
      if fault { bits := bits + {KickFault}; }
    }

    method TakeLegs()
      modifies this`leftLegTaken, this`rightLegTaken
      ensures leftLegTaken && rightLegTaken
    {
      leftLegTaken := true;
      rightLegTaken := true;
    }

    method DoTurn()
      modifies this
      ensures Current() == Apply(p, old(Current()), Turn)
    {
      if !commandDone {
        TakeLegs();
        commandDone := true;
      }
    }

    method DoMove(allowed: bool)
      modifies this
      ensures Current() == Apply(p, old(Current()), Move(allowed))
    {
      if commandDone { return; }
      if !allowed { return; }
      TakeLegs();
      commandDone := true;
    }

    method GoalieCatch(eligible: bool, fault: bool) returns (passed: bool)
      modifies this
      ensures passed == CatchPasses(old(Current()), Catch(eligible, fault))
      ensures Current() == Apply(p, old(Current()), Catch(eligible, fault))
    {
      if commandDone { return false; }
      commandDone := true;
      bits := bits + {CatchBit};
      if !eligible || catchBan > 0 {
        bits := bits + {CatchFault};
        return false;
      }
      catchBan := p.catchBanCycle;
      if fault { bits := bits + {CatchFault}; }
      return true;
    }

    method DoTackle(outcome: TackleOutcome)
      modifies this
      ensures Current() == Apply(p, old(Current()), Tackle(outcome))
    {
      if commandDone { return; }
      TakeLegs();
      commandDone := true;
      tackleCycles := p.tackleCycles;
      match outcome {
        case NoReach => bits := bits + {TackleFault};
        case Missed => bits := bits + {TackleBit, TackleFault};
        case OnBall(stopped, foul) =>
          bits := bits + {TackleBit};
          if stopped { return; }
          if foul { tackleCycles := 0; }
      }
    }

    method DashLeftLeg()
      modifies this`leftLegTaken, this`commandDone
      ensures Current() == Apply(p, old(Current()), DashLeft)
    {
      if leftLegTaken { return; }
      leftLegTaken := true;
      commandDone := true;
    }

    method DashRightLeg()
      modifies this`rightLegTaken, this`commandDone
      ensures Current() == Apply(p, old(Current()), DashRight)
    {
      if rightLegTaken { return; }
      rightLegTaken := true;
      commandDone := true;
    }

    method DoDash()
      modifies this`leftLegTaken, this`rightLegTaken, this`commandDone
      ensures Current() == Apply(p, old(Current()), Dash)
    {
      if !commandDone {
        DashLeftLeg();
        DashRightLeg();
      }
    }

    method Disable()
      modifies this`bits, this`enabled
      ensures Current() == Disabled(old(Current()))
    {
      enabled := false;
      var card := bits;
      card := card * {YellowCard, RedCard};
      bits := {};
      bits := bits + card;
    }

    method SayBye()
      modifies this`bits, this`enabled, this`commandDone
      ensures Current() == Apply(p, old(Current()), Bye)
    {
      Disable();
      commandDone := true;
    }

    method SetEnable(goalie: bool)
      modifies this`bits, this`enabled
      ensures Current() == Enabled(old(Current()), goalie)
    {
      bits := {Stand};
      enabled := true;
      if goalie { bits := bits + {Goalie}; }
    }

    method DiscardPlayer()
      modifies this`bits, this`enabled
      ensures Current() == Discarded(old(Current()))
    {
      if Stand in bits {
        Disable();
        if Discard !in bits {
          bits := bits + {Discard};
        } else {
          bits := bits - {Discard};
        }
      }
    }

    method ShowYellowCard()
      modifies this`bits, this`enabled, this`cardCount
      ensures Current() == Caution(old(Current()))
    {
      if cardCount == 1 {
        ShowRedCard();
      } else {
        bits := bits + {YellowCard};
        cardCount := cardCount + 1;
      }
    }

    method ShowRedCard()
      modifies this`bits, this`enabled, this`cardCount
      ensures Current() == SendOff(old(Current()))
    {
      DiscardPlayer();
      bits := bits - {YellowCard};
      bits := bits + {RedCard};
      cardCount := 2;
    }

    method Substitute()
      modifies this`bits, this`cardCount
      ensures Current() == Apply(p, old(Current()), Substituted)
    {
      bits := bits * {Stand, Goalie, Discard};
      cardCount := 0;
    }

    method SetFoulCharged()
      modifies this`foulCycles, this`commandDone, this`bits
      ensures Current() == Apply(p, old(Current()), ChargeFoul)
    {
      foulCycles := p.foulCycles;
      commandDone := true;
      bits := bits + {FoulCharged};
    }

    method ResetCommandFlags()
      modifies this
      ensures Current() == Apply(p, old(Current()), ResetFlags)
    {
      if kickCycles >= 0 { kickCycles := kickCycles - 1; }
      if tackleCycles > 0 { tackleCycles := tackleCycles - 1; }
      if foulCycles > 0 { foulCycles := foulCycles - 1; }
      if kickCycles <= 0 && tackleCycles == 0 && foulCycles == 0 { commandDone := false; }
      leftLegTaken := false;
      rightLegTaken := false;
    }

    method ResetBits()
      modifies this`bits
      ensures Current() == Apply(p, old(Current()), ResetState)
    {
      var state := {Stand, Goalie, Discard, YellowCard, RedCard};
      if kickCycles > 0 { state := state + {KickBit, KickFault}; }
      if tackleCycles > 0 { state := state + {TackleBit, TackleFault}; }
      if foulCycles > 0 { state := state + {FoulCharged}; }
      bits := bits * state;
    }

    method UpdateCatchBan()
      modifies this`catchBan
      ensures Current() == Apply(p, old(Current()), UpdateCapacity)
    {
      if catchBan > 0 { catchBan := catchBan - 1; }
    }
  }
}
