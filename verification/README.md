# rcssserver: collisions, hearing, coach, stamina, timers and logs

This project models the stateful core of the RoboCup soccer simulator server and
proves what its parts are for. Code that changes fields step by step is a Dafny
class whose methods are proved equal to functions over the old state; everything
else, and every law about whole runs, is stated as lemmas about those functions.
`dafny verify dfyconfig.toml` checks all of it.

| file | content |
|---|---|
| Numbers.dfy | minimum, maximum, bounds, an option type |
| Plane.dfy | vectors, and the maths library as a record of functions with the laws that are used |
| Angles.dfy | normalising angles, rounding dash angles |
| Intersect.dfy | the first point at which a segment meets a goal post |
| Areas.dfy | nearest edge of a rectangle, nearest of the four goal posts |
| Flight.dfy | bouncing off goal posts: mirror image, speed, path, staying outside |
| Bounces.dfy | why the bounce loop ends, how far it travels, and which post it meets |
| Overlap.dfy | pushing an object out of a post it overlaps, and when that loop ends |
| MovingObject.dfy | the whole physics step, `_inc`, as a method on an object |
| Hearing.dfy | mailbox, focus, ears and hear capacity of a player |
| Coach.dfy | message queue and quotas of the online coach |
| Stamina.dfy, Dashing.dfy | power split between the legs, stamina ledger, dash effect |
| Arm.dfy | the pointing arm |
| ActionLock.dfy | which commands a player may still give, timers, state bits, catch ban |
| GameLog.dfy | the delta-encoded game log and a reader that decodes it |
| TeamGraphics.dfy | sending the tiles of team graphics to a monitor |

How the model is set up:

- Numbers of type `double` are reals. The square root, cosine, sine and
  arctangent are arbitrary functions (`Plane.Maths`) that satisfy the laws
  collected in `Lawful`: the square of the root, the unit circle, parity, the sums
  of angles, and polar coordinates. The real functions satisfy them all.
- One more fact is named where it is needed: `cos(180.0) < 0`. The bounce adds
  `180.0` to an angle in radians (src/object.cpp:591); 180 radians are not half a
  turn, but their cosine is negative, and that is all it takes.
- The loops of the physics step need not end. The functions that specify them are cut
  off after `fuel` turns and say whether the loop ended by itself; the laws hold for
  every amount of fuel, and `MovingObject.FuelIrrelevant` shows that the outcome does
  not depend on it. The methods have the loops of the source, without a bound: they
  require that the loops end, and `MovingObject.StepEnds` says exactly when they do.
- Random draws, noise, wind and the play mode are parameters. A draw from a mailbox
  is an arbitrary choice, so every statement covers all random sequences.
- Reading through an iterator after erasing it (src/audio.cpp:699-700) is modelled as
  the neighbouring code does it: the erased pair is returned.

What the proofs found in the code:

- In exact arithmetic a step can end inside a goal post, in the ways named by
  `MovingObject.EntersPost` and no others (`MovingObject.StepSafe`). `intersect` treats a
  start exactly on the rim as a fake collision, so an object that starts there and moves
  in is let in (`MovingObject.RimStart`). And the overlap loop turns the velocity round
  whether it leads into the post or out of it: an object that overlaps a post and is
  already on its way out is put on the rim, turned inwards, and let in by the same test
  (`MovingObject.OverlappingStart`). With rounding, whether the object lies exactly on
  the rim is a matter of the last bit.
- `nearestEdge` is right inside a rectangle and wrong for exactly the points
  described by `Areas.Rect.Misjudged` outside it. src/referee.cpp:1309-1311 calls it for
  outside points, and `Areas.MisjudgedPoint` is an offside position that gets there.
- The step ends from every position that numbers of type `double` can express: it is
  enough to be at the centre of the nearest post or at least 10^-18 away from it
  (`MovingObject.StepEndsFarEnough`). The exact condition, `Overlap.Separable`, is a fact
  about real numbers only: the positions that fail it (`Overlap.StuckPosition`) are nearer
  to the centre of a post than any two different `double`s are to each other there.
- A path that leads through three quadrants can pass through the third post unnoticed, as
  only two are looked at (`Bounces.ThirdPostMissed`). It takes more than half the pitch in
  one step; for all shorter paths the first post met is the one found (`Bounces.HitIsFirst`).
- An object that arrives exactly at the point where it touches a post is given a velocity
  along the x axis, wherever it came from (`Flight.BounceStep`).
- Under a shortage of stamina the second leg's share is divided by the already
  rescaled first share (src/player.cpp:1231). Two legs then cost more than is paid,
  and two equal commands come out unequal (`Stamina.DashSplit`).
- The body turns after a dash if the left leg dashes; the right one is never asked
  (src/player.cpp:1245-1246).
- With the complete ear off, a listener with capacity to spare hears nothing from
  that side, even with the partial ear on (`Hearing.CompleteEarOff`).
- `clang_mess_per_cycle` switches the coach's queue on and off but does not limit it
  (src/coach.cpp:1460-1462, `Coach.CapHolds`, `Coach.CapExceeded`), and a negative quota
  allows nothing, although the comments call it unlimited (`Coach.NegativeQuotaSilences`).
- `disable`, `setEnable` and `substitute` take away the bit of a foul charge, or of a tackle,
  and leave its timer running: a substituted player can be frozen without showing it
  (`ActionLock.FoulBitLost`; `ActionLock.BitsFollowTimers` has the exact condition).
  `setEnable` also takes away a yellow card that still counts (`ActionLock.CardForgotten`),
  and nothing else does (`ActionLock.CardsShown`).
- A dash angle can be rounded out of its range, for example from 180 to 182 degrees with a
  step of 7 (`Angles.DashAngleInRange`, `Angles.DashAngleOvershoots`).
- The commands for a single leg ignore the action lock and ask only that leg
  (`ActionLock.SingleLegRefused`, `ActionLock.SingleLegIgnoresLock`).

## Model

The classes have further methods without a row, most of them of one or two
statements (`FocusOff`, `DoTurn`, `SetFoulCharged`, `Substitute` and the like). Each is
proved equal to the function that the laws below are about.

| member | source | states |
|---|---|---|
| Collision.IntersectCorrect | src/object.cpp:173-292 | `intersect` reports a hit if and only if the segment passes through the circle at a point other than its start; the point returned is on circle and segment, is passed through and not merely touched, and no other common point is nearer to the start. For all centres, directions and radii, with the recursion by translation |
| Collision.BetweenIsSegment | src/object.cpp:64-97 | for a point on the line, the bounding-box test with its exchange of ends is membership in the closed segment |
| Collision.CrossingsComplete | src/object.cpp:193-231 | with a positive discriminant, the two computed points are distinct and are exactly the points of the line on the circle; none of them is tangential |
| Collision.OutOfReach | src/object.cpp:185-189 | the early rejection by distance loses no contact |
| Collision.NoDiscriminant | src/object.cpp:199-207 | with a discriminant of at most zero the line at most touches the circle |
| Areas.NearestEdgeCorrect | src/object.cpp:104-134 | `nearestEdge` returns a closest point of the whole boundary for every point inside, and outside if and only if the point is not misjudged |
| Areas.MisjudgedPoint | src/referee.cpp:1279-1312 | an offside position for which the referee asks for the nearest edge and gets a corner, although the point straight across is nearer |
| Areas.NearestPostIsClosest | src/object.cpp:295-339 | the quadrant names the closest of all four posts for every position, if and only if the posts are not on the wrong side of the axis |
| Flight.ReflectIsMirror | src/object.cpp:595-597 | rotate, flip, rotate back is the mirror image in the tangent: it turns the component along the axis, keeps the component across and the length |
| Flight.BounceKeeps | src/object.cpp:559-619 | one bounce keeps the speed, does not lengthen the rest of the path, mirrors it at the point of impact and points the velocity along it |
| Flight.BounceStep | src/object.cpp:570-614 | where a bounce leaves the object: EPS from the point of impact, at 180 radians from the direction of the post; and that an object which arrives exactly at the end of its path leaves along the x axis |
| Flight.FlyKeeps | src/object.cpp:551-622 | over any number of bounces the speed is unchanged, the rest of the path never grows and the velocity points along it |
| Flight.InsideDetected | src/object.cpp:173-292 | a segment from on or outside the rim to the inside of a circle is stopped by `intersect` if and only if it does not start exactly on the rim |
| Flight.BounceStaysClear | src/object.cpp:586-591 | the small step after a bounce puts the object strictly outside all four posts |
| Flight.FlyEndsClear | src/object.cpp:551-624 | however often it bounces, an object that starts outside all posts ends outside all posts, if and only if it does not start on the rim of the post it would end in |
| Bounces.FirstHitEnters | src/object.cpp:255-279 | what `intersect` returns for a start outside the circle is the point where the segment goes in |
| Bounces.BounceDeparts | src/object.cpp:586-599 | after a bounce no point of the new path is on or inside the post just hit |
| Bounces.NextHitFar | src/object.cpp:551-557 | the next hit is on another post, and getting there uses up at least the gap between posts |
| Bounces.FlyEnds | src/object.cpp:551-620 | the bounce loop ends for every start outside the posts, after n + 1 bounces at most for a path shorter than n + 1 gaps between posts; so a path shorter than one gap has one bounce at most |
| Bounces.FlyMore | src/object.cpp:551-620 | once the loop has ended by itself, the bound on its turns makes no difference |
| Bounces.TravelsFully | src/object.cpp:551-620 | the ways from impact to impact and the last leg add up to exactly the length of the path without posts |
| Bounces.HitIsFirst | src/object.cpp:551-557 | for a path of less than about half the pitch along, the loop condition holds if and only if any of the four posts is met, and then it finds the first meeting of all |
| Bounces.ThirdPostMissed | src/object.cpp:551-557 | a longer path that leads through a third post and is not stopped |
| Overlap.UncoverClears | src/object.cpp:502-546 | when the overlap loop ends, the object is outside all four posts, not only the one looked at, and has kept its speed |
| Overlap.GrowEndsExactly | src/object.cpp:526-531 | the inner loop ends if and only if it starts at the rim or with an offset above EPS / 1.01 |
| Overlap.UncoverEndsExactly | src/object.cpp:502-546 | with the posts apart, the overlap loop ends if and only if the position is separable, whatever the random angles, and has then taken one turn, or none for an object that overlaps no post |
| Overlap.SingleTurn | src/object.cpp:507-546 | where the one turn leaves an overlapping object: on the rim of the post or within one per cent outside it, with the velocity turned round |
| Overlap.TurnLeaves | src/object.cpp:515-541 | an overlapping object is left straight out from the centre of the post, or in the drawn direction, on the rim or at most one per cent outside, with its velocity mirrored |
| Overlap.FarEnough | src/object.cpp:526-531 | positions at the centre of the post or at least 10^-18 from it are separable |
| Overlap.StuckPosition | src/object.cpp:526-531 | a position over exact reals from which the loop never ends |
| Overlap.UncoverMore | src/object.cpp:507-546 | once the loops have ended by themselves, the bound on their turns makes no difference |
| MovingObject.ClampLength | src/object.cpp:483-494 | a limit on acceleration or speed sets the length to the smaller of the two and keeps the direction |
| MovingObject.AcceleratesBy | src/object.cpp:478-495 | the speed before noise is the old one plus j times the acceleration, all times k, where j and k are 1 within the limits and otherwise the factors that bring the lengths down to them; without an acceleration it is the old one |
| MovingObject.LaunchedOnce | src/object.cpp:478-495 | that determines it, and within both limits it is exactly the sum |
| MovingObject.AccelerateBounded | src/object.cpp:478-495 | with an acceleration, the speed before noise is at most the maximum, and at most the old speed plus the maximum acceleration |
| MovingObject.StepKeeps | src/object.cpp:502-622 | through both loops the speed is the launch speed, and the last leg is no longer than the launch velocity and points along the velocity |
| MovingObject.FreeFlight | src/object.cpp:502-622 | with no post overlapped and none met, the step ends at the position plus the launch velocity |
| MovingObject.StepTravels | src/object.cpp:548-622 | past the overlap loop the object travels exactly the length of its launch velocity |
| MovingObject.StepSafe | src/object.cpp:502-622 | the step ends outside all posts if and only if position, launch velocity and drawn angle before the step do not lead into one: for a clear start, not on the rim of the post moved into; for an overlapping one at distance l = |d| of at least EPS from the centre, not vel.vel * l < 2 radius vel.d; with the cases of the centre and of its neighbourhood |
| MovingObject.PushedOntoRim | src/object.cpp:515-541 | what the overlap loop makes of an overlapping object leads into a post if and only if it is left exactly on the rim and its old velocity was outward enough |
| MovingObject.RimStart | src/object.cpp:268-278 | the ball on the rim of a post and moving in ends inside it |
| MovingObject.OverlappingStart | src/object.cpp:533-539 | the ball overlapping a post and moving straight out of it ends inside it |
| MovingObject.StepEnds | src/object.cpp:502-622 | the step ends if and only if the position is separable, whatever the velocity and the draws |
| MovingObject.StepEndsFarEnough | src/object.cpp:502-622 | the step ends from the centre of a post and from any position at least 10^-18 from it |
| MovingObject.FuelIrrelevant | src/object.cpp:502-622 | every bound on the turns that is enough gives the same last leg |
| MovingObject.MPObject.LimitVelocity | src/object.cpp:478-495 | the velocity after the limiting statements is the old one plus the acceleration, both limited, and nothing else |
| MovingObject.MPObject.StepOut | src/object.cpp:515-531 | moving the object to the rim and then outwards, for as long as it takes, gives the specified offset |
| MovingObject.MPObject.LeavePosts | src/object.cpp:502-546 | the overlap loop over position and velocity is the specified one, and marks a collision exactly if the object overlapped a post |
| MovingObject.MPObject.BounceOffPosts | src/object.cpp:548-620 | the bounce loop over position, velocity and target is the specified one, and marks a collision exactly if there was a hit |
| MovingObject.MPObject.Inc | src/object.cpp:475-625 | a whole step from any start for which it ends: the launch velocity adds the limited acceleration; where the object is afterwards, that its speed is exactly decay times the speed after noise and wind, that its acceleration is zero, its angles committed, and a collision with a post marked exactly if it overlapped one or hit one |
| Hearing.AudioSenderV8.NewCycle | src/audio.cpp:506-533 | for all draws: the three caches end empty; what is sent is the coach messages in order, the own messages in order, then the cached messages of players in an order that is a permutation of the mailbox, with those of the focused player first; of these, with that complete ear on, exactly min(cached, capacity / decay) in full |
| Hearing.AudioSenderV8.DrainPlayers | src/audio.cpp:527-532 | the draining loop ends, and handles every cached message exactly once |
| Hearing.AudioSenderV8.GetFocused | src/audio.cpp:641-701 | one entry is taken out, and it is the focused player's as long as that player has one |
| Hearing.AudioSenderV8.GetUnfocused | src/audio.cpp:617-639 | exactly the entry that is returned leaves the mailbox |
| Hearing.AudioSenderV8.SendCachedNonSelfPlayerAudio | src/audio.cpp:564-614 | a cached message is heard in full, in short or not at all by ear and capacity, and only a full one costs capacity |
| Hearing.AudioSenderV8.SendNonSelfPlayerAudio | src/audio.cpp:468-503 | a message is cached exactly when the listener is enabled, is near and has an ear open to that side |
| Hearing.AudioSenderV8.SetEar | src/audio.cpp:704-736 | each of the four ears is set if and only if the command addresses it |
| Hearing.FocusedHeard | src/audio.cpp:564-701 | whatever the draws, a focused player with complete ear on is heard in full exactly min(cached messages, capacity / decay) times in a cycle |
| Hearing.CompleteEarOff | src/audio.cpp:564-614 | with the complete ear for one side off, whatever the rest of the mailbox, that side costs nothing and is never heard in full; all its messages are heard in short if the capacity is used up and the partial ear is on, and otherwise none |
| Hearing.EachInItsTurn | src/audio.cpp:564-614 | for all states of the ears, what each message of an order becomes in its turn: in full with its text exactly if the complete ear is on and the capacity left by the full messages of its team before it pays; in short exactly if it does not pay and the partial ear is on; otherwise nothing |
| Hearing.CompleteOnly | src/audio.cpp:595-613 | with the partial ear off, all that is heard of a side is heard in full |
| Hearing.BothEarsHear | src/audio.cpp:564-614 | with both ears on every message is heard in its turn, in full until the capacity for its team is used up and in short from then on |
| Hearing.BothEarsCount | src/audio.cpp:564-614 | with both ears on, exactly min(messages of the team, capacity / decay) of each team are heard in full, in whatever order they are drawn |
| Hearing.DeliverSpends | src/audio.cpp:564-594 | in one cycle the capacity left plus decay times the full messages is the capacity before |
| Hearing.BucketHolds | src/player.cpp:2574-2717 | over any run of updates, mailboxes and immediate deliveries: full messages times decay never exceed the initial capacity plus the increments, and the capacity stays in its range |
| Hearing.Refills | src/player.cpp:2704-2717 | n updates with nothing heard bring back n increments, up to the maximum |
| Hearing.AtOnceCount | src/audio.cpp:160-202 | messages sent at once to an enabled listener in range are heard in full min(messages, capacity / decay) times |
| Hearing.OutOfRange | src/audio.cpp:160-189 | out of range or for a disabled listener nothing is heard or spent |
| Hearing.Player.UpdateCapacity | src/player.cpp:2704-2717 | both capacities grow by the increment up to the maximum |
| Coach.FirstInFirstOut | src/coach.cpp:1298-1302 | over any run, messages said followed by messages queued are those there were, followed by those accepted, in order |
| Coach.StampsStaySorted | src/coach.cpp:1169-1171 | over any run in the order of time the stamps in the queue stay sorted |
| Coach.DrainSaysTheDue | src/coach.cpp:1451-1482 | in every reachable state one check of the queue says exactly the due messages: all of them while play is stopped, else those that have waited long enough |
| Coach.CapHolds | src/coach.cpp:1460-1462 | in every reachable state the number of messages one check says is the number due, whatever positive cap is set; so it keeps within the cap if and only if no more than that are due |
| Coach.CapExceeded | src/coach.cpp:1460-1462 | a check that says two messages under a cap of one |
| Coach.SwitchedOff | src/coach.cpp:1460-1461 | without a positive cap nothing is said |
| Coach.QuotaFromStart | src/coach.cpp:1173-1296 | T cycles from the start accept during play at most win * (T / winSize + 1) messages of each counted kind |
| Coach.CountedReply | src/coach.cpp:1173-1296 | the reply after any run: with play stopped a message of a counted kind is accepted; during play if and only if a window has been opened and fewer than the quota of that kind have been accepted during play since; otherwise the complaint names its kind |
| Coach.FreeformReply | src/coach.cpp:1190-1210 | the reply after any run: a freeform message is accepted if and only if the period is open and fewer were accepted than the allowance, which grows with every award, or the allowance is negative; otherwise the complaint says which of the two failed |
| Coach.QuotaOfSlice | src/coach.cpp:1875-1894 | any slice of T cycles after any run accepts at most win * (T / winSize + 2) |
| Coach.WindowsBounded | src/coach.cpp:1875-1894 | in T cycles at most T / winSize + 1 windows open, whatever happened before |
| Coach.NegativeQuotaSilences | src/coach.cpp:1179-1183 | a kind with a negative quota is never accepted during play |
| Coach.FreeformWindows | src/coach.cpp:1420-1435 | exactly when freeform messages are open during play, by period and cycle within the period |
| Coach.FreeformBounded | src/coach.cpp:1190-1210 | a run accepts no more freeform messages than the initial allowance and one more allowance per award |
| Coach.OnlineCoach.ParseSay | src/coach.cpp:1164-1303 | reply, queue and counters after a say command, as `Coach.CountedReply` and `Coach.FreeformReply` tell them from the history |
| Coach.OnlineCoach.CheckMessageQueue | src/coach.cpp:1451-1482 | the loop takes the due front of the queue, all of it, and counts it |
| Coach.OnlineCoach.UpdateMessagesLeft | src/coach.cpp:1875-1894 | the quotas are renewed exactly when a window opens |
| Coach.OnlineCoach.AwardFreeformMessageCount | src/coach.cpp:1411-1418 | a positive allowance grows, any other stays |
| Stamina.DashSplit | src/player.cpp:1216-1235 | with enough stamina each leg acts with exactly its commanded power; in a shortage each keeps its sign and stays within the command, the cost of both is the charge if and only if only one leg pushes and more otherwise, and equal commands become unequal |
| Stamina.PowersAreOwn | src/player.cpp:1216-1235 | each leg acts with its own commanded power, or in a shortage with its own sign and exactly its part of the charge; a leg told nothing does nothing |
| Stamina.ShortShares | src/player.cpp:1228-1231 | the two shares of a short charge: each within its need, together never less than the charge |
| Stamina.WithinCommand | src/leg.cpp:150-155 | the second normalisation of the power changes nothing, and the power costs its share |
| Stamina.Ledger | src/player.cpp:1205-1254 | over any run of dashes and recoveries, stamina plus reserve plus what every dash drains by its need, as far as there is stamina, is constant; recovery never rises, and stamina, reserve, recovery and effort keep their ranges |
| Stamina.DashDrains | src/player.cpp:1226-1253 | a dash takes the smaller of its need and the stamina and nothing else; the charge is never less, and more by at most the extra stamina |
| Stamina.ChargedBounded | src/player.cpp:1226-1253 | over any run the charges lie between the drain and the drain plus the extra stamina of every dash with an effect |
| Stamina.ChargesPaid | src/player.cpp:1226-1253 | with a limited reserve, a run charges at most the initial stamina and reserve and the extra stamina of every dash with an effect |
| Stamina.RegainedRange | src/player.cpp:2677-2701 | what is regained is never negative, fits under the maximum and comes out of the reserve, so the clamps that follow change nothing |
| Stamina.GainsAtRate | src/player.cpp:2677-2701 | one update brings back the new recovery times staminaIncMax, never more, and less only if that fills the stamina or empties the reserve |
| Stamina.GainsBounded | src/player.cpp:2628-2702 | over any run, final stamina plus what was drained is at most the initial stamina plus the initial recovery times staminaIncMax for every update |
| Stamina.RecoveryCounts | src/player.cpp:2633-2644 | after any run, recovery has fallen by one step for every update that found the stamina at or below the threshold, as far as its minimum |
| Stamina.EffortFalls | src/player.cpp:2646-2657 | after any run without an update at or above the upper threshold, effort has fallen by one step for every update at or below the lower one, as far as its minimum |
| Stamina.EffortRises | src/player.cpp:2659-2669 | after any run without an update at or below the lower threshold, effort has risen by one step for every update at or above the upper one, as far as its maximum |
| Stamina.EffortWalks | src/player.cpp:2646-2669 | after any run whatever, effort is a walk between its bounds: one step down for every update at or below the lower threshold, one up for every update at or above the upper one |
| Stamina.EffortBetween | src/player.cpp:2646-2669 | after any run, effort lies between what the downward steps alone and the upward steps alone would make of it |
| Stamina.RestRestores | src/player.cpp:2628-2702 | n updates without a dash bring back at least n times the least recovery, unless stamina is full or the reserve used up |
| Dashing.DirRateIsPolygon | src/leg.cpp:157-163 | the rate of a direction is symmetric and linear between full power ahead, the rate across and the rate behind |
| Dashing.DashAlongHeading | src/leg.cpp:164-180 | a leg pushes with effort times power times rate times power rate over the slowness, along the normalised sum of body and dash angle, backwards for negative power |
| Dashing.LegsPushOwn | src/player.cpp:1216-1235 | for all pairs of orders, each leg pushes along its own direction with its own power, as `Stamina.PowersAreOwn` tells it |
| Dashing.LegsCombined | src/player.cpp:1236-1249 | the push is the mean of the legs' accelerations whatever the velocity, and the body turns by their difference along it |
| Dashing.TurnedBodyIs | src/player.cpp:1248-1250 | the body angle changes by the noisy turn, up to whole turns, and stays between -PI and PI |
| Dashing.StraightDash | src/player.cpp:1215-1252 | a dash with both legs alike and enough stamina is a dash with one leg with the whole command, and does not turn the body |
| Angles.NormalizeAngleCorrect | src/utility.h:111-122 | normalising changes an angle by whole turns, into the range from -PI to PI, and keeps one that is there |
| Angles.QuantizeNearest | src/leg.cpp:44-60 | a dash angle becomes a multiple of the step at most half a step away |
| Angles.DashAngleNearest | src/leg.cpp:44-60 | a command in the range is rounded to the nearest multiple, or kept if there is no step; one outside is taken for the nearest bound |
| Angles.DashAngleInRange | src/leg.cpp:44-60 | dash angles stay in their range for all commands if and only if neither bound is rounded out of it |
| Angles.DashAngleOvershoots | src/leg.cpp:44-60 | a step for which a bound is rounded out of the range |
| Dashing.Leg.Dash | src/leg.cpp:124-137 | the first command of a cycle stands with its limited power and rounded angle; later ones change nothing |
| Dashing.Player.ApplyDashEffect | src/player.cpp:1204-1254 | stamina, acceleration, normalised body angle and counter after the legs' commands, each leg with its own power and direction, with the two cases without effect |
| Dashing.Player.UpdateStamina | src/player.cpp:2628-2702 | recovery, effort, stamina and reserve after an update, as the laws over runs tell them |
| PointingArm.PointsSpaced | src/arm.h:58-99 | two accepted pointing commands are at least the minimum duration apart in ageings, whatever is tried in between; ageing alone frees the arm after exactly that long and ends the pointing after exactly the maximum |
| PointingArm.StopEnds | src/arm.h:89-99 | an accepted stop ends the pointing until another command, and the arm is movable again after exactly what the maximum lacks to the minimum, at once as a rule |
| PointingArm.CountsAccepted | src/arm.h:73-99 | the counter counts the accepted commands |
| PointingArm.RefusedWhole | src/arm.h:73-99 | a refused command changes nothing |
| PointingArm.PointRoundTrip | src/arm.h:73-113 | pointing to a relative destination and asking for it from the same place gives it back |
| PointingArm.TurnedIsRotation | src/arm.h:79-81 | turning by way of heading and length is the rotation by the angle |
| PointingArm.Arm.Point | src/arm.h:73-87 | accepted exactly when the arm is movable, with the new destination, timer and count |
| PointingArm.Arm.Stop | src/arm.h:89-99 | accepted exactly when the arm is movable |
| ActionLock.RunningTimerLocks | src/player.cpp:2753-2797 | in every reachable state a running kick, tackle or foul timer, or a leg in use, implies the lock |
| ActionLock.LockOpens | src/player.cpp:2753-2780 | the lock opens after exactly max(1, kick, tackle, foul) resets |
| ActionLock.LockLasts | src/player.cpp:2065-2150 | a tackle locks an unlocked player for tackleCycles resets, a foul charge for foulCycles, an intentional foul on the ball and any other command for one |
| ActionLock.LockTracked | src/player.cpp:2753-2797 | after any run the player is locked if and only if a command or charge has locked it since the last reset that left no timer running |
| ActionLock.OneBodyCommand | src/player.cpp:1305-1319 | between two resets at most one body command takes effect, and none for a locked player |
| ActionLock.SingleLegRefused | src/player.cpp:1165-1195 | after any run, a dash with a single leg is refused if and only if that leg was used since the last reset; the lock does not matter |
| ActionLock.SingleLegIgnoresLock | src/player.cpp:1165-1195 | the witness: right after a reset, a player held by a tackle or a foul can dash with a single leg, but not with both at once |
| ActionLock.BitsFollowTimers | src/player.cpp:435-457 | after `resetState`, in every reachable state, a kick, tackle or foul shows in the bits if and only if its timer runs and no event has erased the bits since the timer was started; fault bits imply timers, and catch bits are gone |
| ActionLock.ResetShows | src/player.cpp:435-457 | bit by bit, what `resetState` keeps |
| ActionLock.FaultsShown | src/player.cpp:1304-1348 | which bits and fault bits a kick, catch or tackle gives |
| ActionLock.RolesShown | src/player.cpp:423-509 | the bits of a player who comes back, becomes goalie or is sent off |
| ActionLock.MarksTracked | src/player.cpp:412-509 | between resets, too: while a timer runs, its bits are there if and only if they have not been erased since it was started |
| ActionLock.FoulBitLost | src/player.cpp:412-492 | a foul charge followed by goodbye or substitution: the timer runs and locks the player, the bit is gone |
| ActionLock.CardsShown | src/player.cpp:2805-2827 | after any run, a red card shows if and only if it counts, and a yellow card shows if and only if it counts and the player has not been enabled since it was shown; a player with a red card is disabled |
| ActionLock.CardForgotten | src/player.cpp:423-432 | the witness: a yellow card, a disconnection and a reconnection: the card is gone, but the next one is a red one |
| ActionLock.CatchesSpaced | src/player.cpp:1523-1610 | two catches that pass the guard are at least the ban apart in capacity updates, whatever happens in between |
| ActionLock.BanEnds | src/player.cpp:2719-2722 | with capacity updates alone the ban is over after exactly its length |
| ActionLock.BanTracked | src/player.cpp:1538-1610 | after any run the ban is what the updates since the last catch that passed have left of it; nothing else starts or shortens it |
| ActionLock.Player.GoalieCatch | src/player.cpp:1523-1610 | lock, ban and bits after an attempt, and whether it passed the guard |
| ActionLock.Player.DoTackle | src/player.cpp:2065-2150 | lock, legs, timer and bits for each outcome of a tackle |
| ActionLock.Player.DoDash | src/player.cpp:1093-1195 | the dash command takes both legs or does nothing |
| ActionLock.Player.DiscardPlayer | src/player.cpp:494-509 | a standing player is disabled and marked, any other left alone |
| ActionLock.Player.ShowYellowCard | src/player.cpp:2805-2817 | the first yellow card is marked and counted, the second is a red one |
| ActionLock.Player.ShowRedCard | src/player.cpp:2819-2827 | discarded, with the red card in the place of the yellow one |
| ActionLock.Player.ResetCommandFlags | src/player.cpp:2753-2789 | timers go down, the lock opens when all are done, both legs are freed |
| ActionLock.Player.ResetBits | src/player.cpp:435-457 | which bits survive, by the timers |
| GameLog.LogReplays | src/logger.cpp:755-848 | for all sequences of calls, a reader starting from the writer's initial values recovers every logged state, with play mode, names, scores and penalties, from the records alone |
| GameLog.OnlyChanges | src/logger.cpp:820-844 | the play mode and team records of a log are exactly the changes from one logged state to the next |
| GameLog.WhatIsShown | src/logger.cpp:755-810 | nothing is logged before kick-off, exactly one state after the end of the match if there is one, and of the match itself exactly the states of the calls with an open log, as a sequence |
| GameLog.Logger.WriteGameLogImpl | src/logger.cpp:812-848 | the records of one call are the differences from what was last written, which is then the new state |
| GameLog.Logger.WriteGameLog | src/logger.cpp:755-810 | records, last written values and the flag of the final cycle after a call |
| TeamGraphics.SweepExact | src/monitor.cpp:236-259 | the loop sends unsent tiles only, none twice, in descending order, and as many as budget and backlog allow |
| TeamGraphics.SizeTest | src/monitor.cpp:236-236 | comparing the sizes of the two sets asks whether a tile is unsent, as long as only tiles of the team were sent |
| TeamGraphics.SendExact | src/monitor.cpp:225-284 | one call sends exactly min(32 before kick-off and 8 later, unsent left + unsent right) tiles, none that was sent before, and right ones only after all the unsent left ones |
| TeamGraphics.SentOnce | src/monitor.cpp:225-284 | for any interleaving of new tiles and calls, the sent sets stay among the tiles of the teams and each key is sent at most once |
| TeamGraphics.BacklogClears | src/monitor.cpp:225-284 | without new tiles the backlog falls by at least eight a call until it is zero |
| TeamGraphics.MonitorState.SendSide | src/monitor.cpp:236-259 | the loop over the tiles of one side is the specified sweep |
| TeamGraphics.MonitorState.SendTeamGraphics | src/monitor.cpp:225-284 | both sides with one running count are the specified call |

## Left out

- Floating-point rounding, NaN and wrap-around of unsigned counters.
- MovingObject.MPObject.Inc: the two marks of a collision with a post (a state bit and a flag, set together) are one field; says nothing about starts for which the source does not end; noise, wind and the random angles are parameters, and the accumulator for collisions between objects is not modelled.
- MovingObject.StepSafe: within EPS of the centre of a post the condition asks whether growing the offset by one per cent a turn arrives exactly at the rim, which is computed from the position, not solved.
- Flight.FlyEndsClear: assumes that the posts are more than three radii apart, as they are for every ball and player on a pitch 105 long with a goal mouth of ordinary width.
- Bounces.FlyEnds: gives a bound on the number of bounces, not the least one.
- Dashing.Player.ApplyDashEffect: the slowness on the top half of the pitch and the turn noise are parameters; requires a positive extra stamina, as without it both shares can be divided by zero; minimum and maximum dash power stand on their sides of zero.
- Hearing.AudioSenderV8.NewCycle: the direction from which a message is heard, the text formats of the different protocol versions and failed memory allocations are not modelled.
- Hearing.BucketHolds: runs without `recoverAll`, which refills the capacities.
- Stamina.Ledger: runs without `recoverAll` and `recoverStaminaCapacity`.
- Coach.QuotaFromStart: assumes a window size of at least one cycle.
- Coach.OnlineCoach.ParseSay: starts after the message has been parsed; the branch for clients before version 7 (src/coach.cpp:1309-1339) is left out.
- ActionLock.CatchesSpaced: the ban is also reset when a player object is first initialised, which happens before it can catch.
- ActionLock.BitsFollowTimers: the bits of collisions with the ball, players and posts, of back passes, free kick faults and illegal defence are not modelled.
- ActionLock.CardsShown: cards are shown, and players enabled again, under the guards of src/stadium.cpp:651-655 and 1228-1276 and src/team.cpp:364-385; the rest of Stadium and Team is left out.
- ActionLock.Player.DoTackle: whether the tackle succeeds, and what it does to the ball, is a parameter; so is the outcome of a catch and a kick.
- `sendPlayMode` and `sendScore` of the monitor use the same scheme of differences as the game log and would only add easy members.
- Sockets, compression, file handling, result savers, configuration, command parsers, serializers and factories are input and output.
- Referee decisions, changes of play mode, substitution and the rest of Stadium and Team; play mode, time, players and tiles are parameters.
