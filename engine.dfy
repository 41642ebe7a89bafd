/**
 * The timer registry and the message handler: the `timers` dictionary shared through the
 * client options, `setTimer` with its expiry callback, `stopTimer`, `timerLeft` and
 * `onMessageHandler`. Clock readings are passed in as `now`; the expiry of a clockmaker timer is
 * the explicit event `Fire`.
 */
module Engine {
  import opened Wrappers
  import opened JsText
  import opened Duration
  import opened Clock
  import opened Commands

  /** What the dictionary holds under a name: a clockmaker timer, with the moment it was started
      and its duration, still armed or already cancelled by `stop`; or the `null` that the expiry
      callback writes. A name that was never started is absent (`undefined`). */
  datatype Entry = Live(startDate: int, durationMs: int, pending: bool) | Fired

  type Timers = map<string, Entry>

  /** `if (self.opts.timers[name])`: a timer object is truthy, `undefined` and `null` are not. */
  predicate Truthy(timers: Timers, name: string) {
    name in timers && timers[name].Live?
  }

  const StartUsage := "Usage !eggtimer start <name> 1h 1m 1s"
  const StopUsage := "Usage !eggtimer stop <name>"
  const TimeUsage := "Usage !eggtimer time <name>"
  const RedeemPing := "!redeem ping"

  function Started(name: string): string {
    "Timer " + name + " started"
  }

  function AlreadyExists(name: string): string {
    "Timer with name " + name + " already exists."
  }

  function Stopped(name: string): string {
    "Timer " + name + " has been stopped."
  }

  function Rings(name: string): string {
    "Timer " + name + " rings"
  }

  function TimeLeftReply(name: string, timeLeft: string): string {
    "Timer " + name + " has " + timeLeft + " left."
  }

  /** The dictionary after an operation, and what the bot said meanwhile, in order. */
  datatype Step = Step(timers: Timers, replies: seq<string>)

  /** Every stored timer runs for a positive whole number of seconds. */
  predicate WellFormed(timers: Timers) {
    forall n :: n in timers && timers[n].Live? ==>
      timers[n].durationMs >= 1000 && timers[n].durationMs % 1000 == 0
  }

  /** How one entry may change while messages are handled: not at all, or by cancelling. */
  predicate EntryEvolves(before: Entry, after: Entry) {
    before == after || (before.Live? && after == before.(pending := false))
  }

  /** How the dictionary may change while messages are handled: no name is ever removed, a
      `null` stays `null`, a timer keeps its start and duration and can only be cancelled, and a
      new name holds a timer started now. */
  predicate Evolves(before: Timers, after: Timers, now: int) {
    (forall n :: n in before ==> n in after && EntryEvolves(before[n], after[n])) &&
    (forall n :: n in after && n !in before ==> after[n].Live? && after[n].startDate == now)
  }

  lemma EvolvesTransitive(a: Timers, b: Timers, c: Timers, now: int)
    requires Evolves(a, b, now) && Evolves(b, c, now)
    ensures Evolves(a, c, now)
  {
  }

  /** The start branch of the handler: the existence check, then the duration check, then
      `setTimer`. */
  function StartStep(timers: Timers, now: int, name: string, seconds: nat): (r: Step)
    ensures Evolves(timers, r.timers, now)
    ensures WellFormed(timers) ==> WellFormed(r.timers)
    ensures |r.replies| == 1
    ensures r.timers.Keys <= timers.Keys + {name}
    ensures forall n :: n in timers && n != name ==> r.timers[n] == timers[n]
    ensures name in timers ==> r == Step(timers, [AlreadyExists(name)])
    ensures name !in timers && seconds == 0 ==> r == Step(timers, [StartUsage])
  {
    if name !in timers then
      if seconds != 0 then
        Step(timers[name := Live(now, seconds * 1000, true)], [Started(name)])
      else
        Step(timers, [StartUsage])
    else
      Step(timers, [AlreadyExists(name)])
  }

  /** `stopTimer`: a stored timer is cancelled and stays in the dictionary. */
  function StopStep(timers: Timers, name: string): (r: Step)
    ensures r.timers.Keys == timers.Keys
    ensures forall n :: n in timers ==> EntryEvolves(timers[n], r.timers[n])
    ensures forall n :: n in timers && n != name ==> r.timers[n] == timers[n]
    ensures WellFormed(timers) ==> WellFormed(r.timers)
    ensures |r.replies| == 1
    ensures Truthy(timers, name) ==>
      r.replies == [Stopped(name)] &&
      r.timers[name] == Live(timers[name].startDate, timers[name].durationMs, false)
    ensures !Truthy(timers, name) ==> r == Step(timers, [StopUsage])
  {
    if Truthy(timers, name) then
      Step(timers[name := timers[name].(pending := false)], [Stopped(name)])
    else
      Step(timers, [StopUsage])
  }

  /** `timerLeft`: the remaining time of a stored timer, `getTimeLeft` at `now`. */
  function TimeStep(timers: Timers, now: int, name: string): (r: Step)
    ensures r.timers == timers && |r.replies| == 1
    ensures Truthy(timers, name) ==>
      r.replies == [TimeLeftReply(name, GetTimeLeft(timers[name].startDate, timers[name].durationMs, now))]
    ensures !Truthy(timers, name) ==> r.replies == [TimeUsage]
  {
    if Truthy(timers, name) then
      var e := timers[name];
      Step(timers, [TimeLeftReply(name, GetTimeLeft(e.startDate, e.durationMs, now))])
    else
      Step(timers, [TimeUsage])
  }

  /** The expiry callback of a timer that is still armed. */
  function FireStep(timers: Timers, name: string): (r: Step)
    requires Truthy(timers, name) && timers[name].pending
    ensures r.timers.Keys == timers.Keys && r.timers[name] == Fired
    ensures forall n :: n in timers && n != name ==> r.timers[n] == timers[n]
    ensures WellFormed(timers) ==> WellFormed(r.timers)
    ensures r.replies == ["Timer " + name + " rings", "!redeem ping"]
  {
    Step(timers[name := Fired], [Rings(name), RedeemPing])
  }

  /** Nothing happens for a branch whose pattern did not match. */
  function Skip(timers: Timers): Step {
    Step(timers, [])
  }

  /** The start branch, taken when the start pattern matched. */
  function StartBranch(timers: Timers, now: int, start: Option<StartCommand>): (r: Step)
    ensures Evolves(timers, r.timers, now)
    ensures WellFormed(timers) ==> WellFormed(r.timers)
    ensures |r.replies| <= 1
  {
    match start
    case Some(sc) => StartStep(timers, now, sc.name, TotalSeconds(sc.durationText))
    case None => Skip(timers)
  }

  /** The stop branch, taken when the stop pattern matched. */
  function StopBranch(timers: Timers, now: int, stop: Option<string>): (r: Step)
    ensures Evolves(timers, r.timers, now)
    ensures WellFormed(timers) ==> WellFormed(r.timers)
    ensures |r.replies| <= 1
  {
    match stop
    case Some(name) => StopStep(timers, name)
    case None => Skip(timers)
  }

  /** The time branch, taken when the time pattern matched; it never changes the dictionary. */
  function TimeBranch(timers: Timers, now: int, time: Option<string>): (r: Step)
    ensures r.timers == timers
    ensures |r.replies| <= 1
  {
    match time
    case Some(name) => TimeStep(timers, now, name)
    case None => Skip(timers)
  }

  /** The three branches of the handler for an obeyed command, run one after the other, each
      on the dictionary the previous one left. */
  function Obey(timers: Timers, now: int, intents: Intents): (r: Step)
    ensures Evolves(timers, r.timers, now)
    ensures WellFormed(timers) ==> WellFormed(r.timers)
    ensures |r.replies| <= 3
  {
    var a := StartBranch(timers, now, intents.start);
    var b := StopBranch(a.timers, now, intents.stop);
    var c := TimeBranch(b.timers, now, intents.time);
    EvolvesTransitive(timers, a.timers, b.timers, now);
    Step(c.timers, a.replies + b.replies + c.replies)
  }

  /** `onMessageHandler`: own messages and unauthorized ones are ignored; the others are obeyed. */
  function Dispatch(timers: Timers, now: int, isSelf: bool, user: Context, msg: string): (r: Step)
    ensures isSelf || !IsValidCommand(Trim(msg), user) ==> r == Step(timers, [])
    ensures Evolves(timers, r.timers, now)
    ensures WellFormed(timers) ==> WellFormed(r.timers)
    ensures |r.replies| <= 3
  {
    var command := Trim(msg);
    if isSelf || !IsValidCommand(command, user) then Skip(timers)
    else Obey(timers, now, Recognize(command))
  }

  /** Once a timer is started, its name is taken: a second start is refused, and a time query
      reports what remains of the first. */
  lemma NameTakenOnceStarted(timers: Timers, now: int, name: string, seconds: nat,
                             later: int, again: nat)
    requires name !in timers && seconds > 0
    ensures var a := StartStep(timers, now, name, seconds);
      a == Step(timers[name := Live(now, seconds * 1000, true)], ["Timer " + name + " started"]) &&
      StartStep(a.timers, later, name, again) == Step(a.timers, ["Timer with name " + name + " already exists."]) &&
      TimeStep(a.timers, later, name) ==
        Step(a.timers, ["Timer " + name + " has " + SanitizeTime(now + seconds * 1000 - later) + " left."])
  {
  }

  /** A duration text in which no digit directly precedes a unit letter starts nothing: the bot
      only repeats the usage. */
  lemma StartWithoutUnitsRejected(timers: Timers, now: int, name: string, durationText: string)
    requires name !in timers && !HasDigitBeforeUnit(durationText)
    ensures StartStep(timers, now, name, TotalSeconds(durationText)) ==
            Step(timers, ["Usage !eggtimer start <name> 1h 1m 1s"])
  {
    NoUnitMeansZero(durationText);
  }

  /** Stopping cancels without removing: stopping again changes nothing and says the same. A
      cancelled timer is no longer armed, so it can never expire. */
  lemma StopIdempotent(timers: Timers, name: string)
    ensures StopStep(StopStep(timers, name).timers, name) == StopStep(timers, name)
    ensures Truthy(timers, name) ==>
      var after := StopStep(timers, name).timers;
      Truthy(after, name) && !after[name].pending &&
      StopStep(timers, name).replies == ["Timer " + name + " has been stopped."]
  {
  }

  /** After expiry the name holds `null` for good: stop and time queries answer with their usage,
      and a new start with the same name is refused. */
  lemma FiredNameStaysTaken(timers: Timers, name: string, now: int, seconds: nat)
    requires Truthy(timers, name) && timers[name].pending
    ensures var fired := FireStep(timers, name).timers;
      StopStep(fired, name) == Step(fired, ["Usage !eggtimer stop <name>"]) &&
      TimeStep(fired, now, name) == Step(fired, ["Usage !eggtimer time <name>"]) &&
      StartStep(fired, now, name, seconds) == Step(fired, ["Timer with name " + name + " already exists."])
  {
  }

  /** A start that races with the expiry of a timer of the same name is refused whichever of the
      two comes first. */
  lemma StartRacingExpiry(timers: Timers, name: string, now: int, seconds: nat)
    requires Truthy(timers, name) && timers[name].pending
    ensures StartStep(timers, now, name, seconds).replies ==
            StartStep(FireStep(timers, name).timers, now, name, seconds).replies ==
            ["Timer with name " + name + " already exists."]
  {
  }

  /** While a stored timer has not run out and less than 100 hours remain, a time query shows a
      well-formed clock reading exactly the whole seconds left. */
  lemma TimeLeftShowsRemaining(timers: Timers, now: int, name: string)
    requires Truthy(timers, name)
    requires now <= timers[name].startDate + timers[name].durationMs < now + 100 * 3600 * 1000
    ensures var e := timers[name];
      var shown := GetTimeLeft(e.startDate, e.durationMs, now);
      TimeStep(timers, now, name) == Step(timers, ["Timer " + name + " has " + shown + " left."]) &&
      IsClockText(shown) && ReadClock(shown) == (e.startDate + e.durationMs - now) / 1000
  {
    var e := timers[name];
    ClockExactBelowHundredHours(e.startDate + e.durationMs - now);
  }

  /** The three patterns are tried independently, so one message can both start and stop a
      timer: it is stored, announced, and cancelled at once. */
  lemma StartAndStopInOneMessage(timers: Timers, now: int, name: string, durationText: string)
    requires name !in timers && TotalSeconds(durationText) > 0
    ensures var seconds := TotalSeconds(durationText);
      Obey(timers, now, Intents(Some(StartCommand(name, durationText)), Some(name), None)) ==
      Step(timers[name := Live(now, seconds * 1000, false)],
           ["Timer " + name + " started", "Timer " + name + " has been stopped."])
  {
    var seconds := TotalSeconds(durationText);
    var a := StartBranch(timers, now, Some(StartCommand(name, durationText)));
    assert a == Step(timers[name := Live(now, seconds * 1000, true)], [Started(name)]);
    assert a.timers[name := Live(now, seconds * 1000, false)] == timers[name := Live(now, seconds * 1000, false)];
  }

  /** `stopTimer` as bot.js:106-116 is written. The guard reads `self.opts.timers`, but the
      lookup at bot.js:109 reads `self.timers`, a property the chat client passed as `self` does
      not have, and looking a name up in `undefined` throws a `TypeError`. So for a stored timer
      the call throws (`None`) before `timer.stop()` and before anything is said; otherwise it
      answers with the usage, as `StopStep` does. */
  function StopAsWritten(timers: Timers, name: string): (r: Option<Step>)
    ensures r.None? <==> Truthy(timers, name)
    ensures r.Some? ==> r.value == StopStep(timers, name)
  {
    if Truthy(timers, name) then None else Some(Step(timers, [StopUsage]))
  }

  /** The three branches of the handler with the stop as written. A throwing stop abandons
      the handler: the dictionary and the replies are those the start branch left, and the time
      branch does not run. */
  function ObeyAsWritten(timers: Timers, now: int, intents: Intents): (r: Step)
    ensures Evolves(timers, r.timers, now)
    ensures WellFormed(timers) ==> WellFormed(r.timers)
    ensures |r.replies| <= 3
    ensures intents.stop.None? ==> r == Obey(timers, now, intents)
  {
    var a := StartBranch(timers, now, intents.start);
    var stopped := if intents.stop.Some? then StopAsWritten(a.timers, intents.stop.value) else Some(Skip(a.timers));
    match stopped
    case None => a
    case Some(b) =>
      var c := TimeBranch(b.timers, now, intents.time);
      EvolvesTransitive(timers, a.timers, b.timers, now);
      Step(c.timers, a.replies + b.replies + c.replies)
  }

  /** As written, a stop of a running timer says nothing and leaves it armed, so that, if the
      uncaught exception does not end the process (which is not modelled), it still rings when
      it runs out; the intended stop cancels it and says so. */
  lemma StoppedTimerStillRings(timers: Timers, now: int, name: string)
    requires Truthy(timers, name) && timers[name].pending
    ensures var r := ObeyAsWritten(timers, now, Intents(None, Some(name), None));
      r == Step(timers, []) && r.timers[name].pending &&
      FireStep(r.timers, name).replies == ["Timer " + name + " rings", "!redeem ping"]
    ensures Obey(timers, now, Intents(None, Some(name), None)) ==
            Step(timers[name := timers[name].(pending := false)], ["Timer " + name + " has been stopped."])
  {
  }

  /** As written, a message that starts and stops a new name says only that it started, and
      the timer stays armed. */
  lemma StartAndStopAsWritten(timers: Timers, now: int, name: string, durationText: string)
    requires name !in timers && TotalSeconds(durationText) > 0
    ensures var seconds := TotalSeconds(durationText);
      ObeyAsWritten(timers, now, Intents(Some(StartCommand(name, durationText)), Some(name), None)) ==
      Step(timers[name := Live(now, seconds * 1000, true)], ["Timer " + name + " started"])
  {
    var seconds := TotalSeconds(durationText);
    var a := StartBranch(timers, now, Some(StartCommand(name, durationText)));
    assert a == Step(timers[name := Live(now, seconds * 1000, true)], [Started(name)]);
  }

  /** Every stored timer runs for a whole number of seconds, at least one, so a query at the
      moment it was started shows its full, non-zero duration. */
  lemma StartedShowsWholeDuration(timers: Timers, name: string)
    requires WellFormed(timers) && Truthy(timers, name)
    requires timers[name].durationMs < 100 * 3600 * 1000
    ensures var e := timers[name];
      var shown := GetTimeLeft(e.startDate, e.durationMs, e.startDate);
      IsClockText(shown) && ReadClock(shown) * 1000 == e.durationMs && ReadClock(shown) >= 1
  {
    var e := timers[name];
    TimeLeftShowsRemaining(timers, e.startDate, name);
  }

  /** The bot: the `timers` dictionary it shares through its options, and the handlers that
      read and write it in place. */
  class Bot {
    var timers: Timers

    ghost predicate Valid()
      reads this
    {
      WellFormed(timers)
    }

    constructor ()
      ensures Valid() && timers == map[]
    {
      timers := map[];
    }

    /** `setTimer`: arms a timer for `milliseconds`, stores it under `name` and announces it. */
    method SetTimer(now: int, name: string, milliseconds: int) returns (replies: seq<string>)
      requires Valid()
      modifies this
      ensures milliseconds >= 1000 && milliseconds % 1000 == 0 ==> Valid()
      ensures timers == old(timers)[name := Live(now, milliseconds, true)]
      ensures replies == ["Timer " + name + " started"]
    {
      var timer := Live(now, milliseconds, true);
      timers := timers[name := timer];
      replies := [Started(name)];
    }

    /** The expiry callback of the timer stored under `name`: it rings, asks for the ping, and
        leaves `null` behind. Only a timer that is still armed can expire. */
    method Fire(name: string) returns (replies: seq<string>)
      requires Valid() && Truthy(timers, name) && timers[name].pending
      modifies this
      ensures Valid()
      ensures Step(timers, replies) == FireStep(old(timers), name)
    {
      replies := [Rings(name)];
      replies := replies + [RedeemPing];
      timers := timers[name := Fired];
    }

    /** `stopTimer`. */
    method StopTimer(name: string) returns (replies: seq<string>)
      requires Valid()
      modifies this
      ensures Valid()
      ensures Step(timers, replies) == StopStep(old(timers), name)
    {
      if Truthy(timers, name) {
        var timer := timers[name];
        timers := timers[name := timer.(pending := false)];
        replies := [Stopped(name)];
      } else {
        replies := [StopUsage];
      }
    }

    /** `timerLeft`, with the clock reading passed in as `now`. */
    method TimerLeft(now: int, name: string) returns (replies: seq<string>)
      ensures Step(timers, replies) == TimeStep(timers, now, name)
    {
      if Truthy(timers, name) {
        var timer := timers[name];
        var timeLeft := GetTimeLeft(timer.startDate, timer.durationMs, now);
        replies := [TimeLeftReply(name, timeLeft)];
      } else {
        replies := [TimeUsage];
      }
    }

    /** The start branch of `onMessageHandler`: the name must be unused (not even `null`) and
        the duration text must be worth at least a second. */
    method StartCommandBranch(now: int, name: string, durationText: string) returns (replies: seq<string>)
      requires Valid()
      modifies this
      ensures Valid()
      ensures Step(timers, replies) == StartStep(old(timers), now, name, TotalSeconds(durationText))
    {
      var seconds := ConvertToSeconds(durationText);
      if name !in timers {
        if seconds != 0 {
          replies := SetTimer(now, name, seconds * 1000);
        } else {
          replies := [StartUsage];
        }
      } else {
        replies := [AlreadyExists(name)];
      }
    }

    /** The three branches of `onMessageHandler` for a command that passed the gate, each on
        the dictionary the previous one left. */
    method ObeyIntents(now: int, intents: Intents) returns (replies: seq<string>)
      requires Valid()
      modifies this
      ensures Valid()
      ensures Step(timers, replies) == Obey(old(timers), now, intents)
    {
      replies := [];
      ghost var a := StartBranch(timers, now, intents.start);
      if intents.start.Some? {
        replies := StartCommandBranch(now, intents.start.value.name, intents.start.value.durationText);
      }
      assert Step(timers, replies) == a;
      ghost var b := StopBranch(timers, now, intents.stop);
      if intents.stop.Some? {
        var said := StopTimer(intents.stop.value);
        replies := replies + said;
      }
      assert Step(timers, replies) == Step(b.timers, a.replies + b.replies);
      ghost var c := TimeBranch(timers, now, intents.time);
      if intents.time.Some? {
        var said := TimerLeft(now, intents.time.value);
        replies := replies + said;
      }
      assert Step(timers, replies) == Step(c.timers, a.replies + b.replies + c.replies);
    }

    /** `onMessageHandler`, answering with the list of messages it says, in order. */
    method HandleMessage(now: int, isSelf: bool, user: Context, msg: string) returns (replies: seq<string>)
      requires Valid()
      modifies this
      ensures Valid()
      ensures Step(timers, replies) == Dispatch(old(timers), now, isSelf, user, msg)
    {
      replies := [];
      if isSelf {
        return;
      }
      var command := Trim(msg);
      if IsValidCommand(command, user) {
        replies := ObeyIntents(now, Recognize(command));
      }
    }
  }
}
