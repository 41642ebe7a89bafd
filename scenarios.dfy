/**
 * Whole conversations with the bot, message by message, on the dictionary each message leaves.
 */
module Scenarios {
  import opened Wrappers
  import opened JsText
  import opened Duration
  import opened Clock
  import opened Commands
  import opened Engine

  const Moderator := Context(true, None, map[])
  const Broadcaster := Context(false, None, map["broadcaster" := "1"])
  const Viewer := Context(false, None, map["subscriber" := "1"])

  /** A message with no surrounding white space that passes the gate is answered as its
      recognized intents are obeyed. */
  lemma AnsweredAs(timers: Timers, now: int, user: Context, msg: string, intents: Intents, r: Step)
    requires Trim(msg) == msg && IsValidCommand(msg, user)
    requires Recognize(msg) == intents && Obey(timers, now, intents) == r
    ensures Dispatch(timers, now, false, user, msg) == r
  {
  }

  lemma OneMinuteIsSixtySeconds()
    ensures TotalSeconds("1m") == 60
  {
    assert ScanFrom("1m", 0) == 60;
  }

  lemma StartBoilObeyed()
    ensures Obey(map[], 0, Intents(Some(StartCommand("boil", "1m")), None, None)) ==
            Step(map["boil" := Live(0, 60000, true)], ["Timer boil started"])
  {
    OneMinuteIsSixtySeconds();
    assert Started("boil") == "Timer boil started";
  }

  /** A moderator starts a one-minute timer. */
  lemma StartBoil()
    ensures Dispatch(map[], 0, false, Moderator, "!eggtimer start boil 1m") ==
            Step(map["boil" := Live(0, 60000, true)], ["Timer boil started"])
  {
    var msg := "!eggtimer start boil 1m";
    TrimUnpadded(msg);
    StartExample();
    StartBoilObeyed();
    AnsweredAs(map[], 0, Moderator, msg, Intents(Some(StartCommand("boil", "1m")), None, None),
               Step(map["boil" := Live(0, 60000, true)], ["Timer boil started"]));
  }

  /** The same message from a viewer is ignored. */
  lemma ViewerIgnored()
    ensures Dispatch(map[], 0, false, Viewer, "!eggtimer start boil 1m") == Step(map[], [])
  {
    ViewerNeverObeyed("!eggtimer start boil 1m", Viewer);
    TrimUnpadded("!eggtimer start boil 1m");
  }

  lemma FiftyFiveSecondsShown()
    ensures SanitizeTime(55000) == "00:00:55"
  {
    assert Split(55000) == Hms(0, 0, 55) by {
      SplitNat(55000);
    }
    assert Pad(0) == "00" by {
      PadNat(0);
    }
    assert Pad(55) == "55" by {
      PadNat(55);
    }
    assert SanitizeTime(55000) == JoinFields(Pad(0), Pad(0), Pad(55));
  }

  lemma BoilReplyText()
    ensures TimeLeftReply("boil", "00:00:55") == "Timer boil has 00:00:55 left."
  {
  }

  lemma LiveQuery(timers: Timers, now: int, name: string, e: Entry)
    requires name in timers && timers[name] == e && e.Live?
    ensures TimeStep(timers, now, name) ==
            Step(timers, [TimeLeftReply(name, GetTimeLeft(e.startDate, e.durationMs, now))])
  {
  }

  lemma QueryBoilStep()
    ensures TimeStep(map["boil" := Live(0, 60000, true)], 5000, "boil") ==
            Step(map["boil" := Live(0, 60000, true)], ["Timer boil has 00:00:55 left."])
  {
    LiveQuery(map["boil" := Live(0, 60000, true)], 5000, "boil", Live(0, 60000, true));
    FiftyFiveSecondsShown();
    assert GetTimeLeft(0, 60000, 5000) == "00:00:55";
    BoilReplyText();
  }

  lemma QueryBoilObeyed()
    ensures Obey(map["boil" := Live(0, 60000, true)], 5000, Intents(None, None, Some("boil"))) ==
            Step(map["boil" := Live(0, 60000, true)], ["Timer boil has 00:00:55 left."])
  {
    QueryBoilStep();
  }

  /** Five seconds later the broadcaster asks how long is left. */
  lemma QueryBoil()
    ensures Dispatch(map["boil" := Live(0, 60000, true)], 5000, false, Broadcaster, "!eggtimer time boil") ==
            Step(map["boil" := Live(0, 60000, true)], ["Timer boil has 00:00:55 left."])
  {
    var msg := "!eggtimer time boil";
    TrimUnpadded(msg);
    TimeExample();
    QueryBoilObeyed();
    AnsweredAs(map["boil" := Live(0, 60000, true)], 5000, Broadcaster, msg, Intents(None, None, Some("boil")),
               Step(map["boil" := Live(0, 60000, true)], ["Timer boil has 00:00:55 left."]));
  }

  lemma QueryAfterRingObeyed()
    ensures var timers := FireStep(map["boil" := Live(0, 60000, true)], "boil").timers;
      Obey(timers, 61000, Intents(None, None, Some("boil"))) == Step(timers, ["Usage !eggtimer time <name>"])
  {
  }

  /** After the timer rang, the same query only gets the usage. */
  lemma QueryAfterRing()
    ensures var timers := FireStep(map["boil" := Live(0, 60000, true)], "boil").timers;
      Dispatch(timers, 61000, false, Moderator, "!eggtimer time boil") ==
      Step(timers, ["Usage !eggtimer time <name>"])
  {
    var msg := "!eggtimer time boil";
    var timers := FireStep(map["boil" := Live(0, 60000, true)], "boil").timers;
    TrimUnpadded(msg);
    TimeExample();
    QueryAfterRingObeyed();
    AnsweredAs(timers, 61000, Moderator, msg, Intents(None, None, Some("boil")),
               Step(timers, ["Usage !eggtimer time <name>"]));
  }
}
