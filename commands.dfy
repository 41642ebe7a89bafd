/**
 * Command recognition: the authorization predicate `isValidCommand` and the three regular
 * expressions of the message handler,
 *   /(!eggtimer start) ([a-zA-z0-9]+) ([0-9].*)/
 *   /(!eggtimer stop) ([a-zA-z0-9]+)/
 *   /(!eggtimer time) ([a-zA-z0-9]+)/
 * none of them anchored, each used through its first (leftmost) match.
 */
module Commands {
  import opened Wrappers
  import opened JsText

  /** The sender metadata the bot consults: the moderator flag, the `user-type` tag and the
      badge map. */
  datatype Context = Context(moderator: bool, userType: Option<string>, badges: map<string, string>)

  const Prefix := "!eggtimer"

  /** `isValidCommand`: the command starts with `!eggtimer` and the sender is a moderator, by flag
      or by user type, or carries the broadcaster badge at level "1". */
  predicate IsValidCommand(command: string, user: Context) {
    Prefix <= command &&
    (user.moderator || user.userType == Some("mod") ||
     ("broadcaster" in user.badges && user.badges["broadcaster"] == "1"))
  }

  /** Someone who is neither moderator nor broadcaster is never obeyed, whatever the text. */
  lemma ViewerNeverObeyed(command: string, user: Context)
    requires !user.moderator && user.userType != Some("mod")
    requires "broadcaster" !in user.badges || user.badges["broadcaster"] != "1"
    ensures !IsValidCommand(command, user)
  {
  }

  /** The gate reads only the first nine characters of the command: two commands that agree
      there are both obeyed or both refused, for every sender. */
  lemma GateReadsOnlyPrefix(command: string, other: string, user: Context)
    requires |command| >= 9 && |other| >= 9 && command[..9] == other[..9]
    ensures IsValidCommand(command, user) <==> IsValidCommand(other, user)
  {
  }

  /** Only the prefix is checked, and case matters: `!eggtimerx` passes the gate for the
      broadcaster, `!EggTimer start` does not. */
  lemma GateExamples()
    ensures IsValidCommand("!eggtimerx", Context(false, None, map["broadcaster" := "1"]))
    ensures !IsValidCommand("!EggTimer start", Context(true, Some("mod"), map["broadcaster" := "1"]))
  {
    assert "!EggTimer start"[1] != Prefix[1];
  }

  /** `[a-zA-z0-9]`. The range `A-z` runs from 'A' to 'z' and so also takes in the six
      characters between 'Z' and 'a' (`[`, backslash, `]`, `^`, `_` and the backquote). */
  predicate IsNameChar(c: char) {
    '0' <= c <= '9' || 'A' <= c <= 'z'
  }

  predicate IsName(n: string) {
    n != [] && forall k :: 0 <= k < |n| ==> IsNameChar(n[k])
  }

  /** The end of the run of name characters that starts at `i`: a greedy `[a-zA-z0-9]+`. */
  function NameEnd(s: string, i: nat): (j: nat)
    requires i <= |s|
    ensures i <= j <= |s|
    ensures forall k :: i <= k < j ==> IsNameChar(s[k])
    ensures j == |s| || !IsNameChar(s[j])
    decreases |s| - i
  {
    if i < |s| && IsNameChar(s[i]) then NameEnd(s, i + 1) else i
  }

  /** The end of the line that starts at `i`: a greedy `.*`. */
  function LineEnd(s: string, i: nat): (j: nat)
    requires i <= |s|
    ensures i <= j <= |s|
    ensures forall k :: i <= k < j ==> !IsLineTerminator(s[k])
    ensures j == |s| || IsLineTerminator(s[j])
    decreases |s| - i
  {
    if i < |s| && !IsLineTerminator(s[i]) then LineEnd(s, i + 1) else i
  }

  datatype Pattern = StartPattern | StopPattern | TimePattern

  /** The literal part of each pattern, the space after the group included. */
  function Keyword(pat: Pattern): string {
    match pat
    case StartPattern => "!eggtimer start "
    case StopPattern => "!eggtimer stop "
    case TimePattern => "!eggtimer time "
  }

  /** Whether the pattern matches at position `p`. As the name class excludes the space, the
      name is the maximal run of name characters; the start pattern also needs a space and a
      digit right after it. */
  predicate MatchesAt(pat: Pattern, s: string, p: nat) {
    var q := p + |Keyword(pat)|;
    q < |s| && s[p..q] == Keyword(pat) && IsNameChar(s[q]) &&
    (pat == StartPattern ==>
      var e := NameEnd(s, q);
      e + 1 < |s| && s[e] == ' ' && IsDigit(s[e + 1]))
  }

  /** Name characters all the way from `i` up to `j`. */
  predicate IsNameRun(s: string, i: nat, j: nat)
    requires i <= j <= |s|
  {
    forall k :: i <= k < j ==> IsNameChar(s[k])
  }

  /** The start pattern matches at `p` exactly when the regular expression does: its literal
      part, a non-empty name of name characters of any length, a space and a digit. As the
      space is not a name character, the greedy name needs no backtracking. */
  lemma StartMatchIsRegexMatch(s: string, p: nat)
    ensures MatchesAt(StartPattern, s, p) <==>
      p + 16 <= |s| && s[p..p + 16] == "!eggtimer start " &&
      exists e :: p + 16 < e && e + 1 < |s| && IsNameRun(s, p + 16, e) && s[e] == ' ' && IsDigit(s[e + 1])
  {
    var q := p + 16;
    if q < |s| {
      var n := NameEnd(s, q);
      if MatchesAt(StartPattern, s, p) {
        assert q < n && IsNameRun(s, q, n) && s[n] == ' ';
      }
      if s[p..q] == "!eggtimer start " {
        forall e | q < e && e + 1 < |s| && IsNameRun(s, q, e) && s[e] == ' ' && IsDigit(s[e + 1])
          ensures MatchesAt(StartPattern, s, p)
        {
          assert !IsNameChar(s[e]);
          assert n == e;
          assert IsNameChar(s[q]);
        }
      }
    }
  }

  /** The leftmost position at or after `from` where the pattern matches. */
  function FirstMatch(pat: Pattern, s: string, from: nat): (r: Option<nat>)
    requires from <= |s|
    ensures r.Some? ==> from <= r.value < |s| && MatchesAt(pat, s, r.value)
    ensures r.Some? ==> forall q :: from <= q < r.value ==> !MatchesAt(pat, s, q)
    ensures r.None? ==> forall q :: from <= q < |s| ==> !MatchesAt(pat, s, q)
    decreases |s| - from
  {
    if from == |s| then None
    else if MatchesAt(pat, s, from) then Some(from)
    else FirstMatch(pat, s, from + 1)
  }

  /** Capture group 2, the timer name, of a match at `p`. */
  function NameAt(pat: Pattern, s: string, p: nat): (r: string)
    requires MatchesAt(pat, s, p)
    ensures IsName(r)
    ensures var q := p + |Keyword(pat)|;
      q + |r| <= |s| && r == s[q..q + |r|] && (q + |r| == |s| || !IsNameChar(s[q + |r|]))
  {
    var q := p + |Keyword(pat)|;
    s[q..NameEnd(s, q)]
  }

  /** Capture group 3 of the start pattern, the duration text: everything after the space that
      ends the name, up to the first line terminator or the end of the text. */
  function DurationAt(s: string, p: nat): (r: string)
    requires MatchesAt(StartPattern, s, p)
    ensures r != [] && IsDigit(r[0])
    ensures forall k :: 0 <= k < |r| ==> !IsLineTerminator(r[k])
    ensures var e := NameEnd(s, p + |Keyword(StartPattern)|);
      e < |s| && s[e] == ' ' && e + 1 + |r| <= |s| && r == s[e + 1..e + 1 + |r|] &&
      (e + 1 + |r| == |s| || IsLineTerminator(s[e + 1 + |r|]))
  {
    var e := NameEnd(s, p + |Keyword(StartPattern)|);
    var r := s[e + 1..LineEnd(s, e + 1)];
    assert r[0] == s[e + 1];
    r
  }

  datatype StartCommand = StartCommand(name: string, durationText: string)

  /** What the three patterns find in one command; they are independent of each other. */
  datatype Intents = Intents(start: Option<StartCommand>, stop: Option<string>, time: Option<string>)

  /** The name captured by the first match of `pat`, if it matches anywhere. */
  function CaptureName(pat: Pattern, s: string): (r: Option<string>)
    ensures r.None? <==> forall p :: 0 <= p < |s| ==> !MatchesAt(pat, s, p)
    ensures r.Some? ==> IsName(r.value)
    ensures r.Some? ==>
      exists p :: 0 <= p < |s| && MatchesAt(pat, s, p) &&
        (forall q :: 0 <= q < p ==> !MatchesAt(pat, s, q)) && r.value == NameAt(pat, s, p)
  {
    match FirstMatch(pat, s, 0)
    case Some(p) => Some(NameAt(pat, s, p))
    case None => None
  }

  /** The name and duration text captured by the first match of the start pattern. */
  function CaptureStart(s: string): (r: Option<StartCommand>)
    ensures r.None? <==> forall p :: 0 <= p < |s| ==> !MatchesAt(StartPattern, s, p)
    ensures r.Some? ==> IsName(r.value.name)
    ensures r.Some? ==> var d := r.value.durationText;
      d != [] && IsDigit(d[0]) && forall k :: 0 <= k < |d| ==> !IsLineTerminator(d[k])
    ensures r.Some? ==>
      exists p :: 0 <= p < |s| && MatchesAt(StartPattern, s, p) &&
        (forall q :: 0 <= q < p ==> !MatchesAt(StartPattern, s, q)) &&
        r.value == StartCommand(NameAt(StartPattern, s, p), DurationAt(s, p))
  {
    match FirstMatch(StartPattern, s, 0)
    case Some(p) => Some(StartCommand(NameAt(StartPattern, s, p), DurationAt(s, p)))
    case None => None
  }

  /** The three `matchAll(...)[0]` lookups of the message handler. */
  function Recognize(command: string): Intents {
    Intents(CaptureStart(command), CaptureName(StopPattern, command), CaptureName(TimePattern, command))
  }

  /** Each of the three intents is present exactly when its pattern matches somewhere in the
      command, and a captured name is well-formed. */
  lemma RecognizeMatches(command: string)
    ensures var r := Recognize(command);
      (r.start.None? <==> forall p :: 0 <= p < |command| ==> !MatchesAt(StartPattern, command, p)) &&
      (r.stop.None? <==> forall p :: 0 <= p < |command| ==> !MatchesAt(StopPattern, command, p)) &&
      (r.time.None? <==> forall p :: 0 <= p < |command| ==> !MatchesAt(TimePattern, command, p)) &&
      (r.start.Some? ==> IsName(r.start.value.name)) &&
      (r.stop.Some? ==> IsName(r.stop.value)) &&
      (r.time.Some? ==> IsName(r.time.value))
  {
  }

  /** A position where the text differs from the keyword is not a match. */
  lemma KeywordMismatch(pat: Pattern, s: string, p: nat, k: nat)
    requires k < |Keyword(pat)| && p + k < |s| && s[p + k] != Keyword(pat)[k]
    ensures !MatchesAt(pat, s, p)
  {
  }

  /** A text whose only `!` is its first character matches nowhere after it. */
  lemma NoLaterMatch(pat: Pattern, s: string)
    requires forall p :: 1 <= p < |s| - |Keyword(pat)| ==> s[p] != '!'
    ensures forall p :: 1 <= p < |s| ==> !MatchesAt(pat, s, p)
  {
    forall p | 1 <= p < |s| ensures !MatchesAt(pat, s, p) {
      if p < |s| - |Keyword(pat)| {
        KeywordMismatch(pat, s, p, 0);
      }
    }
  }

  lemma StartCaptureExample()
    ensures CaptureStart("!eggtimer start boil 1m") == Some(StartCommand("boil", "1m"))
  {
    var s := "!eggtimer start boil 1m";
    assert NameEnd(s, 16) == 20;
    assert MatchesAt(StartPattern, s, 0);
    assert FirstMatch(StartPattern, s, 0) == Some(0);
    assert LineEnd(s, 21) == 23;
    assert NameAt(StartPattern, s, 0) == s[16..20] == "boil";
    assert DurationAt(s, 0) == s[21..23] == "1m";
  }

  lemma StartOnlyExample()
    ensures CaptureName(StopPattern, "!eggtimer start boil 1m") == None
    ensures CaptureName(TimePattern, "!eggtimer start boil 1m") == None
  {
    var s := "!eggtimer start boil 1m";
    KeywordMismatch(StopPattern, s, 0, 12);
    KeywordMismatch(TimePattern, s, 0, 10);
    NoLaterMatch(StopPattern, s);
    NoLaterMatch(TimePattern, s);
  }

  /** A well-formed start command is recognised as a start command and nothing else. */
  lemma StartExample()
    ensures Recognize("!eggtimer start boil 1m") ==
            Intents(Some(StartCommand("boil", "1m")), None, None)
  {
    StartCaptureExample();
    StartOnlyExample();
  }

  /** A start command without a duration matches nothing. */
  lemma StartWithoutDurationExample()
    ensures CaptureStart("!eggtimer start boil") == None
  {
    var s := "!eggtimer start boil";
    assert NameEnd(s, 16) == 20;
    assert !MatchesAt(StartPattern, s, 0);
    NoLaterMatch(StartPattern, s);
  }

  /** A start command whose duration does not begin with a digit matches nothing. */
  lemma StartWithWordDurationExample()
    ensures CaptureStart("!eggtimer start boil soon") == None
  {
    var s := "!eggtimer start boil soon";
    assert forall p :: 1 <= p < 9 ==> s[p] != '!';
    NoLaterMatch(StartPattern, s);
    assert NameEnd(s, 16) == 20;
    assert !MatchesAt(StartPattern, s, 0);
  }

  /** The name class takes in the characters between 'Z' and 'a', and the name ends at the
      first character outside the class. */
  lemma NameClassExample()
    ensures CaptureName(StopPattern, "!eggtimer stop a_[b c") == Some("a_[b")
  {
    var s := "!eggtimer stop a_[b c";
    assert NameEnd(s, 15) == 19;
    assert MatchesAt(StopPattern, s, 0);
    assert FirstMatch(StopPattern, s, 0) == Some(0);
    assert NameAt(StopPattern, s, 0) == s[15..19] == "a_[b";
  }

  lemma TimeCaptureExample()
    ensures CaptureName(TimePattern, "!eggtimer time boil") == Some("boil")
  {
    var s := "!eggtimer time boil";
    assert NameEnd(s, 15) == 19;
    assert MatchesAt(TimePattern, s, 0);
    assert FirstMatch(TimePattern, s, 0) == Some(0);
    assert NameAt(TimePattern, s, 0) == s[15..19] == "boil";
  }

  lemma TimeOnlyExample()
    ensures CaptureStart("!eggtimer time boil") == None
    ensures CaptureName(StopPattern, "!eggtimer time boil") == None
  {
    var s := "!eggtimer time boil";
    KeywordMismatch(StopPattern, s, 0, 11);
    KeywordMismatch(StartPattern, s, 0, 11);
    NoLaterMatch(StartPattern, s);
    NoLaterMatch(StopPattern, s);
  }

  /** A time query is recognised as a time query and nothing else. */
  lemma TimeExample()
    ensures Recognize("!eggtimer time boil") == Intents(None, None, Some("boil"))
  {
    TimeCaptureExample();
    TimeOnlyExample();
  }
}
