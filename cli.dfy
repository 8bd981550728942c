/**
 * The interactive loop of `main`: first a platform is chosen, then URLs for
 * that platform are read until the user goes back or exits.  Console input is
 * a sequence of lines (what `input()` returns), and what the loop prints is
 * recorded as a trace of events.  A download is the event Download; the hint
 * shown when it fails (FailureHints.HintFor) never reaches the loop.
 */
module Cli {
  import opened Wrappers
  import opened Text
  import opened UrlPatterns

  /** Which of the two nested loops is reading the next line. */
  datatype State = PlatformSelect | UrlEntry(platform: Platform)

  /** What the loop does with one line of input. */
  datatype Event =
    | Exit                                    // "Exiting..." and the program ends
    | InvalidChoice                           // "Invalid choice"
    | Chose(platform: Platform)               // nothing printed: the URL prompt of that platform follows
    | Back                                    // "Returning to platform selection..."
    | EnterUrl                                // "Enter a URL."
    | InvalidUrl(platform: Platform)          // "Invalid Youtube URL." / "Invalid Soundcloud URL."
    | Download(platform: Platform, url: string)  // download_mp3(url)

  /** The event for one line and the state that reads the next; None when the program ends. */
  datatype Step = Step(event: Event, next: Option<State>)

  /** The program ends because the user typed exit, or because input ran out (EOFError). */
  datatype Ending = Exited | EndOfInput

  datatype Session = Session(trace: seq<Event>, ending: Ending)

  /**
   * What the loop makes of one line before deciding: the stripped line, and
   * the same lower-cased (the choice at the platform prompt, and the text
   * compared with `exit` and `back` at the URL prompt).
   */
  datatype Reading = Reading(word: string, url: string)

  function Read(line: string): Reading {
    var url := Strip(line);
    Reading(Lower(url), url)
  }

  /**
   * A URL validator, by platform.  The loop is stated for any validator;
   * `main` uses UrlPatterns.IsUrlFor.
   */
  type Validator = (Platform, string) -> bool

  /** A line that reads as the word `exit`, at either prompt. */
  predicate IsExitLine(line: string) {
    Lower(Strip(line)) == "exit"
  }

  /** The platform behind menu choice "1" or "2". */
  function ChoicePlatform(choice: string): Option<Platform> {
    if choice == "1" then Some(YouTube)
    else if choice == "2" then Some(SoundCloud)
    else None
  }

  /** One pass through the body of whichever loop is reading, on a line already read. */
  function Decide(st: State, r: Reading, valid: Validator): (t: Step)
    ensures t.next == None <==> t.event == Exit
    ensures t.event == Exit <==> r.word == "exit"
    ensures t.next.Some? ==> t.next.value == After(st, t.event)
    ensures t.event.Chose? <==> st == PlatformSelect && (r.word == "1" || r.word == "2")
    ensures t.event == InvalidChoice <==> st == PlatformSelect && r.word != "exit" && r.word != "1" && r.word != "2"
    ensures t.event.Chose? ==> t.event.platform == (if r.word == "1" then YouTube else SoundCloud)
    ensures t.event == EnterUrl <==> st.UrlEntry? && r.word != "exit" && r.word != "back" && r.url == ""
    ensures t.event.InvalidUrl? <==> st.UrlEntry? && r.word != "exit" && r.word != "back" && r.url != ""
                                      && !valid(st.platform, r.url)
    ensures t.event.Download? <==> st.UrlEntry? && r.word != "exit" && r.word != "back" && r.url != ""
                                    && valid(st.platform, r.url)
    ensures t.event.InvalidUrl? || t.event.Download? ==> t.event.platform == st.platform
    ensures t.event.Download? ==> t.event.url == r.url
  {
    match st
    case PlatformSelect =>
      if r.word == "exit" then Step(Exit, None)
      else (
        match ChoicePlatform(r.word)
        case None => Step(InvalidChoice, Some(PlatformSelect))
        case Some(p) => Step(Chose(p), Some(UrlEntry(p))))
    case UrlEntry(p) =>
      if r.word == "exit" then Step(Exit, None)
      else if r.word == "back" then Step(Back, Some(PlatformSelect))
      else if r.url == "" then Step(EnterUrl, Some(st))
      else if !valid(p, r.url) then Step(InvalidUrl(p), Some(st))
      else Step(Download(p, r.url), Some(st))
  }

  /** The readings of all lines. */
  function Reads(lines: seq<string>): (rs: seq<Reading>)
    ensures |rs| == |lines| && forall k :: 0 <= k < |lines| ==> rs[k] == Read(lines[k])
  {
    seq(|lines|, k requires 0 <= k < |lines| => Read(lines[k]))
  }

  /**
   * The session that starts in state `st` at reading `i`: one event per line
   * read, until `exit` or the end of the input.
   */
  function RunFrom(st: State, rs: seq<Reading>, i: nat, valid: Validator): (s: Session)
    requires i <= |rs|
    ensures |s.trace| <= |rs| - i
    ensures s.ending == EndOfInput ==> |s.trace| == |rs| - i
    ensures s.ending == Exited ==> 0 < |s.trace|
    decreases |rs| - i
  {
    if i == |rs| then Session([], EndOfInput)
    else
      var t := Decide(st, rs[i], valid);
      match t.next
      case None => Session([t.event], Exited)
      case Some(next) => Then([t.event], RunFrom(next, rs, i + 1, valid))
  }

  /** The session of `main` on console input `lines`. */
  function Run(lines: seq<string>): Session {
    RunFrom(PlatformSelect, Reads(lines), 0, IsUrlFor)
  }

  /** A session with `done` already in its trace. */
  function Then(done: seq<Event>, s: Session): Session {
    Session(done + s.trace, s.ending)
  }

  lemma ThenNothing(s: Session)
    ensures Then([], s) == s
  {
    assert [] + s.trace == s.trace;
  }

  lemma ThenConcat(done: seq<Event>, more: seq<Event>, s: Session)
    ensures Then(done, Then(more, s)) == Then(done + more, s)
  {
    assert done + (more + s.trace) == (done + more) + s.trace;
  }

  /**
   * The inner loop of `main`: reads URLs for `platform` from line `i0` on,
   * until the user goes back (`ending` is None and the outer loop reads line
   * `i` next), exits, or input runs out.  `valid` is the validator the loop
   * applies to a URL.
   */
  method ReadUrls(lines: seq<string>, i0: nat, platform: Platform, valid: Validator)
    returns (events: seq<Event>, i: nat, ending: Option<Ending>)
    requires i0 <= |lines|
    ensures i0 <= i <= |lines|
    ensures ending.None? ==> i0 < i && RunFrom(UrlEntry(platform), Reads(lines), i0, valid)
                                       == Then(events, RunFrom(PlatformSelect, Reads(lines), i, valid))
    ensures ending.Some? ==> RunFrom(UrlEntry(platform), Reads(lines), i0, valid) == Session(events, ending.value)
  {
    ghost var rs := Reads(lines);
    events := [];
    i := i0;
    ThenNothing(RunFrom(UrlEntry(platform), rs, i0, valid));
    while true
      invariant i0 <= i <= |lines|
      invariant RunFrom(UrlEntry(platform), rs, i0, valid) == Then(events, RunFrom(UrlEntry(platform), rs, i, valid))
      decreases |lines| - i
    {
      if i == |lines| {
        ending := Some(EndOfInput);
        return;
      }
      assert rs[i] == Read(lines[i]);
      var url := Strip(lines[i]);
      i := i + 1;
      if Lower(url) == "exit" {
        events := events + [Exit];
        ending := Some(Exited);
        return;
      }
      if Lower(url) == "back" {
        ThenConcat(events, [Back], RunFrom(PlatformSelect, rs, i, valid));
        events := events + [Back];
        ending := None;
        return;
      }
      if url == "" {
        ThenConcat(events, [EnterUrl], RunFrom(UrlEntry(platform), rs, i, valid));
        events := events + [EnterUrl];
        continue;
      }
      if !valid(platform, url) {
        ThenConcat(events, [InvalidUrl(platform)], RunFrom(UrlEntry(platform), rs, i, valid));
        events := events + [InvalidUrl(platform)];
        continue;
      }
      ThenConcat(events, [Download(platform, url)], RunFrom(UrlEntry(platform), rs, i, valid));
      events := events + [Download(platform, url)];
    }
  }

  /**
   * The body of `main` for validator `valid`: the outer loop reads a platform
   * choice and hands the following lines to the URL loop, which returns here
   * on `back`.
   */
  method Interact(lines: seq<string>, valid: Validator) returns (trace: seq<Event>, ending: Ending)
    ensures Session(trace, ending) == RunFrom(PlatformSelect, Reads(lines), 0, valid)
  {
    ghost var rs := Reads(lines);
    trace := [];
    var i := 0;
    ThenNothing(RunFrom(PlatformSelect, rs, 0, valid));
    while true
      invariant 0 <= i <= |lines|
      invariant RunFrom(PlatformSelect, rs, 0, valid) == Then(trace, RunFrom(PlatformSelect, rs, i, valid))
      decreases |lines| - i
    {
      if i == |lines| {
        ending := EndOfInput;
        return;
      }
      assert rs[i] == Read(lines[i]);
      var choice := Lower(Strip(lines[i]));
      i := i + 1;
      if choice == "exit" {
        trace := trace + [Exit];
        ending := Exited;
        return;
      }
      if choice != "1" && choice != "2" {
        ThenConcat(trace, [InvalidChoice], RunFrom(PlatformSelect, rs, i, valid));
        trace := trace + [InvalidChoice];
        continue;
      }
      var platform := if choice == "1" then YouTube else SoundCloud;
      ThenConcat(trace, [Chose(platform)], RunFrom(UrlEntry(platform), rs, i, valid));
      trace := trace + [Chose(platform)];
      var events, next, stop := ReadUrls(lines, i, platform, valid);
      ThenConcat(trace, events, RunFrom(PlatformSelect, rs, next, valid));
      trace := trace + events;
      i := next;
      if stop.Some? {
        ending := stop.value;
        return;
      }
    }
  }

  /** `main` itself: the loop with `is_youtube_url` and `is_soundcloud_url` as the validators. */
  method MainLoop(lines: seq<string>) returns (trace: seq<Event>, ending: Ending)
    ensures Session(trace, ending) == Run(lines)
  {
    trace, ending := Interact(lines, IsUrlFor);
  }

  /** The prompt that follows an event: choosing a platform opens its URL prompt, `back` closes it. */
  function After(st: State, e: Event): State {
    match e
    case Chose(p) => UrlEntry(p)
    case Back => PlatformSelect
    case _ => st
  }

  /** The prompt reached from `st` after the events `events`, read off the events alone. */
  function Replay(st: State, events: seq<Event>): State
    decreases |events|
  {
    if events == [] then st else Replay(After(st, events[0]), events[1..])
  }

  /**
   * Event `k` of a session is what the prompt that the earlier events lead
   * to does with reading `i + k`: the trace alone tells which prompt read
   * each line.
   */
  lemma {:induction false} EventAt(st: State, rs: seq<Reading>, i: nat, valid: Validator, k: nat)
    requires i <= |rs| && k < |RunFrom(st, rs, i, valid).trace|
    ensures var trace := RunFrom(st, rs, i, valid).trace;
            i + k < |rs| && trace[k] == Decide(Replay(st, trace[..k]), rs[i + k], valid).event
    decreases k
  {
    var t := Decide(st, rs[i], valid);
    var trace := RunFrom(st, rs, i, valid).trace;
    if k == 0 {
      assert trace[..0] == [];
    } else {
      var next := t.next.value;
      var rest := RunFrom(next, rs, i + 1, valid).trace;
      assert trace == [t.event] + rest;
      EventAt(next, rs, i + 1, valid, k - 1);
      assert trace[..k][1..] == rest[..k - 1];
      assert trace[k] == rest[k - 1];
    }
  }

  /**
   * A session ends in Exited exactly when one of the lines it could read says
   * `exit`.
   */
  lemma {:induction false} StopsAtFirstExit(st: State, rs: seq<Reading>, i: nat, valid: Validator)
    requires i <= |rs|
    ensures RunFrom(st, rs, i, valid).ending == Exited <==> exists k :: i <= k < |rs| && rs[k].word == "exit"
    decreases |rs| - i
  {
    if i < |rs| {
      var t := Decide(st, rs[i], valid);
      if t.next.Some? {
        StopsAtFirstExit(t.next.value, rs, i + 1, valid);
        if RunFrom(t.next.value, rs, i + 1, valid).ending == Exited {
          var k :| i + 1 <= k < |rs| && rs[k].word == "exit";
          assert i <= k;
        }
      }
    }
  }

  /** Exit is only ever the last event, and a session that ends in Exited ends with it. */
  predicate ExitOnlyLast(s: Session) {
    forall k :: 0 <= k < |s.trace| ==> (s.trace[k] == Exit <==> s.ending == Exited && k == |s.trace| - 1)
  }

  lemma {:induction false} ExitIsLast(st: State, rs: seq<Reading>, i: nat, valid: Validator)
    requires i <= |rs|
    ensures ExitOnlyLast(RunFrom(st, rs, i, valid))
    decreases |rs| - i
  {
    if i < |rs| {
      var t := Decide(st, rs[i], valid);
      if t.next.Some? {
        ExitIsLast(t.next.value, rs, i + 1, valid);
        var rest := RunFrom(t.next.value, rs, i + 1, valid);
        var trace := [t.event] + rest.trace;
        assert RunFrom(st, rs, i, valid) == Session(trace, rest.ending);
        forall k | 0 <= k < |trace|
          ensures trace[k] == Exit <==> rest.ending == Exited && k == |trace| - 1
        {
          if k == 0 {
            assert trace[0] == t.event != Exit;
            assert rest.ending == Exited ==> |rest.trace| > 0;
          } else {
            assert trace[k] == rest.trace[k - 1];
          }
        }
      } else {
        assert RunFrom(st, rs, i, valid).trace == [Exit];
      }
    }
  }

  /** The line read for each event says `exit` exactly when the event is Exit. */
  lemma {:induction false} ExitMarksExitLine(st: State, rs: seq<Reading>, i: nat, valid: Validator)
    requires i <= |rs|
    ensures var s := RunFrom(st, rs, i, valid);
            forall k :: i <= k < i + |s.trace| ==> (rs[k].word == "exit" <==> s.trace[k - i] == Exit)
    decreases |rs| - i
  {
    if i < |rs| {
      var t := Decide(st, rs[i], valid);
      if t.next.Some? {
        ExitMarksExitLine(t.next.value, rs, i + 1, valid);
        var rest := RunFrom(t.next.value, rs, i + 1, valid);
        var trace := [t.event] + rest.trace;
        assert RunFrom(st, rs, i, valid) == Session(trace, rest.ending);
        forall j | i <= j < i + |trace|
          ensures rs[j].word == "exit" <==> trace[j - i] == Exit
        {
          if j == i {
            assert trace[0] == t.event;
          } else {
            assert trace[j - i] == rest.trace[j - (i + 1)];
          }
        }
      } else {
        assert RunFrom(st, rs, i, valid).trace == [Exit];
      }
    }
  }

  /** `main` ends by `exit` exactly when some line says `exit`, and reads nothing after the first one. */
  lemma ExitOnlyOnExitLine(lines: seq<string>)
    ensures Run(lines).ending == Exited <==> exists k :: 0 <= k < |lines| && IsExitLine(lines[k])
    ensures var s := Run(lines);
            forall k :: 0 <= k < |s.trace| ==> (IsExitLine(lines[k]) <==> s.trace[k] == Exit)
    ensures ExitOnlyLast(Run(lines))
  {
    var rs := Reads(lines);
    StopsAtFirstExit(PlatformSelect, rs, 0, IsUrlFor);
    ExitIsLast(PlatformSelect, rs, 0, IsUrlFor);
    ExitMarksExitLine(PlatformSelect, rs, 0, IsUrlFor);
    assert forall k :: 0 <= k < |lines| ==> (IsExitLine(lines[k]) <==> rs[k].word == "exit");
  }

  /**
   * A download happens only at the URL prompt of the platform it is for,
   * with the stripped line as its URL, and only once that platform's
   * validator has accepted it.
   */
  lemma DownloadsPassTheGate(lines: seq<string>, k: nat)
    requires k < |Run(lines).trace| && Run(lines).trace[k].Download?
    ensures var e := Run(lines).trace[k];
            && Replay(PlatformSelect, Run(lines).trace[..k]) == UrlEntry(e.platform)
            && e.url == Strip(lines[k]) && e.url != ""
            && IsUrlFor(e.platform, e.url)
  {
    var rs := Reads(lines);
    var trace := Run(lines).trace;
    EventAt(PlatformSelect, rs, 0, IsUrlFor, k);
  }

  /**
   * Conversely, a reading taken at a platform's URL prompt that is not `exit`
   * or `back`, has a non-empty URL and passes that platform's validator is
   * downloaded: exactly once, for that platform, with that URL.
   */
  lemma AcceptedUrlDownloads(st: State, rs: seq<Reading>, i: nat, valid: Validator, k: nat, p: Platform)
    requires i <= |rs| && k < |RunFrom(st, rs, i, valid).trace|
    requires Replay(st, RunFrom(st, rs, i, valid).trace[..k]) == UrlEntry(p)
    requires i + k < |rs| && rs[i + k].word != "exit" && rs[i + k].word != "back"
    requires rs[i + k].url != "" && valid(p, rs[i + k].url)
    ensures RunFrom(st, rs, i, valid).trace[k] == Download(p, rs[i + k].url)
  {
    EventAt(st, rs, i, valid, k);
  }

  /** A line with no whitespace at either end and no upper-case letter reads as itself. */
  lemma ReadPlain(line: string)
    requires line == [] || (!IsSpace(line[0]) && !IsSpace(line[|line| - 1]))
    requires forall k :: 0 <= k < |line| ==> LowerChar(line[k]) == line[k]
    ensures Read(line) == Reading(line, line)
  {
    assert LeadingSpace(line) == 0;
    assert TrailingSpace(line) == 0;
    assert Strip(line) == line;
    LowerChars(line);
  }

  /**
   * Choosing YouTube, going back, choosing SoundCloud, pasting a URL the
   * SoundCloud validator accepts and exiting downloads that URL once, for
   * SoundCloud, and ends the program.
   */
  lemma BackThenDownload(rs: seq<Reading>, u: Reading, valid: Validator)
    requires u.word != "exit" && u.word != "back" && u.url != "" && valid(SoundCloud, u.url)
    requires rs == [Reading("1", "1"), Reading("back", "back"), Reading("2", "2"), u, Reading("exit", "exit")]
    ensures RunFrom(PlatformSelect, rs, 0, valid)
         == Session([Chose(YouTube), Back, Chose(SoundCloud), Download(SoundCloud, u.url), Exit], Exited)
  {
    assert RunFrom(UrlEntry(SoundCloud), rs, 4, valid) == Session([Exit], Exited);
    assert RunFrom(UrlEntry(SoundCloud), rs, 3, valid) == Session([Download(SoundCloud, u.url), Exit], Exited);
    assert RunFrom(PlatformSelect, rs, 2, valid)
        == Session([Chose(SoundCloud), Download(SoundCloud, u.url), Exit], Exited);
    assert RunFrom(UrlEntry(YouTube), rs, 1, valid)
        == Session([Back, Chose(SoundCloud), Download(SoundCloud, u.url), Exit], Exited);
  }

  /**
   * A URL the validator rejects is answered with InvalidUrl and no download,
   * and the same URL prompt reads the next line: a URL it accepts is then
   * downloaded for the same platform.
   */
  lemma RejectedUrlStays(rs: seq<Reading>, u: Reading, v: Reading, valid: Validator)
    requires u.word != "exit" && u.word != "back" && u.url != "" && !valid(YouTube, u.url)
    requires v.word != "exit" && v.word != "back" && v.url != "" && valid(YouTube, v.url)
    requires rs == [Reading("1", "1"), u, v]
    ensures RunFrom(PlatformSelect, rs, 0, valid)
         == Session([Chose(YouTube), InvalidUrl(YouTube), Download(YouTube, v.url)], EndOfInput)
  {
    assert RunFrom(UrlEntry(YouTube), rs, 2, valid) == Session([Download(YouTube, v.url)], EndOfInput);
    assert RunFrom(UrlEntry(YouTube), rs, 1, valid)
        == Session([InvalidUrl(YouTube), Download(YouTube, v.url)], EndOfInput);
  }

  /** An invalid menu choice is reported once and the menu is shown again. */
  lemma InvalidChoiceThenYouTube(rs: seq<Reading>, valid: Validator)
    requires rs == [Reading("9", "9"), Reading("1", "1"), Reading("exit", "exit")]
    ensures RunFrom(PlatformSelect, rs, 0, valid) == Session([InvalidChoice, Chose(YouTube), Exit], Exited)
  {
    assert RunFrom(UrlEntry(YouTube), rs, 2, valid) == Session([Exit], Exited);
    assert RunFrom(PlatformSelect, rs, 1, valid) == Session([Chose(YouTube), Exit], Exited);
  }
}
