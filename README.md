# yt2mp3 in Dafny

yt2mp3 is a small console program. It asks the user to pick a platform:
1 for YouTube, 2 for SoundCloud. It then reads URLs for that platform, checks
each one against the platform's URL pattern, and hands the accepted ones to
the yt-dlp library, which downloads the audio as MP3. This project models the
three parts of `yt2mp3.py` that have logic of their own and proves properties
of them:

- **URL validators** (`UrlPatterns`). `is_youtube_url` and
  `is_soundcloud_url` are `re.match` against two anchored patterns. Each is
  modelled by one hand-written recognizer, `Match`, which also returns how
  the string splits into scheme, `www.`, host, path and the final newline
  that `$` lets through. The recognizer is proved equal to the
  decomposition `("" | "http://" | "https://") + ("" | "www.") + host + "/" + path`.
- **Failure hints** (`FailureHints`). The three `except` clauses of
  `download_mp3` are a pure function from the failure raised to the hint
  shown. The `DownloadError` clause is an ordered chain of substring tests
  on the lower-cased message.
- **Interactive loop** (`Cli`). `main`'s two nested `while True` loops are
  two methods:
  - `Interact` is the outer loop. It reads the platform choice.
  - `ReadUrls` is the inner loop. It reads URLs for that platform.

  Both are proved against `RunFrom`, a two-state machine
  (`PlatformSelect` / `UrlEntry(platform)`). `RunFrom` turns the input
  lines into a trace of events: `Exit`, `InvalidChoice`, `Chose`, `Back`,
  `EnterUrl`, `InvalidUrl` and `Download`. Properties of the whole session
  are lemmas about `RunFrom`.
- **Python string operations** (`Text`). The loop and the hint chain rely on
  `str.strip()`, `str.lower()` and substring `in`. They are modelled here
  with their own lemmas.

The loop takes the URL validator as a parameter (`Validator`). `MainLoop`
and `Run` instantiate it with `UrlPatterns.IsUrlFor`. That predicate is
`is_youtube_url` when choice "1" is bound and `is_soundcloud_url` when "2" is.

Besides an explicit `exit`, the program also ends when input runs out:
`input()` raises an uncaught `EOFError`. The model records that ending as
`EndOfInput`.

## Model

| member | source | states |
|---|---|---|
| Text.StripIsSlice | yt2mp3.py:75 | `strip()` returns a contiguous slice of the line, starting right after its leading whitespace |
| Text.StripDropsOnlySpace | yt2mp3.py:75 | everything `strip()` removes, before and after the slice, is whitespace |
| Text.StripEndsNotSpace | yt2mp3.py:86 | a stripped line is empty or neither starts nor ends with whitespace |
| Text.StripIdempotent | yt2mp3.py:86 | stripping a stripped line changes nothing |
| Text.LeadingSpaceIsRun | yt2mp3.py:75 | the leading run `strip()` removes is all whitespace and stops at the first non-whitespace character |
| Text.TrailingSpaceIsRun | yt2mp3.py:86 | the trailing run `strip()` removes is all whitespace and stops at the last non-whitespace character |
| Text.LowerChars | yt2mp3.py:53 | the model's `Lower` applies `LowerChar` at each index and keeps the length |
| Text.LowerIdempotent | yt2mp3.py:87 | lower-casing twice is lower-casing once |
| Text.Contains | yt2mp3.py:54-58 | `t in s` holds exactly when `t` occurs in `s` as a contiguous slice |
| UrlPatterns.Match | yt2mp3.py:10-21 | a match comes with a decomposition: a host of that platform, a non-empty path over `[\w\-\?=&#/]`, and a rendering equal to the input |
| UrlPatterns.YouTubeUrlShape | yt2mp3.py:17-18 | `is_youtube_url(s)` holds exactly when `s` is an optional scheme, an optional `www.`, `youtube.com` or `youtu.be`, `/` and a well-formed path, possibly followed by one newline |
| UrlPatterns.SoundCloudUrlShape | yt2mp3.py:20-21 | the same characterisation for `is_soundcloud_url`, with host `soundcloud.com` only |
| UrlPatterns.ShapeMatches | yt2mp3.py:10-15 | for either pattern, the recognizer matches exactly the strings of that shape |
| UrlPatterns.MatchRender | yt2mp3.py:10-15 | on any rendered decomposition the recognizer returns the canonical decomposition if its path is well formed, and no match otherwise |
| UrlPatterns.ShapedIsMatched | yt2mp3.py:10-15 | a well-formed decomposition is read back exactly |
| UrlPatterns.MatchIsShaped | yt2mp3.py:10-15 | every match is of the platform's shape |
| UrlPatterns.ReadPrefixOf | yt2mp3.py:11 | the optional scheme, `www.` and host are read back exactly, whatever follows them |
| UrlPatterns.ValidatorsDisjoint | yt2mp3.py:10-15 | no string passes both validators |
| UrlPatterns.EmptyPathRejected | yt2mp3.py:11 | a URL with nothing after the host's slash is rejected (the `+`) |
| UrlPatterns.ForeignPathCharRejected | yt2mp3.py:11 | a space, `.` or `%` anywhere after the host's slash makes the URL fail |
| UrlPatterns.TrailingNewlineAccepted | yt2mp3.py:11 | the `$` quirk: a well-formed URL matches, and still matches with one newline appended |
| UrlPatterns.StrippedNeverEndsInNewline | yt2mp3.py:86 | on a stripped line the newline that `$` allows is never part of a match |
| UrlPatterns.ShortLinkAccepted | yt2mp3.py:11 | `https://youtu.be/dQw4w9WgXcQ` is a YouTube URL |
| UrlPatterns.NewlineBeforeEndAccepted | yt2mp3.py:11 | `youtu.be/x` followed by a newline is a YouTube URL |
| UrlPatterns.SoundCloudTrackAccepted | yt2mp3.py:14 | `https://soundcloud.com/artist/track` is a SoundCloud URL |
| UrlPatterns.OtherSiteRejected | yt2mp3.py:11 | `https://vimeo.com/123` is not a YouTube URL |
| UrlPatterns.BareHostRejected | yt2mp3.py:11 | `youtu.be/` is not a YouTube URL |
| UrlPatterns.TrailingSpaceRejected | yt2mp3.py:11 | `youtu.be/x ` with a trailing space is not a YouTube URL |
| FailureHints.DownloadErrorHint | yt2mp3.py:52-61 | precedence, stated against phrase occurrence in the lower-cased text: "timed out" wins; then "could not connect" / "failed to resolve"; then "slow" / "connection reset"; otherwise the raw message |
| FailureHints.HintFor | yt2mp3.py:52-67 | `download_mp3` catches every `Exception`, and each failure kind gets exactly one hint, which identifies its handler: `DownloadError` gets one of the four chain hints, `socket.timeout` the socket hint, and any other `Exception` the unknown-error hint with its text |
| FailureHints.DownloadErrorIgnoresCase | yt2mp3.py:53 | two messages that lower-case alike get the same hint, apart from the raw text of the fallback |
| FailureHints.DownloadErrorOfLowered | yt2mp3.py:53 | classifying the lower-cased message gives the same hint, apart from the fallback text |
| FailureHints.CouldNotConnectInAnyCase | yt2mp3.py:56-57 | "could not connect" in any letter case means the server is unreachable |
| Cli.Decide | yt2mp3.py:75-105 | one pass through the loop body, for a line already stripped and lower-cased: only `exit` ends the program; "1"/"2" bind YouTube/SoundCloud at the menu and anything else is an invalid choice; at the URL prompt: `back`, then an empty line, then a rejected URL, otherwise a download of the stripped URL for the bound platform; the next prompt follows from the event |
| Cli.RunFrom | yt2mp3.py:69-106 | a session has at most one event per line; if input runs out, exactly one event per line; a session ending in exit has an event |
| Cli.ReadUrls | yt2mp3.py:85-106 | the inner loop produces the events of the URL state up to `back`, `exit` or end of input; after `back`, the rest of the session is the menu's from the next line |
| Cli.Interact | yt2mp3.py:69-106 | the two nested loops produce exactly the session of the state machine |
| Cli.MainLoop | yt2mp3.py:69-106 | `main` with the two validators produces the session `Run(lines)` |
| Cli.EventAt | yt2mp3.py:69-106 | each event is what the prompt reached by the earlier events does with that line |
| Cli.StopsAtFirstExit | yt2mp3.py:77-89 | a session ends by `exit` exactly when one of the lines still to read says `exit` |
| Cli.ExitIsLast | yt2mp3.py:77-89 | `Exit` is only ever the last event, and a session ending by `exit` ends with it |
| Cli.ExitMarksExitLine | yt2mp3.py:77-89 | the line behind each event says `exit` exactly when the event is `Exit` |
| Cli.ExitOnlyOnExitLine | yt2mp3.py:75-90 | `main` ends by `exit` exactly when some line strips and lower-cases to `exit`; the first such line ends it, and nothing after it is read |
| Cli.DownloadsPassTheGate | yt2mp3.py:97-106 | every download happens at the bound platform's URL prompt, with the stripped, non-lower-cased line as URL, and only after that platform's validator accepted it |
| Cli.AcceptedUrlDownloads | yt2mp3.py:86-106 | for any validator: a line read at a platform's URL prompt that is not `exit` or `back`, has a non-empty stripped URL and passes that platform's validator produces exactly one download, for that platform, of that URL |
| Cli.ReadPlain | yt2mp3.py:75 | a line with no surrounding whitespace and no upper case reads as itself |
| Cli.BackThenDownload | yt2mp3.py:70-106 | "1", "back", "2", a URL the SoundCloud validator accepts, "exit": back at the menu after `back`, one SoundCloud download, then the end |
| Cli.RejectedUrlStays | yt2mp3.py:97-100 | a URL the bound validator rejects gets an invalid-URL notice and no download; the same URL prompt reads the next line, and a URL accepted there is downloaded for the same platform |
| Cli.InvalidChoiceThenYouTube | yt2mp3.py:81-83 | "9", "1", "exit": one invalid-choice notice, then YouTube is chosen, then the end |

## Left out

- The yt-dlp call and its options dictionary (yt2mp3.py:30-48) belong to an external library. A download is the event `Download(platform, url)`. A failed call is the `Failure` given to `FailureHints.HintFor`.
- The `Download` event also records the platform bound at the prompt; `download_mp3` itself receives only the URL.
- Exceptions that are not an `Exception`, such as `KeyboardInterrupt` (Ctrl-C) or `SystemExit`, are not caught by `download_mp3` (yt2mp3.py:66 catches `Exception` only). Raised during a download, they leave `download_mp3` and end `main`. The model has no failure kind for them.
- What `download_mp3` reports does not feed back into the loop. The loop only records that a download was called, and with which string.
- `os.makedirs` and the `BASE_DIR`, `OUTPUT_DIR` and ffmpeg paths (yt2mp3.py:7-8, 28, 32-33) are filesystem plumbing.
- Console I/O is not modelled as text. `input()` is the sequence of lines, and each notice the loop prints in answer to a line is an event. The menu banner (yt2mp3.py:71-74) and the input prompts (yt2mp3.py:75, 86) are not modelled. `Chose` is not a notice: a valid menu choice prints nothing and leads straight to the URL prompt (yt2mp3.py:81-86), so `Chose` records that transition, not any output.
- Interrupting with Ctrl-C (KeyboardInterrupt) cannot be expressed over a sequence of lines.
- End of input raises an uncaught `EOFError`. It is modelled as the session ending `EndOfInput`.
- Text.IsWordChar: `\w` is ASCII letters, digits and `_` only. Python's `\w` also accepts Unicode letters and digits, so non-ASCII paths that Python accepts are rejected here.
- Text.Lower: the model maps only A-Z and KELVIN SIGN (to `k`), one character at a time, and leaves every other character unchanged. Python's `lower()` does more. It lower-cases many other characters. It turns U+0130 into two characters, `i` followed by U+0307. It lower-cases a capital sigma to `ς` or `σ` depending on its neighbours. None of this changes which comparisons succeed. The words compared after lower-casing ("exit", "back", "1", "2") and the hint phrases are ASCII. None of them contains U+0307 or ends in `i`. The `i` from U+0130 is always followed by U+0307, so it never completes a match. Outside A-Z, KELVIN SIGN is the only character that lower-cases to a single ASCII letter. The lower-cased text itself can differ from Python's.
- Text.IsSpace covers the characters that `str.isspace()` accepts. Python's Unicode tables are not encoded beyond that list.
- The regex engine is not modelled in general. `Match` recognises only the shape the two patterns share.
- Cli.BackThenDownload, Cli.RejectedUrlStays and Cli.InvalidChoiceThenYouTube are stated over readings: each line already stripped and lower-cased, with any validator. `Cli.ReadPlain` links a plain line to its reading, and `UrlPatterns.SoundCloudTrackAccepted` shows that the concrete track URL passes the SoundCloud validator.
- The dispatch on `choice == "1"` / `choice == "2"` before validation (yt2mp3.py:97-104) becomes the platform bound in `UrlEntry`. The validator is then `IsUrlFor(platform, url)`.
