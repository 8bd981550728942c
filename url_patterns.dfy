/**
 * YOUTUBE_URL_PATTERN and SOUNDCLOUD_URL_PATTERN with the validators built on
 * them.  Both patterns have the shape
 *
 *   ^(https?://)?(www\.)?(HOST)/[\w\-\?=&#/]+$
 *
 * and are applied with `re.match`, so the match is anchored at the start; `$`
 * matches at the end of the string or just before a single final newline.
 * `Match` is a hand-written recognizer for that shape which also returns how
 * the string decomposes; `Render` is the decomposition read back as a string.
 */
module UrlPatterns {
  import opened Wrappers
  import opened Text

  datatype Platform = YouTube | SoundCloud

  /** The alternatives of `(https?://)?`. */
  datatype Scheme = NoScheme | Http | Https

  /** The host alternatives of both patterns. */
  datatype Host = YouTubeCom | YoutuBe | SoundCloudCom

  /** Which optional prefixes a string has, and which host follows them. */
  datatype Prefix = Prefix(scheme: Scheme, www: bool, host: Host)

  /**
   * One way of reading a string against a pattern: its prefix, the path after
   * the host's slash, and whether the string ends with the one newline that
   * `$` lets through.
   */
  datatype UrlParts = UrlParts(prefix: Prefix, path: string, newline: bool)

  function SchemeText(s: Scheme): string {
    match s
    case NoScheme => ""
    case Http => "http://"
    case Https => "https://"
  }

  function WwwText(www: bool): string {
    if www then "www." else ""
  }

  function HostText(h: Host): string {
    match h
    case YouTubeCom => "youtube.com"
    case YoutuBe => "youtu.be"
    case SoundCloudCom => "soundcloud.com"
  }

  function NewlineText(newline: bool): string {
    if newline then "\n" else ""
  }

  /** The hosts that a platform's pattern names. */
  predicate ServedBy(p: Platform, h: Host) {
    match p
    case YouTube => h == YouTubeCom || h == YoutuBe
    case SoundCloud => h == SoundCloudCom
  }

  /** A character of the class `[\w\-\?=&#/]`. */
  predicate IsPathChar(c: char) {
    IsWordChar(c) || c == '-' || c == '?' || c == '=' || c == '&' || c == '#' || c == '/'
  }

  /** A string that `[\w\-\?=&#/]+` matches whole. */
  predicate IsPath(path: string) {
    |path| > 0 && forall k :: 0 <= k < |path| ==> IsPathChar(path[k])
  }

  /** `(https?://)?(www\.)?(HOST)/` as the prefix spells it. */
  function HeadText(pre: Prefix): string {
    SchemeText(pre.scheme) + (WwwText(pre.www) + (HostText(pre.host) + "/"))
  }

  /** The string that a reading describes: prefix + host + "/" + path. */
  function Render(u: UrlParts): string {
    HeadText(u.prefix) + (u.path + NewlineText(u.newline))
  }

  /** `s` is prefix + host + "/" + path, as the platform's pattern describes. */
  ghost predicate Shaped(p: Platform, s: string) {
    exists u: UrlParts :: ServedBy(p, u.prefix.host) && IsPath(u.path) && Render(u) == s
  }

  /** A prefix and what follows it make up the whole. */
  lemma PrefixRest(a: string, s: string)
    requires a <= s
    ensures s == a + s[|a|..]
  {
  }

  /** Two prefixes read one after the other make one prefix. */
  lemma PrefixChain(a: string, b: string, s: string)
    requires a <= s && b <= s[|a|..]
    ensures a + b <= s
  {
    assert (a + b)[..|a|] == a;
  }

  lemma Assoc(a: string, b: string, c: string)
    ensures (a + b) + c == a + (b + c)
  {
  }

  /** The alternative of `(https?://)?` that `body` starts with. */
  function SchemeAt(body: string): (r: Scheme)
    ensures SchemeText(r) <= body
  {
    if "https://" <= body then Https else if "http://" <= body then Http else NoScheme
  }

  /** Whether `s` starts with `www.`. */
  function WwwAt(s: string): (r: bool)
    ensures WwwText(r) <= s
  {
    "www." <= s
  }

  /** The host alternative of platform `p` that `s` starts with, followed by its slash. */
  function HostAt(p: Platform, s: string): (r: Option<Host>)
    ensures r.Some? ==> ServedBy(p, r.value) && HostText(r.value) + "/" <= s
  {
    match p
    case YouTube =>
      if "youtube.com/" <= s then Some(YouTubeCom)
      else if "youtu.be/" <= s then Some(YoutuBe)
      else None
    case SoundCloud =>
      if "soundcloud.com/" <= s then Some(SoundCloudCom) else None
  }

  /** Reads `(https?://)?(www\.)?(HOST)/` off the front of `body`. */
  function ReadPrefix(p: Platform, body: string): (r: Option<Prefix>)
    ensures r.Some? ==> ServedBy(p, r.value.host) && HeadText(r.value) <= body
  {
    var scheme := SchemeAt(body);
    var afterScheme := body[|SchemeText(scheme)|..];
    var www := WwwAt(afterScheme);
    var afterWww := afterScheme[|WwwText(www)|..];
    match HostAt(p, afterWww)
    case None => None
    case Some(h) =>
      PrefixChain(WwwText(www), HostText(h) + "/", afterScheme);
      PrefixChain(SchemeText(scheme), WwwText(www) + (HostText(h) + "/"), body);
      Some(Prefix(scheme, www, h))
  }

  /** Whether `s` ends with the newline that `$` may match before. */
  function EndsInNewline(s: string): bool {
    |s| > 0 && s[|s| - 1] == '\n'
  }

  /** `s` without that final newline. */
  function BeforeNewline(s: string): (r: string)
    ensures s == r + NewlineText(EndsInNewline(s))
  {
    if EndsInNewline(s) then s[..|s| - 1] else s
  }

  /** A reading that covers `body`, with the final newline put back. */
  lemma RenderOfBody(pre: Prefix, body: string, newline: bool)
    requires HeadText(pre) <= body
    ensures Render(UrlParts(pre, body[|HeadText(pre)|..], newline)) == body + NewlineText(newline)
  {
    PrefixRest(HeadText(pre), body);
    Assoc(HeadText(pre), body[|HeadText(pre)|..], NewlineText(newline));
  }

  /**
   * `PATTERN.match(s)` for the platform's pattern: the reading of `s` if it
   * matches, None otherwise.
   */
  function Match(p: Platform, s: string): (r: Option<UrlParts>)
    ensures r.Some? ==> ServedBy(p, r.value.prefix.host) && IsPath(r.value.path) && Render(r.value) == s
  {
    var body := BeforeNewline(s);
    match ReadPrefix(p, body)
    case None => None
    case Some(pre) =>
      var path := body[|HeadText(pre)|..];
      if IsPath(path) then
        RenderOfBody(pre, body, EndsInNewline(s));
        Some(UrlParts(pre, path, EndsInNewline(s)))
      else None
  }

  /** `is_youtube_url`. */
  predicate IsYouTubeUrl(s: string) {
    Match(YouTube, s).Some?
  }

  /** `is_soundcloud_url`. */
  predicate IsSoundCloudUrl(s: string) {
    Match(SoundCloud, s).Some?
  }

  /** The validator the interactive loop applies for platform `p`. */
  predicate IsUrlFor(p: Platform, s: string) {
    match p
    case YouTube => IsYouTubeUrl(s)
    case SoundCloud => IsSoundCloudUrl(s)
  }

  /** No scheme is read where the rest starts with neither `h` nor nothing. */
  lemma SchemeAtRender(sc: Scheme, rest: string)
    requires rest != [] && rest[0] != 'h'
    ensures SchemeAt(SchemeText(sc) + rest) == sc
  {
    var body := SchemeText(sc) + rest;
    match sc
    case Https =>
    case Http =>
      assert body[4] == ':';
    case NoScheme =>
      assert body[0] == rest[0];
  }

  lemma WwwAtRender(www: bool, rest: string)
    requires rest != [] && rest[0] != 'w'
    ensures WwwAt(WwwText(www) + rest) == www
  {
    if !www {
      assert (WwwText(www) + rest)[0] == rest[0];
    }
  }

  lemma HostAtRender(p: Platform, h: Host, rest: string)
    requires ServedBy(p, h)
    ensures HostAt(p, (HostText(h) + "/") + rest) == Some(h)
  {
    var s := (HostText(h) + "/") + rest;
    if h == YoutuBe {
      assert s[5] == '.';
    }
  }

  /** The prefix is read back exactly, whatever follows it. */
  lemma ReadPrefixOf(p: Platform, pre: Prefix, rest: string)
    requires ServedBy(p, pre.host)
    ensures ReadPrefix(p, HeadText(pre) + rest) == Some(pre)
  {
    var hostPart := HostText(pre.host) + "/";
    var afterWww := hostPart + rest;
    var afterScheme := WwwText(pre.www) + afterWww;
    var body := HeadText(pre) + rest;
    Assoc(WwwText(pre.www), hostPart, rest);
    Assoc(SchemeText(pre.scheme), WwwText(pre.www) + hostPart, rest);
    assert body == SchemeText(pre.scheme) + afterScheme;
    assert afterWww[0] == HostText(pre.host)[0];
    assert afterScheme[0] != 'h' by {
      if pre.www { assert afterScheme[0] == 'w'; } else { assert afterScheme[0] == afterWww[0]; }
    }
    SchemeAtRender(pre.scheme, afterScheme);
    assert body[|SchemeText(pre.scheme)|..] == afterScheme;
    WwwAtRender(pre.www, afterWww);
    assert afterScheme[|WwwText(pre.www)|..] == afterWww;
    HostAtRender(p, pre.host, rest);
  }

  /** The slash that ends every prefix. */
  lemma HeadEndsWithSlash(pre: Prefix)
    ensures |HeadText(pre)| > 0 && HeadText(pre)[|HeadText(pre)| - 1] == '/'
  {
  }

  /**
   * The reading of `u` that the recognizer settles on: a path that ends in a
   * newline gives that newline up to `$`.
   */
  function Canonical(u: UrlParts): UrlParts {
    if !u.newline && |u.path| > 0 && u.path[|u.path| - 1] == '\n' then
      u.(path := u.path[..|u.path| - 1], newline := true)
    else u
  }

  /** A reading with no newline left at the end of its path. */
  predicate IsCanonical(u: UrlParts) {
    u.newline || u.path == [] || u.path[|u.path| - 1] != '\n'
  }

  lemma CanonicalRender(u: UrlParts)
    ensures IsCanonical(Canonical(u)) && Render(Canonical(u)) == Render(u)
  {
    var c := Canonical(u);
    if c != u {
      assert u.path == c.path + "\n";
    }
  }

  /** After a text ending in `/`, only a newline put there ends the string in one. */
  lemma NewlineAfterSlash(head: string, path: string, newline: bool)
    requires |head| > 0 && head[|head| - 1] == '/'
    requires newline || path == [] || path[|path| - 1] != '\n'
    ensures EndsInNewline(head + (path + NewlineText(newline))) == newline
    ensures BeforeNewline(head + (path + NewlineText(newline))) == head + path
  {
    var s := head + (path + NewlineText(newline));
    Assoc(head, path, NewlineText(newline));
    if !newline {
      assert s == head + path;
      if path == [] {
        assert s[|s| - 1] == head[|head| - 1];
      } else {
        assert s[|s| - 1] == path[|path| - 1];
      }
    }
  }

  /** In a canonical reading, the final newline is the one `$` matches before. */
  lemma NewlineOfRender(c: UrlParts)
    requires IsCanonical(c)
    ensures EndsInNewline(Render(c)) == c.newline
    ensures BeforeNewline(Render(c)) == HeadText(c.prefix) + c.path
  {
    HeadEndsWithSlash(c.prefix);
    NewlineAfterSlash(HeadText(c.prefix), c.path, c.newline);
  }

  /** A canonical reading is read back by the recognizer, path check included. */
  lemma MatchCanonical(p: Platform, c: UrlParts)
    requires ServedBy(p, c.prefix.host) && IsCanonical(c)
    ensures Match(p, Render(c)) == if IsPath(c.path) then Some(c) else None
  {
    NewlineOfRender(c);
    var body := HeadText(c.prefix) + c.path;
    ReadPrefixOf(p, c.prefix, c.path);
    assert body[|HeadText(c.prefix)|..] == c.path;
  }

  /**
   * What the recognizer makes of any rendered string: the canonical reading
   * of it when that reading's path is well formed, and no match otherwise.
   */
  lemma MatchRender(p: Platform, u: UrlParts)
    requires ServedBy(p, u.prefix.host)
    ensures Match(p, Render(u)) == if IsPath(Canonical(u).path) then Some(Canonical(u)) else None
  {
    CanonicalRender(u);
    MatchCanonical(p, Canonical(u));
  }

  /** `is_youtube_url(s)` holds exactly for YouTube-shaped strings. */
  lemma YouTubeUrlShape(s: string)
    ensures IsYouTubeUrl(s) <==> Shaped(YouTube, s)
  {
    ShapeMatches(YouTube, s);
  }

  /** `is_soundcloud_url(s)` holds exactly for SoundCloud-shaped strings. */
  lemma SoundCloudUrlShape(s: string)
    ensures IsSoundCloudUrl(s) <==> Shaped(SoundCloud, s)
  {
    ShapeMatches(SoundCloud, s);
  }

  lemma ShapeMatches(p: Platform, s: string)
    ensures Match(p, s).Some? <==> Shaped(p, s)
  {
    if Match(p, s).Some? {
      MatchIsShaped(p, s);
    }
    if Shaped(p, s) {
      var u: UrlParts :| ServedBy(p, u.prefix.host) && IsPath(u.path) && Render(u) == s;
      ShapedIsMatched(p, u);
    }
  }

  lemma MatchIsShaped(p: Platform, s: string)
    requires Match(p, s).Some?
    ensures Shaped(p, s)
  {
    var u := Match(p, s).value;
    assert ServedBy(p, u.prefix.host) && IsPath(u.path) && Render(u) == s;
  }

  lemma ShapedIsMatched(p: Platform, u: UrlParts)
    requires ServedBy(p, u.prefix.host) && IsPath(u.path)
    ensures Match(p, Render(u)) == Some(u)
  {
    assert IsPathChar(u.path[|u.path| - 1]);
    MatchCanonical(p, u);
  }

  /** A host alternative is recognised by its first letter. */
  lemma HostAtFirst(p: Platform, s: string)
    requires HostAt(p, s).Some?
    ensures s[0] == (if p == YouTube then 'y' else 's')
  {
    assert HostText(HostAt(p, s).value)[0] == s[0];
  }

  /** No string passes both validators. */
  lemma ValidatorsDisjoint(s: string)
    ensures !(IsYouTubeUrl(s) && IsSoundCloudUrl(s))
  {
    if IsYouTubeUrl(s) && IsSoundCloudUrl(s) {
      var newline := |s| > 0 && s[|s| - 1] == '\n';
      var body := if newline then s[..|s| - 1] else s;
      assert ReadPrefix(YouTube, body).Some? && ReadPrefix(SoundCloud, body).Some?;
      var scheme := SchemeAt(body);
      var afterScheme := body[|SchemeText(scheme)|..];
      var www := WwwAt(afterScheme);
      var afterWww := afterScheme[|WwwText(www)|..];
      HostAtFirst(YouTube, afterWww);
      HostAtFirst(SoundCloud, afterWww);
    }
  }

  /** A path after the host's slash that is empty is rejected. */
  lemma EmptyPathRejected(p: Platform, u: UrlParts)
    requires ServedBy(p, u.prefix.host) && u.path == []
    ensures Match(p, Render(u)) == None
  {
    MatchRender(p, u);
  }

  /** A space, a dot or a percent sign after the host's slash is rejected. */
  lemma ForeignPathCharRejected(p: Platform, u: UrlParts, k: int)
    requires ServedBy(p, u.prefix.host) && 0 <= k < |u.path|
    requires u.path[k] == ' ' || u.path[k] == '.' || u.path[k] == '%'
    ensures Match(p, Render(u)) == None
  {
    var c := Canonical(u);
    assert !IsPathChar(u.path[k]);
    if c != u {
      assert u.path[|u.path| - 1] == '\n';
      assert k < |c.path|;
    }
    assert c.path[k] == u.path[k];
    assert !IsPath(c.path);
    MatchRender(p, u);
  }

  /**
   * The `$` quirk: a matching string followed by one newline still matches,
   * with the same reading apart from the newline.
   */
  lemma TrailingNewlineAccepted(p: Platform, u: UrlParts)
    requires ServedBy(p, u.prefix.host) && IsPath(u.path) && !u.newline
    ensures Match(p, Render(u)) == Some(u)
    ensures Match(p, Render(u) + "\n") == Some(u.(newline := true))
  {
    var v := u.(newline := true);
    Assoc(HeadText(u.prefix), u.path, "\n");
    assert Render(v) == Render(u) + "\n";
    ShapedIsMatched(p, u);
    ShapedIsMatched(p, v);
  }

  /**
   * The newline that `$` lets through never reaches the validators from the
   * interactive loop: a stripped line does not end in whitespace.
   */
  lemma StrippedNeverEndsInNewline(p: Platform, line: string)
    ensures Match(p, Strip(line)).Some? ==> !Match(p, Strip(line)).value.newline
  {
    StripEndsNotSpace(line);
  }

  /** A prefix followed by a well-formed path, with no newline, is accepted as such. */
  lemma MatchOf(p: Platform, pre: Prefix, path: string)
    requires ServedBy(p, pre.host) && IsPath(path)
    ensures Match(p, HeadText(pre) + path) == Some(UrlParts(pre, path, false))
  {
    var u := UrlParts(pre, path, false);
    assert Render(u) == HeadText(pre) + path;
    ShapedIsMatched(p, u);
  }

  /** A prefix followed by an ill-formed path that does not end in a newline is rejected. */
  lemma NoMatchOf(p: Platform, pre: Prefix, path: string)
    requires ServedBy(p, pre.host) && !IsPath(path)
    requires path == [] || path[|path| - 1] != '\n'
    ensures Match(p, HeadText(pre) + path) == None
  {
    var u := UrlParts(pre, path, false);
    assert Render(u) == HeadText(pre) + path;
    MatchCanonical(p, u);
  }

  lemma ShortLinkAccepted()
    ensures IsYouTubeUrl("https://youtu.be/dQw4w9WgXcQ")
  {
    var id := "dQw4w9WgXcQ";
    assert forall k :: 0 <= k < |id| ==> IsWordChar(id[k]);
    var pre := Prefix(Https, false, YoutuBe);
    assert HeadText(pre) + id == "https://youtu.be/dQw4w9WgXcQ";
    MatchOf(YouTube, pre, id);
  }

  lemma NewlineBeforeEndAccepted()
    ensures IsYouTubeUrl("youtu.be/x\n")
  {
    var b := UrlParts(Prefix(NoScheme, false, YoutuBe), "x", true);
    assert Render(b) == "youtu.be/x\n";
    MatchCanonical(YouTube, b);
  }

  lemma SoundCloudTrackAccepted()
    ensures IsSoundCloudUrl("https://soundcloud.com/artist/track")
  {
    var path := "artist/track";
    assert forall k :: 0 <= k < |path| ==> IsPathChar(path[k]);
    var pre := Prefix(Https, false, SoundCloudCom);
    assert HeadText(pre) + path == "https://soundcloud.com/artist/track";
    MatchOf(SoundCloud, pre, path);
  }

  lemma OtherSiteRejected()
    ensures !IsYouTubeUrl("https://vimeo.com/123")
  {
    var vimeo := "https://vimeo.com/123";
    assert SchemeAt(vimeo) == Https;
    assert vimeo[8..][0] == 'v';
  }

  lemma BareHostRejected()
    ensures !IsYouTubeUrl("youtu.be/")
  {
    var pre := Prefix(NoScheme, false, YoutuBe);
    assert HeadText(pre) + "" == "youtu.be/";
    NoMatchOf(YouTube, pre, "");
  }

  lemma TrailingSpaceRejected()
    ensures !IsYouTubeUrl("youtu.be/x ")
  {
    var pre := Prefix(NoScheme, false, YoutuBe);
    assert HeadText(pre) + "x " == "youtu.be/x ";
    assert !IsPathChar("x "[1]);
    NoMatchOf(YouTube, pre, "x ");
  }
}
