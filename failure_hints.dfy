/**
 * The failure handling of `download_mp3`: every `Exception` the download
 * library raises is caught and turned into one line of advice for the user.
 * The download itself is not modelled; only the hint shown for each failure.
 */
module FailureHints {
  import opened Text

  /** What the try block can raise, as far as its three handlers tell apart. */
  datatype Failure =
    | DownloadErr(msg: string)  // the library's DownloadError, with str(e)
    | SocketTimeout             // socket.timeout
    | Other(msg: string)        // any other Exception, with str(e)

  /** The advice shown for a failure. */
  datatype Hint =
    | ConnectionTimedOut
    | ServerUnreachable
    | ConnectionTooSlow
    | DlpError(text: string)
    | UnstableSocket
    | UnknownError(text: string)

  /**
   * The if/elif chain of the DownloadError handler: the lower-cased text is
   * searched for fixed phrases, the first group that matches wins, and the
   * original text is shown when none does.  The contract states the
   * precedence against the occurrence of each phrase in the lower-cased text.
   */
  function DownloadErrorHint(msg: string): (h: Hint)
    ensures h == ConnectionTimedOut <==> Occurs("timed out", Lower(msg))
    ensures h == ServerUnreachable
        <==> !Occurs("timed out", Lower(msg))
             && (Occurs("could not connect", Lower(msg)) || Occurs("failed to resolve", Lower(msg)))
    ensures h == ConnectionTooSlow
        <==> !Occurs("timed out", Lower(msg))
             && !Occurs("could not connect", Lower(msg)) && !Occurs("failed to resolve", Lower(msg))
             && (Occurs("slow", Lower(msg)) || Occurs("connection reset", Lower(msg)))
    ensures h == DlpError(msg)
        <==> !Occurs("timed out", Lower(msg))
             && !Occurs("could not connect", Lower(msg)) && !Occurs("failed to resolve", Lower(msg))
             && !Occurs("slow", Lower(msg)) && !Occurs("connection reset", Lower(msg))
    ensures h.DlpError? ==> h == DlpError(msg)
  {
    var lowered := Lower(msg);
    if Contains(lowered, "timed out") then ConnectionTimedOut
    else if Contains(lowered, "could not connect") || Contains(lowered, "failed to resolve") then ServerUnreachable
    else if Contains(lowered, "slow") || Contains(lowered, "connection reset") then ConnectionTooSlow
    else DlpError(msg)
  }

  /** The three except clauses of `download_mp3`; the hint tells which one caught the failure. */
  function HintFor(f: Failure): (h: Hint)
    ensures h == UnstableSocket <==> f == SocketTimeout
    ensures h.UnknownError? <==> f.Other?
    ensures h.UnknownError? ==> h.text == f.msg
    ensures f.DownloadErr? <==> (h.ConnectionTimedOut? || h.ServerUnreachable? || h.ConnectionTooSlow? || h.DlpError?)
  {
    match f
    case DownloadErr(msg) => DownloadErrorHint(msg)
    case SocketTimeout => UnstableSocket
    case Other(msg) => UnknownError(msg)
  }

  /**
   * Letter case does not matter: two texts that lower-case alike get the same
   * hint, except that the fallback shows each text as it was.
   */
  lemma DownloadErrorIgnoresCase(m1: string, m2: string)
    requires Lower(m1) == Lower(m2)
    ensures DownloadErrorHint(m1).DlpError? == DownloadErrorHint(m2).DlpError?
    ensures !DownloadErrorHint(m1).DlpError? ==> DownloadErrorHint(m1) == DownloadErrorHint(m2)
  {
  }

  /** Lower-casing the text first changes nothing but the text of the fallback. */
  lemma DownloadErrorOfLowered(msg: string)
    ensures DownloadErrorHint(Lower(msg))
         == if DownloadErrorHint(msg).DlpError? then DlpError(Lower(msg)) else DownloadErrorHint(msg)
  {
    LowerIdempotent(msg);
  }

  /**
   * "Could not connect" in any letter case ("Could Not Connect", "COULD NOT
   * CONNECT", ...) means the server cannot be reached.
   */
  lemma CouldNotConnectInAnyCase(m: string)
    requires Lower(m) == "could not connect"
    ensures DownloadErrorHint(m) == ServerUnreachable
  {
    var lowered := Lower(m);
    assert OccursAt("could not connect", lowered, 0);
    AbsentCharBlocks("timed out", lowered, 'm');
  }
}
