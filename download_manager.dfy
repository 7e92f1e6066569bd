/**
 * The argument validators of plugins/downloadManager.js. Each handler looks only at its first
 * argument and answers with its error text, having done nothing else, when the check fails; what
 * follows a passed check is shell and file I/O.
 */
module DownloadManager {
  import opened Text
  import opened Transport

  const GitError: string := "[0xGIT_ERR] Invalid repository pattern. GitHub HTTPS required"
  const SpotifyError: string := "[0xSP_ERR] Invalid URI. Format: spotify:track:ID"
  const TikTokError: string := "[0xTT_ERR] Invalid domain. TikTok URL required"

  const GitHubPrefix: string := "https://github.com/"
  const SpotifyTag: string := "spotify:track:"

  /** The outcome of a validator: the single error reply, or the go-ahead with the argument. */
  datatype Validation = Rejected(reply: Effect) | Proceeds(arg: string)

  /** `const [x] = args`. */
  function FirstArg(args: seq<string>): Option<string> {
    if |args| == 0 then None else Some(args[0])
  }

  /** `/^https:\/\/github\.com\/.+\/.+/` after the prefix: a slash with at least one `.` character on each side. */
  predicate OwnerAndRepo(r: string) {
    exists k | 0 < k && k + 1 < |r| :: RepoSlashAt(r, k)
  }

  /** The slash at `k` splits `r` as the pattern needs: no line terminator before it, and one right after it. */
  predicate RepoSlashAt(r: string, k: int)
    requires 0 < k && k + 1 < |r|
  {
    r[k] == '/' && (forall t :: 0 <= t < k ==> !IsLineTerminator(r[t])) && !IsLineTerminator(r[k + 1])
  }

  predicate IsGitHubUrl(s: string) {
    |GitHubPrefix| <= |s| && s[..|GitHubPrefix|] == GitHubPrefix && OwnerAndRepo(s[|GitHubPrefix|..])
  }

  /** `/spotify:track:\w+/`, anywhere in the string. */
  predicate IsSpotifyTrack(s: string) {
    exists i | 0 <= i && i + |SpotifyTag| < |s| :: OccursAt(s, SpotifyTag, i) && IsWordChar(s[i + |SpotifyTag|])
  }

  function ValidateGitClone(chat: string, args: seq<string>): (v: Validation)
    ensures v.Proceeds? <==> |args| > 0 && IsGitHubUrl(args[0])
    ensures v.Proceeds? ==> v.arg == args[0]
    ensures v.Rejected? ==> v.reply == Send(chat, GitError)
  {
    var url := FirstArg(args);
    if url.Some? && IsGitHubUrl(url.value) then Proceeds(url.value) else Rejected(Send(chat, GitError))
  }

  function ValidateSpotify(chat: string, args: seq<string>): (v: Validation)
    ensures v.Proceeds? <==> |args| > 0 && IsSpotifyTrack(args[0])
    ensures v.Proceeds? ==> v.arg == args[0]
    ensures v.Rejected? ==> v.reply == Send(chat, SpotifyError)
  {
    var track := FirstArg(args);
    if track.Some? && IsSpotifyTrack(track.value) then Proceeds(track.value) else Rejected(Send(chat, SpotifyError))
  }

  function ValidateTikTok(chat: string, args: seq<string>): (v: Validation)
    ensures v.Proceeds? <==> |args| > 0 && Contains(args[0], "tiktok.com")
    ensures v.Proceeds? ==> v.arg == args[0]
    ensures v.Rejected? ==> v.reply == Send(chat, TikTokError)
  {
    var url := FirstArg(args);
    if url.Some? && Contains(url.value, "tiktok.com") then Proceeds(url.value) else Rejected(Send(chat, TikTokError))
  }

  /** A missing argument fails all three checks. */
  lemma MissingArgumentRejected(chat: string)
    ensures ValidateGitClone(chat, []).Rejected? && ValidateSpotify(chat, []).Rejected? && ValidateTikTok(chat, []).Rejected?
  {
  }

  /** Only the first argument is examined. */
  lemma OnlyFirstArgument(chat: string, a: seq<string>, b: seq<string>)
    requires |a| > 0 && |b| > 0 && a[0] == b[0]
    ensures ValidateGitClone(chat, a) == ValidateGitClone(chat, b)
    ensures ValidateSpotify(chat, a) == ValidateSpotify(chat, b)
    ensures ValidateTikTok(chat, a) == ValidateTikTok(chat, b)
  {
  }

  /** A repository URL is accepted, and the same URL over plain http is not. */
  lemma GitHubExamples()
    ensures IsGitHubUrl("https://github.com/a/b")
    ensures !IsGitHubUrl("http://github.com/a/b")
  {
    var s := "https://github.com/a/b";
    assert s[..|GitHubPrefix|] == GitHubPrefix;
    assert s[|GitHubPrefix|..] == "a/b";
    assert RepoSlashAt("a/b", 1);
    var h := "http://github.com/a/b";
    assert h[4] != GitHubPrefix[4];
  }

  /** The Spotify check is unanchored: a track URI inside a longer string passes. */
  lemma SpotifyUnanchored()
    ensures IsSpotifyTrack("open spotify:track:4u")
    ensures !IsSpotifyTrack("spotify:track:")
  {
    var s := "open spotify:track:4u";
    assert s[5..19] == SpotifyTag;
    assert OccursAt(s, SpotifyTag, 5);
  }
}
