/** Signed URLs for files in the private `content-files` bucket, and the
    parser that recovers a bucket path from a stored value that is either a
    bucket path or a full storage URL. The URL parser, the percent-decoder
    and the signing call are foreign, so they are parameters: each returns
    `None` where the original throws or reports an error. */
module Storage {
  import opened Common
  import opened Text

  const FilesMarker: string := "/content-files/"
  const PublicMarker: string := "/object/public/content-files/"

  /** The characters the regular-expression `.` does not match. */
  predicate IsLineTerminator(c: char) {
    c == '\n' || c == '\r' || c == '\U{2028}' || c == '\U{2029}'
  }

  /** The pattern `marker(.+)$` matches `p` starting at position `i`: the
      marker is there and is followed by at least one character, none of
      them a line terminator, up to the end. */
  predicate MatchesAt(p: string, marker: string, i: nat) {
    && i + |marker| < |p|
    && p[i..i + |marker|] == marker
    && forall m :: i + |marker| <= m < |p| ==> !IsLineTerminator(p[m])
  }

  /** The leftmost position from `i` at which the pattern matches. */
  function FirstMatch(p: string, marker: string, i: nat): (r: Option<nat>)
    ensures r.Some? ==> i <= r.value && MatchesAt(p, marker, r.value)
    decreases |p| - i
  {
    if i >= |p| then None
    else if MatchesAt(p, marker, i) then Some(i)
    else FirstMatch(p, marker, i + 1)
  }

  lemma {:induction false} FirstMatchSpec(p: string, marker: string, i: nat)
    ensures FirstMatch(p, marker, i).Some? ==>
      var k := FirstMatch(p, marker, i).value;
      forall j :: i <= j < k ==> !MatchesAt(p, marker, j)
    ensures FirstMatch(p, marker, i).None? ==> forall j :: i <= j ==> !MatchesAt(p, marker, j)
    decreases |p| - i
  {
    if i < |p| && !MatchesAt(p, marker, i) {
      FirstMatchSpec(p, marker, i + 1);
    }
  }

  /** `p.match(/marker(.+)$/)?.[1]`: the rest of `p` after the leftmost
      marker at which the pattern matches. */
  function Capture(p: string, marker: string): Option<string> {
    match FirstMatch(p, marker, 0)
    case None => None
    case Some(k) => Some(p[k + |marker|..])
  }

  /** A capture is a non-empty tail of `p`, free of line terminators, right
      after an occurrence of the marker, and no match starts further
      left. */
  lemma CaptureSpec(p: string, marker: string)
    ensures Capture(p, marker).Some? ==>
      var r := Capture(p, marker).value;
      && |r| >= 1 && |marker| + |r| <= |p|
      && p[|p| - |r|..] == r && p[|p| - |r| - |marker|..|p| - |r|] == marker
      && (forall c :: c in r ==> !IsLineTerminator(c))
      && forall j :: 0 <= j < |p| - |r| - |marker| ==> !MatchesAt(p, marker, j)
    ensures Capture(p, marker).None? <==> forall j :: !MatchesAt(p, marker, j)
  {
    FirstMatchSpec(p, marker, 0);
    if FirstMatch(p, marker, 0).Some? {
      var k := FirstMatch(p, marker, 0).value;
      var r := p[k + |marker|..];
      forall c | c in r ensures !IsLineTerminator(c) {
        var m :| 0 <= m < |r| && r[m] == c;
        assert p[k + |marker| + m] == c;
      }
    }
  }

  /** A match of the public-URL pattern is also a match of the plain one,
      fourteen characters later. */
  lemma PublicMatchIsFilesMatch(p: string, k: nat)
    requires MatchesAt(p, PublicMarker, k)
    ensures MatchesAt(p, FilesMarker, k + 14)
  {
    assert PublicMarker[14..] == FilesMarker;
    assert p[k + 14..k + 14 + |FilesMarker|] == p[k..k + |PublicMarker|][14..];
  }

  /** Whenever the fallback pattern would match, the first pattern has
      already matched. */
  lemma FallbackNeverNeeded(p: string)
    ensures Capture(p, PublicMarker).Some? ==> Capture(p, FilesMarker).Some?
  {
    CaptureSpec(p, PublicMarker);
    CaptureSpec(p, FilesMarker);
    if Capture(p, PublicMarker).Some? {
      FirstMatchSpec(p, PublicMarker, 0);
      PublicMatchIsFilesMatch(p, FirstMatch(p, PublicMarker, 0).value);
    }
  }

  /** `extractPathFromUrl`; `pathname` stands for `new URL(s).pathname` and
      `decode` for `decodeURIComponent`. */
  function ExtractPath(s: string, pathname: string -> Option<string>, decode: string -> Option<string>): Option<string> {
    if s == "" then None
    else if !StartsWith(s, "http") then Some(s)
    else
      match pathname(s)
      case None => None
      case Some(path) =>
        match Capture(path, FilesMarker)
        case Some(rest) => decode(rest)
        case None =>
          match Capture(path, PublicMarker)
          case Some(rest) => decode(rest)
          case None => None
  }

  /** What extraction comes to: nothing for the empty string; a value not
      starting with "http" is already a bucket path; for a URL, the decoded
      text after the leftmost "/content-files/" that has something after
      it, and nothing when the URL does not parse, the segment is missing
      or the decoding fails. The public-URL fallback never decides the
      result. */
  lemma ExtractPathSpec(s: string, pathname: string -> Option<string>, decode: string -> Option<string>)
    ensures ExtractPath(s, pathname, decode) ==
      if s == "" then None
      else if !StartsWith(s, "http") then Some(s)
      else if pathname(s).None? then None
      else if Capture(pathname(s).value, FilesMarker).None? then None
      else decode(Capture(pathname(s).value, FilesMarker).value)
  {
    if s != "" && StartsWith(s, "http") && pathname(s).Some? {
      FallbackNeverNeeded(pathname(s).value);
    }
  }

  /** The bucket path `getSignedUrl` asks the storage to sign, or `None`
      when it returns null before calling it. */
  function SignRequest(path: Option<string>, pathname: string -> Option<string>, decode: string -> Option<string>): Option<string> {
    if !Truthy(path) then None
    else
      var bucketPath := ExtractPath(path.value, pathname, decode);
      if Truthy(bucketPath) then bucketPath else None
  }

  /** `getSignedUrl`; `sign` stands for `createSignedUrl`, `None` for an
      error or an exception, both of which give null. */
  function SignedUrl(path: Option<string>, pathname: string -> Option<string>, decode: string -> Option<string>,
                     sign: string -> Option<string>): Option<string> {
    match SignRequest(path, pathname, decode)
    case None => None
    case Some(b) => sign(b)
  }

  /** A null or empty path gives null without a storage call; a plain
      bucket path is signed as it is; a storage call is only made for a
      non-empty path. */
  lemma SignedUrlSpec(path: Option<string>, pathname: string -> Option<string>, decode: string -> Option<string>,
                      sign: string -> Option<string>)
    ensures !Truthy(path) ==> SignRequest(path, pathname, decode) == None && SignedUrl(path, pathname, decode, sign) == None
    ensures Truthy(path) && !StartsWith(path.value, "http") ==> SignRequest(path, pathname, decode) == path
    ensures SignRequest(path, pathname, decode).Some? ==>
      SignRequest(path, pathname, decode).value != ""
      && SignedUrl(path, pathname, decode, sign) == sign(SignRequest(path, pathname, decode).value)
  {
  }

  /** `getSignedUrls`: one result per path, in the same order. */
  function SignedUrls(paths: seq<Option<string>>, pathname: string -> Option<string>, decode: string -> Option<string>,
                      sign: string -> Option<string>): (r: seq<Option<string>>)
    ensures |r| == |paths|
    ensures forall i :: 0 <= i < |paths| ==> r[i] == SignedUrl(paths[i], pathname, decode, sign)
  {
    seq(|paths|, i requires 0 <= i < |paths| => SignedUrl(paths[i], pathname, decode, sign))
  }

  /** Each path is signed on its own: a null or empty path gives null in
      its place without a storage call, any URL returned is the storage's
      answer for that path's bucket path, and signing two lists one after
      the other gives the same results as signing them joined. */
  lemma SignedUrlsSpec(paths: seq<Option<string>>, more: seq<Option<string>>, pathname: string -> Option<string>,
                       decode: string -> Option<string>, sign: string -> Option<string>)
    ensures var r := SignedUrls(paths, pathname, decode, sign);
      forall i :: 0 <= i < |paths| ==>
        && (!Truthy(paths[i]) ==> r[i] == None)
        && (r[i].Some? ==>
              SignRequest(paths[i], pathname, decode).Some?
              && r[i] == sign(SignRequest(paths[i], pathname, decode).value))
    ensures SignedUrls(paths + more, pathname, decode, sign)
      == SignedUrls(paths, pathname, decode, sign) + SignedUrls(more, pathname, decode, sign)
  {
    var r := SignedUrls(paths, pathname, decode, sign);
    forall i | 0 <= i < |paths|
      ensures !Truthy(paths[i]) ==> r[i] == None
    {
      SignedUrlSpec(paths[i], pathname, decode, sign);
    }
    var all := SignedUrls(paths + more, pathname, decode, sign);
    var joined := r + SignedUrls(more, pathname, decode, sign);
    forall i | 0 <= i < |all| ensures all[i] == joined[i] {
      if i >= |paths| {
        assert (paths + more)[i] == more[i - |paths|];
      } else {
        assert (paths + more)[i] == paths[i];
      }
    }
  }
}
