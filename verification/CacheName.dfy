/** Names of cache archives and frames on the socket (api/util.go). Go strings are byte strings. */
module CacheName {
  import opened Bytes
  import opened Wrappers
  import opened Sequences
  import Base64

  const SLASH: byte := 47

  function WithoutSlash(path: seq<byte>): seq<byte> {
    if path != [] && path[0] == SLASH then path[1..] else path
  }

  function EncodeCacheName(workspace: seq<byte>, fullPath: seq<byte>): string {
    Base64.Encode(WithoutSlash(TrimmedLeft(fullPath, workspace)))
  }

  function DecodeCacheName(name: string): seq<byte> {
    match Base64.Decode(name)
    case Some(path) => path
    case None => []
  }

  /**
   For a path under the workspace, exactly when the name decodes to the path without the
   workspace and at most one leading slash: the workspace must not be empty (or nothing is left anyway).
   */
  lemma CacheNameRoundTrip(workspace: seq<byte>, fullPath: seq<byte>)
    requires workspace <= fullPath
    ensures DecodeCacheName(EncodeCacheName(workspace, fullPath)) == WithoutSlash(fullPath[|workspace|..])
      <==> workspace != [] || fullPath == [] || fullPath == [SLASH]
  {
    Base64.RoundTrip(WithoutSlash(TrimmedLeft(fullPath, workspace)));
    TrimLeftExact(fullPath, workspace);
    if workspace == [] {
      assert fullPath[|workspace|..] == fullPath;
    }
  }

  /** In so many words: of a path under the workspace what comes back is the rest, without one leading slash. */
  lemma CachePathReadBack(workspace: seq<byte>, rest: seq<byte>)
    requires workspace != []
    ensures DecodeCacheName(EncodeCacheName(workspace, workspace + [47] + rest)) == rest
    ensures rest == [] || rest[0] != 47 ==> DecodeCacheName(EncodeCacheName(workspace, workspace + rest)) == rest
  {
    var path := workspace + [47] + rest;
    assert workspace <= path && path[|workspace|..] == [47] + rest && ([47] + rest)[1..] == rest;
    CacheNameRoundTrip(workspace, path);
    assert workspace <= workspace + rest && (workspace + rest)[|workspace|..] == rest;
    CacheNameRoundTrip(workspace, workspace + rest);
  }

  /** A name that cannot be decoded reads as empty. */
  lemma BadNameIsEmpty(name: string)
    requires !Base64.WellFormed(Base64.WithoutLineBreaks(name))
    ensures DecodeCacheName(name) == []
  {
    Base64.DecodesExactly(name);
  }

  // ---------------------------------------------------------------- frames

  const LF: byte := 10

  function BuildMessage(event: seq<byte>, body: seq<byte>): seq<byte> {
    event + [LF] + body
  }

  /** A frame cut at its first line break. */
  function SplitFrame(frame: seq<byte>): Option<(seq<byte>, seq<byte>)> {
    var n := IndexOf(frame, LF);
    if n == |frame| then None else Some((frame[..n], frame[n + 1..]))
  }

  /** A frame determines its event and body exactly when the event has no line break in it. */
  lemma FrameDecodable(event: seq<byte>, body: seq<byte>)
    ensures SplitFrame(BuildMessage(event, body)) == Some((event, body)) <==> LF !in event
  {
    var frame := BuildMessage(event, body);
    if LF !in event {
      IndexOfFirst(event, LF, body);
      assert frame[..|event|] == event && frame[|event| + 1..] == body;
    } else {
      var n := IndexOf(frame, LF);
      assert LF !in frame[..n];
    }
  }

  function Ascii(s: string): seq<byte> {
    seq(|s|, i requires 0 <= i < |s| => if s[i] as int < 256 then s[i] as int else 0)
  }

  const CONNECT := Ascii("connect___")
  const PROFILE := Ascii("profile___")
  const CMD_OUT := Ascii("cmd_out___")
  const SHELL_LOG := Ascii("slog______")
  const TTY_LOG := Ascii("tlog______")

  predicate IsEvent(event: seq<byte>) {
    event in [CONNECT, PROFILE, CMD_OUT, SHELL_LOG, TTY_LOG]
  }

  /**
   Every event name is ten bytes long, so the body of every frame starts at byte eleven, and frames are
   unambiguous.
   */
  lemma EventFrames(e1: seq<byte>, b1: seq<byte>, e2: seq<byte>, b2: seq<byte>)
    requires IsEvent(e1) && IsEvent(e2)
    ensures |e1| == 10 && BuildMessage(e1, b1)[..10] == e1
    ensures BuildMessage(e1, b1)[10] == 10 && BuildMessage(e1, b1)[11..] == b1
    ensures BuildMessage(e1, b1) == BuildMessage(e2, b2) ==> e1 == e2 && b1 == b2
  {
    assert BuildMessage(e1, b1)[..10] == e1 && BuildMessage(e2, b2)[..10] == e2;
    assert BuildMessage(e1, b1)[11..] == b1 && BuildMessage(e2, b2)[11..] == b2;
  }

  /** The events, byte by byte; no two are the same. */
  lemma EventBytes()
    ensures CONNECT == [99, 111, 110, 110, 101, 99, 116, 95, 95, 95]
    ensures PROFILE == [112, 114, 111, 102, 105, 108, 101, 95, 95, 95]
    ensures CMD_OUT == [99, 109, 100, 95, 111, 117, 116, 95, 95, 95]
    ensures SHELL_LOG == [115, 108, 111, 103, 95, 95, 95, 95, 95, 95]
    ensures TTY_LOG == [116, 108, 111, 103, 95, 95, 95, 95, 95, 95]
    ensures CONNECT != PROFILE && PROFILE != CMD_OUT && CMD_OUT != CONNECT && SHELL_LOG != TTY_LOG
    ensures SHELL_LOG !in [CONNECT, PROFILE, CMD_OUT] && TTY_LOG !in [CONNECT, PROFILE, CMD_OUT]
  {
    assert CONNECT[1] != CMD_OUT[1];
    assert CONNECT[0] == CMD_OUT[0] == 99 && PROFILE[0] == 112 && SHELL_LOG[0] == 115 && TTY_LOG[0] == 116;
  }
}
