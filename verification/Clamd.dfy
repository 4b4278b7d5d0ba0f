/**
 * The fail-closed ClamAV adapter (services/worker/netops_worker/clamav.py): the INSTREAM
 * frames it sends, the reply it reads in fragments, and the verdict it derives.
 */
module Clamd {
  import opened Base

  type Byte = b: int | 0 <= b < 256

  type Bytes = seq<Byte>

  datatype ScanResult = Clean | SizeLimitExceeded | MalwareDetected | Unavailable

  const CHUNK_SIZE: nat := 64 * 1024
  const MAX_RESPONSE_BYTES: nat := 4 * 1024

  /** `zINSTREAM` and a NUL. */
  const COMMAND: Bytes := [122, 73, 78, 83, 84, 82, 69, 65, 77, 0]

  // ---------------------------------------------------------------- frames

  /** `struct.pack("!I", n)`. */
  function PackLength(n: nat): (r: Bytes)
    requires n < 0x1_0000_0000
    ensures |r| == 4
  {
    [n / 0x100_0000, n / 0x1_0000 % 0x100, n / 0x100 % 0x100, n % 0x100]
  }

  function UnpackLength(b: Bytes): nat
    requires |b| == 4
  {
    (b[0] as int) * 0x100_0000 + (b[1] as int) * 0x1_0000 + (b[2] as int) * 0x100 + b[3]
  }

  lemma LengthRoundTrips(n: nat)
    requires n < 0x1_0000_0000
    ensures UnpackLength(PackLength(n)) == n
    ensures var b := PackLength(n);
            n == (((b[0] as int) * 256 + b[1]) * 256 + b[2]) * 256 + b[3]
  {
    var a, b, c := n / 0x100, n / 0x1_0000, n / 0x100_0000;
    assert b == a / 0x100 && c == b / 0x100;
  }

  /** What one read of the file returns before its end. */
  predicate IsChunk(chunk: Bytes) {
    1 <= |chunk| <= CHUNK_SIZE
  }

  predicate AreChunks(chunks: seq<Bytes>) {
    forall i :: 0 <= i < |chunks| ==> IsChunk(chunks[i])
  }

  function Frame(chunk: Bytes): Bytes
    requires IsChunk(chunk)
  {
    PackLength(|chunk|) + chunk
  }

  function Frames(chunks: seq<Bytes>): Bytes
    requires AreChunks(chunks)
  {
    if chunks == [] then [] else Frames(chunks[..|chunks| - 1]) + Frame(chunks[|chunks| - 1])
  }

  /** What a daemon makes of the bytes after the command: frames up to a zero length. */
  datatype Decoded = Decoded(chunks: seq<Bytes>, terminated: bool) {
    function Prepend(chunk: Bytes): Decoded {
      Decoded([chunk] + chunks, terminated)
    }
  }

  function DecodeFrames(b: Bytes): Decoded
    decreases |b|
  {
    if |b| < 4 then Decoded([], false)
    else
      var n := UnpackLength(b[..4]);
      if n == 0 then Decoded([], true)
      else if |b| < 4 + n then Decoded([], false)
      else DecodeFrames(b[4 + n..]).Prepend(b[4..4 + n])
  }

  // ---------------------------------------------------------------- the reply

  function FirstNul(b: Bytes): (n: nat)
    ensures n <= |b| && (n < |b| ==> b[n] == 0) && forall i :: 0 <= i < n ==> b[i] != 0
  {
    if b == [] || b[0] == 0 then 0 else 1 + FirstNul(b[1..])
  }

  /** The bytes before a NUL, when the first 4096 bytes of the reply hold one. */
  function ReplyText(reply: Bytes): Option<Bytes> {
    var n := FirstNul(reply);
    if n < |reply| && n < MAX_RESPONSE_BYTES then Some(reply[..n]) else None
  }

  predicate IsWhitespace(b: Byte) {
    b == 32 || 9 <= b <= 13
  }

  function StripLeft(b: Bytes): Bytes {
    if b != [] && IsWhitespace(b[0]) then StripLeft(b[1..]) else b
  }

  function StripRight(b: Bytes): Bytes {
    if b != [] && IsWhitespace(b[|b| - 1]) then StripRight(b[..|b| - 1]) else b
  }

  predicate EndsWith(b: Bytes, suffix: Bytes) {
    |suffix| <= |b| && b[|b| - |suffix|..] == suffix
  }

  /** `: OK` and ` FOUND`. */
  const OK_SUFFIX: Bytes := [58, 32, 79, 75]
  const FOUND_SUFFIX: Bytes := [32, 70, 79, 85, 78, 68]

  /** `_parse_response`: only the two documented shapes are verdicts. */
  function ParseResponse(response: Bytes): ScanResult {
    var normalized := StripRight(StripLeft(response));
    if EndsWith(normalized, OK_SUFFIX) then Clean
    else if EndsWith(normalized, FOUND_SUFFIX) then MalwareDetected
    else Unavailable
  }

  // ---------------------------------------------------------------- what a reply says, on its bytes

  predicate AllWhitespace(b: Bytes) {
    forall i :: 0 <= i < |b| ==> b[i] == 32 || 9 <= b[i] <= 13
  }

  /** The text ends in `: OK`, white space apart. */
  ghost predicate SaysOk(text: Bytes) {
    exists x: Bytes, w: Bytes :: AllWhitespace(w) && text == x + [58, 32, 79, 75] + w
  }

  /** The text ends in ` FOUND` after some other word, white space apart. */
  ghost predicate SaysFound(text: Bytes) {
    exists x: Bytes, w: Bytes :: AllWhitespace(w) && !AllWhitespace(x) && text == x + [32, 70, 79, 85, 78, 68] + w
  }

  lemma {:induction false} StripLeftMeaning(b: Bytes)
    ensures var n := |b| - |StripLeft(b)|;
            && 0 <= n <= |b| && StripLeft(b) == b[n..] && AllWhitespace(b[..n])
            && (n < |b| ==> !IsWhitespace(b[n]))
  {
    if b != [] && IsWhitespace(b[0]) {
      StripLeftMeaning(b[1..]);
    }
  }

  lemma {:induction false} StripRightMeaning(b: Bytes)
    ensures var n := |StripRight(b)|;
            && n <= |b| && StripRight(b) == b[..n] && AllWhitespace(b[n..])
            && (n > 0 ==> !IsWhitespace(b[n - 1]))
  {
    if b != [] && IsWhitespace(b[|b| - 1]) {
      StripRightMeaning(b[..|b| - 1]);
      assert b[|StripRight(b)|..] == b[..|b| - 1][|StripRight(b)|..] + [b[|b| - 1]];
    }
  }

  /** The normalized text lies between p and q: white space outside, none at its ends. */
  predicate NormalizedAt(response: Bytes, p: nat, q: nat) {
    && p <= q <= |response|
    && (forall i :: 0 <= i < |response| && (i < p || i >= q) ==> IsWhitespace(response[i]))
    && (p < q ==> !IsWhitespace(response[p]) && !IsWhitespace(response[q - 1]))
  }

  lemma Normalized(response: Bytes) returns (p: nat, q: nat)
    ensures NormalizedAt(response, p, q) && StripRight(StripLeft(response)) == response[p..q]
  {
    var left := StripLeft(response);
    StripLeftMeaning(response);
    StripRightMeaning(left);
    p := |response| - |left|;
    q := p + |StripRight(left)|;
    forall i | 0 <= i < |response| && (i < p || i >= q)
      ensures IsWhitespace(response[i])
    {
      if i < p {
        assert response[i] == response[..p][i];
      } else {
        assert response[i] == left[|StripRight(left)|..][i - q];
      }
    }
  }

  lemma EndsWithAt(response: Bytes, p: nat, q: nat, suffix: Bytes)
    requires p <= q <= |response|
    ensures EndsWith(response[p..q], suffix) <==> |suffix| <= q - p && response[q - |suffix|..q] == suffix
  {
    var text := response[p..q];
    if |suffix| <= |text| {
      assert text[|text| - |suffix|..] == response[q - |suffix|..q];
    }
  }

  /** A suffix that ends in a visible byte ends where the normalized text ends. */
  lemma SuffixPosition(response: Bytes, p: nat, q: nat, x: Bytes, suffix: Bytes, w: Bytes)
    requires NormalizedAt(response, p, q)
    requires suffix != [] && !IsWhitespace(suffix[|suffix| - 1])
    requires response == x + suffix + w && AllWhitespace(w)
    ensures q == |x| + |suffix| && p < q && response[|x|..q] == suffix
  {
    var last := |x| + |suffix| - 1;
    assert response[last] == suffix[|suffix| - 1];
    assert p <= last < q;
    assert forall i :: last < i < |response| ==> response[i] == w[i - last - 1];
    assert response[|x|..|x| + |suffix|] == suffix;
  }

  lemma SuffixGiven(response: Bytes, p: nat, q: nat, suffix: Bytes)
    requires NormalizedAt(response, p, q) && |suffix| <= q - p && response[q - |suffix|..q] == suffix
    ensures AllWhitespace(response[q..])
    ensures response == response[..q - |suffix|] + suffix + response[q..]
  {
  }

  lemma OkIff(response: Bytes)
    ensures EndsWith(StripRight(StripLeft(response)), OK_SUFFIX) <==> SaysOk(response)
  {
    hide EndsWith, StripRight, StripLeft;
    var suffix: Bytes := [58, 32, 79, 75];
    var p, q := Normalized(response);
    EndsWithAt(response, p, q, suffix);
    if EndsWith(response[p..q], suffix) {
      SuffixGiven(response, p, q, suffix);
    }
    if SaysOk(response) {
      var x: Bytes, w: Bytes :| AllWhitespace(w) && response == x + suffix + w;
      SuffixPosition(response, p, q, x, suffix, w);
      assert response[|x|] == suffix[0];
    }
  }

  lemma FoundGiven(response: Bytes, p: nat, q: nat, suffix: Bytes)
    requires suffix == [32, 70, 79, 85, 78, 68] && NormalizedAt(response, p, q)
    requires |suffix| <= q - p && response[q - |suffix|..q] == suffix
    ensures SaysFound(response)
  {
    SuffixGiven(response, p, q, suffix);
    var x := response[..q - 6];
    assert response[q - 6..q][0] == response[q - 6];
    assert p < q - 6 && x[p] == response[p];
    assert !AllWhitespace(x);
  }

  lemma FoundIff(response: Bytes)
    ensures EndsWith(StripRight(StripLeft(response)), FOUND_SUFFIX) <==> SaysFound(response)
  {
    hide EndsWith, StripRight, StripLeft, SaysFound;
    var suffix: Bytes := [32, 70, 79, 85, 78, 68];
    var p, q := Normalized(response);
    EndsWithAt(response, p, q, suffix);
    if EndsWith(response[p..q], suffix) {
      FoundGiven(response, p, q, suffix);
    }
    if SaysFound(response) {
      FoundTaken(response, p, q, suffix);
    }
  }

  lemma FoundTaken(response: Bytes, p: nat, q: nat, suffix: Bytes)
    requires suffix == [32, 70, 79, 85, 78, 68] && NormalizedAt(response, p, q) && SaysFound(response)
    ensures |suffix| <= q - p && response[q - |suffix|..q] == suffix
  {
    var x: Bytes, w: Bytes :| AllWhitespace(w) && !AllWhitespace(x) && response == x + suffix + w;
    SuffixPosition(response, p, q, x, suffix, w);
    var i :| 0 <= i < |x| && !IsWhitespace(x[i]);
    assert response[i] == x[i];
  }

  lemma NotBoth(text: Bytes)
    requires EndsWith(text, OK_SUFFIX)
    ensures !EndsWith(text, FOUND_SUFFIX)
  {
    assert text[|text| - 4..][3] == text[|text| - 1];
    assert |text| >= 6 ==> text[|text| - 6..][5] == text[|text| - 1];
  }

  /** A response is clean, malware, or no verdict at all, by its last word alone. */
  lemma ResponseMeaning(response: Bytes)
    ensures ParseResponse(response) == Clean <==> SaysOk(response)
    ensures ParseResponse(response) == MalwareDetected <==> SaysFound(response)
    ensures ParseResponse(response) == Unavailable <==> !SaysOk(response) && !SaysFound(response)
  {
    hide SaysOk, SaysFound, EndsWith;
    OkIff(response);
    FoundIff(response);
    var text := StripRight(StripLeft(response));
    if EndsWith(text, OK_SUFFIX) {
      NotBoth(text);
    }
  }

  /** The bytes before the first NUL, which comes within the first 4096. */
  ghost predicate IsReplyText(reply: Bytes, text: Bytes) {
    && |text| < |reply| && |text| < 4096
    && reply[..|text|] == text && reply[|text|] == 0
    && forall i :: 0 <= i < |text| ==> text[i] != 0
  }

  ghost predicate RepliesOk(reply: Bytes) {
    exists text :: IsReplyText(reply, text) && SaysOk(text)
  }

  ghost predicate RepliesFound(reply: Bytes) {
    exists text :: IsReplyText(reply, text) && SaysFound(text)
  }

  lemma ReplyTextMeaning(reply: Bytes, text: Bytes)
    ensures ReplyText(reply) == Some(text) <==> IsReplyText(reply, text)
  {
    var n := FirstNul(reply);
    if IsReplyText(reply, text) {
      assert forall i :: 0 <= i < |text| ==> reply[i] == reply[..|text|][i];
      assert n == |text|;
    }
  }

  /** The verdict on a file and a reply, without any failure: what each of them means. */
  lemma VerdictMeaning(file: Bytes, maxScanBytes: int, reply: Bytes)
    ensures var verdict := Verdict(file, maxScanBytes, reply); var oversized := |file| > 0 && |file| > maxScanBytes;
            && (verdict == Some(SizeLimitExceeded) <==> oversized)
            && (verdict == Some(Clean) <==> !oversized && RepliesOk(reply))
            && (verdict == Some(MalwareDetected) <==> !oversized && RepliesFound(reply))
            && (verdict == None || verdict == Some(Unavailable)
                <==> !oversized && !RepliesOk(reply) && !RepliesFound(reply))
  {
    hide SaysOk, SaysFound, ParseResponse, ReplyText, IsReplyText;
    if ReplyText(reply).Some? {
      var text := ReplyText(reply).value;
      ReplyTextMeaning(reply, text);
      ResponseMeaning(text);
    }
    forall text | IsReplyText(reply, text)
      ensures ReplyText(reply) == Some(text)
    {
      ReplyTextMeaning(reply, text);
    }
  }

  predicate Oversized(file: Bytes, maxScanBytes: int) {
    file != [] && |file| > maxScanBytes
  }

  /** The verdict in terms of the file and the reply alone; None when the reply has no end. */
  function Verdict(file: Bytes, maxScanBytes: int, reply: Bytes): Option<ScanResult> {
    if Oversized(file, maxScanBytes) then Some(SizeLimitExceeded)
    else if ReplyText(reply).None? then None
    else Some(ParseResponse(ReplyText(reply).value))
  }

  // ---------------------------------------------------------------- the socket

  /**
   * A connection that accepts so many `sendall` calls before one fails part way, and that
   * delivers the daemon's reply in fragments of any sizes until it is closed.
   */
  class Connection {
    const reply: Bytes
    const fragmentSizes: nat -> nat
    const partialSend: nat
    var sendsLeft: nat
    var sent: Bytes
    var received: nat
    var receives: nat

    constructor (reply: Bytes, fragmentSizes: nat -> nat, sendsLeft: nat, partialSend: nat)
      ensures this.reply == reply && this.sendsLeft == sendsLeft && Fresh()
    {
      this.reply := reply;
      this.fragmentSizes := fragmentSizes;
      this.partialSend := partialSend;
      this.sendsLeft := sendsLeft;
      sent, received, receives := [], 0, 0;
    }

    predicate Fresh()
      reads this
    {
      sent == [] && received == 0
    }

    method SendAll(data: Bytes) returns (ok: bool)
      modifies this`sent, this`sendsLeft
      ensures ok == (old(sendsLeft) > 0)
      ensures ok ==> sent == old(sent) + data && sendsLeft == old(sendsLeft) - 1
      ensures !ok ==> old(sent) <= sent <= old(sent) + data && sendsLeft == 0
    {
      if sendsLeft == 0 {
        sent := sent + data[..Min(partialSend, |data|)];
        return false;
      }
      sent := sent + data;
      sendsLeft := sendsLeft - 1;
      return true;
    }

    method Recv(limit: nat) returns (fragment: Bytes)
      requires limit > 0 && received <= |reply|
      modifies this`received, this`receives
      ensures old(received) <= received <= |reply|
      ensures fragment == reply[old(received)..received] && |fragment| <= limit
      ensures fragment == [] <==> old(received) == |reply|
    {
      var size := Min(1 + fragmentSizes(receives), Min(limit, |reply| - received));
      fragment := reply[received..received + size];
      received := received + size;
      receives := receives + 1;
    }
  }

  /** `_read_response`: None stands for the OSError of a closed or overlong reply. */
  method ReadResponse(connection: Connection) returns (response: Option<Bytes>)
    requires connection.received == 0
    modifies connection`received, connection`receives
    ensures response == ReplyText(connection.reply)
  {
    var collected: Bytes := [];
    while |collected| < MAX_RESPONSE_BYTES
      invariant connection.received <= |connection.reply|
      invariant collected == connection.reply[..connection.received]
      invariant |collected| <= MAX_RESPONSE_BYTES
      invariant forall i :: 0 <= i < |collected| ==> collected[i] != 0
      decreases MAX_RESPONSE_BYTES - |collected|
    {
      var fragment := connection.Recv(Min(512, MAX_RESPONSE_BYTES - |collected|));
      if fragment == [] {
        NoNulInTime(connection.reply, |collected|);
        return None;
      }
      ghost var before := |collected|;
      collected := collected + fragment;
      if 0 in fragment {
        assert collected == connection.reply[..|collected|] && fragment == connection.reply[before..|collected|];
        FirstNulOfPrefix(connection.reply, |collected|, before);
        return Some(collected[..FirstNul(collected)]);
      }
      assert forall i :: 0 <= i < |fragment| ==> fragment[i] in fragment;
    }
    NoNulInTime(connection.reply, |collected|);
    return None;
  }

  lemma FirstNulOfPrefix(reply: Bytes, n: nat, from: nat)
    requires from <= n <= |reply| && n <= MAX_RESPONSE_BYTES
    requires 0 in reply[from..n]
    ensures FirstNul(reply) == FirstNul(reply[..n]) < n
    ensures ReplyText(reply) == Some(reply[..n][..FirstNul(reply[..n])])
  {
    var k :| 0 <= k < n - from && reply[from..n][k] == 0;
    assert reply[..n][from + k] == 0;
    var i, m := FirstNul(reply[..n]), FirstNul(reply);
    assert reply[i] == reply[..n][i];
    assert forall j :: 0 <= j < n ==> reply[j] == reply[..n][j];
    assert m == i;
    assert reply[..n][..i] == reply[..i];
  }

  lemma NoNulInTime(reply: Bytes, n: nat)
    requires n <= |reply| && (n == |reply| || n >= MAX_RESPONSE_BYTES)
    requires forall i :: 0 <= i < n ==> reply[i] != 0
    ensures ReplyText(reply) == None
  {
  }

  // ---------------------------------------------------------------- the scan

  /** The file as it is read: its chunks, and whether reading then fails. */
  datatype Source = Source(chunks: seq<Bytes>, fails: bool)

  /** Everything that a complete scan sends. */
  function Conversation(chunks: seq<Bytes>): Bytes
    requires AreChunks(chunks)
  {
    COMMAND + Frames(chunks) + PackLength(0)
  }

  /** What has been sent is part of a scan; of a file that is too large, no terminator is part. */
  ghost predicate SentPart(sent: Bytes, chunks: seq<Bytes>, maxScanBytes: int)
    requires AreChunks(chunks)
  {
    if Oversized(Concat(chunks), maxScanBytes) then sent <= COMMAND + Frames(chunks) else sent <= Conversation(chunks)
  }

  /** `_scan_stream`: None stands for the OSError of a failed read, send or receive. */
  method ScanStream(source: Source, connection: Connection, maxScanBytes: int) returns (r: Option<ScanResult>)
    requires AreChunks(source.chunks) && connection.Fresh()
    modifies connection
    ensures SentPart(connection.sent, source.chunks, maxScanBytes)
    ensures var file := Concat(source.chunks);
            if r.Some?
            then
              && r == Verdict(file, maxScanBytes, connection.reply)
              && (!Oversized(file, maxScanBytes) ==> !source.fails && connection.sent == Conversation(source.chunks))
            else
              || old(connection.sendsLeft) < 2 * |source.chunks| + 2
              || (source.fails && !Oversized(file, maxScanBytes))
              || Verdict(file, maxScanBytes, connection.reply).None?
  {
    hide Concat, Frames, ReplyText, ParseResponse, SentPart, Frame;
    var chunks := source.chunks;
    var scanned := 0;
    NothingSent(chunks, maxScanBytes);
    var ok := connection.SendAll(COMMAND);
    if !ok {
      SentEarly(chunks, 0, connection.sent, maxScanBytes);
      return None;
    }
    assert connection.sent == COMMAND + Frames(chunks[..0]);
    for i := 0 to |chunks|
      invariant scanned == |Concat(chunks[..i])| && (i > 0 ==> 0 < scanned <= maxScanBytes)
      invariant connection.sent == COMMAND + Frames(chunks[..i])
      invariant connection.sendsLeft == old(connection.sendsLeft) - 1 - 2 * i
      invariant connection.received == 0
    {
      var chunk := chunks[i];
      OneMoreChunk(chunks, i);
      scanned := scanned + |chunk|;
      if scanned > maxScanBytes {
        LargerThan(chunks, i + 1);
        SentEarly(chunks, i, connection.sent, maxScanBytes);
        return Some(SizeLimitExceeded);
      }
      ghost var before := connection.sent;
      ok := connection.SendAll(PackLength(|chunk|));
      if !ok {
        FramePart(before, chunk, connection.sent);
        SentEarly(chunks, i + 1, connection.sent, maxScanBytes);
        return None;
      }
      ok := connection.SendAll(chunk);
      assert before + PackLength(|chunk|) + chunk == before + Frame(chunk) by { FrameText(before, chunk); }
      if !ok {
        SentEarly(chunks, i + 1, connection.sent, maxScanBytes);
        return None;
      }
    }
    assert chunks[..|chunks|] == chunks;
    if source.fails {
      SentEarly(chunks, |chunks|, connection.sent, maxScanBytes);
      return None;
    }
    ok := connection.SendAll(PackLength(0));
    SentWhole(chunks, connection.sent, maxScanBytes);
    if !ok {
      return None;
    }
    var response := ReadResponse(connection);
    if response.None? {
      return None;
    }
    return Some(ParseResponse(response.value));
  }

  lemma NothingSent(chunks: seq<Bytes>, maxScanBytes: int)
    requires AreChunks(chunks)
    ensures chunks[..0] == [] && Concat<Byte>([]) == [] && Frames([]) == [] && COMMAND + [] == COMMAND
  {
  }

  lemma OneMoreChunk(chunks: seq<Bytes>, i: nat)
    requires AreChunks(chunks) && i < |chunks|
    ensures Concat(chunks[..i + 1]) == Concat(chunks[..i]) + chunks[i]
    ensures Frames(chunks[..i + 1]) == Frames(chunks[..i]) + Frame(chunks[i])
    ensures COMMAND + Frames(chunks[..i + 1]) == COMMAND + Frames(chunks[..i]) + Frame(chunks[i])
  {
    assert chunks[..i + 1][..i] == chunks[..i];
  }

  lemma {:induction false} PrefixOfAll(chunks: seq<Bytes>, i: nat)
    requires AreChunks(chunks) && i <= |chunks|
    ensures Frames(chunks[..i]) <= Frames(chunks) && Concat(chunks[..i]) <= Concat(chunks)
    decreases |chunks| - i
  {
    if i == |chunks| {
      assert chunks[..i] == chunks;
    } else {
      OneMoreChunk(chunks, i);
      PrefixOfAll(chunks, i + 1);
    }
  }

  lemma LargerThan(chunks: seq<Bytes>, i: nat)
    requires AreChunks(chunks) && i <= |chunks|
    ensures |Concat(chunks[..i])| <= |Concat(chunks)|
  {
    PrefixOfAll(chunks, i);
  }

  lemma SentEarly(chunks: seq<Bytes>, i: nat, sent: Bytes, maxScanBytes: int)
    requires AreChunks(chunks) && i <= |chunks| && sent <= COMMAND + Frames(chunks[..i])
    ensures SentPart(sent, chunks, maxScanBytes)
  {
    PrefixOfAll(chunks, i);
    assert COMMAND + Frames(chunks[..i]) <= COMMAND + Frames(chunks);
    assert sent <= COMMAND + Frames(chunks);
    assert sent <= Conversation(chunks);
  }

  lemma FramePart(before: Bytes, chunk: Bytes, sent: Bytes)
    requires IsChunk(chunk) && sent <= before + PackLength(|chunk|)
    ensures sent <= before + Frame(chunk)
  {
  }

  lemma FrameText(before: Bytes, chunk: Bytes)
    requires IsChunk(chunk)
    ensures before + PackLength(|chunk|) + chunk == before + Frame(chunk)
  {
  }

  lemma SentWhole(chunks: seq<Bytes>, sent: Bytes, maxScanBytes: int)
    requires AreChunks(chunks) && sent <= Conversation(chunks) && !Oversized(Concat(chunks), maxScanBytes)
    ensures SentPart(sent, chunks, maxScanBytes)
  {
  }

  /** `scan`: every failure becomes the one unavailable outcome. */
  method Scan(source: Source, connection: Connection?, maxScanBytes: int) returns (result: ScanResult)
    requires AreChunks(source.chunks) && (connection != null ==> connection.Fresh())
    modifies connection
    ensures result == Clean ==>
      && connection != null && !source.fails
      && !Oversized(Concat(source.chunks), maxScanBytes)
      && connection.sent == Conversation(source.chunks)
      && RepliesOk(connection.reply)
    ensures result == MalwareDetected ==> connection != null && RepliesFound(connection.reply)
    ensures result == SizeLimitExceeded ==> Oversized(Concat(source.chunks), maxScanBytes)
    ensures connection != null ==> SentPart(connection.sent, source.chunks, maxScanBytes)
    ensures connection != null && !source.fails && old(connection.sendsLeft) >= 2 * |source.chunks| + 2 ==>
      var oversized := Oversized(Concat(source.chunks), maxScanBytes);
      && (result == SizeLimitExceeded <==> oversized)
      && (result == Clean <==> !oversized && RepliesOk(connection.reply))
      && (result == MalwareDetected <==> !oversized && RepliesFound(connection.reply))
      && (result == Unavailable <==> !oversized && !RepliesOk(connection.reply) && !RepliesFound(connection.reply))
    ensures result == Unavailable
            || (connection != null && Some(result) == Verdict(Concat(source.chunks), maxScanBytes, connection.reply))
  {
    hide Concat, Verdict, RepliesOk, RepliesFound, SentPart, Conversation;
    if connection != null {
      VerdictMeaning(Concat(source.chunks), maxScanBytes, connection.reply);
    }
    if connection == null {
      return Unavailable;
    }
    var r := ScanStream(source, connection, maxScanBytes);
    return if r.Some? then r.value else Unavailable;
  }

  // ---------------------------------------------------------------- what the daemon receives

  lemma FrameDecodes(chunk: Bytes, rest: Bytes)
    requires IsChunk(chunk)
    ensures DecodeFrames(Frame(chunk) + rest) == DecodeFrames(rest).Prepend(chunk)
  {
    var b := Frame(chunk) + rest;
    assert b[..4] == PackLength(|chunk|);
    LengthRoundTrips(|chunk|);
    assert b[4..4 + |chunk|] == chunk;
    assert b[4 + |chunk|..] == rest;
  }

  lemma {:induction false} FramesFromFront(chunks: seq<Bytes>)
    requires AreChunks(chunks) && chunks != []
    ensures Frames(chunks) == Frame(chunks[0]) + Frames(chunks[1..])
    decreases |chunks|
  {
    hide Frame;
    var n := |chunks| - 1;
    if n > 0 {
      FramesFromFront(chunks[..n]);
      assert chunks[..n][1..] == chunks[1..][..n - 1];
      assert chunks[1..][n - 1] == chunks[n];
    } else {
      assert chunks[..0] == [] && chunks[1..] == [];
      assert Frames([]) == [];
    }
  }

  /** Decoding the frames recovers the chunks; only a zero length ends them. */
  lemma {:induction false} FramesDecode(chunks: seq<Bytes>, rest: Bytes)
    requires AreChunks(chunks)
    ensures DecodeFrames(Frames(chunks) + rest)
            == Decoded(chunks + DecodeFrames(rest).chunks, DecodeFrames(rest).terminated)
    decreases |chunks|
  {
    hide Frame, DecodeFrames, Frames;
    if chunks == [] {
      NoFrames(rest);
    } else {
      FramesFromFront(chunks);
      FramesDecode(chunks[1..], rest);
      FrameDecodes(chunks[0], Frames(chunks[1..]) + rest);
      assert Frames(chunks) + rest == Frame(chunks[0]) + (Frames(chunks[1..]) + rest);
      assert [chunks[0]] + (chunks[1..] + DecodeFrames(rest).chunks) == chunks + DecodeFrames(rest).chunks;
    }
  }

  lemma NoFrames(rest: Bytes)
    ensures Frames([]) + rest == rest
  {
  }

  /** `zINSTREAM` and a NUL, in ASCII. */
  lemma CommandText()
    ensures |COMMAND| == 10 && forall i :: 0 <= i < 9 ==> COMMAND[i] == "zINSTREAM"[i] as int
    ensures COMMAND[9] == 0 && CHUNK_SIZE == 65536 && MAX_RESPONSE_BYTES == 4096
  {
  }

  /** A complete scan: the daemon decodes exactly the file, and its end. */
  lemma ConversationDecodes(chunks: seq<Bytes>)
    requires AreChunks(chunks)
    ensures Conversation(chunks)[..|COMMAND|] == COMMAND
    ensures DecodeFrames(Conversation(chunks)[|COMMAND|..]) == Decoded(chunks, true)
  {
    hide Frames;
    FramesDecode(chunks, PackLength(0));
    assert Conversation(chunks)[|COMMAND|..] == Frames(chunks) + PackLength(0);
    TerminatorDecodes();
    assert chunks + [] == chunks;
  }

  lemma TerminatorDecodes()
    ensures DecodeFrames(PackLength(0)) == Decoded([], true)
  {
    LengthRoundTrips(0);
    assert PackLength(0)[..4] == PackLength(0);
  }

  /** Any part of the frames is never read as terminated. */
  lemma {:induction false} PartNeverTerminates(chunks: seq<Bytes>, part: Bytes)
    requires AreChunks(chunks) && part <= Frames(chunks)
    ensures !DecodeFrames(part).terminated
    decreases |chunks|
  {
    if chunks != [] && |part| >= 4 {
      var chunk := chunks[0];
      FramesFromFront(chunks);
      assert part[..4] == PackLength(|chunk|);
      LengthRoundTrips(|chunk|);
      if |part| >= 4 + |chunk| {
        assert part[4 + |chunk|..] <= Frames(chunks[1..]);
        PartNeverTerminates(chunks[1..], part[4 + |chunk|..]);
      }
    }
  }

  /** A file that is too large never gets a terminator, wherever the scan stops. */
  lemma OversizedNeverTerminated(chunks: seq<Bytes>, sent: Bytes, maxScanBytes: int)
    requires AreChunks(chunks) && SentPart(sent, chunks, maxScanBytes) && Oversized(Concat(chunks), maxScanBytes)
    requires |sent| >= |COMMAND|
    ensures sent[..|COMMAND|] == COMMAND && !DecodeFrames(sent[|COMMAND|..]).terminated
  {
    hide Frames;
    assert sent[|COMMAND|..] <= Frames(chunks);
    PartNeverTerminates(chunks, sent[|COMMAND|..]);
  }
}
