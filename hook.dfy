/** The webhook client: building a message, encoding it as a multipart/form-data
    body, and the POST and PATCH retry loops, against a scripted transport. */
module Hook {
  import opened Text

  /** How a call that the source would never abandon ends in the model: with a
      value, a local I/O error, a panic, or stalled because the scripted
      environment has no further answers while the source would keep retrying. */
  datatype Outcome<+T> = Done(value: T) | IoFailed | Panicked | Stalled

  /** The webhook endpoint, identified by its URL. */
  datatype Webhook = Webhook(url: string)

  /** A message: the id the service assigned once it was sent, an optional text
      content, and the attached files (name, bytes) in the order they were added. */
  datatype Message = Message(id: Option<nat>, content: Option<string>, files: seq<(string, seq<byte>)>)

  /** The message a builder starts from (`Default`). */
  const NewMessage: Message := Message(None, None, [])

  // ---------------------------------------------------------------------------
  // MessageBuilder

  /** `content`: set the text, replacing any earlier one. */
  function Content(m: Message, text: string): Message {
    m.(content := Some(text))
  }

  /** `content_maybe`: set the text, or clear it. */
  function ContentMaybe(m: Message, text: Option<string>): Message {
    m.(content := text)
  }

  /** `file`: attach one more file after those already attached. */
  function File(m: Message, name: string, bytes: seq<byte>): Message {
    m.(files := m.files + [(name, bytes)])
  }

  /** Attaching a list of files one after another. */
  function AttachAll(m: Message, files: seq<(string, seq<byte>)>): Message
    decreases |files|
  {
    if files == [] then m else AttachAll(File(m, files[0].0, files[0].1), files[1..])
  }

  /** The last `content` wins; `content_maybe` with a text is `content`, without one it clears. */
  lemma ContentOverwrites(m: Message, first: string, second: string, text: string)
    ensures Content(Content(m, first), second) == Content(m, second)
    ensures ContentMaybe(m, Some(text)) == Content(m, text)
    ensures ContentMaybe(Content(m, first), None).content == None
    ensures Content(m, text).files == m.files && Content(m, text).id == m.id
  {
  }

  /** Files keep their insertion order, after those already present, and nothing else changes. */
  lemma {:induction false} FilesKeepOrder(m: Message, files: seq<(string, seq<byte>)>)
    ensures AttachAll(m, files).files == m.files + files
    ensures AttachAll(m, files).content == m.content && AttachAll(m, files).id == m.id
    decreases |files|
  {
    if files != [] {
      FilesKeepOrder(File(m, files[0].0, files[0].1), files[1..]);
      assert m.files + [files[0]] + files[1..] == m.files + files;
    }
  }

  // ---------------------------------------------------------------------------
  // Parts

  // Long texts are written as short pieces: the verifier expands a string
  // literal character by character, and pays for that on every use.

  /** The `payload_json` part carrying the text content. */
  function PayloadPart(text: string): seq<byte> {
    Utf8("Content-Disposition: " + "form-data; " + "name=\"payload_json\"\r\n"
         + "Content-Type: " + "application/json\r\n" + "\r\n{\"content\":" + Quote(text) + "}")
  }

  /** The part for the `i`-th attached file: its header, then its raw bytes. */
  function FilePart(i: nat, name: string, bytes: seq<byte>): seq<byte> {
    Utf8("Content-Disposition: " + "form-data; " + "name=\"files[" + Decimal(i) + "]\"; filename=" + Quote(name)
         + "\r\nContent-Type: " + "application/octet-stream\r\n" + "\r\n") + bytes
  }

  function FileParts(files: seq<(string, seq<byte>)>): seq<seq<byte>> {
    seq(|files|, i requires 0 <= i < |files| => FilePart(i, files[i].0, files[i].1))
  }

  lemma FilePartsSnoc(head: seq<seq<byte>>, files: seq<(string, seq<byte>)>, i: nat)
    requires i < |files|
    ensures head + FileParts(files)[..i + 1] == head + FileParts(files)[..i] + [FilePart(i, files[i].0, files[i].1)]
  {
    assert FileParts(files)[..i + 1] == FileParts(files)[..i] + [FileParts(files)[i]];
    AppendAssoc(head, FileParts(files)[..i], [FileParts(files)[i]]);
  }

  /** The rendered parts of a message: the content part if there is content, then one part per file. */
  function Parts(m: Message): seq<seq<byte>> {
    (if m.content.Some? then [PayloadPart(m.content.value)] else []) + FileParts(m.files)
  }

  /** The content part comes first when there is content; the part of file
      `i` sits `i` places into the file parts at the end. */
  lemma PartsShape(m: Message)
    ensures |Parts(m)| == |m.files| + (if m.content.Some? then 1 else 0)
    ensures m.content.Some? ==> Parts(m)[0] == PayloadPart(m.content.value)
    ensures forall i :: 0 <= i < |m.files| ==>
              Parts(m)[|Parts(m)| - |m.files| + i] == FilePart(i, m.files[i].0, m.files[i].1)
  {
    var head: seq<seq<byte>> := if m.content.Some? then [PayloadPart(m.content.value)] else [];
    forall i | 0 <= i < |m.files|
      ensures Parts(m)[|Parts(m)| - |m.files| + i] == FilePart(i, m.files[i].0, m.files[i].1)
    {
      assert Parts(m)[|head| + i] == FileParts(m.files)[i];
    }
  }

  /** Renders the parts of a message one after another, as `send` fills `bodies`. */
  method RenderParts(m: Message) returns (bodies: seq<seq<byte>>)
    ensures bodies == Parts(m)
    ensures |bodies| == |m.files| + (if m.content.Some? then 1 else 0)
    ensures m.content.Some? ==> bodies[0] == PayloadPart(m.content.value)
    ensures forall i :: 0 <= i < |m.files| ==>
              bodies[|bodies| - |m.files| + i] == FilePart(i, m.files[i].0, m.files[i].1)
  {
    bodies := [];
    if m.content.Some? {
      bodies := bodies + [PayloadPart(m.content.value)];
    }
    ghost var head := bodies;
    for i := 0 to |m.files|
      invariant bodies == head + FileParts(m.files)[..i]
    {
      var header := Utf8("Content-Disposition: " + "form-data; " + "name=\"files[" + Decimal(i) + "]\"; filename="
                         + Quote(m.files[i].0) + "\r\nContent-Type: " + "application/octet-stream\r\n" + "\r\n");
      assert header + m.files[i].1 == FilePart(i, m.files[i].0, m.files[i].1);
      FilePartsSnoc(head, m.files, i);
      bodies := bodies + [header + m.files[i].1];
    }
    assert FileParts(m.files)[..|m.files|] == FileParts(m.files);
    PartsShape(m);
  }

  // ---------------------------------------------------------------------------
  // Boundary

  predicate IsAlphanumeric(c: char) {
    ('a' <= c <= 'z') || ('A' <= c <= 'Z') || ('0' <= c <= '9')
  }

  /** What the random generator draws: 32 ASCII letters and digits. */
  predicate IsBoundaryToken(b: string) {
    |b| == 32 && forall i :: 0 <= i < |b| ==> IsAlphanumeric(b[i])
  }

  /** The collision test: the boundary occurs inside some rendered part. */
  predicate Collides(parts: seq<seq<byte>>, b: string) {
    exists i :: 0 <= i < |parts| && Occurs(Utf8(b), parts[i])
  }

  /** The position of the first candidate that collides with no part, or the
      number of candidates when all of them collide. */
  function FirstFree(parts: seq<seq<byte>>, candidates: seq<string>): (k: nat)
    ensures k <= |candidates|
    ensures forall j :: 0 <= j < k ==> Collides(parts, candidates[j])
    ensures k < |candidates| ==> !Collides(parts, candidates[k])
    decreases |candidates|
  {
    if candidates == [] then 0
    else if !Collides(parts, candidates[0]) then 0
    else 1 + FirstFree(parts, candidates[1..])
  }

  // ---------------------------------------------------------------------------
  // Body layout

  const CRLF: seq<byte> := [13, 10]
  const DASHES: seq<byte> := [45, 45]

  /** `--B\r\n`, before the first part. */
  function Opening(b: string): seq<byte> {
    DASHES + Utf8(b) + CRLF
  }

  /** `\r\n--B`, what every delimiter after a part starts with. */
  function Delimiter(b: string): seq<byte> {
    CRLF + DASHES + Utf8(b)
  }

  /** `\r\n--B\r\n`, before every later part. */
  function Separator(b: string): seq<byte> {
    Delimiter(b) + CRLF
  }

  /** `\r\n--B--`, after the last part. */
  function Closing(b: string): seq<byte> {
    Delimiter(b) + DASHES
  }

  /** What comes after a part: a separator and the next part, ..., then the closing delimiter. */
  function Rest(parts: seq<seq<byte>>, b: string): seq<byte>
    decreases |parts|
  {
    if parts == [] then Closing(b) else Separator(b) + parts[0] + Rest(parts[1..], b)
  }

  /** The multipart body of one or more parts. */
  function Body(parts: seq<seq<byte>>, b: string): seq<byte>
    requires |parts| >= 1
  {
    Opening(b) + parts[0] + Rest(parts[1..], b)
  }

  /** The size `send` allocates for the body: (|B| + 6)(n + 1) + sum of part sizes - 2. */
  function PreallocatedLength(parts: seq<seq<byte>>, b: string): int {
    (|b| + 6) * (|parts| + 1) + SumLengths(parts) - 2
  }

  /** The delimiter written before part `i`. */
  function DelimiterBefore(i: nat, b: string): seq<byte> {
    if i == 0 then Opening(b) else Separator(b)
  }

  /** What the assembly loop has written after its first |parts| steps. */
  function Written(parts: seq<seq<byte>>, b: string): seq<byte>
    decreases |parts|
  {
    if parts == [] then []
    else Written(parts[..|parts| - 1], b) + DelimiterBefore(|parts| - 1, b) + parts[|parts| - 1]
  }

  /** The first `i` steps are the first `i - 1` and the delimiter and part of the last. */
  lemma WrittenSnoc(parts: seq<seq<byte>>, b: string, i: nat)
    requires 1 <= i <= |parts|
    ensures Written(parts[..i], b) == Written(parts[..i - 1], b) + DelimiterBefore(i - 1, b) + parts[i - 1]
  {
    var ps := parts[..i];
    assert ps[..|ps| - 1] == parts[..i - 1];
  }

  lemma WrittenFirst(parts: seq<seq<byte>>, b: string)
    requires 1 <= |parts|
    ensures Written(parts[..1], b) + Rest(parts[1..], b) == Body(parts, b)
  {
    assert parts[..1][..0] == [];
    AppendAssoc(Opening(b), parts[0], Rest(parts[1..], b));
  }

  lemma {:induction false} WrittenThenRest(parts: seq<seq<byte>>, b: string, i: nat)
    requires 1 <= i <= |parts|
    ensures Written(parts[..i], b) + Rest(parts[i..], b) == Body(parts, b)
    decreases i
  {
    if i == 1 {
      WrittenFirst(parts, b);
    } else {
      WrittenThenRest(parts, b, i - 1);
      WrittenThenRestStep(parts, b, i);
    }
  }

  lemma WrittenThenRestStep(parts: seq<seq<byte>>, b: string, i: nat)
    requires 2 <= i <= |parts|
    ensures Written(parts[..i], b) + Rest(parts[i..], b) == Written(parts[..i - 1], b) + Rest(parts[i - 1..], b)
  {
    var w, s, p, r := Written(parts[..i - 1], b), Separator(b), parts[i - 1], Rest(parts[i..], b);
    assert Rest(parts[i - 1..], b) == s + p + r by {
      assert parts[i - 1..][0] == p && parts[i - 1..][1..] == parts[i..];
    }
    assert Written(parts[..i], b) == w + s + p by {
      WrittenSnoc(parts, b, i);
      assert DelimiterBefore(i - 1, b) == s;
    }
    calc {
      w + s + p + r;
      { AppendAssoc(w + s, p, r); }
      w + s + (p + r);
      { AppendAssoc(w, s, p + r); }
      w + (s + (p + r));
      { AppendAssoc(s, p, r); }
      w + (s + p + r);
    }
  }

  lemma BoundaryBytes(b: string)
    requires IsBoundaryToken(b)
    ensures |Utf8(b)| == 32
    ensures forall i :: 0 <= i < 32 ==> Utf8(b)[i] == b[i] as int
    ensures forall i :: 0 <= i < 32 ==> Utf8(b)[i] != 13
  {
    Utf8Ascii(b);
  }

  /** The pre-allocated size is exactly the body size when there is at least
      one part; with no part it is two bytes short of the closing delimiter. */
  lemma PreallocatedLengthExact(parts: seq<seq<byte>>, b: string)
    requires IsBoundaryToken(b)
    ensures |parts| >= 1 ==> PreallocatedLength(parts, b) == |Body(parts, b)|
    ensures |parts| == 0 ==> PreallocatedLength(parts, b) == |Closing(b)| - 2
  {
    BoundaryBytes(b);
    if |parts| >= 1 {
      BodyLength(parts, b);
    }
  }

  lemma {:induction false} RestLength(parts: seq<seq<byte>>, b: string)
    requires IsBoundaryToken(b)
    ensures |Rest(parts, b)| == 38 * |parts| + SumLengths(parts) + 38
    decreases |parts|
  {
    BoundaryBytes(b);
    if parts != [] {
      RestLength(parts[1..], b);
    }
  }

  lemma BodyLength(parts: seq<seq<byte>>, b: string)
    requires IsBoundaryToken(b) && |parts| >= 1
    ensures |Body(parts, b)| == 38 * (|parts| + 1) + SumLengths(parts) - 2
  {
    BoundaryBytes(b);
    RestLength(parts[1..], b);
  }

  /** `copy_from_slice` of `src` into `dst` at `at`. */
  method CopyInto(dst: array<byte>, at: nat, src: seq<byte>)
    requires at + |src| <= dst.Length
    modifies dst
    ensures dst[..] == old(dst[..at]) + src + old(dst[at + |src|..])
  {
    forall k | 0 <= k < |src| {
      dst[at + k] := src[k];
    }
    assert dst[..] == old(dst[..at]) + src + old(dst[at + |src|..]);
  }

  /** Writes the delimiters and parts into a buffer of the pre-allocated size,
      as `send` does; `ok` is false where the source's final copy overruns the
      buffer and panics, which happens exactly when there is no part. */
  method AssembleBody(parts: seq<seq<byte>>, b: string) returns (ok: bool, body: array<byte>)
    requires IsBoundaryToken(b)
    ensures ok <==> |parts| >= 1
    ensures ok ==> body.Length == PreallocatedLength(parts, b) && body[..] == Body(parts, b)
  {
    BoundaryBytes(b);
    body := new byte[PreallocatedLength(parts, b)](_ => 0);
    var ptr: nat := 0;
    var i := 0;
    while i < |parts|
      invariant 0 <= i <= |parts|
      invariant ptr <= body.Length
      invariant body[..ptr] == Written(parts[..i], b)
      invariant body.Length == ptr + SumLengths(parts[i..]) + 38 * (|parts| - i) + 38 - (if i == 0 then 2 else 0)
    {
      assert parts[i..][1..] == parts[i + 1..];
      var header := DelimiterBefore(i, b);
      CopyInto(body, ptr, header);
      ptr := ptr + |header|;
      CopyInto(body, ptr, parts[i]);
      ptr := ptr + |parts[i]|;
      assert parts[..i + 1][..i] == parts[..i];
      i := i + 1;
    }
    assert parts[..i] == parts;
    var footer := Closing(b);
    if ptr + |footer| > body.Length {
      ok := false;
      return;
    }
    CopyInto(body, ptr, footer);
    ok := true;
    assert parts[i..] == [];
    WrittenThenRest(parts, b, |parts|);
  }

  // ---------------------------------------------------------------------------
  // A reference multipart parser, the partner of Body

  /** The first position at which `pat` occurs in `s`. */
  function IndexOf(s: seq<byte>, pat: seq<byte>): (r: Option<nat>)
    ensures r.Some? ==> r.value + |pat| <= |s| && s[r.value..r.value + |pat|] == pat
    decreases |s|
  {
    if |s| < |pat| then None
    else if s[..|pat|] == pat then Some(0)
    else match IndexOf(s[1..], pat)
      case Some(j) => Some(j + 1)
      case None => None
  }

  /** The bytes before the first delimiter in `s`, and those after it. */
  function NextPart(s: seq<byte>, b: string): (r: Option<(seq<byte>, seq<byte>)>)
    ensures r.Some? ==> |r.value.1| < |s|
  {
    var d := Delimiter(b);
    match IndexOf(s, d)
    case None => None
    case Some(j) => Some((s[..j], s[j + |d|..]))
  }

  /** Splits what follows the opening delimiter into the parts. */
  function DecodeRest(s: seq<byte>, b: string): Option<seq<seq<byte>>>
    decreases |s|
  {
    match NextPart(s, b)
    case None => None
    case Some((part, after)) =>
      if after == DASHES then Some([part])
      else if |after| >= 2 && after[..2] == CRLF then
        match DecodeRest(after[2..], b)
        case Some(more) => Some([part] + more)
        case None => None
      else None
  }

  /** Parses a multipart body with the given boundary back into its parts. */
  function Decode(body: seq<byte>, b: string): Option<seq<seq<byte>>> {
    var o := Opening(b);
    if |o| <= |body| && body[..|o|] == o then DecodeRest(body[|o|..], b) else None
  }

  /** `pat` occurs in `s` at position `k`. */
  predicate MatchesAt(s: seq<byte>, pat: seq<byte>, k: nat) {
    k + |pat| <= |s| && s[k..k + |pat|] == pat
  }

  lemma {:induction false} IndexOfFirst(s: seq<byte>, pat: seq<byte>, j: nat)
    requires MatchesAt(s, pat, j)
    requires forall k :: 0 <= k < j ==> !MatchesAt(s, pat, k)
    ensures IndexOf(s, pat) == Some(j)
    decreases j
  {
    if j > 0 {
      assert !MatchesAt(s, pat, 0);
      assert s[0..0 + |pat|] == s[..|pat|];
      forall k | 0 <= k < j - 1 ensures !MatchesAt(s[1..], pat, k) {
        assert !MatchesAt(s, pat, k + 1);
        if k + |pat| <= |s| - 1 {
          assert s[1..][k..k + |pat|] == s[k + 1..k + 1 + |pat|];
        }
      }
      assert s[1..][j - 1..j - 1 + |pat|] == s[j..j + |pat|];
      IndexOfFirst(s[1..], pat, j - 1);
    }
  }

  /** The delimiter has a carriage return at its start and nowhere else. */
  lemma DelimiterShape(b: string)
    requires IsBoundaryToken(b)
    ensures |Delimiter(b)| == 36 && Delimiter(b)[0] == 13
    ensures forall m :: 1 <= m < 36 ==> Delimiter(b)[m] != 13
    ensures Delimiter(b)[4..] == Utf8(b)
  {
    BoundaryBytes(b);
    var d := Delimiter(b);
    forall m | 1 <= m < 36 ensures d[m] != 13 {
      if m >= 4 {
        assert d[m] == Utf8(b)[m - 4];
      }
    }
  }

  /** After a part that does not contain the boundary, the first delimiter is
      the one that ends the part. */
  lemma FirstDelimiter(p: seq<byte>, t: seq<byte>, b: string)
    requires IsBoundaryToken(b)
    requires !Occurs(Utf8(b), p)
    ensures IndexOf(p + Delimiter(b) + t, Delimiter(b)) == Some(|p|)
  {
    DelimiterShape(b);
    var d := Delimiter(b);
    var s := p + d + t;
    assert s[|p|..|p| + |d|] == d;
    forall k | 0 <= k < |p| ensures !MatchesAt(s, d, k) {
      if k + |d| <= |p| {
        assert s[k..k + |d|] == p[k..k + |d|];
        if p[k..k + |d|] == d {
          assert p[k + 4..k + 4 + 32] == d[4..];
          OccursWithin(Utf8(b), p, k + 4);
        }
      } else if k + |d| <= |s| {
        var m := |p| - k;
        assert s[k..k + |d|][m] == s[|p|] == 13;
        assert d[m] != 13;
      }
    }
    IndexOfFirst(s, d, |p|);
  }

  lemma NextPartOf(p: seq<byte>, t: seq<byte>, b: string)
    requires IsBoundaryToken(b)
    requires !Occurs(Utf8(b), p)
    ensures NextPart(p + Delimiter(b) + t, b) == Some((p, t))
  {
    var s := p + Delimiter(b) + t;
    FirstDelimiter(p, t, b);
    assert s[|p| + |Delimiter(b)|..] == t;
    assert s[..|p|] == p;
  }

  /** The parser stops after a part followed by the closing delimiter. */
  lemma DecodeRestLast(p: seq<byte>, b: string)
    requires IsBoundaryToken(b)
    requires !Occurs(Utf8(b), p)
    ensures DecodeRest(p + Closing(b), b) == Some([p])
  {
    assert p + Closing(b) == p + Delimiter(b) + DASHES by {
      AppendAssoc(p, Delimiter(b), DASHES);
    }
    NextPartOf(p, DASHES, b);
  }

  /** One step of the parser: a part, then a delimiter followed by CRLF. */
  lemma DecodeRestStep(s: seq<byte>, b: string, part: seq<byte>, after: seq<byte>)
    requires NextPart(s, b) == Some((part, after))
    requires |after| >= 2 && after[..2] == CRLF && DecodeRest(after[2..], b).Some?
    ensures DecodeRest(s, b) == Some([part] + DecodeRest(after[2..], b).value)
  {
    assert after[0] == after[..2][0] == 13;
  }

  /** The parser goes on after a part followed by a separator. */
  lemma DecodeRestNext(p: seq<byte>, r: seq<byte>, b: string)
    requires IsBoundaryToken(b)
    requires !Occurs(Utf8(b), p)
    requires DecodeRest(r, b).Some?
    ensures DecodeRest(p + Separator(b) + r, b) == Some([p] + DecodeRest(r, b).value)
  {
    var d, t := Delimiter(b), CRLF + r;
    assert p + Separator(b) + r == p + d + t by {
      AppendAssoc(p, d, CRLF);
      AppendAssoc(p + d, CRLF, r);
    }
    NextPartOf(p, t, b);
    assert t[..2] == CRLF && t[2..] == r;
    DecodeRestStep(p + d + t, b, p, t);
  }

  lemma {:induction false} DecodeRestOf(p: seq<byte>, qs: seq<seq<byte>>, b: string)
    requires IsBoundaryToken(b)
    requires !Occurs(Utf8(b), p)
    requires forall i :: 0 <= i < |qs| ==> !Occurs(Utf8(b), qs[i])
    ensures DecodeRest(p + Rest(qs, b), b) == Some([p] + qs)
    decreases |qs|
  {
    if qs == [] {
      assert DecodeRest(p + Rest(qs, b), b) == Some([p] + qs) by {
        DecodeRestLast(p, b);
        assert p + Rest(qs, b) == p + Closing(b);
        assert [p] + qs == [p];
      }
    } else {
      var tail := qs[1..];
      forall i | 0 <= i < |tail| ensures !Occurs(Utf8(b), tail[i]) {
        assert tail[i] == qs[i + 1];
      }
      DecodeRestOf(qs[0], tail, b);
      DecodeRestCons(p, qs, b);
    }
  }

  lemma DecodeRestCons(p: seq<byte>, qs: seq<seq<byte>>, b: string)
    requires IsBoundaryToken(b) && !Occurs(Utf8(b), p) && qs != []
    requires DecodeRest(qs[0] + Rest(qs[1..], b), b) == Some([qs[0]] + qs[1..])
    ensures DecodeRest(p + Rest(qs, b), b) == Some([p] + qs)
  {
    assert [qs[0]] + qs[1..] == qs;
    var r := qs[0] + Rest(qs[1..], b);
    assert p + Rest(qs, b) == p + Separator(b) + r by {
      AppendAssoc(Separator(b), qs[0], Rest(qs[1..], b));
      AppendAssoc(p, Separator(b), r);
    }
    DecodeRestNext(p, r, b);
  }

  /** Decoding an encoded body gives back its parts, provided the boundary
      occurs in none of them (what the collision test guarantees). */
  lemma DecodeBody(parts: seq<seq<byte>>, b: string)
    requires IsBoundaryToken(b) && |parts| >= 1
    requires !Collides(parts, b)
    ensures Decode(Body(parts, b), b) == Some(parts)
  {
    forall i | 0 <= i < |parts| - 1 ensures !Occurs(Utf8(b), parts[1..][i]) {
      assert parts[1..][i] == parts[i + 1];
    }
    DecodeRestOf(parts[0], parts[1..], b);
    var o, tail := Opening(b), parts[0] + Rest(parts[1..], b);
    assert Body(parts, b) == o + tail by {
      AppendAssoc(o, parts[0], Rest(parts[1..], b));
    }
    assert (o + tail)[..|o|] == o;
    assert (o + tail)[|o|..] == tail;
    assert [parts[0]] + parts[1..] == parts;
  }

  // ---------------------------------------------------------------------------
  // The scripted transport

  /** What a POST can come back with: a transport error, a body that does not
      parse as `{"id": <string>}`, or the created message's id string. */
  datatype Reply = Unreachable | Garbled | Created(id: string)

  datatype Request = Request(verb: string, url: string, headers: seq<(string, string)>, body: seq<byte>)

  /** Everything outside the process that `send` and `edit` talk to: the answers
      the endpoint will give, the boundary strings the random generator will
      draw, and the record of requests made and seconds slept. */
  class Network {
    var replies: seq<Reply>
    var patchReplies: seq<bool>
    var candidates: seq<string>
    var posts: seq<Request>
    var patches: seq<Request>
    var sleeps: seq<nat>
    /** The messages `send` has returned, in order. */
    ghost var acked: seq<Message>

    ghost predicate Valid()
      reads this
    {
      forall i :: 0 <= i < |candidates| ==> IsBoundaryToken(candidates[i])
    }

    constructor (replies: seq<Reply>, patchReplies: seq<bool>, candidates: seq<string>)
      requires forall i :: 0 <= i < |candidates| ==> IsBoundaryToken(candidates[i])
      ensures Valid()
      ensures this.replies == replies && this.patchReplies == patchReplies && this.candidates == candidates
      ensures posts == [] && patches == [] && sleeps == [] && acked == []
    {
      this.replies := replies;
      this.patchReplies := patchReplies;
      this.candidates := candidates;
      posts, patches, sleeps, acked := [], [], [], [];
    }

    /** Draws the next boundary candidate; None once the scripted draws run out. */
    method Draw() returns (c: Option<string>)
      requires Valid()
      modifies this
      ensures Valid()
      ensures old(candidates) == [] ==> c == None && candidates == []
      ensures old(candidates) != [] ==> c == Some(old(candidates)[0]) && candidates == old(candidates)[1..]
      ensures replies == old(replies) && patchReplies == old(patchReplies)
      ensures posts == old(posts) && patches == old(patches) && sleeps == old(sleeps) && acked == old(acked)
    {
      if candidates == [] {
        c := None;
      } else {
        c := Some(candidates[0]);
        candidates := candidates[1..];
      }
    }

    /** Makes one POST; None once the scripted answers run out. */
    method Post(req: Request) returns (reply: Option<Reply>)
      modifies this
      ensures old(replies) == [] ==> reply == None && posts == old(posts) && replies == []
      ensures old(replies) != [] ==>
                reply == Some(old(replies)[0]) && replies == old(replies)[1..] && posts == old(posts) + [req]
      ensures candidates == old(candidates) && patchReplies == old(patchReplies)
      ensures patches == old(patches) && sleeps == old(sleeps) && acked == old(acked)
    {
      if replies == [] {
        reply := None;
      } else {
        reply := Some(replies[0]);
        replies := replies[1..];
        posts := posts + [req];
      }
    }

    /** Makes one PATCH; None once the scripted answers run out. */
    method Patch(req: Request) returns (ok: Option<bool>)
      modifies this
      ensures old(patchReplies) == [] ==> ok == None && patches == old(patches) && patchReplies == []
      ensures old(patchReplies) != [] ==>
                ok == Some(old(patchReplies)[0]) && patchReplies == old(patchReplies)[1..]
                && patches == old(patches) + [req]
      ensures candidates == old(candidates) && replies == old(replies)
      ensures posts == old(posts) && sleeps == old(sleeps) && acked == old(acked)
    {
      if patchReplies == [] {
        ok := None;
      } else {
        ok := Some(patchReplies[0]);
        patchReplies := patchReplies[1..];
        patches := patches + [req];
      }
    }

    /** `thread::sleep`, recorded in seconds. */
    method Sleep(seconds: nat)
      modifies this
      ensures sleeps == old(sleeps) + [seconds]
      ensures candidates == old(candidates) && replies == old(replies) && patchReplies == old(patchReplies)
      ensures posts == old(posts) && patches == old(patches) && acked == old(acked)
    {
      sleeps := sleeps + [seconds];
    }

    /** Records a message `send` returned (a ghost bookkeeping step). */
    method Acknowledge(m: Message)
      modifies this
      ensures acked == old(acked) + [m]
      ensures candidates == old(candidates) && replies == old(replies) && patchReplies == old(patchReplies)
      ensures posts == old(posts) && patches == old(patches) && sleeps == old(sleeps)
    {
      acked := acked + [m];
    }
  }

  // ---------------------------------------------------------------------------
  // send

  function Repeat<T>(x: T, n: nat): (r: seq<T>)
    ensures |r| == n && forall i :: 0 <= i < n ==> r[i] == x
  {
    seq(n, _ => x)
  }

  /** Seconds slept after a failed POST: one minute after a transport error,
      five minutes after an unparseable answer. */
  function Backoff(r: Reply): nat {
    match r
    case Unreachable => 60
    case Garbled => 300
    case Created(_) => 0
  }

  function Backoffs(rs: seq<Reply>): seq<nat> {
    seq(|rs|, i requires 0 <= i < |rs| => Backoff(rs[i]))
  }

  /** The position of the first answer that carries an id string. */
  function FirstCreated(rs: seq<Reply>): (k: nat)
    ensures k <= |rs|
    ensures forall j :: 0 <= j < k ==> !rs[j].Created?
    ensures k < |rs| ==> rs[k].Created?
    decreases |rs|
  {
    if rs == [] || rs[0].Created? then 0 else 1 + FirstCreated(rs[1..])
  }

  /** The POST `send` makes for a body. */
  function PostRequest(hook: Webhook, parts: seq<seq<byte>>, b: string): Request
    requires |parts| >= 1
  {
    var body := Body(parts, b);
    Request("POST", hook.url + "?wait=true",
            [("Content-Type", "multipart/form-data;" + " boundary=" + b), ("Content-Length", Decimal(|body|))], body)
  }

  /** What one `send` does, given the candidates the generator will draw and the
      answers the endpoint will give: its outcome, the POSTs made, the seconds
      slept, and the candidates and answers it leaves for later calls. */
  datatype SendTrace = SendTrace(outcome: Outcome<Message>, posts: seq<Request>, sleeps: seq<nat>,
                                 candidatesLeft: seq<string>, repliesLeft: seq<Reply>)

  function SendSpec(hook: Webhook, m: Message, candidates: seq<string>, replies: seq<Reply>): SendTrace {
    var parts := Parts(m);
    var k := FirstFree(parts, candidates);
    if k == |candidates| then SendTrace(Stalled, [], [], [], replies)
    else if |parts| == 0 then SendTrace(Panicked, [], [], candidates[k + 1..], replies)
    else
      var d := DeliverSpec(m, PostRequest(hook, parts, candidates[k]), replies);
      SendTrace(d.outcome, d.posts, d.sleeps, candidates[k + 1..], d.repliesLeft)
  }

  /** What the POST loop and the id parsing do with one request. */
  datatype DeliverTrace = DeliverTrace(outcome: Outcome<Message>, posts: seq<Request>, sleeps: seq<nat>,
                                       repliesLeft: seq<Reply>)

  function DeliverSpec(m: Message, req: Request, replies: seq<Reply>): DeliverTrace {
    var j := FirstCreated(replies);
    if j == |replies| then DeliverTrace(Stalled, Repeat(req, j), Backoffs(replies), [])
    else match ParseNonZeroU64(replies[j].id)
      case Some(v) => DeliverTrace(Done(m.(id := Some(v))), Repeat(req, j + 1), Backoffs(replies[..j]), replies[j + 1..])
      case None => DeliverTrace(Panicked, Repeat(req, j + 1), Backoffs(replies[..j]), replies[j + 1..])
  }

  /** The boundary loop: draw candidates until one occurs in no part. */
  method ChooseBoundary(net: Network, parts: seq<seq<byte>>) returns (b: Option<string>)
    requires net.Valid()
    modifies net
    ensures net.Valid()
    ensures var k := FirstFree(parts, old(net.candidates));
            (if k < |old(net.candidates)| then b == Some(old(net.candidates)[k]) && net.candidates == old(net.candidates)[k + 1..]
             else b == None && net.candidates == [])
    ensures b.Some? ==> IsBoundaryToken(b.value) && !Collides(parts, b.value)
    ensures net.replies == old(net.replies) && net.patchReplies == old(net.patchReplies)
    ensures net.posts == old(net.posts) && net.patches == old(net.patches)
    ensures net.sleeps == old(net.sleeps) && net.acked == old(net.acked)
  {
    ghost var cands := net.candidates;
    ghost var drawn := 0;
    while true
      invariant net.Valid()
      invariant 0 <= drawn <= |cands| && net.candidates == cands[drawn..]
      invariant forall j :: 0 <= j < drawn ==> Collides(parts, cands[j])
      invariant net.replies == old(net.replies) && net.patchReplies == old(net.patchReplies)
      invariant net.posts == old(net.posts) && net.patches == old(net.patches)
      invariant net.sleeps == old(net.sleeps) && net.acked == old(net.acked)
      decreases |net.candidates|
    {
      var c := net.Draw();
      if c.None? {
        assert FirstFree(parts, cands) == |cands|;
        return None;
      }
      assert c.value == cands[drawn];
      if !Collides(parts, c.value) {
        assert FirstFree(parts, cands) == drawn;
        return c;
      }
      drawn := drawn + 1;
    }
  }

  /** The POST loop: repeat the same request until an answer carries an id
      string, sleeping after each failure. None once the answers run out. */
  method PostUntilCreated(net: Network, req: Request) returns (id: Option<string>)
    modifies net
    ensures var rs := old(net.replies);
            var j := FirstCreated(rs);
            if j < |rs| then
              id == Some(rs[j].id) && net.posts == old(net.posts) + Repeat(req, j + 1)
              && net.sleeps == old(net.sleeps) + Backoffs(rs[..j]) && net.replies == rs[j + 1..]
            else
              id == None && net.posts == old(net.posts) + Repeat(req, j)
              && net.sleeps == old(net.sleeps) + Backoffs(rs) && net.replies == []
    ensures net.candidates == old(net.candidates) && net.patchReplies == old(net.patchReplies)
    ensures net.patches == old(net.patches) && net.acked == old(net.acked)
  {
    ghost var rs := net.replies;
    ghost var n := 0;
    while true
      invariant 0 <= n <= |rs| && net.replies == rs[n..]
      invariant forall j :: 0 <= j < n ==> !rs[j].Created?
      invariant net.posts == old(net.posts) + Repeat(req, n)
      invariant net.sleeps == old(net.sleeps) + Backoffs(rs[..n])
      invariant net.candidates == old(net.candidates) && net.patchReplies == old(net.patchReplies)
      invariant net.patches == old(net.patches) && net.acked == old(net.acked)
      decreases |net.replies|
    {
      var reply := net.Post(req);
      match reply {
        case None =>
          assert rs[..n] == rs;
          return None;
        case Some(Created(s)) =>
          assert FirstCreated(rs) == n;
          assert Repeat(req, n) + [req] == Repeat(req, n + 1);
          return Some(s);
        case Some(r) =>
          assert Repeat(req, n) + [req] == Repeat(req, n + 1);
          assert Backoffs(rs[..n]) + [Backoff(r)] == Backoffs(rs[..n + 1]);
          net.Sleep(Backoff(r));
          n := n + 1;
      }
    }
  }

  /** The first half of `send`: render the parts, pick a boundary and
      assemble the request once. Stalled when the candidates run out, Panicked
      when the message has no part. */
  method Prepare(hook: Webhook, net: Network, m: Message) returns (o: Outcome<Request>)
    requires net.Valid()
    modifies net
    ensures net.Valid()
    ensures var parts, cands := Parts(m), old(net.candidates);
            var k := FirstFree(parts, cands);
            if k == |cands| then o == Stalled && net.candidates == []
            else net.candidates == cands[k + 1..]
                 && (if |parts| == 0 then o == Panicked else o == Done(PostRequest(hook, parts, cands[k])))
    ensures net.replies == old(net.replies) && net.patchReplies == old(net.patchReplies)
    ensures net.posts == old(net.posts) && net.patches == old(net.patches)
    ensures net.sleeps == old(net.sleeps) && net.acked == old(net.acked)
  {
    var bodies := RenderParts(m);
    var b := ChooseBoundary(net, bodies);
    if b.None? {
      return Stalled;
    }
    var ok, body := AssembleBody(bodies, b.value);
    if !ok {
      return Panicked;
    }
    o := Done(Request("POST", hook.url + "?wait=true",
                      [("Content-Type", "multipart/form-data;" + " boundary=" + b.value),
                       ("Content-Length", Decimal(body.Length))], body[..]));
  }

  /** The second half of `send`: POST the request until an id comes back,
      then parse it; the sent message is acknowledged. */
  method Deliver(net: Network, m: Message, req: Request) returns (r: Outcome<Message>)
    requires net.Valid()
    modifies net
    ensures net.Valid()
    ensures var d := DeliverSpec(m, req, old(net.replies));
            r == d.outcome && net.posts == old(net.posts) + d.posts && net.sleeps == old(net.sleeps) + d.sleeps
            && net.replies == d.repliesLeft
    ensures net.candidates == old(net.candidates)
    ensures net.patchReplies == old(net.patchReplies) && net.patches == old(net.patches)
    ensures net.acked == if r.Done? then old(net.acked) + [r.value] else old(net.acked)
  {
    var id := PostUntilCreated(net, req);
    if id.None? {
      return Stalled;
    }
    var parsed := ParseNonZeroU64(id.value);
    if parsed.None? {
      return Panicked;
    }
    var sent := m.(id := Some(parsed.value));
    net.Acknowledge(sent);
    r := Done(sent);
  }

  /** `Webhook::send`: render the parts, pick a boundary, assemble the body
      once, then POST it until an id comes back. */
  method Send(hook: Webhook, net: Network, m: Message) returns (r: Outcome<Message>)
    requires net.Valid()
    modifies net
    ensures net.Valid()
    ensures var t := SendSpec(hook, m, old(net.candidates), old(net.replies));
            r == t.outcome && net.posts == old(net.posts) + t.posts && net.sleeps == old(net.sleeps) + t.sleeps
            && net.candidates == t.candidatesLeft && net.replies == t.repliesLeft
    ensures net.patchReplies == old(net.patchReplies) && net.patches == old(net.patches)
    ensures net.acked == if r.Done? then old(net.acked) + [r.value] else old(net.acked)
  {
    var o := Prepare(hook, net, m);
    match o {
      case Done(req) => r := Deliver(net, m, req);
      case Stalled => r := Stalled;
      case Panicked => r := Panicked;
      case IoFailed => assert false; r := IoFailed;
    }
  }

  /** Every POST of one `send` carries the same request: a body in the
      multipart layout under a boundary that occurs in no part, which therefore
      parses back into exactly the message's parts, with a matching
      Content-Length header. */
  lemma SendRequestsDecode(hook: Webhook, m: Message, candidates: seq<string>, replies: seq<Reply>)
    requires forall i :: 0 <= i < |candidates| ==> IsBoundaryToken(candidates[i])
    ensures var t := SendSpec(hook, m, candidates, replies);
            var k := FirstFree(Parts(m), candidates);
            |t.posts| > 0 ==>
              k < |candidates| && |Parts(m)| >= 1 &&
              forall i :: 0 <= i < |t.posts| ==>
                t.posts[i] == PostRequest(hook, Parts(m), candidates[k])
                && t.posts[i].url == hook.url + "?wait=true"
                && t.posts[i].headers[1] == ("Content-Length", Decimal(|t.posts[i].body|))
                && Decode(t.posts[i].body, candidates[k]) == Some(Parts(m))
  {
    var parts := Parts(m);
    var k := FirstFree(parts, candidates);
    if k < |candidates| && |parts| >= 1 {
      var req := PostRequest(hook, parts, candidates[k]);
      PostRequestShape(hook, parts, candidates[k]);
      DeliverPosts(m, req, replies);
    }
  }

  /** A request built for parts under a boundary that occurs in none of them
      goes to the `?wait=true` URL, states its own length, and carries a body
      that parses back into the parts. */
  lemma PostRequestShape(hook: Webhook, parts: seq<seq<byte>>, b: string)
    requires IsBoundaryToken(b) && |parts| >= 1 && !Collides(parts, b)
    ensures var q := PostRequest(hook, parts, b);
            q.url == hook.url + "?wait=true" && q.headers[1] == ("Content-Length", Decimal(|q.body|))
            && Decode(q.body, b) == Some(parts)
  {
    DecodeBody(parts, b);
  }

  /** The POST loop repeats one request. */
  lemma DeliverPosts(m: Message, req: Request, replies: seq<Reply>)
    ensures forall i :: 0 <= i < |DeliverSpec(m, req, replies).posts| ==> DeliverSpec(m, req, replies).posts[i] == req
  {
  }

  /** After `n` transport errors the endpoint returns the id `v`: `send` posts
      n + 1 times, sleeps a minute after each error, and returns the message
      with that id and nothing else changed. */
  lemma SendAfterOutages(hook: Webhook, m: Message, candidates: seq<string>, n: nat, v: nat, later: seq<Reply>)
    requires FirstFree(Parts(m), candidates) < |candidates| && |Parts(m)| >= 1
    requires 0 < v < U64_LIMIT
    ensures var t := SendSpec(hook, m, candidates, Repeat(Unreachable, n) + [Created(Decimal(v))] + later);
            t.outcome == Done(Message(Some(v), m.content, m.files))
            && |t.posts| == n + 1 && t.sleeps == Repeat(60, n) && t.repliesLeft == later
  {
    var k := FirstFree(Parts(m), candidates);
    DeliverAfterOutages(m, PostRequest(hook, Parts(m), candidates[k]), n, v, later);
  }

  /** The POST loop after `n` transport errors and then the id `v`. */
  lemma DeliverAfterOutages(m: Message, req: Request, n: nat, v: nat, later: seq<Reply>)
    requires 0 < v < U64_LIMIT
    ensures DeliverSpec(m, req, Repeat(Unreachable, n) + [Created(Decimal(v))] + later)
            == DeliverTrace(Done(m.(id := Some(v))), Repeat(req, n + 1), Repeat(60, n), later)
  {
    var rs := Repeat(Unreachable, n) + [Created(Decimal(v))] + later;
    assert FirstCreated(rs) == n by {
      assert rs[n] == Created(Decimal(v));
      assert forall i :: 0 <= i < n ==> rs[i] == Unreachable;
    }
    assert ParseNonZeroU64(rs[n].id) == Some(v) by {
      ParseUnsignedDecimal(v, U64_LIMIT);
    }
    assert rs[n + 1..] == later;
    assert Backoffs(rs[..n]) == Repeat(60, n) by {
      assert rs[..n] == Repeat(Unreachable, n);
    }
  }

  /** An id that does not parse as a non-zero 64-bit integer (zero, say) makes
      `send` panic after the POST that returned it. */
  lemma SendPanicsOnBadId(hook: Webhook, m: Message, candidates: seq<string>, id: string, later: seq<Reply>)
    requires FirstFree(Parts(m), candidates) < |candidates| && |Parts(m)| >= 1
    requires ParseNonZeroU64(id) == None
    ensures var t := SendSpec(hook, m, candidates, [Created(id)] + later);
            t.outcome == Panicked && |t.posts| == 1 && t.sleeps == []
  {
    var rs := [Created(id)] + later;
    assert FirstCreated(rs) == 0;
  }

  /** A message with neither content nor files makes `send` panic while
      assembling the body, before any POST. */
  lemma SendEmptyPanics(hook: Webhook, m: Message, candidates: seq<string>, replies: seq<Reply>)
    requires m.content == None && m.files == [] && candidates != []
    ensures var t := SendSpec(hook, m, candidates, replies);
            t.outcome == Panicked && t.posts == [] && t.repliesLeft == replies
  {
    assert Parts(m) == [];
    assert !Collides(Parts(m), candidates[0]);
  }

  /** `send` never ends in a local I/O error and consumes answers without
      inventing any. A message it returns differs from the one given only by
      its id, a non-zero 64-bit integer; it made one POST per answer consumed
      and slept one or five minutes after each POST but the last. */
  lemma SendDoneKeepsMessage(hook: Webhook, m: Message, candidates: seq<string>, replies: seq<Reply>)
    ensures var t := SendSpec(hook, m, candidates, replies);
            !t.outcome.IoFailed? && |t.repliesLeft| <= |replies|
    ensures var t := SendSpec(hook, m, candidates, replies);
            t.outcome.Done? ==>
              t.outcome.value.content == m.content && t.outcome.value.files == m.files
              && t.outcome.value.id.Some? && 0 < t.outcome.value.id.value < U64_LIMIT
              && |t.posts| == |replies| - |t.repliesLeft|
              && |t.sleeps| + 1 == |t.posts|
              && forall i :: 0 <= i < |t.sleeps| ==> t.sleeps[i] == 60 || t.sleeps[i] == 300
  {
  }

  // ---------------------------------------------------------------------------
  // edit

  /** The JSON body of an edit: `{"content":<quoted text>}`. */
  function EditBody(text: string): seq<byte> {
    Utf8("{\"content\":" + Quote(text) + "}")
  }

  function PatchRequest(hook: Webhook, id: nat, text: string): Request {
    var body := EditBody(text);
    Request("PATCH", hook.url + "/messages/" + Decimal(id),
            [("Content-Type", "application/json"), ("Content-Length", Decimal(|body|))], body)
  }

  function FirstTrue(oks: seq<bool>): (k: nat)
    ensures k <= |oks|
    ensures forall j :: 0 <= j < k ==> !oks[j]
    ensures k < |oks| ==> oks[k]
    decreases |oks|
  {
    if oks == [] || oks[0] then 0 else 1 + FirstTrue(oks[1..])
  }

  /** What one `edit` does: its outcome (the edited message), the PATCHes made,
      and the answers left for later calls. */
  datatype EditTrace = EditTrace(outcome: Outcome<Message>, patches: seq<Request>, repliesLeft: seq<bool>)

  function EditSpec(hook: Webhook, m: Message, text: string, oks: seq<bool>): EditTrace {
    if m.id.None? then EditTrace(Panicked, [], oks)
    else
      var req := PatchRequest(hook, m.id.value, text);
      var j := FirstTrue(oks);
      if j == |oks| then EditTrace(Stalled, Repeat(req, j), [])
      else EditTrace(Done(m.(content := Some(text))), Repeat(req, j + 1), oks[j + 1..])
  }

  /** Editing a message that was never sent panics before any request; editing
      a sent one repeats the same PATCH to its URL until one succeeds, and
      yields the message with the new content and nothing else changed. */
  lemma EditUntilAccepted(hook: Webhook, m: Message, text: string, n: nat, later: seq<bool>)
    ensures m.id.None? ==> EditSpec(hook, m, text, Repeat(false, n) + [true] + later) == EditTrace(Panicked, [], Repeat(false, n) + [true] + later)
    ensures m.id.Some? ==>
              var t := EditSpec(hook, m, text, Repeat(false, n) + [true] + later);
              t.outcome == Done(Message(m.id, Some(text), m.files))
              && t.patches == Repeat(PatchRequest(hook, m.id.value, text), n + 1)
              && t.patches[0].url == hook.url + "/messages/" + Decimal(m.id.value)
              && t.repliesLeft == later
  {
    var oks := Repeat(false, n) + [true] + later;
    assert oks[n];
    assert forall i :: 0 <= i < n ==> !oks[i];
    assert FirstTrue(oks) == n;
    assert oks[n + 1..] == later;
  }

  /** `Message::edit`: panic on a message that was never sent; otherwise set the
      content, then PATCH it until a PATCH succeeds, without sleeping. */
  method Edit(hook: Webhook, net: Network, m: Message, text: string) returns (r: Outcome<Message>)
    modifies net
    ensures var t := EditSpec(hook, m, text, old(net.patchReplies));
            r == t.outcome && net.patches == old(net.patches) + t.patches && net.patchReplies == t.repliesLeft
    ensures net.candidates == old(net.candidates) && net.replies == old(net.replies)
    ensures net.posts == old(net.posts) && net.sleeps == old(net.sleeps) && net.acked == old(net.acked)
  {
    if m.id.None? {
      return Panicked;
    }
    var id := m.id.value;
    var body := Utf8("{\"content\":" + Quote(text) + "}");
    var edited := m.(content := Some(text));
    var req := Request("PATCH", hook.url + "/messages/" + Decimal(id),
                       [("Content-Type", "application/json"), ("Content-Length", Decimal(|body|))], body);
    ghost var oks := net.patchReplies;
    ghost var n := 0;
    while true
      invariant 0 <= n <= |oks| && net.patchReplies == oks[n..]
      invariant forall j :: 0 <= j < n ==> !oks[j]
      invariant net.patches == old(net.patches) + Repeat(req, n)
      invariant net.candidates == old(net.candidates) && net.replies == old(net.replies)
      invariant net.posts == old(net.posts) && net.sleeps == old(net.sleeps) && net.acked == old(net.acked)
      decreases |net.patchReplies|
    {
      var ok := net.Patch(req);
      if ok.None? {
        return Stalled;
      }
      assert Repeat(req, n) + [req] == Repeat(req, n + 1);
      if ok.value {
        assert FirstTrue(oks) == n;
        return Done(edited);
      }
      n := n + 1;
    }
  }
}
