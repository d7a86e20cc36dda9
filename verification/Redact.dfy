/** redact/json.go over arbitrary JSON trees. */
module Redact {
  import opened Options
  import opened Capture
  import opened Texts

  datatype J = JObj(fields: map<string, J>) | JArr(items: seq<J>) | JStr(s: string) | JAtom(tok: string)

  const MARKER: string := "***redacted***"

  // ---- sensitive keys ----

  /** JSONKeys holds lower-case, trimmed keys; `scrub` is the pattern redaction of free text,
      the identity when it is switched off. */
  datatype Rules = Rules(jsonKeys: set<string>, scrub: string -> string)

  predicate Sensitive(r: Rules, key: string) { Lower(Trim(key)) in r.jsonKeys }

  /** Of a list of keys, the set that is looked up. */
  function KeySet(values: seq<string>): set<string> {
    set i | 0 <= i < |values| :: Lower(Trim(values[i]))
  }

  /** Exactly the plain forms of the listed keys are in it. */
  lemma KeySetIs(values: seq<string>, s: string)
    ensures s in KeySet(values) <==> Plain(s) && exists i :: 0 <= i < |values| && SameKey(values[i], s)
  {
    if s in KeySet(values) {
      var i :| 0 <= i < |values| && s == Lower(Trim(values[i]));
      LowerTrimIsPlain(values[i]);
      KeyIs(values[i], s);
    }
    if Plain(s) {
      forall i | 0 <= i < |values| && SameKey(values[i], s) ensures s in KeySet(values) { KeyIs(values[i], s); }
    }
  }

  predicate PlainKeys(r: Rules) { forall s | s in r.jsonKeys :: Plain(s) }

  /** The key spells one of the secret ones, in any case and with white space around. */
  ghost predicate Secret(r: Rules, key: string) { exists s :: s in r.jsonKeys && SameKey(key, s) }

  lemma SensitiveIsSecret(r: Rules, key: string)
    requires PlainKeys(r)
    ensures Sensitive(r, key) <==> Secret(r, key)
  {
    if Sensitive(r, key) { KeyIs(key, Lower(Trim(key))); }
    if Secret(r, key) {
      var s :| s in r.jsonKeys && SameKey(key, s);
      KeyIs(key, s);
    }
  }

  // ---- redactAny ----

  function Redacted(v: J, r: Rules): J {
    match v
    case JObj(fields) => JObj(map k | k in fields :: if Sensitive(r, k) then JStr(MARKER) else Redacted(fields[k], r))
    case JArr(items) => JArr(seq(|items|, i requires 0 <= i < |items| => Redacted(items[i], r)))
    case JStr(s) => JStr(r.scrub(s))
    case JAtom(_) => v
  }

  /** redactAny as code: fresh maps and slices filled in loops. */
  method RedactAny(v: J, r: Rules) returns (out: J)
    ensures out == Redacted(v, r)
    decreases v
  {
    match v
    case JObj(fields) =>
      var filled: map<string, J> := map[];
      var keys := fields.Keys;
      while keys != {}
        invariant keys <= fields.Keys && filled.Keys == fields.Keys - keys
        invariant forall k | k in filled :: filled[k] == if Sensitive(r, k) then JStr(MARKER) else Redacted(fields[k], r)
        decreases keys
      {
        var k :| k in keys;
        keys := keys - {k};
        if Sensitive(r, k) {
          filled := filled[k := JStr(MARKER)];
        } else {
          var nested := RedactAny(fields[k], r);
          filled := filled[k := nested];
        }
      }
      return JObj(filled);
    case JArr(items) =>
      var filled: seq<J> := [];
      var i := 0;
      while i < |items|
        invariant 0 <= i <= |items| == |items| && |filled| == i
        invariant forall k | 0 <= k < i :: filled[k] == Redacted(items[k], r)
      {
        var one := RedactAny(items[i], r);
        filled := filled + [one];
        i := i + 1;
      }
      return JArr(filled);
    case JStr(s) => return JStr(r.scrub(s));
    case JAtom(_) => return v;
  }

  // ---- where redaction reaches ----

  datatype Step = Key(k: string) | Index(i: nat)

  /** The value at a path, if there is one. */
  function ValueAt(v: J, path: seq<Step>): Option<J>
    decreases path
  {
    if path == [] then Some(v)
    else match (v, path[0])
      case (JObj(fields), Key(k)) => if k in fields then ValueAt(fields[k], path[1..]) else None
      case (JArr(items), Index(i)) => if i < |items| then ValueAt(items[i], path[1..]) else None
      case _ => None
  }

  predicate Open(r: Rules, path: seq<Step>) {
    forall i | 0 <= i < |path| :: path[i].Key? ==> !Sensitive(r, path[i].k)
  }

  /** Along a path without sensitive keys nothing is added or lost: there is a value after
      redaction exactly where there was one, and it is that value redacted. In particular
      objects keep their keys and arrays their lengths. */
  lemma {:induction false} RedactedAlongPath(v: J, r: Rules, path: seq<Step>)
    requires Open(r, path)
    ensures ValueAt(Redacted(v, r), path)
         == match ValueAt(v, path) case Some(w) => Some(Redacted(w, r)) case None => None
    decreases path
  {
    if path != [] {
      match (v, path[0])
      case (JObj(fields), Key(k)) => if k in fields { RedactedAlongPath(fields[k], r, path[1..]); }
      case (JArr(items), Index(i)) => if i < |items| { RedactedAlongPath(items[i], r, path[1..]); }
      case _ =>
    }
  }

  lemma {:induction false} PathSplit(v: J, p: seq<Step>, q: seq<Step>)
    ensures ValueAt(v, p + q) == match ValueAt(v, p) case Some(w) => ValueAt(w, q) case None => None
    decreases p
  {
    if p == [] {
      assert p + q == q;
    } else {
      assert (p + q)[0] == p[0] && (p + q)[1..] == p[1..] + q;
      match (v, p[0])
      case (JObj(fields), Key(k)) => if k in fields { PathSplit(fields[k], p[1..], q); }
      case (JArr(items), Index(i)) => if i < |items| { PathSplit(items[i], p[1..], q); }
      case _ =>
    }
  }

  /** At every depth a sensitive key that is present holds the marker, and nothing is left
      below it. */
  lemma SensitiveIsMarked(v: J, r: Rules, path: seq<Step>, key: string, below: seq<Step>)
    requires Open(r, path) && Sensitive(r, key)
    ensures ValueAt(Redacted(v, r), path + [Key(key)])
         == if ValueAt(v, path + [Key(key)]).Some? then Some(JStr(MARKER)) else None
    ensures below != [] ==> ValueAt(Redacted(v, r), path + [Key(key)] + below) == None
  {
    RedactedAlongPath(v, r, path);
    PathSplit(v, path, [Key(key)]);
    PathSplit(Redacted(v, r), path, [Key(key)]);
    PathSplit(Redacted(v, r), path + [Key(key)], below);
  }

  ghost predicate Clear(r: Rules, path: seq<Step>) {
    forall i | 0 <= i < |path| :: path[i].Key? ==> !Secret(r, path[i].k)
  }

  /** Behind keys none of which spells a secret one: a key that does holds the marker, any other
      what it held, redacted, and so do texts and bare words. */
  lemma SecretKeysAreMarked(v: J, r: Rules, path: seq<Step>, key: string)
    requires PlainKeys(r) && Clear(r, path) && ValueAt(v, path + [Key(key)]).Some?
    ensures var was, now := ValueAt(v, path + [Key(key)]).value, ValueAt(Redacted(v, r), path + [Key(key)]);
      && (Secret(r, key) ==> now == Some(JStr(MARKER)))
      && (!Secret(r, key) ==> now == Some(Redacted(was, r)))
      && (!Secret(r, key) && was.JStr? ==> now == Some(JStr(r.scrub(was.s))))
      && (!Secret(r, key) && was.JAtom? ==> now == Some(was))
  {
    forall i | 0 <= i < |path| && path[i].Key? ensures !Sensitive(r, path[i].k) { SensitiveIsSecret(r, path[i].k); }
    SensitiveIsSecret(r, key);
    if Secret(r, key) {
      SensitiveIsMarked(v, r, path, key, []);
    } else {
      OpenGrows(r, path, key);
      RedactedAlongPath(v, r, path + [Key(key)]);
    }
  }

  lemma OpenGrows(r: Rules, path: seq<Step>, key: string)
    requires Open(r, path) && !Sensitive(r, key)
    ensures Open(r, path + [Key(key)])
  {
    var more := path + [Key(key)];
    forall i | 0 <= i < |more| && more[i].Key? ensures !Sensitive(r, more[i].k) {
      if i < |path| { assert more[i] == path[i]; }
    }
  }

  // ---- what the output can depend on ----

  /** Equal but for what is under sensitive keys and what pattern redaction hides. */
  predicate LookAlike(v: J, w: J, r: Rules)
    decreases v
  {
    match (v, w)
    case (JObj(f), JObj(g)) =>
      f.Keys == g.Keys && forall k | k in f && !Sensitive(r, k) :: LookAlike(f[k], g[k], r)
    case (JArr(a), JArr(b)) => |a| == |b| && forall i | 0 <= i < |a| :: LookAlike(a[i], b[i], r)
    case (JStr(s), JStr(t)) => r.scrub(s) == r.scrub(t)
    case _ => v == w
  }

  /** The output tells two inputs apart exactly when they differ outside sensitive keys: no
      secret shows, and nothing else is hidden. */
  lemma {:induction false} OutputHidesExactlySecrets(v: J, w: J, r: Rules)
    ensures Redacted(v, r) == Redacted(w, r) <==> LookAlike(v, w, r)
    decreases v
  {
    match (v, w)
    case (JObj(f), JObj(g)) => ObjectsAlike(f, g, r, v, w);
    case (JArr(a), JArr(b)) => ArraysAlike(a, b, r, v, w);
    case _ =>
  }

  lemma {:induction false} ObjectsAlike(f: map<string, J>, g: map<string, J>, r: Rules, v: J, w: J)
    requires v == JObj(f) && w == JObj(g)
    ensures Redacted(v, r) == Redacted(w, r) <==> LookAlike(v, w, r)
    decreases v, 0
  {
    var rf, rg := Redacted(v, r).fields, Redacted(w, r).fields;
    assert rf.Keys == f.Keys && rg.Keys == g.Keys;
    forall k | k in f && k in g && !Sensitive(r, k)
      ensures rf[k] == rg[k] <==> LookAlike(f[k], g[k], r)
    {
      OutputHidesExactlySecrets(f[k], g[k], r);
    }
    if LookAlike(v, w, r) {
      assert forall k | k in rf :: rf[k] == rg[k];
      assert rf == rg;
    }
    if rf == rg {
      assert forall k | k in f && !Sensitive(r, k) :: rf[k] == rg[k];
    }
  }

  lemma {:induction false} ArraysAlike(a: seq<J>, b: seq<J>, r: Rules, v: J, w: J)
    requires v == JArr(a) && w == JArr(b)
    ensures Redacted(v, r) == Redacted(w, r) <==> LookAlike(v, w, r)
    decreases v, 0
  {
    var ra, rb := Redacted(v, r).items, Redacted(w, r).items;
    forall i | 0 <= i < |a| && i < |b| ensures ra[i] == rb[i] <==> LookAlike(a[i], b[i], r) {
      OutputHidesExactlySecrets(a[i], b[i], r);
    }
    if LookAlike(v, w, r) {
      assert ra == rb;
    }
    if ra == rb {
      assert |a| == |b| && forall i | 0 <= i < |a| :: ra[i] == rb[i];
    }
  }

  /** Redacting twice is redacting once, when pattern redaction is stable; switched off it is. */
  lemma {:induction false} RedactIdempotent(v: J, r: Rules)
    requires forall s: string :: r.scrub(r.scrub(s)) == r.scrub(s)
    ensures Redacted(Redacted(v, r), r) == Redacted(v, r)
    decreases v
  {
    match v
    case JObj(fields) =>
      forall k | k in fields ensures Redacted(Redacted(fields[k], r), r) == Redacted(fields[k], r) {
        RedactIdempotent(fields[k], r);
      }
      assert Redacted(Redacted(v, r), r).fields == Redacted(v, r).fields;
    case JArr(items) =>
      forall i | 0 <= i < |items| ensures Redacted(Redacted(items[i], r), r) == Redacted(items[i], r) {
        RedactIdempotent(items[i], r);
      }
      assert Redacted(Redacted(v, r), r).items == Redacted(v, r).items;
    case _ =>
  }

  // ---- RedactJSONBytes ----

  /** encoding/json: what Unmarshal makes of bytes and Marshal of a tree. */
  datatype Codec = Codec(parse: seq<byte> -> Option<J>, marshal: J -> Option<seq<byte>>)

  function AsciiBytes(s: string): seq<byte> {
    seq(|s|, i requires 0 <= i < |s| => ((s[i] as int) % 128) as byte)
  }

  /** The 49 bytes that stand for a body that cannot be parsed or printed. */
  const FALLBACK_TEXT: string := "{" + "\"_redaction\":\"failed\",\"_value\":\"***redacted***\"}"
  const FALLBACK := AsciiBytes(FALLBACK_TEXT)

  function RedactBytes(input: seq<byte>, max: int, r: Rules, c: Codec): (out: (seq<byte>, bool))
    ensures max > 0 ==> |out.0| <= max
    ensures max <= 0 ==> out.0 == []
  {
    if input == [] then ([], false)
    else
      var tree := c.parse(input);
      var text := if tree.Some? then c.marshal(Redacted(tree.value, r)) else None;
      if text.Some? then Truncated(text.value, max)
      else
        var out := Truncated(FALLBACK, max).0;
        (out, |out| >= max && max > 0)
  }

  /** What is logged of a JSON body cannot depend on its secrets. */
  lemma SecretsStayOut(a: seq<byte>, b: seq<byte>, max: int, r: Rules, c: Codec)
    requires a != [] && b != []
    requires c.parse(a).Some? == c.parse(b).Some?
    requires c.parse(a).Some? ==> LookAlike(c.parse(a).value, c.parse(b).value, r)
    ensures RedactBytes(a, max, r, c) == RedactBytes(b, max, r, c)
  {
    if c.parse(a).Some? { OutputHidesExactlySecrets(c.parse(a).value, c.parse(b).value, r); }
  }

  /** Bytes that were redacted and not cut stay as they are when redacted again, for a codec
      that reads back what it prints. */
  lemma RedactBytesStable(input: seq<byte>, max: int, r: Rules, c: Codec)
    requires forall s: string :: r.scrub(r.scrub(s)) == r.scrub(s)
    requires forall t: J :: c.marshal(t).Some? ==> c.parse(c.marshal(t).value) == Some(t)
    requires input != [] && c.parse(input).Some? && c.marshal(Redacted(c.parse(input).value, r)).Some?
    requires !RedactBytes(input, max, r, c).1
    ensures RedactBytes(RedactBytes(input, max, r, c).0, max, r, c) == RedactBytes(input, max, r, c)
  {
    RedactIdempotent(c.parse(input).value, r);
  }

  /** Parsing or printing fails, and the fallback stands in for the body. */
  predicate FallsBack(input: seq<byte>, r: Rules, c: Codec) {
    input != [] && (c.parse(input).Some? ==> c.marshal(Redacted(c.parse(input).value, r)).None?)
  }

  /** Then the truncated flag says whether the fallback was cut, except where the limit is the
      fallback's own length: there it claims a cut that did not happen. */
  lemma FallbackFlag(input: seq<byte>, max: int, r: Rules, c: Codec)
    requires FallsBack(input, r, c)
    ensures RedactBytes(input, max, r, c) == if max <= 0 then ([], false) else (Prefix(FALLBACK, max), max <= 49)
    ensures max > 0 ==> (RedactBytes(input, max, r, c).1 == Truncated(FALLBACK, max).1 <==> max != 49)
  {
    FallbackText();
  }

  lemma FallbackText()
    ensures |FALLBACK| == 49 && FALLBACK[0] == 123
  {
    assert FALLBACK_TEXT[0] == '{' && ('{' as int) % 128 == 123;
  }

  // ---- httplog.CaptureBody ----

  function Kind(contentType: string): string { Lower(Trim(contentType)) }

  const BINARY_KINDS: seq<string> := ["multipart/", "image/", "audio/", "video/"]
  const BINARY_WORDS: seq<string> :=
    ["application/" + "octet-stream", "application/" + "pdf", "application/" + "zip", "application/" + "gzip"]
  const TEXT_WORDS: seq<string> :=
    ["application/" + "json", "+json", "application/" + "xml", "application/" + "x-www-form-urlencoded"]
  const JSON_WORDS: seq<string> := ["application/" + "json", "+json"]

  predicate StartsWithAny(ct: string, words: seq<string>) {
    exists i :: 0 <= i < |words| && StartsWith(ct, words[i])
  }

  predicate ContainsAny(ct: string, words: seq<string>) {
    exists i :: 0 <= i < |words| && Contains(ct, words[i])
  }

  predicate SafeType(contentType: string) {
    var ct := Kind(contentType);
    && ct != "" && !StartsWithAny(ct, BINARY_KINDS) && !ContainsAny(ct, BINARY_WORDS)
    && (StartsWithAny(ct, ["text/"]) || ContainsAny(ct, TEXT_WORDS))
  }

  predicate JsonType(contentType: string) { ContainsAny(Kind(contentType), JSON_WORDS) }

  // ---- which content types these are ----

  ghost predicate StartsAlikeAny(contentType: string, words: seq<string>) {
    exists i :: 0 <= i < |words| && StartsAlike(contentType, words[i])
  }

  ghost predicate HasAlikeAny(contentType: string, words: seq<string>) {
    exists i :: 0 <= i < |words| && HasAlike(contentType, words[i])
  }

  predicate AllWords(words: seq<string>) { forall i | 0 <= i < |words| :: NoWhite(words[i]) }

  lemma AnyStart(contentType: string, words: seq<string>)
    requires AllWords(words)
    ensures StartsWithAny(Kind(contentType), words) <==> StartsAlikeAny(contentType, words)
    ensures StartsWithAny(Kind(contentType), words) ==> Kind(contentType) != ""
  {
    forall i | 0 <= i < |words|
      ensures StartsWith(Kind(contentType), words[i]) <==> StartsAlike(contentType, words[i])
    {
      StartsIs(contentType, words[i]);
    }
  }

  lemma AnyWord(contentType: string, words: seq<string>)
    requires AllWords(words)
    ensures ContainsAny(Kind(contentType), words) <==> HasAlikeAny(contentType, words)
    ensures ContainsAny(Kind(contentType), words) ==> Kind(contentType) != ""
  {
    forall i | 0 <= i < |words|
      ensures Contains(Kind(contentType), words[i]) <==> HasAlike(contentType, words[i])
    {
      ContainsIs(contentType, words[i]);
    }
  }

  lemma KindsAreWords()
    ensures AllWords(BINARY_KINDS) && AllWords(["text/"])
  {
  }

  lemma ApplicationWord(rest: string)
    requires NoWhite(rest)
    ensures NoWhite("application/" + rest)
  {
    assert NoWhite("application/");
  }

  lemma BinaryAreWords()
    ensures AllWords(BINARY_WORDS)
  {
    ApplicationWord("octet-stream");
    ApplicationWord("pdf");
    ApplicationWord("zip");
    ApplicationWord("gzip");
  }

  lemma TextsAreWords()
    ensures AllWords(TEXT_WORDS)
  {
    ApplicationWord("json");
    ApplicationWord("xml");
    ApplicationWord("x-www-form-urlencoded");
    assert NoWhite("+json");
  }

  /** Which content types are captured, said of the text itself: in any case, with white space
      around and parameters behind. */
  lemma SafeTypeIs(contentType: string)
    ensures SafeType(contentType) <==>
      && !StartsAlikeAny(contentType, ["multipart/", "image/", "audio/", "video/"])
      && !HasAlikeAny(contentType,
           ["application/" + "octet-stream", "application/" + "pdf", "application/" + "zip", "application/" + "gzip"])
      && (StartsAlikeAny(contentType, ["text/"])
          || HasAlikeAny(contentType,
               ["application/" + "json", "+json", "application/" + "xml",
                "application/" + "x-www-form-urlencoded"]))
  {
    KindsAreWords();
    BinaryAreWords();
    TextsAreWords();
    AnyStart(contentType, BINARY_KINDS);
    AnyWord(contentType, BINARY_WORDS);
    AnyStart(contentType, ["text/"]);
    AnyWord(contentType, TEXT_WORDS);
  }

  lemma JsonTypeIs(contentType: string)
    ensures JsonType(contentType) <==> HasAlikeAny(contentType, ["application/" + "json", "+json"])
  {
    ApplicationWord("json");
    assert NoWhite("+json");
    AnyWord(contentType, JSON_WORDS);
  }

  datatype BodyCapture = BodyCapture(value: seq<byte>, truncated: bool, skipped: bool)

  function Limit(max: int): int { if max <= 0 then 4096 else max }

  function CaptureBody(contentType: string, body: seq<byte>, max: int, r: Rules, c: Codec): (out: BodyCapture)
    ensures |out.value| <= Limit(max)
    ensures out.skipped <==> body != [] && !SafeType(contentType)
    ensures out.skipped ==> out.value == [] && !out.truncated
  {
    if body == [] then BodyCapture([], false, false)
    else if !SafeType(contentType) then BodyCapture([], false, true)
    else
      var out := if JsonType(contentType) then RedactBytes(body, Limit(max), r, c) else Truncated(body, Limit(max));
      BodyCapture(out.0, out.1, false)
  }

  /** Without a limit of its own a body is captured as with 4096, with one as with that. */
  lemma DefaultLimit(contentType: string, body: seq<byte>, max: int, r: Rules, c: Codec)
    ensures max <= 0 ==> CaptureBody(contentType, body, max, r, c) == CaptureBody(contentType, body, 4096, r, c)
    ensures SafeType(contentType) && !JsonType(contentType) ==>
              var out := CaptureBody(contentType, body, max, r, c);
              (out.value, out.truncated) == Truncated(body, if max > 0 then max else 4096)
  {
  }

  /** Whatever the content type, JSON is never captured with its secrets: bodies that differ
      only in those are captured alike. */
  lemma CapturedAlike(contentType: string, a: seq<byte>, b: seq<byte>, max: int, r: Rules, c: Codec)
    requires a != [] && b != [] && JsonType(contentType)
    requires c.parse(a).Some? == c.parse(b).Some?
    requires c.parse(a).Some? ==> LookAlike(c.parse(a).value, c.parse(b).value, r)
    ensures CaptureBody(contentType, a, max, r, c) == CaptureBody(contentType, b, max, r, c)
  {
    SecretsStayOut(a, b, Limit(max), r, c);
  }

  /** For content types that are not JSON, capturing from the prefix read ahead gives the same
      value and flag as capturing from the whole body. */
  lemma PrefixCapturesTheSame(contentType: string, body: seq<byte>, max: nat, r: Rules, c: Codec)
    requires max > 0 && !JsonType(contentType)
    ensures CaptureBody(contentType, Prefix(body, max + 1), max, r, c) == CaptureBody(contentType, body, max, r, c)
  {
    ReadAheadSuffices(max, max + 1);
    assert Prefix(body, max + 1) == [] <==> body == [];
  }

  // ---- JSON bodies that are cut ----

  /** A body longer than the prefix read ahead, when that prefix does not parse, is logged as
      the fallback, and from a limit of 50 on not even as truncated, however well-formed the
      whole is. */
  lemma CutJsonFallsBack(contentType: string, body: seq<byte>, max: nat, r: Rules, c: Codec)
    requires JsonType(contentType) && SafeType(contentType) && max > 0 && |body| > max + 1
    requires c.parse(body[..max + 1]).None?
    ensures CaptureBody(contentType, Prefix(body, max + 1), max, r, c)
         == BodyCapture(Prefix(FALLBACK, max), max <= 49, false)
  {
    var cut := body[..max + 1];
    assert |cut| == max + 1;
    FallbackFlag(cut, max, r, c);
  }

  /** The JSON string literal of n letters, two bytes longer than its text. */
  function Literal(n: nat): seq<byte> { [QUOTE] + seq(n, _ => LETTER) + [QUOTE] }

  const QUOTE: byte := 34
  const LETTER: byte := 97

  /** The codec parses the literal of n letters, prints what is left of it by redaction as
      something that starts with a quote, and rejects it unterminated. */
  predicate ReadsLiteral(c: Codec, r: Rules, n: nat) {
    var tree := c.parse(Literal(n));
    && tree.Some? && c.parse(Literal(n)[..n + 1]).None?
    && var text := c.marshal(Redacted(tree.value, r));
       text.Some? && text.value != [] && text.value[0] == QUOTE
  }

  lemma LiteralIsLost(contentType: string, max: nat, r: Rules, c: Codec)
    requires JsonType(contentType) && SafeType(contentType) && max > 0 && ReadsLiteral(c, r, max)
    ensures CaptureBody(contentType, Prefix(Literal(max), max + 1), max, r, c).value
         != CaptureBody(contentType, Literal(max), max, r, c).value
  {
    var body := Literal(max);
    CutJsonFallsBack(contentType, body, max, r, c);
    FallbackText();
    assert Prefix(FALLBACK, max)[0] == 123;
    assert CaptureBody(contentType, body, max, r, c).value[0] == QUOTE;
  }

  /** For JSON the prefix read ahead captures every body of up to `bound` bytes like the whole
      body if and only if none of them is longer than that prefix. */
  lemma JsonPrefixSuffices(contentType: string, max: nat, bound: nat, r: Rules, c: Codec)
    requires JsonType(contentType) && SafeType(contentType) && max > 0 && ReadsLiteral(c, r, max)
    ensures (forall body: seq<byte> | |body| <= bound ::
               CaptureBody(contentType, Prefix(body, max + 1), max, r, c) == CaptureBody(contentType, body, max, r, c))
       <==> bound <= max + 1
  {
    if bound > max + 1 {
      LiteralIsLost(contentType, max, r, c);
      assert |Literal(max)| <= bound;
    }
  }

  /** A longer body is captured alike where its prefix means the same, secrets aside: where it
      goes on with white space, say. */
  lemma PaddedJsonIsKept(contentType: string, body: seq<byte>, max: nat, r: Rules, c: Codec)
    requires JsonType(contentType) && body != []
    requires var cut := c.parse(Prefix(body, max + 1));
             && cut.Some? == c.parse(body).Some?
             && (cut.Some? ==> LookAlike(cut.value, c.parse(body).value, r))
    ensures CaptureBody(contentType, Prefix(body, max + 1), max, r, c) == CaptureBody(contentType, body, max, r, c)
  {
    CapturedAlike(contentType, Prefix(body, max + 1), body, max, r, c);
  }

  /** What is logged of a JSON response written without empty writes: its first `max` bytes go
      through CaptureBody, and either flag counts. */
  function CaptureResponse(contentType: string, all: seq<byte>, max: nat, r: Rules, c: Codec): (seq<byte>, bool) {
    var out := CaptureBody(contentType, Prefix(all, max), max, r, c);
    (out.value, out.truncated || |all| > max)
  }

  /** That is what the whole response would be logged as, for all responses of up to `bound`
      bytes, if and only if none of them is longer than the buffer. */
  lemma JsonResponseSuffices(contentType: string, max: nat, bound: nat, r: Rules, c: Codec)
    requires JsonType(contentType) && SafeType(contentType) && max > 0 && ReadsLiteral(c, r, max - 1)
    ensures (forall all: seq<byte> | |all| <= bound ::
               var whole := CaptureBody(contentType, all, max, r, c);
               CaptureResponse(contentType, all, max, r, c) == (whole.value, whole.truncated))
       <==> bound <= max
  {
    if bound > max {
      LiteralResponseIsLost(contentType, max, r, c);
      assert |Literal(max - 1)| <= bound;
    }
  }

  lemma LiteralResponseIsLost(contentType: string, max: nat, r: Rules, c: Codec)
    requires JsonType(contentType) && SafeType(contentType) && max > 0 && ReadsLiteral(c, r, max - 1)
    ensures CaptureResponse(contentType, Literal(max - 1), max, r, c).0
         != CaptureBody(contentType, Literal(max - 1), max, r, c).value
  {
    var all := Literal(max - 1);
    var cut := all[..max];
    assert cut == Prefix(all, max) && cut != [] && c.parse(cut).None?;
    FallbackFlag(cut, max, r, c);
    FallbackText();
    assert Prefix(FALLBACK, max)[0] == 123;
    assert CaptureBody(contentType, all, max, r, c).value[0] == QUOTE;
  }
}
