/** strconv.AppendQuote, its inverse, and the strings on which it agrees with JSON. */
module GoQuote {
  import opened Options

  /** One step of decoding a Go string as UTF-8: a rune, together with what strconv's table
      of printable runes says of it, or a byte that belongs to no rune. */
  datatype Sym = Rune(c: char, shown: bool) | Bad(b: nat)

  type Text = seq<Sym>

  predicate WfSym(s: Sym) {
    match s
    case Rune(c, shown) => c as int < 0x80 ==> (shown <==> ' ' <= c <= '~')
    case Bad(b) => 0x80 <= b < 0x100
  }

  predicate WfText(t: Text) { forall i | 0 <= i < |t| :: WfSym(t[i]) }

  // ---- hexadecimal ----

  function Hex(n: nat): char
    requires n < 16
  {
    "0123456789abcdef"[n]
  }

  function HexVal(c: char): Option<nat> {
    if '0' <= c <= '9' then Some(c as int - '0' as int)
    else if 'a' <= c <= 'f' then Some(c as int - 'a' as int + 10)
    else if 'A' <= c <= 'F' then Some(c as int - 'A' as int + 10)
    else None
  }

  function Pow16(k: nat): nat { if k == 0 then 1 else 16 * Pow16(k - 1) }

  /** The last k hexadecimal digits of v. */
  function HexN(v: nat, k: nat): (h: string)
    ensures |h| == k && forall i | 0 <= i < k :: ' ' < h[i] <= '~' && h[i] != '\\' && h[i] != '"'
  {
    if k == 0 then [] else HexN(v / 16, k - 1) + [Hex(v % 16)]
  }

  /** The number that the first k characters of t write in hexadecimal. */
  function ReadHex(t: string, k: nat): Option<nat>
    requires k <= |t|
  {
    if k == 0 then Some(0)
    else match (ReadHex(t, k - 1), HexVal(t[k - 1]))
      case (Some(hi), Some(lo)) => Some(16 * hi + lo)
      case _ => None
  }

  lemma {:induction false} ReadHexN(v: nat, k: nat, rest: string)
    requires v < Pow16(k)
    ensures ReadHex(HexN(v, k) + rest, k) == Some(v)
  {
    if k > 0 {
      var last := [Hex(v % 16)];
      ReadHexN(v / 16, k - 1, last + rest);
      assert HexN(v, k) + rest == HexN(v / 16, k - 1) + (last + rest);
      assert HexVal(Hex(v % 16)) == Some(v % 16);
    }
  }

  // ---- quoting ----

  /** The escape letters that stand for one control character in Go; a and v are not JSON's. */
  function ShortEscape(code: int): Option<char> {
    match code
    case 7 => Some('a') case 8 => Some('b') case 12 => Some('f') case 10 => Some('n')
    case 13 => Some('r') case 9 => Some('t') case 11 => Some('v') case _ => None
  }

  function QuoteSym(s: Sym): string {
    match s
    case Bad(b) => "\\x" + HexN(b, 2)
    case Rune(c, shown) =>
      var code := c as int;
      if c == '"' || c == '\\' then ['\\', c]
      else if shown then [c]
      else if ShortEscape(code).Some? then ['\\', ShortEscape(code).value]
      else if c < ' ' || code == 0x7f then "\\x" + HexN(code, 2)
      else if code < 0x10000 then "\\u" + HexN(code, 4)
      else "\\U" + HexN(code, 8)
  }

  function QuoteBody(t: Text): string {
    if t == [] then [] else QuoteSym(t[0]) + QuoteBody(t[1..])
  }

  function Quote(t: Text): string { "\"" + QuoteBody(t) + "\"" }

  // ---- reading it back ----

  function Scalar(v: nat): Option<char> {
    if v < 0xD800 || 0xE000 <= v < 0x11_0000 then Some(v as char) else None
  }

  function LetterCode(c: char): Option<char> {
    match c
    case 'a' => Some(7 as char) case 'b' => Some(8 as char) case 'f' => Some(12 as char)
    case 'n' => Some(10 as char) case 'r' => Some(13 as char) case 't' => Some(9 as char)
    case 'v' => Some(11 as char) case _ => None
  }

  function HexRune(t: string, k: nat): Option<(Sym, nat)> {
    if |t| < k + 2 then None
    else match ReadHex(t[2..], k)
      case None => None
      case Some(v) =>
        if k == 2 && v >= 0x80 then Some((Bad(v), 4))
        else match Scalar(v) case None => None case Some(c) => Some((Rune(c, false), k + 2))
  }

  /** The first symbol of a quoted body and how many characters it takes. */
  function ReadSym(t: string): (r: Option<(Sym, nat)>)
    requires t != []
    ensures r.Some? ==> 1 <= r.value.1 <= |t|
  {
    if t[0] == '"' then None
    else if t[0] != '\\' then Some((Rune(t[0], true), 1))
    else if |t| < 2 then None
    else if t[1] == '"' || t[1] == '\\' then Some((Rune(t[1], true), 2))
    else if t[1] == 'x' then HexRune(t, 2)
    else if t[1] == 'u' then HexRune(t, 4)
    else if t[1] == 'U' then HexRune(t, 8)
    else match LetterCode(t[1]) case None => None case Some(c) => Some((Rune(c, false), 2))
  }

  function Unquote(body: string): Option<Text> {
    if body == [] then Some([])
    else match ReadSym(body)
      case None => None
      case Some((s, n)) =>
        match Unquote(body[n..]) case None => None case Some(t) => Some([s] + t)
  }

  lemma HexRuneReads(s: Sym, v: nat, k: nat, letter: char, rest: string)
    requires v < Pow16(k)
    requires (s == Bad(v) && k == 2 && v >= 0x80) || ((k != 2 || v < 0x80) && Scalar(v).Some? && s == Rune(Scalar(v).value, false))
    ensures HexRune(['\\', letter] + HexN(v, k) + rest, k) == Some((s, k + 2))
  {
    ReadHexN(v, k, rest);
    assert (['\\', letter] + HexN(v, k) + rest)[2..] == HexN(v, k) + rest;
  }

  lemma ReadSymQuoted(s: Sym, rest: string)
    requires WfSym(s)
    ensures ReadSym(QuoteSym(s) + rest) == Some((s, |QuoteSym(s)|))
  {
    assert Pow16(2) == 0x100;
    assert Pow16(4) == 0x1_0000 by { assert Pow16(3) == 0x1000; }
    assert Pow16(8) == 0x1_0000_0000 by { assert Pow16(6) == 0x100_0000; }
    match s
    case Bad(b) => HexRuneReads(s, b, 2, 'x', rest);
    case Rune(c, shown) =>
      var code := c as int;
      if c != '"' && c != '\\' && !shown && ShortEscape(code).None? {
        if c < ' ' || code == 0x7f { HexRuneReads(s, code, 2, 'x', rest); }
        else if code < 0x10000 { HexRuneReads(s, code, 4, 'u', rest); }
        else { HexRuneReads(s, code, 8, 'U', rest); }
      }
  }

  /** Quoting loses nothing: every text comes back, byte for byte and rune for rune. */
  lemma {:induction false} UnquoteQuote(t: Text)
    requires WfText(t)
    ensures Unquote(QuoteBody(t)) == Some(t)
  {
    if t != [] {
      var head, tail := QuoteSym(t[0]), QuoteBody(t[1..]);
      ReadSymQuoted(t[0], tail);
      assert (head + tail)[|head|..] == tail;
      UnquoteQuote(t[1..]);
      assert [t[0]] + t[1..] == t;
    }
  }

  /** So two texts that print alike are the same text. */
  lemma QuoteInjective(t: Text, u: Text)
    requires WfText(t) && WfText(u) && QuoteBody(t) == QuoteBody(u)
    ensures t == u
  {
    UnquoteQuote(t);
    UnquoteQuote(u);
  }

  // ---- JSON strings, section 7 of RFC 8259 ----

  function JsonEscape(c: char): Option<char> {
    match c
    case '"' => Some('"') case '\\' => Some('\\') case '/' => Some('/')
    case 'b' => Some(8 as char) case 'f' => Some(12 as char) case 'n' => Some(10 as char)
    case 'r' => Some(13 as char) case 't' => Some(9 as char) case _ => None
  }

  /** Two escapes that are the halves of a surrogate pair. */
  function Paired(v: nat, w: nat): (c: char)
    requires 0xD800 <= v < 0xDC00 <= w < 0xE000
  {
    (0x1_0000 + (v - 0xD800) * 0x400 + (w - 0xDC00)) as char
  }

  /** What a \u escape for half of a surrogate pair denotes, with the other half if it follows:
      a half alone is read as U+FFFD, as encoding/json does. */
  function JsonHalf(t: string, v: nat): (r: (char, nat))
    requires |t| >= 6
    ensures 6 <= r.1 <= |t|
  {
    var alone := (0xFFFD as char, 6);
    if 0xD800 <= v < 0xDC00 && |t| >= 12 && t[6] == '\\' && t[7] == 'u' then
      match ReadHex(t[8..], 4)
      case Some(w) => if 0xDC00 <= w < 0xE000 then (Paired(v, w), 12) else alone
      case None => alone
    else alone
  }

  /** The first character a JSON string body denotes and how many characters write it. */
  function JsonChar(t: string): (r: Option<(char, nat)>)
    requires t != []
    ensures r.Some? ==> 1 <= r.value.1 <= |t|
  {
    if t[0] == '"' || t[0] < ' ' then None
    else if t[0] != '\\' then Some((t[0], 1))
    else if |t| < 2 then None
    else if t[1] == 'u' then
      if |t| < 6 then None
      else match ReadHex(t[2..], 4)
        case None => None
        case Some(v) => match Scalar(v) case None => Some(JsonHalf(t, v)) case Some(c) => Some((c, 6))
    else match JsonEscape(t[1]) case None => None case Some(c) => Some((c, 2))
  }

  /** What a JSON parser reads between the quotes, or None if it is not a JSON string body. */
  function JsonRead(body: string): Option<string> {
    if body == [] then Some([])
    else match JsonChar(body)
      case None => None
      case Some((c, n)) => match JsonRead(body[n..]) case None => None case Some(cs) => Some([c] + cs)
  }

  /** Go's escape for this symbol is also JSON's. Not so for bytes outside UTF-8, for bell,
      vertical tab, delete and the other control characters without a letter of their own,
      and for unprintable runes above the basic plane. */
  predicate JsonSafe(s: Sym) {
    s.Rune? && (s.shown || s.c as int in {8, 9, 10, 12, 13} || 0x80 <= s.c as int < 0x1_0000)
  }

  predicate AllJsonSafe(t: Text) { forall i | 0 <= i < |t| :: JsonSafe(t[i]) }

  function Chars(t: Text): string
    requires AllJsonSafe(t)
  {
    if t == [] then [] else [t[0].c] + Chars(t[1..])
  }

  lemma JsonCharQuoted(s: Sym, rest: string)
    requires WfSym(s)
    ensures JsonChar(QuoteSym(s) + rest) == if JsonSafe(s) then Some((s.c, |QuoteSym(s)|)) else None
  {
    if s.Rune? && s.c != '"' && s.c != '\\' && !s.shown && 0x80 <= s.c as int < 0x1_0000 {
      assert Pow16(4) == 0x1_0000 by { assert Pow16(3) == 0x1000; }
      ReadHexN(s.c as int, 4, rest);
      assert (QuoteSym(s) + rest)[2..] == HexN(s.c as int, 4) + rest;
    }
  }

  /** The emitted string is a JSON string, and then one that means the text, exactly when
      every symbol's Go escape is JSON's. */
  lemma {:induction false} QuotedIsJson(t: Text)
    requires WfText(t)
    ensures JsonRead(QuoteBody(t)) == if AllJsonSafe(t) then Some(Chars(t)) else None
  {
    if t != [] {
      var head, tail := QuoteSym(t[0]), QuoteBody(t[1..]);
      JsonCharQuoted(t[0], tail);
      assert (head + tail)[|head|..] == tail;
      QuotedIsJson(t[1..]);
      assert AllJsonSafe(t) <==> JsonSafe(t[0]) && AllJsonSafe(t[1..]);
    }
  }

  /** The escaped surrogate pair for a character above the basic plane. */
  function EscapedPair(v: nat, w: nat): string { "\\u" + HexN(v, 4) + ("\\u" + HexN(w, 4)) }

  lemma PairReads(v: nat, w: nat)
    requires 0xD800 <= v < 0xDC00 <= w < 0xE000
    ensures JsonChar(EscapedPair(v, w)) == Some((Paired(v, w), 12)) && |EscapedPair(v, w)| == 12
  {
    var t, low := EscapedPair(v, w), "\\u" + HexN(w, 4);
    assert Pow16(4) == 0x1_0000 by { assert Pow16(3) == 0x1000; }
    ReadHexN(v, 4, low);
    ReadHexN(w, 4, []);
    assert t[2..] == HexN(v, 4) + low;
    assert t[8..] == HexN(w, 4) + [];
    PairAt(t, v, w);
  }

  lemma PairAt(t: string, v: nat, w: nat)
    requires |t| == 12 && t[0] == '\\' && t[1] == 'u' && t[6] == '\\' && t[7] == 'u'
    requires ReadHex(t[2..], 4) == Some(v) && ReadHex(t[8..], 4) == Some(w)
    requires 0xD800 <= v < 0xDC00 <= w < 0xE000
    ensures JsonChar(t) == Some((Paired(v, w), 12))
  {
    assert JsonHalf(t, v) == (Paired(v, w), 12);
  }

  lemma OneCharRead(t: string, c: char)
    requires t != [] && JsonChar(t) == Some((c, |t|))
    ensures JsonRead(t) == Some([c])
  {
    assert t[|t|..] == [] && JsonRead(t[|t|..]) == Some([]);
    assert [c] + [] == [c];
  }

  /** Every character above the basic plane may be written so: JSON reads it, though Go's
      quoting never writes it. */
  lemma PairIsJson(c: char)
    requires 0x1_0000 <= c as int
    ensures var v := c as int - 0x1_0000;
            JsonRead(EscapedPair(0xD800 + v / 0x400, 0xDC00 + v % 0x400)) == Some([c])
  {
    var v := c as int - 0x1_0000;
    var hi, lo := 0xD800 + v / 0x400, 0xDC00 + v % 0x400;
    PairReads(hi, lo);
    OneCharRead(EscapedPair(hi, lo), c);
  }

  /** One such text: the bell character. */
  lemma BellIsNotJson()
    ensures JsonRead(QuoteBody([Rune(7 as char, false)])) == None
  {
    QuotedIsJson([Rune(7 as char, false)]);
  }

  // ---- sizes in bytes of UTF-8 ----

  function CharBytes(c: char): nat {
    var code := c as int;
    if code < 0x80 then 1 else if code < 0x800 then 2 else if code < 0x1_0000 then 3 else 4
  }

  /** The bytes of a character in UTF-8. */
  function Utf8(c: char): seq<nat> {
    var v := c as int;
    match CharBytes(c)
    case 1 => [v]
    case 2 => [0xC0 + v / 64, 0x80 + v % 64]
    case 3 => [0xE0 + v / 4096, 0x80 + v / 64 % 64, 0x80 + v % 64]
    case _ => [0xF0 + v / 262144, 0x80 + v / 4096 % 64, 0x80 + v / 64 % 64, 0x80 + v % 64]
  }

  /** The code point that bytes encode, by the first of them, none of more bytes than needed. */
  function FromUtf8(b: seq<nat>): Option<nat> {
    if |b| == 1 && b[0] < 0x80 then Some(b[0])
    else if |b| == 2 && 0xC2 <= b[0] < 0xE0 && Tail(b) then Some((b[0] - 0xC0) * 64 + (b[1] - 0x80))
    else if |b| == 3 && 0xE0 <= b[0] < 0xF0 && Tail(b) then
      AtLeast(0x800, (b[0] - 0xE0) * 4096 + (b[1] - 0x80) * 64 + (b[2] - 0x80))
    else if |b| == 4 && 0xF0 <= b[0] < 0xF5 && Tail(b) then
      AtLeast(0x1_0000, (b[0] - 0xF0) * 262144 + (b[1] - 0x80) * 4096 + (b[2] - 0x80) * 64 + (b[3] - 0x80))
    else None
  }

  function AtLeast(least: nat, v: nat): Option<nat> { if v >= least then Some(v) else None }

  predicate Tail(b: seq<nat>) { forall i | 1 <= i < |b| :: 0x80 <= b[i] < 0xC0 }

  /** CharBytes is the length of the encoding, which can be read back. */
  lemma Utf8Reads(c: char)
    ensures |Utf8(c)| == CharBytes(c) && FromUtf8(Utf8(c)) == Some(c as nat)
  {
    var v := c as int;
    match CharBytes(c)
    case 1 =>
    case 2 => assert v / 64 >= 2;
    case 3 => Digits64(v);
    case _ =>
      Digits64(v);
      Digits64(v / 64);
      FourBytes(v);
  }

  lemma Digits64(v: nat)
    ensures v == v / 4096 * 4096 + v / 64 % 64 * 64 + v % 64
  {
    assert v / 4096 == v / 64 / 64;
  }

  lemma FourBytes(v: nat)
    ensures v / 262144 == v / 64 / 4096 && v / 4096 % 64 == v / 64 / 64 % 64
  {
  }

  function Bytes(t: string): nat { if t == [] then 0 else CharBytes(t[0]) + Bytes(t[1..]) }

  function SymBytes(s: Sym): nat { match s case Bad(_) => 1 case Rune(c, _) => CharBytes(c) }

  /** len() of the Go string. */
  function TextBytes(t: Text): nat { if t == [] then 0 else SymBytes(t[0]) + TextBytes(t[1..]) }

  lemma {:induction false} BytesAppend(a: string, b: string)
    ensures Bytes(a + b) == Bytes(a) + Bytes(b)
  {
    if a == [] {
      assert a + b == b;
    } else {
      assert (a + b)[1..] == a[1..] + b;
      BytesAppend(a[1..], b);
    }
  }

  lemma {:induction false} AsciiBytes(t: string)
    requires forall i | 0 <= i < |t| :: t[i] as int < 0x80
    ensures Bytes(t) == |t|
  {
    if t != [] { AsciiBytes(t[1..]); }
  }

  /** Quoting makes a string at most four times as long, not counting the two quotes. */
  lemma {:induction false} QuoteExpansion(t: Text)
    requires WfText(t)
    ensures Bytes(QuoteBody(t)) <= 4 * TextBytes(t)
  {
    if t != [] {
      var head := QuoteSym(t[0]);
      BytesAppend(head, QuoteBody(t[1..]));
      QuoteExpansion(t[1..]);
      if |head| > 1 { AsciiBytes(head); }
    }
  }
}
