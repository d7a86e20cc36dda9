/** Compact JSON text as a tree, its printer, and a recursive-descent reader. Strings are
    kept as the characters between their quotes, so that the same tree serves Go's quoting
    and JSON's; numbers, booleans and null are kept as the token that writes them. */
module JsonText {
  import opened Options

  datatype Node =
    | NStr(body: string)
    | NTok(tok: string)
    | NArr(items: seq<Node>)
    | NObj(fields: seq<NField>)

  datatype NField = NField(key: string, val: Node)

  predicate TokChar(c: char) { c > ' ' && c !in {'"', '\\', ',', ':', '{', '}', '[', ']'} }

  /** No unescaped quote, no dangling backslash, no raw control character. */
  predicate SafeBody(b: string) {
    if b == [] then true
    else if b[0] == '"' || b[0] < ' ' then false
    else if b[0] == '\\' then |b| >= 2 && b[1] >= ' ' && SafeBody(b[2..])
    else SafeBody(b[1..])
  }

  predicate WfNode(n: Node) {
    match n
    case NStr(body) => SafeBody(body)
    case NTok(tok) => tok != [] && forall i | 0 <= i < |tok| :: TokChar(tok[i])
    case NArr(items) => forall i | 0 <= i < |items| :: WfNode(items[i])
    case NObj(fields) => WfFields(fields)
  }

  predicate WfFields(fs: seq<NField>) {
    forall i | 0 <= i < |fs| :: SafeBody(fs[i].key) && WfNode(fs[i].val)
  }

  // ---- printing ----

  function Print(n: Node): string
    decreases n, 0
  {
    match n
    case NStr(body) => "\"" + body + "\""
    case NTok(tok) => tok
    case NArr(items) => "[" + PrintItems(items, true) + "]"
    case NObj(fields) => "{" + PrintFields(fields, true) + "}"
  }

  /** `first` says whether nothing precedes the items, as the encoder's flag does. */
  function PrintItems(items: seq<Node>, first: bool): string
    decreases items, 1
  {
    if items == [] then []
    else (if first then "" else ",") + Print(items[0]) + PrintItems(items[1..], false)
  }

  function PrintField(f: NField): string
    decreases f, 1
  {
    "\"" + f.key + "\":" + Print(f.val)
  }

  function PrintFields(fs: seq<NField>, first: bool): string
    decreases fs, 1
  {
    if fs == [] then []
    else (if first then "" else ",") + PrintField(fs[0]) + PrintFields(fs[1..], false)
  }

  // ---- reading ----

  /** The length of the string body that starts here. */
  function BodyLength(t: string): (r: Option<nat>)
    ensures r.Some? ==> r.value < |t| && t[r.value] == '"'
  {
    if t == [] then None
    else if t[0] == '"' then Some(0)
    else if t[0] == '\\' then
      if |t| < 2 then None
      else match BodyLength(t[2..]) case None => None case Some(n) => Some(n + 2)
    else match BodyLength(t[1..]) case None => None case Some(n) => Some(n + 1)
  }

  function TokLength(t: string): (n: nat)
    ensures n <= |t|
  {
    if t == [] || !TokChar(t[0]) then 0 else 1 + TokLength(t[1..])
  }

  /** One value from the front of the text, and the text after it. */
  function ReadValue(t: string): (r: Option<(Node, string)>)
    ensures r.Some? ==> |r.value.1| < |t|
    decreases |t|, 1
  {
    if t == [] then None
    else if t[0] == '"' then
      match BodyLength(t[1..])
      case None => None
      case Some(n) => Some((NStr(t[1..][..n]), t[1..][n + 1..]))
    else if t[0] == '{' then
      if |t| > 1 && t[1] == '}' then Some((NObj([]), t[2..]))
      else match ReadFields(t[1..]) case None => None case Some((fs, rest)) => Some((NObj(fs), rest))
    else if t[0] == '[' then
      if |t| > 1 && t[1] == ']' then Some((NArr([]), t[2..]))
      else match ReadItems(t[1..]) case None => None case Some((items, rest)) => Some((NArr(items), rest))
    else
      var n := TokLength(t);
      if n == 0 then None else Some((NTok(t[..n]), t[n..]))
  }

  function ReadItems(t: string): (r: Option<(seq<Node>, string)>)
    ensures r.Some? ==> |r.value.1| < |t|
    decreases |t|, 2
  {
    match ReadValue(t)
    case None => None
    case Some((n, rest)) =>
      if rest == [] then None
      else if rest[0] == ']' then Some(([n], rest[1..]))
      else if rest[0] != ',' then None
      else match ReadItems(rest[1..]) case None => None case Some((ns, after)) => Some(([n] + ns, after))
  }

  function ReadField(t: string): (r: Option<(NField, string)>)
    ensures r.Some? ==> |r.value.1| < |t|
    decreases |t|, 2
  {
    if t == [] || t[0] != '"' then None
    else match BodyLength(t[1..])
      case None => None
      case Some(n) =>
        var rest := t[1..][n + 1..];
        if rest == [] || rest[0] != ':' then None
        else match ReadValue(rest[1..]) case None => None case Some((v, after)) => Some((NField(t[1..][..n], v), after))
  }

  function ReadFields(t: string): (r: Option<(seq<NField>, string)>)
    ensures r.Some? ==> |r.value.1| < |t|
    decreases |t|, 3
  {
    match ReadField(t)
    case None => None
    case Some((f, rest)) =>
      if rest == [] then None
      else if rest[0] == '}' then Some(([f], rest[1..]))
      else if rest[0] != ',' then None
      else match ReadFields(rest[1..]) case None => None case Some((fs, after)) => Some(([f] + fs, after))
  }

  // ---- the round trip ----

  /** What may follow a value: anything a token cannot run into. */
  predicate Ends(rest: string) { rest == [] || !TokChar(rest[0]) }

  lemma {:induction false} BodyLengthOf(b: string, rest: string)
    requires SafeBody(b)
    ensures BodyLength(b + "\"" + rest) == Some(|b|)
  {
    if b != [] {
      var k := if b[0] == '\\' then 2 else 1;
      BodyLengthOf(b[k..], rest);
      assert (b + "\"" + rest)[k..] == b[k..] + "\"" + rest;
    }
  }

  lemma {:induction false} TokLengthOf(tok: string, rest: string)
    requires Ends(rest) && forall i | 0 <= i < |tok| :: TokChar(tok[i])
    ensures TokLength(tok + rest) == |tok|
  {
    if tok == [] {
      assert tok + rest == rest;
    } else {
      TokLengthOf(tok[1..], rest);
      assert (tok + rest)[1..] == tok[1..] + rest;
    }
  }

  lemma Regroup(a: string, b: string, c: string, d: string)
    ensures a + b + c + d == a + (b + c + d)
  {
  }

  lemma Inner(open: string, body: string, close: string, rest: string)
    requires |open| == 1
    ensures (open + body + close + rest)[1..] == body + close + rest
  {
  }

  lemma Split(b: string, rest: string)
    ensures var u := b + "\"" + rest; u[..|b|] == b && u[|b| + 1..] == rest
  {
  }

  lemma ReadString(b: string, rest: string)
    requires SafeBody(b)
    ensures ("\"" + b + "\"" + rest)[1..] == b + "\"" + rest
    ensures var u := b + "\"" + rest; BodyLength(u) == Some(|b|) && u[..|b|] == b && u[|b| + 1..] == rest
  {
    BodyLengthOf(b, rest);
    Split(b, rest);
    Regroup("\"", b, "\"", rest);
  }

  lemma {:induction false} ReadArray(items: seq<Node>, rest: string)
    requires forall i | 0 <= i < |items| :: WfNode(items[i])
    ensures ReadValue("[" + PrintItems(items, true) + "]" + rest) == Some((NArr(items), rest))
    decreases items, 2
  {
    var t := "[" + PrintItems(items, true) + "]" + rest;
    if items == [] {
      assert t[2..] == rest;
    } else {
      Inner("[", PrintItems(items, true), "]", rest);
      ReadPrintedItems(items, rest);
      FirstOfItems(items);
      assert t[1] == PrintItems(items, true)[0];
    }
  }

  lemma {:induction false} ReadObject(fields: seq<NField>, rest: string)
    requires WfFields(fields)
    ensures ReadValue("{" + PrintFields(fields, true) + "}" + rest) == Some((NObj(fields), rest))
    decreases fields, 3
  {
    var t := "{" + PrintFields(fields, true) + "}" + rest;
    if fields == [] {
      assert t[2..] == rest;
    } else {
      Inner("{", PrintFields(fields, true), "}", rest);
      ReadPrintedFields(fields, rest);
      assert t[1] == '"';
    }
  }

  /** Reading undoes printing, with anything behind the value. */
  lemma {:induction false} ReadPrinted(n: Node, rest: string)
    requires WfNode(n) && Ends(rest)
    ensures ReadValue(Print(n) + rest) == Some((n, rest))
    decreases n, 0
  {
    match n
    case NStr(body) =>
      ReadString(body, rest);
    case NTok(tok) =>
      TokLengthOf(tok, rest);
      assert (tok + rest)[..|tok|] == tok && (tok + rest)[|tok|..] == rest;
    case NArr(items) => ReadArray(items, rest);
    case NObj(fields) => ReadObject(fields, rest);
  }

  lemma FirstOfItems(items: seq<Node>)
    requires items != [] && WfNode(items[0])
    ensures PrintItems(items, true) != [] && PrintItems(items, true)[0] != ']'
  {
  }

  /** What follows the first element. */
  lemma ItemsTail(items: seq<Node>, rest: string) returns (tail: string)
    requires items != []
    ensures PrintItems(items, true) + "]" + rest == Print(items[0]) + tail && tail != []
    ensures if |items| == 1 then tail[0] == ']' && tail[1..] == rest
            else tail[0] == ',' && tail[1..] == PrintItems(items[1..], true) + "]" + rest
  {
    tail := PrintItems(items[1..], false) + "]" + rest;
    Regroup(Print(items[0]), PrintItems(items[1..], false), "]", rest);
    if |items| == 1 {
      assert tail == "]" + rest;
    } else {
      assert PrintItems(items[1..], false) == "," + PrintItems(items[1..], true);
      Regroup(",", PrintItems(items[1..], true), "]", rest);
    }
  }

  /** One element read, then the end of the array or the elements behind it. */
  lemma ReadOneItem(t: string, n: Node, tail: string, items: seq<Node>, rest: string)
    requires ReadValue(t) == Some((n, tail)) && tail != []
    ensures tail[0] == ']' ==> ReadItems(t) == Some(([n], tail[1..]))
    ensures tail[0] == ',' && ReadItems(tail[1..]) == Some((items, rest)) ==>
              ReadItems(t) == Some(([n] + items, rest))
  {
  }

  lemma {:induction false} ReadPrintedItems(items: seq<Node>, rest: string)
    requires items != [] && forall i | 0 <= i < |items| :: WfNode(items[i])
    ensures ReadItems(PrintItems(items, true) + "]" + rest) == Some((items, rest))
    decreases items, 1
  {
    var tail := ItemsTail(items, rest);
    ReadPrinted(items[0], tail);
    if |items| > 1 { ReadPrintedItems(items[1..], rest); }
    ReadOneItem(PrintItems(items, true) + "]" + rest, items[0], tail, items[1..], rest);
    assert items == if |items| == 1 then [items[0]] else [items[0]] + items[1..];
  }

  lemma FieldText(f: NField, rest: string)
    ensures PrintField(f) + rest == "\"" + f.key + "\"" + (":" + (Print(f.val) + rest))
  {
    assert "\":" == "\"" + ":";
  }

  lemma {:induction false} ReadPrintedField(f: NField, rest: string)
    requires SafeBody(f.key) && WfNode(f.val) && Ends(rest)
    ensures ReadField(PrintField(f) + rest) == Some((f, rest))
    decreases f, 1
  {
    var value := Print(f.val) + rest;
    var after := ":" + value;
    FieldText(f, rest);
    ReadString(f.key, after);
    assert after[1..] == value;
    ReadPrinted(f.val, rest);
  }

  /** What follows the first field. */
  lemma FieldsTail(fs: seq<NField>, rest: string) returns (tail: string)
    requires fs != []
    ensures PrintFields(fs, true) + "}" + rest == PrintField(fs[0]) + tail && tail != []
    ensures if |fs| == 1 then tail[0] == '}' && tail[1..] == rest
            else tail[0] == ',' && tail[1..] == PrintFields(fs[1..], true) + "}" + rest
  {
    tail := PrintFields(fs[1..], false) + "}" + rest;
    Regroup(PrintField(fs[0]), PrintFields(fs[1..], false), "}", rest);
    if |fs| == 1 {
      assert tail == "}" + rest;
    } else {
      assert PrintFields(fs[1..], false) == "," + PrintFields(fs[1..], true);
      Regroup(",", PrintFields(fs[1..], true), "}", rest);
    }
  }

  lemma WfParts(fs: seq<NField>)
    requires fs != [] && WfFields(fs)
    ensures SafeBody(fs[0].key) && WfNode(fs[0].val) && WfFields(fs[1..])
  {
  }

  /** One field read, then the end of the object or the fields behind it. */
  lemma ReadOneField(t: string, f: NField, tail: string, fs: seq<NField>, rest: string)
    requires ReadField(t) == Some((f, tail)) && tail != []
    ensures tail[0] == '}' ==> ReadFields(t) == Some(([f], tail[1..]))
    ensures tail[0] == ',' && ReadFields(tail[1..]) == Some((fs, rest)) ==> ReadFields(t) == Some(([f] + fs, rest))
  {
  }

  lemma {:induction false} ReadFirstField(fs: seq<NField>, rest: string) returns (tail: string)
    requires fs != [] && WfFields(fs)
    ensures tail != [] && ReadField(PrintFields(fs, true) + "}" + rest) == Some((fs[0], tail))
    ensures if |fs| == 1 then tail[0] == '}' && tail[1..] == rest
            else tail[0] == ',' && tail[1..] == PrintFields(fs[1..], true) + "}" + rest
    decreases fs, 1
  {
    tail := FieldsTail(fs, rest);
    WfParts(fs);
    ReadPrintedField(fs[0], tail);
  }

  lemma {:induction false} ReadPrintedFields(fs: seq<NField>, rest: string)
    requires fs != [] && WfFields(fs)
    ensures ReadFields(PrintFields(fs, true) + "}" + rest) == Some((fs, rest))
    decreases fs, 2
  {
    var tail := ReadFirstField(fs, rest);
    if |fs| > 1 {
      WfParts(fs);
      ReadPrintedFields(fs[1..], rest);
    }
    ReadOneField(PrintFields(fs, true) + "}" + rest, fs[0], tail, fs[1..], rest);
    assert fs == if |fs| == 1 then [fs[0]] else [fs[0]] + fs[1..];
  }
}
