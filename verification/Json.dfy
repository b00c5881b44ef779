/**
 Compact JSON text as the gateway's serializer writes it (section 2 to 7 of RFC 8259),
 and the facts about it that the gateway's framing relies on: the text is one line, its
 commas and brackets nest, and it determines the value.
 */
module Json {
  import opened Common

  datatype Json =
    | Null
    | Bool(b: bool)
    | Number(n: int)
    | Text(s: string)
    | Array(items: seq<Json>)
    | Object(fields: seq<Field>)

  datatype Field = Field(name: string, value: Json)

  // ── The printer ────────────────────────────────────────────────────────────

  const HEX: string := "0123456789abcdef"

  /** Quotes, backslashes and control characters are escaped, nothing else is. */
  function Escape(c: char): (t: string) {
    if c == '"' then "\\\""
    else if c == '\\' then "\\\\"
    else if c == '\n' then "\\n"
    else if c == '\r' then "\\r"
    else if c == '\t' then "\\t"
    else if c as int == 8 then "\\b"
    else if c as int == 12 then "\\f"
    else if c as int < 32 then "\\u00" + [HEX[c as int / 16], HEX[c as int % 16]]
    else [c]
  }

  function EscapeAll(s: string): (t: string) {
    if s == "" then "" else Escape(s[0]) + EscapeAll(s[1..])
  }

  function Quote(s: string): (t: string) {
    "\"" + EscapeAll(s) + "\""
  }

  function Digits(n: nat): (t: string) {
    if n < 10 then [HEX[n]] else Digits(n / 10) + [HEX[n % 10]]
  }

  function Decimal(n: int): (t: string) {
    if n < 0 then ['-'] + Digits(-n) else Digits(n)
  }

  function Encode(j: Json): (t: string)
    decreases j, 1
  {
    match j
    case Null => "null"
    case Bool(b) => if b then "true" else "false"
    case Number(n) => Decimal(n)
    case Text(s) => Quote(s)
    case Array(items) => "[" + EncodeItems(items) + "]"
    case Object(fields) => "{" + EncodeFields(fields) + "}"
  }

  function EncodeItems(items: seq<Json>): (t: string)
    decreases items, 0
  {
    if items == [] then "" else Encode(items[0]) + (if |items| == 1 then "" else ",") + EncodeItems(items[1..])
  }

  function EncodeFields(fields: seq<Field>): (t: string)
    decreases fields, 0
  {
    if fields == [] then ""
    else
      Quote(fields[0].name) + ":" + Encode(fields[0].value)
      + (if |fields| == 1 then "" else ",") + EncodeFields(fields[1..])
  }

  // ── One line ───────────────────────────────────────────────────────────────

  ghost predicate OneLine(t: string) {
    forall i :: 0 <= i < |t| ==> t[i] != '\n' && t[i] != '\r'
  }

  lemma {:induction false} EscapeIsOneLine(s: string)
    ensures OneLine(EscapeAll(s))
  {
    if s != "" {
      OneEscapeIsOneLine(s[0]);
      EscapeIsOneLine(s[1..]);
    }
  }

  lemma OneEscapeIsOneLine(c: char)
    ensures OneLine(Escape(c))
  {
  }

  lemma {:induction false} DigitsAreDigits(n: nat)
    ensures forall i :: 0 <= i < |Digits(n)| ==> Digits(n)[i] in HEX
  {
    if n >= 10 { DigitsAreDigits(n / 10); }
  }

  /** A number's text holds digits and perhaps a sign. */
  lemma DecimalIsInert(n: int)
    ensures forall i :: 0 <= i < |Decimal(n)| ==> Inert(Decimal(n)[i]) && Decimal(n)[i] != '\n' && Decimal(n)[i] != '\r'
  {
    DigitsAreInert(if n < 0 then -n else n);
  }

  lemma DigitsAreInert(n: nat)
    ensures forall i :: 0 <= i < |Digits(n)| ==> Inert(Digits(n)[i]) && Digits(n)[i] != '\n' && Digits(n)[i] != '\r'
  {
    DigitsAreDigits(n);
  }

  /** The serializer never emits a raw line break. */
  lemma {:induction false} EncodeIsOneLine(j: Json)
    ensures OneLine(Encode(j))
    decreases j, 1
  {
    match j {
      case Number(n) => DecimalIsInert(n);
      case Text(s) => EscapeIsOneLine(s);
      case Array(items) => ItemsAreOneLine(items);
      case Object(fields) => FieldsAreOneLine(fields);
      case _ =>
    }
  }

  lemma {:induction false} ItemsAreOneLine(items: seq<Json>)
    ensures OneLine(EncodeItems(items))
    decreases items, 0
  {
    if items != [] {
      EncodeIsOneLine(items[0]);
      ItemsAreOneLine(items[1..]);
    }
  }

  lemma {:induction false} FieldsAreOneLine(fields: seq<Field>)
    ensures OneLine(EncodeFields(fields))
    decreases fields, 0
  {
    if fields != [] {
      EscapeIsOneLine(fields[0].name);
      EncodeIsOneLine(fields[0].value);
      FieldsAreOneLine(fields[1..]);
    }
  }

  // ── Nesting ────────────────────────────────────────────────────────────────

  /** Where a reader of the text stands: outside strings at some bracket depth, inside
      a string, or just after a backslash. */
  datatype Place = Plain(depth: int) | Quoted(depth: int) | Escaped(depth: int)

  function Step(p: Place, c: char): (q: Place) {
    match p
    case Plain(d) =>
      if c == '"' then Quoted(d)
      else if c == '[' || c == '{' then Plain(d + 1)
      else if c == ']' || c == '}' then Plain(d - 1)
      else p
    case Quoted(d) => if c == '"' then Plain(d) else if c == '\\' then Escaped(d) else p
    case Escaped(d) => Quoted(d)
  }

  /** Reads `t` without meeting a comma at depth `floor` or closing below it. */
  function Walk(t: string, p: Place, floor: int): (q: Option<Place>) {
    if t == "" then Some(p)
    else if p.Plain? && (p.depth < floor || (p.depth == floor && (t[0] == ',' || t[0] == ']' || t[0] == '}'))) then None
    else Walk(t[1..], Step(p, t[0]), floor)
  }

  lemma {:induction false} WalkConcat(a: string, b: string, p: Place, floor: int)
    ensures Walk(a + b, p, floor) ==
            match Walk(a, p, floor) case None => None case Some(q) => Walk(b, q, floor)
  {
    if a == "" {
      assert a + b == b;
    } else {
      assert (a + b)[0] == a[0] && (a + b)[1..] == a[1..] + b;
      WalkConcat(a[1..], b, Step(p, a[0]), floor);
    }
  }

  lemma WalkChar(c: char, p: Place, floor: int)
    ensures Walk([c], p, floor) ==
            if p.Plain? && (p.depth < floor || (p.depth == floor && (c == ',' || c == ']' || c == '}'))) then None
            else Some(Step(p, c))
  {
    assert [c][1..] == "";
    assert Walk("", Step(p, c), floor) == Some(Step(p, c));
  }

  /** Text that leaves a reader where it stood. */
  ghost predicate Neutral(t: string, k: int, floor: int) {
    Walk(t, Plain(k), floor) == Some(Plain(k))
  }

  predicate Inert(c: char) {
    c != '"' && c != '[' && c != ']' && c != '{' && c != '}' && c != ','
  }

  lemma {:induction false} InertIsNeutral(t: string, k: int, floor: int)
    requires floor <= k && forall i :: 0 <= i < |t| ==> Inert(t[i])
    ensures Neutral(t, k, floor)
  {
    if t != "" { InertIsNeutral(t[1..], k, floor); }
  }

  lemma {:induction false} EscapeStaysQuoted(s: string, k: int, floor: int)
    ensures Walk(EscapeAll(s), Quoted(k), floor) == Some(Quoted(k))
  {
    if s != "" {
      EscapeStaysQuoted(s[1..], k, floor);
      OneEscapeStaysQuoted(s[0], k, floor);
      WalkConcat(Escape(s[0]), EscapeAll(s[1..]), Quoted(k), floor);
    }
  }

  lemma OneEscapeStaysQuoted(c: char, k: int, floor: int)
    ensures Walk(Escape(c), Quoted(k), floor) == Some(Quoted(k))
  {
    var t := Escape(c);
    if |t| == 1 {
      WalkChar(c, Quoted(k), floor);
    } else {
      assert t == ['\\'] + t[1..] && t[1..] == [t[1]] + t[2..];
      WalkChar('\\', Quoted(k), floor);
      WalkConcat(['\\'], t[1..], Quoted(k), floor);
      WalkChar(t[1], Escaped(k), floor);
      WalkConcat([t[1]], t[2..], Escaped(k), floor);
      PlainCharsStayQuoted(t[2..], k, floor);
    }
  }

  lemma {:induction false} PlainCharsStayQuoted(t: string, k: int, floor: int)
    requires forall i :: 0 <= i < |t| ==> t[i] != '"' && t[i] != '\\'
    ensures Walk(t, Quoted(k), floor) == Some(Quoted(k))
  {
    if t != "" { PlainCharsStayQuoted(t[1..], k, floor); }
  }

  lemma QuoteIsNeutral(s: string, k: int, floor: int)
    requires floor <= k
    ensures Neutral(Quote(s), k, floor)
  {
    WalkChar('"', Plain(k), floor);
    EscapeStaysQuoted(s, k, floor);
    WalkChar('"', Quoted(k), floor);
    WalkConcat("\"", EscapeAll(s), Plain(k), floor);
    WalkConcat("\"" + EscapeAll(s), "\"", Plain(k), floor);
  }

  /** A JSON text is read as one unit: it closes every bracket and string it opens and
      shows no comma of its own level. */
  lemma {:induction false} EncodeIsNeutral(j: Json, k: int, floor: int)
    requires floor <= k
    ensures Neutral(Encode(j), k, floor)
    decreases j, 1
  {
    match j {
      case Null => InertIsNeutral("null", k, floor);
      case Bool(b) => InertIsNeutral(Encode(j), k, floor);
      case Number(n) =>
        DecimalIsInert(n);
        InertIsNeutral(Decimal(n), k, floor);
      case Text(s) => QuoteIsNeutral(s, k, floor);
      case Array(items) =>
        ItemsAreNeutral(items, k + 1, floor);
        Bracketed('[', EncodeItems(items), ']', k, floor);
      case Object(fields) =>
        FieldsAreNeutral(fields, k + 1, floor);
        Bracketed('{', EncodeFields(fields), '}', k, floor);
    }
  }

  lemma Bracketed(open: char, t: string, close: char, k: int, floor: int)
    requires floor <= k && Neutral(t, k + 1, floor)
    requires (open == '[' && close == ']') || (open == '{' && close == '}')
    ensures Neutral([open] + t + [close], k, floor)
  {
    WalkChar(open, Plain(k), floor);
    WalkChar(close, Plain(k + 1), floor);
    WalkConcat([open], t, Plain(k), floor);
    WalkConcat([open] + t, [close], Plain(k), floor);
  }

  lemma NeutralConcat(a: string, b: string, k: int, floor: int)
    requires Neutral(a, k, floor) && Neutral(b, k, floor)
    ensures Neutral(a + b, k, floor)
  {
    WalkConcat(a, b, Plain(k), floor);
  }

  lemma {:induction false} ItemsAreNeutral(items: seq<Json>, k: int, floor: int)
    requires floor < k
    ensures Neutral(EncodeItems(items), k, floor)
    decreases items, 0
  {
    if items != [] {
      var comma := if |items| == 1 then "" else ",";
      EncodeIsNeutral(items[0], k, floor);
      WalkChar(',', Plain(k), floor);
      ItemsAreNeutral(items[1..], k, floor);
      NeutralConcat(Encode(items[0]), comma, k, floor);
      NeutralConcat(Encode(items[0]) + comma, EncodeItems(items[1..]), k, floor);
    }
  }

  lemma {:induction false} FieldsAreNeutral(fields: seq<Field>, k: int, floor: int)
    requires floor < k
    ensures Neutral(EncodeFields(fields), k, floor)
    decreases fields, 0
  {
    if fields != [] {
      var q, v := Quote(fields[0].name), Encode(fields[0].value);
      var comma := if |fields| == 1 then "" else ",";
      QuoteIsNeutral(fields[0].name, k, floor);
      WalkChar(':', Plain(k), floor);
      EncodeIsNeutral(fields[0].value, k, floor);
      WalkChar(',', Plain(k), floor);
      FieldsAreNeutral(fields[1..], k, floor);
      NeutralConcat(q, ":", k, floor);
      NeutralConcat(q + ":", v, k, floor);
      NeutralConcat(q + ":" + v, comma, k, floor);
      NeutralConcat(q + ":" + v + comma, EncodeFields(fields[1..]), k, floor);
    }
  }

  // ── Reading an array back ──────────────────────────────────────────────────

  /** Cuts at the commas of the outermost level. */
  function Split(t: string, p: Place, word: string): (words: seq<string>) {
    if t == "" then [word]
    else if t[0] == ',' && p == Plain(0) then [word] + Split(t[1..], Plain(0), "")
    else Split(t[1..], Step(p, t[0]), word + [t[0]])
  }

  lemma {:induction false} SplitSkips(e: string, rest: string, p: Place, word: string)
    requires Walk(e, p, 0).Some?
    ensures Split(e + rest, p, word) == Split(rest, Walk(e, p, 0).value, word + e)
  {
    if e == "" {
      assert e + rest == rest && word + e == word;
    } else {
      assert (e + rest)[0] == e[0] && (e + rest)[1..] == e[1..] + rest;
      SplitSkips(e[1..], rest, Step(p, e[0]), word + [e[0]]);
      assert word + [e[0]] + e[1..] == word + e;
    }
  }

  /** The elements of an array's text. */
  function Elements(t: string): (words: seq<string>)
    requires |t| >= 2
  {
    var inner := t[1..|t| - 1];
    if inner == "" then [] else Split(inner, Plain(0), "")
  }

  function Join(texts: seq<string>): (t: string) {
    if texts == [] then "" else if |texts| == 1 then texts[0] else texts[0] + "," + Join(texts[1..])
  }

  function Encodings(items: seq<Json>): (texts: seq<string>) {
    if items == [] then [] else [Encode(items[0])] + Encodings(items[1..])
  }

  lemma EncodingsAreNotEmpty(j: Json)
    ensures Encode(j) != ""
  {
    if j.Number? { assert Digits(if j.n < 0 then -j.n else j.n) != ""; }
  }

  ghost predicate AllNeutral(texts: seq<string>) {
    forall i :: 0 <= i < |texts| ==> texts[i] != "" && Neutral(texts[i], 0, 0)
  }

  lemma {:induction false} EncodingsAreNeutral(items: seq<Json>)
    ensures AllNeutral(Encodings(items))
  {
    if items != [] {
      EncodingsAreNotEmpty(items[0]);
      EncodeIsNeutral(items[0], 0, 0);
      EncodingsAreNeutral(items[1..]);
    }
  }

  lemma {:induction false} SplitJoin(texts: seq<string>)
    requires texts != [] && AllNeutral(texts)
    ensures Split(Join(texts), Plain(0), "") == texts
  {
    SplitFirst(texts[0], if |texts| == 1 then "" else Join(texts[1..]));
    if |texts| > 1 {
      SplitJoin(texts[1..]);
      Assoc(texts[0], [','], Join(texts[1..]));
    }
  }

  lemma SplitFirst(e: string, rest: string)
    requires Neutral(e, 0, 0)
    ensures Split(e, Plain(0), "") == [e]
    ensures Split(e + ([','] + rest), Plain(0), "") == [e] + Split(rest, Plain(0), "")
  {
    assert e + "" == e && "" + e == e;
    SplitSkips(e, "", Plain(0), "");
    SplitSkips(e, [','] + rest, Plain(0), "");
    assert ([','] + rest)[1..] == rest;
  }

  lemma {:induction false} ItemsJoined(items: seq<Json>)
    ensures EncodeItems(items) == Join(Encodings(items))
  {
    if items != [] {
      ItemsJoined(items[1..]);
      JoinOneMore(Encode(items[0]), Encodings(items[1..]));
    }
  }

  lemma JoinOneMore(t: string, texts: seq<string>)
    ensures Join([t] + texts) == t + (if texts == [] then "" else ",") + Join(texts)
  {
    assert ([t] + texts)[1..] == texts;
  }

  // ── A reader for compact JSON (sections 3 to 7 of RFC 8259) ────────────────

  // White space, fractions, exponents and surrogate pairs are left out: nothing printed
  // above contains them.

  /** What a reader made of the front of a text, and what it left. */
  type Reading<T> = Option<(T, string)>

  predicate IsDigit(c: char) {
    '0' <= c <= '9'
  }

  function HexValue(c: char): (n: Option<nat>)
    ensures n.Some? ==> n.value < 16
  {
    if '0' <= c <= '9' then Some(c as int - '0' as int)
    else if 'a' <= c <= 'f' then Some(c as int - 'a' as int + 10)
    else if 'A' <= c <= 'F' then Some(c as int - 'A' as int + 10)
    else None
  }

  /** The character whose code four hexadecimal digits spell; surrogates are not joined. */
  function ReadCode(t: string): (r: Option<char>)
    requires |t| >= 4
  {
    match (HexValue(t[0]), HexValue(t[1]), HexValue(t[2]), HexValue(t[3]))
    case (Some(a), Some(b), Some(c), Some(d)) =>
      var n := ((a * 16 + b) * 16 + c) * 16 + d;
      if n < 0xD800 || 0xE000 <= n then Some(n as char) else None
    case _ => None
  }

  /** One character of a string, escaped or not. */
  function ReadChar(t: string): (r: Reading<char>)
    ensures r.Some? ==> |r.value.1| < |t|
  {
    if t == "" || t[0] == '"' || t[0] as int < 32 then None
    else if t[0] != '\\' then Some((t[0], t[1..]))
    else if |t| < 2 then None
    else
      match t[1]
      case '"' => Some(('"', t[2..]))
      case '\\' => Some(('\\', t[2..]))
      case '/' => Some(('/', t[2..]))
      case 'b' => Some((8 as char, t[2..]))
      case 'f' => Some((12 as char, t[2..]))
      case 'n' => Some(('\n', t[2..]))
      case 'r' => Some(('\r', t[2..]))
      case 't' => Some(('\t', t[2..]))
      case 'u' =>
        if |t| < 6 then None
        else (match ReadCode(t[2..6]) case Some(c) => Some((c, t[6..])) case None => None)
      case _ => None
  }

  /** A string after its opening quote, up to and with the closing one. */
  function ReadString(t: string): (r: Reading<string>)
    ensures r.Some? ==> |r.value.1| < |t|
    decreases |t|
  {
    if t != "" && t[0] == '"' then Some(("", t[1..]))
    else
      match ReadChar(t)
      case None => None
      case Some((c, rest)) =>
        match ReadString(rest)
        case None => None
        case Some((s, rest')) => Some(([c] + s, rest'))
  }

  /** Digits as far as they go. */
  function ReadDigits(t: string, n: nat): (r: (nat, string))
    ensures |r.1| <= |t| && (t != "" && IsDigit(t[0]) ==> |r.1| < |t|)
    decreases |t|
  {
    if t != "" && IsDigit(t[0]) then ReadDigits(t[1..], n * 10 + (t[0] as int - '0' as int)) else (n, t)
  }

  function ReadValue(t: string): (r: Reading<Json>)
    ensures r.Some? ==> |r.value.1| < |t|
    decreases |t|, 0
  {
    if t == "" then None
    else if t[0] == '"' then
      (match ReadString(t[1..]) case Some((s, rest)) => Some((Text(s), rest)) case None => None)
    else if t[0] == '[' then
      if |t| > 1 && t[1] == ']' then Some((Array([]), t[2..]))
      else (match ReadItems(t[1..]) case Some((items, rest)) => Some((Array(items), rest)) case None => None)
    else if t[0] == '{' then
      if |t| > 1 && t[1] == '}' then Some((Object([]), t[2..]))
      else (match ReadFields(t[1..]) case Some((fields, rest)) => Some((Object(fields), rest)) case None => None)
    else if t[0] == '-' then
      if |t| > 1 && IsDigit(t[1])
      then var (n, rest) := ReadDigits(t[1..], 0); Some((Number(-(n as int)), rest)) else None
    else if IsDigit(t[0]) then
      var (n, rest) := ReadDigits(t, 0);
      Some((Number(n), rest))
    else if |t| >= 4 && t[..4] == "null" then Some((Null, t[4..]))
    else if |t| >= 4 && t[..4] == "true" then Some((Bool(true), t[4..]))
    else if |t| >= 5 && t[..5] == "false" then Some((Bool(false), t[5..]))
    else None
  }

  /** The rest of a nonempty array after its opening bracket. */
  function ReadItems(t: string): (r: Reading<seq<Json>>)
    ensures r.Some? ==> |r.value.1| < |t|
    decreases |t|, 1
  {
    match ReadValue(t)
    case None => None
    case Some((x, rest)) =>
      if rest == "" then None
      else if rest[0] == ']' then Some(([x], rest[1..]))
      else if rest[0] != ',' then None
      else (match ReadItems(rest[1..]) case Some((xs, rest')) => Some(([x] + xs, rest')) case None => None)
  }

  /** One field: a name, a colon, a value. */
  function ReadField(t: string): (r: Reading<Field>)
    ensures r.Some? ==> |r.value.1| < |t|
    decreases |t|, 1
  {
    if t == "" || t[0] != '"' then None
    else
      match ReadString(t[1..])
      case None => None
      case Some((name, rest)) =>
        if rest == "" || rest[0] != ':' then None
        else (match ReadValue(rest[1..]) case Some((x, rest')) => Some((Field(name, x), rest')) case None => None)
  }

  /** The rest of a nonempty object after its opening brace. */
  function ReadFields(t: string): (r: Reading<seq<Field>>)
    ensures r.Some? ==> |r.value.1| < |t|
    decreases |t|, 2
  {
    match ReadField(t)
    case None => None
    case Some((f, rest)) =>
      if rest == "" then None
      else if rest[0] == '}' then Some(([f], rest[1..]))
      else if rest[0] != ',' then None
      else (match ReadFields(rest[1..]) case Some((fs, rest')) => Some(([f] + fs, rest')) case None => None)
  }

  // ── What is printed is read back ───────────────────────────────────────────

  lemma Assoc(a: string, b: string, c: string)
    ensures a + (b + c) == a + b + c
  {
  }

  lemma HexReads(i: nat)
    requires i < 16
    ensures HexValue(HEX[i]) == Some(i)
  {
  }

  lemma ControlReads(c: char, rest: string)
    requires c as int < 32
    ensures ReadChar("\\u00" + [HEX[c as int / 16], HEX[c as int % 16]] + rest) == Some((c, rest))
  {
    var t := "\\u00" + [HEX[c as int / 16], HEX[c as int % 16]] + rest;
    HexReads(c as int / 16);
    HexReads(c as int % 16);
    assert t[2..6] == ['0', '0', HEX[c as int / 16], HEX[c as int % 16]] && t[6..] == rest;
    assert HexValue('0') == Some(0);
  }

  lemma PlainReads(c: char, rest: string)
    requires Escape(c) == [c]
    ensures ReadChar([c] + rest) == Some((c, rest))
  {
    assert ([c] + rest)[1..] == rest;
  }

  lemma EscapeReads(c: char, rest: string)
    ensures ReadChar(Escape(c) + rest) == Some((c, rest))
  {
    if |Escape(c)| == 1 {
      PlainReads(c, rest);
    } else if |Escape(c)| == 2 {
      assert (Escape(c) + rest)[2..] == rest;
    } else {
      ControlReads(c, rest);
    }
  }

  /** The text of a string up to its closing quote, and what follows. */
  function Closing(s: string, rest: string): (t: string) {
    EscapeAll(s) + (['"'] + rest)
  }

  lemma PeelEscape(s: string, rest: string)
    requires s != ""
    ensures Closing(s, rest) == Escape(s[0]) + Closing(s[1..], rest)
    ensures Closing(s, rest)[0] != '"'
  {
    Assoc(Escape(s[0]), EscapeAll(s[1..]), ['"'] + rest);
    assert Escape(s[0]) != "" && Escape(s[0])[0] != '"';
  }

  lemma {:induction false} StringReads(s: string, rest: string)
    ensures ReadString(Closing(s, rest)) == Some((s, rest))
  {
    if s == "" {
      assert Closing(s, rest) == ['"'] + rest && (['"'] + rest)[1..] == rest;
    } else {
      PeelEscape(s, rest);
      EscapeReads(s[0], Closing(s[1..], rest));
      StringReads(s[1..], rest);
      CharThenString(Closing(s, rest), s[0], Closing(s[1..], rest), s[1..], rest);
      assert s == [s[0]] + s[1..];
    }
  }

  lemma CharThenString(t: string, c: char, more: string, s: string, rest: string)
    requires t != "" && t[0] != '"' && ReadChar(t) == Some((c, more)) && ReadString(more) == Some((s, rest))
    ensures ReadString(t) == Some(([c] + s, rest))
  {
  }

  lemma QuoteCloses(s: string, rest: string)
    ensures Quote(s) + rest == ['"'] + Closing(s, rest)
  {
    Assoc(['"'] + EscapeAll(s), ['"'], rest);
    Assoc(['"'], EscapeAll(s), ['"'] + rest);
  }

  lemma DigitIs(d: nat)
    requires d < 10
    ensures IsDigit(HEX[d]) && HEX[d] as int - '0' as int == d
  {
  }

  lemma ReadOneDigit(d: nat, rest: string, n: nat)
    requires d < 10
    ensures ReadDigits([HEX[d]] + rest, n) == ReadDigits(rest, n * 10 + d)
  {
    DigitIs(d);
    assert ([HEX[d]] + rest)[1..] == rest;
  }

  lemma {:induction false} DigitsRead(n: nat, rest: string)
    ensures ReadDigits(Digits(n) + rest, 0) == ReadDigits(rest, n)
  {
    if n < 10 {
      ReadOneDigit(n, rest, 0);
    } else {
      Assoc(Digits(n / 10), [HEX[n % 10]], rest);
      DigitsRead(n / 10, [HEX[n % 10]] + rest);
      ReadOneDigit(n % 10, rest, n / 10);
    }
  }

  lemma {:induction false} DigitsStart(n: nat)
    ensures Digits(n) != "" && IsDigit(Digits(n)[0])
  {
    if n >= 10 { DigitsStart(n / 10); } else { DigitIs(n); }
  }

  /** A number may not run on into what follows it. */
  predicate Stops(rest: string) {
    rest == "" || !IsDigit(rest[0])
  }

  lemma NumberReads(n: int, rest: string)
    requires Stops(rest)
    ensures ReadValue(Decimal(n) + rest) == Some((Number(n), rest))
  {
    var m := if n < 0 then -n else n;
    DigitsStart(m);
    DigitsRead(m, rest);
    if n < 0 {
      Assoc(['-'], Digits(m), rest);
      NegativeReads(m, Digits(m) + rest, rest);
    } else {
      NaturalReads(m, Digits(m) + rest, rest);
    }
  }

  lemma NegativeReads(m: nat, t: string, rest: string)
    requires t != "" && IsDigit(t[0]) && ReadDigits(t, 0) == (m, rest)
    ensures ReadValue(['-'] + t) == Some((Number(-(m as int)), rest))
  {
    assert (['-'] + t)[1..] == t;
  }

  lemma NaturalReads(m: nat, t: string, rest: string)
    requires t != "" && IsDigit(t[0]) && ReadDigits(t, 0) == (m, rest)
    ensures ReadValue(t) == Some((Number(m), rest))
  {
  }

  lemma WordReads(rest: string)
    ensures ReadValue("null" + rest) == Some((Null, rest))
    ensures ReadValue("true" + rest) == Some((Bool(true), rest))
    ensures ReadValue("false" + rest) == Some((Bool(false), rest))
  {
    assert ("null" + rest)[..4] == "null" && ("null" + rest)[4..] == rest;
    assert ("true" + rest)[..4] == "true" && ("true" + rest)[4..] == rest;
    assert ("false" + rest)[..5] == "false" && ("false" + rest)[5..] == rest;
  }

  lemma TextReads(s: string, rest: string)
    ensures ReadValue(Quote(s) + rest) == Some((Text(s), rest))
  {
    QuoteCloses(s, rest);
    StringReads(s, rest);
    assert (['"'] + Closing(s, rest))[1..] == Closing(s, rest);
  }

  /** Reading what was printed gives the value back and leaves the rest alone. */
  lemma {:induction false} ReadsBack(j: Json, rest: string)
    requires Stops(rest)
    ensures ReadValue(Encode(j) + rest) == Some((j, rest))
    decreases j, 1
  {
    match j {
      case Null => WordReads(rest);
      case Bool(_) => WordReads(rest);
      case Number(n) => NumberReads(n, rest);
      case Text(s) => TextReads(s, rest);
      case Array(items) =>
        if items != [] { ItemsReadBack(items, rest); }
        ArrayReads(items, rest);
      case Object(fields) =>
        if fields != [] { FieldsReadBack(fields, rest); }
        ObjectReads(fields, rest);
    }
  }

  lemma Wrapped(open: char, t: string, close: char, rest: string)
    ensures [open] + t + [close] + rest == [open] + (t + ([close] + rest))
  {
  }

  lemma ArrayReads(items: seq<Json>, rest: string)
    requires items != [] ==> ReadItems(EncodeItems(items) + ([']'] + rest)) == Some((items, rest))
    ensures ReadValue(Encode(Array(items)) + rest) == Some((Array(items), rest))
  {
    Wrapped('[', EncodeItems(items), ']', rest);
    if items == [] {
      assert EncodeItems([]) + ([']'] + rest) == [']'] + rest;
      EmptyArrayReads(rest);
    } else {
      ItemsStart(items, [']'] + rest);
      BracketedReads(EncodeItems(items) + ([']'] + rest), items, rest);
    }
  }

  lemma EmptyArrayReads(rest: string)
    ensures ReadValue(['['] + ([']'] + rest)) == Some((Array([]), rest))
  {
    var t := ['['] + ([']'] + rest);
    assert t[1] == ']' && t[2..] == rest;
  }

  lemma BracketedReads(inner: string, items: seq<Json>, rest: string)
    requires inner != "" && inner[0] != ']' && ReadItems(inner) == Some((items, rest))
    ensures ReadValue(['['] + inner) == Some((Array(items), rest))
  {
    assert (['['] + inner)[1..] == inner;
  }

  lemma ObjectReads(fields: seq<Field>, rest: string)
    requires fields != [] ==> ReadFields(EncodeFields(fields) + (['}'] + rest)) == Some((fields, rest))
    ensures ReadValue(Encode(Object(fields)) + rest) == Some((Object(fields), rest))
  {
    Wrapped('{', EncodeFields(fields), '}', rest);
    if fields == [] {
      assert EncodeFields([]) + (['}'] + rest) == ['}'] + rest;
      EmptyObjectReads(rest);
    } else {
      FieldsStart(fields, ['}'] + rest);
      BracedReads(EncodeFields(fields) + (['}'] + rest), fields, rest);
    }
  }

  lemma EmptyObjectReads(rest: string)
    ensures ReadValue(['{'] + (['}'] + rest)) == Some((Object([]), rest))
  {
    var t := ['{'] + (['}'] + rest);
    assert t[1] == '}' && t[2..] == rest;
  }

  lemma BracedReads(inner: string, fields: seq<Field>, rest: string)
    requires inner != "" && inner[0] != '}' && ReadFields(inner) == Some((fields, rest))
    ensures ReadValue(['{'] + inner) == Some((Object(fields), rest))
  {
    assert (['{'] + inner)[1..] == inner;
  }

  lemma FieldsStart(fields: seq<Field>, rest: string)
    requires fields != []
    ensures EncodeFields(fields) + rest != "" && (EncodeFields(fields) + rest)[0] != '}'
  {
    assert Quote(fields[0].name)[0] == '"';
  }

  lemma EncodeStart(j: Json)
    ensures Encode(j) != "" && Encode(j)[0] != ']'
  {
    if j.Number? { DigitsStart(if j.n < 0 then -j.n else j.n); }
  }

  lemma ItemsStart(items: seq<Json>, rest: string)
    requires items != []
    ensures EncodeItems(items) + rest != "" && (EncodeItems(items) + rest)[0] != ']'
  {
    EncodeStart(items[0]);
  }

  /** The text of a nonempty list of items, cut behind its first one. */
  lemma PeelItem(items: seq<Json>, rest: string)
    requires items != []
    ensures EncodeItems(items) + rest ==
            Encode(items[0]) + if |items| == 1 then rest else [','] + (EncodeItems(items[1..]) + rest)
  {
    Peel(Encode(items[0]), |items| == 1, EncodeItems(items[1..]), rest);
  }

  lemma Peel(x: string, last: bool, xs: string, rest: string)
    requires last ==> xs == ""
    ensures x + (if last then "" else ",") + xs + rest == x + if last then rest else [','] + (xs + rest)
  {
    if last {
      assert x + "" + xs == x;
    } else {
      Assoc(x + [','], xs, rest);
      Assoc(x, [','], xs + rest);
    }
  }

  lemma {:induction false} ItemsReadBack(items: seq<Json>, rest: string)
    requires items != []
    ensures ReadItems(EncodeItems(items) + ([']'] + rest)) == Some((items, rest))
    decreases items, 0
  {
    PeelItem(items, [']'] + rest);
    if |items| == 1 {
      ReadsBack(items[0], [']'] + rest);
      ItemThenClose(Encode(items[0]) + ([']'] + rest), items[0], rest);
      assert items == [items[0]];
    } else {
      var more := EncodeItems(items[1..]) + ([']'] + rest);
      ReadsBack(items[0], [','] + more);
      ItemsReadBack(items[1..], rest);
      ItemThenMore(Encode(items[0]) + ([','] + more), items[0], more, items[1..], rest);
      assert items == [items[0]] + items[1..];
    }
  }

  lemma ItemThenClose(t: string, x: Json, rest: string)
    requires ReadValue(t) == Some((x, [']'] + rest))
    ensures ReadItems(t) == Some(([x], rest))
  {
    assert ([']'] + rest)[1..] == rest;
  }

  lemma ItemThenMore(t: string, x: Json, more: string, xs: seq<Json>, rest: string)
    requires ReadValue(t) == Some((x, [','] + more)) && ReadItems(more) == Some((xs, rest))
    ensures ReadItems(t) == Some(([x] + xs, rest))
  {
    assert ([','] + more)[1..] == more;
  }

  function FieldText(f: Field): (t: string) {
    Quote(f.name) + ":" + Encode(f.value)
  }

  lemma FieldReads(f: Field, rest: string)
    requires ReadValue(Encode(f.value) + rest) == Some((f.value, rest))
    ensures ReadField(FieldText(f) + rest) == Some((f, rest))
  {
    var v := Encode(f.value) + rest;
    Assoc(Quote(f.name) + [':'], Encode(f.value), rest);
    Assoc(Quote(f.name), [':'], v);
    QuoteCloses(f.name, [':'] + v);
    StringReads(f.name, [':'] + v);
    assert (['"'] + Closing(f.name, [':'] + v))[1..] == Closing(f.name, [':'] + v);
    assert ([':'] + v)[1..] == v;
  }

  lemma PeelField(fields: seq<Field>, rest: string)
    requires fields != []
    ensures EncodeFields(fields) + rest ==
            FieldText(fields[0]) + if |fields| == 1 then rest else [','] + (EncodeFields(fields[1..]) + rest)
  {
    Peel(FieldText(fields[0]), |fields| == 1, EncodeFields(fields[1..]), rest);
  }

  lemma {:induction false} FieldsReadBack(fields: seq<Field>, rest: string)
    requires fields != []
    ensures ReadFields(EncodeFields(fields) + (['}'] + rest)) == Some((fields, rest))
    decreases fields, 0
  {
    if |fields| == 1 {
      ReadsBack(fields[0].value, ['}'] + rest);
      LastFieldReads(fields, rest);
    } else {
      var more := EncodeFields(fields[1..]) + (['}'] + rest);
      ReadsBack(fields[0].value, [','] + more);
      FieldsReadBack(fields[1..], rest);
      MoreFieldsRead(fields, more, rest);
    }
  }

  lemma LastFieldReads(fields: seq<Field>, rest: string)
    requires |fields| == 1
    requires ReadValue(Encode(fields[0].value) + (['}'] + rest)) == Some((fields[0].value, ['}'] + rest))
    ensures ReadFields(EncodeFields(fields) + (['}'] + rest)) == Some((fields, rest))
  {
    PeelField(fields, ['}'] + rest);
    FieldReads(fields[0], ['}'] + rest);
    FieldThenClose(FieldText(fields[0]) + (['}'] + rest), fields[0], rest);
    assert fields == [fields[0]];
  }

  lemma MoreFieldsRead(fields: seq<Field>, more: string, rest: string)
    requires |fields| > 1 && more == EncodeFields(fields[1..]) + (['}'] + rest)
    requires ReadValue(Encode(fields[0].value) + ([','] + more)) == Some((fields[0].value, [','] + more))
    requires ReadFields(more) == Some((fields[1..], rest))
    ensures ReadFields(EncodeFields(fields) + (['}'] + rest)) == Some((fields, rest))
  {
    PeelField(fields, ['}'] + rest);
    FieldReads(fields[0], [','] + more);
    FieldThenMore(FieldText(fields[0]) + ([','] + more), fields[0], more, fields[1..], rest);
    assert fields == [fields[0]] + fields[1..];
  }

  lemma FieldThenClose(t: string, f: Field, rest: string)
    requires ReadField(t) == Some((f, ['}'] + rest))
    ensures ReadFields(t) == Some(([f], rest))
  {
    assert (['}'] + rest)[1..] == rest;
  }

  lemma FieldThenMore(t: string, f: Field, more: string, fs: seq<Field>, rest: string)
    requires ReadField(t) == Some((f, [','] + more)) && ReadFields(more) == Some((fs, rest))
    ensures ReadFields(t) == Some(([f] + fs, rest))
  {
    assert ([','] + more)[1..] == more;
  }

  /** Two values with the same text are the same value. */
  lemma EncodeInjective(x: Json, y: Json)
    requires Encode(x) == Encode(y)
    ensures x == y
  {
    ReadsBack(x, "");
    ReadsBack(y, "");
  }
}
