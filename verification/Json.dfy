/** JSON texts as the daemon prints them, and the in-place compaction that turns the
    library's pretty-printed output into one line. */
module Json {
  import opened Lines

  /** Space, tab, line feed and carriage return: whitespace as section 2 of RFC 8259 has it. */
  predicate IsWhitespace(c: char) {
    var code := c as int;
    code == 0x20 || code == 0x09 || code == 0x0A || code == 0x0D
  }

  // ---- The scanner ---------------------------------------------------------------

  predicate IsBlank(c: char) {
    c == ' ' || c == '\t' || c == '\r' || c == '\n'
  }

  /** What compaction keeps of `s`, starting inside a string or not, after a backslash
      or not. */
  function Scan(s: string, inString: bool, escaped: bool): string {
    if s == "" then ""
    else if inString then
      [s[0]] + Scan(s[1..], escaped || s[0] != '"', !escaped && s[0] == '\\')
    else if IsBlank(s[0]) then Scan(s[1..], false, escaped)
    else [s[0]] + Scan(s[1..], s[0] == '"', escaped)
  }

  function Compact(s: string): string {
    Scan(s, false, false)
  }

  /** One character: whether it is kept, and how the scan goes on. */
  method ScanChar(c: char, inString: bool, escaped: bool) returns (keep: bool, inString': bool, escaped': bool)
    ensures keep <==> inString || !IsBlank(c)
    ensures inString' == if inString then escaped || c != '"' else c == '"'
    ensures escaped' == if inString then !escaped && c == '\\' else escaped
  {
    keep, inString', escaped' := true, inString, escaped;
    if inString {
      if escaped {
        escaped' := false;
      } else if c == '\\' {
        escaped' := true;
      } else if c == '"' {
        inString' := false;
      }
      return;
    }
    if c == '"' {
      inString' := true;
      return;
    }
    if c == ' ' || c == '\t' || c == '\r' || c == '\n' {
      keep := false;
    }
  }

  /** Two indices over one buffer: the write index never overtakes the read index, so
      the result is that of scanning the original text. */
  method CompactInPlace(buf: array<char>, len: nat) returns (out: nat)
    requires len <= buf.Length
    modifies buf
    ensures out <= len
    ensures buf[..out] == Compact(old(buf[..len]))
    ensures buf[len..] == old(buf[len..])
  {
    ghost var src, done := buf[..len], "";
    assert src[0..] == src && done + Compact(src) == Compact(src);
    hide Scan, Compact, IsBlank;
    var i, inString, escaped := 0, false, false;
    out := 0;
    while i < len
      invariant out <= i <= len
      invariant forall k | i <= k < len :: buf[k] == src[k]
      invariant forall k | len <= k < buf.Length :: buf[k] == old(buf[k])
      invariant |done| == out && forall k | 0 <= k < out :: buf[k] == done[k]
      invariant done + Scan(src[i..], inString, escaped) == Compact(src)
    {
      var c := buf[i];
      ScanOne(src, i, done, inString, escaped);
      var keep;
      keep, inString, escaped := ScanChar(c, inString, escaped);
      i := i + 1;
      if keep {
        buf[out], out, done := c, out + 1, done + [c];
      }
    }
    ScanNothing(src[i..], inString, escaped);
    assert buf[..out] == done + "";
  }

  lemma ScanNothing(s: string, inString: bool, escaped: bool)
    ensures s == "" ==> Scan(s, inString, escaped) == ""
  {
  }

  /** One character of the scan, with what was kept before it. */
  lemma ScanOne(s: string, i: nat, done: string, inString: bool, escaped: bool)
    requires i < |s|
    ensures done + Scan(s[i..], inString, escaped)
         == if inString then
              done + [s[i]] + Scan(s[i + 1..], escaped || s[i] != '"', !escaped && s[i] == '\\')
            else if IsBlank(s[i]) then done + Scan(s[i + 1..], false, escaped)
            else done + [s[i]] + Scan(s[i + 1..], s[i] == '"', escaped)
  {
    assert s[i..][1..] == s[i + 1..];
  }

  /** Compacting what is already compact changes nothing, for any text at all. */
  lemma {:induction false} ScanTwice(s: string, inString: bool, escaped: bool)
    ensures Scan(Scan(s, inString, escaped), inString, escaped) == Scan(s, inString, escaped)
  {
    if s != "" {
      if inString {
        ScanTwice(s[1..], escaped || s[0] != '"', !escaped && s[0] == '\\');
      } else {
        ScanTwice(s[1..], s[0] == '"', escaped);
      }
    }
  }

  // ---- JSON values and their renderings --------------------------------------------

  /** A JSON value; strings are held as the printer escapes them, without their quotes. */
  datatype Value =
    | Literal(text: string)
    | String(body: string)
    | Array(items: Items)
    | Object(fields: Fields)
  datatype Items = NoItem | Item(value: Value, rest: Items)
  datatype Fields = NoField | Field(name: string, value: Value, rest: Fields)

  /** A string body as section 7 of RFC 8259 has it: quotes, backslashes and control
      characters only ever appear escaped. */
  predicate ValidBody(b: string) {
    || b == ""
    || (b[0] == '\\' && |b| > 1 && b[1] >= ' ' && ValidBody(b[2..]))
    || (b[0] != '\\' && b[0] != '"' && b[0] >= ' ' && ValidBody(b[1..]))
  }

  predicate IsStructural(c: char) {
    c == '{' || c == '}' || c == '[' || c == ']' || c == ',' || c == ':'
  }

  /** A number, true, false or null: no blank, quote or structural character. */
  predicate ValidLiteral(t: string) {
    t != "" && forall c | c in t :: !IsWhitespace(c) && c != '"' && !IsStructural(c)
  }

  predicate ValidValue(v: Value) {
    match v
    case Literal(t) => ValidLiteral(t)
    case String(b) => ValidBody(b)
    case Array(items) => ValidItems(items)
    case Object(fields) => ValidFields(fields)
  }

  predicate ValidItems(items: Items) {
    items.Item? ==> ValidValue(items.value) && ValidItems(items.rest)
  }

  predicate ValidFields(fields: Fields) {
    fields.Field? ==> ValidBody(fields.name) && ValidValue(fields.value) && ValidFields(fields.rest)
  }

  function Quoted(body: string): string {
    "\"" + body + "\""
  }

  /** The tokens of a value (section 2 of RFC 8259), in order. */
  function Tokens(v: Value): seq<string> {
    match v
    case Literal(t) => [t]
    case String(b) => [Quoted(b)]
    case Array(items) => ["["] + ItemTokens(items, true)
    case Object(fields) => ["{"] + FieldTokens(fields, true)
  }

  /** The rest of an array after its bracket or, unless `first`, after an item. */
  function ItemTokens(items: Items, first: bool): seq<string> {
    match items
    case NoItem => ["]"]
    case Item(v, rest) => (if first then [] else [","]) + (Tokens(v) + ItemTokens(rest, false))
  }

  function FieldTokens(fields: Fields, first: bool): seq<string> {
    match fields
    case NoField => ["}"]
    case Field(n, v, rest) =>
      (if first then [] else [","]) + ([Quoted(n)] + ([":"] + (Tokens(v) + FieldTokens(rest, false))))
  }

  function Concat(tokens: seq<string>): string {
    if tokens == [] then "" else tokens[0] + Concat(tokens[1..])
  }

  /** The whitespace-free rendering. */
  function Render(v: Value): string {
    Concat(Tokens(v))
  }

  predicate AllBlank(gap: string) {
    forall c | c in gap :: IsWhitespace(c)
  }

  /** A pretty-printing: the tokens, each followed by some whitespace. */
  function Spread(tokens: seq<string>, gaps: seq<string>): string
    requires |gaps| == |tokens|
  {
    if tokens == [] then "" else tokens[0] + gaps[0] + Spread(tokens[1..], gaps[1..])
  }

  /** `text` prints `v`, with whitespace around tokens and nowhere else. */
  ghost predicate Prints(text: string, v: Value, lead: string, gaps: seq<string>) {
    && |gaps| == |Tokens(v)|
    && AllBlank(lead) && (forall g | g in gaps :: AllBlank(g))
    && text == lead + Spread(Tokens(v), gaps)
  }

  // ---- Compaction keeps exactly the tokens -----------------------------------------

  /** A token that scanning from outside a string copies, and leaves outside again. */
  predicate Unquoted(t: string) {
    forall c | c in t :: !IsWhitespace(c) && c != '"'
  }

  ghost predicate IsToken(t: string) {
    Unquoted(t) || exists b :: ValidBody(b) && t == Quoted(b)
  }

  lemma {:induction false} ScanUnquoted(t: string, s: string)
    requires Unquoted(t)
    ensures Scan(t + s, false, false) == t + Scan(s, false, false)
  {
    if t == "" {
      assert t + s == s;
    } else {
      assert (t + s)[1..] == t[1..] + s;
      assert t[0] in t;
      ScanUnquoted(t[1..], s);
    }
  }

  lemma {:induction false} ScanBody(b: string, s: string)
    requires ValidBody(b)
    ensures Scan(b + "\"" + s, true, false) == b + "\"" + Scan(s, false, false)
    decreases |b|
  {
    var t := b + "\"" + s;
    if b == "" {
      assert t[1..] == s;
    } else if b[0] == '\\' {
      assert t[1..][1..] == b[2..] + "\"" + s;
      assert Scan(t, true, false) == [b[0]] + Scan(t[1..], true, true);
      assert Scan(t[1..], true, true) == [b[1]] + Scan(t[1..][1..], true, false);
      ScanBody(b[2..], s);
    } else {
      assert t[1..] == b[1..] + "\"" + s;
      ScanBody(b[1..], s);
    }
  }

  lemma ScanToken(t: string, s: string)
    requires IsToken(t)
    ensures Scan(t + s, false, false) == t + Scan(s, false, false)
  {
    if Unquoted(t) {
      ScanUnquoted(t, s);
    } else {
      var b :| ValidBody(b) && t == Quoted(b);
      assert (t + s)[1..] == b + "\"" + s;
      ScanBody(b, s);
    }
  }

  lemma {:induction false} ScanBlank(gap: string, s: string)
    requires AllBlank(gap)
    ensures Scan(gap + s, false, false) == Scan(s, false, false)
  {
    if gap == "" {
      assert gap + s == s;
    } else {
      assert (gap + s)[1..] == gap[1..] + s;
      assert gap[0] in gap;
      ScanBlank(gap[1..], s);
    }
  }

  lemma {:induction false} ScanSpread(tokens: seq<string>, gaps: seq<string>)
    requires |gaps| == |tokens|
    requires (forall t | t in tokens :: IsToken(t)) && (forall g | g in gaps :: AllBlank(g))
    ensures Compact(Spread(tokens, gaps)) == Concat(tokens)
  {
    if tokens != [] {
      var more := Spread(tokens[1..], gaps[1..]);
      assert Spread(tokens, gaps) == tokens[0] + (gaps[0] + more);
      ScanToken(tokens[0], gaps[0] + more);
      ScanBlank(gaps[0], more);
      ScanSpread(tokens[1..], gaps[1..]);
    }
  }

  lemma {:induction false} TokensAreTokens(v: Value)
    requires ValidValue(v)
    ensures forall t | t in Tokens(v) :: IsToken(t)
  {
    match v
    case Literal(t) =>
    case String(b) =>
    case Array(items) => ItemTokensAreTokens(items, true);
    case Object(fields) => FieldTokensAreTokens(fields, true);
  }

  lemma {:induction false} ItemTokensAreTokens(items: Items, first: bool)
    requires ValidItems(items)
    ensures forall t | t in ItemTokens(items, first) :: IsToken(t)
  {
    if items.Item? {
      TokensAreTokens(items.value);
      ItemTokensAreTokens(items.rest, false);
    }
  }

  lemma {:induction false} FieldTokensAreTokens(fields: Fields, first: bool)
    requires ValidFields(fields)
    ensures forall t | t in FieldTokens(fields, first) :: IsToken(t)
  {
    if fields.Field? {
      TokensAreTokens(fields.value);
      FieldTokensAreTokens(fields.rest, false);
      assert IsToken(Quoted(fields.name));
    }
  }

  /** Whatever whitespace the printer put between tokens, compaction yields the
      whitespace-free rendering of the same value. */
  lemma CompactionYieldsRendering(text: string, v: Value, lead: string, gaps: seq<string>)
    requires ValidValue(v) && Prints(text, v, lead, gaps)
    ensures Compact(text) == Render(v)
  {
    TokensAreTokens(v);
    ScanBlank(lead, Spread(Tokens(v), gaps));
    ScanSpread(Tokens(v), gaps);
  }

  // ---- One line --------------------------------------------------------------------

  lemma {:induction false} BodyNewlineFree(b: string)
    requires ValidBody(b)
    ensures NewlineFree(b)
    decreases |b|
  {
    if b != "" {
      if b[0] == '\\' {
        BodyNewlineFree(b[2..]);
        assert b == b[..2] + b[2..];
      } else {
        BodyNewlineFree(b[1..]);
        assert b == [b[0]] + b[1..];
      }
    }
  }

  lemma TokenNewlineFree(t: string)
    requires IsToken(t)
    ensures NewlineFree(t)
  {
    if Unquoted(t) {
      assert forall k | 0 <= k < |t| :: t[k] in t;
    } else {
      var b :| ValidBody(b) && t == Quoted(b);
      BodyNewlineFree(b);
    }
  }

  lemma {:induction false} ConcatNewlineFree(tokens: seq<string>)
    requires forall t | t in tokens :: IsToken(t)
    ensures NewlineFree(Concat(tokens))
  {
    if tokens != [] {
      TokenNewlineFree(tokens[0]);
      ConcatNewlineFree(tokens[1..]);
    }
  }

  /** A rendering is always a single line. */
  lemma RenderingIsOneLine(v: Value)
    requires ValidValue(v)
    ensures NewlineFree(Render(v))
  {
    TokensAreTokens(v);
    ConcatNewlineFree(Tokens(v));
  }
}
