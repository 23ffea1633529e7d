/** The whitespace-free rendering determines the value, so compaction loses nothing but
    whitespace: texts that compact alike are printings of the same value. */
module JsonMeaning {
  import opened Json

  lemma {:induction false} ConcatAppend(a: seq<string>, b: seq<string>)
    ensures Concat(a + b) == Concat(a) + Concat(b)
  {
    if a == [] {
      assert a + b == b;
    } else {
      assert (a + b)[1..] == a[1..] + b;
      ConcatAppend(a[1..], b);
    }
  }

  lemma ConcatFirst(t: string, tokens: seq<string>)
    ensures Concat([t] + tokens) == t + Concat(tokens)
  {
    assert ([t] + tokens)[1..] == tokens;
  }

  lemma ConcatOne(t: string)
    ensures Concat([t]) == t
  {
    ConcatFirst(t, []);
    assert [t] + [] == [t];
  }

  /** What a value's rendering looks like with `r` after it. */
  function Text(v: Value, r: string): string {
    match v
    case Literal(t) => t + r
    case String(b) => "\"" + b + "\"" + r
    case Array(items) => "[" + ItemText(items, true, r)
    case Object(fields) => "{" + FieldText(fields, true, r)
  }

  function ItemText(items: Items, first: bool, r: string): string {
    match items
    case NoItem => "]" + r
    case Item(v, rest) => (if first then "" else ",") + Text(v, ItemText(rest, false, r))
  }

  function FieldText(fields: Fields, first: bool, r: string): string {
    match fields
    case NoField => "}" + r
    case Field(n, v, rest) =>
      (if first then "" else ",") + ("\"" + n + "\"" + (":" + Text(v, FieldText(rest, false, r))))
  }

  lemma {:induction false} TextIsRendering(v: Value, r: string)
    ensures Text(v, r) == Render(v) + r
  {
    hide Concat;
    match v
    case Literal(t) => ConcatOne(t);
    case String(b) => ConcatOne(Quoted(b));
    case Array(items) =>
      var tokens := ItemTokens(items, true);
      ConcatFirst("[", tokens);
      ItemTextIsRendering(items, true, r);
      assert "[" + (Concat(tokens) + r) == "[" + Concat(tokens) + r;
    case Object(fields) =>
      var tokens := FieldTokens(fields, true);
      ConcatFirst("{", tokens);
      FieldTextIsRendering(fields, true, r);
      assert "{" + (Concat(tokens) + r) == "{" + Concat(tokens) + r;
  }

  lemma {:induction false} ItemTextIsRendering(items: Items, first: bool, r: string)
    ensures ItemText(items, first, r) == Concat(ItemTokens(items, first)) + r
  {
    hide Concat, Text, Tokens;
    match items
    case NoItem => ConcatOne("]");
    case Item(v, rest) =>
      var tokens := Tokens(v) + ItemTokens(rest, false);
      ConcatAppend(Tokens(v), ItemTokens(rest, false));
      ItemTextIsRendering(rest, false, r);
      TextIsRendering(v, ItemText(rest, false, r));
      CommaFirst(tokens, first);
  }

  lemma CommaFirst(tokens: seq<string>, first: bool)
    ensures Concat((if first then [] else [","]) + tokens) == (if first then "" else ",") + Concat(tokens)
  {
    if first {
      assert [] + tokens == tokens;
    } else {
      ConcatFirst(",", tokens);
    }
  }

  lemma {:induction false} FieldTextIsRendering(fields: Fields, first: bool, r: string)
    ensures FieldText(fields, first, r) == Concat(FieldTokens(fields, first)) + r
  {
    hide Concat, Text, Tokens;
    match fields
    case NoField => ConcatOne("}");
    case Field(n, v, rest) =>
      var tokens := Tokens(v) + FieldTokens(rest, false);
      ConcatAppend(Tokens(v), FieldTokens(rest, false));
      FieldTextIsRendering(rest, false, r);
      TextIsRendering(v, FieldText(rest, false, r));
      assert Text(v, FieldText(rest, false, r)) == Concat(tokens) + r;
      ConcatFirst(":", tokens);
      ConcatFirst(Quoted(n), [":"] + tokens);
      CommaFirst([Quoted(n)] + ([":"] + tokens), first);
  }

  /** What may follow a value: nothing, or a structural character. */
  predicate Delimited(r: string) {
    r == "" || IsStructural(r[0])
  }

  /** How far a literal reaches. */
  function Extent(s: string): nat {
    if s == "" || IsStructural(s[0]) then 0 else 1 + Extent(s[1..])
  }

  lemma {:induction false} LiteralExtent(t: string, r: string)
    requires Delimited(r) && forall c | c in t :: !IsStructural(c)
    ensures Extent(t + r) == |t|
  {
    if t == "" {
      assert t + r == r;
    } else {
      assert t[0] in t && (t + r)[1..] == t[1..] + r;
      LiteralExtent(t[1..], r);
    }
  }

  lemma LiteralUnique(t1: string, r1: string, t2: string, r2: string)
    requires ValidLiteral(t1) && ValidLiteral(t2) && Delimited(r1) && Delimited(r2)
    requires t1 + r1 == t2 + r2
    ensures t1 == t2 && r1 == r2
  {
    LiteralExtent(t1, r1);
    LiteralExtent(t2, r2);
    var n := |t1|;
    assert t1 == (t1 + r1)[..n] && t2 == (t2 + r2)[..n];
    assert r1 == (t1 + r1)[n..] && r2 == (t2 + r2)[n..];
  }

  lemma QuoteFirst(b: string, s: string)
    requires ValidBody(b)
    ensures b == "" <==> (b + "\"" + s)[0] == '"'
  {
  }

  lemma {:induction false} BodyUnique(b1: string, s1: string, b2: string, s2: string)
    requires ValidBody(b1) && ValidBody(b2)
    requires b1 + "\"" + s1 == b2 + "\"" + s2
    ensures b1 == b2 && s1 == s2
    decreases |b1|
  {
    var t1, t2 := b1 + "\"" + s1, b2 + "\"" + s2;
    if b1 == "" {
      assert t1[0] == '"' && t1[1..] == s1;
      QuoteFirst(b2, s2);
      assert t2[1..] == s2;
    } else {
      assert t1[0] == b1[0] && b2 != "";
      assert t2[0] == b2[0];
      var k := if b1[0] == '\\' then 2 else 1;
      assert t1[k..] == b1[k..] + "\"" + s1;
      assert t2[k..] == b2[k..] + "\"" + s2;
      BodyUnique(b1[k..], s1, b2[k..], s2);
      assert b1[..k] == t1[..k] == t2[..k] == b2[..k];
      assert b1 == b1[..k] + b1[k..] && b2 == b2[..k] + b2[k..];
    }
  }

  /** The first character tells what kind of value, or end, comes next. */
  lemma FirstCharacter(v: Value, r: string)
    requires ValidValue(v)
    ensures var t := Text(v, r);
            && t != "" && t[0] != ']' && t[0] != '}' && t[0] != ','
            && (t[0] == '"' <==> v.String?) && (t[0] == '[' <==> v.Array?) && (t[0] == '{' <==> v.Object?)
  {
    if v.Literal? {
      assert v.text[0] in v.text;
    }
  }

  lemma {:induction false} TextUnique(v1: Value, r1: string, v2: Value, r2: string)
    requires ValidValue(v1) && ValidValue(v2) && Delimited(r1) && Delimited(r2)
    requires Text(v1, r1) == Text(v2, r2)
    ensures v1 == v2 && r1 == r2
    decreases v1
  {
    FirstCharacter(v1, r1);
    FirstCharacter(v2, r2);
    match v1
    case Literal(t) => LiteralUnique(t, r1, v2.text, r2);
    case String(b) =>
      assert Text(v1, r1)[1..] == b + "\"" + r1;
      assert Text(v2, r2)[1..] == v2.body + "\"" + r2;
      BodyUnique(b, r1, v2.body, r2);
    case Array(items) =>
      assert Text(v1, r1)[1..] == ItemText(items, true, r1);
      assert Text(v2, r2)[1..] == ItemText(v2.items, true, r2);
      ItemTextUnique(items, r1, v2.items, r2, true);
    case Object(fields) =>
      assert Text(v1, r1)[1..] == FieldText(fields, true, r1);
      assert Text(v2, r2)[1..] == FieldText(v2.fields, true, r2);
      FieldTextUnique(fields, r1, v2.fields, r2, true);
  }

  lemma {:induction false} ItemTextUnique(i1: Items, r1: string, i2: Items, r2: string, first: bool)
    requires ValidItems(i1) && ValidItems(i2)
    requires ItemText(i1, first, r1) == ItemText(i2, first, r2)
    ensures i1 == i2 && r1 == r2
    decreases i1
  {
    hide Text, ValidValue;
    if i1.Item? {
      FirstCharacter(i1.value, ItemText(i1.rest, false, r1));
    }
    if i2.Item? {
      FirstCharacter(i2.value, ItemText(i2.rest, false, r2));
    }
    assert i1.Item? <==> ItemText(i1, first, r1)[0] != ']';
    assert i2.Item? <==> ItemText(i2, first, r2)[0] != ']';
    if i1.NoItem? {
      assert r1 == ItemText(i1, first, r1)[1..] == r2;
    } else {
      var k := if first then 0 else 1;
      var s1, s2 := ItemText(i1.rest, false, r1), ItemText(i2.rest, false, r2);
      assert ItemText(i1, first, r1)[k..] == Text(i1.value, s1);
      assert ItemText(i2, first, r2)[k..] == Text(i2.value, s2);
      TextUnique(i1.value, s1, i2.value, s2);
      ItemTextUnique(i1.rest, r1, i2.rest, r2, false);
    }
  }

  lemma {:induction false} FieldTextUnique(f1: Fields, r1: string, f2: Fields, r2: string, first: bool)
    requires ValidFields(f1) && ValidFields(f2)
    requires FieldText(f1, first, r1) == FieldText(f2, first, r2)
    ensures f1 == f2 && r1 == r2
    decreases f1
  {
    hide Text, ValidBody, ValidValue;
    assert f1.Field? <==> FieldText(f1, first, r1)[0] != '}';
    assert f2.Field? <==> FieldText(f2, first, r2)[0] != '}';
    if f1.NoField? {
      assert r1 == FieldText(f1, first, r1)[1..] == r2;
    } else {
      var k := if first then 1 else 2;
      var s1, s2 := FieldText(f1.rest, false, r1), FieldText(f2.rest, false, r2);
      var u1, u2 := ":" + Text(f1.value, s1), ":" + Text(f2.value, s2);
      assert FieldText(f1, first, r1)[k..] == f1.name + "\"" + u1;
      assert FieldText(f2, first, r2)[k..] == f2.name + "\"" + u2;
      BodyUnique(f1.name, u1, f2.name, u2);
      assert u1[1..] == Text(f1.value, s1) && u2[1..] == Text(f2.value, s2);
      TextUnique(f1.value, s1, f2.value, s2);
      FieldTextUnique(f1.rest, r1, f2.rest, r2, false);
    }
  }

  /** Values with the same rendering are the same. */
  lemma RenderingUnique(v: Value, w: Value)
    requires ValidValue(v) && ValidValue(w)
    ensures Render(v) == Render(w) <==> v == w
  {
    if Render(v) == Render(w) {
      TextIsRendering(v, "");
      TextIsRendering(w, "");
      TextUnique(v, "", w, "");
    }
  }

  /** Compaction preserves meaning: two printings compact to the same bytes exactly when
      they print the same value. */
  lemma CompactionPreservesMeaning(a: string, v: Value, leadA: string, gapsA: seq<string>,
                                   b: string, w: Value, leadB: string, gapsB: seq<string>)
    requires ValidValue(v) && Prints(a, v, leadA, gapsA)
    requires ValidValue(w) && Prints(b, w, leadB, gapsB)
    ensures Compact(a) == Compact(b) <==> v == w
  {
    CompactionYieldsRendering(a, v, leadA, gapsA);
    CompactionYieldsRendering(b, w, leadB, gapsB);
    RenderingUnique(v, w);
  }
}
