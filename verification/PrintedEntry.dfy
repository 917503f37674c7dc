/** The printed form of a case: C string literals, designated fields, one entry. Its
    characters are what the brace scan, the value scan, the key pattern and the
    string decoder each meet, and the lemmas here say what each of them makes of a
    literal, of a field line and of all the lines of an entry. */
module PrintedEntry {
  import opened CText
  import opened Initializer
  import Py = PyGrader

  // ---- printing ----

  function Literal(s: string): string { "\"" + Escaped(s) + "\"" }

  /** A field of an entry; choices carry an index. */
  datatype Field = Named(name: string, value: string) | Choice(index: nat, value: string)

  function FieldKey(f: Field): string {
    match f
    case Named(name, _) => "." + name
    case Choice(index, _) => ".choice[" + Dec(index) + "]"
  }

  const INDENT := "        "

  function FieldLine(f: Field): string { INDENT + FieldKey(f) + " = " + Literal(f.value) + ",\n" }

  function FieldLines(fs: seq<Field>): string {
    if fs == [] then "" else FieldLine(fs[0]) + FieldLines(fs[1..])
  }

  function ChoiceFields(choices: seq<string>, from: nat): seq<Field>
    decreases |choices|
  {
    if choices == [] then [] else [Choice(from, choices[0])] + ChoiceFields(choices[1..], from + 1)
  }

  /** The fields of a case in the table's order. */
  function FieldsOf(c: Case): seq<Field> {
    [Named("source", c.source), Named("id", c.id), Named("domain", c.domain), Named("title", c.title),
     Named("question", c.question)] + ChoiceFields(c.choices, 0) + [Named("answer", c.answer)]
  }

  /** The text between the braces of an entry. */
  function EntryText(c: Case): string { "\n" + FieldLines(FieldsOf(c)) + "    " }

  // ---- scanning over literals ----

  /** The first character of an escaped string, where it stands in a text. */
  lemma {:induction false} EscapedParts(t: string, i: nat, s: string)
    requires s != "" && At(t, i, Escaped(s))
    ensures var e := EscapedChar(s[0]);
            i + |e| <= |t| && t[i] == e[0] && (|e| == 2 ==> t[i + 1] == e[1])
            && At(t, i + |e|, Escaped(s[1..])) && |Escaped(s)| == |e| + |Escaped(s[1..])|
  {
    hide At, EscapedChar;
    var e := EscapedChar(s[0]);
    AtSplit(t, i, e, Escaped(s[1..]));
    AtIndex(t, i, e, 0);
    AtWithin(t, i, e);
    if |e| == 2 {
      AtIndex(t, i, e, 1);
    }
  }

  lemma {:induction false} BraceOverEscaped(t: string, i: nat, depth: int, s: string)
    requires At(t, i, Escaped(s))
    ensures i + |Escaped(s)| <= |t|
    ensures Brace(t, i, depth, Text) == Brace(t, i + |Escaped(s)|, depth, Text)
    decreases |s|
  {
    if s == "" {
      EmptyAt(t, i);
    } else {
      hide At, Escaped;
      EscapedParts(t, i, s);
      var e := EscapedChar(s[0]);
      BraceOverEscaped(t, i + |e|, depth, s[1..]);
    }
  }

  lemma {:induction false} ValueOverEscaped(t: string, i: nat, s: string)
    requires At(t, i, Escaped(s))
    ensures i + |Escaped(s)| <= |t|
    ensures ValueEnd(t, i, Text) == ValueEnd(t, i + |Escaped(s)|, Text)
    decreases |s|
  {
    if s == "" {
      EmptyAt(t, i);
    } else {
      hide At, Escaped;
      EscapedParts(t, i, s);
      var e := EscapedChar(s[0]);
      ValueOverEscaped(t, i + |e|, s[1..]);
    }
  }

  lemma {:induction false} QuoteAfterEscaped(t: string, i: nat, s: string)
    requires At(t, i, Escaped(s))
    ensures i + |Escaped(s)| <= |t|
    ensures QuoteEnd(t, i) == QuoteEnd(t, i + |Escaped(s)|)
    decreases |s|
  {
    if s == "" {
      EmptyAt(t, i);
    } else {
      hide At, Escaped;
      EscapedParts(t, i, s);
      var e := EscapedChar(s[0]);
      QuoteAfterEscaped(t, i + |e|, s[1..]);
    }
  }

  lemma {:induction false} UnescapeEscaped(s: string)
    ensures Unescape(Escaped(s)) == Some(AsLatin(s))
  {
    hide Unescape, Bytes, EscapedChar;
    if s == "" {
      UnescapeNothing();
    } else {
      UnescapeEscaped(s[1..]);
      UnescapeOne(s[0], Escaped(s[1..]));
    }
  }

  lemma {:induction false} UnescapeNothing()
    ensures Unescape("") == Some("")
  {
  }

  lemma {:induction false} UnescapeOne(c: char, rest: string)
    requires Unescape(rest).Some?
    ensures Unescape(EscapedChar(c) + rest) == Some(Bytes(c) + Unescape(rest).value)
  {
    var e := EscapedChar(c);
    var all := e + rest;
    assert all[|e|..] == rest && all[0] == e[0];
    hide Bytes, Octal, Hex;
    if |e| == 2 {
      assert all[1] == e[1] && all[1..][0] == e[1];
      assert Bytes(c) == [c] by { BytesAscii(c); }
    }
  }

  lemma {:induction false} BytesAscii(c: char)
    ensures c as int < 128 ==> Bytes(c) == [c]
  {
  }

  lemma {:induction false} LiteralParts(t: string, i: nat, s: string)
    requires At(t, i, Literal(s))
    ensures var n := |Escaped(s)|;
            i + n + 2 <= |t| && |Literal(s)| == n + 2 && t[i] == '"' && At(t, i + 1, Escaped(s)) && t[i + 1 + n] == '"'
  {
    hide Escaped;
    AtSplit(t, i, "\"" + Escaped(s), "\"");
    AtSplit(t, i, "\"", Escaped(s));
    AtIndex(t, i, "\"", 0);
    AtIndex(t, i + 1 + |Escaped(s)|, "\"", 0);
  }

  lemma {:induction false} BraceOverLiteral(t: string, i: nat, depth: int, s: string)
    requires At(t, i, Literal(s))
    ensures i + |Literal(s)| <= |t| && Brace(t, i, depth, Code) == Brace(t, i + |Literal(s)|, depth, Code)
  {
    LiteralParts(t, i, s);
    hide At, Escaped, Literal;
    BraceOverEscaped(t, i + 1, depth, s);
  }

  lemma {:induction false} ValueOverLiteral(t: string, i: nat, s: string)
    requires At(t, i, Literal(s))
    ensures i + |Literal(s)| <= |t| && ValueEnd(t, i, Code) == ValueEnd(t, i + |Literal(s)|, Code)
  {
    LiteralParts(t, i, s);
    hide At, Escaped, Literal;
    ValueOverEscaped(t, i + 1, s);
  }

  lemma {:induction false} LiteralDecoded(s: string)
    ensures Decode(Literal(s), 0) == Some(AsLatin(s))
  {
    var v := Literal(s);
    assert At(v, 0, Literal(s));
    LiteralParts(v, 0, s);
    QuoteAfterEscaped(v, 1, s);
    UnescapeEscaped(s);
    var n := |Escaped(s)|;
    assert v[1..1 + n] == Escaped(s);
    hide Escaped, Unescape, Literal, AsLatin;
    assert Decode(v, 2 + n) == Some("");
    assert AsLatin(s) + "" == AsLatin(s);
  }

  // ---- code between literals ----

  predicate Plain(s: string) { forall i :: 0 <= i < |s| ==> s[i] != '"' && s[i] != '{' && s[i] != '}' }

  lemma {:induction false} BraceOverPlain(t: string, i: nat, depth: int, s: string)
    requires Plain(s) && At(t, i, s)
    ensures i + |s| <= |t| && Brace(t, i, depth, Code) == Brace(t, i + |s|, depth, Code)
    decreases |s|
  {
    if s != "" {
      assert s == [s[0]] + s[1..];
      AtSplit(t, i, [s[0]], s[1..]);
      AtIndex(t, i, s, 0);
      BraceOverPlain(t, i + 1, depth, s[1..]);
    }
  }

  predicate Name(name: string) {
    name != "" && !('0' <= name[0] <= '9')
    && forall i :: 0 <= i < |name| ==>
         name[i] == '_' || 'a' <= name[i] <= 'z' || 'A' <= name[i] <= 'Z' || '0' <= name[i] <= '9'
  }

  predicate GoodField(f: Field) {
    f.Named? ==> Name(f.name)
  }

  predicate GoodFields(fs: seq<Field>) { fs == [] || (GoodField(fs[0]) && GoodFields(fs[1..])) }

  lemma {:induction false} KeyPlain(f: Field)
    requires GoodField(f)
    ensures Plain(INDENT + FieldKey(f) + " = ")
  {
    if f.Named? {
      PlainJoin(".", f.name);
    } else {
      var d := Dec(f.index);
      DigitsPlain(d);
      hide Dec;
      PlainJoin(".choice[", d);
      PlainJoin(".choice[" + d, "]");
    }
    hide FieldKey;
    PlainJoin(INDENT, FieldKey(f));
    PlainJoin(INDENT + FieldKey(f), " = ");
  }

  lemma {:induction false} SeparatorPlain()
    ensures Plain(",\n") && Plain("\n") && Plain("    ")
  {
  }

  lemma {:induction false} DigitsPlain(d: string)
    requires AllDigits(d)
    ensures Plain(d)
  {
  }

  lemma {:induction false} PlainJoin(a: string, b: string)
    requires Plain(a) && Plain(b)
    ensures Plain(a + b)
  {
  }

  lemma {:induction false} BraceOverField(t: string, i: nat, depth: int, f: Field)
    requires GoodField(f) && At(t, i, FieldLine(f))
    ensures i + |FieldLine(f)| <= |t| && Brace(t, i, depth, Code) == Brace(t, i + |FieldLine(f)|, depth, Code)
  {
    hide Literal, FieldKey, At, Brace, GoodField, Plain;
    KeyPlain(f);
    SeparatorPlain();
    var key := INDENT + FieldKey(f) + " = ";
    AtSplit(t, i, key + Literal(f.value), ",\n");
    AtSplit(t, i, key, Literal(f.value));
    BraceOverPlain(t, i, depth, key);
    BraceOverLiteral(t, i + |key|, depth, f.value);
    BraceOverPlain(t, i + |key| + |Literal(f.value)|, depth, ",\n");
  }

  lemma {:induction false} BraceOverFields(t: string, i: nat, depth: int, fs: seq<Field>)
    requires GoodFields(fs) && At(t, i, FieldLines(fs))
    ensures i + |FieldLines(fs)| <= |t| && Brace(t, i, depth, Code) == Brace(t, i + |FieldLines(fs)|, depth, Code)
    decreases |fs|
  {
    hide FieldLine, Brace, GoodField;
    if fs != [] {
      AtSplit(t, i, FieldLine(fs[0]), FieldLines(fs[1..]));
      hide At;
      BraceOverField(t, i, depth, fs[0]);
      BraceOverFields(t, i + |FieldLine(fs[0])|, depth, fs[1..]);
    } else {
      EmptyAt(t, i);
    }
  }

  lemma {:induction false} EmptyAt(t: string, i: nat)
    requires At(t, i, "")
    ensures i <= |t|
  {
  }

  // ---- fields are read back ----

  lemma {:induction false} SearchOver(t: string, p: nat, q: nat)
    requires p <= q <= |t| && forall i :: p <= i < q ==> t[i] != '.'
    ensures Search(t, p) == Search(t, q)
    decreases q - p
  {
    if p < q {
      SearchOver(t, p + 1, q);
    }
  }

  lemma {:induction false} IdentEndAt(t: string, p: nat, e: nat)
    requires p <= e <= |t| && (forall i :: p <= i < e ==> IdentChar(t[i])) && (e < |t| ==> !IdentChar(t[e]))
    ensures IdentEnd(t, p) == e
    decreases e - p
  {
    if p < e {
      IdentEndAt(t, p + 1, e);
    }
  }

  /** The name of a field and what follows it in the key. */
  function NameOf(f: Field): string { if f.Named? then f.name else "choice" }

  function IndexText(f: Field): string { if f.Named? then "" else "[" + Dec(f.index) + "]" }

  function IndexOf(f: Field): Option<nat> { if f.Named? then None else Some(f.index) }

  /** Where the parts of a field's key stand. */
  lemma {:induction false} KeyParts(t: string, p: nat, f: Field)
    requires GoodField(f) && At(t, p, FieldKey(f) + " = \"")
    ensures var e := p + 1 + |NameOf(f)|;
            t[p] == '.' && At(t, p + 1, NameOf(f)) && Name(NameOf(f)) && At(t, e, IndexText(f))
            && var q := e + |IndexText(f)|;
               q + 4 <= |t| && q == p + |FieldKey(f)| && t[q] == ' ' && t[q + 1] == '=' && t[q + 2] == ' ' && t[q + 3] == '"'
  {
    hide At, Name, FieldKey, NameOf, IndexText, GoodField;
    var key, eq := FieldKey(f), " = \"";
    KeyForm(f);
    AtSplit(t, p, key, eq);
    AtSplit(t, p, "." + NameOf(f), IndexText(f));
    AtSplit(t, p, ".", NameOf(f));
    AtIndex(t, p, ".", 0);
    EqualsAt(t, p + |key|);
  }

  lemma {:induction false} KeyForm(f: Field)
    requires GoodField(f)
    ensures FieldKey(f) == "." + NameOf(f) + IndexText(f) && Name(NameOf(f))
  {
    hide Dec;
    if f.Named? {
      assert "." + f.name + "" == "." + f.name;
    } else {
      assert ".choice[" == "." + "choice" + "[";
    }
  }

  lemma {:induction false} EqualsAt(t: string, q: nat)
    requires At(t, q, " = \"")
    ensures q + 4 <= |t| && t[q] == ' ' && t[q + 1] == '=' && t[q + 2] == ' ' && t[q + 3] == '"'
  {
    var eq := " = \"";
    AtIndex(t, q, eq, 0);
    AtIndex(t, q, eq, 1);
    AtIndex(t, q, eq, 2);
    AtIndex(t, q, eq, 3);
  }

  lemma {:induction false} IndexRead(t: string, e: nat, f: Field)
    requires At(t, e, IndexText(f)) && e + |IndexText(f)| < |t| && t[e + |IndexText(f)|] == ' '
    ensures IndexAt(t, e) == (IndexOf(f), e + |IndexText(f)|)
    ensures e < |t| && !IdentChar(t[e])
  {
    hide IndexAt, Dec, At, IdentChar;
    if f.Choice? {
      ChoiceIndexRead(t, e, f.index, Dec(f.index));
    } else {
      NoIndexRead(t, e);
    }
  }

  lemma {:induction false} NoIndexRead(t: string, e: nat)
    requires e < |t| && t[e] == ' '
    ensures IndexAt(t, e) == (None, e) && !IdentChar(t[e])
  {
  }

  lemma {:induction false} ChoiceIndexRead(t: string, e: nat, index: nat, d: string)
    requires d == Dec(index) && At(t, e, "[" + d + "]") && e + |d| + 2 < |t|
    ensures IndexAt(t, e) == (Some(index), e + |d| + 2)
    ensures e < |t| && !IdentChar(t[e])
  {
    hide Dec, DigitsEnd, Value, At, AllDigits, IndexAt;
    ValueOfDec(index);
    AtSplit(t, e, "[" + d, "]");
    AtSplit(t, e, "[", d);
    AtIndex(t, e, "[", 0);
    AtIndex(t, e + 1 + |d|, "]", 0);
    DigitsEndIs(t, e + 1, |t|, d);
    SliceAt(t, e + 1, d);
    IndexIs(t, e, e + 1 + |d|);
  }

  lemma {:induction false} IndexIs(t: string, e: nat, q: nat)
    requires e + 1 < q < |t| && t[e] == '[' && t[q] == ']' && DigitsEnd(t, e + 1, |t|) == q && AllDigits(t[e + 1..q])
    ensures IndexAt(t, e) == (Some(Value(t[e + 1..q])), q + 1)
  {
    hide DigitsEnd, Value;
  }

  lemma {:induction false} HeadRead(t: string, p: nat, f: Field)
    requires GoodField(f) && At(t, p, FieldKey(f) + " = \"")
    ensures p + |FieldKey(f)| + 3 <= |t|
    ensures HeadAt(t, p) == Some(Head(NameOf(f), IndexOf(f), p + |FieldKey(f)| + 3))
  {
    hide At, NameOf, IndexText, FieldKey, IndexAt, IdentEnd, IndexOf, GoodField, Name, HeadAt;
    KeyParts(t, p, f);
    var e := p + 1 + |NameOf(f)|;
    IndexRead(t, e, f);
    NameRead(t, p + 1, NameOf(f));
    HeadIs(t, p, e, IndexOf(f), e + |IndexText(f)|);
  }

  lemma {:induction false} NameRead(t: string, p: nat, name: string)
    requires Name(name) && At(t, p, name) && (p + |name| < |t| ==> !IdentChar(t[p + |name|]))
    ensures p + |name| <= |t| && p < |t| && IdentStart(t[p]) && IdentEnd(t, p) == p + |name| && t[p..p + |name|] == name
  {
    AtIndex(t, p, name, 0);
    forall i | p <= i < p + |name|
      ensures IdentChar(t[i])
    {
      AtIndex(t, p, name, i - p);
    }
    IdentEndAt(t, p, p + |name|);
  }

  lemma {:induction false} HeadIs(t: string, p: nat, e: nat, index: Option<nat>, q: nat)
    requires p + 1 < |t| && t[p] == '.' && IdentStart(t[p + 1]) && IdentEnd(t, p + 1) == e && IndexAt(t, e) == (index, q)
    requires q + 4 <= |t| && t[q] == ' ' && t[q + 1] == '=' && t[q + 2] == ' ' && t[q + 3] == '"'
    ensures HeadAt(t, p) == Some(Head(t[p + 1..e], index, q + 3))
  {
    hide IdentEnd, IndexAt;
    BlankThen(t, q);
    BlankThen(t, q + 2);
  }

  /** One blank before a character that is not a space. */
  lemma {:induction false} BlankThen(t: string, q: nat)
    requires q + 1 < |t| && t[q] == ' ' && !Py.PySpace(t[q + 1])
    ensures Py.PySpacesEnd(t, q) == q + 1
  {
    assert Py.PySpacesEnd(t, q + 1) == q + 1;
  }

  /** One field line: what the search finds, where the value ends, what it decodes to. */
  lemma {:induction false} FieldRead(t: string, p: nat, f: Field)
    requires GoodField(f) && At(t, p, FieldLine(f))
    ensures var start := p + |INDENT| + |FieldKey(f)| + 3;
            var end := start + |Literal(f.value)|;
            end + 2 == p + |FieldLine(f)| <= |t|
            && Search(t, p) == Some(Head(NameOf(f), IndexOf(f), start))
            && ValueEnd(t, start, Code) == end
            && t[start..end] == Literal(f.value)
  {
    hide FieldLine, FieldKey, Literal, GoodField, HeadAt, NameOf, IndexOf, At, ValueEnd, Search;
    var dot := p + |INDENT|;
    var start := dot + |FieldKey(f)| + 3;
    LineParts(t, p, f);
    HeadRead(t, dot, f);
    IndentSkipped(t, p);
    SearchHits(t, dot);
    ValueOverLiteral(t, start, f.value);
    SliceAt(t, start, Literal(f.value));
    CommaEnds(t, start + |Literal(f.value)|);
  }

  lemma {:induction false} SearchHits(t: string, p: nat)
    requires p <= |t| && HeadAt(t, p).Some?
    ensures Search(t, p) == HeadAt(t, p)
  {
  }

  lemma {:induction false} CommaEnds(t: string, i: nat)
    requires At(t, i, ",\n")
    ensures i + 2 <= |t| && ValueEnd(t, i, Code) == i
  {
    AtIndex(t, i, ",\n", 0);
  }

  lemma {:induction false} LineParts(t: string, p: nat, f: Field)
    requires At(t, p, FieldLine(f))
    ensures var dot := p + |INDENT|;
            var start := dot + |FieldKey(f)| + 3;
            At(t, p, INDENT) && At(t, dot, FieldKey(f) + " = \"") && At(t, start, Literal(f.value))
            && At(t, start + |Literal(f.value)|, ",\n") && start + |Literal(f.value)| + 2 == p + |FieldLine(f)| <= |t|
  {
    var key, lit := FieldKey(f), Literal(f.value);
    hide At, FieldKey, Escaped;
    AtWithin(t, p, FieldLine(f));
    AtSplit(t, p, INDENT + key + " = " + lit, ",\n");
    AtSplit(t, p, INDENT + key + " = ", lit);
    AtSplit(t, p, INDENT + key, " = ");
    AtSplit(t, p, INDENT, key);
    AtSplit(t, p + |INDENT| + |key| + 3, "\"" + Escaped(f.value), "\"");
    AtSplit(t, p + |INDENT| + |key| + 3, "\"", Escaped(f.value));
    AtJoin(t, p + |INDENT| + |key|, " = ", "\"");
    AtJoin(t, p + |INDENT|, key, " = " + "\"");
    assert " = " + "\"" == " = \"";
  }

  lemma {:induction false} IndentSkipped(t: string, p: nat)
    requires At(t, p, INDENT)
    ensures p + |INDENT| <= |t| && Search(t, p) == Search(t, p + |INDENT|)
  {
    forall i | p <= i < p + |INDENT|
      ensures t[i] != '.'
    {
      AtIndex(t, p, INDENT, i - p);
    }
    SearchOver(t, p, p + |INDENT|);
  }

  // ---- all fields of an entry ----

  function StoreAll(f: Fields, fs: seq<Field>): Option<Fields>
    decreases |fs|
  {
    if fs == [] then Some(f)
    else
      var g := Store(f, NameOf(fs[0]), IndexOf(fs[0]), fs[0].value);
      if g.None? then None else StoreAll(g.value, fs[1..])
  }

  /** A field as it is read back. */
  function Read(f: Field): Field { f.(value := AsLatin(f.value)) }

  function ReadAll(fs: seq<Field>): seq<Field> { if fs == [] then [] else [Read(fs[0])] + ReadAll(fs[1..]) }

  lemma {:induction false} ReadKeys(fs: seq<Field>)
    ensures fs != [] ==> ReadAll(fs)[0] == Read(fs[0]) && ReadAll(fs)[1..] == ReadAll(fs[1..])
    ensures fs != [] ==> NameOf(Read(fs[0])) == NameOf(fs[0]) && IndexOf(Read(fs[0])) == IndexOf(fs[0])
  {
  }

  /** Collecting from the line feed before the first field line to the end of the entry. */
  lemma {:induction false} CollectFields(t: string, p: nat, fs: seq<Field>, acc: Fields)
    requires GoodFields(fs) && 1 <= p <= |t| && t[p - 1] == '\n'
    requires At(t, p, FieldLines(fs)) && p + |FieldLines(fs)| <= |t|
    requires forall i :: p + |FieldLines(fs)| <= i < |t| ==> t[i] == ' '
    ensures Collect(t, p - 1, acc) == StoreAll(acc, ReadAll(fs))
    decreases |fs|
  {
    hide FieldLine, GoodField, Search, Collect, Store, NameOf, IndexOf, At, AsLatin;
    ReadKeys(fs);
    if fs == [] {
      NothingToCollect(t, p, acc);
    } else {
      var f := fs[0];
      AtSplit(t, p, FieldLine(f), FieldLines(fs[1..]));
      CollectOne(t, p, f, acc);
      LineFeedEnds(t, p, f);
      var g := Store(acc, NameOf(f), IndexOf(f), AsLatin(f.value));
      if g.Some? {
        CollectFields(t, p + |FieldLine(f)|, fs[1..], g.value);
      }
    }
  }

  lemma {:induction false} NothingToCollect(t: string, p: nat, acc: Fields)
    requires 1 <= p <= |t| && t[p - 1] == '\n' && forall i :: p <= i < |t| ==> t[i] == ' '
    ensures Collect(t, p - 1, acc) == Some(acc)
  {
    SearchOver(t, p - 1, |t|);
  }

  lemma {:induction false} CollectOne(t: string, p: nat, f: Field, acc: Fields)
    requires GoodField(f) && 1 <= p <= |t| && t[p - 1] == '\n' && At(t, p, FieldLine(f))
    ensures p + |FieldLine(f)| <= |t|
    ensures var g := Store(acc, NameOf(f), IndexOf(f), AsLatin(f.value));
            Collect(t, p - 1, acc) == if g.None? then None else Collect(t, p + |FieldLine(f)| - 1, g.value)
  {
    hide FieldLine, FieldKey, GoodField, Search, ValueEnd, Store, NameOf, IndexOf, Literal, At, Decode, AsLatin;
    OverNewline(t, p);
    FieldRead(t, p, f);
    LiteralDecoded(f.value);
  }

  lemma {:induction false} OverNewline(t: string, p: nat)
    requires 1 <= p <= |t| && t[p - 1] == '\n'
    ensures Search(t, p - 1) == Search(t, p)
  {
    SearchOver(t, p - 1, p);
  }

  lemma {:induction false} LineFeedEnds(t: string, p: nat, f: Field)
    requires At(t, p, FieldLine(f))
    ensures p + |FieldLine(f)| <= |t| && t[p + |FieldLine(f)| - 1] == '\n'
  {
    hide FieldKey, Literal;
    LineParts(t, p, f);
    AtIndex(t, p + |FieldLine(f)| - 2, ",\n", 1);
  }

  // ---- the fields of a case ----

  function LatinAll(ss: seq<string>): seq<string> { if ss == [] then [] else [AsLatin(ss[0])] + LatinAll(ss[1..]) }

  /** A case as its strings are read back. */
  function LatinCase(c: Case): Case {
    Case(c.index, AsLatin(c.source), AsLatin(c.id), AsLatin(c.domain), AsLatin(c.title), AsLatin(c.question),
         LatinAll(c.choices), AsLatin(c.answer))
  }

  lemma {:induction false} ReadJoin(a: seq<Field>, b: seq<Field>)
    ensures ReadAll(a + b) == ReadAll(a) + ReadAll(b)
  {
    hide Read;
    if a == [] {
      assert a + b == b;
    } else {
      assert (a + b)[1..] == a[1..] + b;
      ReadJoin(a[1..], b);
    }
  }

  lemma {:induction false} ReadChoices(choices: seq<string>, from: nat)
    ensures ReadAll(ChoiceFields(choices, from)) == ChoiceFields(LatinAll(choices), from)
    decreases |choices|
  {
    hide AsLatin;
    if choices != [] {
      ReadChoices(choices[1..], from + 1);
      var fs := ChoiceFields(choices, from);
      assert fs[0] == Choice(from, choices[0]) && fs[1..] == ChoiceFields(choices[1..], from + 1);
      assert LatinAll(choices)[1..] == LatinAll(choices[1..]);
    }
  }

  /** Reading the fields of a case gives the fields of the case as read. */
  lemma {:induction false} ReadFieldsOf(c: Case)
    ensures ReadAll(FieldsOf(c)) == FieldsOf(LatinCase(c))
  {
    var front := [Named("source", c.source), Named("id", c.id), Named("domain", c.domain), Named("title", c.title),
                  Named("question", c.question)];
    ReadChoices(c.choices, 0);
    ReadFive(front);
    ReadJoin(front, ChoiceFields(c.choices, 0));
    ReadJoin(front + ChoiceFields(c.choices, 0), [Named("answer", c.answer)]);
    ReadLast([Named("answer", c.answer)]);
    hide AsLatin, ReadAll, ChoiceFields;
  }

  lemma {:induction false} ReadLast(fs: seq<Field>)
    requires |fs| == 1
    ensures ReadAll(fs) == [Read(fs[0])]
  {
    assert fs[1..] == [];
  }

  lemma {:induction false} ReadFive(fs: seq<Field>)
    requires |fs| == 5
    ensures ReadAll(fs) == [Read(fs[0]), Read(fs[1]), Read(fs[2]), Read(fs[3]), Read(fs[4])]
  {
    hide Read, ReadAll;
    assert fs == [fs[0]] + ([fs[1]] + ([fs[2]] + ([fs[3]] + [fs[4]])));
    ReadJoin([fs[0]], [fs[1]] + ([fs[2]] + ([fs[3]] + [fs[4]])));
    ReadJoin([fs[1]], [fs[2]] + ([fs[3]] + [fs[4]]));
    ReadJoin([fs[2]], [fs[3]] + [fs[4]]);
    ReadJoin([fs[3]], [fs[4]]);
    ReadLast([fs[0]]);
    ReadLast([fs[1]]);
    ReadLast([fs[2]]);
    ReadLast([fs[3]]);
    ReadLast([fs[4]]);
  }

  lemma {:induction false} ChoicesStored(f: Fields, choices: seq<string>, more: seq<Field>)
    ensures StoreAll(f, ChoiceFields(choices, |f.choices|) + more) == StoreAll(f.(choices := f.choices + choices), more)
    decreases |choices|
  {
    var fs := ChoiceFields(choices, |f.choices|);
    if choices == [] {
      assert fs + more == more && f.choices + choices == f.choices;
    } else {
      var g := f.(choices := f.choices + [choices[0]]);
      assert (fs + more)[1..] == ChoiceFields(choices[1..], |g.choices|) + more && (fs + more)[0] == fs[0];
      assert PadTo(f.choices, |f.choices| + 1) == f.choices + [""];
      assert (f.choices + [""])[|f.choices| := choices[0]] == g.choices;
      ChoicesStored(g, choices[1..], more);
      assert g.choices + choices[1..] == f.choices + choices;
    }
  }

  lemma {:induction false} StoreNamed(f: Fields, name: string, value: string, more: seq<Field>)
    requires name != "choice"
    ensures StoreAll(f, [Named(name, value)] + more) == StoreAll(f.(named := f.named[name := value]), more)
  {
    assert ([Named(name, value)] + more)[1..] == more;
  }

  function StoredCase(c: Case): Fields {
    Fields(map["source" := c.source, "id" := c.id, "domain" := c.domain, "title" := c.title,
               "question" := c.question, "answer" := c.answer], c.choices)
  }

  lemma {:induction false} CaseStored(c: Case)
    ensures StoreAll(Fields(map[], []), FieldsOf(c)) == Some(StoredCase(c))
  {
    hide StoreAll, ChoiceFields, Store;
    var cf, ans := ChoiceFields(c.choices, 0), [Named("answer", c.answer)];
    var m0: map<string, string> := map[];
    var m1 := m0["source" := c.source];
    var m2 := m1["id" := c.id];
    var m3 := m2["domain" := c.domain];
    var m4 := m3["title" := c.title];
    var m5 := m4["question" := c.question];
    var r5 := cf + ans;
    var r4 := [Named("question", c.question)] + r5;
    var r3 := [Named("title", c.title)] + r4;
    var r2 := [Named("domain", c.domain)] + r3;
    var r1 := [Named("id", c.id)] + r2;
    assert FieldsOf(c) == [Named("source", c.source)] + r1;
    StoreNamed(Fields(m0, []), "source", c.source, r1);
    StoreNamed(Fields(m1, []), "id", c.id, r2);
    StoreNamed(Fields(m2, []), "domain", c.domain, r3);
    StoreNamed(Fields(m3, []), "title", c.title, r4);
    StoreNamed(Fields(m4, []), "question", c.question, r5);
    ChoicesStored(Fields(m5, []), c.choices, ans);
    assert [] + c.choices == c.choices && ans + [] == ans;
    StoreNamed(Fields(m5, c.choices), "answer", c.answer, []);
    StoreNothing(Fields(m5["answer" := c.answer], c.choices));
  }

  lemma {:induction false} StoreNothing(f: Fields)
    ensures StoreAll(f, []) == Some(f)
  {
  }

  lemma {:induction false} ChoiceFieldsGood(choices: seq<string>, from: nat)
    ensures GoodFields(ChoiceFields(choices, from))
    decreases |choices|
  {
    if choices != [] {
      ChoiceFieldsGood(choices[1..], from + 1);
    }
  }

  lemma {:induction false} GoodFieldsJoin(a: seq<Field>, b: seq<Field>)
    requires GoodFields(a) && GoodFields(b)
    ensures GoodFields(a + b)
  {
    hide GoodField;
    if a == [] {
      assert a + b == b;
    } else {
      assert (a + b)[1..] == a[1..] + b;
      GoodFieldsJoin(a[1..], b);
    }
  }

  lemma {:induction false} GoodOne(name: string, value: string)
    requires Name(name) && name != "choice"
    ensures GoodFields([Named(name, value)])
  {
    assert [Named(name, value)][1..] == [];
  }

  lemma {:induction false} TableNames()
    ensures Name("source") && Name("id") && Name("domain") && Name("title") && Name("question") && Name("answer")
    ensures "source"[0] != 'c' && "id"[0] != 'c' && "domain"[0] != 'c' && "title"[0] != 'c' && "question"[0] != 'c'
            && "answer"[0] != 'c'
  {
  }

  lemma {:induction false} FieldsGood(c: Case)
    ensures GoodFields(FieldsOf(c))
  {
    TableNames();
    hide Name;
    GoodOne("source", c.source);
    GoodOne("id", c.id);
    GoodOne("domain", c.domain);
    GoodOne("title", c.title);
    GoodOne("question", c.question);
    GoodOne("answer", c.answer);
    ChoiceFieldsGood(c.choices, 0);
    JoinedFields(c);
  }

  lemma {:induction false} JoinedFields(c: Case)
    requires GoodFields([Named("source", c.source)]) && GoodFields([Named("id", c.id)])
    requires GoodFields([Named("domain", c.domain)]) && GoodFields([Named("title", c.title)])
    requires GoodFields([Named("question", c.question)]) && GoodFields([Named("answer", c.answer)])
    requires GoodFields(ChoiceFields(c.choices, 0))
    ensures GoodFields(FieldsOf(c))
  {
    hide GoodFields, ChoiceFields;
    var a, b, d, e, q := [Named("source", c.source)], [Named("id", c.id)], [Named("domain", c.domain)],
                         [Named("title", c.title)], [Named("question", c.question)];
    GoodFieldsJoin(a, b);
    GoodFieldsJoin(a + b, d);
    GoodFieldsJoin(a + b + d, e);
    GoodFieldsJoin(a + b + d + e, q);
    GoodFieldsJoin(a + b + d + e + q, ChoiceFields(c.choices, 0));
    GoodFieldsJoin(a + b + d + e + q + ChoiceFields(c.choices, 0), [Named("answer", c.answer)]);
    assert a + b + d + e + q == [Named("source", c.source), Named("id", c.id), Named("domain", c.domain),
                                 Named("title", c.title), Named("question", c.question)];
  }

  lemma {:induction false} NonEmptyOfDropped(choices: seq<string>)
    ensures NonEmpty(DropEmpty(choices)) == NonEmpty(choices)
  {
    if choices != [] && choices[|choices| - 1] == "" {
      NonEmptyOfDropped(choices[..|choices| - 1]);
      NonEmptySnoc(choices[..|choices| - 1], "");
      assert choices == choices[..|choices| - 1] + [""];
    }
  }

  lemma {:induction false} NonEmptySnoc(choices: seq<string>, last: string)
    ensures NonEmpty(choices + [last]) == NonEmpty(choices) + (if last == "" then [] else [last])
  {
    if choices != [] {
      assert (choices + [last])[1..] == choices[1..] + [last];
      NonEmptySnoc(choices[1..], last);
    } else {
      assert NonEmpty([last]) == (if last == "" then [] else [last]) + NonEmpty([last][1..]);
    }
  }
}
