/**
 The assumptions `WalText` makes on the JSON library can be met: rendering a log record is
 injective as soon as printing a number is, so a parser that inverts it exists.
 */
module RecordFormat {
  import opened Prelude
  import opened VectorIndex
  import opened WalText

  predicate Free(s: string, c: char)
  {
    forall i :: 0 <= i < |s| ==> s[i] != c
  }

  /** The first delimiter splits a text in only one way. */
  lemma FirstDelimiter(x: string, a: string, y: string, b: string, c: char)
    requires Free(x, c) && Free(y, c) && x + [c] + a == y + [c] + b
    ensures x == y && a == b
  {
    var s, t := x + [c] + a, y + [c] + b;
    assert s[|x|] == c && t[|y|] == c;
    assert forall i :: 0 <= i < |x| ==> s[i] == x[i];
    assert forall i :: 0 <= i < |y| ==> t[i] == y[i];
    assert s[..|x|] == x && t[..|y|] == y;
    assert s[|x| + 1..] == a && t[|y| + 1..] == b;
  }

  predicate Simple(items: seq<string>)
  {
    forall i :: 0 <= i < |items| ==> items[i] != "" && Free(items[i], ',')
  }

  /** A list of simple items can be read back from its text. */
  lemma {:induction false} SimpleListInjective(a: seq<string>, b: seq<string>)
    requires Simple(a) && Simple(b) && CommaJoin(a) == CommaJoin(b)
    ensures a == b
  {
    assert |a| >= 2 ==> CommaJoin(a)[|a[0]|] == ',';
    assert |b| >= 2 ==> CommaJoin(b)[|b[0]|] == ',';
    if |a| >= 2 && |b| >= 2 {
      FirstDelimiter(a[0], CommaJoin(a[1..]), b[0], CommaJoin(b[1..]), ',');
      SimpleListInjective(a[1..], b[1..]);
      assert a == [a[0]] + a[1..] && b == [b[0]] + b[1..];
    }
  }

  lemma {:induction false} CommaJoinFree(items: seq<string>, c: char)
    requires c != ',' && forall i :: 0 <= i < |items| ==> Free(items[i], c)
    ensures Free(CommaJoin(items), c)
  {
    if |items| >= 2 {
      CommaJoinFree(items[1..], c);
    }
  }

  /** One bracketed list with no closing bracket inside. */
  predicate Bracketed(s: string)
  {
    |s| >= 2 && s[0] == '[' && Last(s) == ']' && Free(Front(s), ']')
  }

  /** What follows the first item of a joined list. */
  function Tail(items: seq<string>): string
  {
    if |items| <= 1 then "" else "," + CommaJoin(items[1..])
  }

  lemma HeadTail(items: seq<string>)
    requires items != [] && Bracketed(items[0])
    ensures CommaJoin(items) == Front(items[0]) + [']'] + Tail(items)
  {
    assert items[0] == Front(items[0]) + [']'];
  }

  lemma {:induction false} BracketedListInjective(a: seq<string>, b: seq<string>)
    requires forall i :: 0 <= i < |a| ==> Bracketed(a[i])
    requires forall i :: 0 <= i < |b| ==> Bracketed(b[i])
    requires CommaJoin(a) == CommaJoin(b)
    ensures a == b
  {
    NothingJoined();
    hide CommaJoin, Tail, Bracketed;
    if a != [] {
      HeadTail(a);
    }
    if b != [] {
      HeadTail(b);
    }
    if a != [] && b != [] {
      FirstItems(a, b);
      assert a[0] == b[0];
      TailsAlike(a, b);
      BracketedListInjective(a[1..], b[1..]);
      assert a == [a[0]] + a[1..] && b == [b[0]] + b[1..];
    }
  }

  lemma NothingJoined()
    ensures CommaJoin([]) == ""
  {
  }

  lemma FirstItems(a: seq<string>, b: seq<string>)
    requires a != [] && b != [] && Bracketed(a[0]) && Bracketed(b[0])
    requires CommaJoin(a) == CommaJoin(b)
    ensures a[0] == b[0] && Tail(a) == Tail(b)
  {
    hide CommaJoin, Tail;
    HeadTail(a);
    HeadTail(b);
    FirstDelimiter(Front(a[0]), Tail(a), Front(b[0]), Tail(b), ']');
    assert a[0] == Front(a[0]) + [']'] && b[0] == Front(b[0]) + [']'];
  }

  lemma TailsAlike(a: seq<string>, b: seq<string>)
    requires a != [] && b != [] && Tail(a) == Tail(b)
    ensures CommaJoin(a[1..]) == CommaJoin(b[1..])
  {
    assert |a| >= 2 ==> Tail(a)[1..] == CommaJoin(a[1..]);
    assert |b| >= 2 ==> Tail(b)[1..] == CommaJoin(b[1..]);
  }

  // ---------------------------------------------------------------- records

  predicate NumberSimple(json: Json, x: Float)
  {
    json.number(x) != "" && Free(json.number(x), ',') && Free(json.number(x), ']')
  }

  predicate NumbersApart(json: Json, x: Float, y: Float)
  {
    json.number(x) == json.number(y) ==> x == y
  }

  /** What the printer of numbers must keep: texts without separators, a different one for each number. */
  ghost predicate PrintsNumbers(json: Json)
  {
    (forall x :: NumberSimple(json, x)) && (forall x, y :: NumbersApart(json, x, y))
  }

  lemma DigitsSimple(n: nat)
    ensures Plain(Decimal(n)) && Free(Decimal(n), ',') && Free(Decimal(n), ']')
  {
  }

  lemma IdsInjective(a: seq<Id>, b: seq<Id>)
    requires CommaJoin(IdTexts(a)) == CommaJoin(IdTexts(b))
    ensures a == b
  {
    forall n ensures Free(Decimal(n), ',') {
      DigitsSimple(n);
    }
    SimpleListInjective(IdTexts(a), IdTexts(b));
    forall i | 0 <= i < |a| ensures i < |b| && a[i] == b[i] {
      assert IdTexts(a)[i] == IdTexts(b)[i];
      DecimalInjective(a[i], b[i]);
    }
    assert |IdTexts(a)| == |IdTexts(b)|;
  }

  lemma IdsFree(ids: seq<Id>)
    ensures Free(CommaJoin(IdTexts(ids)), ']')
  {
    forall n ensures Free(Decimal(n), ']') {
      DigitsSimple(n);
    }
    CommaJoinFree(IdTexts(ids), ']');
  }

  function NumberTexts(json: Json, v: Vec): seq<string>
  {
    seq(|v.values|, i requires 0 <= i < |v.values| => json.number(v.values[i]))
  }

  lemma VectorTextIs(json: Json, v: Vec)
    requires PrintsNumbers(json)
    ensures VectorText(json, v) == "[" + CommaJoin(NumberTexts(json, v)) + "]"
    ensures Bracketed(VectorText(json, v)) && Simple(NumberTexts(json, v))
  {
    assert forall i :: 0 <= i < |v.values| ==> NumberSimple(json, v.values[i]);
    CommaJoinFree(NumberTexts(json, v), ']');
    var s := VectorText(json, v);
    assert Front(s) == "[" + CommaJoin(NumberTexts(json, v));
  }

  lemma VectorTextInjective(json: Json, v: Vec, w: Vec)
    requires PrintsNumbers(json) && VectorText(json, v) == VectorText(json, w)
    ensures v == w
  {
    var a, b := NumberTexts(json, v), NumberTexts(json, w);
    VectorTextIs(json, v);
    VectorTextIs(json, w);
    assert VectorText(json, v)[1..|VectorText(json, v)| - 1] == CommaJoin(a);
    assert VectorText(json, w)[1..|VectorText(json, w)| - 1] == CommaJoin(b);
    SimpleListInjective(a, b);
    assert |a| == |b|;
    forall i | 0 <= i < |v.values| ensures v.values[i] == w.values[i] {
      assert a[i] == b[i] && NumbersApart(json, v.values[i], w.values[i]);
    }
    assert v.values == w.values;
  }

  lemma VectorsInjective(json: Json, a: seq<Vec>, b: seq<Vec>)
    requires PrintsNumbers(json) && CommaJoin(VectorTexts(json, a)) == CommaJoin(VectorTexts(json, b))
    ensures a == b
  {
    forall v ensures Bracketed(VectorText(json, v)) {
      VectorTextIs(json, v);
    }
    BracketedListInjective(VectorTexts(json, a), VectorTexts(json, b));
    assert |VectorTexts(json, a)| == |VectorTexts(json, b)|;
    forall i | 0 <= i < |a| ensures a[i] == b[i] {
      assert VectorTexts(json, a)[i] == VectorTexts(json, b)[i];
      VectorTextInjective(json, a[i], b[i]);
    }
  }

  function AddPrefix(): string
  {
    "{" + Member("op", Quoted("add")) + "," + Quoted("ids") + ":["
  }

  function RemovePrefix(): string
  {
    "{" + Member("op", Quoted("remove")) + "," + Quoted("id") + ":"
  }

  function VectorsPrefix(): string
  {
    "," + Quoted("vectors") + ":["
  }

  lemma RenderAdd(json: Json, ids: seq<Id>, vectors: seq<Vec>)
    ensures Render(json, Op.Add(ids, vectors)) ==
            AddPrefix() + (CommaJoin(IdTexts(ids)) + [']'] + (VectorsPrefix() + CommaJoin(VectorTexts(json, vectors)) + "]}"))
  {
    hide CommaJoin, Quoted, IdTexts, VectorTexts, Member;
    var op, a, b := Member("op", Quoted("add")), CommaJoin(IdTexts(ids)), CommaJoin(VectorTexts(json, vectors));
    var l, r := "[" + a + "]", "[" + b + "]";
    assert Members(json, Op.Add(ids, vectors)) == [op, Member("ids", l), Member("vectors", r)];
    CommaJoinThree(op, Member("ids", l), Member("vectors", r));
    MemberIs("ids", l);
    MemberIs("vectors", r);
    hide Members;
    var tail := Quoted("vectors") + ":" + r;
    assert "{" + (op + "," + ((Quoted("ids") + ":" + l) + "," + tail)) + "}" ==
           AddPrefix() + (a + [']'] + ("," + tail + "}"));
    assert "," + tail + "}" == VectorsPrefix() + b + "]}";
  }

  lemma CommaJoinThree(a: string, b: string, c: string)
    ensures CommaJoin([a, b, c]) == a + "," + (b + "," + c)
  {
    assert [a, b, c][1..] == [b, c];
    CommaJoinTwo(b, c);
  }

  lemma CommaJoinTwo(a: string, b: string)
    ensures CommaJoin([a, b]) == a + "," + b
  {
    assert [a, b][1..] == [b];
  }

  lemma MemberIs(name: string, value: string)
    ensures Member(name, value) == Quoted(name) + ":" + value
  {
  }

  lemma RenderRemove(json: Json, id: Id)
    ensures Render(json, Op.Remove(id)) == RemovePrefix() + Decimal(id) + "}"
  {
    hide CommaJoin;
    CommaJoinTwo(Member("op", Quoted("remove")), Member("id", Decimal(id)));
  }

  lemma AddPrefixIs()
    ensures |AddPrefix()| > 7 && AddPrefix()[7] == 'a'
  {
    assert AddPrefix() == "{\"op\":\"add\",\"ids\":[";
  }

  lemma RemovePrefixIs()
    ensures |RemovePrefix()| > 7 && RemovePrefix()[7] == 'r'
  {
    assert RemovePrefix() == "{\"op\":\"remove\",\"id\":";
  }

  /** The eighth character tells the two kinds of record apart. */
  lemma KindShows(json: Json, op: Op)
    ensures |Render(json, op)| > 7 && Render(json, op)[7] == if op.Add? then 'a' else 'r'
  {
    hide Render, AddPrefix, RemovePrefix;
    match op
    case Add(ids, vectors) =>
      RenderAdd(json, ids, vectors);
      AddPrefixIs();
    case Remove(id) =>
      RenderRemove(json, id);
      RemovePrefixIs();
  }

  lemma SamePrefix(p: string, a: string, b: string)
    requires p + a == p + b
    ensures a == b
  {
    assert (p + a)[|p|..] == a && (p + b)[|p|..] == b;
  }

  lemma SameSuffix(a: string, b: string, q: string)
    requires a + q == b + q
    ensures a == b
  {
    assert |a| == |b|;
    assert (a + q)[..|a|] == a && (b + q)[..|b|] == b;
  }

  lemma AddInjective(json: Json, ids: seq<Id>, vectors: seq<Vec>, ids': seq<Id>, vectors': seq<Vec>)
    requires PrintsNumbers(json) && Render(json, Op.Add(ids, vectors)) == Render(json, Op.Add(ids', vectors'))
    ensures ids == ids' && vectors == vectors'
  {
    var a, a' := CommaJoin(IdTexts(ids)), CommaJoin(IdTexts(ids'));
    var b, b' := CommaJoin(VectorTexts(json, vectors)), CommaJoin(VectorTexts(json, vectors'));
    RenderAdd(json, ids, vectors);
    RenderAdd(json, ids', vectors');
    hide Render;
    SamePrefix(AddPrefix(), a + [']'] + (VectorsPrefix() + b + "]}"), a' + [']'] + (VectorsPrefix() + b' + "]}"));
    IdsFree(ids);
    IdsFree(ids');
    FirstDelimiter(a, VectorsPrefix() + b + "]}", a', VectorsPrefix() + b' + "]}", ']');
    SameSuffix(VectorsPrefix() + b, VectorsPrefix() + b', "]}");
    SamePrefix(VectorsPrefix(), b, b');
    IdsInjective(ids, ids');
    VectorsInjective(json, vectors, vectors');
  }

  /** Two operations never render alike. */
  lemma RenderInjective(json: Json, x: Op, y: Op)
    requires PrintsNumbers(json) && Render(json, x) == Render(json, y)
    ensures x == y
  {
    KindShows(json, x);
    KindShows(json, y);
    if x.Add? {
      AddInjective(json, x.ids, x.vectors, y.ids, y.vectors);
    } else {
      RenderRemove(json, x.id);
      RenderRemove(json, y.id);
      SameSuffix(RemovePrefix() + Decimal(x.id), RemovePrefix() + Decimal(y.id), "}");
      SamePrefix(RemovePrefix(), Decimal(x.id), Decimal(y.id));
      DecimalInjective(x.id, y.id);
    }
  }

  // ---------------------------------------------------------------- a printer and a parser that fit

  /** A number formatter that prints the bit pattern. */
  function FloatText(x: Float): string
  {
    Decimal(x.bits)
  }

  /** Rendering does not look at the parser. */
  lemma RenderIgnoresDecode(a: Json, b: Json, op: Op)
    requires a.number == b.number
    ensures Render(a, op) == Render(b, op)
  {
    forall v: Vec ensures VectorText(a, v) == VectorText(b, v) {
      assert seq(|v.values|, i requires 0 <= i < |v.values| => a.number(v.values[i])) ==
             seq(|v.values|, i requires 0 <= i < |v.values| => b.number(v.values[i]));
    }
    if op.Add? {
      assert VectorTexts(a, op.vectors) == VectorTexts(b, op.vectors);
    }
  }

  ghost function Parse(printer: Json, s: string): Option<Op>
  {
    if exists op :: Render(printer, op) == s then
      var op :| Render(printer, op) == s;
      Some(op)
    else None
  }

  lemma ParseInverts(printer: Json, op: Op)
    requires PrintsNumbers(printer)
    ensures Parse(printer, Render(printer, op)) == Some(op)
  {
    var s := Render(printer, op);
    var found := Parse(printer, s);
    assert found.Some? && Render(printer, found.value) == s;
    RenderInjective(printer, found.value, op);
  }

  /** For every printer of numbers that `WalText` allows there is a parser as it assumes. */
  lemma ParserExists(printer: Json) returns (json: Json)
    requires printer.PlainNumbers() && PrintsNumbers(printer)
    ensures json.Valid() && json.number == printer.number
  {
    json := Json(printer.number, s => Parse(printer, s));
    forall x ensures json.PlainNumber(x) {
      assert printer.PlainNumber(x);
    }
    forall op ensures Render(json, op) == Render(printer, op) && json.decode(Render(json, op)) == Some(op) {
      RenderIgnoresDecode(json, printer, op);
      ParseInverts(printer, op);
    }
    forall s | json.decode(s).Some? ensures OneValue(s) {
      var op := json.decode(s).value;
      assert Render(printer, op) == s;
      RenderIgnoresDecode(json, printer, op);
      RenderOneValue(json, op);
    }
  }

  const PRINTER := Json(FloatText, (s: string) => None)

  lemma PrinterPrints()
    ensures PRINTER.PlainNumbers() && PrintsNumbers(PRINTER)
  {
    forall x ensures NumberSimple(PRINTER, x) && PRINTER.PlainNumber(x) {
      DigitsSimple(x.bits);
    }
    forall x, y ensures NumbersApart(PRINTER, x, y) {
      if PRINTER.number(x) == PRINTER.number(y) {
        DecimalInjective(x.bits, y.bits);
      }
    }
  }

  /** And such a printer there is. */
  lemma ValidJsonExists() returns (json: Json)
    ensures json.Valid()
  {
    PrinterPrints();
    json := ParserExists(PRINTER);
  }
}
