/**
 The write-ahead log as text: one JSON object per line.  A crash may leave any prefix of
 the line being appended; recovery reads lines until one does not parse.
 */
module WalText {
  import opened Prelude
  import opened VectorIndex
  import opened LogFile

  // ---------------------------------------------------------------- JSON text

  /** What `str.strip` removes. */
  predicate IsSpace(c: char)
  {
    || '\t' <= c <= '\r' || '\U{1C}' <= c <= ' ' || c == '\U{85}' || c == '\U{A0}' || c == '\U{1680}'
    || '\U{2000}' <= c <= '\U{200A}' || c == '\U{2028}' || c == '\U{2029}' || c == '\U{202F}'
    || c == '\U{205F}' || c == '\U{3000}'
  }

  /** How deep in brackets a JSON text is, and whether inside a string literal. */
  datatype Scan = Scan(depth: int, inString: bool, escaped: bool)

  const TOP := Scan(0, false, false)

  function ScanChar(st: Scan, c: char): Scan
  {
    if st.inString then
      if st.escaped then st.(escaped := false)
      else if c == '\\' then st.(escaped := true)
      else if c == '"' then st.(inString := false)
      else st
    else if c == '"' then st.(inString := true)
    else if c == '{' || c == '[' then st.(depth := st.depth + 1)
    else if c == '}' || c == ']' then st.(depth := st.depth - 1)
    else st
  }

  function ScanAll(st: Scan, s: string): Scan
    decreases |s|
  {
    if s == "" then st else ScanChar(ScanAll(st, Front(s)), Last(s))
  }

  /** A text that is one bracketed JSON value: it closes at its end and nowhere before. */
  ghost predicate OneValue(s: string)
  {
    && s != ""
    && ScanAll(TOP, s) == TOP
    && forall i {:trigger ScanAll(TOP, s[..i])} :: 0 < i < |s| ==> ScanAll(TOP, s[..i]) != TOP
  }

  /**
   The number formatter and the parser of the JSON library.  Numbers are printed without
   structure or white space; the parser inverts the printer, and of the texts that start
   with '{' and do not end in white space it accepts only those that are one bracketed
   value.  (It also accepts white space around a value, which the log strips beforehand.)
   */
  datatype Json = Json(number: Float -> string, decode: string -> Option<Op>)
  {
    predicate PlainNumber(x: Float)
    {
      Plain(number(x))
    }

    ghost predicate PlainNumbers()
    {
      forall x :: PlainNumber(x)
    }

    ghost predicate Valid()
    {
      && PlainNumbers()
      && (forall op :: decode(Render(this, op)) == Some(op))
      && (forall s :: decode(s).Some? && s != "" && s[0] == '{' && !IsSpace(Last(s)) ==> OneValue(s))
    }
  }

  predicate PlainChar(c: char)
  {
    !IsSpace(c) && c != '"' && c != '\\' && c != '{' && c != '}' && c != '[' && c != ']'
  }

  predicate Plain(s: string)
  {
    forall i :: 0 <= i < |s| ==> PlainChar(s[i])
  }

  function CommaJoin(items: seq<string>): string
  {
    if items == [] then "" else if |items| == 1 then items[0] else items[0] + "," + CommaJoin(items[1..])
  }

  function JsonList(items: seq<string>): string
  {
    "[" + CommaJoin(items) + "]"
  }

  function IdTexts(ids: seq<Id>): seq<string>
  {
    seq(|ids|, i requires 0 <= i < |ids| => Decimal(ids[i]))
  }

  function VectorText(json: Json, v: Vec): string
  {
    JsonList(seq(|v.values|, i requires 0 <= i < |v.values| => json.number(v.values[i])))
  }

  function VectorTexts(json: Json, vs: seq<Vec>): seq<string>
  {
    seq(|vs|, i requires 0 <= i < |vs| => VectorText(json, vs[i]))
  }

  /** The members of the JSON object, in the order the entry lists them. */
  function Members(json: Json, op: Op): seq<string>
  {
    match op
    case Add(ids, vectors) =>
      [Member("op", Quoted("add")),
       Member("ids", JsonList(IdTexts(ids))),
       Member("vectors", JsonList(VectorTexts(json, vectors)))]
    case Remove(id) => [Member("op", Quoted("remove")), Member("id", Decimal(id))]
  }

  function Quoted(name: string): string
  {
    "\"" + name + "\""
  }

  function Member(name: string, value: string): string
  {
    Quoted(name) + ":" + value
  }

  /** `json.dumps(entry, separators=(",", ":"))`. */
  function Render(json: Json, op: Op): string
  {
    "{" + CommaJoin(Members(json, op)) + "}"
  }

  // ---------------------------------------------------------------- scanning rendered text

  lemma {:induction false} ScanConcat(st: Scan, a: string, b: string)
    ensures ScanAll(st, a + b) == ScanAll(ScanAll(st, a), b)
    decreases |b|
  {
    if b == "" {
      assert a + b == a;
    } else {
      assert Front(a + b) == a + Front(b) && Last(a + b) == Last(b);
      ScanConcat(st, a, Front(b));
    }
  }

  /** Starting deeper changes nothing but the depth. */
  lemma {:induction false} ScanShift(st: Scan, k: int, s: string)
    ensures ScanAll(st.(depth := st.depth + k), s) ==
            ScanAll(st, s).(depth := ScanAll(st, s).depth + k)
    decreases |s|
  {
    if s != "" {
      ScanShift(st, k, Front(s));
    }
  }

  /** No white space, no escapes: what all rendered text is made of. */
  predicate Clean(s: string)
  {
    forall i :: 0 <= i < |s| ==> !IsSpace(s[i]) && s[i] != '\\'
  }

  /** Opens and closes evenly, and never closes more than it opened. */
  ghost predicate Balanced(s: string)
  {
    && Clean(s)
    && ScanAll(TOP, s) == TOP
    && forall i {:trigger ScanAll(TOP, s[..i])} :: 0 <= i <= |s| ==> ScanAll(TOP, s[..i]).depth >= 0
  }

  lemma BalancedConcat(a: string, b: string)
    requires Balanced(a) && Balanced(b)
    ensures Balanced(a + b)
  {
    ScanConcat(TOP, a, b);
    forall i | 0 <= i <= |a + b| ensures ScanAll(TOP, (a + b)[..i]).depth >= 0 {
      if i <= |a| {
        assert (a + b)[..i] == a[..i];
      } else {
        assert (a + b)[..i] == a + b[..i - |a|];
        ScanConcat(TOP, a, b[..i - |a|]);
      }
    }
  }

  lemma {:induction false} PlainBalanced(s: string)
    requires Plain(s)
    ensures Balanced(s)
    decreases |s|
  {
    if s != "" {
      PlainBalanced(Front(s));
      forall i | 0 <= i <= |s| ensures ScanAll(TOP, s[..i]).depth >= 0 {
        if i < |s| {
          assert s[..i] == Front(s)[..i];
        } else {
          assert s[..i] == s;
        }
      }
    }
  }

  /** Scanning plain characters changes nothing, wherever the scan stands outside an escape. */
  lemma {:induction false} PlainScan(st: Scan, s: string)
    requires Plain(s) && !st.escaped
    ensures ScanAll(st, s) == st
    decreases |s|
  {
    if s != "" {
      PlainScan(st, Front(s));
    }
  }

  lemma QuotedBalanced(s: string)
    requires Plain(s)
    ensures Balanced(Quoted(s))
  {
    var t := Quoted(s);
    assert forall i :: 0 <= i < |t| ==> i == 0 || i == |t| - 1 || t[i] == s[i - 1];
    forall i | 0 <= i <= |t|
      ensures ScanAll(TOP, t[..i]).depth == 0 && (i == |t| ==> ScanAll(TOP, t[..i]) == TOP)
    {
      if i == 0 {
      } else {
        var inside := if i == |t| then s else s[..i - 1];
        assert Front(['"']) == "" && ScanAll(TOP, ['"']) == Scan(0, true, false);
        ScanConcat(TOP, "\"", inside);
        PlainScan(Scan(0, true, false), inside);
        if i < |t| {
          assert t[..i] == "\"" + inside;
        } else {
          assert t[..i] == t && Front(t) == "\"" + s && Last(t) == '"';
        }
      }
    }
    assert t[..|t|] == t;
  }

  ghost predicate Bracket(open: char, close: char)
  {
    (open == '{' && close == '}') || (open == '[' && close == ']')
  }

  /** Between its opening and closing bracket a bracketed text stays at depth one or more. */
  lemma InsideBrackets(open: char, s: string, close: char, i: nat)
    requires Balanced(s) && Bracket(open, close) && i <= |s|
    ensures ScanAll(TOP, [open] + s[..i]) == ScanAll(TOP, s[..i]).(depth := ScanAll(TOP, s[..i]).depth + 1)
    ensures ([open] + s + [close])[..i + 1] == [open] + s[..i]
  {
    assert Front([open]) == "" && ScanAll(TOP, [open]) == Scan(1, false, false);
    ScanConcat(TOP, [open], s[..i]);
    ScanShift(TOP, 1, s[..i]);
  }

  lemma BracketsClean(open: char, s: string, close: char)
    requires Clean(s) && Bracket(open, close)
    ensures Clean([open] + s + [close])
  {
    var t := [open] + s + [close];
    forall i | 0 <= i < |t| ensures !IsSpace(t[i]) && t[i] != '\\' {
      assert i == 0 || i == |t| - 1 || t[i] == s[i - 1];
    }
  }

  /** The first bracket stays open up to the last character. */
  ghost predicate OpenInside(s: string)
  {
    forall i {:trigger ScanAll(TOP, s[..i])} :: 0 < i < |s| ==> ScanAll(TOP, s[..i]).depth >= 1
  }

  lemma OpenClose(open: char, s: string, close: char)
    requires Balanced(s) && Bracket(open, close)
    ensures Balanced([open] + s + [close]) && OneValue([open] + s + [close]) && OpenInside([open] + s + [close])
  {
    hide ScanAll, Clean;
    var t := [open] + s + [close];
    forall i | 0 < i < |t| ensures ScanAll(TOP, t[..i]).depth >= 1 {
      InsideBrackets(open, s, close, i - 1);
    }
    BracketsClose(open, s, close);
    EmptyScan();
    assert t[..0] == "" && t[..|t|] == t;
    BracketsClean(open, s, close);
  }

  lemma EmptyScan()
    ensures ScanAll(TOP, "") == TOP
  {
  }

  lemma BracketsClose(open: char, s: string, close: char)
    requires Balanced(s) && Bracket(open, close)
    ensures ScanAll(TOP, [open] + s + [close]) == TOP
  {
    var t := [open] + s + [close];
    InsideBrackets(open, s, close, |s|);
    assert s[..|s|] == s;
    assert Front(t) == [open] + s && Last(t) == close;
  }

  lemma {:induction false} CommaJoinBalanced(items: seq<string>)
    requires forall i :: 0 <= i < |items| ==> Balanced(items[i])
    ensures Balanced(CommaJoin(items))
  {
    PlainBalanced("");
    if |items| >= 2 {
      CommaJoinBalanced(items[1..]);
      PlainBalanced(",");
      BalancedConcat(items[0], ",");
      BalancedConcat(items[0] + ",", CommaJoin(items[1..]));
    }
  }

  lemma JsonListBalanced(items: seq<string>)
    requires forall i :: 0 <= i < |items| ==> Balanced(items[i])
    ensures Balanced(JsonList(items))
  {
    CommaJoinBalanced(items);
    OpenClose('[', CommaJoin(items), ']');
  }

  lemma IdTextsBalanced(ids: seq<Id>)
    ensures Balanced(JsonList(IdTexts(ids)))
  {
    forall i | 0 <= i < |ids| ensures Balanced(IdTexts(ids)[i]) {
      PlainBalanced(Decimal(ids[i]));
    }
    JsonListBalanced(IdTexts(ids));
  }

  lemma VectorTextBalanced(json: Json, v: Vec)
    requires json.PlainNumbers()
    ensures Balanced(VectorText(json, v))
  {
    var items := seq(|v.values|, i requires 0 <= i < |v.values| => json.number(v.values[i]));
    forall i | 0 <= i < |items| ensures Balanced(items[i]) {
      assert json.PlainNumber(v.values[i]);
      PlainBalanced(json.number(v.values[i]));
    }
    JsonListBalanced(items);
  }

  lemma VectorTextsBalanced(json: Json, vs: seq<Vec>)
    requires json.PlainNumbers()
    ensures Balanced(JsonList(VectorTexts(json, vs)))
  {
    forall i | 0 <= i < |vs| ensures Balanced(VectorTexts(json, vs)[i]) {
      VectorTextBalanced(json, vs[i]);
    }
    JsonListBalanced(VectorTexts(json, vs));
  }

  lemma MemberBalanced(name: string, value: string)
    requires Plain(name) && Balanced(value)
    ensures Balanced(Member(name, value))
  {
    QuotedBalanced(name);
    PlainBalanced(":");
    BalancedConcat(Quoted(name), ":");
    BalancedConcat(Quoted(name) + ":", value);
  }

  lemma OpMemberBalanced(name: string)
    requires Plain(name)
    ensures Balanced(Member("op", Quoted(name)))
  {
    QuotedBalanced(name);
    MemberBalanced("op", Quoted(name));
  }

  lemma IdMemberBalanced(id: Id)
    ensures Balanced(Member("id", Decimal(id)))
  {
    PlainBalanced(Decimal(id));
    MemberBalanced("id", Decimal(id));
  }

  lemma IdsMemberBalanced(ids: seq<Id>)
    ensures Balanced(Member("ids", JsonList(IdTexts(ids))))
  {
    IdTextsBalanced(ids);
    MemberBalanced("ids", JsonList(IdTexts(ids)));
  }

  lemma VectorsMemberBalanced(json: Json, vectors: seq<Vec>)
    requires json.PlainNumbers()
    ensures Balanced(Member("vectors", JsonList(VectorTexts(json, vectors))))
  {
    VectorTextsBalanced(json, vectors);
    MemberBalanced("vectors", JsonList(VectorTexts(json, vectors)));
  }

  lemma MembersBalanced(json: Json, op: Op)
    requires json.PlainNumbers()
    ensures Balanced(CommaJoin(Members(json, op)))
  {
    hide Member, Quoted, JsonList, CommaJoin, VectorTexts, IdTexts, Balanced;
    match op
    case Add(ids, vectors) =>
      OpMemberBalanced("add");
      IdsMemberBalanced(ids);
      VectorsMemberBalanced(json, vectors);
      CommaJoinBalanced(Members(json, op));
    case Remove(id) =>
      OpMemberBalanced("remove");
      IdMemberBalanced(id);
      CommaJoinBalanced(Members(json, op));
  }

  /** A rendered record is one value, clean, and starts with its opening brace. */
  lemma RenderOneValue(json: Json, op: Op)
    requires json.PlainNumbers()
    ensures var r := Render(json, op);
      OneValue(r) && Balanced(r) && OpenInside(r) && Clean(r) && r[0] == '{'
  {
    MembersBalanced(json, op);
    OpenClose('{', CommaJoin(Members(json, op)), '}');
  }

  predicate OddQuotes(s: string)
    decreases |s|
  {
    s != "" && (OddQuotes(Front(s)) != (Last(s) == '"'))
  }

  /** Over clean text the scan is inside a string exactly when it has met an odd number of quotes. */
  lemma {:induction false} QuoteParity(st: Scan, s: string)
    requires Clean(s) && !st.escaped
    ensures !ScanAll(st, s).escaped
    ensures ScanAll(st, s).inString == (st.inString != OddQuotes(s))
    decreases |s|
  {
    if s != "" {
      QuoteParity(st, Front(s));
    }
  }

  // ---------------------------------------------------------------- scanning from inside a string

  const IN := Scan(0, true, false)

  /** Read from inside a string, the text opens and closes nothing: no literal of it holds a bracket. */
  ghost predicate Quiet(s: string)
  {
    && Clean(s) && !OddQuotes(s)
    && forall i {:trigger ScanAll(IN, s[..i])} :: 0 <= i <= |s| ==> ScanAll(IN, s[..i]).depth == 0
  }

  lemma QuietEnd(s: string)
    requires Quiet(s)
    ensures ScanAll(IN, s) == IN
  {
    QuoteParity(IN, s);
    assert s[..|s|] == s;
  }

  lemma {:induction false} OddQuotesConcat(a: string, b: string)
    ensures OddQuotes(a + b) == (OddQuotes(a) != OddQuotes(b))
    decreases |b|
  {
    if b == "" {
      assert a + b == a;
    } else {
      assert Front(a + b) == a + Front(b) && Last(a + b) == Last(b);
      OddQuotesConcat(a, Front(b));
    }
  }

  lemma QuietConcat(a: string, b: string)
    requires Quiet(a) && Quiet(b)
    ensures Quiet(a + b)
  {
    hide ScanAll, OddQuotes;
    QuietEnd(a);
    OddQuotesConcat(a, b);
    forall i | 0 <= i <= |a + b| ensures ScanAll(IN, (a + b)[..i]).depth == 0 {
      if i <= |a| {
        assert (a + b)[..i] == a[..i];
      } else {
        assert (a + b)[..i] == a + b[..i - |a|];
        ScanConcat(IN, a, b[..i - |a|]);
      }
    }
  }

  predicate Unquoted(s: string)
  {
    forall i :: 0 <= i < |s| ==> s[i] != '"'
  }

  lemma {:induction false} NoQuotesScan(st: Scan, s: string)
    requires Clean(s) && Unquoted(s) && st == IN
    ensures ScanAll(st, s) == st && !OddQuotes(s)
    decreases |s|
  {
    if s != "" {
      NoQuotesScan(st, Front(s));
    }
  }

  /** Text without quotes is quiet, brackets and all. */
  lemma UnquotedQuiet(s: string)
    requires Clean(s) && Unquoted(s)
    ensures Quiet(s)
  {
    NoQuotesScan(IN, s);
    forall i | 0 <= i <= |s| ensures ScanAll(IN, s[..i]).depth == 0 {
      NoQuotesScan(IN, s[..i]);
    }
  }

  lemma PlainUnquoted(s: string)
    requires Plain(s)
    ensures Clean(s) && Unquoted(s)
  {
  }

  lemma QuotedQuiet(s: string)
    requires Plain(s)
    ensures Quiet(Quoted(s))
  {
    var t := Quoted(s);
    QuotedBalanced(s);
    assert forall i :: 0 <= i < |t| ==> i == 0 || i == |t| - 1 || t[i] == s[i - 1];
    forall i | 0 <= i <= |t| ensures ScanAll(IN, t[..i]).depth == 0 {
      if i > 0 {
        var inside := if i == |t| then s else s[..i - 1];
        assert Front(['"']) == "" && ScanAll(IN, ['"']) == TOP;
        ScanConcat(IN, "\"", inside);
        PlainScan(TOP, inside);
        if i < |t| {
          assert t[..i] == "\"" + inside;
        } else {
          assert t[..i] == t && Front(t) == "\"" + s && Last(t) == '"';
        }
      }
    }
    QuoteParity(TOP, t);
  }

  lemma {:induction false} CommaJoinQuiet(items: seq<string>)
    requires forall i :: 0 <= i < |items| ==> Quiet(items[i])
    ensures Quiet(CommaJoin(items))
  {
    hide Quiet;
    UnquotedQuiet("");
    if |items| >= 2 {
      CommaJoinQuiet(items[1..]);
      UnquotedQuiet(",");
      QuietConcat(items[0], ",");
      QuietConcat(items[0] + ",", CommaJoin(items[1..]));
    }
  }

  lemma EnclosedQuiet(open: string, s: string, close: string)
    requires Quiet(open) && Quiet(s) && Quiet(close)
    ensures Quiet(open + s + close)
  {
    hide Quiet;
    QuietConcat(open, s);
    QuietConcat(open + s, close);
  }

  lemma JsonListQuiet(items: seq<string>)
    requires forall i :: 0 <= i < |items| ==> Quiet(items[i])
    ensures Quiet(JsonList(items))
  {
    CommaJoinQuiet(items);
    UnquotedQuiet("[");
    UnquotedQuiet("]");
    EnclosedQuiet("[", CommaJoin(items), "]");
  }

  lemma MemberQuiet(name: string, value: string)
    requires Plain(name) && Quiet(value)
    ensures Quiet(Member(name, value))
  {
    QuotedQuiet(name);
    UnquotedQuiet(":");
    EnclosedQuiet(Quoted(name), ":", value);
  }

  lemma IdTextsQuiet(ids: seq<Id>)
    ensures Quiet(JsonList(IdTexts(ids)))
  {
    hide Quiet;
    forall i | 0 <= i < |ids| ensures Quiet(IdTexts(ids)[i]) {
      PlainUnquoted(Decimal(ids[i]));
      UnquotedQuiet(Decimal(ids[i]));
    }
    JsonListQuiet(IdTexts(ids));
  }

  lemma VectorTextsQuiet(json: Json, vs: seq<Vec>)
    requires json.PlainNumbers()
    ensures Quiet(JsonList(VectorTexts(json, vs)))
  {
    hide Quiet;
    forall i | 0 <= i < |vs| ensures Quiet(VectorTexts(json, vs)[i]) {
      var items := seq(|vs[i].values|, j requires 0 <= j < |vs[i].values| => json.number(vs[i].values[j]));
      forall j | 0 <= j < |items| ensures Quiet(items[j]) {
        assert json.PlainNumber(vs[i].values[j]);
        PlainUnquoted(items[j]);
        UnquotedQuiet(items[j]);
      }
      JsonListQuiet(items);
    }
    JsonListQuiet(VectorTexts(json, vs));
  }

  lemma OpMemberQuiet(name: string)
    requires Plain(name)
    ensures Quiet(Member("op", Quoted(name)))
  {
    QuotedQuiet(name);
    MemberQuiet("op", Quoted(name));
  }

  lemma IdMemberQuiet(id: Id)
    ensures Quiet(Member("id", Decimal(id)))
  {
    PlainUnquoted(Decimal(id));
    UnquotedQuiet(Decimal(id));
    MemberQuiet("id", Decimal(id));
  }

  lemma IdsMemberQuiet(ids: seq<Id>)
    ensures Quiet(Member("ids", JsonList(IdTexts(ids))))
  {
    IdTextsQuiet(ids);
    MemberQuiet("ids", JsonList(IdTexts(ids)));
  }

  lemma VectorsMemberQuiet(json: Json, vectors: seq<Vec>)
    requires json.PlainNumbers()
    ensures Quiet(Member("vectors", JsonList(VectorTexts(json, vectors))))
  {
    VectorTextsQuiet(json, vectors);
    MemberQuiet("vectors", JsonList(VectorTexts(json, vectors)));
  }

  lemma MembersQuiet(json: Json, op: Op)
    requires json.PlainNumbers()
    ensures Quiet(CommaJoin(Members(json, op)))
  {
    hide Member, Quoted, JsonList, CommaJoin, VectorTexts, IdTexts, Quiet;
    match op
    case Add(ids, vectors) =>
      OpMemberQuiet("add");
      IdsMemberQuiet(ids);
      VectorsMemberQuiet(json, vectors);
      CommaJoinQuiet(Members(json, op));
    case Remove(id) =>
      OpMemberQuiet("remove");
      IdMemberQuiet(id);
      CommaJoinQuiet(Members(json, op));
  }

  lemma RenderQuiet(json: Json, op: Op)
    requires json.PlainNumbers()
    ensures Quiet(Render(json, op))
  {
    MembersQuiet(json, op);
    UnquotedQuiet("{");
    UnquotedQuiet("}");
    EnclosedQuiet("{", CommaJoin(Members(json, op)), "}");
  }

  /** Something is open: whatever was read so far is not a complete value. */
  predicate Unclosed(st: Scan)
  {
    st.depth >= 1 && !st.escaped
  }

  /** No part of a record closes what was left open in front of it. */
  lemma PartKeepsUnclosed(r: string, j: nat, st: Scan)
    requires Balanced(r) && Quiet(r) && j <= |r| && Unclosed(st)
    ensures Unclosed(ScanAll(st, r[..j]))
  {
    var part := r[..j];
    assert Clean(part);
    QuoteParity(st, part);
    assert ScanAll(TOP, r[..j]).depth >= 0 && ScanAll(IN, r[..j]).depth == 0;
    ScanShift(if st.inString then IN else TOP, st.depth, part);
    assert st == (if st.inString then IN else TOP).(depth := st.depth);
  }

  // ---------------------------------------------------------------- record formats

  /** The part of a record that a write left in the file. */
  datatype Piece = Piece(op: Op, cut: nat)

  /** What the file layer needs of a record format. */
  datatype Codec = Codec(encode: Op -> string, decode: string -> Option<Op>)
  {
    predicate Whole(op: Op)
    {
      Clean(encode(op)) && encode(op) != "" && decode(encode(op)) == Some(op)
    }

    predicate IsPiece(p: Piece)
    {
      0 < p.cut <= |encode(p.op)|
    }

    function PieceText(p: Piece): string
    {
      if p.cut <= |encode(p.op)| then encode(p.op)[..p.cut] else encode(p.op)
    }

    /** Pieces directly behind each other, with no newline between them. */
    function Glue(pieces: seq<Piece>): string
      decreases |pieces|
    {
      if pieces == [] then "" else Glue(Front(pieces)) + PieceText(Last(pieces))
    }

    /** One cut record, or more than one piece. */
    predicate Jam(pieces: seq<Piece>)
    {
      && pieces != [] && (forall k :: 0 <= k < |pieces| ==> IsPiece(pieces[k]))
      && (|pieces| == 1 ==> pieces[0].cut < |encode(pieces[0].op)|)
    }

    predicate JamRejected(pieces: seq<Piece>)
    {
      Jam(pieces) ==> decode(Glue(pieces)) == None
    }

    ghost predicate Sound()
    {
      && (forall op :: Whole(op))
      && (forall pieces :: JamRejected(pieces))
    }
  }

  lemma GlueOne(codec: Codec, p: Piece)
    ensures codec.Glue([p]) == codec.PieceText(p)
  {
    assert Front([p]) == [];
    assert "" + codec.PieceText(p) == codec.PieceText(p);
  }

  lemma GlueSnoc(codec: Codec, pieces: seq<Piece>, p: Piece)
    ensures codec.Glue(pieces + [p]) == codec.Glue(pieces) + codec.PieceText(p)
  {
    assert Front(pieces + [p]) == pieces;
  }

  /** Glued pieces are clean, not empty, and start with the first piece. */
  lemma {:induction false} GlueClean(codec: Codec, pieces: seq<Piece>)
    requires forall op :: codec.Whole(op)
    requires pieces != [] && forall k :: 0 <= k < |pieces| ==> codec.IsPiece(pieces[k])
    ensures Clean(codec.Glue(pieces)) && codec.PieceText(pieces[0]) <= codec.Glue(pieces)
    ensures codec.PieceText(pieces[0]) != ""
    ensures |pieces| > 1 ==> codec.PieceText(pieces[0]) < codec.Glue(pieces)
    decreases |pieces|
  {
    assert codec.Whole(Last(pieces).op) && codec.Whole(pieces[0].op);
    if |pieces| == 1 {
      GlueOne(codec, pieces[0]);
      assert pieces == [pieces[0]];
    } else {
      GlueClean(codec, Front(pieces));
    }
  }

  /** The log's own format: compact JSON out, the JSON parser in. */
  function JsonCodec(json: Json): Codec
  {
    Codec(op => Render(json, op), json.decode)
  }

  lemma JsonWhole(json: Json, op: Op)
    requires json.Valid()
    ensures JsonCodec(json).Whole(op) && Render(json, op)[0] == '{'
  {
    RenderOneValue(json, op);
  }

  lemma JsonPiece(json: Json, p: Piece)
    requires JsonCodec(json).IsPiece(p)
    ensures p.cut <= |Render(json, p.op)| && JsonCodec(json).PieceText(p) == Render(json, p.op)[..p.cut]
  {
  }

  lemma CutUnclosed(json: Json, op: Op, i: nat)
    requires json.Valid() && 0 < i < |Render(json, op)|
    ensures Unclosed(ScanAll(TOP, Render(json, op)[..i]))
  {
    RenderOneValue(json, op);
    var part := Render(json, op)[..i];
    assert Clean(part);
    QuoteParity(TOP, part);
  }

  lemma GluedUnclosed(json: Json, front: string, op: Op, i: nat)
    requires json.Valid() && i <= |Render(json, op)| && Unclosed(ScanAll(TOP, front))
    ensures Unclosed(ScanAll(TOP, front + Render(json, op)[..i]))
  {
    hide ScanAll, Render, Unclosed;
    RenderOneValue(json, op);
    RenderQuiet(json, op);
    PartKeepsUnclosed(Render(json, op), i, ScanAll(TOP, front));
    ScanConcat(TOP, front, Render(json, op)[..i]);
  }

  /** Behind a cut record nothing that is glued to it closes its first bracket. */
  lemma {:induction false} JamStaysUnclosed(json: Json, pieces: seq<Piece>)
    requires json.Valid() && JsonCodec(json).Jam(pieces)
    requires pieces[0].cut < |Render(json, pieces[0].op)|
    ensures Unclosed(ScanAll(TOP, JsonCodec(json).Glue(pieces)))
    decreases |pieces|
  {
    hide ScanAll, Render, Unclosed;
    var codec, p := JsonCodec(json), Last(pieces);
    JsonPiece(json, p);
    if |pieces| == 1 {
      assert pieces == [p];
      GlueOne(codec, p);
      CutUnclosed(json, p.op, p.cut);
    } else {
      JamStaysUnclosed(json, Front(pieces));
      GluedUnclosed(json, codec.Glue(Front(pieces)), p.op, p.cut);
    }
  }

  lemma JamNotOneValue(json: Json, pieces: seq<Piece>)
    requires json.Valid() && JsonCodec(json).Jam(pieces)
    ensures !OneValue(JsonCodec(json).Glue(pieces))
  {
    hide ScanAll, Render, Clean, Codec.Glue, Balanced, OpenInside;
    var codec, first := JsonCodec(json), pieces[0];
    var glued, r := codec.Glue(pieces), Render(json, first.op);
    assert codec.IsPiece(first);
    if first.cut < |r| {
      JamStaysUnclosed(json, pieces);
    } else {
      forall op ensures codec.Whole(op) {
        JsonWhole(json, op);
      }
      GlueClean(codec, pieces);
      RenderOneValue(json, first.op);
      assert glued[..|r|] == r;
    }
  }

  /**
   Of a line that holds anything but one whole record -- a cut record, or pieces of several
   writes with no newline between them, however many crashes left them there -- nothing parses.
   */
  lemma JammedRejected(json: Json, pieces: seq<Piece>)
    requires json.Valid() && JsonCodec(json).Jam(pieces)
    ensures json.decode(JsonCodec(json).Glue(pieces)) == None
  {
    var codec := JsonCodec(json);
    forall op ensures codec.Whole(op) {
      JsonWhole(json, op);
    }
    JamNotOneValue(json, pieces);
    GlueClean(codec, pieces);
    JsonWhole(json, pieces[0].op);
    var glued := codec.Glue(pieces);
    assert codec.IsPiece(pieces[0]) && glued[0] == '{' && !IsSpace(Last(glued));
  }

  /** A record cut short does not parse. */
  lemma {:induction false} TornRecordRejected(json: Json, op: Op, i: nat)
    requires json.Valid() && 0 < i < |Render(json, op)|
    ensures json.decode(Render(json, op)[..i]) == None
  {
    JammedRejected(json, [Piece(op, i)]);
    GlueOne(JsonCodec(json), Piece(op, i));
  }

  /** A record appended directly behind a fragment, or behind a record without its newline, does not parse. */
  lemma JoinedRecordsRejected(json: Json, op: Op, i: nat, next: Op)
    requires json.Valid() && 0 < i <= |Render(json, op)|
    ensures json.decode(Render(json, op)[..i] + Render(json, next)) == None
  {
    hide Render, Codec.Glue, Clean;
    var first, second := Piece(op, i), Piece(next, |Render(json, next)|);
    JsonWhole(json, next);
    JammedRejected(json, [first, second]);
    GlueOne(JsonCodec(json), first);
    GlueSnoc(JsonCodec(json), [first], second);
    assert [first] + [second] == [first, second];
    assert Render(json, next)[..second.cut] == Render(json, next);
  }

  lemma JsonCodecSound(json: Json)
    requires json.Valid()
    ensures JsonCodec(json).Sound()
  {
    var codec := JsonCodec(json);
    forall op ensures codec.Whole(op) {
      JsonWhole(json, op);
    }
    forall pieces ensures codec.JamRejected(pieces) {
      if codec.Jam(pieces) {
        JammedRejected(json, pieces);
      }
    }
  }

  // ---------------------------------------------------------------- the file

  function Line(codec: Codec, op: Op): string
  {
    codec.encode(op) + "\n"
  }

  /** The file after the given appends, each of them complete. */
  function FileText(codec: Codec, ops: seq<Op>): string
  {
    if ops == [] then "" else Line(codec, ops[0]) + FileText(codec, ops[1..])
  }

  function NewlineAt(text: string): (n: nat)
    ensures n <= |text|
    ensures forall i :: 0 <= i < n ==> text[i] != '\n'
    ensures n < |text| ==> text[n] == '\n'
  {
    if text == "" || text[0] == '\n' then 0 else 1 + NewlineAt(text[1..])
  }

  function AfterNewline(text: string): (rest: string)
    requires text != ""
    ensures |rest| < |text|
  {
    if NewlineAt(text) < |text| then text[NewlineAt(text) + 1..] else ""
  }

  function StripLeft(s: string): string
  {
    if s != "" && IsSpace(s[0]) then StripLeft(s[1..]) else s
  }

  function StripRight(s: string): string
    decreases |s|
  {
    if s != "" && IsSpace(Last(s)) then StripRight(Front(s)) else s
  }

  function Strip(s: string): string
  {
    StripRight(StripLeft(s))
  }

  /** The records that reading a text yields: up to the first line that does not parse. */
  function ReadText(codec: Codec, text: string): seq<Op>
    decreases |text|
  {
    if text == "" then []
    else
      var line := Strip(text[..NewlineAt(text)]);
      var rest := AfterNewline(text);
      if line == "" then ReadText(codec, rest)
      else
        var entry := codec.decode(line);
        if entry.None? then [] else [entry.value] + ReadText(codec, rest)
  }

  /** The loop over the lines of the file, stopping at the first that does not parse. */
  method ReadLines(codec: Codec, text: string) returns (entries: seq<Op>)
    ensures entries == ReadText(codec, text)
  {
    hide ReadText, Strip;
    entries := [];
    var rest := text;
    while rest != ""
      invariant ReadText(codec, text) == entries + ReadText(codec, rest)
      decreases |rest|
    {
      ReadStep(codec, rest, entries);
      var line := Strip(rest[..NewlineAt(rest)]);
      var next := AfterNewline(rest);
      if line != "" {
        var entry := codec.decode(line);
        if entry.None? {
          return;
        }
        entries := entries + [entry.value];
      }
      rest := next;
    }
    ReadNothing(codec);
  }

  lemma ReadNothing(codec: Codec)
    ensures ReadText(codec, "") == []
  {
  }

  /** One step of the reading loop, with `entries` read so far. */
  lemma ReadStep(codec: Codec, text: string, entries: seq<Op>)
    requires text != ""
    ensures var line := Strip(text[..NewlineAt(text)]);
      entries + ReadText(codec, text) ==
        if line == "" then entries + ReadText(codec, AfterNewline(text))
        else if codec.decode(line).None? then entries
        else entries + [codec.decode(line).value] + ReadText(codec, AfterNewline(text))
  {
    hide Strip, NewlineAt, AfterNewline;
  }

  lemma CleanStripped(s: string)
    requires Clean(s)
    ensures Strip(s) == s
  {
  }

  lemma {:induction false} NewlineAtIs(a: string, b: string)
    requires Clean(a)
    ensures NewlineAt(a + b) == |a| + NewlineAt(b)
  {
    if a == "" {
      assert a + b == b;
    } else {
      NewlineAtIs(a[1..], b);
      assert (a + b)[1..] == a[1..] + b;
      assert !IsSpace(a[0]);
    }
  }

  /** Reading one clean line and then the rest. */
  lemma ReadCleanLine(codec: Codec, line: string, rest: string)
    requires Clean(line) && line != ""
    ensures ReadText(codec, line + "\n" + rest) ==
      (if codec.decode(line).None? then [] else [codec.decode(line).value] + ReadText(codec, rest))
  {
    var text := line + "\n" + rest;
    assert text == line + ("\n" + rest);
    NewlineAtIs(line, "\n" + rest);
    assert NewlineAt("\n" + rest) == 0;
    assert text[..|line|] == line && text[|line| + 1..] == rest;
    CleanStripped(line);
  }

  /** The same for a last line without its newline. */
  lemma ReadLastLine(codec: Codec, line: string)
    requires Clean(line) && line != ""
    ensures ReadText(codec, line) == (if codec.decode(line).None? then [] else [codec.decode(line).value])
  {
    NewlineAtIs(line, "");
    assert line + "" == line;
    assert line[..|line|] == line;
    CleanStripped(line);
    ReadNothing(codec);
  }

  /** White space within one line. */
  predicate Padding(s: string)
  {
    forall i :: 0 <= i < |s| ==> IsSpace(s[i]) && s[i] != '\n'
  }

  lemma {:induction false} NewlineBehind(a: string, b: string)
    requires forall i :: 0 <= i < |a| ==> a[i] != '\n'
    ensures NewlineAt(a + ("\n" + b)) == |a|
  {
    if a == "" {
      assert a + ("\n" + b) == "\n" + b;
    } else {
      NewlineBehind(a[1..], b);
      assert (a + ("\n" + b))[1..] == a[1..] + ("\n" + b);
    }
  }

  lemma {:induction false} StripLeftPadding(before: string, s: string)
    requires Padding(before)
    ensures StripLeft(before + s) == StripLeft(s)
  {
    if before == "" {
      assert before + s == s;
    } else {
      StripLeftPadding(before[1..], s);
      assert (before + s)[1..] == before[1..] + s;
    }
  }

  lemma {:induction false} StripRightPadding(s: string, after: string)
    requires Padding(after) && Clean(s)
    ensures StripRight(s + after) == s
  {
    if after == "" {
      assert s + after == s;
    } else {
      StripRightPadding(s, Front(after));
      assert Front(s + after) == s + Front(after);
    }
  }

  lemma StripPadding(before: string, line: string, after: string)
    requires Padding(before) && Clean(line) && Padding(after)
    ensures Strip(before + line + after) == line
  {
    assert before + line + after == before + (line + after);
    StripLeftPadding(before, line + after);
    if line == "" {
      assert line + after == after && after + "" == after;
      StripLeftPadding(after, "");
    } else {
      assert (line + after)[0] == line[0];
      StripRightPadding(line, after);
    }
  }

  /**
   What reading does with any line, padded as it may be: a blank one is passed over, one
   that parses is an entry, and one that does not ends the reading.
   */
  lemma ReadPaddedLine(codec: Codec, before: string, line: string, after: string, rest: string)
    requires Padding(before) && Clean(line) && Padding(after)
    ensures ReadText(codec, before + line + after + "\n" + rest) ==
      if line == "" then ReadText(codec, rest)
      else if codec.decode(line).None? then []
      else [codec.decode(line).value] + ReadText(codec, rest)
  {
    hide ReadText, Strip;
    var padded := before + line + after;
    var text := padded + "\n" + rest;
    assert text == padded + ("\n" + rest);
    forall i | 0 <= i < |padded| ensures padded[i] != '\n' {
      assert i < |before| ==> padded[i] == before[i];
      assert |before| <= i < |before| + |line| ==> padded[i] == line[i - |before|];
      assert |before| + |line| <= i ==> padded[i] == after[i - |before| - |line|];
    }
    NewlineBehind(padded, rest);
    StripPadding(before, line, after);
    assert text[..|padded|] == padded && text[|padded| + 1..] == rest;
    ReadStep(codec, text, []);
    assert forall e: seq<Op> :: [] + e == e;
  }

  lemma ReadOne(codec: Codec, op: Op, rest: string)
    requires codec.Sound()
    ensures ReadText(codec, Line(codec, op) + rest) == [op] + ReadText(codec, rest)
  {
    assert codec.Whole(op);
    ReadCleanLine(codec, codec.encode(op), rest);
  }

  /** Complete lines are read back, whatever follows them. */
  lemma {:induction false} ReadComplete(codec: Codec, ops: seq<Op>, tail: string)
    requires codec.Sound()
    ensures ReadText(codec, FileText(codec, ops) + tail) == ops + ReadText(codec, tail)
    decreases ops
  {
    hide ReadText, Line;
    var later := ReadText(codec, tail);
    if ops == [] {
      assert FileText(codec, ops) + tail == tail;
    } else {
      var rest := FileText(codec, ops[1..]) + tail;
      calc {
        ReadText(codec, FileText(codec, ops) + tail);
        { assert FileText(codec, ops) + tail == Line(codec, ops[0]) + rest; }
        ReadText(codec, Line(codec, ops[0]) + rest);
        { ReadOne(codec, ops[0], rest); }
        [ops[0]] + ReadText(codec, rest);
        { ReadComplete(codec, ops[1..], tail); }
        [ops[0]] + (ops[1..] + later);
        { assert [ops[0]] + (ops[1..] + later) == ([ops[0]] + ops[1..]) + later; }
        ([ops[0]] + ops[1..]) + later;
        { assert [ops[0]] + ops[1..] == ops; }
        ops + later;
      }
    }
  }

  /** Round trip: the log gives back the operations appended since the last truncate. */
  lemma RoundTrip(codec: Codec, ops: seq<Op>)
    requires codec.Sound()
    ensures ReadText(codec, FileText(codec, ops)) == ops
  {
    ReadComplete(codec, ops, "");
    assert FileText(codec, ops) + "" == FileText(codec, ops);
    ReadNothing(codec);
  }

  // ---------------------------------------------------------------- the file and the log it shows

  /** A line of glued pieces, ended or not, and whatever follows its newline. */
  ghost predicate JammedLine(codec: Codec, rest: string, pieces: seq<Piece>, more: string)
  {
    codec.Jam(pieces) && (rest == codec.Glue(pieces) || rest == codec.Glue(pieces) + "\n" + more)
  }

  ghost predicate Stuck(codec: Codec, rest: string)
  {
    exists pieces, more :: JammedLine(codec, rest, pieces, more)
  }

  /** The file is complete lines and, as the tail says, nothing, a record, or a jammed line. */
  ghost predicate Spells(codec: Codec, text: string, log: Log)
  {
    match log.tail
    case Terminated => text == FileText(codec, log.lines)
    case Unterminated(op) => text == FileText(codec, log.lines) + codec.encode(op)
    case Broken(_) => exists rest :: Stuck(codec, rest) && text == FileText(codec, log.lines) + rest
  }

  /** How many newlines the file has. */
  function Newlines(text: string): nat
    decreases |text|
  {
    if text == "" then 0 else Newlines(Front(text)) + if Last(text) == '\n' then 1 else 0
  }

  /** The text is what the log says, and its lines are no more than the log counts. */
  ghost predicate Shows(codec: Codec, text: string, log: Log)
  {
    Spells(codec, text, log) && Newlines(text) <= Extent(log)
  }

  lemma StuckReadsNothing(codec: Codec, rest: string)
    requires codec.Sound() && Stuck(codec, rest)
    ensures ReadText(codec, rest) == []
  {
    hide ReadText;
    var pieces, more :| JammedLine(codec, rest, pieces, more);
    assert codec.JamRejected(pieces);
    GlueClean(codec, pieces);
    if rest == codec.Glue(pieces) {
      ReadLastLine(codec, codec.Glue(pieces));
    } else {
      ReadCleanLine(codec, codec.Glue(pieces), more);
    }
  }

  /** Reading the file gives the readable records of the log it shows. */
  lemma ReadShown(codec: Codec, text: string, log: Log)
    requires codec.Sound() && Shows(codec, text, log)
    ensures ReadText(codec, text) == Readable(log)
  {
    hide ReadText, FileText, Stuck;
    match log.tail
    case Terminated => RoundTrip(codec, log.lines);
    case Unterminated(op) =>
      assert codec.Whole(op);
      ReadComplete(codec, log.lines, codec.encode(op));
      ReadLastLine(codec, codec.encode(op));
    case Broken(_) =>
      var rest :| Stuck(codec, rest) && text == FileText(codec, log.lines) + rest;
      ReadComplete(codec, log.lines, rest);
      StuckReadsNothing(codec, rest);
  }

  function CutOf(codec: Codec, op: Op, i: nat): Cut
  {
    if i == 0 then Nothing
    else if i < |codec.encode(op)| then Fragment
    else if i == |codec.encode(op)| then AllButNewline
    else All
  }

  /** Whatever part of a line is written behind a jam leaves a jam. */
  lemma WriteBehindJam(codec: Codec, rest: string, op: Op, i: nat)
    requires codec.Sound() && Stuck(codec, rest) && 0 < i <= |Line(codec, op)|
    ensures Stuck(codec, rest + Line(codec, op)[..i])
  {
    hide Codec.Glue;
    var pieces, more :| JammedLine(codec, rest, pieces, more);
    var part := Line(codec, op)[..i];
    if rest == codec.Glue(pieces) {
      JamGrows(codec, pieces, rest, op, i);
    } else {
      assert rest + part == codec.Glue(pieces) + "\n" + (more + part);
      assert JammedLine(codec, rest + part, pieces, more + part);
    }
  }

  /** The same behind pieces that are a jam once one more is glued to them. */
  lemma JamGrows(codec: Codec, pieces: seq<Piece>, rest: string, op: Op, i: nat)
    requires codec.Sound() && 0 < i <= |Line(codec, op)| && rest == codec.Glue(pieces)
    requires forall k :: 0 <= k < |pieces| ==> codec.IsPiece(pieces[k])
    requires pieces == [] ==> i < |codec.encode(op)|
    ensures Stuck(codec, rest + Line(codec, op)[..i])
  {
    hide Codec.Glue, Clean;
    assert codec.Whole(op);
    var r, line := codec.encode(op), Line(codec, op);
    var p := Piece(op, if i <= |r| then i else |r|);
    GlueSnoc(codec, pieces, p);
    JamSnoc(codec, pieces, p);
    if i <= |r| {
      assert line[..i] == codec.PieceText(p);
    } else {
      assert line[..i] == codec.PieceText(p) + "\n";
      assert rest + line[..i] == codec.Glue(pieces + [p]) + "\n" + "";
    }
    assert JammedLine(codec, rest + line[..i], pieces + [p], "");
  }

  lemma JamSnoc(codec: Codec, pieces: seq<Piece>, p: Piece)
    requires forall k :: 0 <= k < |pieces| ==> codec.IsPiece(pieces[k])
    requires codec.IsPiece(p) && (pieces == [] ==> p.cut < |codec.encode(p.op)|)
    ensures codec.Jam(pieces + [p])
  {
  }

  lemma {:induction false} FileTextSnoc(codec: Codec, ops: seq<Op>, op: Op)
    ensures FileText(codec, ops + [op]) == FileText(codec, ops) + Line(codec, op)
    decreases ops
  {
    if ops == [] {
      assert [op][1..] == [] && "" + Line(codec, op) == Line(codec, op) + "";
    } else {
      FileTextSnoc(codec, ops[1..], op);
      assert (ops + [op])[1..] == ops[1..] + [op];
      assert Line(codec, ops[0]) + (FileText(codec, ops[1..]) + Line(codec, op)) ==
             Line(codec, ops[0]) + FileText(codec, ops[1..]) + Line(codec, op);
    }
  }

  lemma {:induction false} NewlinesConcat(a: string, b: string)
    ensures Newlines(a + b) == Newlines(a) + Newlines(b)
    decreases |b|
  {
    if b == "" {
      assert a + b == a;
    } else {
      assert Front(a + b) == a + Front(b) && Last(a + b) == Last(b);
      NewlinesConcat(a, Front(b));
    }
  }

  lemma {:induction false} CleanHasNoNewline(s: string)
    requires Clean(s)
    ensures Newlines(s) == 0
    decreases |s|
  {
    if s != "" {
      CleanHasNoNewline(Front(s));
      assert !IsSpace(Last(s));
    }
  }

  /** A write ends a line only if all of it was written. */
  lemma LineNewlines(codec: Codec, op: Op, i: nat)
    requires codec.Sound() && i <= |Line(codec, op)|
    ensures Newlines(Line(codec, op)[..i]) == if CutOf(codec, op, i).All? then 1 else 0
  {
    var r, line := codec.encode(op), Line(codec, op);
    assert codec.Whole(op);
    CleanHasNoNewline(r);
    if i <= |r| {
      assert line[..i] == r[..i];
      CleanHasNoNewline(r[..i]);
    } else {
      assert line[..i] == line && Front(line) == r && Last(line) == '\n';
    }
  }

  /**
   The file never leaves the states of the log: whatever part of a line a write leaves
   behind, the file shows the log after that write.
   */
  lemma WriteShown(codec: Codec, text: string, log: Log, op: Op, i: nat)
    requires codec.Sound() && Shows(codec, text, log) && i <= |Line(codec, op)|
    ensures Shows(codec, text + Line(codec, op)[..i], AfterWrite(log, op, CutOf(codec, op, i)))
  {
    WriteSpelled(codec, text, log, op, i);
    hide Spells, Line, Newlines;
    LineNewlines(codec, op, i);
    NewlinesConcat(text, Line(codec, op)[..i]);
  }

  lemma {:induction false} LinesNewlines(codec: Codec, ops: seq<Op>)
    requires codec.Sound()
    ensures Newlines(FileText(codec, ops)) == |ops|
    decreases ops
  {
    if ops != [] {
      var line := Line(codec, ops[0]);
      assert codec.Whole(ops[0]) && line[..|line|] == line;
      LineNewlines(codec, ops[0], |line|);
      LineLength(codec, ops[0]);
      LinesNewlines(codec, ops[1..]);
      NewlinesConcat(line, FileText(codec, ops[1..]));
    }
  }

  /** A file of complete lines shows a terminated log. */
  lemma LinesShown(codec: Codec, ops: seq<Op>)
    requires codec.Sound()
    ensures Shows(codec, FileText(codec, ops), Log(ops, Terminated))
  {
    LinesNewlines(codec, ops);
  }

  lemma WriteSpelled(codec: Codec, text: string, log: Log, op: Op, i: nat)
    requires codec.Sound() && Spells(codec, text, log) && i <= |Line(codec, op)|
    ensures Spells(codec, text + Line(codec, op)[..i], AfterWrite(log, op, CutOf(codec, op, i)))
  {
    hide FileText, Stuck, Codec.Glue;
    var part, file := Line(codec, op)[..i], FileText(codec, log.lines);
    assert codec.Whole(op);
    if i == 0 {
      assert text + part == text;
    } else {
      match log.tail
      case Terminated => WriteBehindLines(codec, log.lines, op, i);
      case Unterminated(last) =>
        assert codec.Whole(last);
        var p := Piece(last, |codec.encode(last)|);
        GlueOne(codec, p);
        assert codec.PieceText(p) == codec.encode(last);
        JamGrows(codec, [p], codec.encode(last), op, i);
        assert text + part == file + (codec.encode(last) + part);
      case Broken(_) =>
        var rest :| Stuck(codec, rest) && text == file + rest;
        WriteBehindJam(codec, rest, op, i);
        assert text + part == file + (rest + part);
    }
  }

  lemma WriteBehindLines(codec: Codec, lines: seq<Op>, op: Op, i: nat)
    requires codec.Sound() && 0 < i <= |Line(codec, op)|
    ensures Spells(codec, FileText(codec, lines) + Line(codec, op)[..i],
                   AfterWrite(Log(lines, Terminated), op, CutOf(codec, op, i)))
  {
    hide FileText, Stuck, Codec.Glue;
    var r := codec.encode(op);
    if i < |r| {
      NothingGlued(codec);
      JamGrows(codec, [], "", op, i);
      assert "" + Line(codec, op)[..i] == Line(codec, op)[..i];
    } else if i == |r| {
      assert Line(codec, op)[..i] == r;
    } else {
      assert Line(codec, op)[..i] == Line(codec, op);
      FileTextSnoc(codec, lines, op);
    }
  }

  lemma NothingGlued(codec: Codec)
    ensures codec.Glue([]) == ""
  {
  }

  lemma EmptyFileShows(codec: Codec)
    ensures Shows(codec, "", EMPTY_LOG)
  {
  }

  /**
   Torn write.  If a crash leaves the first `i` characters of one more line behind complete
   ones, recovery reads exactly the operations appended before, plus the one in flight when
   at most its newline is missing.
   */
  lemma TornWrite(codec: Codec, ops: seq<Op>, op: Op, i: nat)
    requires codec.Sound() && i <= |Line(codec, op)|
    ensures ReadText(codec, FileText(codec, ops) + Line(codec, op)[..i]) ==
            ops + if i >= |codec.encode(op)| then [op] else []
  {
    hide ReadText, FileText, Stuck;
    assert codec.Whole(op);
    var log := Log(ops, Terminated);
    LinesShown(codec, ops);
    WriteShown(codec, FileText(codec, ops), log, op, i);
    ReadShown(codec, FileText(codec, ops) + Line(codec, op)[..i], AfterWrite(log, op, CutOf(codec, op, i)));
  }

  /** Complete appends behind a terminated log are all readable, behind any other tail none is. */
  function AfterAppends(log: Log, ops: seq<Op>): Log
  {
    if ops == [] then log
    else if log.tail.Terminated? then log.(lines := log.lines + ops)
    else log.(tail := Broken(Stranded(log) + |ops| + if log.tail.Unterminated? then 1 else 0))
  }

  lemma {:induction false} AppendsShown(codec: Codec, text: string, log: Log, acked: seq<Op>)
    requires codec.Sound() && Shows(codec, text, log)
    ensures Shows(codec, text + FileText(codec, acked), AfterAppends(log, acked))
    decreases acked
  {
    hide Shows, Line;
    if acked == [] {
      assert text + FileText(codec, acked) == text;
    } else {
      var line := Line(codec, acked[0]);
      assert codec.Whole(acked[0]) && line[..|line|] == line;
      LineLength(codec, acked[0]);
      WriteShown(codec, text, log, acked[0], |line|);
      var next := AfterWrite(log, acked[0], All);
      AppendsShown(codec, text + line, next, acked[1..]);
      assert text + FileText(codec, acked) == text + line + FileText(codec, acked[1..]);
      assert log.tail.Terminated? ==> next.lines + acked[1..] == log.lines + acked;
      assert AfterAppends(next, acked[1..]) == AfterAppends(log, acked);
    }
  }

  lemma LineLength(codec: Codec, op: Op)
    ensures CutOf(codec, op, |Line(codec, op)|) == All
  {
  }

  /**
   After a torn tail the log is not trimmed, so the next append joins the fragment.  Read
   back before any checkpoint truncates the log, it gives the operations appended after
   recovery only if the crash left nothing of the torn line or all of it; otherwise every
   one of them is missing, even though each append returned, and so is the torn one.
   */
  lemma AppendsAfterTornTail(codec: Codec, ops: seq<Op>, op: Op, i: nat, acked: seq<Op>)
    requires codec.Sound() && i <= |Line(codec, op)| && acked != []
    ensures ReadText(codec, FileText(codec, ops) + Line(codec, op)[..i] + FileText(codec, acked)) ==
            if i == 0 then ops + acked
            else if i == |Line(codec, op)| then ops + [op] + acked
            else ops
  {
    hide ReadText, FileText, Stuck;
    var log, torn := Log(ops, Terminated), FileText(codec, ops) + Line(codec, op)[..i];
    assert codec.Whole(op);
    LinesShown(codec, ops);
    WriteShown(codec, FileText(codec, ops), log, op, i);
    var after := AfterWrite(log, op, CutOf(codec, op, i));
    AppendsShown(codec, torn, after, acked);
    ReadShown(codec, torn + FileText(codec, acked), AfterAppends(after, acked));
  }

  /** What the log alone keeps of later appends is decided by where the crash cut the line. */
  lemma AckedSurvivesIff(codec: Codec, ops: seq<Op>, op: Op, i: nat, acked: seq<Op>)
    requires codec.Sound() && i <= |Line(codec, op)| && acked != []
    ensures (exists before :: ReadText(codec, FileText(codec, ops) + Line(codec, op)[..i] + FileText(codec, acked))
                              == ops + before + acked)
            <==> (i == 0 || i == |Line(codec, op)|)
  {
    hide ReadText, FileText, Line;
    AppendsAfterTornTail(codec, ops, op, i, acked);
    var read := ReadText(codec, FileText(codec, ops) + Line(codec, op)[..i] + FileText(codec, acked));
    if i == 0 {
      assert read == ops + [] + acked;
    } else if i == |Line(codec, op)| {
      assert read == ops + [op] + acked;
    } else {
      assert forall before: seq<Op> :: |ops + before + acked| > |read|;
    }
  }
}
