/** JSON texts after sections 2 to 7 of RFC 8259, with any whitespace the grammar allows, and the proof that the
    brace scanner inverts their printer. */
module JsonText {
  import opened Wrappers
  import opened BraceScanner

  // ---- The grammar ------------------------------------------------------------------------------

  /** Section 2. */
  predicate IsSpace(c: char) {
    c == ' ' || c == '\t' || c == '\n' || c == '\r'
  }

  /** Section 6; the scanner only needs that a number has no other characters than these. */
  predicate IsNumeric(c: char) {
    '0' <= c <= '9' || c == '+' || c == '-' || c == '.' || c == 'e' || c == 'E'
  }

  predicate IsHex(c: char) {
    '0' <= c <= '9' || 'a' <= c <= 'f' || 'A' <= c <= 'F'
  }

  type Space = s: string | forall i :: 0 <= i < |s| ==> IsSpace(s[i]) witness ""
  type NumberText = s: string | s != "" && forall i :: 0 <= i < |s| ==> IsNumeric(s[i]) witness "0"
  type HexDigits = s: string | |s| == 4 && forall i :: 0 <= i < |s| ==> IsHex(s[i]) witness "0000"

  /** Section 7: an unescaped character is neither a quotation mark, nor a backslash, nor a control character. */
  type Unescaped = c: char | c != '"' && c != '\\' && c >= ' ' witness 'a'
  type EscapeLetter = c: char | c in {'"', '\\', '/', 'b', 'f', 'n', 'r', 't'} witness 'n'

  datatype Piece = Char(c: Unescaped) | Escape(e: EscapeLetter) | Unicode(hex: HexDigits)

  datatype Json =
    | Null | True | False
    | Number(digits: NumberText)
    | Text(pieces: seq<Piece>)
    | EmptyArray(pad: Space)
    | Array(items: Items)
    | EmptyObject(pad: Space)
    | Object(members: Members)

  datatype Items =
    | LastItem(before: Space, value: Json, after: Space)
    | Item(before: Space, value: Json, after: Space, rest: Items)

  datatype Members =
    | LastMember(before: Space, name: seq<Piece>, mid: Space, gap: Space, value: Json, after: Space)
    | Member(before: Space, name: seq<Piece>, mid: Space, gap: Space, value: Json, after: Space, rest: Members)

  // ---- The printer ------------------------------------------------------------------------------

  function PrintPiece(p: Piece): string {
    match p
    case Char(c) => [c]
    case Escape(e) => ['\\', e]
    case Unicode(hex) => "\\u" + hex
  }

  function PrintPieces(ps: seq<Piece>): string {
    if ps == [] then "" else PrintPieces(ps[..|ps| - 1]) + PrintPiece(ps[|ps| - 1])
  }

  function PrintText(ps: seq<Piece>): string {
    "\"" + PrintPieces(ps) + "\""
  }

  function Print(v: Json): string {
    match v
    case Null => "null"
    case True => "true"
    case False => "false"
    case Number(digits) => digits
    case Text(pieces) => PrintText(pieces)
    case EmptyArray(pad) => "[" + pad + "]"
    case Array(items) => "[" + PrintItems(items) + "]"
    case EmptyObject(pad) => "{" + pad + "}"
    case Object(members) => "{" + PrintMembers(members) + "}"
  }

  function PrintItems(items: Items): string {
    match items
    case LastItem(before, value, after) => before + Print(value) + after
    case Item(before, value, after, rest) => before + Print(value) + after + "," + PrintItems(rest)
  }

  function PrintMembers(members: Members): string {
    match members
    case LastMember(before, name, mid, gap, value, after) =>
      before + PrintText(name) + mid + ":" + gap + Print(value) + after
    case Member(before, name, mid, gap, value, after, rest) =>
      before + PrintText(name) + mid + ":" + gap + Print(value) + after + "," + PrintMembers(rest)
  }

  // ---- Texts that close all they open -------------------------------------------------------------

  /** Starting and ending outside strings, closing every brace it opens and never one it did not open. */
  ghost predicate Quiet(text: string) {
    && Balanced(text)
    && forall k :: 0 <= k <= |text| ==> Depth(Plain, text[..k]) >= 0
  }

  lemma {:induction false} LexConcat(s: Lex, a: string, b: string)
    ensures LexAfter(s, a + b) == LexAfter(LexAfter(s, a), b)
    ensures Depth(s, a + b) == Depth(s, a) + Depth(LexAfter(s, a), b)
    decreases |b|
  {
    if b == [] {
      assert a + b == a;
    } else {
      assert (a + b)[..|a + b| - 1] == a + b[..|b| - 1];
      LexConcat(s, a, b[..|b| - 1]);
    }
  }

  lemma QuietConcat(a: string, b: string)
    requires Quiet(a) && Quiet(b)
    ensures Quiet(a + b)
  {
    LexConcat(Plain, a, b);
    forall k | 0 <= k <= |a + b| ensures Depth(Plain, (a + b)[..k]) >= 0 {
      if k <= |a| {
        assert (a + b)[..k] == a[..k];
      } else {
        assert (a + b)[..k] == a + b[..k - |a|];
        LexConcat(Plain, a, b[..k - |a|]);
      }
    }
  }

  predicate IsHarmless(ch: char) {
    ch != '"' && ch != '{' && ch != '}'
  }

  lemma {:induction false} HarmlessIsQuiet(text: string)
    requires forall i :: 0 <= i < |text| ==> IsHarmless(text[i])
    ensures Quiet(text) && LexAfter(Plain, text) == Plain && Depth(Plain, text) == 0
  {
    if text != [] {
      var front := text[..|text| - 1];
      HarmlessIsQuiet(front);
      forall k | 0 <= k <= |text| ensures Depth(Plain, text[..k]) >= 0 {
        if k < |text| { assert text[..k] == front[..k]; } else { assert text[..k] == text; }
      }
    }
  }

  /** The inside of a string literal: no way out of it, and no brace counts. */
  ghost predicate Enclosed(text: string) {
    && LexAfter(Quoted, text) == Quoted
    && forall k :: 0 <= k <= |text| ==> Depth(Quoted, text[..k]) == 0
  }

  lemma {:induction false} UnquotedIsEnclosed(text: string)
    requires forall i :: 0 <= i < |text| ==> text[i] != '"' && text[i] != '\\'
    ensures Enclosed(text)
  {
    if text != [] {
      var front := text[..|text| - 1];
      UnquotedIsEnclosed(front);
      assert text[..|text|] == text && front[..|front|] == front;
      assert forall k :: 0 <= k < |text| ==> text[..k] == front[..k];
    }
  }

  lemma EnclosedConcat(a: string, b: string)
    requires Enclosed(a) && Enclosed(b)
    ensures Enclosed(a + b)
  {
    LexConcat(Quoted, a, b);
    forall k | 0 <= k <= |a + b| ensures Depth(Quoted, (a + b)[..k]) == 0 {
      if k <= |a| {
        assert (a + b)[..k] == a[..k];
      } else {
        assert (a + b)[..k] == a + b[..k - |a|] && a[..|a|] == a;
        LexConcat(Quoted, a, b[..k - |a|]);
      }
    }
  }

  lemma PieceIsEnclosed(p: Piece)
    ensures Enclosed(PrintPiece(p))
  {
    match p
    case Char(c) => UnquotedIsEnclosed([c]);
    case Escape(e) => EscapeIsEnclosed(e);
    case Unicode(hex) =>
      EscapeIsEnclosed('u');
      UnquotedIsEnclosed(hex);
      EnclosedConcat("\\u", hex);
  }

  lemma EscapeIsEnclosed(e: char)
    ensures Enclosed(['\\', e])
  {
    var text := ['\\', e];
    assert text[..1] == ['\\'] && ['\\'][..0] == [];
    assert LexAfter(Quoted, ['\\']) == Escaped && Depth(Quoted, ['\\']) == 0;
    forall k | 0 <= k <= 2 ensures Depth(Quoted, text[..k]) == 0 {
      if k == 0 { assert text[..k] == []; }
      if k == 2 { assert text[..k] == text; }
    }
  }

  lemma {:induction false} PiecesAreEnclosed(ps: seq<Piece>)
    ensures Enclosed(PrintPieces(ps))
  {
    if ps != [] {
      PiecesAreEnclosed(ps[..|ps| - 1]);
      PieceIsEnclosed(ps[|ps| - 1]);
      EnclosedConcat(PrintPieces(ps[..|ps| - 1]), PrintPiece(ps[|ps| - 1]));
    }
  }

  lemma TextIsQuiet(ps: seq<Piece>)
    ensures Quiet(PrintText(ps))
  {
    var inner := PrintPieces(ps);
    var text := "\"" + inner + "\"";
    PiecesAreEnclosed(ps);
    LexConcat(Plain, "\"", inner);
    LexConcat(Plain, "\"" + inner, "\"");
    assert inner[..|inner|] == inner;
    assert LexAfter(Plain, "\"") == Quoted && Depth(Plain, "\"") == 0;
    forall k | 0 <= k <= |text| ensures Depth(Plain, text[..k]) >= 0 {
      if 1 <= k <= |inner| + 1 {
        assert text[..k] == "\"" + inner[..k - 1];
        LexConcat(Plain, "\"", inner[..k - 1]);
      } else if k > 1 {
        assert text[..k] == text;
      }
    }
  }

  /** Braces around a quiet text: balanced at the closing brace and nowhere before. */
  lemma WrapIsShortest(inner: string)
    requires Quiet(inner)
    ensures
      var text := "{" + inner + "}";
      Quiet(text) && forall k :: 0 < k < |text| ==> !Balanced(text[..k])
  {
    var text := "{" + inner + "}";
    LexConcat(Plain, "{", inner);
    LexConcat(Plain, "{" + inner, "}");
    assert LexAfter(Plain, "{") == Plain && Depth(Plain, "{") == 1 && Depth(Plain, "}") == -1;
    forall k | 0 < k < |text| ensures Depth(Plain, text[..k]) >= 1 {
      assert text[..k] == "{" + inner[..k - 1];
      LexConcat(Plain, "{", inner[..k - 1]);
    }
    assert text[..|text|] == text && text[..0] == [];
  }

  // ---- Every printed value is quiet ---------------------------------------------------------------

  lemma BracketIsQuiet(inner: string)
    requires Quiet(inner)
    ensures Quiet("[" + inner + "]")
  {
    HarmlessIsQuiet("[");
    HarmlessIsQuiet("]");
    QuietConcat("[", inner);
    QuietConcat("[" + inner, "]");
  }

  lemma PaddedIsQuiet(before: Space, text: string, after: Space)
    requires Quiet(text)
    ensures Quiet(before + text + after)
  {
    HarmlessIsQuiet(before);
    HarmlessIsQuiet(after);
    QuietConcat(before, text);
    QuietConcat(before + text, after);
  }

  lemma SeparatedIsQuiet(a: string, separator: char, b: string)
    requires Quiet(a) && Quiet(b) && IsHarmless(separator)
    ensures Quiet(a + [separator] + b)
  {
    HarmlessIsQuiet([separator]);
    QuietConcat(a, [separator]);
    QuietConcat(a + [separator], b);
  }

  lemma {:induction false} ValueIsQuiet(v: Json)
    ensures Quiet(Print(v))
    decreases v
  {
    match v
    case Null => HarmlessIsQuiet("null");
    case True => HarmlessIsQuiet("true");
    case False => HarmlessIsQuiet("false");
    case Number(digits) => HarmlessIsQuiet(digits);
    case Text(pieces) => TextIsQuiet(pieces);
    case EmptyArray(pad) =>
      HarmlessIsQuiet(pad);
      BracketIsQuiet(pad);
    case Array(items) =>
      ItemsAreQuiet(items);
      BracketIsQuiet(PrintItems(items));
    case EmptyObject(pad) =>
      HarmlessIsQuiet(pad);
      WrapIsShortest(pad);
    case Object(members) =>
      MembersAreQuiet(members);
      WrapIsShortest(PrintMembers(members));
  }

  lemma {:induction false} ItemsAreQuiet(items: Items)
    ensures Quiet(PrintItems(items))
    decreases items
  {
    ValueIsQuiet(items.value);
    PaddedIsQuiet(items.before, Print(items.value), items.after);
    if items.Item? {
      ItemsAreQuiet(items.rest);
      SeparatedIsQuiet(items.before + Print(items.value) + items.after, ',', PrintItems(items.rest));
    }
  }

  lemma {:induction false} MembersAreQuiet(members: Members)
    ensures Quiet(PrintMembers(members))
    decreases members
  {
    var m := members;
    TextIsQuiet(m.name);
    ValueIsQuiet(m.value);
    PaddedIsQuiet(m.before, PrintText(m.name), m.mid);
    PaddedIsQuiet(m.gap, Print(m.value), m.after);
    var head, tail := m.before + PrintText(m.name) + m.mid, m.gap + Print(m.value) + m.after;
    SeparatedIsQuiet(head, ':', tail);
    assert head + ":" + tail == m.before + PrintText(m.name) + m.mid + ":" + m.gap + Print(m.value) + m.after;
    if m.Member? {
      MembersAreQuiet(m.rest);
      SeparatedIsQuiet(head + ":" + tail, ',', PrintMembers(m.rest));
    }
  }

  // ---- The round trip -------------------------------------------------------------------------------

  predicate IsObject(v: Json) {
    v.EmptyObject? || v.Object?
  }

  lemma ObjectIsShortest(v: Json)
    requires IsObject(v)
    ensures Balanced(Print(v)) && Print(v)[0] == '{' && forall k :: 0 < k < |Print(v)| ==> !Balanced(Print(v)[..k])
  {
    match v
    case EmptyObject(pad) =>
      HarmlessIsQuiet(pad);
      WrapIsShortest(pad);
    case Object(members) =>
      MembersAreQuiet(members);
      WrapIsShortest(PrintMembers(members));
  }

  /** Where a text that is balanced only as a whole stands, it is the shortest balanced slice. */
  lemma ShortestIsUnique(content: string, text: string, start: nat)
    requires start + |text| <= |content| && content[start..start + |text|] == text && text != []
    requires Balanced(text) && forall k :: 0 < k < |text| ==> !Balanced(text[..k])
    ensures IsShortest(content, start, start + |text|)
    ensures forall end: nat :: IsShortest(content, start, end) ==> end == start + |text|
  {
    forall e | start < e < start + |text| ensures !Balanced(content[start..e]) {
      assert content[start..e] == text[..e - start];
    }
  }

  /** Around any text: from the place where an object is printed, the scanner returns exactly that object. */
  lemma ExtractInvertsPrint(prefix: string, v: Json, suffix: string, from: nat, r: Option<string>)
    requires IsObject(v) && from <= |prefix| && forall i :: from <= i < |prefix| ==> prefix[i] != '{'
    requires Extracts(prefix + Print(v) + suffix, from, r)
    ensures r == Some(Print(v))
  {
    var text, start := Print(v), |prefix|;
    var content := prefix + text + suffix;
    ObjectIsShortest(v);
    assert IsFirstBrace(content, from, start);
    FirstBraceIsUnique(content, from, start);
    assert content[start..start + |text|] == text;
    ShortestIsUnique(content, text, start);
    if r.Some? {
      var i: nat, end: nat :| IsFirstBrace(content, from, i) && IsShortest(content, i, end) && r.value == content[i..end];
    }
  }

  /** extractFirstJSONObject gives back any printed object, whatever stands around it, as long as no opening brace
      stands before it. */
  method RoundTrip(prefix: string, v: Json, suffix: string) returns (r: Option<string>)
    requires IsObject(v) && forall i :: 0 <= i < |prefix| ==> prefix[i] != '{'
    ensures r == Some(Print(v))
  {
    r := ExtractFirstJSONObject(prefix + Print(v) + suffix);
    ExtractInvertsPrint(prefix, v, suffix, 0, r);
  }

  /** extractAlipaySignedResponseContent gives back the object printed after the first mention of the quoted name. */
  method AlipayRoundTrip(head: string, responseType: string, mid: string, v: Json, tail: string)
    returns (r: Option<string>)
    requires IsObject(v) && forall i :: 0 <= i < |mid| ==> mid[i] != '{'
    requires forall i :: 0 <= i < |responseType| ==> responseType[i] != '{'
    requires
      var name := "\"" + responseType + "\"";
      IsFirstMatch(head + name + mid + Print(v) + tail, name, |head|)
    ensures r == Some(Print(v))
  {
    var name := "\"" + responseType + "\"";
    var raw := head + name + mid + Print(v) + tail;
    r := ExtractAlipaySignedResponseContent(raw, responseType);
    assert !NoMatch(raw, name);
    assert forall i :: IsFirstMatch(raw, name, i) ==> i == |head|;
    ExtractInvertsPrint(head + name + mid, v, tail, |head|, r);
  }
}
