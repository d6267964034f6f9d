/** The string-aware brace scanner that picks a JSON object out of surrounding text; the repository has it twice.
    Go indexes bytes: every character the scanner looks for is ASCII, so characters stand for bytes here. */
module BraceScanner {
  import opened Wrappers

  // ---- Balanced outside strings -----------------------------------------------------------

  datatype Lex = Plain | Quoted | Escaped

  function NextLex(s: Lex, ch: char): Lex {
    match s
    case Plain => if ch == '"' then Quoted else Plain
    case Quoted => if ch == '\\' then Escaped else if ch == '"' then Plain else Quoted
    case Escaped => Quoted
  }

  /** Where in a string literal, if in any, the text ends when it starts in `s`. */
  function LexAfter(s: Lex, text: string): Lex {
    if text == [] then s else NextLex(LexAfter(s, text[..|text| - 1]), text[|text| - 1])
  }

  function Weight(ch: char): int {
    if ch == '{' then 1 else if ch == '}' then -1 else 0
  }

  /** Opening less closing braces outside string literals. */
  function Depth(s: Lex, text: string): int {
    if text == [] then 0
    else
      var front := text[..|text| - 1];
      Depth(s, front) + (if LexAfter(s, front) == Plain then Weight(text[|text| - 1]) else 0)
  }

  predicate Balanced(text: string) {
    LexAfter(Plain, text) == Plain && Depth(Plain, text) == 0
  }

  /** The shortest balanced slice of `content` from `start`. */
  ghost predicate IsShortest(content: string, start: nat, end: nat) {
    && start < end <= |content| && Balanced(content[start..end])
    && forall e :: start < e < end ==> !Balanced(content[start..e])
  }

  ghost predicate IsFirstBrace(content: string, from: nat, i: nat) {
    && from <= i < |content| && content[i] == '{'
    && forall j :: from <= j < i ==> content[j] != '{'
  }

  /** What looking for an object from `from` on must return. */
  ghost predicate Extracts(content: string, from: nat, r: Option<string>) {
    match r
    case Some(slice) =>
      exists i: nat, end: nat :: IsFirstBrace(content, from, i) && IsShortest(content, i, end) && slice == content[i..end]
    case None =>
      forall i: nat, end: nat :: IsFirstBrace(content, from, i) && i < end <= |content| ==> !Balanced(content[i..end])
  }

  // ---- The scanner ----------------------------------------------------------------------------

  method IndexOfBrace(content: string, from: nat) returns (r: Option<nat>)
    ensures r.Some? ==> IsFirstBrace(content, from, r.value)
    ensures r.None? ==> forall i :: from <= i < |content| ==> content[i] != '{'
  {
    if from >= |content| {
      return None;
    }
    for i := from to |content|
      invariant forall j :: from <= j < i ==> content[j] != '{'
    {
      if content[i] == '{' {
        return Some(i);
      }
    }
    return None;
  }

  /** The loop both copies share: from an opening brace to the brace that closes it. */
  method ScanObject(content: string, start: nat) returns (r: Option<string>)
    requires start < |content| && content[start] == '{'
    ensures r.Some? ==> exists end: nat :: IsShortest(content, start, end) && r.value == content[start..end]
    ensures r.None? ==> forall end :: start < end <= |content| ==> !Balanced(content[start..end])
  {
    var inString, escaped, depth := false, false, 0;
    for index := start to |content|
      invariant LexAfter(Plain, content[start..index]) == LexOf(inString, escaped) && (escaped ==> inString)
      invariant Depth(Plain, content[start..index]) == depth
      invariant index > start ==> depth >= 1
      invariant forall e :: start < e <= index ==> !Balanced(content[start..e])
    {
      var ch := content[index];
      assert content[start..index + 1] == content[start..index] + [ch];
      if inString {
        if escaped {
          escaped := false;
          continue;
        }
        if ch == '\\' {
          escaped := true;
          continue;
        }
        if ch == '"' {
          inString := false;
        }
        continue;
      }
      if ch == '"' {
        inString := true;
      } else if ch == '{' {
        depth := depth + 1;
      } else if ch == '}' {
        depth := depth - 1;
        if depth == 0 {
          assert IsShortest(content, start, index + 1);
          return Some(content[start..index + 1]);
        }
      }
    }
    return None;
  }

  function LexOf(inString: bool, escaped: bool): Lex {
    if escaped then Escaped else if inString then Quoted else Plain
  }

  method ExtractFirstJSONObject(content: string) returns (r: Option<string>)
    ensures Extracts(content, 0, r)
  {
    var start := IndexOfBrace(content, 0);
    if start.None? {
      return None;
    }
    r := ScanObject(content, start.value);
    FirstBraceIsUnique(content, 0, start.value);
  }

  lemma FirstBraceIsUnique(content: string, from: nat, i: nat)
    requires IsFirstBrace(content, from, i)
    ensures forall j: nat :: IsFirstBrace(content, from, j) ==> j == i
  {
  }

  predicate MatchesAt(content: string, needle: string, i: nat) {
    i + |needle| <= |content| && content[i..i + |needle|] == needle
  }

  ghost predicate IsFirstMatch(content: string, needle: string, i: nat) {
    MatchesAt(content, needle, i) && forall j: nat :: j < i ==> !MatchesAt(content, needle, j)
  }

  ghost predicate NoMatch(content: string, needle: string) {
    forall j: nat :: !MatchesAt(content, needle, j)
  }

  method IndexOf(content: string, needle: string) returns (r: Option<nat>)
    ensures r.Some? ==> IsFirstMatch(content, needle, r.value)
    ensures r.None? ==> NoMatch(content, needle)
  {
    for i := 0 to |content| + 1
      invariant forall j: nat :: j < i ==> !MatchesAt(content, needle, j)
    {
      if MatchesAt(content, needle, i) {
        return Some(i);
      }
    }
    return None;
  }

  /** The second copy starts looking at the quoted response name. */
  method ExtractAlipaySignedResponseContent(raw: string, responseType: string) returns (r: Option<string>)
    ensures
      var name := "\"" + responseType + "\"";
      || (r == None && NoMatch(raw, name))
      || exists i: nat :: IsFirstMatch(raw, name, i) && Extracts(raw, i, r)
  {
    var name := "\"" + responseType + "\"";
    var at := IndexOf(raw, name);
    if at.None? {
      return None;
    }
    var start := IndexOfBrace(raw, at.value);
    if start.Some? {
      r := ScanObject(raw, start.value);
      FirstBraceIsUnique(raw, at.value, start.value);
    } else {
      r := None;
    }
    assert Extracts(raw, at.value, r);
  }
}
