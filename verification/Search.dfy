/** The search box of every list endpoint: text escaped into a regular expression, matched with option "i". */
module Search {
  import opened Common

  /** The characters of the class `[.*+?^${}()|[\]\\]` that the endpoints escape. */
  predicate IsMeta(c: char) {
    c in ".*+?^${}()|[]\\"
  }

  /** The characters a pattern reads as operators: SyntaxCharacter, section 22.2.1 of ECMA-262. */
  predicate IsSyntax(c: char) {
    c in {'^', '$', '\\', '.', '*', '+', '?', '(', ')', '[', ']', '{', '}', '|'}
  }

  predicate IsWordChar(c: char) {
    'a' <= c <= 'z' || 'A' <= c <= 'Z' || '0' <= c <= '9' || c == '_'
  }

  /** `replace(/[...]/g, '\\$&')`: a backslash before every metacharacter. */
  function Escape(s: string): string {
    if s == "" then "" else (if IsMeta(s[0]) then ['\\', s[0]] else [s[0]]) + Escape(s[1..])
  }

  /** How a pattern reads: a character that stands for itself, or an operator. */
  datatype Token = Literal(c: char) | Operator(c: char)

  /** A backslash makes any non-word character literal; before a word character, or last, it is an operator. */
  function Tokens(pattern: string): seq<Token> {
    if pattern == "" then []
    else if pattern[0] == '\\' then
      if |pattern| == 1 then [Operator('\\')]
      else [if IsWordChar(pattern[1]) then Operator(pattern[1]) else Literal(pattern[1])] + Tokens(pattern[2..])
    else [if IsSyntax(pattern[0]) then Operator(pattern[0]) else Literal(pattern[0])] + Tokens(pattern[1..])
  }

  function Literals(s: string): (tokens: seq<Token>)
    ensures |tokens| == |s| && forall i :: 0 <= i < |s| ==> tokens[i] == Literal(s[i])
  {
    seq(|s|, i requires 0 <= i < |s| => Literal(s[i]))
  }

  /** The escaped text reads as its own characters and nothing else, for every text. */
  lemma {:induction false} EscapedIsLiteral(s: string)
    ensures Tokens(Escape(s)) == Literals(s)
  {
    if s != "" {
      EscapedIsLiteral(s[1..]);
      var rest := Escape(s[1..]);
      if IsMeta(s[0]) {
        assert Escape(s) == ['\\', s[0]] + rest && Escape(s)[2..] == rest;
        assert !IsWordChar(s[0]);
      } else {
        assert Escape(s) == [s[0]] + rest && Escape(s)[1..] == rest;
      }
      assert Literals(s) == [Literal(s[0])] + Literals(s[1..]);
    }
  }

  /** Without the escape it would do so exactly for the texts with no metacharacter. */
  lemma {:induction false} RawIsLiteralExactly(s: string)
    ensures Tokens(s) == Literals(s) <==> forall i :: 0 <= i < |s| ==> !IsSyntax(s[i])
  {
    if s != "" {
      assert Literals(s) == [Literal(s[0])] + Literals(s[1..]);
      if IsSyntax(s[0]) {
        assert Tokens(s)[0] != Literal(s[0]) || |Tokens(s)| < |s|
            by { TokensNoLonger(s); if s[0] == '\\' && |s| > 1 { TokensNoLonger(s[2..]); } }
      } else {
        RawIsLiteralExactly(s[1..]);
        assert Tokens(s) == [Literal(s[0])] + Tokens(s[1..]);
        assert Tokens(s)[1..] == Tokens(s[1..]) && Literals(s)[1..] == Literals(s[1..]);
        assert forall i :: 0 < i < |s| ==> s[i] == s[1..][i - 1];
        assert forall i :: 0 <= i < |s[1..]| ==> s[1..][i] == s[i + 1];
      }
    }
  }

  lemma {:induction false} TokensNoLonger(p: string)
    ensures |Tokens(p)| <= |p|
  {
    if p != "" {
      if p[0] != '\\' { TokensNoLonger(p[1..]); }
      else if |p| > 1 { TokensNoLonger(p[2..]); }
    }
  }

  /** Removing one backslash before each metacharacter. */
  function Unescape(p: string): string {
    if p == "" then ""
    else if p[0] == '\\' && |p| > 1 then [p[1]] + Unescape(p[2..])
    else [p[0]] + Unescape(p[1..])
  }

  lemma {:induction false} UnescapeUndoesEscape(s: string)
    ensures Unescape(Escape(s)) == s
  {
    if s != "" {
      UnescapeUndoesEscape(s[1..]);
      var rest := Escape(s[1..]);
      if IsMeta(s[0]) {
        assert Escape(s) == ['\\', s[0]] + rest && Escape(s)[2..] == rest;
      } else {
        assert Escape(s) == [s[0]] + rest && Escape(s)[1..] == rest;
      }
    }
  }

  predicate AllLiteral(tokens: seq<Token>) {
    forall i :: 0 <= i < |tokens| ==> tokens[i].Literal?
  }

  /** A pattern of literals matches at a position, one character per token, ignoring case. */
  predicate MatchesAt(tokens: seq<Token>, text: string, at: nat)
    requires AllLiteral(tokens)
  {
    tokens == [] ||
    (at < |text| && LowerChar(text[at]) == LowerChar(tokens[0].c) && MatchesAt(tokens[1..], text, at + 1))
  }

  /** `{ $regex: escapedSearch, $options: 'i' }` on one field. */
  predicate Finds(search: string, text: string) {
    EscapedIsLiteral(search);
    exists at :: 0 <= at <= |text| && MatchesAt(Tokens(Escape(search)), text, at)
  }

  predicate OccursAt(search: string, text: string, at: nat) {
    at + |search| <= |text| && Lower(text[at..at + |search|]) == Lower(search)
  }

  lemma OccursFromFirst(s: string, text: string, at: nat)
    requires s != "" && at + |s| <= |text|
    ensures OccursAt(s, text, at) <==> LowerChar(text[at]) == LowerChar(s[0]) && OccursAt(s[1..], text, at + 1)
  {
    var here := text[at..at + |s|];
    assert here == [text[at]] + text[at + 1..at + |s|] && s == [s[0]] + s[1..];
    LowerConcat([text[at]], text[at + 1..at + |s|]);
    LowerConcat([s[0]], s[1..]);
    assert Lower(here)[0] == LowerChar(text[at]) && Lower(s)[0] == LowerChar(s[0]);
    assert Lower(here)[1..] == Lower(text[at + 1..at + |s|]) && Lower(s)[1..] == Lower(s[1..]);
  }

  lemma {:induction false} LiteralsMatchText(s: string, text: string, at: nat)
    requires at <= |text|
    ensures MatchesAt(Literals(s), text, at) <==> OccursAt(s, text, at)
  {
    if s != "" {
      assert Literals(s)[1..] == Literals(s[1..]);
      if at < |text| {
        LiteralsMatchText(s[1..], text, at + 1);
        if at + |s| <= |text| { OccursFromFirst(s, text, at); }
      }
    }
  }

  /** So a search finds exactly the fields that contain the text typed, ignoring case, whatever was typed. */
  lemma SearchIsLiteral(search: string, text: string)
    ensures Finds(search, text) <==> exists at: nat :: OccursAt(search, text, at)
  {
    EscapedIsLiteral(search);
    forall at: nat | at <= |text| ensures MatchesAt(Tokens(Escape(search)), text, at) <==> OccursAt(search, text, at) {
      LiteralsMatchText(search, text, at);
    }
    if at: nat :| OccursAt(search, text, at) {
      assert at <= |text| && MatchesAt(Tokens(Escape(search)), text, at);
    }
  }
}
