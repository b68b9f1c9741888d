/** Serial number printing and normalising (certificate.util.ts). */
module Serials {
  import opened Common

  /** The characters that `.` in a JavaScript regular expression does not match. */
  predicate LineTerminator(c: char) {
    c == '\n' || c == '\r' || c == '\U{2028}' || c == '\U{2029}'
  }

  /** All matches of `/.{2}/g`, scanning from the left. */
  function Pairs(s: string): (r: seq<string>)
    ensures forall p :: p in r ==> |p| == 2
  {
    if |s| < 2 then []
    else if LineTerminator(s[0]) || LineTerminator(s[1]) then Pairs(s[1..])
    else [s[..2]] + Pairs(s[2..])
  }

  function JoinColon(parts: seq<string>): string {
    if |parts| == 0 then ""
    else if |parts| == 1 then parts[0]
    else parts[0] + ":" + JoinColon(parts[1..])
  }

  /** formatSerialNumber: `match` yields null when there is no pair, and then the input is returned. */
  function Format(serial: string): string {
    if ':' in serial then serial
    else if Pairs(serial) == [] then serial
    else
      var printed := Lower(JoinColon(Pairs(serial)));
      if printed == "" then serial else printed
  }

  /** `replace(/:/g, '')`. */
  function StripColons(s: string): (r: string)
    ensures ':' !in r
  {
    if s == "" then ""
    else if s[0] == ':' then StripColons(s[1..])
    else [s[0]] + StripColons(s[1..])
  }

  function Normalize(serial: string): string {
    Lower(StripColons(serial))
  }

  ghost predicate OneLine(s: string) {
    forall c :: c in s ==> !LineTerminator(c)
  }

  /** Two-character groups separated by single colons: the layout Vault prints. */
  ghost predicate ColonForm(t: string) {
    |t| >= 2 && t[0] != ':' && t[1] != ':' &&
    (|t| == 2 || (|t| > 3 && t[2] == ':' && ColonForm(t[3..])))
  }

  /** The line terminators of section 12.3 of ECMA-262, by code point. */
  lemma LineTerminatorExactly(c: char)
    ensures LineTerminator(c) <==> c as int in {10, 13, 8232, 8233}
  {
  }

  /** The pairs of a text of several lines are those of each line: none spans a line end. */
  lemma {:induction false} PairsByLine(line: string, end: char, rest: string)
    requires OneLine(line) && LineTerminator(end)
    ensures Pairs(line + ([end] + rest)) == Pairs(line) + Pairs(rest)
    decreases |line|
  {
    var s := line + ([end] + rest);
    if line == "" {
      assert s == [end] + rest && s[1..] == rest;
    } else if |line| == 1 {
      assert s[1] == end && s[1..] == [end] + rest && s[1..][1..] == rest;
    } else {
      assert s[..2] == line[..2] && s[2..] == line[2..] + ([end] + rest);
      PairsByLine(line[2..], end, rest);
    }
  }

  // ---- Normalising -------------------------------------------------------------------------

  lemma LowerColon(c: char)
    ensures LowerChar(c) == ':' <==> c == ':'
    ensures LineTerminator(LowerChar(c)) <==> LineTerminator(c)
    ensures LowerChar(LowerChar(c)) == LowerChar(c)
  {
  }

  lemma {:induction false} StripNothing(s: string)
    requires ':' !in s
    ensures StripColons(s) == s
  {
    if s != "" {
      assert s == [s[0]] + s[1..];
      StripNothing(s[1..]);
    }
  }

  lemma {:induction false} StripConcat(a: string, b: string)
    ensures StripColons(a + b) == StripColons(a) + StripColons(b)
  {
    if a == "" {
      assert a + b == b;
    } else {
      assert (a + b)[1..] == a[1..] + b;
      StripConcat(a[1..], b);
    }
  }

  lemma {:induction false} StripLower(s: string)
    ensures StripColons(Lower(s)) == Lower(StripColons(s))
  {
    if s != "" {
      LowerColon(s[0]);
      assert Lower(s)[1..] == Lower(s[1..]);
      StripLower(s[1..]);
      if s[0] != ':' {
        LowerConcat([s[0]], StripColons(s[1..]));
      }
    }
  }

  lemma LowerTwice(s: string)
    ensures Lower(Lower(s)) == Lower(s)
  {
  }

  /** Normalising is idempotent and ignores case and colon layout. */
  lemma NormalizeIdempotent(s: string)
    ensures Normalize(Normalize(s)) == Normalize(s)
    ensures Normalize(Lower(s)) == Normalize(s)
    ensures Normalize(StripColons(s)) == Normalize(s)
  {
    StripLower(s);
    StripNothing(StripColons(s));
    StripLower(StripColons(s));
    LowerTwice(StripColons(s));
  }

  // ---- Printing ----------------------------------------------------------------------------

  lemma {:induction false} JoinedPairsForm(s: string)
    requires OneLine(s) && ':' !in s && |s| >= 2
    ensures Pairs(s) != [] && ColonForm(JoinColon(Pairs(s)))
  {
    assert s[0] in s && s[1] in s;
    var head, rest := s[..2], Pairs(s[2..]);
    assert Pairs(s) == [head] + rest;
    if |s| >= 4 {
      JoinedPairsForm(s[2..]);
      assert Pairs(s)[1..] == rest;
      assert (head + ":" + JoinColon(rest))[3..] == JoinColon(rest);
    } else {
      assert rest == [];
    }
  }

  /** What the pair scan keeps of a one-line string: everything but an odd last character. */
  function EvenPart(s: string): (r: string)
    ensures r <= s && (|r| == |s| <==> |s| % 2 == 0)
  {
    if |s| < 2 then ""
    else
      var rest := EvenPart(s[2..]);
      assert s[2..][..|rest|] == rest;
      s[..2] + rest
  }

  lemma StripHeadPair(head: string, rest: string)
    requires ':' !in head
    ensures StripColons(head + ":" + rest) == head + StripColons(rest)
  {
    StripNothing(head);
    StripConcat(head + ":", rest);
    StripConcat(head, ":");
  }

  lemma {:induction false} JoinedPairs(s: string)
    requires OneLine(s) && ':' !in s
    ensures StripColons(JoinColon(Pairs(s))) == EvenPart(s)
  {
    if |s| >= 2 {
      assert s[0] in s && s[1] in s;
      var head, rest := s[..2], Pairs(s[2..]);
      assert Pairs(s) == [head] + rest;
      JoinedPairs(s[2..]);
      if rest != [] {
        assert Pairs(s)[1..] == rest;
        StripHeadPair(head, JoinColon(rest));
      } else {
        StripNothing(head);
        assert EvenPart(s[2..]) == "";
      }
    }
  }

  lemma ColonFormLower(t: string)
    ensures ColonForm(t) <==> ColonForm(Lower(t))
  {
    if |t| >= 2 {
      LowerColon(t[0]);
      LowerColon(t[1]);
      if |t| > 3 {
        LowerColon(t[2]);
        assert Lower(t)[3..] == Lower(t[3..]);
        ColonFormLower(t[3..]);
      }
    }
  }

  /**
   * Printing then normalising is lower-casing exactly when no digit is dropped: the length is
   * even, or the input is a single character (which the printer returns untouched).
   */
  lemma NormalizeAfterFormat(s: string)
    requires OneLine(s) && ':' !in s
    ensures Normalize(Format(s)) == Lower(s) <==> |s| % 2 == 0 || |s| == 1
    ensures |s| >= 2 ==> ColonForm(Format(s))
  {
    JoinedPairs(s);
    StripNothing(s);
    if |s| >= 2 {
      JoinedPairsForm(s);
      var joined := JoinColon(Pairs(s));
      StripLower(joined);
      LowerTwice(StripColons(joined));
      ColonFormLower(joined);
    }
  }

  /** What has colons is printed as it is, and printing twice is printing once. */
  lemma FormatIdempotent(s: string)
    requires OneLine(s)
    ensures ':' in s ==> Format(s) == s
    ensures Format(Format(s)) == Format(s)
  {
    if ':' !in s && |s| >= 2 {
      var printed := Format(s);
      JoinedPairsForm(s);
      if |s| >= 4 {
        NormalizeAfterFormat(s);
        var joined := JoinColon(Pairs(s));
        assert Pairs(s) == [s[..2]] + Pairs(s[2..]) && Pairs(s[2..]) != [] by { JoinedPairsForm(s[2..]); }
        assert joined[2] == ':' && printed == Lower(joined) && printed[2] == ':';
      } else {
        FormatPair(s);
      }
    }
  }

  lemma FormatPair(s: string)
    requires OneLine(s) && ':' !in s && 2 <= |s| <= 3
    ensures Format(s) == Lower(s[..2]) && Format(Format(s)) == Format(s)
  {
    assert s[0] in s && s[1] in s;
    assert Pairs(s) == [s[..2]] && JoinColon(Pairs(s)) == s[..2];
    var pair := Lower(s[..2]);
    LowerColon(s[0]);
    LowerColon(s[1]);
    LowerTwice(s[..2]);
    assert pair[..2] == pair && Pairs(pair[2..]) == [] && Pairs(pair) == [pair];
  }

  /** A colon form is rebuilt from its stripped characters. */
  lemma {:induction false} PairsRebuild(t: string)
    requires OneLine(t) && ColonForm(t)
    ensures |StripColons(t)| >= 2
    ensures JoinColon(Pairs(StripColons(t))) == t
  {
    var head := t[..2];
    StripNothing(head);
    if |t| == 2 {
      assert t == head;
      assert Pairs(t) == [t] + Pairs(t[2..]);
    } else {
      assert OneLine(t[3..]);
      PairsRebuild(t[3..]);
      assert t == head + ":" + t[3..];
      StripHeadPair(head, t[3..]);
      var stripped := StripColons(t);
      assert stripped[..2] == head && stripped[2..] == StripColons(t[3..]);
      assert stripped[0] == t[0] && stripped[1] == t[1];
      assert Pairs(stripped) == [head] + Pairs(StripColons(t[3..]));
      assert Pairs(stripped)[1..] == Pairs(StripColons(t[3..]));
    }
  }

  lemma {:induction false} StripOneLine(s: string)
    requires OneLine(s)
    ensures OneLine(StripColons(s)) && OneLine(Lower(s))
    ensures |StripColons(s)| <= |s|
  {
    forall c | c in Lower(s) ensures !LineTerminator(c) {
      var i :| 0 <= i < |s| && Lower(s)[i] == c;
      LowerColon(s[i]);
      assert s[i] in s;
    }
    if s != "" {
      assert s[0] in s && OneLine(s[1..]);
      StripOneLine(s[1..]);
    }
  }

  lemma FormatAfterNormalizeShort(t: string)
    requires OneLine(t) && |Normalize(t)| < 2
    ensures Format(Normalize(t)) == Lower(t) <==> t == "" || (|t| == 1 && t != ":")
  {
  }

  /** Normalising then printing gives back the (lower-cased) input exactly on these shapes. */
  lemma FormatAfterNormalize(t: string)
    requires OneLine(t)
    ensures Format(Normalize(t)) == Lower(t) <==> t == "" || (|t| == 1 && t != ":") || ColonForm(t)
  {
    var bare := Normalize(t);
    StripOneLine(t);
    StripOneLine(StripColons(t));
    StripLower(t);
    assert ':' !in bare by { assert bare == StripColons(Lower(t)); }
    ColonFormLower(t);
    if ColonForm(t) {
      PairsRebuild(Lower(t));
      LowerTwice(t);
      JoinedPairsForm(bare);
    } else if |bare| >= 2 {
      NormalizeAfterFormat(bare);
    } else {
      FormatAfterNormalizeShort(t);
    }
  }
}
