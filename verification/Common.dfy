/**
 * Small shared vocabulary: optional values, results, the ASCII part of JavaScript's toLowerCase, and
 * the text of ObjectIds.
 */
module Common {
  datatype Option<+T> = None | Some(value: T)

  datatype Result<+T, +E> = Ok(value: T) | Err(error: E)

  function Max(a: int, b: int): int {
    if a < b then b else a
  }

  function LowerChar(c: char): char {
    if 'A' <= c <= 'Z' then c - 'A' + 'a' else c
  }

  function Lower(s: string): (r: string)
    ensures |r| == |s|
    ensures forall i :: 0 <= i < |s| ==> r[i] == LowerChar(s[i])
  {
    seq(|s|, i requires 0 <= i < |s| => LowerChar(s[i]))
  }

  /** The 26 capitals become their small letters, and every other character stays. */
  lemma LowerAlphabet(c: char)
    ensures Lower("ABCDEFGHIJKLMNOPQRSTUVWXYZ") == "abcdefghijklmnopqrstuvwxyz"
    ensures c !in "ABCDEFGHIJKLMNOPQRSTUVWXYZ" ==> LowerChar(c) == c
  {
    if 'A' <= c <= 'Z' { assert "ABCDEFGHIJKLMNOPQRSTUVWXYZ"[c as int - 'A' as int] == c; }
  }

  lemma LowerConcat(a: string, b: string)
    ensures Lower(a + b) == Lower(a) + Lower(b)
  {
  }

  predicate HexDigit(c: char) {
    '0' <= c <= '9' || 'a' <= c <= 'f' || 'A' <= c <= 'F'
  }

  /**
   * The ObjectId that a text is cast to, as toString prints it: 24 hexadecimal digits are read in
   * either case and printed in lower case; any other text is refused.
   */
  function CastId(text: string): Option<string> {
    if |text| == 24 && forall c :: c in text ==> HexDigit(c) then Some(Lower(text)) else None
  }

  /** What is cast, in characters; the printed id is cast to itself. */
  lemma CastIdExactly(text: string)
    ensures CastId(text).Some? <==> |text| == 24 && forall c :: c in text ==> c in "0123456789abcdefABCDEF"
    ensures CastId(text).Some? ==>
      var id := CastId(text).value;
      && |id| == 24 && (forall c :: c in id ==> c in "0123456789abcdef") && CastId(id) == Some(id)
  {
    HexDigits();
    if CastId(text).Some? {
      var id := Lower(text);
      forall c | c in id ensures c in "0123456789abcdef" && LowerChar(c) == c {
        var i :| 0 <= i < |id| && id[i] == c;
        assert text[i] in text && HexDigit(text[i]);
      }
      assert forall i :: 0 <= i < |id| ==> id[i] in id;
      assert Lower(id) == id;
    }
  }

  lemma HexDigits()
    ensures forall c :: HexDigit(c) <==> c in "0123456789abcdefABCDEF"
    ensures forall c :: HexDigit(c) ==> LowerChar(c) in "0123456789abcdef" && LowerChar(LowerChar(c)) == LowerChar(c)
  {
    forall c | HexDigit(c) ensures c in "0123456789abcdefABCDEF" { LiteralDigit(c); }
    forall c | HexDigit(c) ensures LowerChar(c) in "0123456789abcdef" { LiteralDigit(LowerChar(c)); }
  }

  lemma LiteralDigit(c: char)
    requires HexDigit(c)
    ensures c in "0123456789abcdefABCDEF"
    ensures '0' <= c <= '9' || 'a' <= c <= 'f' ==> c in "0123456789abcdef"
  {
    if '0' <= c <= '9' {
      assert "0123456789abcdefABCDEF"[c as int - '0' as int] == c && "0123456789abcdef"[c as int - '0' as int] == c;
    } else if 'a' <= c <= 'f' {
      assert "0123456789abcdefABCDEF"[c as int - 'a' as int + 10] == c;
      assert "0123456789abcdef"[c as int - 'a' as int + 10] == c;
    } else {
      assert "0123456789abcdefABCDEF"[c as int - 'A' as int + 16] == c;
    }
  }

  lemma SetSizes<T>(s: set<T>, x: T)
    ensures |s - {x}| == if x in s then |s| - 1 else |s|
    ensures |s + {x}| == if x in s then |s| else |s| + 1
  {
  }

  lemma SubsetSize<T>(a: set<T>, b: set<T>)
    requires a <= b
    ensures |a| <= |b|
  {
    assert b == a + (b - a);
  }

  lemma RemoveKey<K, V>(m: map<K, V>, key: K)
    ensures |m - {key}| == if key in m then |m| - 1 else |m|
  {
    SetSizes(m.Keys, key);
    assert (m - {key}).Keys == m.Keys - {key};
    assert |m.Keys| == |m| && |(m - {key}).Keys| == |m - {key}|;
  }

  lemma AtMostOneElement<T>(s: set<T>)
    requires forall x, y :: x in s && y in s ==> x == y
    ensures |s| <= 1
  {
    if s != {} {
      var x :| x in s;
      assert s == {x};
    }
  }

  // ---- Values not yet in use ---------------------------------------------------------------

  lemma {:induction false} LongerThanAll(used: set<string>) returns (n: nat)
    ensures forall s :: s in used ==> |s| < n
  {
    if used == {} {
      n := 0;
    } else {
      var s :| s in used;
      var m := LongerThanAll(used - {s});
      n := m + |s| + 1;
    }
  }

  lemma FreshString(used: set<string>) returns (s: string)
    ensures s !in used && forall c :: c in s ==> c == 'a'
  {
    var n := LongerThanAll(used);
    s := seq(n, _ => 'a');
  }

  lemma {:induction false} FreshNat(used: set<nat>) returns (n: nat)
    ensures forall m :: m in used ==> m < n
  {
    if used == {} {
      n := 0;
    } else {
      var m :| m in used;
      var k := FreshNat(used - {m});
      assert forall other :: other in used ==> other == m || other in used - {m};
      n := k + m + 1;
    }
  }
}
