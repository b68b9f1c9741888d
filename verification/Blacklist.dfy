/**
 * The access-token blacklist: logout writes it with a time-to-live in seconds, and the JWT strategy
 * reads it. Times are milliseconds; `exp` is in seconds.
 */
module Blacklist {
  import opened Common

  const PREFIX := "bl:token:"
  const SCHEME := "Bearer "

  /** Redis keys and the instants at which they lapse. */
  type Keys = map<string, int>

  predicate Present(keys: Keys, key: string, now: int) {
    key in keys && now < keys[key]
  }

  /** The seconds `setex` is given: what is left of the token, on a clock rounded down. */
  function Ttl(exp: int, now: int): int {
    exp - now / 1000
  }

  /**
   * The blacklisting part of logout: the clock is read at `now`, the key is set at `written`. A Redis
   * that fails (`stores` false) is swallowed, and logout goes on.
   */
  function AfterLogout(keys: Keys, token: string, exp: Option<int>, now: int, written: int, stores: bool): Keys {
    if token == "" || exp.None? || exp.value == 0 || Ttl(exp.value, now) <= 0 || !stores then keys
    else keys[PREFIX + token := written + Ttl(exp.value, now) * 1000]
  }

  /** Expiry as section 4.1.4 of RFC 7519 has it, on the whole seconds the JWT library compares. */
  predicate Expired(exp: Option<int>, now: int) {
    exp.Some? && now / 1000 >= exp.value
  }

  predicate SchemeAt(header: string, i: nat) {
    i + |SCHEME| <= |header| && header[i..i + |SCHEME|] == SCHEME
  }

  /** The first occurrence of the scheme at or after `from`, or the end of the header. */
  function IndexOfScheme(header: string, from: nat): (i: nat)
    requires from <= |header|
    ensures from <= i <= |header| && (i == |header| || SchemeAt(header, i))
    ensures forall j :: from <= j < i ==> !SchemeAt(header, j)
    decreases |header| - from
  {
    if from == |header| || SchemeAt(header, from) then from else IndexOfScheme(header, from + 1)
  }

  /** `header.replace('Bearer ', '')`: the first occurrence, wherever it is. */
  function StripScheme(header: string): string {
    var i := IndexOfScheme(header, 0);
    if i == |header| then header else header[..i] + header[i + |SCHEME|..]
  }

  /** Whether the strategy lets an access token with this `exp` through under this header. */
  predicate Admits(keys: Keys, header: string, exp: Option<int>, now: int) {
    !Expired(exp, now) && (StripScheme(header) == "" || !Present(keys, PREFIX + StripScheme(header), now))
  }

  lemma StripBearer(token: string)
    ensures StripScheme(SCHEME + token) == token
  {
  }

  /** Only the first occurrence goes, wherever it is; a header without one is taken whole. */
  lemma StripsFirst(front: string, back: string)
    ensures (forall i :: 0 <= i <= |front| ==> !SchemeAt(front, i)) ==> StripScheme(front) == front
    ensures (forall i :: 0 <= i < |front| ==> !SchemeAt(front + ("Bearer " + back), i)) ==>
      StripScheme(front + ("Bearer " + back)) == front + back
  {
    var header := front + ("Bearer " + back);
    assert SCHEME == "Bearer " && header[|front|..|front| + 7] == "Bearer ";
    assert SchemeAt(header, |front|);
    assert header[..|front|] == front && header[|front| + 7..] == back;
  }

  /**
   * No gap: from the moment logout's key is written, a token with an expiry is rejected for ever;
   * the key, when there is one, lasts until the token expires and less than a second (and the
   * writing delay) longer.
   */
  lemma NoBlacklistGap(keys: Keys, token: string, exp: int, now: int, written: int, later: int)
    requires token != "" && 0 <= now <= written <= later
    ensures var after := AfterLogout(keys, token, Some(exp), now, written, true);
      && !Admits(after, SCHEME + token, Some(exp), later)
      && (Ttl(exp, now) > 0 && exp != 0 ==> exp * 1000 <= after[PREFIX + token] < exp * 1000 + 1000 + (written - now))
  {
    StripBearer(token);
    assert exp - now / 1000 > 0 && later >= written + (exp - now / 1000) * 1000 ==> later / 1000 >= exp;
  }

  /**
   * What makes it so is the `exp` claim and the write: a token without an expiry stays admitted, and
   * so does one whose key Redis did not take, unless it has expired by then.
   */
  lemma RejectedExactly(keys: Keys, token: string, exp: Option<int>, now: int, written: int, stores: bool)
    requires token != "" && 0 <= now <= written && PREFIX + token !in keys
    ensures (forall later :: later >= written ==>
        !Admits(AfterLogout(keys, token, exp, now, written, stores), SCHEME + token, exp, later))
      <==> exp.Some? && (stores || written / 1000 >= exp.value)
  {
    StripBearer(token);
    if exp.Some? && stores {
      forall later | later >= written
        ensures !Admits(AfterLogout(keys, token, exp, now, written, stores), SCHEME + token, exp, later)
      {
        NoBlacklistGap(keys, token, exp.value, now, written, later);
      }
    } else if exp.Some? && written / 1000 >= exp.value {
      assert forall later :: later >= written ==> later / 1000 >= exp.value;
    } else {
      assert Admits(AfterLogout(keys, token, exp, now, written, stores), SCHEME + token, exp, written);
    }
  }

  // ---- Which headers reach the key ---------------------------------------------------------

  /** `\s` of a JavaScript regular expression. */
  predicate Blank(c: char) {
    || c == ' ' || '\t' <= c <= '\r' || c == '\U{A0}' || c == '\U{1680}' || '\U{2000}' <= c <= '\U{200A}'
    || c == '\U{2028}' || c == '\U{2029}' || c == '\U{202F}' || c == '\U{205F}' || c == '\U{3000}' || c == '\U{FEFF}'
  }

  /** The white space and line terminators of sections 12.2 and 12.3 of ECMA-262, by code point. */
  lemma BlankExactly(c: char)
    ensures Blank(c) <==>
      c as int in {9, 10, 11, 12, 13, 32, 160, 5760, 8192, 8193, 8194, 8195, 8196, 8197, 8198, 8199, 8200, 8201, 8202,
                   8232, 8233, 8239, 8287, 12288, 65279}
  {
  }

  /** The longest prefix of blanks, or of non-blanks. */
  function Prefix(s: string, blank: bool): (r: string)
    ensures |r| <= |s| && r == s[..|r|] && forall c :: c in r ==> Blank(c) == blank
    ensures |r| < |s| ==> Blank(s[|r|]) != blank
  {
    if s == "" || Blank(s[0]) != blank then "" else [s[0]] + Prefix(s[1..], blank)
  }

  /** A header as `/(\S+)\s+(\S+)/` takes it apart: what precedes, scheme, gap, token, what follows. */
  datatype Parts = Parts(before: string, scheme: string, gap: string, token: string, after: string)

  function Split(header: string): Parts {
    var before := Prefix(header, true);
    var h1 := header[|before|..];
    var scheme := Prefix(h1, false);
    var h2 := h1[|scheme|..];
    var gap := Prefix(h2, true);
    var h3 := h2[|gap|..];
    var token := Prefix(h3, false);
    Parts(before, scheme, gap, token, h3[|token|..])
  }

  function Join(p: Parts): string {
    p.before + (p.scheme + (p.gap + (p.token + p.after)))
  }

  ghost predicate Separate(p: Parts) {
    && (forall c :: c in p.scheme || c in p.token ==> !Blank(c))
    && (forall c :: c in p.before || c in p.gap ==> Blank(c))
    && (p.after != "" ==> Blank(p.after[0]))
  }

  lemma SplitParts(header: string)
    ensures header == Join(Split(header)) && Separate(Split(header))
  {
    var p := Split(header);
    var h1 := header[|p.before|..];
    var h2 := h1[|p.scheme|..];
    var h3 := h2[|p.gap|..];
    assert header == p.before + h1 && h1 == p.scheme + h2;
    assert h2 == p.gap + h3 && h3 == p.token + p.after;
  }

  /** fromAuthHeaderAsBearerToken: the second word, if the first is `bearer` in any capitalisation. */
  function Extract(header: string): Option<string> {
    var p := Split(header);
    if p.scheme != "" && p.gap != "" && p.token != "" && Lower(p.scheme) == "bearer" then Some(p.token) else None
  }

  function Blanks(s: string): nat {
    if s == "" then 0 else (if Blank(s[0]) then 1 else 0) + Blanks(s[1..])
  }

  lemma {:induction false} BlanksConcat(a: string, b: string)
    ensures Blanks(a + b) == Blanks(a) + Blanks(b)
  {
    if a == "" {
      assert a + b == b;
    } else {
      assert (a + b)[1..] == a[1..] + b;
      BlanksConcat(a[1..], b);
    }
  }

  lemma {:induction false} BlanksOfOneKind(s: string, blank: bool)
    requires forall c :: c in s ==> Blank(c) == blank
    ensures Blanks(s) == if blank then |s| else 0
  {
    if s != "" { BlanksOfOneKind(s[1..], blank); }
  }

  lemma {:induction false} NoBlanks(s: string)
    requires Blanks(s) == 0
    ensures forall c :: c in s ==> !Blank(c)
  {
    if s != "" {
      NoBlanks(s[1..]);
      assert s == [s[0]] + s[1..];
    }
  }

  /** A header's blanks: at least the gap, and one more for anything before it or behind the token. */
  lemma PartsBlanks(p: Parts)
    requires Separate(p) && p.gap != ""
    ensures Blanks(Join(p)) >= 1
    ensures Blanks(Join(p)) == 1 ==> p.before == "" && |p.gap| == 1 && p.after == ""
  {
    BlanksConcat(p.before, p.scheme + (p.gap + (p.token + p.after)));
    BlanksConcat(p.scheme, p.gap + (p.token + p.after));
    BlanksConcat(p.gap, p.token + p.after);
    BlanksConcat(p.token, p.after);
    BlanksOfOneKind(p.before, true);
    BlanksOfOneKind(p.scheme, false);
    BlanksOfOneKind(p.gap, true);
    BlanksOfOneKind(p.token, false);
  }

  lemma SchemeBlanks()
    ensures Blanks(SCHEME) == 1
  {
    BlanksConcat("Bearer", " ");
    BlanksOfOneKind("Bearer", false);
    BlanksOfOneKind(" ", true);
    assert SCHEME == "Bearer" + " ";
  }

  lemma StripTakesOne(front: string, back: string)
    ensures Blanks(front + (SCHEME + back)) == Blanks(front + back) + 1
  {
    BlanksConcat(front, SCHEME + back);
    BlanksConcat(SCHEME, back);
    BlanksConcat(front, back);
    SchemeBlanks();
  }

  /** If the only blank is the scheme's, the scheme stands in front. */
  lemma OneBlankIsPlain(word: string, gap: char, token: string, i: nat)
    requires |word| == 6 && forall c :: c in token ==> c != ' '
    requires SchemeAt(word + ([gap] + token), i)
    ensures word + ([gap] + token) == SCHEME + token
  {
    var header := word + ([gap] + token);
    assert header[i..i + |SCHEME|][6] == header[i + 6];
    assert forall k :: 7 <= k < |header| ==> header[k] == token[k - 7] && token[k - 7] in token;
    assert header[0..0 + |SCHEME|] == word + [gap];
    assert header == (word + [gap]) + token;
  }

  lemma JoinPlain(p: Parts)
    requires p.before == "" && |p.gap| == 1 && p.after == ""
    ensures Join(p) == p.scheme + ([p.gap[0]] + p.token)
  {
    assert p.gap == [p.gap[0]];
    assert p.token + p.after == p.token;
  }

  lemma StripAt(header: string, i: nat)
    requires SchemeAt(header, i) && i == IndexOfScheme(header, 0)
    ensures Blanks(header) == Blanks(StripScheme(header)) + 1
  {
    StripTakesOne(header[..i], header[i + |SCHEME|..]);
    assert header == header[..i] + (SCHEME + header[i + |SCHEME|..]);
  }

  lemma PartsStrip(p: Parts)
    requires Separate(p) && |p.scheme| == 6 && p.gap != ""
    ensures Blanks(StripScheme(Join(p))) == 0 ==> Join(p) == SCHEME + p.token
  {
    var header := Join(p);
    var i := IndexOfScheme(header, 0);
    PartsBlanks(p);
    if i < |header| {
      StripAt(header, i);
      if Blanks(header) == 1 {
        JoinPlain(p);
        NoSpaces(p.token);
        OneBlankIsPlain(p.scheme, p.gap[0], p.token, i);
      }
    }
  }

  lemma NoSpaces(token: string)
    requires forall c :: c in token ==> !Blank(c)
    ensures forall c :: c in token ==> c != ' '
  {
    assert Blank(' ');
  }

  /** `replace` leaves no blank exactly of the plain header. */
  lemma StripLeavesBlanks(header: string, token: string)
    requires Extract(header) == Some(token)
    ensures Blanks(StripScheme(header)) == 0 <==> header == SCHEME + token
  {
    var p := Split(header);
    SplitParts(header);
    assert |p.scheme| == 6 by { assert |Lower(p.scheme)| == |p.scheme|; }
    PartsStrip(p);
    if header == SCHEME + token {
      StripBearer(token);
      BlanksOfOneKind(token, false);
    }
  }

  /**
   * Of all the headers that carry a token, whatever their capitalisation, spacing or trailing text,
   * the strategy derives the token's own key from one: `Bearer `, the token, and nothing else.
   */
  lemma KeyFoundExactly(header: string, token: string)
    requires Extract(header) == Some(token)
    ensures StripScheme(header) == token <==> header == "Bearer " + token
  {
    StripLeavesBlanks(header, token);
    SplitParts(header);
    if StripScheme(header) == token { BlanksOfOneKind(token, false); }
    if header == SCHEME + token { StripBearer(token); }
  }

  /** What logout does with the header of its own request; `exp` is the claim decoding finds. */
  function AfterLogoutRequest(keys: Keys, header: string, exp: string -> Option<int>, now: int, written: int): Keys {
    var stripped := StripScheme(header);
    AfterLogout(keys, stripped, exp(stripped), now, written, true)
  }

  /**
   * Logout takes effect exactly between plain headers. If the token that logged out (under `out`)
   * comes back before it expires (under `back`), it is rejected if and only if both headers are
   * `Bearer ` and the token: no text with a blank decodes, and no other key matches.
   */
  lemma LogoutTakesEffectExactly(keys: Keys, out: string, back: string, token: string, exp: string -> Option<int>,
          now: int, written: int, later: int)
    requires Extract(out) == Some(token) && Extract(back) == Some(token) && exp(token).Some?
    requires forall text :: Blanks(text) > 0 ==> exp(text).None?
    requires 0 <= now <= written <= later && !Expired(exp(token), later)
    requires PREFIX + token !in keys && PREFIX + StripScheme(back) !in keys
    ensures !Admits(AfterLogoutRequest(keys, out, exp, now, written), back, exp(token), later)
      <==> out == "Bearer " + token && back == "Bearer " + token
  {
    KeyFoundExactly(out, token);
    KeyFoundExactly(back, token);
    StripLeavesBlanks(out, token);
    if out == SCHEME + token {
      NoBlacklistGap(keys, token, exp(token).value, now, written, later);
      if back != SCHEME + token { assert (PREFIX + StripScheme(back))[|PREFIX|..] == StripScheme(back); }
      assert (PREFIX + token)[|PREFIX|..] == token;
    }
  }

  /** Text after the token is enough to miss the key. */
  lemma TrailingTextMissesKey(token: string)
    requires token != "" && forall c :: c in token ==> !Blank(c)
    ensures var header := SCHEME + (token + " x"); StripScheme(header) == token + " x" && Extract(header) == Some(token)
  {
    StripBearer(token + " x");
    ExtractPlain(token, " x");
  }

  /** A token that logged out under the plain header: it stays out under that one, and not with text behind it. */
  lemma LogoutThenReturn(token: string, exp: int, now: int, written: int, later: int)
    requires token != "" && forall c :: c in token ==> !Blank(c)
    requires 0 <= now <= written <= later && later / 1000 < exp
    ensures var decode := text => if text == token then Some(exp) else None;
      var keys := AfterLogoutRequest(map[], SCHEME + token, decode, now, written);
      && !Admits(keys, SCHEME + token, Some(exp), later)
      && Admits(keys, SCHEME + (token + " x"), Some(exp), later)
  {
    var decode := text => if text == token then Some(exp) else None;
    assert SCHEME + (token + "") == SCHEME + token;
    ExtractPlain(token, "");
    ExtractPlain(token, " x");
    BlanksOfOneKind(token, false);
    LogoutTakesEffectExactly(map[], SCHEME + token, SCHEME + token, token, decode, now, written, later);
    LogoutTakesEffectExactly(map[], SCHEME + token, SCHEME + (token + " x"), token, decode, now, written, later);
    assert (SCHEME + (token + " x"))[|SCHEME|..] == token + " x" && |token + " x"| != |token|;
  }

  lemma ExtractPlain(token: string, after: string)
    requires token != "" && (after != "" ==> Blank(after[0])) && forall c :: c in token ==> !Blank(c)
    ensures Extract(SCHEME + (token + after)) == Some(token)
  {
    BearerWord();
    SchemeSplits(token + after);
    ExtractJoined("Bearer", token, after);
  }

  lemma SchemeSplits(rest: string)
    ensures SCHEME + rest == "" + ("Bearer" + (" " + rest))
  {
    assert SCHEME == "Bearer" + " ";
  }

  lemma BearerWord()
    ensures Lower("Bearer") == "bearer" && forall c :: c in "Bearer" ==> !Blank(c)
  {
  }

  lemma ExtractJoined(scheme: string, token: string, after: string)
    requires scheme != "" && token != "" && (after != "" ==> Blank(after[0])) && Lower(scheme) == "bearer"
    requires forall c :: c in scheme || c in token ==> !Blank(c)
    ensures Extract(Join(Parts("", scheme, " ", token, after))) == Some(token)
  {
    SplitIs(Parts("", scheme, " ", token, after));
  }

  lemma SplitIs(p: Parts)
    requires Separate(p) && p.scheme != "" && p.gap != "" && p.token != ""
    ensures Split(Join(p)) == p
  {
    var h3 := p.token + p.after;
    var h2 := p.gap + h3;
    var h1 := p.scheme + h2;
    PrefixIs(p.before, h1, true);
    assert Join(p)[|p.before|..] == h1;
    PrefixIs(p.scheme, h2, false);
    assert h1[|p.scheme|..] == h2;
    PrefixIs(p.gap, h3, true);
    assert h2[|p.gap|..] == h3;
    PrefixIs(p.token, p.after, false);
    assert h3[|p.token|..] == p.after;
  }

  lemma {:induction false} PrefixIs(a: string, b: string, blank: bool)
    requires (forall c :: c in a ==> Blank(c) == blank) && (b != "" ==> Blank(b[0]) != blank)
    ensures Prefix(a + b, blank) == a
  {
    if a == "" {
      assert a + b == b;
    } else {
      assert (a + b)[1..] == a[1..] + b;
      PrefixIs(a[1..], b, blank);
    }
  }
}
