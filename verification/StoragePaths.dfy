/** generateStoragePath: YYYY/MM/DD/uuid.ext (file.util.ts). */
module StoragePaths {
  import opened Common

  const UUID_LENGTH := 36

  datatype Date = Date(year: nat, month: nat, day: nat)

  function Digits(n: nat): (s: string)
    ensures '/' !in s && s != ""
  {
    if n < 10 then [('0' as int + n) as char] else Digits(n / 10) + [('0' as int + n % 10) as char]
  }

  /** `padStart(2, '0')`. */
  function PadTwo(s: string): (r: string)
    ensures '/' !in s ==> '/' !in r
  {
    if |s| >= 2 then s else if |s| == 1 then "0" + s else "00"
  }

  function StoragePath(today: Date, uuid: string, ext: string): string {
    Digits(today.year) + ("/" +
      (PadTwo(Digits(today.month)) + ("/" + (PadTwo(Digits(today.day)) + ("/" + (uuid + ext))))))
  }

  /** A string splits at its first slash in one way. */
  lemma SplitAtSlash(a: string, x: string, b: string, y: string)
    requires '/' !in a && '/' !in b && a + ("/" + x) == b + ("/" + y)
    ensures a == b && x == y
  {
    var s := a + ("/" + x);
    assert s[|a|] == '/' && s[|b|] == '/';
    assert forall i :: 0 <= i < |a| ==> s[i] == a[i] && a[i] != '/';
    assert forall i :: 0 <= i < |b| ==> s[i] == b[i] && b[i] != '/';
    assert a == s[..|a|] && b == s[..|b|];
    assert x == s[|a| + 1..] && y == s[|b| + 1..];
  }

  lemma {:induction false} DigitsLead(n: nat)
    requires n > 0
    ensures Digits(n)[0] != '0' && (|Digits(n)| == 1 <==> n < 10)
  {
    if n >= 10 { DigitsLead(n / 10); }
  }

  lemma {:induction false} DigitsInjective(a: nat, b: nat)
    requires Digits(a) == Digits(b)
    ensures a == b
  {
    if a > 0 { DigitsLead(a); }
    if b > 0 { DigitsLead(b); }
    if a >= 10 {
      assert Digits(a)[..|Digits(a)| - 1] == Digits(a / 10) && Digits(b)[..|Digits(b)| - 1] == Digits(b / 10);
      DigitsInjective(a / 10, b / 10);
      LastDigit(a, b);
    }
  }

  lemma LastDigit(a: nat, b: nat)
    requires a >= 10 && b >= 10 && Digits(a) == Digits(b)
    ensures a % 10 == b % 10
  {
    assert Digits(a)[|Digits(a)| - 1] == ('0' as int + a % 10) as char;
    assert Digits(b)[|Digits(b)| - 1] == ('0' as int + b % 10) as char;
  }

  lemma PaddedInjective(a: nat, b: nat)
    requires PadTwo(Digits(a)) == PadTwo(Digits(b))
    ensures a == b
  {
    if a > 0 { DigitsLead(a); }
    if b > 0 { DigitsLead(b); }
    assert |Digits(a)| == 1 ==> PadTwo(Digits(a)) == "0" + Digits(a) && PadTwo(Digits(a))[1..] == Digits(a);
    assert |Digits(b)| == 1 ==> PadTwo(Digits(b)) == "0" + Digits(b) && PadTwo(Digits(b))[1..] == Digits(b);
    assert Digits(a) == Digits(b);
    DigitsInjective(a, b);
  }

  /** The layout: the year, two digits for the month, two for the day, and the file's name, each after a slash. */
  lemma PathLayout(today: Date, uuid: string, ext: string)
    requires 1 <= today.month <= 12 && 1 <= today.day <= 31
    ensures var path, y := StoragePath(today, uuid, ext), |Digits(today.year)|;
      && |path| == y + 7 + |uuid| + |ext| && path[y] == '/' && path[y + 3] == '/' && path[y + 6] == '/'
      && path[..y] == Digits(today.year) && path[y + 7..] == uuid + ext
      && (today.month < 10 ==> path[y + 1] == '0') && (today.day < 10 ==> path[y + 4] == '0')
  {
    TwoDigits(today.month);
    TwoDigits(today.day);
    var month, day := PadTwo(Digits(today.month)), PadTwo(Digits(today.day));
    var path, y := StoragePath(today, uuid, ext), |Digits(today.year)|;
    assert path == Digits(today.year) + (("/" + month) + (("/" + day) + ("/" + (uuid + ext))));
    assert |month| == 2 && |day| == 2;
    assert path[y + 1..y + 3] == month && path[y + 4..y + 6] == day;
  }

  lemma TwoDigits(n: nat)
    requires 1 <= n < 100
    ensures |PadTwo(Digits(n))| == 2 && (n < 10 ==> PadTwo(Digits(n))[0] == '0')
  {
    DigitsLead(n);
    if n >= 10 { assert Digits(n) == Digits(n / 10) + [('0' as int + n % 10) as char] && |Digits(n / 10)| == 1; }
  }

  /** A path determines the date, the uuid and the extension: files of different uuids never share one. */
  lemma PathsInjective(d1: Date, u1: string, e1: string, d2: Date, u2: string, e2: string)
    requires |u1| == 36 && |u2| == 36
    requires StoragePath(d1, u1, e1) == StoragePath(d2, u2, e2)
    ensures u1 == u2 && e1 == e2 && d1 == d2
  {
    var day1, day2 := PadTwo(Digits(d1.day)), PadTwo(Digits(d2.day));
    var month1, month2 := PadTwo(Digits(d1.month)), PadTwo(Digits(d2.month));
    SplitAtSlash(Digits(d1.year), month1 + ("/" + (day1 + ("/" + (u1 + e1)))), Digits(d2.year),
                 month2 + ("/" + (day2 + ("/" + (u2 + e2)))));
    SplitAtSlash(month1, day1 + ("/" + (u1 + e1)), month2, day2 + ("/" + (u2 + e2)));
    SplitAtSlash(day1, u1 + e1, day2, u2 + e2);
    DigitsInjective(d1.year, d2.year);
    PaddedInjective(d1.month, d2.month);
    PaddedInjective(d1.day, d2.day);
    assert (u1 + e1)[..UUID_LENGTH] == u1 && (u2 + e2)[..UUID_LENGTH] == u2;
    assert (u1 + e1)[UUID_LENGTH..] == e1 && (u2 + e2)[UUID_LENGTH..] == e2;
  }
}
