/** strings.TrimSpace, strings.ToLower and strconv for ASCII text. */
module Text {
  import opened Common

  predicate IsSpace(c: char) {
    c == ' ' || c == '\t' || c == '\n' || c == '\r' || c == 11 as char || c == 12 as char
  }

  /** PostgreSQL text holds every character but NUL. */
  predicate Storable(s: string) {
    '\0' !in s
  }

  /** A VARCHAR column of this length holds the text. */
  predicate FitsColumn(s: string, max: nat) {
    |s| <= max && Storable(s)
  }

  function TrimLeft(s: string): string {
    if s != "" && IsSpace(s[0]) then TrimLeft(s[1..]) else s
  }

  function TrimRight(s: string): string {
    if s != "" && IsSpace(s[|s| - 1]) then TrimRight(s[..|s| - 1]) else s
  }

  function TrimSpace(s: string): string {
    TrimRight(TrimLeft(s))
  }

  function LowerChar(c: char): char {
    if 'A' <= c <= 'Z' then (c as int + 32) as char else c
  }

  function ToLower(s: string): (r: string)
    ensures |r| == |s| && forall i :: 0 <= i < |s| ==> r[i] == LowerChar(s[i])
  {
    if s == "" then "" else [LowerChar(s[0])] + ToLower(s[1..])
  }

  lemma {:induction false} TrimLeftStops(s: string)
    ensures var t := TrimLeft(s); (t == "" || !IsSpace(t[0])) && |t| <= |s| && s[|s| - |t|..] == t
  {
    if s != "" && IsSpace(s[0]) {
      TrimLeftStops(s[1..]);
    }
  }

  lemma {:induction false} TrimRightStops(s: string)
    ensures var t := TrimRight(s); (t == "" || !IsSpace(t[|t| - 1])) && |t| <= |s| && s[..|t|] == t
  {
    if s != "" && IsSpace(s[|s| - 1]) {
      TrimRightStops(s[..|s| - 1]);
    }
  }

  lemma TrimIsIdempotent(s: string)
    ensures TrimSpace(TrimSpace(s)) == TrimSpace(s)
  {
    TrimLeftStops(s);
    TrimRightStops(TrimLeft(s));
  }

  /** The text neither begins nor ends with white space. */
  predicate IsTrimmed(s: string) {
    s == "" || (!IsSpace(s[0]) && !IsSpace(s[|s| - 1]))
  }

  lemma TrimmedIsFixed(s: string)
    ensures IsTrimmed(TrimSpace(s))
    ensures IsTrimmed(s) ==> TrimSpace(s) == s
  {
    var l := TrimLeft(s);
    TrimLeftStops(s);
    TrimRightStops(l);
    assert TrimSpace(s) != "" ==> l[..|TrimSpace(s)|][0] == l[0];
  }

  /** strings.TrimSpace(strings.ToLower(h)), applied to request hashes when stored and when compared. */
  function NormalizeHash(h: string): string {
    TrimSpace(ToLower(h))
  }

  lemma TrimKeepsChars(s: string)
    ensures forall c <- TrimSpace(s) :: c in s
  {
    var l := TrimLeft(s);
    TrimLeftStops(s);
    TrimRightStops(l);
    forall c <- TrimSpace(s)
      ensures c in s
    {
      assert c in l[..|TrimSpace(s)|];
      assert c in s[|s| - |l|..];
    }
  }

  lemma LowerIsFixed(s: string)
    requires forall c <- s :: LowerChar(c) == c
    ensures ToLower(s) == s
  {
    forall i | 0 <= i < |s|
      ensures ToLower(s)[i] == s[i]
    {
      assert s[i] in s;
    }
  }

  lemma NormalizeIsIdempotent(h: string)
    ensures NormalizeHash(NormalizeHash(h)) == NormalizeHash(h)
  {
    var l := ToLower(h);
    assert forall c <- l :: LowerChar(c) == c;
    TrimKeepsChars(l);
    LowerIsFixed(TrimSpace(l));
    TrimIsIdempotent(l);
  }

  // ---- Decimal integers ---------------------------------------------------------------------

  predicate IsDigit(c: char) {
    '0' <= c <= '9'
  }

  function Digits(n: nat): (s: string)
    ensures s != "" && forall i :: 0 <= i < |s| ==> IsDigit(s[i])
    decreases n
  {
    var d := ('0' as int + n % 10) as char;
    if n < 10 then [d] else Digits(n / 10) + [d]
  }

  /** strconv.Itoa. */
  function Itoa(n: int): string {
    if n < 0 then "-" + Digits(-n) else Digits(n)
  }

  function ParseDigits(s: string): Option<nat> {
    if s == "" then Some(0)
    else if !IsDigit(s[|s| - 1]) then None
    else
      match ParseDigits(s[..|s| - 1])
      case None => None
      case Some(v) => Some(10 * v + (s[|s| - 1] as int - '0' as int))
  }

  /** strconv.Atoi: an optional sign and at least one digit, within int64. */
  function Atoi(s: string): Option<int> {
    var digits := if s != "" && (s[0] == '-' || s[0] == '+') then s[1..] else s;
    if digits == "" then None
    else
      match ParseDigits(digits)
      case None => None
      case Some(v) =>
        var n: int := if s[0] == '-' then 0 - v else v;
        if MIN_INT64 <= n <= MAX_INT64 then Some(n) else None
  }

  lemma {:induction false} ParseOfDigits(n: nat)
    ensures ParseDigits(Digits(n)) == Some(n)
    decreases n
  {
    if n >= 10 {
      ParseOfDigits(n / 10);
      assert Digits(n)[..|Digits(n)| - 1] == Digits(n / 10);
    } else {
      assert Digits(n)[..0] == "";
    }
  }

  lemma AtoiOfDigits(s: string, v: nat, negative: bool)
    requires s != "" && ParseDigits(s) == Some(v) && !(s[0] == '-' || s[0] == '+')
    ensures !negative && v <= MAX_INT64 ==> Atoi(s) == Some(v)
    ensures negative && v <= MAX_INT64 + 1 ==> Atoi("-" + s) == Some(0 - v)
  {
    assert ("-" + s)[1..] == s;
  }

  /** Redis turns an int field into its decimal text; reading it back gives the same int. */
  lemma AtoiOfItoa(n: int)
    requires MIN_INT64 <= n <= MAX_INT64
    ensures Atoi(Itoa(n)) == Some(n)
  {
    var v := if n < 0 then -n else n;
    ParseOfDigits(v);
    assert IsDigit(Digits(v)[0]);
    AtoiOfDigits(Digits(v), v, n < 0);
  }

  lemma ItoaIsInjective(a: int, b: int)
    requires MIN_INT64 <= a <= MAX_INT64 && MIN_INT64 <= b <= MAX_INT64 && Itoa(a) == Itoa(b)
    ensures a == b
  {
    AtoiOfItoa(a);
    AtoiOfItoa(b);
  }

  // ---- Separated text ---------------------------------------------------------------------

  /** What precedes the first separator is determined by the text. */
  lemma {:induction false} FirstSeparator(a: string, x: string, b: string, y: string, sep: char)
    requires sep !in a && sep !in b
    requires a + [sep] + x == b + [sep] + y
    ensures a == b && x == y
    decreases |a|
  {
    var s := a + [sep] + x;
    assert s[0] == if a == "" then sep else a[0];
    assert s[0] == if b == "" then sep else b[0];
    assert (a == "" || a[0] in a) && (b == "" || b[0] in b);
    assert a == "" <==> b == "";
    assert s[1..] == if a == "" then x else a[1..] + [sep] + x;
    assert s[1..] == if b == "" then y else b[1..] + [sep] + y;
    if a != "" {
      FirstSeparator(a[1..], x, b[1..], y, sep);
      assert a == [a[0]] + a[1..] && b == [b[0]] + b[1..];
    }
  }

  lemma ItoaHasNoBar(n: int)
    ensures '|' !in Itoa(n)
  {
    assert forall c <- Digits(if n < 0 then -n else n) :: IsDigit(c);
  }
}
