/** The parts of Python's string library the repository leans on: str(int), int(str), strip,
    split on a separator, and join. Characters outside ASCII count as ordinary letters. */
module Strings {
  import opened Prelude

  predicate IsDigit(c: char) {
    '0' <= c <= '9'
  }

  function Digit(d: nat): (c: char)
    requires d < 10
    ensures IsDigit(c)
  {
    ('0' as int + d) as char
  }

  function Natural(n: nat): (s: string)
    ensures s != "" && forall i :: 0 <= i < |s| ==> IsDigit(s[i])
  {
    if n < 10 then [Digit(n)] else Natural(n / 10) + [Digit(n % 10)]
  }

  /** str(n) */
  function Str(n: int): string {
    if n < 0 then "-" + Natural(-n) else Natural(n)
  }

  predicate Blank(c: char) {
    9 <= c as int <= 13 || 28 <= c as int <= 32
  }

  function Strip(s: string): string {
    if s == "" then s
    else if Blank(s[0]) then Strip(s[1..])
    else if Blank(s[|s| - 1]) then Strip(s[..|s| - 1])
    else s
  }

  /** Decimal digits, a single underscore being allowed between two of them. */
  function ParseNatural(s: string): Option<nat> {
    if s == "" || !IsDigit(s[|s| - 1]) then None
    else
      var d := s[|s| - 1] as int - '0' as int;
      if |s| == 1 then Some(d)
      else
        var front := if s[|s| - 2] == '_' then s[..|s| - 2] else s[..|s| - 1];
        match ParseNatural(front)
        case None => None
        case Some(n) => Some(10 * n + d)
  }

  /** int(s); None stands for ValueError. */
  function ParseInt(s: string): Option<int> {
    var t := Strip(s);
    if t == "" then None
    else
      var digits := ParseNatural(if t[0] == '-' || t[0] == '+' then t[1..] else t);
      if digits.None? then None
      else
        var n: int := digits.value;
        Some(if t[0] == '-' then -n else n)
  }

  lemma {:induction false} ParseNaturalStr(n: nat)
    ensures ParseNatural(Natural(n)) == Some(n)
  {
    if n >= 10 {
      var front := Natural(n / 10);
      var s := front + [Digit(n % 10)];
      ParseNaturalStr(n / 10);
      assert s[..|s| - 1] == front;
      assert IsDigit(front[|front| - 1]) && s[|s| - 2] == front[|front| - 1];
    }
  }

  /** int is a left inverse of str, so two ids never print alike. */
  lemma ParseIntStr(n: int)
    ensures ParseInt(Str(n)) == Some(n)
    ensures Strip(Str(n)) == Str(n)
  {
    var m: nat := if n < 0 then -n else n;
    ParseNaturalStr(m);
    var s := Str(n);
    assert IsDigit(s[|s| - 1]);
    if n < 0 {
      assert s[1..] == Natural(m);
    } else {
      assert IsDigit(s[0]);
    }
  }

  lemma StrInjective(m: int, n: int)
    requires Str(m) == Str(n)
    ensures m == n
  {
    ParseIntStr(m);
    ParseIntStr(n);
  }

  ghost predicate Numeral(s: string) {
    exists n: int :: s == Str(n)
  }

  /** A subject is canonical when printing the id it parses to gives the subject back. */
  predicate Canonical(s: string) {
    ParseInt(s).Some? && Str(ParseInt(s).value) == s
  }

  lemma NumeralIsCanonical(s: string)
    ensures Numeral(s) <==> Canonical(s)
  {
    if Numeral(s) {
      var n: int :| s == Str(n);
      ParseIntStr(n);
    }
    if Canonical(s) {
      assert s == Str(ParseInt(s).value);
    }
  }

  /** int reads leading zeros, str does not print them. */
  lemma LeadingZerosAreNotCanonical()
    ensures ParseInt("007") == Some(7) && !Canonical("007")
  {
    assert ParseNatural("0") == Some(0);
    assert "00"[..1] == "0" && "007"[..2] == "00" && Strip("007") == "007";
    assert ParseNatural("00") == Some(0);
    assert Natural(7) == "7";
  }

  /** The parts of a split string when one more character comes before it. */
  function Prepend(c: char, parts: seq<string>, sep: char): seq<string>
    requires parts != []
  {
    if c == sep then [""] + parts else [[c] + parts[0]] + parts[1..]
  }

  /** s.split(sep) for a one-character separator. */
  function Split(s: string, sep: char): (parts: seq<string>)
    ensures parts != []
  {
    if s == "" then [""] else Prepend(s[0], Split(s[1..], sep), sep)
  }

  /** sep.join(parts) */
  function Join(parts: seq<string>, sep: string): string {
    if parts == [] then ""
    else if |parts| == 1 then parts[0]
    else parts[0] + sep + Join(parts[1..], sep)
  }

  lemma PrependConcat(c: char, first: seq<string>, second: seq<string>, sep: char)
    requires first != []
    ensures Prepend(c, first + second, sep) == Prepend(c, first, sep) + second
  {
    assert (first + second)[1..] == first[1..] + second;
  }

  lemma {:induction false} SplitConcat(a: string, sep: char, b: string)
    ensures Split(a + [sep] + b, sep) == Split(a, sep) + Split(b, sep)
  {
    var s := a + [sep] + b;
    if a == "" {
      assert s[1..] == b;
    } else {
      SplitConcat(a[1..], sep, b);
      assert s[1..] == a[1..] + [sep] + b && s[0] == a[0];
      PrependConcat(a[0], Split(a[1..], sep), Split(b, sep), sep);
    }
  }

  lemma {:induction false} SplitSingle(s: string, sep: char)
    ensures |Split(s, sep)| == 1 <==> sep !in s
    ensures sep !in s ==> Split(s, sep) == [s]
  {
    if s != "" {
      SplitSingle(s[1..], sep);
      assert [s[0]] + s[1..] == s;
    }
  }

  /** Splitting a joined list gives the list back, unless the list is empty or an item holds the
      separator. */
  lemma {:induction false} SplitJoin(parts: seq<string>, sep: char)
    requires parts != []
    requires forall i :: 0 <= i < |parts| ==> sep !in parts[i]
    ensures Split(Join(parts, [sep]), sep) == parts
  {
    SplitSingle(parts[0], sep);
    if |parts| > 1 {
      SplitConcat(parts[0], sep, Join(parts[1..], [sep]));
      SplitJoin(parts[1..], sep);
    }
  }
}
