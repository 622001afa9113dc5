/** The text form of journal events: one line of space-separated key=value tokens per event. */
module WalText {
  import opened Wrappers
  import opened Mapper

  // ---------------------------------------------------------------- characters

  /** `char::is_whitespace`: the Unicode property White_Space. */
  predicate IsSpace(ch: char) {
    var n := ch as int;
    || 0x9 <= n <= 0xD || n == 0x20 || n == 0x85 || n == 0xA0 || n == 0x1680
    || 0x2000 <= n <= 0x200A || n == 0x2028 || n == 0x2029 || n == 0x202F || n == 0x205F || n == 0x3000
  }

  predicate IsDigit(ch: char) { '0' <= ch <= '9' }

  function DigitChar(d: nat): (ch: char)
    requires d < 10
    ensures IsDigit(ch) && DigitValue(ch) == d
  {
    ('0' as int + d) as char
  }

  function DigitValue(ch: char): nat
    requires IsDigit(ch)
  {
    ch as int - '0' as int
  }

  predicate Solid(s: string) { forall i :: 0 <= i < |s| ==> !IsSpace(s[i]) }

  predicate Blank(s: string) { forall i :: 0 <= i < |s| ==> IsSpace(s[i]) }

  // ---------------------------------------------------------------- decimal numbers

  function Decimal(n: nat): string {
    if n < 10 then [DigitChar(n)] else Decimal(n / 10) + [DigitChar(n % 10)]
  }

  predicate AllDigits(s: string) { forall i :: 0 <= i < |s| ==> IsDigit(s[i]) }

  function DigitsValue(s: string): nat
    requires AllDigits(s)
  {
    if s == "" then 0 else DigitsValue(s[..|s| - 1]) * 10 + DigitValue(s[|s| - 1])
  }

  /** `str::parse::<u64>`: an optional plus sign, then at least one digit, at most 2^64 - 1. */
  function ParseU64(s: string): Option<nat> {
    var digits := if |s| > 0 && s[0] == '+' then s[1..] else s;
    if digits == "" || !AllDigits(digits) || DigitsValue(digits) > U64_MAX then None else Some(DigitsValue(digits))
  }

  lemma {:induction false} DecimalFacts(n: nat)
    ensures Decimal(n) != "" && AllDigits(Decimal(n)) && DigitsValue(Decimal(n)) == n && Solid(Decimal(n))
    decreases n
  {
    if n >= 10 {
      DecimalFacts(n / 10);
      var s := Decimal(n);
      assert s[..|s| - 1] == Decimal(n / 10);
    } else {
      assert Decimal(n)[..0] == "";
    }
  }

  function Power10(k: nat): (p: nat)
    ensures p > 0
  {
    if k == 0 then 1 else 10 * Power10(k - 1)
  }

  lemma DecimalUnfold(n: nat)
    ensures Decimal(n) == if n < 10 then [DigitChar(n)] else Decimal(n / 10) + [DigitChar(n % 10)]
    ensures forall d: nat :: d < 10 ==> DigitChar(d) as int == 48 + d
  {
  }

  /** Each character is the digit of its place, and the first is no zero unless it is the only one. */
  lemma {:induction false} DecimalAt(n: nat, i: nat)
    requires i < |Decimal(n)|
    ensures Decimal(n)[i] as int == 48 + n / Power10(|Decimal(n)| - 1 - i) % 10
    ensures n >= 10 ==> Decimal(n)[0] as int > 48
    decreases n
  {
    hide Decimal, DigitChar;
    if n >= 10 {
      var s, k := Decimal(n / 10), |Decimal(n)|;
      DecimalFacts(n / 10);
      DecimalUnfold(n);
      DecimalAt(n / 10, if i < |s| then i else 0);
      if i < |s| {
        DivDiv(n, 10, Power10(k - 2 - i));
      }
      if n / 10 < 10 {
        DecimalUnfold(n / 10);
      }
    } else {
      DecimalUnfold(n);
    }
  }

  /** Printing then parsing a u64 gives it back. */
  lemma ParseDecimal(n: nat)
    requires n <= U64_MAX
    ensures ParseU64(Decimal(n)) == Some(n)
  {
    DecimalFacts(n);
    assert IsDigit(Decimal(n)[0]);
  }

  /** A prefix of a decimal number, if it parses at all, parses to no larger a number. */
  lemma {:induction false} PrefixValue(s: string, k: nat)
    requires AllDigits(s) && k <= |s|
    ensures AllDigits(s[..k]) && DigitsValue(s[..k]) <= DigitsValue(s)
    decreases |s|
  {
    if k < |s| {
      PrefixValue(s[..|s| - 1], k);
      assert s[..|s| - 1][..k] == s[..k];
    } else {
      assert s[..k] == s;
    }
  }

  lemma ParsePrefix(n: nat, k: nat)
    requires n <= U64_MAX && k <= |Decimal(n)|
    ensures ParseU64(Decimal(n)[..k]).Some? <==> k > 0
    ensures k > 0 ==> ParseU64(Decimal(n)[..k]).value <= n
  {
    DecimalFacts(n);
    PrefixValue(Decimal(n), k);
    if k > 0 {
      assert Decimal(n)[..k][0] == Decimal(n)[0] && IsDigit(Decimal(n)[0]);
    }
  }

  // ---------------------------------------------------------------- checksum escaping

  /** `replace(' ', "%20")`. */
  function Escape(s: string): string {
    if s == "" then "" else (if s[0] == ' ' then "%20" else [s[0]]) + Escape(s[1..])
  }

  lemma EscapeUnfold(s: string)
    requires s != ""
    ensures Escape(s) == (if s[0] == ' ' then "%20" else [s[0]]) + Escape(s[1..])
  {
  }

  /** Character by character, a space becomes %20 and anything else stays. */
  lemma {:induction false} EscapeEach(a: string, b: string)
    ensures Escape(a + b) == Escape(a) + Escape(b)
    ensures |b| == 1 ==> Escape(b) == if b[0] == ' ' then "%20" else b
    decreases |a|
  {
    hide Escape;
    EscapeNothing();
    if |b| == 1 {
      EscapeUnfold(b);
    }
    if a == "" {
      assert a + b == b;
    } else {
      assert (a + b)[1..] == a[1..] + b;
      EscapeUnfold(a);
      EscapeUnfold(a + b);
      EscapeEach(a[1..], b);
    }
  }

  lemma EscapeNothing()
    ensures Escape("") == ""
  {
  }

  predicate At20(s: string) { |s| >= 3 && s[0] == '%' && s[1] == '2' && s[2] == '0' }

  /** `replace("%20", " ")`. */
  function Unescape(s: string): string {
    if s == "" then "" else if At20(s) then " " + Unescape(s[3..]) else [s[0]] + Unescape(s[1..])
  }

  /** The literal text %20 does not occur. */
  predicate No20(s: string) { forall i :: 0 <= i <= |s| ==> !At20(s[i..]) }

  lemma {:induction false} No20Tail(s: string)
    requires s != "" && No20(s)
    ensures No20(s[1..]) && !At20(s)
  {
    assert s[0..] == s;
    forall i | 0 <= i <= |s[1..]|
      ensures !At20(s[1..][i..])
    {
      assert s[1..][i..] == s[i + 1..];
    }
  }

  lemma {:induction false} UnescapeShrinks(s: string)
    ensures |Unescape(s)| <= |s|
    ensures Unescape(s) == s <==> No20(s)
    decreases |s|
  {
    if s == "" {
    } else if At20(s) {
      UnescapeShrinks(s[3..]);
      assert s[0..] == s;
      assert |Unescape(s)| < |s|;
    } else {
      UnescapeShrinks(s[1..]);
      assert s == [s[0]] + s[1..];
      if No20(s) {
        No20Tail(s);
      } else {
        var i :| 0 <= i <= |s| && At20(s[i..]);
        assert s[0..] == s;
        assert i > 0 && s[1..][i - 1..] == s[i..];
      }
      if Unescape(s) == s {
        assert Unescape(s)[1..] == Unescape(s[1..]);
      }
    }
  }

  lemma EscapeCons(s: string)
    requires s != ""
    ensures Escape(s) == (if s[0] == ' ' then "%20" else [s[0]]) + Escape(s[1..])
  {
  }

  /** The first three characters of an escaped text are %20 only for a space or a literal %20. */
  lemma At20OfEscape(s: string)
    requires s != "" && s[0] != ' '
    ensures At20(Escape(s)) <==> At20(s)
    ensures At20(s) ==> Escape(s)[3..] == Escape(s[3..])
  {
    EscapeCons(s);
    assert Escape(s)[0] == s[0];
    if |s| > 1 {
      EscapeCons(s[1..]);
      if s[1] == ' ' {
        assert Escape(s[1..])[0] == '%';
        assert Escape(s)[1] == Escape(s[1..])[0];
      } else {
        assert Escape(s)[1] == Escape(s[1..])[0] == s[1];
        if |s| > 2 {
          assert s[1..][1..] == s[2..];
          EscapeCons(s[2..]);
          assert Escape(s)[2] == Escape(s[1..])[1] == Escape(s[2..])[0];
          if s[2] != ' ' {
            assert s[2..][1..] == s[3..];
            assert Escape(s) == [s[0], s[1], s[2]] + Escape(s[3..]);
          } else {
            assert Escape(s[2..])[0] == '%';
          }
        } else {
          assert s[1..][1..] == "" && Escape(s[1..]) == [s[1]];
        }
      }
    } else {
      assert s[1..] == "";
    }
  }

  /** Reading an escaped text back turns every %20 into a space, whether it was written as one or not. */
  lemma {:induction false} UnescapeEscape(s: string)
    ensures Unescape(Escape(s)) == Unescape(s)
    decreases |s|
  {
    if s != "" {
      EscapeCons(s);
      if s[0] == ' ' {
        UnescapeEscape(s[1..]);
        assert At20(Escape(s)) && Escape(s)[3..] == Escape(s[1..]);
        assert !At20(s);
      } else {
        At20OfEscape(s);
        if At20(s) {
          UnescapeEscape(s[3..]);
        } else {
          UnescapeEscape(s[1..]);
          assert Escape(s)[0] == s[0] && Escape(s)[1..] == Escape(s[1..]);
        }
      }
    }
  }

  /** A checksum survives writing and reading exactly when it does not contain the literal text %20. */
  lemma EscapeRoundTrip(s: string)
    ensures Unescape(Escape(s)) == s <==> No20(s)
  {
    UnescapeEscape(s);
    UnescapeShrinks(s);
  }

  /** The only white space a text may contain to be kept together as one token is the plain space. */
  predicate OnlyPlainSpaces(s: string) { forall i :: 0 <= i < |s| && IsSpace(s[i]) ==> s[i] == ' ' }

  lemma {:induction false} EscapeSolid(s: string)
    ensures Solid(Escape(s)) <==> OnlyPlainSpaces(s)
    decreases |s|
  {
    if s != "" {
      EscapeCons(s);
      EscapeSolid(s[1..]);
      var head := if s[0] == ' ' then "%20" else [s[0]];
      assert Escape(s) == head + Escape(s[1..]);
      assert Solid(Escape(s)) <==> Solid(head) && Solid(Escape(s[1..])) by {
        SolidConcat(head, Escape(s[1..]));
      }
      assert OnlyPlainSpaces(s) <==> (IsSpace(s[0]) ==> s[0] == ' ') && OnlyPlainSpaces(s[1..]) by {
        assert s == [s[0]] + s[1..];
      }
    }
  }

  lemma SolidConcat(a: string, b: string)
    ensures Solid(a + b) <==> Solid(a) && Solid(b)
  {
    if Solid(a + b) {
      assert forall i :: 0 <= i < |a| ==> a[i] == (a + b)[i];
      assert forall i :: 0 <= i < |b| ==> b[i] == (a + b)[|a| + i];
    }
  }

  lemma {:induction false} EscapeKeepsSolid(s: string)
    requires Solid(s)
    ensures Escape(s) == s
    decreases |s|
  {
    if s != "" {
      EscapeKeepsSolid(s[1..]);
      assert s == [s[0]] + s[1..];
    }
  }
}
