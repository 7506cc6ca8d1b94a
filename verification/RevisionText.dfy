/** Revisions cross the wire as decimal text: how they are printed, and what the
    overflow-checked parser of a signed 64-bit integer makes of a text. */
module RevisionText {
  import opened AccessPolicy

  const MIN_I64: int := -0x8000_0000_0000_0000

  function Digit(d: nat): (c: char)
    requires d < 10
    ensures IsDigit(c) && DigitValue(c) == d
  {
    '0' + d as char
  }

  predicate IsDigit(c: char) { '0' <= c <= '9' }

  function DigitValue(c: char): nat
    requires IsDigit(c)
  {
    c as nat - '0' as nat
  }

  function Decimal(n: nat): (s: string)
    ensures Digits(s)
  {
    if n < 10 then [Digit(n)] else Decimal(n / 10) + [Digit(n % 10)]
  }

  predicate Digits(s: string)
  {
    s != "" && forall i :: 0 <= i < |s| ==> IsDigit(s[i])
  }

  /** `^(0|[1-9][0-9]*)$` */
  predicate Canonical(s: string)
  {
    Digits(s) && (s == "0" || s[0] != '0')
  }

  /** The number a digit string denotes, unbounded. */
  function Value(s: string): nat
    requires forall i :: 0 <= i < |s| ==> IsDigit(s[i])
  {
    if s == "" then 0 else Value(s[..|s|-1]) * 10 + DigitValue(s[|s|-1])
  }

  // ----- The parser -----

  /** Reads digits from the left, giving up at the first step that leaves the 64-bit range. */
  function Accumulate(s: string, negative: bool, acc: int): Option<int>
  {
    if s == "" then Some(acc)
    else if !IsDigit(s[0]) then None
    else
      var next := if negative then acc * 10 - DigitValue(s[0]) else acc * 10 + DigitValue(s[0]);
      if MIN_I64 <= next <= MAX_REVISION then Accumulate(s[1..], negative, next) else None
  }

  function Unsigned(text: string): string
  {
    if text != "" && (text[0] == '+' || text[0] == '-') then text[1..] else text
  }

  predicate Negated(text: string) { text != "" && text[0] == '-' }

  function ParseI64(text: string): Option<int>
  {
    if Unsigned(text) == "" then None else Accumulate(Unsigned(text), Negated(text), 0)
  }

  /** The D1 revision decoder: a 64-bit integer that is not negative. */
  function ParseRevision(text: string): Option<int>
  {
    var v := ParseI64(text);
    if v.Some? && v.value >= 0 then v else None
  }

  // ----- What it accepts -----

  function Sign(negative: bool): int { if negative then -1 else 1 }

  // The number denoted by `s` with the digits already read in front of it.
  function Continued(acc: nat, s: string): nat
    requires forall i :: 0 <= i < |s| ==> IsDigit(s[i])
    decreases |s|
  {
    if s == "" then acc else Continued(acc * 10 + DigitValue(s[0]), s[1..])
  }

  lemma {:induction false} ContinuedAppends(acc: nat, s: string, c: char)
    requires IsDigit(c) && forall i :: 0 <= i < |s| ==> IsDigit(s[i])
    ensures Continued(acc, s + [c]) == Continued(acc, s) * 10 + DigitValue(c)
    decreases |s|
  {
    if s != "" {
      assert (s + [c])[1..] == s[1..] + [c];
      ContinuedAppends(acc * 10 + DigitValue(s[0]), s[1..], c);
    } else {
      assert (s + [c])[1..] == "";
    }
  }

  lemma {:induction false} ContinuedIsValue(s: string)
    requires forall i :: 0 <= i < |s| ==> IsDigit(s[i])
    ensures Continued(0, s) == Value(s)
  {
    if s != "" {
      ContinuedIsValue(s[..|s|-1]);
      ContinuedAppends(0, s[..|s|-1], s[|s|-1]);
      assert s == s[..|s|-1] + [s[|s|-1]];
    }
  }

  lemma {:induction false} ContinuedGrows(acc: nat, s: string)
    requires forall i :: 0 <= i < |s| ==> IsDigit(s[i])
    ensures acc <= Continued(acc, s)
    decreases |s|
  {
    if s != "" {
      ContinuedGrows(acc * 10 + DigitValue(s[0]), s[1..]);
    }
  }

  lemma SignedDigit(negative: bool, acc: nat, d: nat)
    ensures Sign(negative) * (acc * 10 + d) ==
              if negative then Sign(negative) * acc * 10 - d else Sign(negative) * acc * 10 + d
  {
  }

  lemma {:induction false} AccumulateMeans(s: string, negative: bool, acc: nat)
    requires MIN_I64 <= Sign(negative) * acc <= MAX_REVISION
    ensures Accumulate(s, negative, Sign(negative) * acc) ==
              if (forall i :: 0 <= i < |s| ==> IsDigit(s[i]))
                  && MIN_I64 <= Sign(negative) * Continued(acc, s) <= MAX_REVISION
              then Some(Sign(negative) * Continued(acc, s)) else None
    decreases |s|
  {
    if s != "" && IsDigit(s[0]) {
      var next := acc * 10 + DigitValue(s[0]);
      SignedDigit(negative, acc, DigitValue(s[0]));
      assert (forall i :: 0 <= i < |s| ==> IsDigit(s[i]))
          <==> (forall i :: 0 <= i < |s[1..]| ==> IsDigit(s[1..][i])) by {
        assert s == [s[0]] + s[1..];
      }
      if MIN_I64 <= Sign(negative) * next <= MAX_REVISION {
        AccumulateMeans(s[1..], negative, next);
      } else if forall i :: 0 <= i < |s| ==> IsDigit(s[i]) {
        ContinuedGrows(next, s[1..]);
      }
    }
  }

  /** Exactly which texts the decoder accepts, and as what: digits after an optional sign,
      whose signed value lies in 0 .. 2^63-1. */
  lemma RevisionTextsAccepted(text: string)
    ensures ParseRevision(text) ==
              if Digits(Unsigned(text))
                 && Value(Unsigned(text)) <= MAX_REVISION && (Negated(text) ==> Value(Unsigned(text)) == 0)
              then Some(Value(Unsigned(text))) else None
  {
    AccumulateMeans(Unsigned(text), Negated(text), 0);
    if Digits(Unsigned(text)) {
      ContinuedIsValue(Unsigned(text));
    }
  }

  lemma {:induction false} DecimalIsCanonical(n: nat)
    ensures Canonical(Decimal(n)) && Value(Decimal(n)) == n
    ensures Decimal(n)[0] == '0' <==> n == 0
  {
    if n >= 10 {
      DecimalIsCanonical(n / 10);
      assert Decimal(n)[..|Decimal(n)|-1] == Decimal(n / 10);
    } else {
      assert Decimal(n)[..0] == "";
    }
  }

  lemma LastDigit(n: nat, d: nat)
    requires d < 10
    ensures (n * 10 + d) / 10 == n && (n * 10 + d) % 10 == d
    ensures n > 0 ==> Decimal(n * 10 + d) == Decimal(n) + [Digit(d)]
  {
  }

  lemma {:induction false} CanonicalIsDecimal(s: string)
    requires Canonical(s)
    ensures s == Decimal(Value(s))
    ensures s[0] != '0' ==> Value(s) > 0
  {
    if |s| == 1 {
      assert s[..0] == "";
      assert s == [s[0]];
    } else {
      var init := s[..|s|-1];
      assert init[0] == s[0];
      CanonicalIsDecimal(init);
      assert s == init + [s[|s|-1]];
      LastDigit(Value(init), DigitValue(s[|s|-1]));
    }
  }

  /** The round trip: a revision prints as canonical decimal and is read back as itself, and
      among canonical texts nothing else is read as it. */
  lemma RevisionRoundTrip(r: nat, text: string)
    requires r <= MAX_REVISION
    ensures Canonical(Decimal(r)) && ParseRevision(Decimal(r)) == Some(r)
    ensures Canonical(text) ==> (ParseRevision(text) == Some(r) <==> text == Decimal(r))
  {
    DecimalIsCanonical(r);
    RevisionTextsAccepted(Decimal(r));
    if Canonical(text) {
      CanonicalIsDecimal(text);
      RevisionTextsAccepted(text);
    }
  }

  /** The decoder is wider than the canonical form: a sign and leading zeros get through, even
      a minus sign in front of zero. */
  lemma NonCanonicalTextsAccepted()
    ensures ParseRevision("-0") == Some(0) && ParseRevision("+7") == Some(7) && ParseRevision("007") == Some(7)
    ensures ParseRevision("-1") == None && ParseRevision("") == None
  {
    assert "-0"[1..] == "0";
    assert "+7"[1..] == "7";
    assert "-1"[1..] == "1";
    assert Value("0") == 0 by { assert "0"[..0] == ""; }
    assert Value("7") == 7 by { assert "7"[..0] == ""; }
    assert Value("1") == 1 by { assert "1"[..0] == ""; }
    assert Value("007") == 7 by {
      assert "007"[..2] == "00" && "00"[..1] == "0" && "0"[..0] == "";
      assert Value("0") == 0 && Value("00") == 0;
    }
    RevisionTextsAccepted("-0");
    RevisionTextsAccepted("+7");
    RevisionTextsAccepted("007");
    RevisionTextsAccepted("-1");
    RevisionTextsAccepted("");
  }

  // ----- Digit by digit, on characters -----

  lemma DigitCharacter(d: nat)
    requires d < 10
    ensures Digit(d) == "0123456789"[d] && IsDigit("0123456789"[d]) && DigitValue("0123456789"[d]) == d
  {
    assert "0123456789"[0] == '0' && "0123456789"[1] == '1' && "0123456789"[2] == '2' && "0123456789"[3] == '3';
    assert "0123456789"[4] == '4' && "0123456789"[5] == '5' && "0123456789"[6] == '6' && "0123456789"[7] == '7';
    assert "0123456789"[8] == '8' && "0123456789"[9] == '9';
  }

  /** How a revision is printed: one digit is its character, and more are the digits of the tenth
      followed by the last one. */
  lemma DecimalDigits(n: nat)
    ensures n < 10 ==> Decimal(n) == ["0123456789"[n]]
    ensures n >= 10 ==> Decimal(n) == Decimal(n / 10) + ["0123456789"[n % 10]]
  {
    DigitCharacter(n % 10);
  }

  lemma OneMoreDigit(s: string, c: char)
    requires IsDigit(c)
    ensures (forall i :: 0 <= i < |s + [c]| ==> IsDigit((s + [c])[i])) <==> (forall i :: 0 <= i < |s| ==> IsDigit(s[i]))
    ensures (forall i :: 0 <= i < |s| ==> IsDigit(s[i])) ==> Value(s + [c]) == Value(s) * 10 + DigitValue(c)
  {
    assert forall i :: 0 <= i < |s| ==> (s + [c])[i] == s[i];
    assert (s + [c])[..|s|] == s;
  }

  /** How a revision is read: one digit character is its digit, and appending a digit to a text that
      was read as `v` reads as ten times `v` and the digit, as long as that is a revision. */
  lemma ParseDigits(s: string, v: nat, d: nat)
    requires d < 10
    ensures ParseRevision(["0123456789"[d]]) == Some(d)
    ensures ParseRevision(s) == Some(v) && s[0] != '-' ==>
              ParseRevision(s + ["0123456789"[d]])
              == if 10 * v + d <= 9223372036854775807 then Some(10 * v + d) else None
  {
    var c := "0123456789"[d];
    DigitCharacter(d);
    RevisionTextsAccepted([c]);
    assert [c][..0] == "";
    RevisionTextsAccepted(s);
    if ParseRevision(s) == Some(v) && s[0] != '-' {
      assert Unsigned(s + [c]) == Unsigned(s) + [c];
      OneMoreDigit(Unsigned(s), c);
      RevisionTextsAccepted(s + [c]);
    }
  }

  /** What digit texts are, and what number they denote. */
  lemma DigitTexts(s: string, d: nat)
    requires d < 10
    ensures Digits(s) <==> s != "" && forall i :: 0 <= i < |s| ==> s[i] in "0123456789"
    ensures Value("") == 0
    ensures Digits(s) || s == "" ==> Digits(s + ["0123456789"[d]]) && Value(s + ["0123456789"[d]]) == 10 * Value(s) + d
  {
    DigitCharacter(d);
    OneMoreDigit(s, "0123456789"[d]);
    forall i | 0 <= i < |s| ensures IsDigit(s[i]) <==> s[i] in "0123456789" {
      DigitsAreCharacters(s[i]);
    }
  }

  lemma DigitsAreCharacters(c: char)
    ensures IsDigit(c) <==> c in "0123456789"
  {
  }

  /** Nothing is read as a revision but digit characters after at most one sign. */
  lemma OnlyDigitsAreRead(s: string)
    requires ParseRevision(s).Some?
    ensures s != "" && forall i :: 1 <= i < |s| ==> s[i] in "0123456789"
    ensures s[0] in "0123456789+-" && (s[0] in "+-" ==> |s| > 1)
  {
    RevisionTextsAccepted(s);
    var digits := Unsigned(s);
    forall i | 0 <= i < |digits| ensures digits[i] in "0123456789" {
      DigitsAreCharacters(digits[i]);
    }
    if digits == s {
      assert s[0] in "0123456789";
    } else {
      assert forall i :: 1 <= i < |s| ==> s[i] == digits[i-1];
    }
  }
}
