/**
 * Phone-number handling of the relay: the digit filter, the normalisation of a
 * Brazilian number into a "+55…" international form, and the six-digit tail.
 */
module Phone {

  predicate IsDigit(c: char) {
    '0' <= c <= '9'
  }

  predicate AllDigits(s: string) {
    forall i :: 0 <= i < |s| ==> IsDigit(s[i])
  }

  /** `String(v || "").replace(/\D/g, "")`: keeps the ASCII decimal digits of `s`, in order. */
  function Digits(s: string): (r: string)
    ensures AllDigits(r)
    ensures |r| <= |s|
  {
    if s == [] then [] else (if IsDigit(s[0]) then [s[0]] else []) + Digits(s[1..])
  }

  /** The filter distributes over concatenation; with the one-character behaviour of the
      body this determines it: the result is the input's digits in their original order. */
  lemma {:induction false} DigitsConcat(a: string, b: string)
    ensures Digits(a + b) == Digits(a) + Digits(b)
  {
    if a == [] {
      assert a + b == b;
    } else {
      assert (a + b)[1..] == a[1..] + b;
      DigitsConcat(a[1..], b);
    }
  }

  /** Every digit character of `s` is kept as often as it occurs; nothing else is kept. */
  lemma {:induction false} DigitsCount(s: string, c: char)
    ensures multiset(Digits(s))[c] == if IsDigit(c) then multiset(s)[c] else 0
  {
    if s != [] {
      DigitsCount(s[1..], c);
      assert s == [s[0]] + s[1..];
    }
  }

  /** The filter leaves a string unchanged exactly when the string is all digits. */
  lemma {:induction false} DigitsFixedPoint(s: string)
    ensures Digits(s) == s <==> AllDigits(s)
  {
    if s != [] {
      DigitsFixedPoint(s[1..]);
    }
  }

  /** Filtering twice is filtering once. */
  lemma DigitsIdempotent(s: string)
    ensures Digits(Digits(s)) == Digits(s)
  {
    DigitsFixedPoint(Digits(s));
  }

  /** The shape every accepted number has: "+55" followed by digits only. */
  predicate IsE164BR(p: string) {
    "+55" <= p && AllDigits(p[1..])
  }

  /** `toE164BR(raw)`: "+" and the digits when they already start with the country code 55,
      "+55" and the digits when there are at least ten of them, and "" (rejected) otherwise. */
  function ToE164BR(raw: string): (r: string)
    ensures r == "" || IsE164BR(r)
    ensures r != "" ==> |Digits(raw)| < |r| && r[|r| - |Digits(raw)|..] == Digits(raw)
  {
    var d := Digits(raw);
    if d == "" then ""
    else if "55" <= d then "+" + d
    else if |d| >= 10 then "+55" + d
    else ""
  }

  /** A number is accepted exactly when its digits start with 55 or there are at least ten. */
  lemma ToE164BRAccepts(raw: string)
    ensures ToE164BR(raw) != "" <==> ("55" <= Digits(raw) || |Digits(raw)| >= 10)
  {
  }

  /** A digit string that starts with 55 only gains a "+". */
  lemma WithCountryCode(d: string)
    requires AllDigits(d) && "55" <= d
    ensures ToE164BR(d) == "+" + d
  {
    DigitsFixedPoint(d);
  }

  /** A digit string of ten or more digits not starting with 55 gains "+55". */
  lemma AddsCountryCode(d: string)
    requires AllDigits(d) && !("55" <= d) && |d| >= 10
    ensures ToE164BR(d) == "+55" + d
  {
    DigitsFixedPoint(d);
  }

  /** A digit string shorter than ten digits not starting with 55 is rejected. */
  lemma RejectsShort(d: string)
    requires AllDigits(d) && !("55" <= d) && |d| < 10
    ensures ToE164BR(d) == ""
  {
    DigitsFixedPoint(d);
  }

  /** The digits of a normalised number are its characters after the "+". */
  lemma {:induction false} E164Digits(p: string)
    requires IsE164BR(p)
    ensures Digits(p) == p[1..]
  {
    assert p == [p[0]] + p[1..];
    DigitsConcat([p[0]], p[1..]);
    DigitsFixedPoint(p[1..]);
  }

  /** The digits of an accepted number are the digits of the input, with 55 put in front
      when they did not already start with it. */
  lemma ToE164BRDigits(raw: string)
    requires ToE164BR(raw) != ""
    ensures var d := Digits(raw);
      Digits(ToE164BR(raw)) == if "55" <= d then d else "55" + d
  {
    E164Digits(ToE164BR(raw));
  }

  /** Normalising an already normalised number changes nothing. */
  lemma ToE164BRIdempotent(raw: string)
    ensures ToE164BR(ToE164BR(raw)) == ToE164BR(raw)
  {
    var r := ToE164BR(raw);
    if r != "" {
      E164Digits(r);
      assert "55" <= r[1..];
    }
  }

  /** A Brazilian number as people usually type it: "(DD) NNNNN-NNNN". */
  function Masked(area: string, head: string, tail: string): string {
    "(" + area + ") " + head + "-" + tail
  }

  /** The filter removes exactly the mask's punctuation. */
  lemma {:induction false} DigitsOfMasked(area: string, head: string, tail: string)
    requires AllDigits(area) && AllDigits(head) && AllDigits(tail)
    ensures Digits(Masked(area, head, tail)) == area + head + tail
  {
    assert Digits("(") == "" && Digits(") ") == "" && Digits("-") == "";
    DigitsFixedPoint(area);
    DigitsFixedPoint(head);
    DigitsFixedPoint(tail);
    var p1 := "(" + area;
    DigitsConcat("(", area);
    assert Digits(p1) == area;
    var p2 := p1 + ") ";
    DigitsConcat(p1, ") ");
    assert Digits(p2) == area;
    var p3 := p2 + head;
    DigitsConcat(p2, head);
    assert Digits(p3) == area + head;
    var p4 := p3 + "-";
    DigitsConcat(p3, "-");
    assert Digits(p4) == area + head;
    DigitsConcat(p4, tail);
  }

  /** A masked number with a two-digit area code other than 55 and at least eight further
      digits gains the country code in front of the area code. */
  lemma MaskedLocalNumber(area: string, head: string, tail: string)
    requires AllDigits(area) && AllDigits(head) && AllDigits(tail)
    requires |area| == 2 && area != "55" && |head| + |tail| >= 8
    ensures ToE164BR(Masked(area, head, tail)) == "+55" + area + head + tail
  {
    DigitsOfMasked(area, head, tail);
    var d := area + head + tail;
    assert d[..2] == area;
  }

  /** A masked number in area code 55 is taken as already carrying the country code: it gets
      only a "+", and the area code stands where the country code should be. */
  lemma AreaCode55ReadAsCountryCode(head: string, tail: string)
    requires AllDigits(head) && AllDigits(tail)
    ensures ToE164BR(Masked("55", head, tail)) == "+55" + head + tail
  {
    DigitsOfMasked("55", head, tail);
    assert "55" <= "55" + head + tail;
  }

  /** No minimum length applies once the digits start with 55: the country code alone is an
      accepted number, and its echoed tail is just "55". */
  lemma CountryCodeAloneAccepted()
    ensures ToE164BR("55") == "+55"
    ensures Last6(ToE164BR("55")) == "55"
  {
    WithCountryCode("55");
    E164Digits("+55");
  }

  /** `digits(phone).slice(-6)`: the last six digits, or all of them when there are fewer. */
  function Last6(phone: string): (r: string)
    ensures AllDigits(r)
    ensures |r| == if |Digits(phone)| < 6 then |Digits(phone)| else 6
    ensures Digits(phone)[|Digits(phone)| - |r|..] == r
  {
    var d := Digits(phone);
    if |d| < 6 then d else d[|d| - 6..]
  }

  /** For an accepted number the tail is also the tail of the number itself, has at least the
      two digits of the country code, and is the last six digits the sender typed when the
      sender typed at least six. */
  lemma Last6OfAccepted(raw: string)
    requires ToE164BR(raw) != ""
    ensures var p, t := ToE164BR(raw), Last6(ToE164BR(raw));
      && 2 <= |t| <= 6
      && p[|p| - |t|..] == t
      && (|Digits(raw)| >= 6 ==> t == Digits(raw)[|Digits(raw)| - 6..])
  {
    var p := ToE164BR(raw);
    E164Digits(p);
    var d := Digits(raw);
    var t := Last6(p);
    assert p[1..][|p[1..]| - |t|..] == p[|p| - |t|..];
    if |d| >= 6 {
      assert p[|p| - 6..] == p[|p| - |d|..][|d| - 6..];
    }
  }
}
