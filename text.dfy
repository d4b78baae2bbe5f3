/** Text helpers shared by the server parser and the Python client codec:
    decimal rendering of integers (Python's str(int)), parsing of decimal
    digit strings (std::stoull / std::stod on whole tick values),
    '|'-separated field splitting and joining, and substring search. */
module Text {

  datatype Option<T> = None | Some(value: T)

  /** Exclusive upper bound of uint64_t. */
  const U64Limit: nat := 0x1_0000_0000_0000_0000

  predicate IsDigit(c: char) { '0' <= c <= '9' }

  predicate AllDigits(s: string) { forall i :: 0 <= i < |s| ==> IsDigit(s[i]) }

  function DigitValue(c: char): nat
    requires IsDigit(c)
  {
    (c as int) - ('0' as int)
  }

  function DigitChar(d: nat): char
    requires d < 10
  {
    ('0' as int + d) as char
  }

  /** The value of a string of decimal digits, most significant first. */
  function DecimalValue(s: string): nat
    requires AllDigits(s)
  {
    if s == [] then 0 else DecimalValue(s[..|s| - 1]) * 10 + DigitValue(s[|s| - 1])
  }

  /** Python's str(n) for a non-negative int: no sign, no leading zeros. */
  function NatToDecimal(n: nat): (s: string)
    ensures s != [] && AllDigits(s)
    ensures '|' !in s && '\n' !in s && '-' !in s
  {
    if n < 10 then [DigitChar(n)] else NatToDecimal(n / 10) + [DigitChar(n % 10)]
  }

  /** Python's str(i) for any int. */
  function IntToDecimal(i: int): (s: string)
    ensures s != [] && '|' !in s && '\n' !in s
  {
    if i < 0 then "-" + NatToDecimal(-i) else NatToDecimal(i)
  }

  lemma {:induction false} DecimalRoundTrip(n: nat)
    ensures DecimalValue(NatToDecimal(n)) == n
  {
    if n >= 10 {
      DecimalRoundTrip(n / 10);
      var s := NatToDecimal(n);
      assert s[..|s| - 1] == NatToDecimal(n / 10);
    }
  }

  /** std::stoull on a field, for plain digit strings: a non-empty digit
      string whose value fits in 64 bits. Leading blanks, a sign and
      trailing text, which stoull would also take, are treated here as a
      parse failure; so is a value of 2^64 or more, on which it throws. */
  function ParseU64(s: string): (r: Option<nat>)
    ensures r.Some? ==> r.value < U64Limit
  {
    if s != [] && AllDigits(s) && DecimalValue(s) < U64Limit then Some(DecimalValue(s)) else None
  }

  /** Rendering a 64-bit value and parsing it back gives the value. */
  lemma ParseU64RoundTrip(n: nat)
    requires n < U64Limit
    ensures ParseU64(NatToDecimal(n)) == Some(n)
  {
    DecimalRoundTrip(n);
  }

  predicate AllZeros(s: string) { forall i :: 0 <= i < |s| ==> s[i] == '0' }

  /** std::stod on a price field, for prices that are whole numbers of ticks:
      an optional '-', digits, and optionally '.' followed only by zeros.
      Everything else is treated here as a parse failure, including text
      stod would read: leading blanks, a '+', trailing text, exponents,
      hexadecimal, inf and nan, and a fractional part. */
  function ParseTicks(s: string): (r: Option<int>)
  {
    var neg := |s| > 0 && s[0] == '-';
    var body := if neg then s[1..] else s;
    var dot := IndexOf(body, '.', 0);
    var whole := body[..dot];
    var frac := if dot < |body| then body[dot + 1..] else "";
    if whole != [] && AllDigits(whole) && AllZeros(frac)
    then var v: int := DecimalValue(whole); Some(if neg then -v else v)
    else None
  }

  /** Python's repr of a whole-valued float: str(int) followed by ".0". */
  function TicksToText(p: int): (s: string)
    ensures s != [] && '|' !in s && '\n' !in s
  {
    IntToDecimal(p) + ".0"
  }

  lemma TicksRoundTrip(p: int)
    ensures ParseTicks(TicksToText(p)) == Some(p)
  {
    var s := TicksToText(p);
    var neg := |s| > 0 && s[0] == '-';
    var body := if neg then s[1..] else s;
    var n: nat := if p < 0 then -p else p;
    assert neg <==> p < 0;
    assert body == NatToDecimal(n) + ".0";
    IndexOfPlainPrefix(NatToDecimal(n), ".0", '.');
    assert body[..|NatToDecimal(n)|] == NatToDecimal(n);
    assert body[|NatToDecimal(n)| + 1..] == "0";
    DecimalRoundTrip(n);
  }

  /** std::string::find / std::find: the first index at or after `from`
      holding `c`, or |s| when there is none. */
  function IndexOf(s: string, c: char, from: nat): (i: nat)
    requires from <= |s|
    ensures from <= i <= |s|
    ensures forall j :: from <= j < i ==> s[j] != c
    ensures i < |s| ==> s[i] == c
    decreases |s| - from
  {
    if from == |s| then from
    else if s[from] == c then from
    else IndexOf(s, c, from + 1)
  }

  lemma IndexOfPlainPrefix(p: string, rest: string, c: char)
    requires c !in p && rest != [] && rest[0] == c
    ensures IndexOf(p + rest, c, 0) == |p|
  {
    assert (p + rest)[|p|] == c;
    assert forall j :: 0 <= j < |p| ==> (p + rest)[j] == p[j];
  }

  // ---------------------------------------------------------------------
  // Field splitting on '|'

  /** The fields of a line separated by '|': k separators give k + 1 fields. */
  function Split(s: string): (parts: seq<string>)
    ensures |parts| >= 1
  {
    if s == [] then [[]]
    else
      var rest := Split(s[1..]);
      if s[0] == '|' then [[]] + rest else [[s[0]] + rest[0]] + rest[1..]
  }

  /** Fields joined back with '|' between them. */
  function Join(parts: seq<string>): string
    requires |parts| >= 1
  {
    if |parts| == 1 then parts[0] else parts[0] + "|" + Join(parts[1..])
  }

  predicate NoSeparator(parts: seq<string>)
  {
    forall i :: 0 <= i < |parts| ==> '|' !in parts[i]
  }

  function Count(s: string, c: char): nat
  {
    if s == [] then 0 else (if s[0] == c then 1 else 0) + Count(s[1..], c)
  }

  /** Splitting a line and joining the fields gives back the line; no
      field holds a separator; there is one field more than separators. */
  lemma {:induction false} SplitJoin(s: string)
    ensures Join(Split(s)) == s
    ensures NoSeparator(Split(s))
    ensures |Split(s)| == Count(s, '|') + 1
  {
    if s != [] {
      SplitJoin(s[1..]);
      var rest := Split(s[1..]);
      if s[0] == '|' {
        assert Split(s)[1..] == rest;
        assert s == [s[0]] + s[1..];
      } else {
        var parts := Split(s);
        if |rest| == 1 {
          assert Join(parts) == [s[0]] + rest[0];
        } else {
          assert parts[1..] == rest[1..];
          assert Join(parts) == [s[0]] + Join(rest);
        }
        assert s == [s[0]] + s[1..];
        forall i | 0 <= i < |parts| ensures '|' !in parts[i] {
          if i > 0 { assert parts[i] == rest[i]; }
        }
      }
    }
  }

  lemma {:induction false} SplitPlain(p: string)
    requires '|' !in p
    ensures Split(p) == [p]
  {
    if p != [] {
      SplitPlain(p[1..]);
      assert p == [p[0]] + p[1..];
    }
  }

  lemma {:induction false} SplitPrefix(p: string, rest: string)
    requires '|' !in p
    ensures Split(p + "|" + rest) == [p] + Split(rest)
  {
    if p == [] {
      assert p + "|" + rest == "|" + rest;
      assert ("|" + rest)[1..] == rest;
    } else {
      SplitPrefix(p[1..], rest);
      assert (p + "|" + rest)[1..] == p[1..] + "|" + rest;
      assert p == [p[0]] + p[1..];
    }
  }

  /** Joining fields free of '|' and splitting gives back the same fields:
      the fields of a line are determined by the line. */
  lemma {:induction false} JoinSplit(parts: seq<string>)
    requires |parts| >= 1 && NoSeparator(parts)
    ensures Split(Join(parts)) == parts
  {
    if |parts| == 1 {
      SplitPlain(parts[0]);
    } else {
      JoinSplit(parts[1..]);
      SplitPrefix(parts[0], Join(parts[1..]));
    }
  }

  // ---------------------------------------------------------------------
  // Substring search (Python's `token in text`)

  predicate StartsWith(s: string, prefix: string)
  {
    |prefix| <= |s| && s[..|prefix|] == prefix
  }

  /** `token in text`: the token occurs at some position of the text. */
  predicate Contains(text: string, token: string)
  {
    StartsWith(text, token) || (text != [] && Contains(text[1..], token))
  }

  /** The token occurs in the text starting at index i. */
  predicate OccursAt(text: string, token: string, i: int)
  {
    0 <= i && i + |token| <= |text| && text[i..i + |token|] == token
  }

  /** `token in text` holds exactly when some window of the text is the
      token. */
  lemma {:induction false} ContainsIff(text: string, token: string)
    ensures Contains(text, token) <==> exists i :: OccursAt(text, token, i)
    decreases |text|
  {
    if StartsWith(text, token) {
      assert OccursAt(text, token, 0);
    }
    if text != [] {
      ContainsIff(text[1..], token);
      if Contains(text[1..], token) {
        var i :| OccursAt(text[1..], token, i);
        assert OccursAt(text, token, i + 1);
      }
      if i :| OccursAt(text, token, i) {
        if i > 0 {
          assert OccursAt(text[1..], token, i - 1);
        }
      }
    } else {
      if i :| OccursAt(text, token, i) {
        assert StartsWith(text, token);
      }
    }
  }

  /** No window of the text equals the token. */
  lemma Absent(text: string, token: string)
    requires forall i :: 0 <= i <= |text| - |token| ==> !OccursAt(text, token, i)
    ensures !Contains(text, token)
  {
    ContainsIff(text, token);
  }
}
