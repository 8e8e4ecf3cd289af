/** The few Python string operations the orchestrator relies on:
    truthiness of an optional string, slicing, `str.split`, `str.join`,
    `str.strip` and the decimal rendering of a count. */
module Text {
  import opened Wrappers

  /** Python truthiness of an `str | None`: present and non-empty. */
  predicate Present(o: Option<string>) {
    o.Some? && o.value != ""
  }

  /** `o or "unknown"`. */
  function OrUnknown(o: Option<string>): string {
    if Present(o) then o.value else "unknown"
  }

  /** The slice `xs[:n]`: the first `n` elements, or all of them when there are fewer. */
  function Take<T>(xs: seq<T>, n: nat): (r: seq<T>)
    ensures |r| <= n && r <= xs
    ensures |xs| <= n ==> r == xs
    ensures n <= |xs| ==> |r| == n
  {
    if |xs| <= n then xs else xs[..n]
  }

  /** `str.isspace()` for one character: the characters Python strips by default. */
  predicate IsSpace(c: char) {
    || ('\t' <= c <= '\r')
    || ('\U{1C}' <= c <= ' ')
    || c == '\U{85}' || c == '\U{A0}' || c == '\U{1680}'
    || ('\U{2000}' <= c <= '\U{200A}')
    || c == '\U{2028}' || c == '\U{2029}' || c == '\U{202F}' || c == '\U{205F}'
    || c == '\U{3000}'
  }

  predicate AllSpace(s: string) {
    forall k :: 0 <= k < |s| ==> IsSpace(s[k])
  }

  /** Number of whitespace characters at the start of `s`. */
  function LeadingSpaces(s: string): (n: nat)
    ensures n <= |s|
    ensures forall k :: 0 <= k < n ==> IsSpace(s[k])
    ensures n < |s| ==> !IsSpace(s[n])
  {
    if s == [] || !IsSpace(s[0]) then 0 else 1 + LeadingSpaces(s[1..])
  }

  /** Number of whitespace characters at the end of `s`. */
  function TrailingSpaces(s: string): (n: nat)
    ensures n <= |s|
    ensures forall k :: |s| - n <= k < |s| ==> IsSpace(s[k])
    ensures n < |s| ==> !IsSpace(s[|s| - 1 - n])
  {
    if s == [] || !IsSpace(s[|s| - 1]) then 0 else 1 + TrailingSpaces(s[..|s| - 1])
  }

  /** `s.strip()`: `s` without its leading and trailing whitespace. */
  function Strip(s: string): string {
    var t := s[LeadingSpaces(s)..];
    t[..|t| - TrailingSpaces(t)]
  }

  /** What `strip` keeps: a contiguous piece of `s` starting after its
      leading whitespace and followed only by whitespace, empty exactly when
      `s` is all whitespace, and otherwise neither starting nor ending with
      whitespace. */
  lemma StripSpec(s: string)
    ensures var r := Strip(s);
      && LeadingSpaces(s) + |r| <= |s|
      && r == s[LeadingSpaces(s)..LeadingSpaces(s) + |r|]
      && AllSpace(s[LeadingSpaces(s) + |r|..])
      && (r == "" <==> AllSpace(s))
      && (r != "" ==> !IsSpace(r[0]) && !IsSpace(r[|r| - 1]))
  {
  }

  /** `sep.join(parts)`. */
  function Join(parts: seq<string>, sep: string): string {
    if parts == [] then ""
    else if |parts| == 1 then parts[0]
    else parts[0] + sep + Join(parts[1..], sep)
  }

  /** `s.split(sep)` for a one-character separator: the pieces between
      separators, an empty piece wherever two separators touch or one
      starts or ends `s`; `"".split(sep)` is `[""]`. */
  function Split(s: string, sep: char): (parts: seq<string>)
    ensures |parts| >= 1
  {
    if s == [] then [""]
    else
      var rest := Split(s[1..], sep);
      if s[0] == sep then [""] + rest
      else [[s[0]] + rest[0]] + rest[1..]
  }

  /** No piece of a split holds the separator. */
  lemma {:induction false} SplitSpec(s: string, sep: char)
    ensures forall p :: p in Split(s, sep) ==> sep !in p
  {
    if s != [] {
      SplitSpec(s[1..], sep);
    }
  }

  /** Joining a first part before at least one more puts the separator between. */
  lemma JoinCons(x: string, parts: seq<string>, sep: string)
    requires |parts| >= 1
    ensures Join([x] + parts, sep) == x + sep + Join(parts, sep)
  {
    assert ([x] + parts)[1..] == parts;
  }

  /** Putting a character in front of the first part puts it in front of the join. */
  lemma JoinPrepend(c: char, parts: seq<string>, sep: string)
    requires |parts| >= 1
    ensures Join([[c] + parts[0]] + parts[1..], sep) == [c] + Join(parts, sep)
  {
    if |parts| > 1 {
      JoinCons([c] + parts[0], parts[1..], sep);
      JoinCons(parts[0], parts[1..], sep);
      assert [parts[0]] + parts[1..] == parts;
    }
  }

  /** Splitting and joining again with the same separator gives back the text. */
  lemma {:induction false} JoinSplit(s: string, sep: char)
    ensures Join(Split(s, sep), [sep]) == s
  {
    if s != [] {
      var rest := Split(s[1..], sep);
      JoinSplit(s[1..], sep);
      if s[0] == sep {
        JoinCons("", rest, [sep]);
      } else {
        JoinPrepend(s[0], rest, [sep]);
      }
      assert s == [s[0]] + s[1..];
    }
  }

  /** Joining the first `n` parts gives a prefix of joining them all. */
  lemma {:induction false} JoinTakeIsPrefix(parts: seq<string>, n: nat, sep: string)
    ensures Join(Take(parts, n), sep) <= Join(parts, sep)
  {
    if n < |parts| {
      if n == 0 {
      } else if n == 1 {
        assert Take(parts, n) == [parts[0]];
      } else {
        assert Take(parts, n)[1..] == Take(parts[1..], n - 1);
        JoinTakeIsPrefix(parts[1..], n - 1, sep);
      }
    }
  }

  function DigitChar(d: nat): char
    requires d < 10
  {
    "0123456789"[d]
  }

  /** The decimal rendering of a count, as an f-string prints an `int`. */
  function Decimal(n: nat): (s: string)
    ensures |s| >= 1
    ensures forall k :: 0 <= k < |s| ==> '0' <= s[k] <= '9'
  {
    if n < 10 then [DigitChar(n)] else Decimal(n / 10) + [DigitChar(n % 10)]
  }

  /** The number a string of decimal digits denotes, most significant first. */
  function DigitsValue(s: string): nat
    requires forall k :: 0 <= k < |s| ==> '0' <= s[k] <= '9'
  {
    if s == [] then 0
    else 10 * DigitsValue(s[..|s| - 1]) + ((s[|s| - 1] as int) - ('0' as int))
  }

  /** The rendering of a count reads back as that count. */
  lemma {:induction false} DecimalValue(n: nat)
    ensures DigitsValue(Decimal(n)) == n
  {
    if n >= 10 {
      var q, d := n / 10, n % 10;
      DecimalValue(q);
      var s := Decimal(n);
      assert s[..|s| - 1] == Decimal(q);
      assert (s[|s| - 1] as int) - ('0' as int) == d;
      assert n == 10 * q + d;
    }
  }

  /** The rendering of a count has no leading zero, except in "0" itself. */
  lemma {:induction false} DecimalLeadingDigit(n: nat)
    ensures n > 0 ==> Decimal(n)[0] != '0'
    ensures Decimal(n)[0] == '0' ==> Decimal(n) == "0"
  {
    if n >= 10 {
      DecimalLeadingDigit(n / 10);
      assert Decimal(n)[0] == Decimal(n / 10)[0];
    }
  }
}
