/** The few JavaScript notions the application's rules are written in:
    values and plain objects, falsiness, `String.prototype.split` with a
    one-character separator, the `\s` character class, and `String(n)`. */
module Js {

  datatype Option<+T> = None | Some(value: T)

  /** A JavaScript value as far as `===` can tell values apart. Numbers are
      modelled as integers; objects and arrays are references compared by
      identity. */
  datatype Value = Undefined | Null | Bool(b: bool) | Num(n: int) | Str(s: string) | Ref(address: nat)

  /** A plain object: its own enumerable properties. */
  type Record = map<string, Value>

  /** `obj[key]`: a missing property reads as `undefined`. */
  function Get(r: Record, key: string): (v: Value)
    ensures key !in r ==> v == Undefined
    ensures key in r ==> v == r[key]
  {
    if key in r then r[key] else Undefined
  }

  /** The values that `if (!v)` and `v || fallback` treat as false. */
  predicate Falsy(v: Value) {
    v == Undefined || v == Null || v == Bool(false) || v == Num(0) || v == Str("")
  }

  /** `v || fallback` */
  function Or(v: Value, fallback: Value): (r: Value)
    ensures Falsy(v) ==> r == fallback
    ensures !Falsy(v) ==> r == v
  {
    if Falsy(v) then fallback else v
  }

  /** A string-typed field that may be `undefined` or `null` (both `None`):
      `!field` holds for those and for the empty string. */
  predicate Blank(field: Option<string>) {
    field == None || field == Some("")
  }

  /** `field || fallback` on a string-typed field: a non-empty text is
      kept, anything falsy gives way to the fallback, so the result is empty
      only when both are. */
  function OrText(field: Option<string>, fallback: string): (r: string)
    ensures !Blank(field) ==> r == field.value
    ensures r != fallback ==> Some(r) == field
    ensures r == "" <==> Blank(field) && fallback == ""
  {
    if Blank(field) then fallback else field.value
  }

  /** `field || null` (and `field ? … : null`) on a string-typed field: the
      result is `null` exactly for a falsy field and never an empty text. */
  function OrNull(field: Option<string>): (r: Option<string>)
    ensures r == None <==> Blank(field)
    ensures r.Some? ==> r == field && r.value != ""
  {
    if Blank(field) then None else field
  }

  /** The characters matched by `\s`, which are also the ones `trim()` strips. */
  predicate IsSpace(c: char) {
    c == ' ' || c == '\t' || c == '\n' || c == '\r' || c == '\U{B}' || c == '\U{C}'
    || c == '\U{A0}' || c == '\U{1680}' || ('\U{2000}' <= c <= '\U{200A}')
    || c == '\U{2028}' || c == '\U{2029}' || c == '\U{202F}' || c == '\U{205F}'
    || c == '\U{3000}' || c == '\U{FEFF}'
  }

  /** `!s.trim()`: nothing but white space is left. */
  predicate IsBlankAfterTrim(s: string) {
    forall i | 0 <= i < |s| :: IsSpace(s[i])
  }

  /** `s.split(sep)` for a one-character separator. */
  function Split(s: string, sep: char): (parts: seq<string>)
    ensures |parts| >= 1
    decreases |s|
  {
    if |s| == 0 then [""]
    else
      var rest := Split(s[1..], sep);
      if s[0] == sep then [""] + rest
      else [[s[0]] + rest[0]] + rest[1..]
  }

  /** Splitting a string without the separator gives the string itself. */
  lemma {:induction false} SplitNoSeparator(s: string, sep: char)
    requires sep !in s
    ensures Split(s, sep) == [s]
    decreases |s|
  {
    if |s| > 0 {
      assert sep !in s[1..];
      SplitNoSeparator(s[1..], sep);
      assert [s[0]] + s[1..] == s;
    }
  }

  /** The first piece ends at the first separator. */
  lemma {:induction false} SplitAtSeparator(a: string, sep: char, b: string)
    requires sep !in a
    ensures Split(a + [sep] + b, sep) == [a] + Split(b, sep)
    decreases |a|
  {
    if |a| == 0 {
      assert a + [sep] + b == [sep] + b;
      assert ([sep] + b)[1..] == b;
    } else {
      assert (a + [sep] + b)[1..] == a[1..] + [sep] + b;
      assert sep !in a[1..];
      SplitAtSeparator(a[1..], sep, b);
      assert [a[0]] + a[1..] == a;
    }
  }

  /** No piece of a split contains the separator. */
  lemma {:induction false} SplitPiecesHaveNoSeparator(s: string, sep: char)
    ensures forall k | 0 <= k < |Split(s, sep)| :: sep !in Split(s, sep)[k]
    decreases |s|
  {
    if |s| > 0 {
      SplitPiecesHaveNoSeparator(s[1..], sep);
    }
  }

  /** `parts.join(sep)` for a one-character separator. */
  function Join(parts: seq<string>, sep: char): string
    requires |parts| >= 1
  {
    if |parts| == 1 then parts[0] else parts[0] + [sep] + Join(parts[1..], sep)
  }

  /** Joining the pieces of a split gives the string back. */
  lemma {:induction false} SplitJoin(s: string, sep: char)
    ensures Join(Split(s, sep), sep) == s
    decreases |s|
  {
    if |s| > 0 {
      var rest := Split(s[1..], sep);
      SplitJoin(s[1..], sep);
      if s[0] == sep {
        assert ([""] + rest)[1..] == rest;
        assert s == [sep] + s[1..];
      } else {
        var parts := [[s[0]] + rest[0]] + rest[1..];
        if |rest| > 1 {
          assert parts[1..] == rest[1..];
        }
        assert s == [s[0]] + s[1..];
      }
    }
  }

  /** The decimal digit for 0 <= d < 10. */
  function DigitChar(d: nat): (c: char)
    requires d < 10
    ensures '0' <= c <= '9'
  {
    "0123456789"[d]
  }

  /** `String(n)` for a natural number: its decimal numeral. */
  function NatToString(n: nat): (s: string)
    ensures |s| >= 1
    ensures forall i | 0 <= i < |s| :: '0' <= s[i] <= '9'
    ensures s[0] == '0' ==> n == 0
    decreases n
  {
    if n < 10 then [DigitChar(n)] else NatToString(n / 10) + [DigitChar(n % 10)]
  }

  /** Distinct numbers have distinct numerals, so `String(k)` ids are
      distinct as long as the numbers are. */
  lemma {:induction false} NatToStringInjective(m: nat, n: nat)
    requires NatToString(m) == NatToString(n)
    ensures m == n
    decreases m
  {
    var sm, sn := NatToString(m), NatToString(n);
    if m < 10 && n < 10 {
      assert "0123456789"[m] == sm[0] == sn[0] == "0123456789"[n];
    } else if m < 10 || n < 10 {
      // one numeral has a single digit and the other at least two
    } else {
      assert sm[|sm| - 1] == DigitChar(m % 10);
      assert sn[|sn| - 1] == DigitChar(n % 10);
      assert "0123456789"[m % 10] == "0123456789"[n % 10];
      assert m % 10 == n % 10;
      assert sm[..|sm| - 1] == NatToString(m / 10);
      assert sn[..|sn| - 1] == NatToString(n / 10);
      NatToStringInjective(m / 10, n / 10);
    }
  }
}
