/** Values shared by every destination module: optional values, JavaScript's
    nullable values, pass/fail outcomes, the framework's IntegrationError,
    and a first-match search over a sequence. */
module Common {

  datatype Option<+T> = None | Some(value: T)

  /** A JavaScript value that may also be `undefined` or `null`. */
  datatype Nullable<+T> = Undefined | Null | Defined(value: T)

  /** The result of an operation that returns nothing but may throw. */
  datatype Outcome<+E> = Pass | Fail(error: E)

  /** `new IntegrationError(message, code, status)` of the actions framework. */
  datatype IntegrationError = IntegrationError(message: string, code: string, status: int)

  /** JavaScript truthiness of a `string | null | undefined`. */
  predicate Truthy(v: Nullable<string>)
  {
    v.Defined? && v.value != ""
  }

  /** `obj[key]` on a JSON object: a missing key reads as `undefined`. */
  function Get<T>(obj: map<string, Nullable<T>>, key: string): (v: Nullable<T>)
    ensures key !in obj ==> v == Undefined
    ensures key in obj ==> v == obj[key]
  {
    if key in obj then obj[key] else Undefined
  }

  /** The index of the first element of `xs` satisfying `p`, as `Array.prototype.findIndex`. */
  function FindIndex<T>(xs: seq<T>, p: T -> bool): (r: Option<nat>)
    ensures r.Some? ==> r.value < |xs| && p(xs[r.value])
    ensures r.Some? ==> forall j :: 0 <= j < r.value ==> !p(xs[j])
    ensures r.None? <==> forall j :: 0 <= j < |xs| ==> !p(xs[j])
  {
    if xs == [] then None
    else if p(xs[0]) then Some(0)
    else match FindIndex(xs[1..], p)
      case None => None
      case Some(i) => Some(i + 1)
  }

  /** The first element of `xs` satisfying `p`, as `Array.prototype.find`. */
  function Find<T>(xs: seq<T>, p: T -> bool): (r: Option<T>)
    ensures r.Some? ==> r.value in xs && p(r.value)
    ensures r.Some? ==> exists i :: 0 <= i < |xs| && xs[i] == r.value && forall j :: 0 <= j < i ==> !p(xs[j])
    ensures r.None? <==> forall x :: x in xs ==> !p(x)
  {
    match FindIndex(xs, p)
    case None => None
    case Some(i) => Some(xs[i])
  }
}

/** The string operations the destinations use, on `seq<char>`. */
module Text {

  predicate IsUpper(c: char)
  {
    'A' <= c <= 'Z'
  }

  /** `toLowerCase` on one character (ASCII letters only). */
  function LowerChar(c: char): (r: char)
    ensures !IsUpper(r)
    ensures !IsUpper(c) ==> r == c
  {
    if IsUpper(c) then (c as int + 32) as char else c
  }

  /** `String.prototype.toLowerCase` (ASCII letters only). */
  function Lower(s: string): (r: string)
    ensures |r| == |s|
    ensures forall i :: 0 <= i < |s| ==> r[i] == LowerChar(s[i])
  {
    if s == [] then [] else [LowerChar(s[0])] + Lower(s[1..])
  }

  /** Lower-casing leaves no upper-case letter, so doing it twice changes nothing. */
  lemma LowerIdempotent(s: string)
    ensures forall i :: 0 <= i < |s| ==> !IsUpper(Lower(s)[i])
    ensures Lower(Lower(s)) == Lower(s)
  {
    var once := Lower(s);
    var twice := Lower(once);
    assert forall i :: 0 <= i < |s| ==> twice[i] == once[i];
  }

  /** `s.split(d)` for a one-character separator: the empty string splits to `[""]`. */
  function Split(s: string, d: char): (r: seq<string>)
    ensures |r| >= 1
    ensures forall i :: 0 <= i < |r| ==> d !in r[i]
    decreases |s|
  {
    if s == [] then [""]
    else
      var rest := Split(s[1..], d);
      if s[0] == d then [""] + rest
      else [[s[0]] + rest[0]] + rest[1..]
  }

  /** `segments.join(d)`: the first segment leads, every segment is kept,
      and there is one separator between neighbours. */
  function Join(segments: seq<string>, d: char): (r: string)
    ensures segments == [] ==> r == ""
    ensures |segments| >= 1 ==> segments[0] <= r
    ensures |segments| >= 2 ==> r == segments[0] + [d] + Join(segments[1..], d)
  {
    if |segments| == 0 then ""
    else if |segments| == 1 then segments[0]
    else segments[0] + [d] + Join(segments[1..], d)
  }

  /** Splitting a string whose first part holds no separator keeps that part
      at the front of the first segment. */
  lemma {:induction false} SplitPrefix(a: string, t: string, d: char)
    requires d !in a
    ensures Split(a + t, d) == [a + Split(t, d)[0]] + Split(t, d)[1..]
  {
    if a != [] {
      assert (a + t)[1..] == a[1..] + t;
      SplitPrefix(a[1..], t, d);
      assert [a[0]] + (a[1..] + Split(t, d)[0]) == a + Split(t, d)[0];
    } else {
      var r := Split(t, d);
      assert a + t == t && a + r[0] == r[0];
      assert r == [r[0]] + r[1..];
    }
  }

  /** Round trip: a non-empty list of segments free of the separator is
      recovered by splitting their join. */
  lemma {:induction false} SplitJoin(segments: seq<string>, d: char)
    requires |segments| >= 1
    requires forall i :: 0 <= i < |segments| ==> d !in segments[i]
    ensures Split(Join(segments, d), d) == segments
  {
    if |segments| == 1 {
      SplitPrefix(segments[0], "", d);
      assert segments[0] + "" == segments[0];
    } else {
      var rest := segments[1..];
      SplitJoin(rest, d);
      var t := [d] + Join(rest, d);
      assert segments[0] + [d] + Join(rest, d) == segments[0] + t;
      SplitPrefix(segments[0], t, d);
      assert t[1..] == Join(rest, d);
      assert Split(t, d) == [""] + rest;
      assert segments[0] + "" == segments[0];
      assert [segments[0]] + rest == segments;
    }
  }

  /** Round trip the other way: joining the pieces of a split restores the string. */
  lemma {:induction false} JoinSplit(s: string, d: char)
    ensures Join(Split(s, d), d) == s
  {
    if s != [] {
      var rest := Split(s[1..], d);
      JoinSplit(s[1..], d);
      if s[0] == d {
        assert Join([""] + rest, d) == "" + [d] + Join(rest, d);
        assert s == [d] + s[1..];
      } else {
        var r := [[s[0]] + rest[0]] + rest[1..];
        if |rest| == 1 {
          assert rest == [rest[0]];
          assert Join(rest, d) == rest[0];
          assert s == [s[0]] + s[1..];
        } else {
          assert rest == [rest[0]] + rest[1..];
          assert Join(rest, d) == rest[0] + [d] + Join(rest[1..], d);
          assert r[1..] == rest[1..];
          assert Join(r, d) == [s[0]] + rest[0] + [d] + Join(rest[1..], d);
          assert s == [s[0]] + s[1..];
        }
      }
    }
  }

  /** `s.replace(/c/g, '')`: every occurrence of `c` removed, all else kept in order. */
  function Strip(s: string, c: char): (r: string)
    ensures c !in r
    ensures forall x :: x in r <==> x in s && x != c
    ensures multiset(r) == multiset(s)[c := 0]
    ensures |r| == |s| - multiset(s)[c]
  {
    if s == [] then []
    else
      assert s == [s[0]] + s[1..];
      if s[0] == c then Strip(s[1..], c)
      else [s[0]] + Strip(s[1..], c)
  }

  /** A single character is dropped when it is `c` and kept otherwise. */
  lemma StripOne(x: char, c: char)
    ensures Strip([x], c) == if x == c then [] else [x]
  {
    assert [x][1..] == [];
  }

  /** Stripping works piecewise, so the kept characters stay in their order. */
  lemma {:induction false} StripAppend(a: string, b: string, c: char)
    ensures Strip(a + b, c) == Strip(a, c) + Strip(b, c)
    decreases |a|
  {
    if a == [] {
      assert a + b == b;
    } else {
      var ab := a + b;
      assert ab[0] == a[0] && ab[1..] == a[1..] + b;
      StripAppend(a[1..], b, c);
      if a[0] == c {
        assert Strip(ab, c) == Strip(a[1..] + b, c);
        assert Strip(a, c) == Strip(a[1..], c);
      } else {
        assert Strip(ab, c) == [a[0]] + Strip(a[1..] + b, c);
        assert Strip(a, c) == [a[0]] + Strip(a[1..], c);
      }
    }
  }

  /** A string free of `c` is left as it is. */
  lemma {:induction false} StripAbsent(s: string, c: char)
    requires c !in s
    ensures Strip(s, c) == s
  {
    if s != [] {
      StripAbsent(s[1..], c);
      assert s == [s[0]] + s[1..];
    }
  }

  predicate IsDigit(c: char)
  {
    '0' <= c <= '9'
  }

  function DigitChar(d: nat): (c: char)
    requires d < 10
    ensures IsDigit(c)
    ensures DigitValue(c) == d
  {
    ('0' as int + d) as char
  }

  function DigitValue(c: char): (d: nat)
    requires IsDigit(c)
    ensures d < 10
  {
    c as int - '0' as int
  }

  /** The number a string of decimal digits denotes. */
  function DecimalValue(s: string): (n: nat)
    requires forall i :: 0 <= i < |s| ==> IsDigit(s[i])
  {
    if s == [] then 0 else 10 * DecimalValue(s[..|s| - 1]) + DigitValue(s[|s| - 1])
  }

  /** The number a decimal string with an optional leading `-` denotes. */
  function SignedValue(s: string): (n: int)
    requires forall i :: 0 <= i < |s| ==> IsDigit(s[i]) || (i == 0 && s[i] == '-')
  {
    if s != [] && s[0] == '-' then -(DecimalValue(s[1..]) as int) else DecimalValue(s)
  }

  /** Decimal digits of a natural number, without leading zeros. */
  function NatToString(n: nat): (r: string)
    ensures |r| >= 1
    ensures forall i :: 0 <= i < |r| ==> IsDigit(r[i])
    ensures n > 0 ==> r[0] != '0'
    ensures DecimalValue(r) == n
  {
    if n < 10 then
      assert [DigitChar(n)][..0] == [];
      [DigitChar(n)]
    else
      var r := NatToString(n / 10) + [DigitChar(n % 10)];
      assert r[..|r| - 1] == NatToString(n / 10);
      r
  }

  /** `Number.prototype.toString()` of an integer: the digits denote `n`. */
  function IntToString(n: int): (r: string)
    ensures |r| >= 1
    ensures forall i :: 0 <= i < |r| ==> IsDigit(r[i]) || (i == 0 && r[i] == '-')
    ensures r[0] == '-' <==> n < 0
    ensures SignedValue(r) == n
  {
    if n < 0 then
      var r := "-" + NatToString(-n);
      assert r[1..] == NatToString(-n);
      r
    else NatToString(n)
  }
}
