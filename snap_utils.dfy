/** The helpers of Snap's `reportConversionEvent`: null tests, the hashed
    e-mail test, the `;`-joined serialiser of item properties, safe e-mail
    hashing, and the errors raised for misconfigured required fields. */
module SnapUtils {
  import opened Common
  import opened Text

  /** `v == null`: loose equality holds for both `null` and `undefined`. */
  function IsNullOrUndefined<T>(v: Nullable<T>): (r: bool)
    ensures r <==> v == Undefined || v == Null
    ensures !r <==> v.Defined?
  {
    !v.Defined?
  }

  /** `box`: a one-element array for a present value, the empty array otherwise. */
  function Box<T>(v: Nullable<T>): (r: seq<T>)
    ensures |r| <= 1
    ensures r == [] <==> IsNullOrUndefined(v)
    ensures v.Defined? ==> r == [v.value]
  {
    if !IsNullOrUndefined(v) then [v.value] else []
  }

  // ---------------------------------------------------------------- isHashedEmail

  /** A character of the class `[0-9abcdef]` under the `i` flag. */
  predicate IsHexChar(c: char)
  {
    '0' <= c <= '9' || 'a' <= c <= 'f' || 'A' <= c <= 'F'
  }

  /** The 64 characters of `s` from index `j` on are all hexadecimal. */
  predicate HexRunAt(s: string, j: nat)
  {
    j + 64 <= |s| && forall k :: j <= k < j + 64 ==> IsHexChar(s[k])
  }

  /** What `/[0-9abcdef]{64}/gi` finds: 64 consecutive hex characters anywhere in `s`. */
  ghost predicate ContainsHexRun(s: string)
  {
    exists j: nat :: HexRunAt(s, j)
  }

  /** No window of 64 hex characters ends at or before index `i`. */
  ghost predicate NoRunBefore(s: string, i: nat)
  {
    forall j: nat :: j + 64 <= i ==> !HexRunAt(s, j)
  }

  /** A left-to-right scan of `s` from index `i`, where the last `run`
      characters before `i` are hexadecimal and the one before them is not. */
  function ScanHex(s: string, i: nat, run: nat): (r: bool)
    requires i <= |s| && run <= i && run < 64
    requires forall k :: i - run <= k < i ==> IsHexChar(s[k])
    requires run < i ==> !IsHexChar(s[i - run - 1])
    requires NoRunBefore(s, i)
    ensures r <==> ContainsHexRun(s)
    decreases |s| - i
  {
    if i == |s| then
      assert forall j: nat :: !HexRunAt(s, j);
      false
    else if !IsHexChar(s[i]) then
      assert forall j: nat :: j + 64 == i + 1 ==> !HexRunAt(s, j) by {
        forall j: nat | j + 64 == i + 1 ensures !HexRunAt(s, j) {
          assert j <= i < j + 64;
        }
      }
      ScanHex(s, i + 1, 0)
    else if run == 63 then
      assert HexRunAt(s, i - 63);
      true
    else
      assert forall j: nat :: j + 64 == i + 1 ==> !HexRunAt(s, j) by {
        forall j: nat | j + 64 == i + 1 ensures !HexRunAt(s, j) {
          assert j <= i - run - 1 < j + 64;
        }
      }
      ScanHex(s, i + 1, run + 1)
  }

  /** `isHashedEmail`: the unanchored, case-insensitive test for 64 hex characters. */
  function IsHashedEmail(email: string): (r: bool)
    ensures r <==> ContainsHexRun(email)
  {
    ScanHex(email, 0, 0)
  }

  /** A string shorter than 64 characters is never taken for a hash. */
  lemma ShortIsNotHashed(s: string)
    requires |s| < 64
    ensures !IsHashedEmail(s)
  {
    assert forall j: nat :: !HexRunAt(s, j);
  }

  /** The pattern is unanchored: a hash keeps matching whatever surrounds it. */
  lemma {:induction false} HashedEmailEmbedded(a: string, h: string, b: string)
    requires IsHashedEmail(h)
    ensures IsHashedEmail(a + h + b)
  {
    var j: nat :| HexRunAt(h, j);
    var s := a + h + b;
    forall k | |a| + j <= k < |a| + j + 64 ensures IsHexChar(s[k]) {
      assert s[k] == h[k - |a|];
    }
    assert HexRunAt(s, |a| + j);
  }

  // ---------------------------------------------------------------- transformProperty

  /** An item property value: a number (integers only) or a string. */
  datatype Scalar = Num(n: int) | Str(s: string)

  type Item = map<string, Nullable<Scalar>>

  /** The text one item contributes: nothing for `undefined` or `null`, the
      decimal form of a number, a string with every `;` removed. */
  function Segment(v: Nullable<Scalar>): (r: string)
    ensures ';' !in r
    ensures IsNullOrUndefined(v) ==> r == ""
    ensures v.Defined? && v.value.Num? ==> r == IntToString(v.value.n) && SignedValue(r) == v.value.n
    ensures v.Defined? && v.value.Str? ==> r == Strip(v.value.s, ';')
    ensures v.Defined? && v.value.Str? ==> multiset(r) == multiset(v.value.s)[';' := 0]
  {
    match v
    case Undefined => ""
    case Null => ""
    case Defined(Num(n)) =>
      assert forall i :: 0 <= i < |IntToString(n)| ==> IntToString(n)[i] != ';';
      IntToString(n)
    case Defined(Str(s)) => Strip(s, ';')
  }

  /** The segments of `transformProperty`, one per item in order. */
  function Segments(property: string, items: seq<Item>): (r: seq<string>)
    ensures |r| == |items|
    ensures forall i :: 0 <= i < |items| ==> r[i] == Segment(Get(items[i], property))
  {
    seq(|items|, i requires 0 <= i < |items| => Segment(Get(items[i], property)))
  }

  /** `transformProperty`: the segments joined by `;`. */
  function TransformProperty(property: string, items: seq<Item>): (r: string)
    ensures |items| == 1 ==> r == Segment(Get(items[0], property))
  {
    Join(Segments(property, items), ';')
  }

  /** Round trip: splitting the output on `;` gives back one segment per item,
      each the item's sanitised value. With no items the output is `''`,
      which splits to one empty segment. */
  lemma TransformPropertySplit(property: string, items: seq<Item>)
    ensures |items| >= 1 ==> Split(TransformProperty(property, items), ';') == Segments(property, items)
    ensures |items| == 0 ==> TransformProperty(property, items) == "" &&
                             Split(TransformProperty(property, items), ';') == [""]
  {
    if |items| >= 1 {
      SplitJoin(Segments(property, items), ';');
    }
  }

  /** A string item without `;` passes through unchanged. */
  lemma PlainStringKept(property: string, item: Item)
    requires Get(item, property).Defined? && Get(item, property).value.Str?
    requires ';' !in Get(item, property).value.s
    ensures TransformProperty(property, [item]) == Get(item, property).value.s
  {
    StripAbsent(Get(item, property).value.s, ';');
  }

  // ---------------------------------------------------------------- hashing

  /** `String(email)`: `undefined` becomes the text `'undefined'`. */
  function JsString(email: Option<string>): (r: string)
    ensures email.Some? ==> r == email.value
    ensures email.None? ==> r == "undefined"
  {
    match email
    case None => "undefined"
    case Some(s) => s
  }

  /** `hash`, with the SHA-256 hex digest given as `digest`. */
  function Hash(value: Option<string>, digest: string -> string): (r: Option<string>)
    ensures r.None? <==> value.None?
    ensures value.Some? ==> r.value == digest(value.value)
  {
    match value
    case None => None
    case Some(v) => Some(digest(v))
  }

  /** `hashEmailSafe`: an e-mail already hashed is kept, any other is hashed;
      `undefined` stays `undefined`. */
  function HashEmailSafe(email: Option<string>, digest: string -> string): (r: Option<string>)
    ensures email.None? ==> r.None?
    ensures email.Some? && IsHashedEmail(email.value) ==> r == email
    ensures email.Some? && !IsHashedEmail(email.value) ==> r == Some(digest(email.value))
  {
    if IsHashedEmail(JsString(email)) then email
    else
      ShortIsNotHashed("undefined");
      Hash(email, digest)
  }

  /** With a digest whose output is always a hash, hashing safely twice is
      hashing safely once: a hashed e-mail is never hashed again. */
  lemma HashEmailSafeIdempotent(email: Option<string>, digest: string -> string)
    requires forall s :: IsHashedEmail(digest(s))
    ensures HashEmailSafe(HashEmailSafe(email, digest), digest) == HashEmailSafe(email, digest)
  {
  }

  // ---------------------------------------------------------------- emptyToUndefined

  /** `emptyToUndefined`: `''` becomes `undefined`, every other value is kept. */
  function EmptyToUndefined(str: Option<string>): (r: Option<string>)
    ensures r.None? <==> str.None? || str == Some("")
    ensures str.Some? && str.value != "" ==> r == str
  {
    if str.Some? && str.value == "" then None else str
  }

  lemma EmptyToUndefinedIdempotent(str: Option<string>)
    ensures EmptyToUndefined(EmptyToUndefined(str)) == EmptyToUndefined(str)
    ensures EmptyToUndefined(str) != Some("")
  {
  }

  // ---------------------------------------------------------------- errors

  const MisconfiguredRequiredField := "Misconfigured required field"

  /** `raiseMisconfiguredRequiredFieldErrorIf`: throws exactly when `condition` holds. */
  function RaiseMisconfiguredRequiredFieldErrorIf(condition: bool, message: string): (r: Outcome<IntegrationError>)
    ensures r.Fail? <==> condition
    ensures r.Fail? ==> r.error == IntegrationError(message, MisconfiguredRequiredField, 400)
  {
    if condition then Fail(IntegrationError(message, MisconfiguredRequiredField, 400)) else Pass
  }

  /** `raiseMisconfiguredRequiredFieldErrorIfNullOrUndefined`: throws exactly
      for `null` and `undefined`; on success the value is present. */
  function RaiseMisconfiguredRequiredFieldErrorIfNullOrUndefined<T>(v: Nullable<T>, message: string)
    : (r: Outcome<IntegrationError>)
    ensures r.Fail? <==> v == Undefined || v == Null
    ensures r.Pass? ==> v.Defined? && Box(v) == [v.value]
    ensures r.Fail? ==> r.error == IntegrationError(message, MisconfiguredRequiredField, 400)
  {
    RaiseMisconfiguredRequiredFieldErrorIf(IsNullOrUndefined(v), message)
  }
}
