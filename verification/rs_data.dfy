/** `RsData`: the result envelope every endpoint and every error response carries.
    Its `statusCode` is the number written before the first `-` of `resultCode`. */
module ResultEnvelope {
  import opened Types
  import opened Text

  datatype RsData<T> = RsData(resultCode: string, statusCode: int, msg: string, data: Option<T>)

  /** The integer before the first `-` of a result code (the whole code when it has
      no `-`); `None` when that text is not an `Int` (`NumberFormatException`). */
  function StatusOf(resultCode: string): (r: Option<int>)
    ensures r.Some? ==> IsInt(r.value)
    ensures r.Some? ==> |resultCode| > 0 && resultCode[0] != '-'
    ensures 0 < |resultCode| && !IsDigit(resultCode[0]) && resultCode[0] != '+' ==> r.None?
  {
    var prefix := Split(resultCode, '-', 2)[0];
    SplitFirstPiece(resultCode, '-', 2);
    ParseInt(prefix)
  }

  /** Reference reading of the status: `toInt` of the text before the first `-`
      (of the whole code when there is none), found by position rather than by
      splitting. */
  lemma StatusOfPrefix(code: string, i: nat)
    requires i <= |code| && '-' !in code[..i] && (i == |code| || code[i] == '-')
    ensures StatusOf(code) == ParseInt(code[..i])
  {
    if i < |code| {
      SplitAt(code, '-', 2, i);
    } else {
      assert code[..i] == code;
      SplitFirstPiece(code, '-', 2);
    }
  }

  /** Codes whose text before the first `-` is not a number have no status. */
  lemma StatusOfMalformedCodes()
    ensures StatusOf("") == None
    ensures StatusOf("4x-1") == None
    ensures StatusOf("-401") == None
    ensures StatusOf("+-1") == None
  {
    StatusOfPrefix("4x-1", 2);
    assert !IsDigit("4x"[1]);
    StatusOfPrefix("+-1", 1);
  }

  /** A code written as `<status>-<anything>` reads back as that status. */
  lemma StatusOfNumericPrefix(status: int, sub: string)
    requires 0 <= status <= INT_MAX
    ensures StatusOf(FormatInt(status) + "-" + sub) == Some(status)
  {
    var digits := FormatInt(status);
    var code := digits + "-" + sub;
    assert '-' !in digits by {
      assert AllDigits(digits);
    }
    IndexOfFirst(code, '-', |digits|);
    assert code[..|digits|] == digits;
    SplitFirstPiece(code, '-', 2);
    ParseFormatRoundTrip(status);
  }

  /** A code that is a bare status number reads back as that status. */
  lemma StatusOfWholeNumber(status: int)
    requires 0 <= status <= INT_MAX
    ensures StatusOf(FormatInt(status)) == Some(status)
  {
    var digits := FormatInt(status);
    assert '-' !in digits by {
      assert AllDigits(digits);
    }
    SplitFirstPiece(digits, '-', 2);
    ParseFormatRoundTrip(status);
  }

  /** A result code of the form `ddd-<anything>`, as every code in the core is written. */
  predicate IsThreeDigitCode(code: string) {
    |code| >= 4 && IsDigit(code[0]) && IsDigit(code[1]) && IsDigit(code[2]) && code[3] == '-'
  }

  /** The number the first three characters of such a code denote. */
  function ThreeDigitValue(code: string): (n: int)
    requires IsThreeDigitCode(code)
    ensures 0 <= n <= 999
  {
    100 * DigitValue(code[0]) + 10 * DigitValue(code[1]) + DigitValue(code[2])
  }

  /** A code `ddd-<anything>` has the status `ddd`. */
  lemma StatusOfThreeDigitCode(code: string)
    requires IsThreeDigitCode(code)
    ensures StatusOf(code) == Some(ThreeDigitValue(code))
  {
    var prefix := code[..3];
    assert '-' !in prefix;
    SplitAt(code, '-', 2, 3);
    assert AllDigits(prefix);
    assert prefix[..2] == code[..2] && prefix[..2][..1] == code[..1];
    assert DigitsValue(code[..1]) == DigitValue(code[0]);
    assert DigitsValue(code[..2]) == 10 * DigitValue(code[0]) + DigitValue(code[1]);
    assert DigitsValue(prefix) == ThreeDigitValue(code);
  }

  /** The secondary constructor `RsData(resultCode, msg, data)`: the status is derived
      from the code, and construction fails when the code has no numeric prefix. */
  function Make<T>(resultCode: string, msg: string, data: Option<T>): (r: Option<RsData<T>>)
    ensures r.Some? <==> StatusOf(resultCode).Some?
    ensures r.Some? ==> r.value.statusCode == StatusOf(resultCode).value
    ensures r.Some? ==> r.value.resultCode == resultCode && r.value.msg == msg && r.value.data == data
  {
    match StatusOf(resultCode)
    case None => None
    case Some(status) => Some(RsData(resultCode, status, msg, data))
  }

  /** `RsData(resultCode, msg)` with `data` omitted: the data is `null`. */
  function MakeWithoutData<T>(resultCode: string, msg: string): (r: Option<RsData<T>>)
    ensures r.Some? <==> StatusOf(resultCode).Some?
    ensures r.Some? ==> r.value.data.None? && r.value.resultCode == resultCode && r.value.msg == msg
  {
    Make(resultCode, msg, None)
  }

  /** A constructor call with a `ddd-` code, as the core writes them; it cannot fail. */
  function Known<T>(resultCode: string, msg: string, data: Option<T>): (r: RsData<T>)
    requires IsThreeDigitCode(resultCode)
    ensures Make(resultCode, msg, data) == Some(r)
    ensures r.statusCode == ThreeDigitValue(resultCode)
  {
    StatusOfThreeDigitCode(resultCode);
    RsData(resultCode, ThreeDigitValue(resultCode), msg, data)
  }

  /** `newDataOf`: the same code, status and message around new data. */
  function NewDataOf<T, U>(r: RsData<T>, newData: Option<U>): (r': RsData<U>)
    ensures r'.resultCode == r.resultCode && r'.statusCode == r.statusCode && r'.msg == r.msg
    ensures r'.data == newData
  {
    RsData(r.resultCode, r.statusCode, r.msg, newData)
  }

  /** `equals`: another `RsData` (not `null`) with the same four fields. */
  predicate Equals<T(==)>(a: RsData<T>, other: Option<RsData<T>>) {
    match other
    case None => false
    case Some(b) =>
      && a.resultCode == b.resultCode
      && a.statusCode == b.statusCode
      && a.msg == b.msg
      && a.data == b.data
  }

  /** Field-wise `equals` is exactly equality of envelope values. */
  lemma EqualsIsValueEquality<T>(a: RsData<T>, b: RsData<T>)
    ensures Equals(a, Some(b)) <==> a == b
    ensures !Equals(a, None)
  {
  }

  /** `hashCode`: `31`-polynomial over the code's hash, the status, the message's
      hash and the data's hash (0 for `null` data), in `Int` arithmetic. */
  function HashCode<T>(r: RsData<T>, dataHash: T -> int): (h: int)
    requires IsInt(r.statusCode)
    ensures IsInt(h)
  {
    var h0 := StringHash(r.resultCode);
    var h1 := Wrap32(31 * h0 + r.statusCode);
    var h2 := Wrap32(31 * h1 + StringHash(r.msg));
    var d := match r.data case None => 0 case Some(v) => Wrap32(dataHash(v));
    Wrap32(31 * h2 + d)
  }

  /** Equal envelopes hash equally. */
  lemma HashConsistentWithEquals<T>(a: RsData<T>, b: RsData<T>, dataHash: T -> int)
    requires IsInt(a.statusCode)
    requires Equals(a, Some(b))
    ensures HashCode(a, dataHash) == HashCode(b, dataHash)
  {
  }
}
