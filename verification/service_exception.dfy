/** `ServiceException`: a result code and a message, turned into an error envelope. */
module Exceptions {
  import opened Types
  import opened Text
  import opened ResultEnvelope

  datatype ServiceException = ServiceException(resultCode: string, msg: string)

  /** The exception message `"<resultCode> : <msg>"`. */
  function Message(e: ServiceException): (r: string)
    ensures StartsWith(r, e.resultCode)
    ensures |r| == |e.resultCode| + 3 + |e.msg|
    ensures r[|e.resultCode|..|e.resultCode| + 3] == " : " && r[|e.resultCode| + 3..] == e.msg
  {
    e.resultCode + " : " + e.msg
  }

  /** A result code without spaces is the first word of the message. */
  lemma MessageStartsWithCode(e: ServiceException)
    requires ' ' !in e.resultCode
    ensures Split(Message(e), ' ', 2)[0] == e.resultCode
  {
    var m := Message(e);
    IndexOfFirst(m, ' ', |e.resultCode|);
    assert m[..|e.resultCode|] == e.resultCode;
    SplitFirstPiece(m, ' ', 2);
  }

  /** `getRsData()`: the code and message unchanged, `null` data, and the status read
      from the code; `None` when the code has no numeric prefix. */
  function GetRsData(e: ServiceException): (r: Option<RsData<()>>)
    ensures r.Some? <==> StatusOf(e.resultCode).Some?
    ensures r.Some? ==> r.value.resultCode == e.resultCode && r.value.msg == e.msg
    ensures r.Some? ==> r.value.data.None? && r.value.statusCode == StatusOf(e.resultCode).value
  {
    Make(e.resultCode, e.msg, None)
  }

  /** Exceptions with the same code and message give equal envelopes. */
  lemma SameExceptionSameRsData(a: ServiceException, b: ServiceException)
    requires a.resultCode == b.resultCode && a.msg == b.msg
    ensures GetRsData(a) == GetRsData(b)
    ensures GetRsData(a).Some? ==> ResultEnvelope.Equals(GetRsData(a).value, GetRsData(b))
  {
  }

  /** An exception whose code is `<status>-<sub>` produces an envelope with that status. */
  lemma GetRsDataStatus(status: int, sub: string, msg: string)
    requires 0 <= status <= INT_MAX
    ensures var r := GetRsData(ServiceException(FormatInt(status) + "-" + sub, msg));
            r.Some? && r.value.statusCode == status
  {
    StatusOfNumericPrefix(status, sub);
  }
}
