/** Looking a verification code up by its value. */
module VerificationCodeService {
  import opened Common
  import opened VerificationCodeSchema
  import opened Store

  const CodeNotFound := "Verification code not found"

  /** `select ... where code = ?`, first row: the row holding this value, if any. */
  function SelectCodeByCode(codes: map<int, VerificationCode>, code: string): (r: Option<VerificationCode>)
    requires CodesWellFormed(codes)
    ensures r.Some? <==> CodeTaken(codes, code)
    ensures r.Some? ==> r.value.id in codes && codes[r.value.id] == r.value && r.value.code == code
  {
    if CodeTaken(codes, code) then
      var id :| id in codes && codes[id].code == code; Some(codes[id])
    else None
  }

  /** `verificationCodeGetByCode`: the matching row, or "Verification code not found". */
  function VerificationCodeGetByCode(codes: map<int, VerificationCode>, code: string)
    : (r: ServiceResult<VerificationCode>)
    requires CodesWellFormed(codes)
    ensures r.Success? <==> CodeTaken(codes, code)
    ensures r.Success? ==> r.data.code == code && r.data.id in codes && codes[r.data.id] == r.data
    ensures r.Failure? ==> r.error == CodeNotFound
  {
    match SelectCodeByCode(codes, code)
    case Some(c) => Success(c)
    case None => Failure(CodeNotFound)
  }

  /** Code values are unique, so the lookup returns the one row holding the value, whichever it is. */
  lemma LookupDetermined(codes: map<int, VerificationCode>, id: int)
    requires CodesWellFormed(codes) && id in codes
    ensures VerificationCodeGetByCode(codes, codes[id].code) == Success(codes[id])
  {
  }
}
