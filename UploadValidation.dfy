/**
 * Validation rules for one uploaded file. Each rule looks at the `error`
 * entry of the upload array and fails exactly when that entry is strictly
 * identical (PHP `===`) to one of PHP's upload error codes.
 */
module UploadValidation {

  /** A PHP scalar as it may sit in an upload array. Equality of these
      values is PHP's strict identity: same type and same value. */
  datatype PhpValue = Null | Bool(b: bool) | Int(i: int) | Float(f: real) | Str(s: string)

  /** The upload array, keyed by entry name. */
  type UploadArray = map<string, PhpValue>

  // PHP's upload error codes
  const UPLOAD_ERR_OK := 0
  const UPLOAD_ERR_INI_SIZE := 1
  const UPLOAD_ERR_FORM_SIZE := 2
  const UPLOAD_ERR_PARTIAL := 3
  const UPLOAD_ERR_NO_FILE := 4
  const UPLOAD_ERR_NO_TMP_DIR := 6
  const UPLOAD_ERR_CANT_WRITE := 7
  const UPLOAD_ERR_EXTENSION := 8

  /** The codes that one of the rules rejects. */
  const RejectedCodes: set<int> := {1, 2, 3, 4, 6, 7, 8}

  /** `Hash::get($check, 'error')`: the entry, or `null` when it is missing. */
  function ErrorEntry(check: UploadArray): PhpValue {
    if "error" in check then check["error"] else Null
  }

  /** The rule against one code: false exactly when `error` is the integer `code`. */
  predicate NotError(check: UploadArray, code: int) {
    ErrorEntry(check) != Int(code)
  }

  function IsUnderPhpSizeLimit(check: UploadArray): (ok: bool)
    ensures !ok <==> "error" in check && check["error"] == Int(1)
  {
    NotError(check, UPLOAD_ERR_INI_SIZE)
  }

  function IsUnderFormSizeLimit(check: UploadArray): (ok: bool)
    ensures !ok <==> "error" in check && check["error"] == Int(2)
  {
    NotError(check, UPLOAD_ERR_FORM_SIZE)
  }

  function IsCompletedUpload(check: UploadArray): (ok: bool)
    ensures !ok <==> "error" in check && check["error"] == Int(3)
  {
    NotError(check, UPLOAD_ERR_PARTIAL)
  }

  function IsFileUpload(check: UploadArray): (ok: bool)
    ensures !ok <==> "error" in check && check["error"] == Int(4)
  {
    NotError(check, UPLOAD_ERR_NO_FILE)
  }

  function IsTemporaryDirectory(check: UploadArray): (ok: bool)
    ensures !ok <==> "error" in check && check["error"] == Int(6)
  {
    NotError(check, UPLOAD_ERR_NO_TMP_DIR)
  }

  function IsSuccessfulWrite(check: UploadArray): (ok: bool)
    ensures !ok <==> "error" in check && check["error"] == Int(7)
  {
    NotError(check, UPLOAD_ERR_CANT_WRITE)
  }

  function IsNotStoppedByExtension(check: UploadArray): (ok: bool)
    ensures !ok <==> "error" in check && check["error"] == Int(8)
  {
    NotError(check, UPLOAD_ERR_EXTENSION)
  }

  /** All seven rules, each one's verdict. */
  function Verdicts(check: UploadArray): seq<bool> {
    [ IsUnderPhpSizeLimit(check), IsUnderFormSizeLimit(check), IsCompletedUpload(check),
      IsFileUpload(check), IsTemporaryDirectory(check), IsSuccessfulWrite(check),
      IsNotStoppedByExtension(check) ]
  }

  /** How many of the seven rules reject the upload. */
  function FailCount(verdicts: seq<bool>): nat {
    if verdicts == [] then 0
    else FailCount(verdicts[..|verdicts| - 1]) + if verdicts[|verdicts| - 1] then 0 else 1
  }

  predicate PassesAll(check: UploadArray) {
    forall k :: 0 <= k < |Verdicts(check)| ==> Verdicts(check)[k]
  }

  /** With no `error` entry the lookup yields `null`, which no rule rejects. */
  lemma MissingErrorPassesAll(check: UploadArray)
    requires "error" !in check
    ensures PassesAll(check)
  {
  }

  /** `UPLOAD_ERR_OK` passes every rule. */
  lemma UploadOkPassesAll(check: UploadArray)
    requires "error" in check && check["error"] == Int(UPLOAD_ERR_OK)
    ensures PassesAll(check)
  {
  }

  /** Each of the codes 1, 2, 3, 4, 6, 7, 8 fails exactly one rule; any other
      value of `error` (an integer such as 5, a string, a float, a missing
      entry) fails none. */
  lemma {:induction false} OneRulePerCode(check: UploadArray)
    ensures FailCount(Verdicts(check)) == (if ErrorEntry(check).Int? && ErrorEntry(check).i in RejectedCodes then 1 else 0)
  {
    var v := Verdicts(check);
    var f := (b: bool) => if b then 0 else 1;
    assert v[..1][..0] == [];
    assert FailCount(v[..1]) == f(v[0]);
    assert v[..2][..1] == v[..1];
    assert FailCount(v[..2]) == f(v[0]) + f(v[1]);
    assert v[..3][..2] == v[..2];
    assert FailCount(v[..3]) == f(v[0]) + f(v[1]) + f(v[2]);
    assert v[..4][..3] == v[..3];
    assert FailCount(v[..4]) == f(v[0]) + f(v[1]) + f(v[2]) + f(v[3]);
    assert v[..5][..4] == v[..4];
    assert FailCount(v[..5]) == f(v[0]) + f(v[1]) + f(v[2]) + f(v[3]) + f(v[4]);
    assert v[..6][..5] == v[..5];
    assert FailCount(v[..6]) == f(v[0]) + f(v[1]) + f(v[2]) + f(v[3]) + f(v[4]) + f(v[5]);
    assert v[..7][..6] == v[..6];
    assert v[..7] == v;
    assert FailCount(v) == f(v[0]) + f(v[1]) + f(v[2]) + f(v[3]) + f(v[4]) + f(v[5]) + f(v[6]);
  }

  /** The comparison is strict: the string "1" is not the integer 1. */
  lemma StrictComparison()
    ensures IsUnderPhpSizeLimit(map["error" := Str("1")])
    ensures IsUnderPhpSizeLimit(map["error" := Float(1.0)])
    ensures !IsUnderPhpSizeLimit(map["error" := Int(1)])
  {
  }

  /** The rules read the `error` entry and nothing else. */
  lemma OnlyErrorEntryMatters(c1: UploadArray, c2: UploadArray)
    requires ErrorEntry(c1) == ErrorEntry(c2)
    ensures Verdicts(c1) == Verdicts(c2)
  {
  }
}
