/** Credential string utilities of `utils/encryption.py`: masking a key for
    display and checking the `id.secret` shape. Fernet encryption itself is
    foreign and appears elsewhere only as an uninterpreted function. */
module Encryption {
  import opened PyStr

  /** `mask_api_key`: keys longer than 12 characters show their first 8
      and last 4; shorter non-empty keys show their first 2 and last 2 with
      `len - 4` stars between (no stars at all below length 4). */
  function MaskApiKey(k: string): (r: string)
    ensures k == [] <==> r == []
    ensures |k| > 12 ==>
      && |r| == |k|
      && r[..8] == k[..8]
      && r[|r| - 4..] == k[|k| - 4..]
      && (forall i :: 8 <= i < |k| - 4 ==> r[i] == '*')
    ensures 4 <= |k| <= 12 ==>
      && |r| == |k|
      && r[..2] == k[..2]
      && r[|r| - 2..] == k[|k| - 2..]
      && (forall i :: 2 <= i < |k| - 2 ==> r[i] == '*')
    ensures 1 <= |k| <= 3 ==>
      && |r| > |k|
      && r == (if |k| == 1 then k + k else k[..2] + k[|k| - 2..])
  {
    if k == [] then []
    else if |k| <= 12 then Take(k, 2) + Repeat('*', |k| - 4) + TakeLast(k, 2)
    else Take(k, 8) + Repeat('*', |k| - 12) + TakeLast(k, 4)
  }

  /** Keys of at most four characters are not hidden at all: every
      character of the key appears in its mask. */
  lemma ShortKeyFullyRevealed(k: string)
    requires 1 <= |k| <= 4
    ensures forall i :: 0 <= i < |k| ==> k[i] in MaskApiKey(k)
  {
    var r := MaskApiKey(k);
    if |k| == 1 {
      assert r == k + k;
    } else {
      assert r == k[..2] + k[|k| - 2..];
      assert k == k[..2] + k[2..];
      assert forall i :: 2 <= i < |k| ==> k[i] == r[i + 4 - |k|];
    }
  }

  /** The mask of "abc" is "abbc", one character longer than the key. */
  lemma MaskOfThreeCharacters()
    ensures MaskApiKey("abc") == "abbc"
  {
    assert Take("abc", 2) == "ab";
    assert TakeLast("abc", 2) == "bc";
  }

  /** Index `i` is the first `.` of `k`, with text on both sides of it. */
  predicate SplitsIdSecret(k: string, i: int) {
    0 < i < |k| - 1 && k[i] == '.' && '.' !in k[..i]
  }

  /** `validate_api_key_format`: `k.split(".", 1)` has two non-empty parts. */
  function ValidateApiKeyFormat(k: string): (ok: bool)
    ensures ok <==> exists i | 0 <= i < |k| :: SplitsIdSecret(k, i)
  {
    var parts := SplitOnce(k, '.');
    var ok := |parts| == 2 && |parts[0]| > 0 && |parts[1]| > 0;
    FirstDotIsUnique(k);
    if ok then
      assert SplitsIdSecret(k, FirstIndex(k, '.'));
      ok
    else
      ok
  }

  /** A position satisfying `SplitsIdSecret` is the first `.` of `k`. */
  lemma FirstDotIsUnique(k: string)
    ensures forall i | 0 <= i < |k| :: SplitsIdSecret(k, i) ==> i == FirstIndex(k, '.')
  {
  }

  /** Keys the repository's tests accept, and one with a second dot in
      its secret, which is accepted too. */
  lemma ValidateAcceptsExamples()
    ensures ValidateApiKeyFormat("id.secret")
    ensures ValidateApiKeyFormat("long_id.long_secret")
    ensures ValidateApiKeyFormat("id.sec.ret")
  {
    assert SplitsIdSecret("id.secret", 2);
    assert SplitsIdSecret("long_id.long_secret", 7);
    assert SplitsIdSecret("id.sec.ret", 2);
  }

  /** Keys the repository's tests reject: no dot, or nothing on one side
      of the first dot. */
  lemma ValidateRejectsExamples()
    ensures !ValidateApiKeyFormat("")
    ensures !ValidateApiKeyFormat("invalid")
    ensures !ValidateApiKeyFormat(".")
    ensures !ValidateApiKeyFormat("id.")
    ensures !ValidateApiKeyFormat(".secret")
  {
    assert '.' !in "invalid";
  }
}
