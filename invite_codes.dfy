/** The invite-code generator shared by the workspace model and the demo
    routes: eight draws from a 36-character alphabet, each draw
    `chars.charAt(Math.floor(Math.random() * chars.length))`. The results of
    `Math.random` are passed in as `rolls`. */
module InviteCodes {

  const ALPHABET: string := "ABCDEFGHIJKLMNOPQRSTUVWXYZ0123456789"
  const CODE_LENGTH: nat := 8

  predicate IsCodeChar(c: char) {
    'A' <= c <= 'Z' || '0' <= c <= '9'
  }

  /** Eight characters, each an upper-case ASCII letter or a digit. */
  predicate IsInviteCode(s: string) {
    |s| == CODE_LENGTH && forall i :: 0 <= i < |s| ==> IsCodeChar(s[i])
  }

  /** What `Math.random` promises: every draw lies in [0, 1). */
  predicate ValidRolls(rolls: seq<real>) {
    forall i :: 0 <= i < |rolls| ==> 0.0 <= rolls[i] < 1.0
  }

  /** The character one draw selects. */
  function Pick(x: real): (c: char)
    requires 0.0 <= x < 1.0
    ensures IsCodeChar(c)
  {
    var k := (x * 36.0).Floor;
    assert 0 <= k < |ALPHABET|;
    ALPHABET[k]
  }

  /** Every character of the alphabet is reachable: the draw k/36 selects the k-th. */
  lemma PickCovers(k: nat)
    requires k < |ALPHABET|
    ensures Pick(k as real / 36.0) == ALPHABET[k]
  {
    assert (k as real / 36.0) * 36.0 == k as real;
  }

  /** `generateInviteCode`: the loop appends one drawn character eight times. */
  method Generate(rolls: seq<real>) returns (code: string)
    requires |rolls| >= CODE_LENGTH && ValidRolls(rolls)
    ensures IsInviteCode(code)
    ensures forall i :: 0 <= i < CODE_LENGTH ==> code[i] == Pick(rolls[i])
  {
    code := "";
    for i := 0 to CODE_LENGTH
      invariant |code| == i
      invariant forall j :: 0 <= j < i ==> code[j] == Pick(rolls[j])
    {
      code := code + [Pick(rolls[i])];
    }
  }
}
