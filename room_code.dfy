/** Room codes: four letters from an alphabet without the look-alikes O, I and L. */
module RoomCode {

  const Alphabet: string := "ABCDEFGHJKMNPQRSTUVWXYZ"
  const CodeLength: nat := 4

  predicate IsUpper(c: char) { 'A' <= c <= 'Z' }

  /** A letter that can appear in a room code. */
  predicate IsCodeChar(c: char)
  {
    IsUpper(c) && c != 'O' && c != 'I' && c != 'L'
  }

  /** The alphabet: 23 distinct upper-case letters, none of them O, I or L. */
  lemma AlphabetWellFormed()
    ensures |Alphabet| == 23
    ensures forall i :: 0 <= i < |Alphabet| ==> IsCodeChar(Alphabet[i])
    ensures forall i, j :: 0 <= i < j < |Alphabet| ==> Alphabet[i] < Alphabet[j]
    ensures forall c :: IsCodeChar(c) <==> c in Alphabet
  {
  }

  /**
   * generateRoomCode with its random draws passed in: draw k stands for
   * `Math.floor(Math.random() * ALPHABET.length)` on iteration k.
   */
  method GenerateRoomCode(draws: seq<nat>) returns (code: string)
    requires |draws| == CodeLength
    requires forall k :: 0 <= k < |draws| ==> draws[k] < |Alphabet|
    ensures |code| == CodeLength
    ensures forall k :: 0 <= k < |code| ==> code[k] == Alphabet[draws[k]]
    ensures forall k :: 0 <= k < |code| ==> IsCodeChar(code[k])
  {
    AlphabetWellFormed();
    code := "";
    var i := 0;
    while i < CodeLength
      invariant 0 <= i <= CodeLength
      invariant |code| == i
      invariant forall k :: 0 <= k < i ==> code[k] == Alphabet[draws[k]]
    {
      code := code + [Alphabet[draws[i]]];
      i := i + 1;
    }
  }
}
