/** `generateNoCacheParam` (popup.js:152-159): a 10-character token over the
    lower-case letters and digits, one `Math.random()` draw per character. */
module NoCache {

  const Alphabet: string := "abcdefghijklmnopqrstuvwxyz0123456789"
  const TokenLength: nat := 10

  /** The characters a token may hold, stated independently of `Alphabet`. */
  predicate IsLowerAlnum(c: char)
  {
    'a' <= c <= 'z' || '0' <= c <= '9'
  }

  /** The values `Math.random()` returns, one per character, each in [0, 1). */
  predicate ValidDraws(draws: seq<real>)
  {
    |draws| == TokenLength && forall i :: 0 <= i < |draws| ==> 0.0 <= draws[i] < 1.0
  }

  /** `Math.floor(r * chars.length)`, read as exact real arithmetic. */
  function Pick(r: real): (k: nat)
    requires 0.0 <= r < 1.0
    ensures k < |Alphabet|
    ensures k as real <= r * 36.0 < k as real + 1.0
  {
    (r * (|Alphabet| as real)).Floor
  }

  /** The token drawn by `draws`. */
  function Token(draws: seq<real>): (t: string)
    requires ValidDraws(draws)
    ensures |t| == TokenLength
  {
    seq(TokenLength, i requires 0 <= i < TokenLength => Alphabet[Pick(draws[i])])
  }

  /** The loop of `generateNoCacheParam`. */
  method GenerateNoCacheParam(draws: seq<real>) returns (result: string)
    requires ValidDraws(draws)
    ensures result == Token(draws)
  {
    result := "";
    for i := 0 to TokenLength
      invariant result == Token(draws)[..i]
    {
      result := result + [Alphabet[Pick(draws[i])]];
    }
  }

  /** Position `k` of `Alphabet`. */
  lemma AlphabetAt(k: nat)
    requires k < |Alphabet|
    ensures Alphabet[k] == if k < 26 then ('a' as int + k) as char else ('0' as int + k - 26) as char
  {
  }

  /** The alphabet is exactly the lower-case letters and the digits. */
  lemma AlphabetIsLowerAlnum(c: char)
    ensures c in Alphabet <==> IsLowerAlnum(c)
  {
    if IsLowerAlnum(c) {
      var k := if 'a' <= c <= 'z' then c as int - 'a' as int else c as int - '0' as int + 26;
      AlphabetAt(k);
      assert Alphabet[k] == c;
    }
    if c in Alphabet {
      var k :| 0 <= k < |Alphabet| && Alphabet[k] == c;
      AlphabetAt(k);
    }
  }

  /** Every token is exactly ten lower-case alphanumeric characters. */
  lemma TokenIsWellFormed(draws: seq<real>)
    requires ValidDraws(draws)
    ensures |Token(draws)| == 10
    ensures forall i :: 0 <= i < |Token(draws)| ==> IsLowerAlnum(Token(draws)[i])
  {
    forall i | 0 <= i < |Token(draws)| ensures IsLowerAlnum(Token(draws)[i]) {
      AlphabetIsLowerAlnum(Token(draws)[i]);
    }
  }

  /** Conversely, every ten-character lower-case alphanumeric string is the
      token of some draws: the generator can produce any well-formed token. */
  lemma EveryTokenIsReachable(t: string)
    requires |t| == TokenLength
    requires forall i :: 0 <= i < |t| ==> IsLowerAlnum(t[i])
    ensures exists draws :: ValidDraws(draws) && Token(draws) == t
  {
    var draws := seq(TokenLength, i requires 0 <= i < TokenLength =>
      (if 'a' <= t[i] <= 'z' then t[i] as int - 'a' as int else t[i] as int - '0' as int + 26) as real / 36.0);
    assert ValidDraws(draws);
    forall i | 0 <= i < TokenLength ensures Token(draws)[i] == t[i] {
      var k := if 'a' <= t[i] <= 'z' then t[i] as int - 'a' as int else t[i] as int - '0' as int + 26;
      assert Pick(draws[i]) == k;
      AlphabetAt(k);
    }
    assert Token(draws) == t;
  }
}
