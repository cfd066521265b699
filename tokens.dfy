/** Token generation, generatePath in tunnel.js: URL_LENGTH letters, each
    picked from a 52-letter alphabet at index `Math.round(Math.random() * 50)`.
    The random draws are passed in as integers. */
module Tokens {

  /** The length of a generated token. */
  const URL_LENGTH := 10

  const LOWER_CASE := "abcdefghijklmnopqrstuvwxyz"
  const UPPER_CASE := "ABCDEFGHIJKLMNOPQRSTUVWXYZ"

  /** The alphabet array: the lower-case letters, then the upper-case ones. */
  const ALPHABET := LOWER_CASE + UPPER_CASE

  /** `Math.round(Math.random() * 50)` never exceeds 50, so index 51, 'Z',
      is never drawn. */
  const MAX_DRAW := 50

  predicate IsAsciiLetter(c: char)
  {
    'a' <= c <= 'z' || 'A' <= c <= 'Z'
  }

  /** Draws that `Math.round(Math.random() * 50)` can produce. */
  predicate ValidDraws(draws: seq<int>)
  {
    forall i :: 0 <= i < |draws| ==> 0 <= draws[i] <= MAX_DRAW
  }

  lemma LowerCaseAt(k: int)
    requires 0 <= k < 26
    ensures LOWER_CASE[k] as int == 'a' as int + k
  {
  }

  lemma UpperCaseAt(k: int)
    requires 0 <= k < 26
    ensures UPPER_CASE[k] as int == 'A' as int + k
  {
  }

  /** The letter at each index of the alphabet: index k < 26 is the k-th
      lower-case letter, index 26 + k the k-th upper-case one. */
  lemma AlphabetAt(k: int)
    requires 0 <= k < 52
    ensures |ALPHABET| == 52
    ensures ALPHABET[k] as int == if k < 26 then 'a' as int + k else 'A' as int + (k - 26)
  {
    if k < 26 {
      LowerCaseAt(k);
    } else {
      UpperCaseAt(k - 26);
    }
  }

  /** The letters spelt by a sequence of draws. */
  function Spell(draws: seq<int>): (token: string)
    requires ValidDraws(draws)
    ensures |token| == |draws|
    ensures forall i :: 0 <= i < |token| ==> token[i] == ALPHABET[draws[i]]
    ensures forall i :: 0 <= i < |token| ==> IsAsciiLetter(token[i]) && token[i] != 'Z'
  {
    if draws == [] then ""
    else
      AlphabetAt(draws[0]);
      [ALPHABET[draws[0]]] + Spell(draws[1..])
  }

  /** One more draw spells one more letter at the end. */
  lemma {:induction false} SpellSnoc(draws: seq<int>, d: int)
    requires ValidDraws(draws) && 0 <= d <= MAX_DRAW
    ensures ValidDraws(draws + [d])
    ensures Spell(draws + [d]) == Spell(draws) + [ALPHABET[d]]
  {
    if draws != [] {
      assert (draws + [d])[1..] == draws[1..] + [d];
      SpellSnoc(draws[1..], d);
    }
  }

  /** generatePath: URL_LENGTH draws give a token of URL_LENGTH ASCII letters
      whose i-th letter is the alphabet's letter at the i-th draw; 'Z' never
      appears. */
  method GeneratePath(draws: seq<int>) returns (result: string)
    requires |draws| == URL_LENGTH && ValidDraws(draws)
    ensures result == Spell(draws)
    ensures |result| == URL_LENGTH
    ensures forall i :: 0 <= i < |result| ==> result[i] == ALPHABET[draws[i]]
    ensures forall i :: 0 <= i < |result| ==> IsAsciiLetter(result[i]) && result[i] != 'Z'
  {
    result := "";
    for i := 0 to URL_LENGTH
      invariant result == Spell(draws[..i])
    {
      assert Spell(draws[..i + 1]) == result + [ALPHABET[draws[i]]] by {
        assert draws[..i + 1] == draws[..i] + [draws[i]];
        SpellSnoc(draws[..i], draws[i]);
      }
      result := result + [ALPHABET[draws[i]]];
    }
    assert result == Spell(draws) by {
      assert draws[..URL_LENGTH] == draws;
    }
  }

  /** The draw that picks an ASCII letter other than 'Z'. */
  function DrawFor(c: char): (d: int)
    requires IsAsciiLetter(c) && c != 'Z'
    ensures 0 <= d <= MAX_DRAW && ALPHABET[d] == c
  {
    var d := if 'a' <= c <= 'z' then c as int - 'a' as int else 26 + (c as int - 'A' as int);
    AlphabetAt(d);
    d
  }

  /** The draws that spell a given token. */
  function DrawsFor(token: string): (draws: seq<int>)
    requires forall i :: 0 <= i < |token| ==> IsAsciiLetter(token[i]) && token[i] != 'Z'
    ensures |draws| == |token| && ValidDraws(draws)
  {
    if token == [] then [] else [DrawFor(token[0])] + DrawsFor(token[1..])
  }

  /** Every string of ASCII letters without 'Z' is spelt by some draws, so
      the tokens generatePath can return are exactly the URL_LENGTH-letter
      strings over the alphabet without 'Z'. */
  lemma {:induction false} EveryLetterStringIsSpelt(token: string)
    requires forall i :: 0 <= i < |token| ==> IsAsciiLetter(token[i]) && token[i] != 'Z'
    ensures Spell(DrawsFor(token)) == token
  {
    if token != [] {
      var draws := DrawsFor(token);
      assert draws[1..] == DrawsFor(token[1..]);
      EveryLetterStringIsSpelt(token[1..]);
      assert token == [token[0]] + token[1..];
    }
  }
}
