// maskToken of the API's entry point: how the configured token is shown
// in the logs. Go strings are byte strings and len/slicing count bytes.

module ApiMain {
  newtype Byte = b: int | 0 <= b < 256

  const Stars: seq<Byte> := [42, 42, 42]   // "***"
  const Dots: seq<Byte> := [46, 46, 46]    // "..."

  /** maskToken: short tokens are hidden entirely, longer ones show their
      first and last four bytes. */
  function MaskToken(token: seq<Byte>): (r: seq<Byte>)
    ensures |token| <= 8 ==> r == Stars
    ensures |token| > 8 ==> r == token[..4] + Dots + token[|token| - 4..]
  {
    if |token| <= 8 then Stars else token[..4] + Dots + token[|token| - 4..]
  }

  /** The mask is three or eleven bytes long, whatever the token. */
  lemma MaskLength(token: seq<Byte>)
    ensures |MaskToken(token)| == 3 || |MaskToken(token)| == 11
    ensures |MaskToken(token)| == 11 <==> |token| > 8
  {
  }

  /** A short token reveals nothing: every token of at most 8 bytes,
      the empty one included, masks alike. */
  lemma ShortTokensIndistinguishable(a: seq<Byte>, b: seq<Byte>)
    requires |a| <= 8 && |b| <= 8
    ensures MaskToken(a) == MaskToken(b)
  {
  }

  /** A long token never shows all its bytes: its fifth byte can be changed
      without changing the mask. */
  lemma LongTokenHidesAByte(token: seq<Byte>) returns (other: seq<Byte>)
    requires |token| > 8
    ensures other != token && |other| == |token|
    ensures MaskToken(other) == MaskToken(token)
  {
    var b: Byte := if token[4] == 0 then 1 else 0;
    other := token[4 := b];
    assert other[..4] == token[..4];
    assert other[|other| - 4..] == token[|token| - 4..];
    assert other[4] != token[4];
  }

  /** The mask keeps the first and last four bytes of a long token, around
      the dots. */
  lemma LongTokenShowsEnds(token: seq<Byte>)
    requires |token| > 8
    ensures MaskToken(token)[..4] == token[..4]
    ensures MaskToken(token)[4..7] == Dots
    ensures MaskToken(token)[7..] == token[|token| - 4..]
  {
  }
}
