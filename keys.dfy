/** The lexical shape of verification and confirmation keys
    (usertools/managers.py, `SHA1_RE`) and the keys `generate_hash` hands out. */
module Keys {

  /** A character of the class `[a-f0-9]`. */
  predicate IsHexDigit(c: char) {
    '0' <= c <= '9' || 'a' <= c <= 'f'
  }

  /** Exactly forty lower-case hexadecimal digits: the shape of a SHA-1 hexdigest. */
  predicate IsSha1Hex(s: string) {
    |s| == 40 && forall i :: 0 <= i < |s| ==> IsHexDigit(s[i])
  }

  /** A key as `generate_hash` returns it. The hash itself (SHA-1 over the
      clock, a random salt and the username) is an oracle outside the model:
      all the model knows of its result is this shape. */
  type HashKey = s: string | IsSha1Hex(s)
    witness "0000000000000000000000000000000000000000"

  /** Length of the longest prefix of `s` made of hex digits. */
  function HexRun(s: string): (n: nat)
    ensures n <= |s|
    ensures forall i :: 0 <= i < n ==> IsHexDigit(s[i])
    ensures n < |s| ==> !IsHexDigit(s[n])
  {
    if s == [] || !IsHexDigit(s[0]) then 0 else 1 + HexRun(s[1..])
  }

  /** `SHA1_RE.search(s)` for the pattern `^[a-f0-9]{40}$`. Python's `$`
      matches at the end of the string and also just before a newline that
      ends it, so forty hex digits followed by one "\n" are accepted too. */
  function SearchSha1Re(s: string): (r: bool)
    ensures r <==> IsSha1Hex(s) || (|s| == 41 && IsSha1Hex(s[..40]) && s[40] == '\n')
    ensures r ==> s != "" && (|s| == 40 || |s| == 41)
  {
    var n := HexRun(s);
    n == 40 && (|s| == 40 || (|s| == 41 && s[40] == '\n'))
  }

  /** Every key the hash oracle can issue passes the shape check. */
  lemma IssuedKeysPassShapeCheck(k: HashKey)
    ensures SearchSha1Re(k)
  {
  }

  /** A key with a trailing newline passes the check as written. */
  lemma TrailingNewlinePasses(k: HashKey)
    ensures SearchSha1Re(k + "\n")
    ensures !IsSha1Hex(k + "\n")
  {
    assert (k + "\n")[..40] == k;
  }
}
