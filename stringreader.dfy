/**
 * The character source of the number and date decoders: it hands out the
 * characters of a string one by one and then the NUL character for ever.
 *
 * Because the decoders treat NUL as the end of their input, only the part of
 * the string before its first NUL (`UpToNul`) ever matters to them.
 */
module StringReaders {
  import opened Macros

  /** What the (k+1)-th call of `next` returns on the string s. */
  function CharAt(s: string, k: nat): (c: char)
    ensures k < |s| ==> c == s[k]
    ensures k >= |s| ==> c == END
  {
    if k < |s| then s[k] else END
  }

  /** The longest prefix of s without a NUL character. */
  function UpToNul(s: string): (t: string)
    ensures t <= s
    ensures END !in t
    ensures |t| < |s| ==> s[|t|] == END
  {
    if s == [] || s[0] == END then [] else [s[0]] + UpToNul(s[1..])
  }

  /**
   * Up to and including the first NUL, the characters `next` returns on s are
   * those it returns on `UpToNul(s)`: an embedded NUL looks like the end.
   */
  lemma NulEndsInput(s: string, k: nat)
    requires k <= |UpToNul(s)|
    ensures CharAt(s, k) == CharAt(UpToNul(s), k)
    ensures CharAt(s, k) == END <==> k == |UpToNul(s)|
  {
  }

  /** A text without NUL is read in full. */
  lemma {:induction false} NoNulReadInFull(s: string)
    requires END !in s
    ensures UpToNul(s) == s
  {
    if s != [] {
      NoNulReadInFull(s[1..]);
    }
  }

  class StringReader {
    const chars: seq<char>
    var pos: nat

    ghost predicate Valid()
      reads this
    {
      pos <= |chars|
    }

    constructor (s: string)
      ensures Valid() && chars == s && pos == 0
    {
      chars := s;
      pos := 0;
    }

    /** The next character in order, then NUL once (and every time after) the input is exhausted. */
    method Next() returns (c: char)
      requires Valid()
      modifies this
      ensures Valid()
      ensures c == CharAt(chars, old(pos))
      ensures pos == if old(pos) < |chars| then old(pos) + 1 else old(pos)
    {
      if pos < |chars| {
        c := chars[pos];
        pos := pos + 1;
      } else {
        c := END;
      }
    }
  }
}
