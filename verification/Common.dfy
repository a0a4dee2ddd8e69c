/** Types and predicates shared by all parts of the model. */
module Common {

  datatype Option<+T> = None | Some(value: T)

  /** Where a run of steps leads: to a state, or nowhere when one of its steps was not enabled. */
  datatype Reach<+S> = Reached(state: S) | Stuck

  predicate IsHexDigit(ch: char) {
    '0' <= ch <= '9' || 'a' <= ch <= 'f' || 'A' <= ch <= 'F'
  }

  /** The form of an address: 0x and forty hexadecimal digits, in either letter case. */
  predicate IsAgentAddress(s: string) {
    |s| == 42 && s[..2] == "0x" && forall i :: 2 <= i < 42 ==> IsHexDigit(s[i])
  }

  predicate SameLetter(x: char, y: char) {
    x == y || ('A' <= x <= 'Z' && y as int == x as int + 32) || ('A' <= y <= 'Z' && x as int == y as int + 32)
  }

  /** Two strings that differ at most in the case of letters. */
  predicate SameUpToCase(a: string, b: string) {
    |a| == |b| && forall i :: 0 <= i < |a| ==> SameLetter(a[i], b[i])
  }

  const HEX_DIGITS: string := "0123456789abcdefABCDEF"

  lemma HexDigits()
    ensures forall ch: char :: IsHexDigit(ch) <==> ch in HEX_DIGITS
  {
    assert HEX_DIGITS == ['0', '1', '2', '3', '4', '5', '6', '7', '8', '9', 'a', 'b', 'c', 'd', 'e', 'f',
                          'A', 'B', 'C', 'D', 'E', 'F'];
    forall ch: char
      ensures IsHexDigit(ch) <==> ch in HEX_DIGITS
    {
      if '0' <= ch <= '9' {
        assert ch == HEX_DIGITS[ch as int - '0' as int];
      } else if 'a' <= ch <= 'f' {
        assert ch == HEX_DIGITS[ch as int - 'a' as int + 10];
      } else if 'A' <= ch <= 'F' {
        assert ch == HEX_DIGITS[ch as int - 'A' as int + 16];
      }
    }
  }

  /** An address is 0x and forty characters of these. */
  lemma AddressIff(s: string)
    ensures IsAgentAddress(s) <==>
            |s| == 42 && s[0] == '0' && s[1] == 'x' && forall i :: 2 <= i < 42 ==> s[i] in HEX_DIGITS
  {
    assert forall ch: char :: IsHexDigit(ch) <==> ch in HEX_DIGITS by {
      HexDigits();
    }
    if |s| == 42 {
      assert s[..2] == [s[0], s[1]];
    }
  }

  /** An address stays one in either letter case, as long as it begins with 0x. */
  lemma AddressInEitherCase(s: string, t: string)
    requires IsAgentAddress(s) && SameUpToCase(s, t) && t[1] == 'x'
    ensures IsAgentAddress(t)
  {
    assert SameLetter(s[0], t[0]) && s[..2][0] == '0';
    assert t[..2] == "0x";
    forall i | 2 <= i < 42
      ensures IsHexDigit(t[i])
    {
      assert IsHexDigit(s[i]) && SameLetter(s[i], t[i]);
    }
  }
}
