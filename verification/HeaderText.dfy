/** The character classes and numerals the header grammar rests on, against the characters themselves. */
module HeaderText {
  import opened Text
  import opened Forwarded

  /** The white space `str.strip()` removes, by code point. */
  lemma SpaceCodes(c: char)
    ensures IsSpace(c) <==>
              c as int in {9, 10, 11, 12, 13, 28, 29, 30, 31, 32, 133, 160, 5760, 8192, 8193, 8194, 8195, 8196, 8197,
                  8198, 8199,
                           8200, 8201, 8202, 8232, 8233, 8239, 8287, 12288}
  {
  }

  const MARKS := "!#$%&'*+-.^_`|~"
  const DIGITS := "0123456789"
  const UPPER := "ABCDEFGHIJKLMNOPQRSTUVWXYZ"
  const LOWER := "abcdefghijklmnopqrstuvwxyz"

  lemma MarkCharacters(c: char)
    ensures c in MARKS <==>
              || c in {'!', '#', '$', '%', '&', '\'', '*', '+', '-', '.', '^', '_', '`', '|', '~'}
  {
    var s := MARKS;
    assert |s| == 15;
    assert s[0] == '!' && s[1] == '#' && s[2] == '$' && s[3] == '%' && s[4] == '&' && s[5] == '\'' && s[6] == '*'
        && s[7] == '+';
    assert s[8] == '-' && s[9] == '.' && s[10] == '^' && s[11] == '_' && s[12] == '`' && s[13] == '|' && s[14] == '~';
  }

  /** `s` runs through the characters from `low` to `high`. */
  lemma RunOf(s: string, low: char, high: char, c: char)
    requires low <= high && |s| == high as int - low as int + 1 && forall i | 0 <= i < |s| ::
            s[i] as int == low as int + i
    ensures c in s <==> low <= c <= high
  {
    if low <= c <= high {
      assert s[c as int - low as int] == c;
    }
  }

  /** A token is made of exactly the token characters of section 3.2.6 of RFC 7230. */
  lemma TokenCharacters(c: char)
    ensures IsTokenChar(c) <==> c in MARKS || c in DIGITS || c in UPPER || c in LOWER
  {
    MarkCharacters(c);
    RunOf(DIGITS, '0', '9', c);
    RunOf(UPPER, 'A', 'Z', c);
    RunOf(LOWER, 'a', 'z', c);
  }

  /**
   Inside quotes a tab, a space or a visible or Latin-1 character may be escaped, which leaves out the other controls
   and DEL; unescaped, the quote and the backslash are left out as well.
   */
  lemma QuotedCharacters(c: char)
    ensures IsQuotedChar(c, true) <==> c == '\t' || (' ' <= c && c as int <= 255 && c as int != 127)
    ensures IsQuotedChar(c, false) <==> IsQuotedChar(c, true) && c != '"' && c != '\\'
  {
  }

  /** Names are compared without regard to ASCII case, and nothing else of ASCII is changed. */
  lemma LowerCase(i: nat, c: char)
    requires i < 26
    ensures LowerChar(UPPER[i]) == LOWER[i]
    ensures c as int < 128 && c !in UPPER ==> LowerChar(c) == c
  {
    RunOf(UPPER, 'A', 'Z', c);
  }

  /******* Ports *******/

  /** The decimal numeral of a number. */
  function Decimal(n: nat): (s: string)
    ensures s != [] && forall i | 0 <= i < |s| :: '0' <= s[i] <= '9'
  {
    var digit := [(48 + n % 10) as char];
    if n < 10 then digit else Decimal(n / 10) + digit
  }

  lemma {:induction false} DigitsOfDecimal(n: nat)
    ensures Digits(Decimal(n)) == n
  {
    var digit := (48 + n % 10) as char;
    if n < 10 {
      assert Decimal(n)[..0] == [];
    } else {
      DigitsOfDecimal(n / 10);
      var s := Decimal(n);
      assert s[..|s| - 1] == Decimal(n / 10) && s[|s| - 1] == digit;
    }
  }

  lemma {:induction false} DecimalLength(n: nat, length: nat, bound: nat)
    requires length > 0 && bound == Pow10(length)
    ensures |Decimal(n)| <= length <==> n < bound
    decreases length
  {
    if length == 1 {
      assert n >= 10 ==> |Decimal(n / 10)| >= 1;
    } else {
      DecimalLength(n / 10, length - 1, Pow10(length - 1));
    }
  }

  function Pow10(n: nat): nat { if n == 0 then 1 else 10 * Pow10(n - 1) }

  /** A numeral is a valid port if and only if it denotes at most 65535; the empty text is none. */
  lemma PortExactly(n: nat)
    ensures ValidPort(Decimal(n)) <==> n <= 65535
    ensures !ValidPort("")
  {
    DigitsOfDecimal(n);
    assert Pow10(5) == 100000;
    DecimalLength(n, 5, 100000);
  }

  /** The unknown node and obfuscated identifiers name no address, whatever the library says. */
  lemma UnsupportedNodes(ip: IpLibrary, value: string, quoted: bool)
    requires Lower(value) == "unknown" || (value != [] && value[0] == '_')
    ensures ParseNode(ip, value, quoted).None?
  {
  }
}
