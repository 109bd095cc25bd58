/** The two format checks of the server: `validarCPF` and
    `validarMacAddress`. */
module Validators {
  import opened Text

  /** `validarCPF`: strip every non-digit and accept when exactly eleven
      digits remain. No check digit is computed. */
  predicate ValidCpf(cpf: string) {
    |Digits(cpf)| == 11
  }

  /** The CPF rule read as a count: accepted iff exactly eleven positions of
      the string hold a decimal digit, whatever else it contains. */
  lemma ValidCpfCountsDigits(cpf: string)
    ensures ValidCpf(cpf) <==> |DigitPositions(cpf)| == 11
  {
    DigitsCountPositions(cpf);
  }

  /** Letters and punctuation are discarded, never rejected: inserting a
      non-digit anywhere does not change the verdict. */
  lemma ValidCpfIgnoresNonDigit(a: string, c: char, b: string)
    requires !IsDigit(c)
    ensures ValidCpf(a + [c] + b) <==> ValidCpf(a + b)
  {
    DigitsAppend(a + [c], b);
    DigitsAppend(a, [c]);
    DigitsAppend(a, b);
  }

  /** Digits surrounded by text without digits: accepted iff there are
      eleven of them. */
  lemma ValidCpfAmidNonDigits(a: string, d: string, b: string)
    requires forall i :: 0 <= i < |a| ==> !IsDigit(a[i])
    requires forall i :: 0 <= i < |d| ==> IsDigit(d[i])
    requires forall i :: 0 <= i < |b| ==> !IsDigit(b[i])
    ensures ValidCpf(a + d + b) <==> |d| == 11
  {
    DigitsOfNonDigits(a);
    DigitsOfDigits(d);
    DigitsOfNonDigits(b);
    DigitsAppend(a, d);
    DigitsAppend(a + d, b);
  }

  /** The accepted CPF cases of the server's tests. */
  lemma CpfAcceptedExamples()
    ensures ValidCpf("12345678901")
    ensures ValidCpf("abc12345678901xyz")
  {
    ValidCpfAmidNonDigits("abc", "12345678901", "xyz");
    assert "abc" + "12345678901" + "xyz" == "abc12345678901xyz";
  }

  /** Digit groups joined by single non-digit characters: accepted iff the
      groups hold eleven digits in all. */
  lemma ValidCpfGrouped(a: string, b: string, c: string, d: string, sep: char)
    requires !IsDigit(sep)
    requires forall i :: 0 <= i < |a| ==> IsDigit(a[i])
    requires forall i :: 0 <= i < |b| ==> IsDigit(b[i])
    requires forall i :: 0 <= i < |c| ==> IsDigit(c[i])
    requires forall i :: 0 <= i < |d| ==> IsDigit(d[i])
    ensures ValidCpf(a + [sep] + b + [sep] + c + [sep] + d) <==> |a| + |b| + |c| + |d| == 11
  {
    DigitsOfDigits(a);
    DigitsOfDigits(b);
    DigitsOfDigits(c);
    DigitsOfDigits(d);
    DigitsOfNonDigits([sep]);
    DigitsAppend(a, [sep]);
    DigitsAppend(a + [sep], b);
    DigitsAppend(a + [sep] + b, [sep]);
    DigitsAppend(a + [sep] + b + [sep], c);
    DigitsAppend(a + [sep] + b + [sep] + c, [sep]);
    DigitsAppend(a + [sep] + b + [sep] + c + [sep], d);
  }

  /** Accepted by the server's tests: a CPF written in four space-separated
      groups. */
  lemma CpfWithSpacesExample()
    ensures ValidCpf("123 456 789 01")
  {
    ValidCpfGrouped("123", "456", "789", "01", ' ');
    assert "123" + [' '] + "456" + [' '] + "789" + [' '] + "01" == "123 456 789 01";
  }

  /** Rejected by the server's tests: one digit short. */
  lemma CpfTooShortExample()
    ensures !ValidCpf("1234567890")
  {
    ValidCpfAmidNonDigits("", "1234567890", "");
    assert "" + "1234567890" + "" == "1234567890";
  }

  /** Rejected by the server's tests: one digit over. */
  lemma CpfTooLongExample()
    ensures !ValidCpf("123456789012")
  {
    ValidCpfAmidNonDigits("", "123456789012", "");
    assert "" + "123456789012" + "" == "123456789012";
  }

  /** Rejected by the server's tests: no digits at all. */
  lemma CpfNoDigitExamples()
    ensures !ValidCpf("")
    ensures !ValidCpf("abc.def.ghi-jk")
  {
    ValidCpfAmidNonDigits("abc.def.ghi-jk", "", "");
    assert "abc.def.ghi-jk" + "" + "" == "abc.def.ghi-jk";
  }

  /** The separator class `[:-]`. */
  predicate IsSeparator(c: char) {
    c == ':' || c == '-'
  }

  /** The whole of `s` matches `([0-9A-Fa-f]{2}[:-]){k}([0-9A-Fa-f]{2})`:
      `k` groups each followed by a separator, then one last group. */
  predicate MatchesGroups(s: string, k: nat)
    decreases k
  {
    if k == 0 then
      |s| == 2 && IsHexDigit(s[0]) && IsHexDigit(s[1])
    else
      && |s| >= 3
      && IsHexDigit(s[0]) && IsHexDigit(s[1]) && IsSeparator(s[2])
      && MatchesGroups(s[3..], k - 1)
  }

  /** `validarMacAddress`: the anchored pattern
      `^([0-9A-Fa-f]{2}[:-]){5}([0-9A-Fa-f]{2})$`. Each separator is chosen
      on its own, so `:` and `-` may be mixed in one address. */
  predicate ValidMac(mac: string) {
    MatchesGroups(mac, 5)
  }

  /** Position by position: every third character, counting from index 2,
      is a separator and every other one is a hex digit. */
  predicate GroupShaped(s: string) {
    forall i :: 0 <= i < |s| ==>
      if i % 3 == 2 then IsSeparator(s[i]) else IsHexDigit(s[i])
  }

  /** The pattern with `k` separated groups is exactly the positional shape
      of length `3k + 2`. */
  lemma {:induction false} MatchesGroupsIffShaped(s: string, k: nat)
    ensures MatchesGroups(s, k) <==> |s| == 3 * k + 2 && GroupShaped(s)
    decreases k
  {
    if k > 0 && |s| >= 3 {
      MatchesGroupsIffShaped(s[3..], k - 1);
      var t := s[3..];
      assert forall i :: 3 <= i < |s| ==> s[i] == t[i - 3] && (i - 3) % 3 == i % 3;
      if GroupShaped(s) {
        assert GroupShaped(t) by {
          forall j | 0 <= j < |t|
            ensures if j % 3 == 2 then IsSeparator(t[j]) else IsHexDigit(t[j])
          {
            assert t[j] == s[j + 3] && (j + 3) % 3 == j % 3;
          }
        }
        assert IsHexDigit(s[0]) && IsHexDigit(s[1]) && IsSeparator(s[2]) by {
          assert 0 % 3 == 0 && 1 % 3 == 1 && 2 % 3 == 2;
        }
      }
    } else if k > 0 {
      assert !MatchesGroups(s, k);
    }
  }

  /** The separator positions of a MAC address. */
  predicate IsSeparatorIndex(i: int) {
    i == 2 || i == 5 || i == 8 || i == 11 || i == 14
  }

  /** MAC acceptance, both directions: length 17, a `:` or `-` at positions
      2, 5, 8, 11 and 14, and a hex digit of either case everywhere else. */
  lemma ValidMacIffPositions(mac: string)
    ensures ValidMac(mac) <==>
      && |mac| == 17
      && (forall i :: 0 <= i < |mac| && IsSeparatorIndex(i) ==> IsSeparator(mac[i]))
      && (forall i :: 0 <= i < |mac| && !IsSeparatorIndex(i) ==> IsHexDigit(mac[i]))
  {
    MatchesGroupsIffShaped(mac, 5);
    assert forall i :: 0 <= i < 17 ==> (IsSeparatorIndex(i) <==> i % 3 == 2);
  }

  /** Anything that is not 17 characters long is rejected: this covers the
      missing separators, a missing group and a one-digit group. */
  lemma MacRejectsWrongLength(mac: string)
    requires |mac| != 17
    ensures !ValidMac(mac)
  {
    MatchesGroupsIffShaped(mac, 5);
  }

  /** A character outside the hex class where a digit belongs is rejected,
      and so is anything but `:` or `-` where a separator belongs. */
  lemma MacRejectsMisplacedChar(mac: string, i: int)
    requires 0 <= i < |mac|
    requires if IsSeparatorIndex(i) then !IsSeparator(mac[i]) else !IsHexDigit(mac[i])
    ensures !ValidMac(mac)
  {
    ValidMacIffPositions(mac);
  }

  /** A MAC address written out group by group is accepted. */
  lemma ValidMacFromGroups(mac: string)
    requires |mac| == 17
    requires IsHexDigit(mac[0]) && IsHexDigit(mac[1]) && IsSeparator(mac[2])
    requires IsHexDigit(mac[3]) && IsHexDigit(mac[4]) && IsSeparator(mac[5])
    requires IsHexDigit(mac[6]) && IsHexDigit(mac[7]) && IsSeparator(mac[8])
    requires IsHexDigit(mac[9]) && IsHexDigit(mac[10]) && IsSeparator(mac[11])
    requires IsHexDigit(mac[12]) && IsHexDigit(mac[13]) && IsSeparator(mac[14])
    requires IsHexDigit(mac[15]) && IsHexDigit(mac[16])
    ensures ValidMac(mac)
  {
    ValidMacIffPositions(mac);
  }

  /** Accepted by the server's tests: colons, in either letter case. */
  lemma MacAcceptedColonExamples()
    ensures ValidMac("AA:BB:CC:DD:EE:FF")
    ensures ValidMac("aa:bb:cc:dd:ee:ff")
    ensures ValidMac("Aa:Bb:Cc:Dd:Ee:Ff")
  {
    ValidMacFromGroups("AA:BB:CC:DD:EE:FF");
    ValidMacFromGroups("aa:bb:cc:dd:ee:ff");
    ValidMacFromGroups("Aa:Bb:Cc:Dd:Ee:Ff");
  }

  /** Accepted by the server's tests: hyphens, digits only, and an address
      that mixes `:` and `-`. */
  lemma MacAcceptedOtherExamples()
    ensures ValidMac("AA-BB-CC-DD-EE-FF")
    ensures ValidMac("00:11:22:33:44:55")
    ensures ValidMac("AA:BB-CC:DD-EE:FF")
  {
    ValidMacFromGroups("AA-BB-CC-DD-EE-FF");
    ValidMacFromGroups("00:11:22:33:44:55");
    ValidMacFromGroups("AA:BB-CC:DD-EE:FF");
  }

  /** The rejected MAC cases of the server's tests: no separators, five
      groups, a one-digit group, non-hex letters, the empty string. */
  lemma MacRejectedExamples()
    ensures !ValidMac("AABBCCDDEEFF")
    ensures !ValidMac("AA:BB:CC:DD:EE")
    ensures !ValidMac("A:BB:CC:DD:EE:FF")
    ensures !ValidMac("GG:HH:II:JJ:KK:LL")
    ensures !ValidMac("")
    ensures !ValidMac("null")
  {
    MacRejectsWrongLength("AABBCCDDEEFF");
    MacRejectsWrongLength("AA:BB:CC:DD:EE");
    MacRejectsWrongLength("A:BB:CC:DD:EE:FF");
    MacRejectsWrongLength("");
    MacRejectsWrongLength("null");
    MacRejectsMisplacedChar("GG:HH:II:JJ:KK:LL", 0);
  }

  /** Upper-casing a MAC address the server accepted yields one it still
      accepts, with the separators where they were. */
  lemma ValidMacUpper(mac: string)
    requires ValidMac(mac)
    ensures ValidMac(Upper(mac))
    ensures forall i :: 0 <= i < |mac| && IsSeparatorIndex(i) ==> Upper(mac)[i] == mac[i]
  {
    ValidMacIffPositions(mac);
    ValidMacIffPositions(Upper(mac));
    forall i | 0 <= i < |mac|
      ensures IsHexDigit(Upper(mac)[i]) <==> IsHexDigit(mac[i])
    {
      UpperKeepsClasses(mac[i]);
    }
  }
}
