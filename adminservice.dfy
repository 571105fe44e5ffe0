/**
 * `AdminService.ValidatePasswordStrengthAsync`: a password is strong when it is at least
 * six UTF-16 code units long and has an upper-case letter and a digit.
 */
module AdminServices {
  import opened Text

  /** The least `Length`, in UTF-16 code units, of a strong password. */
  const MinPasswordLength := 6

  /** `s.Any(p)`: scans the characters from the left until one satisfies `p`. */
  function AnyChar(s: string, p: char -> bool): (r: bool)
    ensures r <==> Any(s, p)
  {
    if |s| == 0 then false
    else if p(s[0]) then true
    else
      var r := AnyChar(s[1..], p);
      assert Any(s, p) ==> Any(s[1..], p) by {
        if Any(s, p) {
          var i :| 0 <= i < |s| && p(s[i]);
          assert s[1..][i - 1] == s[i];
        }
      }
      r
  }

  /** `ValidatePasswordStrengthAsync`: long enough, with an upper-case letter and a digit. */
  function ValidatePasswordStrength(password: string): (ok: bool)
    ensures ok <==> Utf16Length(password) >= MinPasswordLength &&
                    (exists i :: 0 <= i < |password| && IsAsciiUpper(password[i])) &&
                    (exists j :: 0 <= j < |password| && IsAsciiDigit(password[j]))
  {
    if |password| == 0 || Utf16Length(password) < MinPasswordLength then false
    else AnyChar(password, IsAsciiUpper) && AnyChar(password, IsAsciiDigit)
  }

  /** Adding characters to a strong password leaves it strong. */
  lemma ExtendingKeepsStrong(password: string, more: string)
    requires ValidatePasswordStrength(password)
    ensures ValidatePasswordStrength(password + more)
  {
    var s := password + more;
    Utf16LengthAppend(password, more);
    var i :| 0 <= i < |password| && IsAsciiUpper(password[i]);
    var j :| 0 <= j < |password| && IsAsciiDigit(password[j]);
    assert s[i] == password[i] && s[j] == password[j];
  }

  /** A password of six or more characters with an upper-case letter and a digit passes. */
  lemma StrongExample()
    ensures ValidatePasswordStrength("Hostel1")
  {
    assert IsAsciiUpper("Hostel1"[0]) && IsAsciiDigit("Hostel1"[6]);
  }

  /** Without an upper-case letter the password fails. */
  lemma NoUpperExample()
    ensures !ValidatePasswordStrength("hostel1")
  {
    var s := "hostel1";
    assert s == ['h', 'o', 's', 't', 'e', 'l', '1'];
    assert forall i :: 0 <= i < |s| ==> !IsAsciiUpper(s[i]);
  }

  /** Without a digit the password fails. */
  lemma NoDigitExample()
    ensures !ValidatePasswordStrength("Hostels")
  {
    var s := "Hostels";
    assert s == ['H', 'o', 's', 't', 'e', 'l', 's'];
    assert forall i :: 0 <= i < |s| ==> !IsAsciiDigit(s[i]);
  }

  /**
   * Characters above U+FFFF count twice towards the length, as `string.Length` counts
   * UTF-16 code units: two letters and two emoji make six units, so the password passes.
   */
  lemma SupplementaryCharsCountTwice()
    ensures Utf16Length("A1\U{1F600}\U{1F600}") == 6
    ensures ValidatePasswordStrength("A1\U{1F600}\U{1F600}")
  {
    var s := "A1\U{1F600}\U{1F600}";
    assert s[..3][..2][..1] == "A" && s[..3][..2] == "A1" && s[..3] == "A1\U{1F600}";
    assert IsAsciiUpper(s[0]) && IsAsciiDigit(s[1]);
  }
}
