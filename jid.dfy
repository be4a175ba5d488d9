/** Recipient addresses as `sendMessage` and `sendGroupMessage` build them:
    a phone number becomes `62…@s.whatsapp.net`, a group id `…@g.us`. */
module Jid {
  import opened StrUtil

  const CountryCode: string := "62"
  const PersonalSuffix: string := "@s.whatsapp.net"
  const GroupSuffix: string := "@g.us"

  /** `phoneNumber.replace(/[^\d]/g, '')`: the digits of `s`, in order. */
  function DigitsOnly(s: string): (r: string)
    ensures |r| <= |s|
    ensures AllDigits(r)
    ensures AllDigits(s) ==> r == s
  {
    if s == [] then []
    else
      var rest := DigitsOnly(s[1..]);
      if IsDigit(s[0]) then [s[0]] + rest else rest
  }

  /** Stripping distributes over concatenation: together with the one-character
      case this says exactly which characters survive, and in what order. */
  lemma {:induction false} DigitsOnlyAppend(a: string, b: string)
    ensures DigitsOnly(a + b) == DigitsOnly(a) + DigitsOnly(b)
  {
    if a == [] {
      assert a + b == b;
    } else {
      assert (a + b)[1..] == a[1..] + b;
      DigitsOnlyAppend(a[1..], b);
    }
  }

  lemma DigitsOnlySingle(c: char)
    ensures DigitsOnly([c]) == if IsDigit(c) then [c] else []
  {
  }

  /** The number part of the personal address: digits only, and a leading
      trunk `0` replaced by the country code, which is prepended when absent. */
  function NormalizePhone(phoneNumber: string): (r: string)
    ensures AllDigits(r)
    ensures StartsWith(r, CountryCode)
    ensures var d := DigitsOnly(phoneNumber);
      && (StartsWith(d, CountryCode) ==> r == d)
      && (!StartsWith(d, CountryCode) && StartsWith(d, "0") ==> r == CountryCode + d[1..])
      && (!StartsWith(d, CountryCode) && !StartsWith(d, "0") ==> r == CountryCode + d)
  {
    var d := DigitsOnly(phoneNumber);
    if StartsWith(d, CountryCode) then d
    else if StartsWith(d, "0") then CountryCode + d[1..]
    else CountryCode + d
  }

  /** Normalising a normalised number changes nothing. */
  lemma NormalizePhoneIdempotent(phoneNumber: string)
    ensures NormalizePhone(NormalizePhone(phoneNumber)) == NormalizePhone(phoneNumber)
  {
  }

  /** `${formattedNumber}@s.whatsapp.net`. */
  function PersonalJid(phoneNumber: string): (jid: string)
    ensures |jid| > |PersonalSuffix| && jid[|jid| - |PersonalSuffix|..] == PersonalSuffix
    ensures AllDigits(jid[..|jid| - |PersonalSuffix|])
  {
    var n := NormalizePhone(phoneNumber);
    assert (n + PersonalSuffix)[..|n|] == n;
    n + PersonalSuffix
  }

  /** The group suffix does not occur at any one index of a digit string
      followed by the personal suffix: an occurrence would have to start on a
      digit, or on a suffix character other than `@`. */
  lemma NoGroupSuffixAt(n: string, i: nat)
    requires AllDigits(n)
    ensures !OccursAt(n + PersonalSuffix, GroupSuffix, i)
  {
    var jid := n + PersonalSuffix;
    if i + |GroupSuffix| <= |jid| {
      var w := jid[i..i + |GroupSuffix|];
      if i < |n| {
        assert w[0] == jid[i] == n[i];
        assert IsDigit(n[i]);
        assert w[0] != GroupSuffix[0];
      } else {
        var j := i - |n|;
        assert j + 1 < |PersonalSuffix|;
        assert w[1] == jid[i + 1] == PersonalSuffix[j + 1];
        assert PersonalSuffix[j + 1] != 'g';
        assert w[1] != GroupSuffix[1];
      }
    }
  }

  /** A personal address is the country code, digits, then the suffix, so it
      never carries the group suffix. */
  lemma PersonalJidShape(phoneNumber: string)
    ensures StartsWith(PersonalJid(phoneNumber), CountryCode)
    ensures !Contains(PersonalJid(phoneNumber), GroupSuffix)
  {
    var n := NormalizePhone(phoneNumber);
    var jid := n + PersonalSuffix;
    assert jid[..2] == n[..2];
    forall i: nat ensures !OccursAt(jid, GroupSuffix, i) {
      NoGroupSuffixAt(n, i);
    }
  }

  /** `groupId.includes('@g.us') ? groupId : `${groupId}@g.us``. */
  function GroupJid(groupId: string): (jid: string)
    ensures Contains(groupId, GroupSuffix) ==> jid == groupId
    ensures !Contains(groupId, GroupSuffix) ==> jid == groupId + GroupSuffix
    ensures Contains(jid, GroupSuffix)
  {
    ContainsConcat(GroupSuffix, groupId);
    if Contains(groupId, GroupSuffix) then groupId else groupId + GroupSuffix
  }

  /** A group address is left as it is. */
  lemma GroupJidIdempotent(groupId: string)
    ensures GroupJid(GroupJid(groupId)) == GroupJid(groupId)
  {
  }

  /** A local number with its trunk `0` gets the country code instead. */
  lemma TrunkPrefixReplaced(rest: string)
    requires AllDigits(rest)
    ensures PersonalJid("0" + rest) == CountryCode + rest + PersonalSuffix
  {
    var d := "0" + rest;
    assert AllDigits(d);
    assert |d| >= 2 ==> d[..2][0] == '0';
    assert d[..1] == "0" && d[1..] == rest;
  }

  /** A number that already carries the country code keeps it. */
  lemma CountryCodeKept(rest: string)
    requires AllDigits(rest)
    ensures PersonalJid(CountryCode + rest) == CountryCode + rest + PersonalSuffix
  {
    var d := CountryCode + rest;
    assert AllDigits(d);
    assert d[..2] == CountryCode;
  }

  /** One step of the stripping, first character first. */
  lemma DigitsOnlyCons(c: char, s: string)
    ensures DigitsOnly([c] + s) == (if IsDigit(c) then [c] else []) + DigitsOnly(s)
  {
    assert ([c] + s)[1..] == s;
  }

  /** A `+` in front and `-` separators make no difference to the address. */
  lemma {:induction false} PunctuationIgnored(a: string, b: string)
    ensures PersonalJid("+" + a + "-" + b) == PersonalJid(a + b)
  {
    assert "+" + a + "-" + b == "+" + (a + ("-" + b));
    DigitsOnlyCons('+', a + ("-" + b));
    DigitsOnlyAppend(a, "-" + b);
    DigitsOnlyCons('-', b);
    DigitsOnlyAppend(a, b);
  }
}
