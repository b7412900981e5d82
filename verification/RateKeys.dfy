/** What the rate limiter counts together: when two attempts have the same key. */
module RateKeys {
  import opened CodeText
  import opened Handlers

  /** One address continues the other with a colon, and the other attempt's name begins with what continues it. */
  ghost predicate Overlap(ip: string, name: string, other: string, otherName: string) {
    exists rest: string :: other == ip + ":" + rest && name == rest + ":" + otherName
  }

  /** Joining by a colon forgets where the first part ends exactly in these cases. */
  lemma JoinedIff(ip: string, name: string, other: string, otherName: string)
    ensures ip + ":" + name == other + ":" + otherName
            <==> (ip == other && name == otherName)
                 || Overlap(ip, name, other, otherName) || Overlap(other, otherName, ip, name)
  {
    var s, t := ip + ":" + name, other + ":" + otherName;
    if s == t {
      if |ip| < |other| {
        ShorterOverlaps(ip, name, other, otherName);
      } else if |other| < |ip| {
        ShorterOverlaps(other, otherName, ip, name);
      } else {
        assert s[..|ip|] == ip && t[..|ip|] == other && s[|ip| + 1..] == name && t[|ip| + 1..] == otherName;
      }
    }
    if rest: string :| other == ip + ":" + rest && name == rest + ":" + otherName {
      assert ip + ":" + (rest + ":" + otherName) == ip + ":" + rest + ":" + otherName;
    }
    if rest: string :| ip == other + ":" + rest && otherName == rest + ":" + name {
      assert other + ":" + (rest + ":" + name) == other + ":" + rest + ":" + name;
    }
  }

  lemma ShorterOverlaps(ip: string, name: string, other: string, otherName: string)
    requires ip + ":" + name == other + ":" + otherName && |ip| < |other|
    ensures Overlap(ip, name, other, otherName)
  {
    var s, t := ip + ":" + name, other + ":" + otherName;
    var rest := other[|ip| + 1..];
    assert s[..|ip|] == ip && t[..|ip|] == other[..|ip|] && s[|ip|] == ':' && t[|ip|] == other[|ip|];
    assert other == ip + ":" + rest;
    assert s[|ip| + 1..] == name && t[|ip| + 1..] == rest + ":" + otherName;
  }

  lemma AfterPrefixesIff(prefix: string, a: string, b: string)
    ensures prefix + a == prefix + b <==> a == b
  {
    assert (prefix + a)[|prefix|..] == a && (prefix + b)[|prefix|..] == b;
  }

  /** Password attempts are counted together exactly for the same address and identifier, or when these overlap. */
  lemma PasswordKeysAgreeIff(ip: string, identifier: string, other: string, otherIdentifier: string)
    ensures PasswordKey(ip, identifier) == PasswordKey(other, otherIdentifier)
            <==> (ip == other && identifier == otherIdentifier)
                 || Overlap(ip, identifier, other, otherIdentifier) || Overlap(other, otherIdentifier, ip, identifier)
  {
    assert PasswordKey(ip, identifier) == "password:" + (ip + ":" + identifier);
    assert PasswordKey(other, otherIdentifier) == "password:" + (other + ":" + otherIdentifier);
    AfterPrefixesIff("password:", ip + ":" + identifier, other + ":" + otherIdentifier);
    JoinedIff(ip, identifier, other, otherIdentifier);
  }

  /** The same for second-factor attempts and user ids. */
  lemma SecondFactorKeysAgreeIff(ip: string, userID: string, other: string, otherID: string)
    ensures SecondFactorKey(ip, userID) == SecondFactorKey(other, otherID)
            <==> (ip == other && userID == otherID)
                 || Overlap(ip, userID, other, otherID) || Overlap(other, otherID, ip, userID)
  {
    assert SecondFactorKey(ip, userID) == "second-factor:" + (ip + ":" + userID);
    assert SecondFactorKey(other, otherID) == "second-factor:" + (other + ":" + otherID);
    AfterPrefixesIff("second-factor:", ip + ":" + userID, other + ":" + otherID);
    JoinedIff(ip, userID, other, otherID);
  }

  /** And for code requests, which are always counted apart by purpose. */
  lemma CodeKeysAgreeIff(
    ip: string, recipient: string, purpose: string, other: string, otherRecipient: string, otherPurpose: string)
    requires ValidCodePurpose(purpose) && ValidCodePurpose(otherPurpose)
    ensures CodeKey(ip, recipient, purpose) == CodeKey(other, otherRecipient, otherPurpose)
            <==> purpose == otherPurpose
                 && ((ip == other && recipient == otherRecipient)
                     || Overlap(ip, recipient, other, otherRecipient) || Overlap(other, otherRecipient, ip, recipient))
  {
    var a, b := ip + ":" + recipient, other + ":" + otherRecipient;
    assert CodeKey(ip, recipient, purpose) == "code:" + (a + ":" + purpose);
    assert CodeKey(other, otherRecipient, otherPurpose) == "code:" + (b + ":" + otherPurpose);
    AfterPrefixesIff("code:", a + ":" + purpose, b + ":" + otherPurpose);
    PurposeHasNoColon(purpose);
    PurposeHasNoColon(otherPurpose);
    hide ValidCodePurpose;
    if a + ":" + purpose == b + ":" + otherPurpose {
      LastColonSplits(a, purpose, b, otherPurpose);
    }
    JoinedIff(ip, recipient, other, otherRecipient);
  }

  /** Only a name with a colon can overlap: all others are counted together with themselves alone. */
  lemma OverlapNeedsColon(ip: string, name: string, other: string, otherName: string)
    requires Overlap(ip, name, other, otherName)
    ensures ':' in name && |ip| < |other|
  {
    var rest: string :| other == ip + ":" + rest && name == rest + ":" + otherName;
    assert name[|rest|] == ':';
  }

  /** The three kinds of attempt are never counted together. */
  lemma KindsAreApart(ip: string, name: string, other: string, otherName: string, third: string, purpose: string)
    ensures PasswordKey(ip, name) != SecondFactorKey(other, otherName)
    ensures PasswordKey(ip, name) != CodeKey(other, third, purpose)
    ensures SecondFactorKey(ip, name) != CodeKey(other, third, purpose)
  {
    assert PasswordKey(ip, name)[0] == 'p' && SecondFactorKey(ip, name)[0] == 's';
    assert SecondFactorKey(other, otherName)[0] == 's' && CodeKey(other, third, purpose)[0] == 'c';
  }

  /** An input where attempts at two identifiers from two addresses share one count. */
  lemma SharedCount()
    ensures PasswordKey("fe80::1", "2:ada") == PasswordKey("fe80::1:2", "ada")
  {
    assert Overlap("fe80::1", "2:ada", "fe80::1:2", "ada") by {
      var rest: string := "2";
      assert "fe80::1:2" == "fe80::1" + ":" + rest && "2:ada" == rest + ":" + "ada";
    }
    PasswordKeysAgreeIff("fe80::1", "2:ada", "fe80::1:2", "ada");
  }
}
