/** Upper and lower case in cashaddr strings, bcash/BRBCashAddr.c. */
module CashAddrCase {
  import opened Wrappers
  import C = CashChecksum
  import opened CashAddr
  import opened CashAddrText

  function UpperOf(c: char): char {
    if 'a' <= c <= 'z' then (c as int - 32) as char else c
  }

  function Upper(s: string): (r: string)
    ensures |r| == |s| && forall k :: 0 <= k < |s| ==> r[k] == UpperOf(s[k])
  {
    seq(|s|, k requires 0 <= k < |s| => UpperOf(s[k]))
  }

  /** Letters of both cases. */
  ghost predicate IsMixed(s: string) {
    (exists k :: 0 <= k < |s| && 'a' <= s[k] <= 'z') && exists k :: 0 <= k < |s| && 'A' <= s[k] <= 'Z'
  }

  /** Everything that the decoder looks at is the same for a letter in upper case. */
  lemma SameLetter(c: char)
    ensures ToLower(UpperOf(c)) == ToLower(c)
    ensures IsPrintable(UpperOf(c)) <==> IsPrintable(c)
    ensures (UpperOf(c) == ':' <==> c == ':') && !IsLower(UpperOf(c))
  {
  }

  lemma SameLowBits(c: char)
    ensures Low5(UpperOf(c)) == Low5(c)
  {
    if 'a' <= c <= 'z' {
      assert (c as int - 32) % 32 == c as int % 32;
    }
  }

  lemma {:induction false} SameSeparator(s: string, sep: nat)
    ensures Separator(Upper(s), sep) == Separator(s, sep)
  {
    hide UpperOf;
    if sep > 0 {
      SameSeparator(s, sep - 1);
      if sep < |s| {
        SameLetter(s[sep]);
      }
    }
  }

  lemma {:induction false} SameValues(s: string)
    ensures Values(Upper(s)) == Values(s)
  {
    hide UpperOf, ToLower, Digit;
    if s != [] {
      var n := |s| - 1;
      SameValues(s[..n]);
      SameLetter(s[n]);
      assert Upper(s)[..n] == Upper(s[..n]);
    }
  }

  lemma SameLow5(s: string)
    ensures Low5All(Upper(s)) == Low5All(s) && Lower(Upper(s)) == Lower(s)
  {
    hide UpperOf, ToLower, Low5;
    forall k | 0 <= k < |s| ensures Low5(Upper(s)[k]) == Low5(s[k]) && ToLower(Upper(s)[k]) == ToLower(s[k]) {
      SameLetter(s[k]);
      SameLowBits(s[k]);
    }
  }

  /** A string with letters of both cases is refused, and any other decodes like its letters in upper case. */
  lemma CaseIsIgnored(addr: string)
    ensures if IsMixed(addr) then Decoded(addr) == None else Decoded(Upper(addr)) == Decoded(addr)
  {
    assert IsMixed(addr) <==> HasUpper(addr) && HasLower(addr) by { hide IsUpper, IsLower; MixedMeans(addr); }
    if !IsMixed(addr) {
      SameAccepted(addr);
      SameParts(addr);
      hide UpperOf, ToLower, Digit, StateOf, Values, IsAccepted, PrefixOf, Payload;
    }
  }

  lemma MixedMeans(s: string)
    ensures IsMixed(s) <==> HasUpper(s) && HasLower(s)
  {
  }

  lemma SameParts(addr: string)
    ensures Separator(Upper(addr), |addr|) == Separator(addr, |addr|)
    ensures Values(Payload(Upper(addr))) == Values(Payload(addr))
    ensures Low5All(PrefixOf(Upper(addr))) == Low5All(PrefixOf(addr)) && Lower(PrefixOf(Upper(addr))) == Lower(PrefixOf(addr))
  {
    SplitAlike(addr);
    hide UpperOf, ToLower, Digit, Values, Separator, Payload, PrefixOf, Low5, Upper, Low5All, Lower;
    SameSeparator(addr, |addr|);
    SameValues(Payload(addr));
    SameLow5(PrefixOf(addr));
  }

  lemma SplitAlike(addr: string)
    ensures PrefixOf(Upper(addr)) == Upper(PrefixOf(addr)) && Payload(Upper(addr)) == Upper(Payload(addr))
  {
    hide UpperOf, Separator;
    SameSeparator(addr, |addr|);
  }

  lemma SameAccepted(addr: string)
    requires !(HasUpper(addr) && HasLower(addr))
    ensures IsAccepted(Upper(addr)) <==> IsAccepted(addr)
  {
    hide UpperOf, ToLower, Digit, C.Fold, Values, Separator, Payload, PrefixOf, Low5;
    SameParts(addr);
    forall k | 0 <= k < |addr| ensures IsPrintable(Upper(addr)[k]) <==> IsPrintable(addr[k]) {
      SameLetter(addr[k]);
    }
    forall k | 0 <= k < |addr| ensures !IsLower(Upper(addr)[k]) {
      SameLetter(addr[k]);
    }
    assert !HasLower(Upper(addr));
  }

  /** The characters of an accepted string, and of a prefix that can be encoded, are printable and not blank; the
      latter has no upper-case letter. */
  lemma CharactersExactly(addr: string, hrp: string)
    ensures Decoded(addr).Some? ==> forall k :: 0 <= k < |addr| ==> ' ' < addr[k] <= '~'
    ensures IsPrefix(hrp) <==> forall k :: 0 <= k < |hrp| ==> '!' <= hrp[k] <= '@' || '[' <= hrp[k] <= '~'
  {
  }
}
