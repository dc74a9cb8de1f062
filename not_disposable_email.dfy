/**
 * The NotDisposableEmail validation rule: the text after the last '@' of the value,
 * lower-cased, is looked up in a fixed list of throw-away mail providers, and a
 * listed provider makes the rule report one failure.
 */
module NotDisposableEmail {
  import opened Wrappers
  import opened Text

  /** The blocked providers, in the order the rule lists them. */
  const BlockedDomains: seq<string> := [
    "10minutemail.com",
    "10minutemail.net",
    "10minutemail.org",
    "20minutemail.com",
    "33mail.com",
    "airmail.cc",
    "anonbox.net",
    "guerrillamail.com",
    "guerrillamail.net",
    "guerrillamail.org",
    "mailinator.com",
    "mailinator.net",
    "mailinator.org",
    "maildrop.cc",
    "maildrop.xyz",
    "mailnesia.com",
    "mintemail.com",
    "moakt.com",
    "mytemp.email",
    "noclickemail.com",
    "noref.in",
    "nospam.today",
    "nada.email",
    "getnada.com",
    "spambog.com",
    "spam4.me",
    "spamgourmet.com",
    "temp-mail.org",
    "temp-mail.com",
    "tempmail.dev",
    "tempmail.io",
    "tempmail.net",
    "tempinbox.com",
    "temp-mail.io",
    "throwawaymail.com",
    "trashmail.com",
    "trashmail.net",
    "yopmail.com",
    "yopmail.net",
    "yopmail.fr",
    "fakeinbox.com",
    "fakemail.net",
    "instant-mail.de",
    "sharklasers.com"
  ]

  /** The message handed to `$fail`; the framework substitutes `:attribute` later. */
  const FailMessage: string := "The :attribute provider is not allowed. Please use a valid email address."

  /** The position of the last occurrence of `c` in `s`, if there is one. */
  function LastIndexOf(s: string, c: char): (r: Option<nat>)
    ensures r.Some? ==> r.value < |s| && s[r.value] == c && c !in s[r.value + 1..]
    ensures r.None? ==> c !in s
  {
    if s == [] then None
    else if s[|s| - 1] == c then Some(|s| - 1)
    else LastIndexOf(s[..|s| - 1], c)
  }

  /** PHP's `strrchr($haystack, $needle)`: the tail from the last needle on, or false (None). */
  function Strrchr(haystack: string, needle: char): (r: Option<string>)
    ensures r.None? <==> needle !in haystack
    ensures r.Some? ==> |r.value| > 0 && r.value[0] == needle && needle !in r.value[1..]
    ensures r.Some? ==> |r.value| <= |haystack| && r.value == haystack[|haystack| - |r.value|..]
  {
    match LastIndexOf(haystack, needle)
    case None => None
    case Some(i) => Some(haystack[i..])
  }

  /**
   * `strtolower(substr(strrchr($value, "@"), 1))`: false from strrchr becomes the empty
   * string, and so does `substr` of it.
   */
  function Domain(value: string): (r: string)
    ensures '@' !in value ==> r == ""
    ensures '@' !in r
    ensures forall i :: 0 <= i < |r| ==> !('A' <= r[i] <= 'Z')
  {
    match Strrchr(value, '@')
    case None => ""
    case Some(tail) => ToLower(tail[1..])
  }

  /** `in_array($domain, $blockedDomains)`. */
  predicate IsDisposable(value: string)
    ensures IsDisposable(value) ==> '@' in value && Domain(value) != ""
  {
    BlocklistShape();
    Domain(value) in BlockedDomains
  }

  /**
   * `validate`: the messages passed to `$fail`, in call order.  A listed provider
   * produces exactly one call; any other value produces none.
   */
  function Validate(attribute: string, value: string): (failures: seq<string>)
    ensures |failures| <= 1
    ensures failures != [] <==> IsDisposable(value)
    ensures forall i :: 0 <= i < |failures| ==> failures[i] == FailMessage
  {
    if IsDisposable(value) then [FailMessage] else []
  }

  /** The domain is the lower-cased text after the position of the last '@'. */
  lemma DomainAt(value: string, i: nat)
    requires LastIndexOf(value, '@') == Some(i)
    ensures Domain(value) == ToLower(value[i + 1..])
  {
    assert value[i..][1..] == value[i + 1..];
  }

  /** A value without '@' has the empty domain. */
  lemma DomainWithoutAt(value: string)
    requires '@' !in value
    ensures Domain(value) == ""
  {
  }

  /** The domain is the lower-cased text after the last '@', however the value continues before it. */
  lemma DomainAfterLastAt(local: string, domain: string)
    requires '@' !in domain
    ensures Domain(local + "@" + domain) == ToLower(domain)
  {
    var value := local + "@" + domain;
    var i := |local|;
    assert value[i] == '@';
    assert value[i + 1..] == domain;
    assert LastIndexOf(value, '@') == Some(i);
  }

  /** The list has 44 entries and none of them is empty. */
  lemma BlocklistShape()
    ensures |BlockedDomains| == 44
    ensures "" !in BlockedDomains
  {
  }

  /** A value without '@' is never rejected. */
  lemma NoAtNeverRejected(attribute: string, value: string)
    requires '@' !in value
    ensures !IsDisposable(value)
    ensures Validate(attribute, value) == []
  {
    DomainWithoutAt(value);
    BlocklistShape();
  }

  /** A value is rejected exactly when its lower-cased text after the last '@' is listed. */
  lemma RejectedIff(local: string, domain: string)
    requires '@' !in domain
    ensures IsDisposable(local + "@" + domain) <==> ToLower(domain) in BlockedDomains
  {
    DomainAfterLastAt(local, domain);
  }

  /** The local part never changes the verdict. */
  lemma LocalPartIrrelevant(attribute: string, local1: string, local2: string, domain: string)
    requires '@' !in domain
    ensures Validate(attribute, local1 + "@" + domain) == Validate(attribute, local2 + "@" + domain)
  {
    DomainAfterLastAt(local1, domain);
    DomainAfterLastAt(local2, domain);
  }

  /** Lower-casing keeps every '@' where it was. */
  lemma {:induction false} LastAtUnderToLower(s: string)
    ensures LastIndexOf(ToLower(s), '@') == LastIndexOf(s, '@')
  {
    if s != [] {
      var n := |s| - 1;
      LowerCharAt(s[n]);
      ToLowerSlice(s, 0, n);
      assert ToLower(s)[..n] == ToLower(s[..n]);
      LastAtUnderToLower(s[..n]);
    }
  }

  /** The rule ignores case: a value and its lower-cased form have the same domain. */
  lemma CaseInsensitive(value: string)
    ensures Domain(ToLower(value)) == Domain(value)
    ensures IsDisposable(ToLower(value)) <==> IsDisposable(value)
  {
    DomainUnderToLower(value);
  }

  /** Lower-casing the value does not change its domain. */
  lemma DomainUnderToLower(value: string)
    ensures Domain(ToLower(value)) == Domain(value)
  {
    LastAtUnderToLower(value);
    match LastIndexOf(value, '@')
    case None =>
    case Some(i) =>
      var lowered := ToLower(value);
      var domain := value[i + 1..];
      DomainAt(value, i);
      DomainAt(lowered, i);
      ToLowerSlice(value, i + 1, |value|);
      assert lowered[i + 1..] == ToLower(domain);
      ToLowerIdempotent(domain);
  }

  /** Only the last '@' counts: text between two '@'s belongs to the local part. */
  lemma LastAtDecides(a: string, b: string)
    ensures IsDisposable(a + "@" + b + "@" + "mailinator.com")
  {
    assert ToLower("mailinator.com") in BlockedDomains by {
      assert ToLower("mailinator.com") == "mailinator.com";
      assert BlockedDomains[10] == "mailinator.com";
    }
    RejectedIff(a + "@" + b, "mailinator.com");
  }

  /** An upper-case spelling of a listed provider is rejected. */
  lemma UpperCaseRejected(local: string)
    ensures IsDisposable(local + "@" + "MAILINATOR.COM")
  {
    assert ToLower("MAILINATOR.COM") in BlockedDomains by {
      assert ToLower("MAILINATOR.COM") == "mailinator.com";
      assert BlockedDomains[10] == "mailinator.com";
    }
    RejectedIff(local, "MAILINATOR.COM");
  }

  /** Matching is exact, not by suffix: a sub-domain of a listed provider is accepted. */
  lemma SubdomainAccepted(local: string)
    ensures !IsDisposable(local + "@" + "sub.mailinator.com")
  {
    var host := "sub.mailinator.com";
    assert ToLower(host) == host;
    SubdomainNotListed();
    RejectedIff(local, host);
  }

  /** The sub-domain is not itself an entry of the list. */
  lemma SubdomainNotListed()
    ensures "sub.mailinator.com" !in BlockedDomains
  {
  }
}
