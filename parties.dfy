/**
 * transform_parties: the party records from the configured party choices, and
 * one (party, user) pair per login record, the party chosen by email domain.
 */
module Parties {
  import opened Options
  import opened Text
  import opened Users

  /** A UserParty record, `dict(zip(['party', 'name'], choice))`. */
  datatype Party = Party(party: string, name: string)

  /** The partial key `{'party': party}` of a party-user pair. */
  datatype PartyRef = PartyRef(party: string)

  const Intel := "INTEL"
  const Samsung := "SAMSUNG"
  const Tizen := "TIZEN"

  const IntelDomain := "intel.com"
  const SamsungDomain := "samsung.com"

  /**
   * `email.split('@', 1)[1].lower()`: the lower-cased text after the first '@'
   * of the email.
   */
  function EmailSuffix(email: string): (r: string)
    requires '@' in email
    ensures exists k :: 0 <= k < |email| && email[k] == '@' && '@' !in email[..k] && r == Lower(email[k + 1..])
  {
    ContainsChar(email, '@');
    SplitFirstChar(email, '@');
    Lower(SplitFirst(email, "@").value.1)
  }

  /**
   * The party of an email, by the suffix's ending: Intel iff it ends with
   * intel.com, Samsung iff it ends with samsung.com, Tizen iff neither.
   */
  function PartyOf(email: string): (r: string)
    requires '@' in email
    ensures r == Intel <==> EndsWith(EmailSuffix(email), IntelDomain)
    ensures r == Samsung <==> EndsWith(EmailSuffix(email), SamsungDomain)
    ensures r == Tizen <==> !EndsWith(EmailSuffix(email), IntelDomain) && !EndsWith(EmailSuffix(email), SamsungDomain)
  {
    var suffix := EmailSuffix(email);
    DomainsExclusive(suffix);
    if EndsWith(suffix, IntelDomain) then Intel
    else if EndsWith(suffix, SamsungDomain) then Samsung
    else Tizen
  }

  /** The pair of one login record: the party of its email, and the record itself. */
  function PartyUser(u: UserRecord): (PartyRef, UserRecord)
    requires EmailKey in u && '@' in u[EmailKey]
  {
    (PartyRef(PartyOf(u[EmailKey])), u)
  }

  /**
   * transform_parties: a party record per choice, and exactly one pair per user,
   * in order, naming the party of that user's email.
   */
  method TransformParties(users: seq<UserRecord>, choices: seq<(string, string)>)
    returns (parties: seq<Party>, partyUsers: seq<(PartyRef, UserRecord)>)
    requires forall i :: 0 <= i < |users| ==> EmailKey in users[i] && '@' in users[i][EmailKey]
    ensures |parties| == |choices|
    ensures forall i :: 0 <= i < |choices| ==> parties[i] == Party(choices[i].0, choices[i].1)
    ensures |partyUsers| == |users|
    ensures forall i :: 0 <= i < |users| ==> partyUsers[i] == PartyUser(users[i])
  {
    parties := seq(|choices|, i requires 0 <= i < |choices| => Party(choices[i].0, choices[i].1));
    partyUsers := PairUsers(users, PartyUser);
  }

  /**
   * The loop `for user in users`: one pair per user, in order, made by `pair`
   * (the body of the loop, PartyUser).
   */
  method PairUsers(users: seq<UserRecord>, pair: UserRecord --> (PartyRef, UserRecord))
    returns (partyUsers: seq<(PartyRef, UserRecord)>)
    requires forall i :: 0 <= i < |users| ==> pair.requires(users[i])
    ensures |partyUsers| == |users|
    ensures forall i :: 0 <= i < |users| ==> partyUsers[i] == pair(users[i])
  {
    partyUsers := [];
    var i := 0;
    while i < |users|
      invariant 0 <= i <= |users|
      invariant |partyUsers| == i
      invariant forall k :: 0 <= k < i ==> partyUsers[k] == pair(users[k])
    {
      partyUsers := partyUsers + [pair(users[i])];
      i := i + 1;
    }
  }

  /** The suffix is the lower-cased text after the first '@'; later '@'s stay in it. */
  lemma EmailSuffixOf(local: string, domain: string)
    requires '@' !in local
    ensures EmailSuffix(local + "@" + domain) == Lower(domain)
  {
    var s := local + "@" + domain;
    assert s[..|local|] == local;
    NoOccurrenceIn(s, "@", local);
    SplitFirstAt(s, "@", local, domain);
  }

  /** No suffix ends with both company domains, so the order of the two tests is immaterial. */
  lemma {:induction false} DomainsExclusive(suffix: string)
    ensures !(EndsWith(suffix, IntelDomain) && EndsWith(suffix, SamsungDomain))
  {
    var n := |suffix|;
    if EndsWith(suffix, IntelDomain) && n >= |SamsungDomain| {
      assert suffix[n - 9] == suffix[n - 9..][0] == 'i';
      assert suffix[n - 11..][2] == 'i' != SamsungDomain[2];
    }
  }

  /** The domain's letter case does not matter: the party is decided on its lower-cased form. */
  lemma PartyIgnoresCase(local: string, domain: string)
    requires '@' !in local
    ensures PartyOf(local + "@" + domain) == PartyOf(local + "@" + Lower(domain))
  {
    EmailSuffixOf(local, domain);
    EmailSuffixOf(local, Lower(domain));
    LowerIdempotent(domain);
  }

  /**
   * The test is a plain suffix test, not a domain match: any domain whose name
   * merely ends in "intel.com" counts as Intel.
   */
  lemma SuffixNotDomain()
    ensures PartyOf("dev@notintel.com") == Intel
  {
    var domain := "notintel.com";
    assert "dev" + "@" + domain == "dev@notintel.com";
    EmailSuffixOf("dev", domain);
    NotIntelSuffix();
  }

  /** The domain of the example is already lower case and ends with "intel.com". */
  lemma NotIntelSuffix()
    ensures EndsWith(Lower("notintel.com"), IntelDomain)
  {
    var domain := "notintel.com";
    LowerOfLowercase(domain);
    assert domain[|domain| - |IntelDomain|..] == IntelDomain;
  }
}
