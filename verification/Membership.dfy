/** Claims, account sets and hexadecimal, on which app and worker have to agree. */
module Membership {
  import opened Types

  /** A statement that the holder of `address` controls the account named, and the email and role seen there. */
  datatype Claim = Claim(
    address: Address,
    provider: Provider,
    id: Text,
    handle: Text,
    emailHash: Option<string>,
    role: Option<Role>)

  /** Accounts and the email hash in hexadecimal, on either side of a change. */
  datatype AccountSet = AccountSet(accounts: seq<SocialAccount>, emailHash: Option<string>)

  /** What a record keeps of a claim: provider, id and handle. */
  function AccountOf(claim: Claim): SocialAccount {
    SocialAccount(claim.provider, claim.id, claim.handle)
  }

  /** Equal in all three fields, so a renamed account counts as another one. */
  predicate SameAccount(a: SocialAccount, b: SocialAccount) {
    a.provider == b.provider && a.id == b.id && a.handle == b.handle
  }

  /** `next` has an account `current` lacks, or an email hash other than its own. */
  predicate AddsAccounts(next: AccountSet, current: AccountSet) {
    || (exists account | account in next.accounts ::
          !exists had | had in current.accounts :: SameAccount(account, had))
    || (next.emailHash.Some? && next.emailHash != current.emailHash)
  }

  function ProviderId(p: Provider): nat {
    match p
    case Discord => 0
    case Github => 1
    case X => 2
  }

  // ------------------------------------------------ accounts from claims

  /** Insert behind every claim whose provider does not come later: the sort is stable. */
  function InsertByProvider(c: Claim, sorted: seq<Claim>): seq<Claim> {
    if sorted == [] || ProviderId(c.provider) <= ProviderId(sorted[0].provider) then [c] + sorted
    else [sorted[0]] + InsertByProvider(c, sorted[1..])
  }

  function SortByProvider(claims: seq<Claim>): seq<Claim> {
    if claims == [] then [] else InsertByProvider(claims[0], SortByProvider(claims[1..]))
  }

  function MapAccounts(claims: seq<Claim>): seq<SocialAccount> {
    seq(|claims|, i requires 0 <= i < |claims| => AccountOf(claims[i]))
  }

  /** The first claim of a provider, if any. */
  function FindProvider(claims: seq<Claim>, p: Provider): Option<Claim> {
    if claims == [] then None
    else if claims[0].provider == p then Some(claims[0])
    else FindProvider(claims[1..], p)
  }

  /** Accounts ordered by provider, with the email of the chosen provider when it has one. */
  function AccountsFromClaims(claims: seq<Claim>, emailFrom: Option<Provider>): AccountSet {
    var chosen := if emailFrom.Some? then FindProvider(claims, emailFrom.value) else None;
    AccountSet(MapAccounts(SortByProvider(claims)), if chosen.Some? then chosen.value.emailHash else None)
  }

  /** The claim at `i` is the first of its provider. */
  predicate FirstOf(claims: seq<Claim>, p: Provider, i: nat)
    requires i < |claims|
  {
    claims[i].provider == p && forall j :: 0 <= j < i ==> claims[j].provider != p
  }

  /** What is found is the first claim of the provider, and nothing when it has none. */
  lemma {:induction false} FindProviderFirst(claims: seq<Claim>, p: Provider)
    ensures FindProvider(claims, p).None? <==> forall c :: c in claims ==> c.provider != p
    ensures forall i :: 0 <= i < |claims| && FirstOf(claims, p, i) ==> FindProvider(claims, p) == Some(claims[i])
  {
    if claims != [] && claims[0].provider != p {
      var rest := claims[1..];
      FindProviderFirst(rest, p);
      assert claims == [claims[0]] + rest;
      forall i | 0 <= i < |claims| && FirstOf(claims, p, i)
        ensures FindProvider(claims, p) == Some(claims[i])
      {
        assert FirstOf(rest, p, i - 1) by {
          assert forall j :: 0 <= j < |rest| ==> rest[j] == claims[j + 1];
        }
      }
    }
  }

  /** A provider with a claim has a first one. */
  lemma {:induction false} FirstExists(claims: seq<Claim>, p: Provider)
    ensures (exists c :: c in claims && c.provider == p) ==> exists i: nat :: i < |claims| && FirstOf(claims, p, i)
  {
    if claims != [] {
      var rest := claims[1..];
      if claims[0].provider == p {
        assert FirstOf(claims, p, 0);
      } else {
        FirstExists(rest, p);
        assert claims == [claims[0]] + rest;
        if i: nat :| i < |rest| && FirstOf(rest, p, i) {
          assert FirstOf(claims, p, i + 1) by {
            assert forall j :: 0 < j < |claims| ==> claims[j] == rest[j - 1];
          }
        }
      }
    }
  }

  lemma {:induction false} FindProviderMeaning(claims: seq<Claim>, p: Provider)
    ensures FindProvider(claims, p).Some? <==> exists c :: c in claims && c.provider == p
    ensures FindProvider(claims, p).Some? ==>
              FindProvider(claims, p).value in claims && FindProvider(claims, p).value.provider == p
  {
    if claims != [] && claims[0].provider != p {
      FindProviderMeaning(claims[1..], p);
      assert claims == [claims[0]] + claims[1..];
    }
  }

  lemma {:induction false} InsertKeepsClaims(c: Claim, sorted: seq<Claim>)
    ensures multiset(InsertByProvider(c, sorted)) == multiset{c} + multiset(sorted)
  {
    if sorted == [] || ProviderId(c.provider) <= ProviderId(sorted[0].provider) {
    } else {
      InsertKeepsClaims(c, sorted[1..]);
      assert sorted == [sorted[0]] + sorted[1..];
    }
  }

  /** Sorting neither drops nor adds a claim. */
  lemma {:induction false} SortKeepsClaims(claims: seq<Claim>)
    ensures multiset(SortByProvider(claims)) == multiset(claims)
  {
    if claims != [] {
      SortKeepsClaims(claims[1..]);
      InsertKeepsClaims(claims[0], SortByProvider(claims[1..]));
      assert claims == [claims[0]] + claims[1..];
    }
  }

  /** At most one claim a provider. */
  predicate OnePerProvider(claims: seq<Claim>) {
    forall i, j :: 0 <= i < j < |claims| ==> claims[i].provider != claims[j].provider
  }

  predicate Ordered(claims: seq<Claim>) {
    forall i, j :: 0 <= i < j < |claims| ==> ProviderId(claims[i].provider) <= ProviderId(claims[j].provider)
  }

  lemma {:induction false} InsertOrdered(c: Claim, sorted: seq<Claim>)
    requires Ordered(sorted)
    ensures Ordered(InsertByProvider(c, sorted))
    ensures forall x :: x in InsertByProvider(c, sorted) <==> x == c || x in sorted
  {
    if sorted == [] || ProviderId(c.provider) <= ProviderId(sorted[0].provider) {
    } else {
      InsertOrdered(c, sorted[1..]);
      var rest := InsertByProvider(c, sorted[1..]);
      assert sorted == [sorted[0]] + sorted[1..];
      forall j | 0 <= j < |rest|
        ensures ProviderId(sorted[0].provider) <= ProviderId(rest[j].provider)
      {
        assert rest[j] in rest;
        if rest[j] != c {
          var k :| 0 <= k < |sorted[1..]| && sorted[1..][k] == rest[j];
          assert sorted[k + 1] == rest[j];
        }
      }
    }
  }

  /** The result is ordered by provider. */
  lemma {:induction false} SortOrdered(claims: seq<Claim>)
    ensures Ordered(SortByProvider(claims))
  {
    if claims != [] {
      SortOrdered(claims[1..]);
      InsertOrdered(claims[0], SortByProvider(claims[1..]));
    }
  }

  lemma {:induction false} InsertOnePerProvider(c: Claim, sorted: seq<Claim>)
    requires OnePerProvider(sorted)
    requires forall x :: x in sorted ==> x.provider != c.provider
    ensures OnePerProvider(InsertByProvider(c, sorted))
    ensures forall x :: x in InsertByProvider(c, sorted) <==> x == c || x in sorted
  {
    if sorted == [] || ProviderId(c.provider) <= ProviderId(sorted[0].provider) {
    } else {
      InsertOnePerProvider(c, sorted[1..]);
      var rest := InsertByProvider(c, sorted[1..]);
      assert sorted == [sorted[0]] + sorted[1..];
      forall j | 0 <= j < |rest|
        ensures sorted[0].provider != rest[j].provider
      {
        assert rest[j] in rest;
        if rest[j] != c {
          var k :| 0 <= k < |sorted[1..]| && sorted[1..][k] == rest[j];
          assert sorted[k + 1] == rest[j];
        }
      }
    }
  }

  lemma {:induction false} SortOnePerProvider(claims: seq<Claim>)
    requires OnePerProvider(claims)
    ensures OnePerProvider(SortByProvider(claims))
    ensures forall x :: x in SortByProvider(claims) <==> x in claims
  {
    if claims != [] {
      var rest := claims[1..];
      assert claims == [claims[0]] + rest;
      assert forall i :: 0 <= i < |rest| ==> rest[i] == claims[i + 1];
      SortOnePerProvider(rest);
      InsertOnePerProvider(claims[0], SortByProvider(rest));
    }
  }

  /** A permutation of the claims gives the accounts of the claims. */
  lemma AccountsOfPermuted(sorted: seq<Claim>, claims: seq<Claim>)
    requires multiset(sorted) == multiset(claims)
    ensures |MapAccounts(sorted)| == |claims|
    ensures forall a :: a in MapAccounts(sorted) <==>
                        exists c :: c in claims && a == SocialAccount(c.provider, c.id, c.handle)
  {
    var accounts := MapAccounts(sorted);
    assert |multiset(sorted)| == |multiset(claims)|;
    forall a | a in accounts
      ensures exists c :: c in claims && a == SocialAccount(c.provider, c.id, c.handle)
    {
      var i :| 0 <= i < |accounts| && accounts[i] == a;
      assert sorted[i] in multiset(sorted);
    }
    forall c | c in claims
      ensures SocialAccount(c.provider, c.id, c.handle) in accounts
    {
      assert c in multiset(sorted);
      var i :| 0 <= i < |sorted| && sorted[i] == c;
      assert accounts[i] == SocialAccount(c.provider, c.id, c.handle);
    }
  }

  /** Discord before GitHub before X. */
  predicate Before(p: Provider, q: Provider) {
    (p == Discord && q != Discord) || (p == Github && q == X)
  }

  /** No account is in front of one whose provider comes earlier. */
  predicate Ascending(accounts: seq<SocialAccount>) {
    forall i, j :: 0 <= i < j < |accounts| ==> !Before(accounts[j].provider, accounts[i].provider)
  }

  lemma SortedAscend(claims: seq<Claim>)
    requires Ordered(claims)
    ensures Ascending(MapAccounts(claims))
  {
  }

  /** The claims of one provider, in their order. */
  function ClaimsOf(claims: seq<Claim>, p: Provider): seq<Claim> {
    if claims == [] then []
    else (if claims[0].provider == p then [claims[0]] else []) + ClaimsOf(claims[1..], p)
  }

  /** The accounts of one provider, in their order. */
  function AccountsOn(accounts: seq<SocialAccount>, p: Provider): seq<SocialAccount> {
    if accounts == [] then []
    else (if accounts[0].provider == p then [accounts[0]] else []) + AccountsOn(accounts[1..], p)
  }

  lemma ClaimsOfCons(c: Claim, rest: seq<Claim>, p: Provider)
    ensures ClaimsOf([c] + rest, p) == (if c.provider == p then [c] else []) + ClaimsOf(rest, p)
  {
    assert ([c] + rest)[1..] == rest;
  }

  lemma {:induction false} InsertStable(c: Claim, sorted: seq<Claim>, p: Provider)
    ensures ClaimsOf(InsertByProvider(c, sorted), p) == (if c.provider == p then [c] else []) + ClaimsOf(sorted, p)
  {
    hide ClaimsOf;
    if sorted == [] || ProviderId(c.provider) <= ProviderId(sorted[0].provider) {
      ClaimsOfCons(c, sorted, p);
    } else {
      InsertStable(c, sorted[1..], p);
      ClaimsOfCons(sorted[0], InsertByProvider(c, sorted[1..]), p);
      ClaimsOfCons(sorted[0], sorted[1..], p);
      assert sorted == [sorted[0]] + sorted[1..];
    }
  }

  lemma {:induction false} SortStable(claims: seq<Claim>, p: Provider)
    ensures ClaimsOf(SortByProvider(claims), p) == ClaimsOf(claims, p)
  {
    if claims != [] {
      SortStable(claims[1..], p);
      InsertStable(claims[0], SortByProvider(claims[1..]), p);
    }
  }

  lemma {:induction false} AccountsOnMapped(claims: seq<Claim>, p: Provider)
    ensures AccountsOn(MapAccounts(claims), p) == MapAccounts(ClaimsOf(claims, p))
  {
    if claims != [] {
      AccountsOnMapped(claims[1..], p);
      assert MapAccounts(claims)[1..] == MapAccounts(claims[1..]);
      assert MapAccounts(claims)[0] == AccountOf(claims[0]);
    }
  }

  lemma MappedDistinct(claims: seq<Claim>)
    requires OnePerProvider(claims)
    ensures var accounts := MapAccounts(claims);
            forall i, j :: 0 <= i < j < |accounts| ==> accounts[i].provider != accounts[j].provider
  {
  }

  lemma EmailFromChosen(claims: seq<Claim>, emailFrom: Option<Provider>)
    ensures var hash := AccountsFromClaims(claims, emailFrom).emailHash;
            && (forall i :: 0 <= i < |claims| && emailFrom.Some? && FirstOf(claims, emailFrom.value, i) ==>
                  hash == claims[i].emailHash)
            && (emailFrom.None? || (forall c :: c in claims ==> c.provider != emailFrom.value) ==> hash == None)
  {
    hide FirstOf;
    if emailFrom.Some? {
      FindProviderFirst(claims, emailFrom.value);
    }
  }

  /**
   * The accounts made from claims are exactly those of the claims, ordered by
   * provider, and those of one provider in the order of its claims. The email
   * hash is that of the first claim of the chosen provider, and none without one.
   */
  lemma AccountsFromClaimsExact(claims: seq<Claim>, emailFrom: Option<Provider>)
    ensures var accounts := AccountsFromClaims(claims, emailFrom).accounts;
            && |accounts| == |claims|
            && (forall a :: a in accounts <==>
                            exists c :: c in claims && a == SocialAccount(c.provider, c.id, c.handle))
            && Ascending(accounts)
            && (forall p :: AccountsOn(accounts, p) == MapAccounts(ClaimsOf(claims, p)))
            && (OnePerProvider(claims) ==>
                  forall i, j :: 0 <= i < j < |accounts| ==> accounts[i].provider != accounts[j].provider)
    ensures var hash := AccountsFromClaims(claims, emailFrom).emailHash;
            && (forall i :: 0 <= i < |claims| && emailFrom.Some? && FirstOf(claims, emailFrom.value, i) ==>
                  hash == claims[i].emailHash)
            && (emailFrom.None? || (forall c :: c in claims ==> c.provider != emailFrom.value) ==> hash == None)
  {
    hide FirstOf, MapAccounts, SortByProvider, Ordered, OnePerProvider, Ascending, AccountsOn, ClaimsOf;
    EmailFromChosen(claims, emailFrom);
    SortKeepsClaims(claims);
    AccountsOfPermuted(SortByProvider(claims), claims);
    SortOrdered(claims);
    SortedAscend(SortByProvider(claims));
    forall p
      ensures AccountsOn(MapAccounts(SortByProvider(claims)), p) == MapAccounts(ClaimsOf(claims, p))
    {
      SortStable(claims, p);
      AccountsOnMapped(SortByProvider(claims), p);
    }
    if OnePerProvider(claims) {
      SortOnePerProvider(claims);
      MappedDistinct(SortByProvider(claims));
    }
  }

  // ------------------------------------------------------- hexadecimal

  function Digit(n: nat): char
    requires n < 16
  {
    "0123456789abcdef"[n]
  }

  /** Two lower-case digits a byte, the high one first. */
  function ToHex(bytes: seq<Byte>): string {
    if bytes == [] then "" else [Digit(bytes[0] / 16), Digit(bytes[0] % 16)] + ToHex(bytes[1..])
  }

  /** The value of a hexadecimal digit of either case, as `parseInt` reads it. */
  function DigitValue(c: char): Option<nat> {
    if '0' <= c <= '9' then Some(c as nat - '0' as nat)
    else if 'a' <= c <= 'f' then Some(c as nat - 'a' as nat + 10)
    else if 'A' <= c <= 'F' then Some(c as nat - 'A' as nat + 10)
    else None
  }

  /** The white space `parseInt` skips in front, among UTF-16 code units. */
  predicate IsSpace(c: char) {
    || c == '\t' || c == '\n' || c == '\U{000B}' || c == '\U{000C}' || c == '\r' || c == ' '
    || c == '\U{00A0}' || c == '\U{1680}' || '\U{2000}' <= c <= '\U{200A}' || c == '\U{2028}' || c == '\U{2029}'
    || c == '\U{202F}' || c == '\U{205F}' || c == '\U{3000}' || c == '\U{FEFF}'
  }

  /** The digits in front, most significant first; nothing when there is none. */
  function LeadingDigits(s: string, value: nat, any: bool): Option<nat> {
    if s == "" || DigitValue(s[0]).None? then (if any then Some(value) else None)
    else LeadingDigits(s[1..], 16 * value + DigitValue(s[0]).value, true)
  }

  /** `parseInt(s, 16)` on a string without leading space: sign, prefix, digits. */
  function ParseSigned(s: string): Option<int> {
    var negative := s != "" && s[0] == '-';
    var unsigned := if s != "" && (s[0] == '-' || s[0] == '+') then s[1..] else s;
    var digits := if |unsigned| >= 2 && unsigned[0] == '0' && (unsigned[1] == 'x' || unsigned[1] == 'X')
                  then unsigned[2..] else unsigned;
    var magnitude := LeadingDigits(digits, 0, false);
    if magnitude.None? then None
    else
      var value: int := magnitude.value;
      Some(if negative then -value else value)
  }

  /** `parseInt(s, 16)`: the number, or `None` for NaN. */
  function ParseInt16(s: string): Option<int> {
    if s != "" && IsSpace(s[0]) then ParseInt16(s[1..]) else ParseSigned(s)
  }

  /** What a `Uint8Array` stores of a number: NaN is 0, others wrap modulo 256. */
  function StoredByte(n: Option<int>): Byte {
    if n.None? then 0 else n.value % 256
  }

  /** The byte at `i` of the bytes a hexadecimal string stands for. */
  function HexByte(hex: string, i: nat): Byte
    requires 2 * i + 2 <= |hex|
  {
    StoredByte(ParseInt16(hex[2 * i..2 * i + 2]))
  }

  function FromHexBytes(hex: string): seq<Byte> {
    seq(|hex| / 2, i requires 0 <= i < |hex| / 2 => HexByte(hex, i))
  }

  /** Fills a fresh byte array, two characters a byte; an odd last character is left over. */
  method FromHex(hex: string) returns (bytes: array<Byte>)
    ensures fresh(bytes)
    ensures bytes[..] == FromHexBytes(hex)
  {
    bytes := new Byte[|hex| / 2];
    for i := 0 to bytes.Length
      invariant forall j :: 0 <= j < i ==> bytes[j] == HexByte(hex, j)
    {
      bytes[i] := StoredByte(ParseInt16(hex[2 * i..2 * i + 2]));
    }
  }

  predicate IsLowerDigit(c: char) {
    '0' <= c <= '9' || 'a' <= c <= 'f'
  }

  /** Hexadecimal as `toHex` writes it: an even number of lower-case digits. */
  predicate IsHex(hex: string) {
    |hex| % 2 == 0 && forall i :: 0 <= i < |hex| ==> IsLowerDigit(hex[i])
  }

  lemma DigitRoundTrip(n: nat)
    requires n < 16
    ensures IsLowerDigit(Digit(n)) && DigitValue(Digit(n)) == Some(n)
  {
  }

  lemma DigitOfValue(c: char)
    requires IsLowerDigit(c)
    ensures DigitValue(c).Some? && DigitValue(c).value < 16 && Digit(DigitValue(c).value) == c
  {
  }

  lemma SignsAreNoDigits()
    ensures DigitValue('+').None? && DigitValue('-').None? && DigitValue('x').None? && DigitValue('X').None?
    ensures DigitValue('0') == Some(0)
    ensures forall c :: DigitValue(c).Some? ==> DigitValue(c).value < 16
  {
  }

  lemma SpacesAreNoDigits(c: char)
    ensures IsSpace(c) ==> DigitValue(c).None? && c != '+' && c != '-'
  {
  }

  lemma NothingParsed()
    ensures ParseInt16("") == None
  {
  }

  lemma LeadingOne(a: char)
    ensures LeadingDigits([a], 0, false) == if DigitValue(a).None? then None else Some(DigitValue(a).value)
  {
    assert [a][1..] == "";
  }

  lemma LeadingTwo(a: char, b: char)
    ensures LeadingDigits([a, b], 0, false) ==
            if DigitValue(a).None? then None
            else if DigitValue(b).None? then Some(DigitValue(a).value)
            else Some(16 * DigitValue(a).value + DigitValue(b).value)
  {
    hide DigitValue;
    assert [a, b][1..] == [b];
    assert [b][1..] == "";
    if DigitValue(a).Some? {
      var high := DigitValue(a).value;
      assert LeadingDigits([a, b], 0, false) == LeadingDigits([b], high, true);
      assert LeadingDigits([b], high, true) ==
             if DigitValue(b).None? then Some(high) else LeadingDigits("", 16 * high + DigitValue(b).value, true);
    }
  }

  /** Two lower-case digits are read as the byte they write. */
  lemma ParsePair(a: char, b: char)
    requires IsLowerDigit(a) && IsLowerDigit(b)
    ensures DigitValue(a).Some? && DigitValue(b).Some?
    ensures StoredByte(ParseInt16([a, b])) == 16 * DigitValue(a).value + DigitValue(b).value
  {
    assert [a, b][1..] == [b];
    assert [b][1..] == "";
    assert LeadingDigits([b], DigitValue(a).value, true) == Some(16 * DigitValue(a).value + DigitValue(b).value);
    assert LeadingDigits([a, b], 0, false) == LeadingDigits([b], DigitValue(a).value, true);
  }

  /** The digits, in either case. */
  lemma DigitMeaning(c: char, v: nat)
    ensures DigitValue(c) == Some(v) <==> v < 16 && (c == "0123456789abcdef"[v] || c == "0123456789ABCDEF"[v])
  {
  }

  lemma ParseShort(a: char, b: char)
    ensures ParseSigned([a]) ==
            if DigitValue(a).None? then None else Some(DigitValue(a).value as int)
    ensures DigitValue(a).Some? && DigitValue(b).Some? ==>
              ParseSigned([a, b]) == Some(16 * DigitValue(a).value + DigitValue(b).value)
    ensures DigitValue(a).Some? && DigitValue(b).None? && !(a == '0' && (b == 'x' || b == 'X')) ==>
              ParseSigned([a, b]) == Some(DigitValue(a).value)
    ensures a == '0' && (b == 'x' || b == 'X') ==> ParseSigned([a, b]) == None
    ensures a == '+' ==>
              ParseSigned([a, b]) == if DigitValue(b).None? then None else Some(DigitValue(b).value as int)
    ensures a == '-' ==>
              ParseSigned([a, b]) == if DigitValue(b).None? then None else Some(-(DigitValue(b).value as int))
    ensures DigitValue(a).None? && a != '+' && a != '-' ==> ParseSigned([a, b]) == None
  {
    hide DigitValue;
    assert [a][1..] == "" && [a, b][1..] == [b] && [b][1..] == "" && [a, b][2..] == "";
    assert DigitValue('+').None? && DigitValue('-').None? && DigitValue('x').None? && DigitValue('X').None? by {
      SignsAreNoDigits();
    }
    LeadingOne(a);
    LeadingOne(b);
    LeadingTwo(a, b);
  }

  lemma ParseAny(a: char, b: char)
    ensures ParseInt16([a, b]) ==
            if IsSpace(a) then (if IsSpace(b) then None else ParseSigned([b])) else ParseSigned([a, b])
  {
    hide ParseSigned, IsSpace;
    NothingParsed();
    assert [a, b][1..] == [b];
    assert [b][1..] == "";
    assert ParseInt16([b]) == if IsSpace(b) then None else ParseSigned([b]);
  }

  lemma PairMeaning(a: char, b: char)
    ensures var high, low := DigitValue(a), DigitValue(b);
            ParseInt16([a, b]) ==
            if high.Some? && low.Some? then Some(16 * high.value + low.value)
            else if high.Some? then (if a == '0' && (b == 'x' || b == 'X') then None else Some(high.value as int))
            else if low.Some? && (a == '+' || IsSpace(a)) then Some(low.value as int)
            else if low.Some? && a == '-' then Some(-(low.value as int))
            else None
  {
    hide ParseSigned, ParseInt16, IsSpace, DigitValue;
    ParseAny(a, b);
    ParseShort(a, b);
    ParseShort(b, a);
    SpacesAreNoDigits(a);
    SpacesAreNoDigits(b);
    SignsAreNoDigits();
  }

  /**
   * What two characters stand for, whatever they are: two digits a byte; one
   * digit alone, behind a sign or a space, or in front of anything else, its
   * value, negated modulo 256 behind a minus; and 0 without a digit to read.
   */
  lemma FromHexMeaning(hex: string, i: nat)
    requires i < |hex| / 2
    ensures |FromHexBytes(hex)| == |hex| / 2
    ensures var sign, high, low := hex[2 * i], DigitValue(hex[2 * i]), DigitValue(hex[2 * i + 1]);
            FromHexBytes(hex)[i] ==
            if high.Some? && low.Some? then 16 * high.value + low.value
            else if high.Some? then high.value
            else if low.Some? && (sign == '+' || IsSpace(sign)) then low.value
            else if low.Some? && sign == '-' then (256 - low.value) % 256
            else 0
  {
    hide ParseInt16, DigitValue, IsSpace;
    assert hex[2 * i..2 * i + 2] == [hex[2 * i], hex[2 * i + 1]];
    PairMeaning(hex[2 * i], hex[2 * i + 1]);
    SignsAreNoDigits();
  }

  lemma HexByteOfDigits(hex: string, i: nat)
    requires 2 * i + 2 <= |hex|
    requires IsLowerDigit(hex[2 * i]) && IsLowerDigit(hex[2 * i + 1])
    ensures Digit(HexByte(hex, i) / 16) == hex[2 * i] && Digit(HexByte(hex, i) % 16) == hex[2 * i + 1]
    ensures forall b: Byte :: Digit(b / 16) == hex[2 * i] && Digit(b % 16) == hex[2 * i + 1] ==> b == HexByte(hex, i)
  {
    hide ParseInt16, StoredByte, Digit, IsLowerDigit, DigitValue;
    assert hex[2 * i..2 * i + 2] == [hex[2 * i], hex[2 * i + 1]];
    ParsePair(hex[2 * i], hex[2 * i + 1]);
    DigitOfValue(hex[2 * i]);
    DigitOfValue(hex[2 * i + 1]);
    forall b: Byte | Digit(b / 16) == hex[2 * i] && Digit(b % 16) == hex[2 * i + 1]
      ensures b == HexByte(hex, i)
    {
      DigitRoundTrip(b / 16);
      DigitRoundTrip(b % 16);
    }
  }

  lemma {:induction false} ToHexShape(bytes: seq<Byte>)
    ensures |ToHex(bytes)| == 2 * |bytes| && IsHex(ToHex(bytes))
    ensures forall i :: 0 <= i < |bytes| ==> ToHex(bytes)[2 * i] == Digit(bytes[i] / 16)
    ensures forall i :: 0 <= i < |bytes| ==> ToHex(bytes)[2 * i + 1] == Digit(bytes[i] % 16)
  {
    hide Digit, IsLowerDigit, DigitValue;
    if bytes != [] {
      ToHexShape(bytes[1..]);
      DigitRoundTrip(bytes[0] / 16);
      DigitRoundTrip(bytes[0] % 16);
      var rest := ToHex(bytes[1..]);
      forall i | 0 <= i < |bytes|
        ensures ToHex(bytes)[2 * i] == Digit(bytes[i] / 16) && ToHex(bytes)[2 * i + 1] == Digit(bytes[i] % 16)
      {
        if i > 0 {
          assert ToHex(bytes)[2 * i] == rest[2 * (i - 1)];
          assert ToHex(bytes)[2 * i + 1] == rest[2 * (i - 1) + 1];
        }
      }
    }
  }

  /** Bytes written in hexadecimal read back as themselves. */
  lemma BytesRoundTrip(bytes: seq<Byte>)
    ensures FromHexBytes(ToHex(bytes)) == bytes
  {
    hide ToHex, Digit, HexByte, IsLowerDigit;
    ToHexShape(bytes);
    var hex := ToHex(bytes);
    forall i | 0 <= i < |bytes|
      ensures HexByte(hex, i) == bytes[i]
    {
      HexByteOfDigits(hex, i);
    }
  }

  /**
   * A string comes back from `fromHex` and `toHex` unchanged exactly when it
   * is hexadecimal as `toHex` writes it.
   */
  lemma HexRoundTrip(hex: string)
    ensures ToHex(FromHexBytes(hex)) == hex <==> IsHex(hex)
  {
    hide ToHex, Digit, HexByte, IsLowerDigit;
    var bytes := FromHexBytes(hex);
    ToHexShape(bytes);
    if IsHex(hex) {
      forall k | 0 <= k < |hex|
        ensures ToHex(bytes)[k] == hex[k]
      {
        var i := k / 2;
        assert k == 2 * i || k == 2 * i + 1;
        HexByteOfDigits(hex, i);
        assert bytes[i] == HexByte(hex, i);
      }
    }
  }
}
