/**
 What a readback of an account must establish (account_readback.go), and the version and identity
 that pin an account between two reads (run_import.go).
 */
module Readback {
  import opened Common
  import opened Json

  // ---- Versions and identities ----

  const VERSION_KEYS: set<Key> := {
    Id, Name, Platform, AccountType, Credentials, Extra, Status, Schedulable, ProxyId, Concurrency, Priority,
    RateMultiplier, LoadFactor, GroupIds, Groups, AccountGroups, Notes, ExpiresAt, AutoPauseOnExpired,
    UpstreamBillingProbe, MixedChannelRisk
  }

  /** SHA-256 is taken as injective, so a version is the hashed fields themselves. */
  type Version = Fields

  function AccountVersion(account: Fields): Version {
    map key | key in VERSION_KEYS :: Get(account, key)
  }

  datatype Identity = Identity(workspace: string, user: string)

  function FirstText(fields: Fields, preferred: Key, fallback: Key): string {
    if TextOf(Get(fields, preferred)) != "" then TextOf(Get(fields, preferred)) else TextOf(Get(fields, fallback))
  }

  function CredentialIdentity(credentials: Fields): Identity {
    Identity(FirstText(credentials, ChatgptAccountId, LegacyAccountId), FirstText(credentials, ChatgptUserId, UserId))
  }

  /** The identity an account shows; for a version, the identity it pins. */
  function AccountIdentity(account: Fields): Identity {
    CredentialIdentity(FieldsOf(Get(account, Credentials)))
  }

  predicate Complete(who: Identity) {
    who.workspace != "" && who.user != ""
  }

  predicate SameAccountIdentity(account: Fields, who: Identity) {
    && TextOf(Get(account, Platform)) == "openai"
    && TextOf(Get(account, AccountType)) == "oauth"
    && Complete(who)
    && AccountIdentity(account) == who
  }

  /** `account["schedulable"] == false`; a missing or unreadable switch does not count as off. */
  predicate SwitchedOff(account: Fields) {
    Get(account, Schedulable) == Bool(false)
  }

  predicate SwitchedOn(account: Fields) {
    Get(account, Schedulable) == Bool(true)
  }

  /** Two accounts with one version agree on the scheduling switch and on the identity they show. */
  lemma VersionPins(a: Fields, b: Fields)
    requires AccountVersion(a) == AccountVersion(b)
    ensures forall key | key in VERSION_KEYS :: Get(a, key) == Get(b, key)
    ensures SwitchedOff(a) <==> SwitchedOff(b)
    ensures SwitchedOn(a) <==> SwitchedOn(b)
    ensures AccountIdentity(a) == AccountIdentity(b)
  {
    forall key | key in VERSION_KEYS ensures Get(a, key) == Get(b, key) {
      assert AccountVersion(a)[key] == AccountVersion(b)[key];
    }
  }

  /** A version pins the same facts about the account it was taken from. */
  lemma VersionShows(account: Fields)
    ensures SwitchedOff(AccountVersion(account)) <==> SwitchedOff(account)
    ensures SwitchedOn(AccountVersion(account)) <==> SwitchedOn(account)
    ensures AccountIdentity(AccountVersion(account)) == AccountIdentity(account)
  {
  }

  /** The version of a version is the version; it shows the same platform, type and identity. */
  lemma VersionKind(account: Fields)
    ensures AccountVersion(AccountVersion(account)) == AccountVersion(account)
    ensures forall who :: SameAccountIdentity(AccountVersion(account), who) <==> SameAccountIdentity(account, who)
    ensures Get(AccountVersion(account), Id) == Get(account, Id)
  {
    VersionShows(account);
    assert Get(AccountVersion(account), Platform) == Get(account, Platform);
    assert Get(AccountVersion(account), AccountType) == Get(account, AccountType);
  }

  // ---- Verification of requested fields ----

  /** `appliedValue`: objects may hold server-owned additions, numbers compare by value. */
  predicate AppliedValue(actual: Value, expected: Value)
    decreases expected
  {
    if expected.Text? && expected.content == "" && actual == Null then true
    else if expected.Object? then
      if !actual.Object? then expected.fields == map[] && actual == Null
      else forall key | key in expected.fields :: AppliedValue(Get(actual.fields, key), expected.fields[key])
    else if expected.Number? then
      DecimalOf(actual).Some? && DecimalOf(expected).Some? && DecimalOf(actual).value == DecimalOf(expected).value
    else actual == expected
  }

  function TextsOf(values: seq<Value>): seq<string> {
    seq(|values|, i requires 0 <= i < |values| => TextOf(values[i]))
  }

  /** The non-empty texts, each at its first occurrence. */
  function Distinct(texts: seq<string>): seq<string> {
    if texts == [] then []
    else
      var before := Distinct(texts[..|texts| - 1]);
      var last := texts[|texts| - 1];
      if last == "" || last in before then before else before + [last]
  }

  function ElementsOf(value: Value): seq<Value> {
    if value.List? then value.elements else []
  }

  function MemberGroupId(entry: Value): string {
    var nested := TextOf(Get(FieldsOf(Get(FieldsOf(entry), Group)), Id));
    if nested != "" then nested else TextOf(Get(FieldsOf(entry), GroupId))
  }

  /** The group IDs `publicAccount` shows: `groups`, else `account_groups`, else the bare `group_ids`. */
  function ShownGroups(account: Fields): seq<string> {
    var direct := ElementsOf(Get(account, Groups));
    var members := ElementsOf(Get(account, AccountGroups));
    var listed := Distinct(
      if direct != [] then seq(|direct|, i requires 0 <= i < |direct| => TextOf(Get(FieldsOf(direct[i]), Id)))
      else seq(|members|, i requires 0 <= i < |members| => MemberGroupId(members[i])));
    if listed != [] then listed else Distinct(TextsOf(ElementsOf(Get(account, GroupIds))))
  }

  /** Model selections are exact: a mapping the site widened does not pass. */
  predicate ModelMappingsVerified(account: Fields, credentials: Fields) {
    forall key | key in {ModelMapping, CompactModelMapping} && key in credentials ::
      var got := Get(FieldsOf(Get(account, Credentials)), key);
      (FieldsOf(credentials[key]) == map[] && got == Null) || got == credentials[key]
  }

  predicate ExpiryApplied(actual: Value, expected: Value) {
    && SecondsOf(expected).Some?
    && ((SecondsOf(expected).value == 0 && actual == Null) || SecondsOf(actual) == SecondsOf(expected))
  }

  /** One requested field has taken effect on the account. */
  predicate FieldApplied(account: Fields, key: Key, expected: Value) {
    if key == SkipDefaultGroupBind then true
    else if key == GroupIds then
      (expected.List? || expected == Null)
      && multiset(TextsOf(ElementsOf(expected))) == multiset(ShownGroups(account))
    else if key == ExpiresAt && expected != Null then ExpiryApplied(Get(account, key), expected)
    else
      && (key == Credentials ==> ModelMappingsVerified(account, FieldsOf(expected)))
      && AppliedValue(Get(account, key), expected)
  }

  /** `verifyApplied` returns nil. */
  predicate Applied(account: Fields, requested: Fields) {
    forall key | key in requested :: FieldApplied(account, key, requested[key])
  }

  predicate SecretConfigured(account: Fields, credentials: Fields, secret: Key, shown: Key) {
    TextOf(Get(credentials, secret)) != "" ==> Get(FieldsOf(Get(account, CredentialsStatus)), shown) != Bool(false)
  }

  /** `verifyImportedApplied` returns nil: the secrets are redacted, so only their presence is checked. */
  predicate ImportApplied(account: Fields, requested: Fields) {
    && (Get(requested, Credentials).Object? ==>
          var credentials := requested[Credentials].fields;
          && SecretConfigured(account, credentials, AccessToken, HasAccessToken)
          && SecretConfigured(account, credentials, RefreshToken, HasRefreshToken)
          && ModelMappingsVerified(account, credentials))
    && Applied(account, requested - {Credentials})
  }

  /** `verifyImportedAppliedWhileIsolated` returns nil. */
  predicate ImportAppliedWhileIsolated(account: Fields, requested: Fields) {
    ImportApplied(account, requested - {Status})
  }

  /** What confirms a request confirms every part of it; how to bind default groups is never read back. */
  lemma AppliedInPart(account: Fields, whole: Fields, part: Fields)
    requires ImportApplied(account, whole)
    requires forall key | key in part :: key == SkipDefaultGroupBind || (key in whole && part[key] == whole[key])
    ensures ImportApplied(account, part)
  {
    hide SecretConfigured, ModelMappingsVerified, AppliedValue, ExpiryApplied, ShownGroups;
    forall key | key in part - {Credentials} ensures FieldApplied(account, key, (part - {Credentials})[key]) {
      if key != SkipDefaultGroupBind { assert key in whole - {Credentials}; }
    }
  }

  lemma {:induction false} DistinctOnes(texts: seq<string>)
    ensures forall text :: text in Distinct(texts) <==> text != "" && text in texts
    ensures forall text :: multiset(Distinct(texts))[text] == if text != "" && text in texts then 1 else 0
  {
    if texts != [] {
      var n := |texts| - 1;
      DistinctOnes(texts[..n]);
      assert texts == texts[..n] + [texts[n]];
    }
  }

  /** Confirmed group IDs are different and not empty, and the account shows exactly these. */
  lemma ConfirmedGroups(account: Fields, expected: Value)
    requires FieldApplied(account, GroupIds, expected)
    ensures forall id :: multiset(TextsOf(ElementsOf(expected)))[id] == if id in ShownGroups(account) then 1 else 0
    ensures "" !in TextsOf(ElementsOf(expected))
    ensures forall id :: id in TextsOf(ElementsOf(expected)) <==> id in ShownGroups(account)
  {
    var direct, members := ElementsOf(Get(account, Groups)), ElementsOf(Get(account, AccountGroups));
    var ids := TextsOf(ElementsOf(expected));
    var listed :=
      if direct != [] then seq(|direct|, i requires 0 <= i < |direct| => TextOf(Get(FieldsOf(direct[i]), Id)))
      else seq(|members|, i requires 0 <= i < |members| => MemberGroupId(members[i]));
    DistinctOnes(listed);
    DistinctOnes(TextsOf(ElementsOf(Get(account, GroupIds))));
    assert forall id :: id in ids <==> id in multiset(ids);
  }

  /** A confirmed expiry names an instant, at which the account then expires; zero may be shown as no expiry at all. */
  lemma ConfirmedExpiry(account: Fields, expected: Value)
    requires FieldApplied(account, ExpiresAt, expected)
    ensures expected == Null ==> Get(account, ExpiresAt) == Null
    ensures expected != Null ==> SecondsOf(expected).Some?
    ensures expected != Null && (SecondsOf(expected) != Some(0) || Get(account, ExpiresAt) != Null) ==>
      SecondsOf(Get(account, ExpiresAt)) == SecondsOf(expected)
  {
  }

  /** The body sent, and later verified, for a row: its payload with the scheduling fields fixed. */
  function WithSwitch(payload: Fields, status: string, schedulable: bool): Fields {
    payload[Status := Text(status, Plain)][Schedulable := Bool(schedulable)]
  }

  /** A number inside the value reads as a decimal; the others can never be confirmed. */
  predicate Confirmable(value: Value) {
    match value
    case Number(_, _) => DecimalOf(value).Some?
    case Object(fields) => forall key | key in fields :: Confirmable(fields[key])
    case _ => true
  }

  /** A site that stores exactly what was sent always passes, provided the numbers are decimals. */
  lemma {:induction false} AppliedToItself(value: Value)
    ensures AppliedValue(value, value) <==> Confirmable(value)
    decreases value
  {
    if value.Object? {
      forall key | key in value.fields
        ensures AppliedValue(Get(value.fields, key), value.fields[key]) <==> Confirmable(value.fields[key])
      {
        AppliedToItself(value.fields[key]);
      }
    }
  }

  predicate Extends(wider: Value, narrower: Value)
    decreases narrower
  {
    if narrower.Object? && wider.Object? then
      forall key | key in narrower.fields :: key in wider.fields && Extends(wider.fields[key], narrower.fields[key])
    else wider == narrower
  }

  /** Fields the server adds, at any depth, never turn an applied value into an unapplied one. */
  lemma {:induction false} AdditionsKeepApplied(actual: Value, wider: Value, expected: Value)
    requires AppliedValue(actual, expected) && Extends(wider, actual)
    requires NoAbsence(expected)
    ensures AppliedValue(wider, expected)
    decreases expected
  {
    if expected.Object? && actual.Object? && wider.Object? {
      forall key | key in expected.fields
        ensures AppliedValue(Get(wider.fields, key), expected.fields[key])
      {
        assert AppliedValue(Get(actual.fields, key), expected.fields[key]);
        if key in actual.fields {
          AdditionsKeepApplied(actual.fields[key], wider.fields[key], expected.fields[key]);
        }
      }
    }
  }

  /** No field is requested as absent: nothing in the value is satisfied by a missing key. */
  predicate NoAbsence(value: Value) {
    match value
    case Null => false
    case Text(content, _) => content != ""
    case List(elements) => true
    case Object(fields) => fields != map[] && forall key | key in fields :: NoAbsence(fields[key])
    case _ => true
  }

  /** A passed verification of an isolated or of an enabled body fixes the switch and the status themselves. */
  lemma VerifiedSwitch(account: Fields, payload: Fields, status: string, schedulable: bool)
    requires status != ""
    requires ImportApplied(account, WithSwitch(payload, status, schedulable))
    ensures Get(account, Schedulable) == Bool(schedulable)
    ensures Get(account, Status) == Text(status, Plain)
  {
    var body := WithSwitch(payload, status, schedulable) - {Credentials};
    assert FieldApplied(account, Schedulable, body[Schedulable]);
    assert FieldApplied(account, Status, body[Status]);
  }

  lemma VerifiedIsolation(account: Fields, payload: Fields, status: string)
    requires ImportAppliedWhileIsolated(account, WithSwitch(payload, status, false))
    ensures SwitchedOff(account)
  {
    var body := WithSwitch(payload, status, false) - {Status} - {Credentials};
    assert FieldApplied(account, Schedulable, body[Schedulable]);
  }
}
