/**
 The quorum and gate semantics of a retained fabrication-authorization report, and the summary derived
 from it.

 `Host` stands for the checks of single fields, of the rest of the policy pack and of digests.
 */
module Quorum {
  import opened Json
  import opened Ordering
  import opened TextOrder

  const MAXIMUM_APPROVALS := 100
  const MAXIMUM_QUANTITY := 1_000_000
  const MAXIMUM_TOTAL_MINOR_UNITS := 9_007_199_254_740_991
  const MAXIMUM_VALIDITY_SECONDS := 604_800
  const MAXIMUM_GATE_FAILURES := 4
  const REPORT_MAX_BYTES := 128 * 1024 * 1024
  const U64_MAX := 0xFFFF_FFFF_FFFF_FFFF

  datatype Key = Key(signer: Text, key: Text)

  /** The trust roles and the fabrication policy; `other` stands for the remaining fields. */
  datatype Policy = Policy(ai: seq<Key>, human: seq<Key>, minimum: int, maximumValidity: int, fabrication: seq<Key>, other: Text)

  datatype Evidence = Evidence(plan: Text, run: Text, package: Text, receipt: Text, policy: Text, other: Text)

  datatype Scope = Scope(id: Text, challenge: Text, quantity: int, currency: Text, maximumTotal: int, validFrom: int, expires: int)

  datatype Approval = Approval(evidence: Evidence, scope: Scope, approve: bool, reason: Text, ticket: Text,
    signer: Text, key: Text, other: Text)

  datatype Member = Member(signer: Text, key: Text, digest: Text, approve: bool, reason: Text, ticket: Text)

  datatype Report = Report(evidence: Evidence, scope: Scope, policy: Policy, evaluated: int, approvals: int, rejections: int,
    members: seq<Member>, signed: seq<Approval>, statusAuthorized: bool, authorized: bool, failures: seq<Text>)

  datatype Summary = Summary(statusAuthorized: bool, authorized: bool, scope: Scope, evaluated: int, approvals: int,
    rejections: int, failureCount: int, digests: seq<Text>, reportBytes: int)

  datatype Host = Host(slug: Text -> bool, sha: Text -> bool, currency: Text -> bool, note: Text -> bool,
    policyRest: (Policy, Evidence) -> bool, evidenceRest: Evidence -> bool, approvalRest: Approval -> bool,
    approvalDigest: Approval -> Text)

  predicate InRange(n: int, low: int, high: int) { low <= n <= high }

  // ----- trusted keys ---------------------------------------------------------------------

  /** A bounded list of keys, all signers and all keys different. */
  predicate KeysOk(keys: seq<Key>, minimum: int, host: Host) {
    && minimum <= |keys| <= MAXIMUM_APPROVALS
    && (forall i :: 0 <= i < |keys| ==> host.slug(keys[i].signer) && host.sha(keys[i].key))
    && (forall i, j :: 0 <= i < j < |keys| ==> keys[i].signer != keys[j].signer && keys[i].key != keys[j].key)
  }

  ghost function Signers(keys: seq<Key>): set<Text> { set i | 0 <= i < |keys| :: keys[i].signer }
  ghost function PublicKeys(keys: seq<Key>): set<Text> { set i | 0 <= i < |keys| :: keys[i].key }

  /** The dictionary and the set hold exactly the listed pairs and keys. */
  ghost predicate Tracks(keys: seq<Key>, signers: map<Text, Text>, publicKeys: set<Text>) {
    TracksSigners(keys, signers) && TracksKeys(keys, publicKeys)
  }

  ghost predicate TracksSigners(keys: seq<Key>, signers: map<Text, Text>) {
    && (forall i :: 0 <= i < |keys| ==> keys[i].signer in signers && signers[keys[i].signer] == keys[i].key)
    && (forall s :: s in signers ==> exists i :: 0 <= i < |keys| && keys[i].signer == s)
  }

  ghost predicate TracksKeys(keys: seq<Key>, publicKeys: set<Text>) {
    && (forall i :: 0 <= i < |keys| ==> keys[i].key in publicKeys)
    && (forall k :: k in publicKeys ==> exists i :: 0 <= i < |keys| && keys[i].key == k)
  }

  lemma TracksNothing()
    ensures Tracks([], map[], {})
  {
  }

  lemma TracksSignersStep(keys: seq<Key>, t: Key, signers: map<Text, Text>)
    requires TracksSigners(keys, signers)
    ensures t.signer in signers <==> exists i :: 0 <= i < |keys| && keys[i].signer == t.signer
    ensures t.signer !in signers ==> TracksSigners(keys + [t], signers[t.signer := t.key])
  {
    var all := keys + [t];
    assert forall i :: 0 <= i < |keys| ==> all[i] == keys[i];
    assert all[|keys|] == t;
  }

  lemma TracksKeysStep(keys: seq<Key>, t: Key, publicKeys: set<Text>)
    requires TracksKeys(keys, publicKeys)
    ensures t.key in publicKeys <==> exists i :: 0 <= i < |keys| && keys[i].key == t.key
    ensures TracksKeys(keys + [t], publicKeys + {t.key})
  {
    var all := keys + [t];
    assert forall i :: 0 <= i < |keys| ==> all[i] == keys[i];
    assert all[|keys|] == t;
  }

  lemma TracksAll(keys: seq<Key>, signers: map<Text, Text>, publicKeys: set<Text>)
    requires Tracks(keys, signers, publicKeys)
    ensures signers.Keys == Signers(keys) && publicKeys == PublicKeys(keys)
    ensures forall s, k :: s in signers && signers[s] == k <==> Key(s, k) in keys
  {
    forall s, k | Key(s, k) in keys
      ensures s in signers && signers[s] == k
    {
      var i :| 0 <= i < |keys| && keys[i] == Key(s, k);
    }
    forall s | s in signers
      ensures Key(s, signers[s]) in keys
    {
      var i :| 0 <= i < |keys| && keys[i].signer == s;
      assert keys[i] == Key(s, signers[s]);
    }
  }

  /** `_validate_trusted_keys`: the dictionary it returns holds exactly the listed pairs. */
  method ValidateTrustedKeys(keys: seq<Key>, minimum: int, host: Host)
      returns (ok: bool, signers: map<Text, Text>, publicKeys: set<Text>)
    ensures ok <==> KeysOk(keys, minimum, host)
    ensures ok ==> signers.Keys == Signers(keys) && publicKeys == PublicKeys(keys)
    ensures ok ==> forall s, k :: s in signers && signers[s] == k <==> Key(s, k) in keys
  {
    hide Signers, PublicKeys, TracksSigners, TracksKeys;
    signers, publicKeys := map[], {};
    TracksNothing();
    assert keys[..0] == [];
    if !(minimum <= |keys| <= MAXIMUM_APPROVALS) { return false, signers, publicKeys; }
    for n := 0 to |keys|
      invariant forall i :: 0 <= i < n ==> host.slug(keys[i].signer) && host.sha(keys[i].key)
      invariant forall i, j :: 0 <= i < j < n ==> keys[i].signer != keys[j].signer && keys[i].key != keys[j].key
      invariant Tracks(keys[..n], signers, publicKeys)
    {
      var t := keys[n];
      if !host.slug(t.signer) || !host.sha(t.key) { return false, signers, publicKeys; }
      TracksSignersStep(keys[..n], t, signers);
      TracksKeysStep(keys[..n], t, publicKeys);
      assert forall i :: 0 <= i < n ==> keys[..n][i] == keys[i];
      if t.signer in signers || t.key in publicKeys { return false, signers, publicKeys; }
      assert keys[..n] + [t] == keys[..n + 1];
      signers, publicKeys := signers[t.signer := t.key], publicKeys + {t.key};
    }
    assert keys[..|keys|] == keys;
    TracksAll(keys, signers, publicKeys);
    ok := true;
  }

  /** The three trust roles are well-formed and share no signer and no key. */
  ghost predicate PolicyOk(p: Policy, evidence: Evidence, host: Host) {
    && KeysOk(p.ai, 1, host) && KeysOk(p.human, 0, host) && KeysOk(p.fabrication, 2, host)
    && Signers(p.ai) !! Signers(p.human) && PublicKeys(p.ai) !! PublicKeys(p.human)
    && Signers(p.fabrication) !! Signers(p.ai) + Signers(p.human)
    && PublicKeys(p.fabrication) !! PublicKeys(p.ai) + PublicKeys(p.human)
    && InRange(p.minimum, 2, MAXIMUM_APPROVALS) && p.minimum <= |p.fabrication|
    && InRange(p.maximumValidity, 1, MAXIMUM_VALIDITY_SECONDS)
    && host.policyRest(p, evidence)
  }

  /** `_validate_policy_pack`, its trust part. */
  method ValidatePolicy(p: Policy, evidence: Evidence, host: Host) returns (ok: bool, trusted: map<Text, Text>)
    ensures ok <==> PolicyOk(p, evidence, host)
    ensures ok ==> forall s, k :: s in trusted && trusted[s] == k <==> Key(s, k) in p.fabrication
  {
    hide KeysOk, Signers, PublicKeys;
    trusted := map[];
    var ai, aiKeys, human, humanKeys, keys;
    ok, ai, aiKeys := ValidateTrustedKeys(p.ai, 1, host);
    if !ok { return; }
    ok, human, humanKeys := ValidateTrustedKeys(p.human, 0, host);
    if !ok { return; }
    if !(ai.Keys !! human.Keys) || !(aiKeys !! humanKeys) { return false, trusted; }
    if !InRange(p.minimum, 2, MAXIMUM_APPROVALS) || !InRange(p.maximumValidity, 1, MAXIMUM_VALIDITY_SECONDS) {
      return false, trusted;
    }
    ok, trusted, keys := ValidateTrustedKeys(p.fabrication, 2, host);
    if !ok { return; }
    if p.minimum > |p.fabrication| { return false, trusted; }
    if !(trusted.Keys !! ai.Keys + human.Keys) || !(keys !! aiKeys + humanKeys) { return false, trusted; }
    ok := host.policyRest(p, evidence);
  }

  // ----- gate failures --------------------------------------------------------------------

  function WindowText(): Text { T("approval_window_inactive") }

  function ValidityText(maximum: int, actual: int): Text {
    T("fabrication_validity") + (T("_exceeds_policy:maximum_seconds=") + IntText(maximum) + T(":actual_seconds=") + IntText(actual))
  }

  function RejectionText(count: int): Text { T("human_rejection:count=") + IntText(count) }

  function ApprovalsText(required: int, actual: int): Text {
    T("insufficient") + (T("_fabrication_approvals:required=") + IntText(required) + T(":actual=") + IntText(actual))
  }

  function Duration(scope: Scope): int { scope.expires - scope.validFrom }

  function When(condition: bool, text: Text): seq<Text> { if condition then [text] else [] }

  /** The failures of all closed gates, in the order of their texts. */
  function Failures(scope: Scope, p: Policy, approvals: int, rejections: int, evaluated: int): seq<Text> {
    When(!InRange(evaluated, scope.validFrom, scope.expires), WindowText())
    + When(Duration(scope) > p.maximumValidity, ValidityText(p.maximumValidity, Duration(scope)))
    + When(rejections != 0, RejectionText(rejections))
    + When(approvals < p.minimum, ApprovalsText(p.minimum, approvals))
  }

  lemma FirstLetters(maximum: int, actual: int, count: int, required: int, given: int)
    ensures WindowText() != [] && WindowText()[0] == 97
    ensures ValidityText(maximum, actual) != [] && ValidityText(maximum, actual)[0] == 102
    ensures RejectionText(count) != [] && RejectionText(count)[0] == 104
    ensures ApprovalsText(required, given) != [] && ApprovalsText(required, given)[0] == 105
  {
    hide IntText;
    var a, f, h, i := T("approval_window_inactive"), T("fabrication_validity"), T("human_rejection:count="), T("insufficient");
    assert a[0] == 97 && f[0] == 102 && h[0] == 104 && i[0] == 105;
  }

  lemma Join(x: seq<Text>, y: seq<Text>)
    requires StrictlySorted(x) && StrictlySorted(y)
    requires x != [] && y != [] ==> CompareText(x[|x| - 1], y[0]) == Less
    ensures StrictlySorted(x + y)
  {
    hide CompareText;
    var all := x + y;
    forall i | 0 < i < |all|
      ensures CompareText(all[i - 1], all[i]) == Less
    {
      if i < |x| {
        assert all[i - 1] == x[i - 1] && all[i] == x[i];
      } else if i > |x| {
        assert all[i - 1] == y[i - 1 - |x|] && all[i] == y[i - |x|];
      }
    }
  }

  /** Any selection from four texts with increasing first letters is sorted. */
  lemma SelectionSorted(p: bool, q: bool, r: bool, s: bool, a: Text, b: Text, c: Text, d: Text)
    requires a != [] && b != [] && c != [] && d != [] && a[0] < b[0] < c[0] < d[0]
    ensures StrictlySorted(When(p, a) + When(q, b) + When(r, c) + When(s, d))
  {
    assert CompareText(a, b) == CompareText(a, c) == CompareText(a, d) == Less;
    assert CompareText(b, c) == CompareText(b, d) == CompareText(c, d) == Less;
    hide CompareText;
    Join(When(p, a), When(q, b));
    var ab := When(p, a) + When(q, b);
    assert ab == [] || ab[|ab| - 1] == a || ab[|ab| - 1] == b;
    Join(ab, When(r, c));
    var abc := ab + When(r, c);
    assert abc == [] || abc[|abc| - 1] == a || abc[|abc| - 1] == b || abc[|abc| - 1] == c;
    Join(abc, When(s, d));
  }

  lemma SelectionReordered(a: seq<Text>, b: seq<Text>, c: seq<Text>, d: seq<Text>)
    ensures multiset(b + a + d + c) == multiset(a + b + c + d)
  {
  }

  /** `_expected_gate_failures` appends in its own order and sorts the texts. */
  method ExpectedGateFailures(scope: Scope, p: Policy, approvals: int, rejections: int, evaluated: int)
      returns (failures: seq<Text>)
    ensures failures == Failures(scope, p, approvals, rejections, evaluated)
  {
    hide Sort, CompareText, WindowText, ValidityText, RejectionText, ApprovalsText, StrictlySorted, InRange, When;
    var validity := When(Duration(scope) > p.maximumValidity, ValidityText(p.maximumValidity, Duration(scope)));
    var window := When(!InRange(evaluated, scope.validFrom, scope.expires), WindowText());
    var few := When(approvals < p.minimum, ApprovalsText(p.minimum, approvals));
    var rejected := When(rejections != 0, RejectionText(rejections));
    FirstLetters(p.maximumValidity, Duration(scope), rejections, p.minimum, approvals);
    SelectionSorted(!InRange(evaluated, scope.validFrom, scope.expires), Duration(scope) > p.maximumValidity, rejections != 0,
      approvals < p.minimum, WindowText(), ValidityText(p.maximumValidity, Duration(scope)), RejectionText(rejections),
      ApprovalsText(p.minimum, approvals));
    SelectionReordered(window, validity, rejected, few);
    failures := validity + window + few + rejected;
    SortFinds(failures, window + validity + rejected + few);
    failures := Sort(failures);
  }

  // ----- the report -----------------------------------------------------------------------

  predicate ScopeOk(s: Scope, host: Host) {
    && host.slug(s.id) && host.sha(s.challenge) && InRange(s.quantity, 1, MAXIMUM_QUANTITY) && host.currency(s.currency)
    && InRange(s.maximumTotal, 1, MAXIMUM_TOTAL_MINOR_UNITS)
    && InRange(s.validFrom, 0, U64_MAX) && InRange(s.expires, 0, U64_MAX)
    && InRange(Duration(s), 1, MAXIMUM_VALIDITY_SECONDS)
  }

  predicate EvidenceOk(e: Evidence, host: Host) {
    host.sha(e.plan) && host.sha(e.run) && host.sha(e.package) && host.sha(e.receipt) && host.sha(e.policy) && host.evidenceRest(e)
  }

  /** An approval of the common evidence and scope under a trusted fabrication key. */
  predicate SignedOk(a: Approval, r: Report, host: Host) {
    && a.evidence == r.evidence && a.scope == r.scope && host.note(a.reason) && host.note(a.ticket)
    && host.slug(a.signer) && host.sha(a.key) && host.approvalRest(a)
    && Key(a.signer, a.key) in r.policy.fabrication
  }

  function MemberOf(a: Approval, host: Host): Member {
    Member(a.signer, a.key, host.approvalDigest(a), a.approve, a.reason, a.ticket)
  }

  function Approving(signed: seq<Approval>): nat {
    if signed == [] then 0 else Approving(signed[..|signed| - 1]) + (if signed[|signed| - 1].approve then 1 else 0)
  }

  /** One signature: acceptable, after its predecessor, under a new key, mirrored by its member. */
  predicate SignatureOk(r: Report, n: nat, host: Host)
    requires n < |r.signed| == |r.members|
  {
    && SignedOk(r.signed[n], r, host) && r.members[n] == MemberOf(r.signed[n], host)
    && (n > 0 ==> CompareText(r.signed[n - 1].signer, r.signed[n].signer) == Less)
    && (forall i :: 0 <= i < n ==> r.signed[i].key != r.signed[n].key)
  }

  predicate SignaturesOk(r: Report, host: Host) {
    && InRange(|r.signed|, 1, MAXIMUM_APPROVALS) && |r.members| == |r.signed|
    && (forall n :: 0 <= n < |r.signed| ==> SignatureOk(r, n, host))
  }

  predicate CountsOk(r: Report) {
    && InRange(r.approvals, 0, MAXIMUM_APPROVALS) && InRange(r.rejections, 0, MAXIMUM_APPROVALS)
    && r.approvals == Approving(r.signed) && r.rejections == |r.signed| - Approving(r.signed)
  }

  predicate GatesOk(r: Report) {
    && r.failures == Failures(r.scope, r.policy, r.approvals, r.rejections, r.evaluated)
    && r.authorized == r.statusAuthorized == (r.failures == [])
  }

  /** What `_validate_report` accepts. */
  ghost predicate ReportOk(r: Report, host: Host) {
    && EvidenceOk(r.evidence, host) && ScopeOk(r.scope, host) && PolicyOk(r.policy, r.evidence, host)
    && InRange(r.evaluated, 0, U64_MAX) && SignaturesOk(r, host) && CountsOk(r) && GatesOk(r)
  }

  ghost predicate HoldsPairs(trusted: map<Text, Text>, keys: seq<Key>) {
    forall s, k :: s in trusted && trusted[s] == k <==> Key(s, k) in keys
  }

  /** The loop over the signed approvals. */
  method ValidateSignatures(r: Report, trusted: map<Text, Text>, host: Host) returns (ok: bool, approvals: nat)
    requires HoldsPairs(trusted, r.policy.fabrication)
    ensures ok <==> SignaturesOk(r, host)
    ensures ok ==> approvals == Approving(r.signed)
  {
    hide SignatureOk, HoldsPairs, Collected;
    approvals := 0;
    if !InRange(|r.signed|, 1, MAXIMUM_APPROVALS) || |r.members| != |r.signed| { return false, approvals; }
    var signers: set<Text>, keys: set<Text> := {}, {};
    assert r.signed[..0] == [];
    NothingCollected();
    for n := 0 to |r.signed|
      invariant approvals == Approving(r.signed[..n]) && Collected(r.signed[..n], signers, keys)
      invariant forall i :: 0 <= i < n ==> SignatureOk(r, i, host)
    {
      ok := ValidateSignature(r, n, signers, keys, trusted, host);
      if !ok { return; }
      var a := r.signed[n];
      assert r.signed[..n + 1][..n] == r.signed[..n] && r.signed[..n + 1] == r.signed[..n] + [a];
      CollectedStep(r.signed[..n], a, signers, keys);
      signers, keys := signers + {a.signer}, keys + {a.key};
      approvals := approvals + (if a.approve then 1 else 0);
    }
    assert r.signed[..|r.signed|] == r.signed;
    ok := true;
  }

  method ValidateSignature(r: Report, n: nat, signers: set<Text>, keys: set<Text>, trusted: map<Text, Text>, host: Host)
      returns (ok: bool)
    requires n < |r.signed| == |r.members| && HoldsPairs(trusted, r.policy.fabrication)
    requires Collected(r.signed[..n], signers, keys) && forall i :: 0 <= i < n ==> SignatureOk(r, i, host)
    ensures ok <==> SignatureOk(r, n, host)
  {
    hide CompareText, SignedOk, MemberOf, HoldsPairs, Collected;
    var a := r.signed[n];
    ok := ValidateSigned(a, r, trusted, host);
    if !ok { return; }
    if n > 0 && CompareText(r.signed[n - 1].signer, a.signer) != Less { return false; }
    forall k | 0 < k <= n
      ensures CompareText(r.signed[k - 1].signer, r.signed[k].signer) == Less
    {
      if k < n { assert SignatureOk(r, k, host); }
    }
    SignerIsNew(r.signed, n);
    assert forall i :: 0 <= i < n ==> r.signed[..n][i] == r.signed[i];
    CollectedStep(r.signed[..n], a, signers, keys);
    if a.signer in signers || a.key in keys { return false; }
    ok := r.members[n] == MemberOf(a, host);
  }

  /** The signers and the keys seen so far. */
  ghost predicate Collected(signed: seq<Approval>, signers: set<Text>, keys: set<Text>) {
    && signers == (set i | 0 <= i < |signed| :: signed[i].signer) && keys == (set i | 0 <= i < |signed| :: signed[i].key)
  }

  lemma NothingCollected()
    ensures Collected([], {}, {})
  {
  }

  lemma CollectedStep(signed: seq<Approval>, a: Approval, signers: set<Text>, keys: set<Text>)
    requires Collected(signed, signers, keys)
    ensures a.signer in signers <==> exists i :: 0 <= i < |signed| && signed[i].signer == a.signer
    ensures a.key in keys <==> exists i :: 0 <= i < |signed| && signed[i].key == a.key
    ensures Collected(signed + [a], signers + {a.signer}, keys + {a.key})
  {
    var all := signed + [a];
    assert forall i :: 0 <= i < |signed| ==> all[i] == signed[i];
    assert all[|signed|] == a;
  }

  method ValidateSigned(a: Approval, r: Report, trusted: map<Text, Text>, host: Host) returns (ok: bool)
    requires HoldsPairs(trusted, r.policy.fabrication)
    ensures ok <==> SignedOk(a, r, host)
  {
    if a.evidence != r.evidence || a.scope != r.scope || !host.note(a.reason) || !host.note(a.ticket) { return false; }
    if !host.slug(a.signer) || !host.sha(a.key) || !host.approvalRest(a) { return false; }
    ok := a.signer in trusted && trusted[a.signer] == a.key;
  }

  /** Sorted signers are different signers. */
  lemma {:induction false} SignersIncrease(signed: seq<Approval>, i: nat, j: nat)
    requires i < j < |signed|
    requires forall k :: 0 < k <= j ==> CompareText(signed[k - 1].signer, signed[k].signer) == Less
    ensures CompareText(signed[i].signer, signed[j].signer) == Less && signed[i].signer != signed[j].signer
    decreases j
  {
    hide CompareText;
    CompareTextIsOrder();
    if i < j - 1 {
      SignersIncrease(signed, i, j - 1);
    }
  }

  lemma SignerIsNew(signed: seq<Approval>, n: nat)
    requires n < |signed|
    requires forall k :: 0 < k <= n ==> CompareText(signed[k - 1].signer, signed[k].signer) == Less
    ensures forall i :: 0 <= i < n ==> signed[i].signer != signed[n].signer
  {
    hide CompareText;
    forall i | 0 <= i < n ensures signed[i].signer != signed[n].signer { SignersIncrease(signed, i, n); }
  }

  /** `_validate_report`. */
  method ValidateReport(r: Report, host: Host) returns (ok: bool)
    ensures ok <==> ReportOk(r, host)
  {
    hide EvidenceOk, ScopeOk, PolicyOk, SignaturesOk, Failures;
    if !EvidenceOk(r.evidence, host) || !ScopeOk(r.scope, host) { return false; }
    var trusted;
    ok, trusted := ValidatePolicy(r.policy, r.evidence, host);
    if !ok { return; }
    if !InRange(r.evaluated, 0, U64_MAX) { return false; }
    if !InRange(r.approvals, 0, MAXIMUM_APPROVALS) || !InRange(r.rejections, 0, MAXIMUM_APPROVALS) { return false; }
    var approvals;
    ok, approvals := ValidateSignatures(r, trusted, host);
    if !ok { return; }
    var rejections := |r.signed| - approvals;
    if r.approvals != approvals || r.rejections != rejections || r.approvals + r.rejections != |r.signed| { return false; }
    if |r.failures| > MAXIMUM_GATE_FAILURES { FailuresBounded(r.scope, r.policy, approvals, rejections, r.evaluated); return false; }
    var failures := ExpectedGateFailures(r.scope, r.policy, approvals, rejections, r.evaluated);
    var authorized := failures == [];
    ok := r.failures == failures && r.authorized == authorized && r.statusAuthorized == authorized;
  }

  lemma FailuresBounded(scope: Scope, p: Policy, approvals: int, rejections: int, evaluated: int)
    ensures |Failures(scope, p, approvals, rejections, evaluated)| <= MAXIMUM_GATE_FAILURES
  {
    hide WindowText, ValidityText, RejectionText, ApprovalsText, InRange;
  }

  // ----- what an accepted report means ----------------------------------------------------

  /** The keys that approve. */
  ghost function Approvers(signed: seq<Approval>): set<Key> {
    set i | 0 <= i < |signed| && signed[i].approve :: Key(signed[i].signer, signed[i].key)
  }

  lemma ApproversSnoc(p: seq<Approval>, last: Approval)
    ensures Approvers(p + [last]) == Approvers(p) + (if last.approve then {Key(last.signer, last.key)} else {})
  {
    var signed := p + [last];
    assert forall i :: 0 <= i < |p| ==> signed[i] == p[i];
    assert signed[|p|] == last;
    forall k | k in Approvers(p)
      ensures k in Approvers(signed)
    {
      var i :| 0 <= i < |p| && p[i].approve && k == Key(p[i].signer, p[i].key);
      assert signed[i].approve;
    }
  }

  lemma {:induction false} ApproversCounted(signed: seq<Approval>)
    requires forall i, j :: 0 <= i < j < |signed| ==> signed[i].key != signed[j].key
    ensures |Approvers(signed)| == Approving(signed)
  {
    if signed == [] {
      assert Approvers(signed) == {};
    } else {
      var p, last := signed[..|signed| - 1], signed[|signed| - 1];
      ApproversCounted(p);
      assert forall i :: 0 <= i < |p| ==> p[i] == signed[i];
      assert Key(last.signer, last.key) !in Approvers(p);
      assert signed == p + [last];
      ApproversSnoc(p, last);
      hide Approvers;
    }
  }

  lemma {:induction false} EveryoneApproves(signed: seq<Approval>)
    ensures Approving(signed) <= |signed|
    ensures Approving(signed) == |signed| <==> forall i :: 0 <= i < |signed| ==> signed[i].approve
  {
    if signed != [] {
      var p := signed[..|signed| - 1];
      EveryoneApproves(p);
      assert forall i :: 0 <= i < |p| ==> p[i] == signed[i];
    }
  }

  /** An accepted report is authorized exactly when a quorum of distinct trusted keys approves, nobody
      rejects, the evaluation lies in the window and the window fits the policy; the quorum is at least
      two, and no approving key or signer has another role. */
  lemma QuorumDecides(r: Report, host: Host)
    requires ReportOk(r, host)
    ensures r.authorized <==>
              && |Approvers(r.signed)| >= r.policy.minimum && (forall i :: 0 <= i < |r.signed| ==> r.signed[i].approve)
              && r.scope.validFrom <= r.evaluated <= r.scope.expires
              && r.scope.expires - r.scope.validFrom <= r.policy.maximumValidity
    ensures r.policy.minimum >= 2
    ensures forall k :: k in Approvers(r.signed) ==>
              k in r.policy.fabrication && k.signer !in Signers(r.policy.ai) + Signers(r.policy.human)
              && k.key !in PublicKeys(r.policy.ai) + PublicKeys(r.policy.human)
  {
    GatesDecide(r);
    SignaturesMean(r, host);
    hide SignaturesOk, SignedOk, KeysOk, Approving, Failures, ScopeOk, EvidenceOk;
    ApproversCounted(r.signed);
    EveryoneApproves(r.signed);
    forall k | k in Approvers(r.signed)
      ensures k in r.policy.fabrication && k.signer in Signers(r.policy.fabrication) && k.key in PublicKeys(r.policy.fabrication)
    {
      var i :| 0 <= i < |r.signed| && r.signed[i].approve && k == Key(r.signed[i].signer, r.signed[i].key);
    }
  }

  /** Every signer is trusted and no two signatures share a key. */
  lemma SignaturesMean(r: Report, host: Host)
    requires SignaturesOk(r, host)
    ensures forall i, j :: 0 <= i < j < |r.signed| ==> r.signed[i].key != r.signed[j].key
    ensures forall i :: 0 <= i < |r.signed| ==> Key(r.signed[i].signer, r.signed[i].key) in r.policy.fabrication
  {
    hide CompareText, MemberOf;
    forall j | 0 <= j < |r.signed|
      ensures Key(r.signed[j].signer, r.signed[j].key) in r.policy.fabrication
      ensures forall i :: 0 <= i < j ==> r.signed[i].key != r.signed[j].key
    {
      assert SignatureOk(r, j, host);
    }
  }

  lemma GatesDecide(r: Report)
    requires GatesOk(r)
    ensures r.authorized <==>
              && InRange(r.evaluated, r.scope.validFrom, r.scope.expires) && Duration(r.scope) <= r.policy.maximumValidity
              && r.rejections == 0 && r.approvals >= r.policy.minimum
  {
    hide WindowText, ValidityText, RejectionText, ApprovalsText, InRange;
  }

  // ----- the derived summary --------------------------------------------------------------

  function Summarize(r: Report, bytes: int, digest: Text): Summary {
    Summary(r.statusAuthorized, r.authorized, r.scope, r.evaluated, r.approvals, r.rejections, |r.failures|,
      [r.evidence.plan, r.evidence.run, r.evidence.package, r.evidence.receipt, r.evidence.policy, digest], bytes)
  }

  /** `_validate_summary_shape`, which does not see the report. */
  predicate ShapeOk(s: Summary, host: Host) {
    && host.slug(s.scope.id) && host.sha(s.scope.challenge) && InRange(s.scope.quantity, 1, MAXIMUM_QUANTITY)
    && host.currency(s.scope.currency) && InRange(s.scope.maximumTotal, 1, MAXIMUM_TOTAL_MINOR_UNITS)
    && InRange(s.scope.validFrom, 0, U64_MAX) && InRange(s.scope.expires, 0, U64_MAX)
    && InRange(s.scope.expires - s.scope.validFrom, 1, MAXIMUM_VALIDITY_SECONDS) && InRange(s.evaluated, 0, U64_MAX)
    && InRange(s.approvals, 0, MAXIMUM_APPROVALS) && InRange(s.rejections, 0, MAXIMUM_APPROVALS)
    && InRange(s.approvals + s.rejections, 1, MAXIMUM_APPROVALS) && InRange(s.failureCount, 0, MAXIMUM_GATE_FAILURES)
    && (forall i :: 0 <= i < |s.digests| ==> host.sha(s.digests[i]))
    && InRange(s.reportBytes, 1, REPORT_MAX_BYTES)
    && s.statusAuthorized == s.authorized == (s.failureCount == 0) && !(s.authorized && s.rejections != 0)
  }

  /** A scope as the order needs it: at least one board and one minor unit, times in 64 bits, and a
      validity of one second to seven days. */
  predicate SoundScope(s: Scope, host: Host) {
    && host.slug(s.id) && host.sha(s.challenge) && host.currency(s.currency)
    && 0 < s.quantity < 1_000_001 && 0 < s.maximumTotal < 9_007_199_254_740_992
    && 0 <= s.validFrom < s.expires < 0x1_0000_0000_0000_0000 && s.expires - s.validFrom < 7 * 24 * 3600 + 1
  }

  lemma ScopeDecides(s: Scope, host: Host)
    ensures ScopeOk(s, host) <==> SoundScope(s, host)
  {
  }

  /** What the shape check refuses: an unsound scope, counts out of bounds, a malformed digest, an empty or
      oversized report, and an authorization that disagrees with the failures or has a rejection. */
  lemma ShapeDecides(s: Summary, host: Host)
    ensures ShapeOk(s, host) <==>
              && SoundScope(s.scope, host) && 0 <= s.evaluated < 0x1_0000_0000_0000_0000
              && 0 <= s.approvals && 0 <= s.rejections && 0 < s.approvals + s.rejections < 101 && 0 <= s.failureCount < 5
              && (forall d :: d in s.digests ==> host.sha(d))
              && 0 < s.reportBytes < 128 * 1024 * 1024 + 1
              && (s.authorized <==> s.failureCount == 0) && (s.authorized <==> s.statusAuthorized)
              && (s.authorized ==> s.rejections == 0)
  {
    assert (forall d :: d in s.digests ==> host.sha(d)) <==> forall i :: 0 <= i < |s.digests| ==> host.sha(s.digests[i]);
  }

  /** The summary of an accepted report of acceptable size always passes the independent shape check. */
  lemma SummaryPassesShape(r: Report, host: Host, bytes: int, digest: Text)
    requires ReportOk(r, host) && InRange(bytes, 1, REPORT_MAX_BYTES) && host.sha(digest)
    ensures ShapeOk(Summarize(r, bytes, digest), host)
  {
    FailuresBounded(r.scope, r.policy, r.approvals, r.rejections, r.evaluated);
    GatesDecide(r);
    hide PolicyOk, Failures, Approving, SignatureOk;
  }
}
