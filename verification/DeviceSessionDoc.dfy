/** A device session as a document that is only ever merged into, and the history it must refine. */
module DeviceSessionDoc {
  import opened Options

  /** AES-GCM and SHA-256 idealised: a ciphertext decrypts to its secret and nothing else, a
      fingerprint belongs to one secret. */
  datatype Ciphertext = AesGcm(nonce: nat, secret: string)
  datatype Fingerprint = Sha256(secret: string)

  datatype Doc = Doc(
    user: Option<string>, organization: Option<string>, revoked: Option<bool>, version: Option<int>,
    cipher: Option<Ciphertext>, fingerprint: Option<Fingerprint>,
    previousCipher: Option<Ciphertext>, previousFingerprint: Option<Fingerprint>)

  const EMPTY := Doc(None, None, None, None, None, None, None, None)

  /** What a merging write does with one field. */
  datatype Field<T> = Keep | Delete | Set(value: T)

  datatype Patch = Patch(
    user: Field<string>, organization: Field<string>, revoked: Field<bool>, version: Field<int>,
    cipher: Field<Ciphertext>, fingerprint: Field<Fingerprint>,
    previousCipher: Field<Ciphertext>, previousFingerprint: Field<Fingerprint>)

  function MergeField<T>(was: Option<T>, field: Field<T>): Option<T> {
    match field
    case Keep => was
    case Delete => None
    case Set(value) => Some(value)
  }

  function Merge(doc: Doc, p: Patch): Doc {
    Doc(MergeField(doc.user, p.user), MergeField(doc.organization, p.organization),
        MergeField(doc.revoked, p.revoked), MergeField(doc.version, p.version),
        MergeField(doc.cipher, p.cipher), MergeField(doc.fingerprint, p.fingerprint),
        MergeField(doc.previousCipher, p.previousCipher), MergeField(doc.previousFingerprint, p.previousFingerprint))
  }

  function OrEmpty(doc: Option<Doc>): Doc {
    match doc
    case None => EMPTY
    case Some(d) => d
  }

  /** `int(version or 0)`. */
  function VersionOrZero(doc: Doc): int {
    match doc.version
    case None => 0
    case Some(v) => v
  }

  function FieldOf<T>(value: Option<T>): Field<T> {
    match value
    case None => Keep
    case Some(v) => Set(v)
  }

  predicate Rotates(existing: Doc, secret: string) {
    existing.fingerprint.Some? && existing.fingerprint.value != Sha256(secret)
  }

  /** What an upsert writes: the new secret, and on a change the one it replaces with a higher version. */
  function UpsertPatch(existing: Doc, user: string, organization: string, secret: string, nonce: nat): Patch {
    var version := if VersionOrZero(existing) == 0 then 1 else VersionOrZero(existing);
    var p := Patch(Set(user), Set(organization), Set(false), Set(version),
                   Set(AesGcm(nonce, secret)), Set(Sha256(secret)), Keep, Keep);
    if Rotates(existing, secret) then
      p.(previousCipher := FieldOf(existing.cipher), previousFingerprint := FieldOf(existing.fingerprint),
         version := Set(version + 1))
    else p
  }

  function RevokePatch(user: string): Patch {
    Patch(Set(user), Keep, Set(true), Keep, Delete, Delete, Delete, Delete)
  }

  predicate Owns(doc: Doc, user: string, organization: string) {
    doc.user == Some(user) && doc.organization == Some(organization)
  }

  /** What happens to one device session. */
  datatype Event =
    | Upsert(user: string, organization: string, secret: string, nonce: nat)
    | Revoke(user: string)

  function Apply(doc: Option<Doc>, e: Event): Option<Doc> {
    match e
    case Revoke(user) => Some(Merge(OrEmpty(doc), RevokePatch(user)))
    case Upsert(user, organization, secret, nonce) =>
      if secret == "" || (doc.Some? && !Owns(doc.value, user, organization)) then doc
      else Some(Merge(OrEmpty(doc), UpsertPatch(OrEmpty(doc), user, organization, secret, nonce)))
  }

  /** The document after a history; the newest event is the last one. */
  function Run(events: seq<Event>): Option<Doc> {
    if events == [] then None else Apply(Run(events[..|events| - 1]), events[|events| - 1])
  }

  /** The secrets that verify a request signature, the current one first. */
  function Accepted(doc: Doc): seq<string> {
    (if doc.cipher.Some? then [doc.cipher.value.secret] else []) +
    (if doc.previousCipher.Some? then [doc.previousCipher.value.secret] else [])
  }

  function AcceptedBy(doc: Option<Doc>): seq<string> {
    match doc
    case None => []
    case Some(d) => Accepted(d)
  }

  // The history, without documents.

  /** Who a session belongs to: whoever revoked it last, else whoever created it, in the organization
      it was created for; revoking a session nobody created leaves it without an organization. */
  datatype Owner = Nobody | Owner(user: string, organization: Option<string>)

  function OwnerAfter(events: seq<Event>): Owner {
    if events == [] then Nobody
    else
      var before := OwnerAfter(events[..|events| - 1]);
      match events[|events| - 1]
      case Revoke(user) => Owner(user, if before.Nobody? then None else before.organization)
      case Upsert(user, organization, secret, _) =>
        if before.Nobody? && secret != "" then Owner(user, Some(organization)) else before
  }

  predicate MayUpsert(owner: Owner, e: Event) {
    e.Upsert? && e.secret != "" && (owner.Nobody? || owner == Owner(e.user, Some(e.organization)))
  }

  /** The secrets of one stretch between revocations, and how many stretches' worth came before. */
  function Epochs(events: seq<Event>): (epochs: seq<seq<string>>)
    ensures |epochs| >= 1
  {
    if events == [] then [[]]
    else
      var before := Epochs(events[..|events| - 1]);
      var e := events[|events| - 1];
      if e.Revoke? then before + [[]]
      else if MayUpsert(OwnerAfter(events[..|events| - 1]), e) then
        before[|before| - 1 := before[|before| - 1] + [e.secret]]
      else before
  }

  function CurrentEpoch(events: seq<Event>): seq<string> {
    var epochs := Epochs(events);
    epochs[|epochs| - 1]
  }

  /** Neighbouring repetitions dropped. */
  function Dedup(secrets: seq<string>): (r: seq<string>)
    ensures secrets != [] ==> r != [] && r[|r| - 1] == secrets[|secrets| - 1]
    ensures secrets == [] ==> r == []
  {
    var n := |secrets|;
    if n <= 1 then secrets
    else if secrets[n - 1] == secrets[n - 2] then Dedup(secrets[..n - 1])
    else Dedup(secrets[..n - 1]) + [secrets[n - 1]]
  }

  /** How often the secret changed, over all epochs. */
  function Changes(epochs: seq<seq<string>>): nat {
    if epochs == [] then 0
    else
      var distinct := |Dedup(epochs[|epochs| - 1])|;
      Changes(epochs[..|epochs| - 1]) + (if distinct == 0 then 0 else distinct - 1)
  }

  /** The last two, the last one first. */
  function NewestTwo(secrets: seq<string>): seq<string> {
    var n := |secrets|;
    if n == 0 then [] else if n == 1 then [secrets[0]] else [secrets[n - 1], secrets[n - 2]]
  }

  /** Some upsert has been accepted. */
  predicate EverStored(epochs: seq<seq<string>>) {
    exists i :: 0 <= i < |epochs| && epochs[i] != []
  }

  predicate OwnerMatches(doc: Option<Doc>, owner: Owner) {
    match owner
    case Nobody => doc.None?
    case Owner(user, organization) =>
      doc.Some? && doc.value.user == Some(user) && doc.value.organization == organization
  }

  /** The document says what the history says. */
  ghost predicate Refines(doc: Option<Doc>, owner: Owner, epochs: seq<seq<string>>)
    requires epochs != []
  {
    var current := epochs[|epochs| - 1];
    && OwnerMatches(doc, owner)
    && AcceptedBy(doc) == NewestTwo(Dedup(current))
    && (doc.Some? ==> doc.value.version == if EverStored(epochs) then Some(1 + Changes(epochs)) else None)
    && (doc.None? ==> !EverStored(epochs))
    && (doc.Some? ==> doc.value.revoked == Some(current == []))
    && (doc.Some? ==> doc.value.fingerprint == if current == [] then None else Some(Sha256(current[|current| - 1])))
    && (doc.Some? ==> (doc.value.cipher.Some? <==> current != []) && (doc.value.previousCipher.Some? ==> current != []))
  }

  lemma NewEpochKeepsCount(epochs: seq<seq<string>>)
    ensures Changes(epochs + [[]]) == Changes(epochs)
    ensures EverStored(epochs + [[]]) <==> EverStored(epochs)
  {
    assert (epochs + [[]])[..|epochs|] == epochs;
    if EverStored(epochs) {
      var i :| 0 <= i < |epochs| && epochs[i] != [];
      assert (epochs + [[]])[i] != [];
    }
  }

  lemma RevokeRefines(doc: Option<Doc>, owner: Owner, epochs: seq<seq<string>>, user: string)
    requires epochs != [] && Refines(doc, owner, epochs)
    ensures var organization := if owner.Nobody? then None else owner.organization;
            Refines(Apply(doc, Revoke(user)), Owner(user, organization), epochs + [[]])
  {
    NewEpochKeepsCount(epochs);
  }

  lemma PutCounts(epochs: seq<seq<string>>, secret: string)
    requires epochs != []
    ensures var n := |epochs| - 1;
            var current := epochs[n];
            var epochs' := epochs[n := current + [secret]];
            && EverStored(epochs')
            && Dedup(current + [secret]) ==
               (if current != [] && current[|current| - 1] == secret then Dedup(current) else Dedup(current) + [secret])
            && Changes(epochs') ==
               Changes(epochs) + (if current != [] && current[|current| - 1] != secret then 1 else 0)
  {
    var n := |epochs| - 1;
    var current := epochs[n];
    var epochs' := epochs[n := current + [secret]];
    assert epochs'[n] != [];
    assert epochs'[..n] == epochs[..n];
    assert (current + [secret])[..|current|] == current;
  }

  lemma NeverStoredHasNoChanges(epochs: seq<seq<string>>)
    requires !EverStored(epochs)
    ensures Changes(epochs) == 0
  {
    if epochs != [] {
      assert epochs[|epochs| - 1] == [];
      NeverStoredHasNoChanges(epochs[..|epochs| - 1]);
    }
  }

  /** What an upsert does to the accepted secrets of a document. */
  lemma PutAccepts(doc: Option<Doc>, user: string, organization: string, secret: string, nonce: nat)
    requires secret != "" && (doc.Some? ==> Owns(doc.value, user, organization))
    requires doc.Some? ==> (doc.value.fingerprint.Some? <==> doc.value.cipher.Some?)
    requires doc.Some? && doc.value.cipher.Some? ==>
              doc.value.fingerprint.value == Sha256(doc.value.cipher.value.secret)
    requires doc.Some? && doc.value.cipher.None? ==> doc.value.previousCipher.None?
    ensures var doc' := Apply(doc, Upsert(user, organization, secret, nonce));
            AcceptedBy(doc') ==
              if doc.None? || doc.value.cipher.None? then [secret]
              else if doc.value.cipher.value.secret == secret then AcceptedBy(doc)
              else [secret, doc.value.cipher.value.secret]
  {
  }

  /** What an upsert does to the other fields. */
  lemma PutFields(doc: Option<Doc>, user: string, organization: string, secret: string, nonce: nat)
    requires secret != "" && (doc.Some? ==> Owns(doc.value, user, organization))
    ensures var existing := OrEmpty(doc);
            var version := if VersionOrZero(existing) == 0 then 1 else VersionOrZero(existing);
            var doc' := Apply(doc, Upsert(user, organization, secret, nonce));
            && doc'.Some? && Owns(doc'.value, user, organization)
            && doc'.value.revoked == Some(false)
            && doc'.value.cipher.Some? && doc'.value.fingerprint == Some(Sha256(secret))
            && doc'.value.version == Some(if Rotates(existing, secret) then version + 1 else version)
  {
  }

  lemma NewestTwoAppend(secrets: seq<string>, x: string)
    ensures NewestTwo(secrets + [x]) == if secrets == [] then [x] else [x, secrets[|secrets| - 1]]
    ensures secrets != [] ==> NewestTwo(secrets) != [] && NewestTwo(secrets)[0] == secrets[|secrets| - 1]
  {
  }

  lemma StoredSometime(epochs: seq<seq<string>>, i: nat)
    requires i < |epochs| && epochs[i] != []
    ensures EverStored(epochs)
  {
  }

  lemma CurrentSecret(doc: Option<Doc>)
    ensures doc.Some? && doc.value.cipher.Some? ==>
              AcceptedBy(doc) != [] && AcceptedBy(doc)[0] == doc.value.cipher.value.secret
  {
  }

  lemma PutRefines(doc: Option<Doc>, owner: Owner, epochs: seq<seq<string>>, e: Event)
    requires epochs != [] && Refines(doc, owner, epochs) && MayUpsert(owner, e)
    ensures var n := |epochs| - 1;
            Refines(Apply(doc, e), if owner.Nobody? then Owner(e.user, Some(e.organization)) else owner,
                    epochs[n := epochs[n] + [e.secret]])
  {
    hide Changes, EverStored, Dedup, NewestTwo, AcceptedBy, Apply;
    var n := |epochs| - 1;
    var current := epochs[n];
    PutCounts(epochs, e.secret);
    if !EverStored(epochs) { NeverStoredHasNoChanges(epochs); }
    if current != [] { StoredSometime(epochs, n); }
    NewestTwoAppend(Dedup(current), e.secret);
    CurrentSecret(doc);
    PutAccepts(doc, e.user, e.organization, e.secret, e.nonce);
    PutFields(doc, e.user, e.organization, e.secret, e.nonce);
  }

  lemma {:induction false} RunRefines(events: seq<Event>)
    ensures Refines(Run(events), OwnerAfter(events), Epochs(events))
    decreases |events|
  {
    if events == [] {
      assert Epochs(events) == [[]];
    } else {
      RunRefines(events[..|events| - 1]);
      StepRefines(events);
    }
  }

  lemma StepRefines(events: seq<Event>)
    requires events != []
    requires var before := events[..|events| - 1];
             Refines(Run(before), OwnerAfter(before), Epochs(before))
    ensures Refines(Run(events), OwnerAfter(events), Epochs(events))
  {
    hide Refines, Apply;
    var before, e := events[..|events| - 1], events[|events| - 1];
    var doc, owner, epochs := Run(before), OwnerAfter(before), Epochs(before);
    assert Run(events) == Apply(doc, e);
    if e.Revoke? {
      assert OwnerAfter(events) == Owner(e.user, if owner.Nobody? then None else owner.organization);
      assert Epochs(events) == epochs + [[]];
      hide Run, OwnerAfter, Epochs;
      RevokeRefines(doc, owner, epochs, e.user);
    } else if MayUpsert(owner, e) {
      assert OwnerAfter(events) == if owner.Nobody? then Owner(e.user, Some(e.organization)) else owner;
      assert Epochs(events) == epochs[|epochs| - 1 := epochs[|epochs| - 1] + [e.secret]];
      hide Run, OwnerAfter, Epochs;
      PutRefines(doc, owner, epochs, e);
    } else {
      assert owner.Nobody? ==> e.secret == "";
      assert OwnerAfter(events) == owner;
      assert Epochs(events) == epochs;
      hide Run, OwnerAfter, Epochs;
      RefusedChangesNothing(doc, owner, epochs, e);
    }
  }

  lemma RefusedChangesNothing(doc: Option<Doc>, owner: Owner, epochs: seq<seq<string>>, e: Event)
    requires epochs != [] && Refines(doc, owner, epochs) && e.Upsert? && !MayUpsert(owner, e)
    ensures Apply(doc, e) == doc && (owner.Nobody? ==> e.secret == "")
  {
  }

  /** Main result: for any history the accepted secrets are the last two of the secrets stored since
      the last revocation, neighbouring repetitions counted once, the newest first; and the version is
      one more than the number of changes over all epochs. */
  lemma AcceptedAreNewestTwo(events: seq<Event>)
    ensures AcceptedBy(Run(events)) == NewestTwo(Dedup(CurrentEpoch(events)))
    ensures EverStored(Epochs(events)) ==>
              Run(events).Some? && Run(events).value.version == Some(1 + Changes(Epochs(events)))
    ensures Run(events).Some? ==> (Run(events).value.revoked == Some(true) <==> AcceptedBy(Run(events)) == [])
  {
    hide Run, Epochs, OwnerAfter, Dedup, Changes, NewestTwo, EverStored;
    RunRefines(events);
    NewestTwoOfSome(Dedup(CurrentEpoch(events)));
  }

  lemma NewestTwoOfSome(secrets: seq<string>)
    ensures NewestTwo(secrets) == [] <==> secrets == []
  {
  }

  lemma NewestComesFirst(secrets: seq<string>)
    requires secrets != []
    ensures NewestTwo(secrets)[..1] == [secrets[|secrets| - 1]]
  {
  }

  lemma OneMoreEvent(events: seq<Event>, e: Event)
    ensures Run(events + [e]) == Apply(Run(events), e)
    ensures MayUpsert(OwnerAfter(events), e) ==> CurrentEpoch(events + [e]) == CurrentEpoch(events) + [e.secret]
  {
    hide Apply, OwnerAfter, MayUpsert;
    var all := events + [e];
    assert all[..|all| - 1] == events && all[|all| - 1] == e;
    assert Run(all) == Apply(Run(events), e);
    hide Run;
    if MayUpsert(OwnerAfter(events), e) {
      assert !e.Revoke? by { OnlyUpserts(OwnerAfter(events), e); }
      var before := Epochs(events);
      var grown := before[|before| - 1] + [e.secret];
      assert Epochs(all) == before[|before| - 1 := grown];
      hide Epochs;
    }
  }

  lemma OnlyUpserts(owner: Owner, e: Event)
    requires MayUpsert(owner, e)
    ensures e.Upsert?
  {
  }

  /** A stored upsert is one by the owner of the session with a non-empty secret. */
  lemma UpsertIsStoredExactlyForTheOwner(events: seq<Event>, e: Event)
    requires e.Upsert?
    ensures AcceptedBy(Apply(Run(events), e)) == NewestTwo(Dedup(CurrentEpoch(events + [e])))
    ensures MayUpsert(OwnerAfter(events), e) ==> AcceptedBy(Apply(Run(events), e))[..1] == [e.secret]
    ensures !MayUpsert(OwnerAfter(events), e) ==> Apply(Run(events), e) == Run(events)
  {
    hide Apply, OwnerAfter, Dedup, Changes, EverStored, Epochs, Run, AcceptedBy, NewestTwo, Refines, MayUpsert;
    OneMoreEvent(events, e);
    AcceptedAreNewestTwo(events + [e]);
    if MayUpsert(OwnerAfter(events), e) {
      NewestComesFirst(Dedup(CurrentEpoch(events + [e])));
    } else {
      RunRefines(events);
      RefusedChangesNothing(Run(events), OwnerAfter(events), Epochs(events), e);
    }
  }

  /** Revoking a session that was never stored blocks it for good: the document it creates has no
      organization, so every later upsert is refused, whoever makes it. */
  lemma {:induction false} RevokedBeforeStoredIsBlocked(user: string, later: seq<Event>)
    ensures AcceptedBy(Run([Revoke(user)] + later)) == []
    ensures Run([Revoke(user)] + later).Some? && Run([Revoke(user)] + later).value.organization == None
    decreases |later|
  {
    var events := [Revoke(user)] + later;
    if later == [] {
      assert events[..0] == [] && Run(events[..0]) == None;
    } else {
      var before := later[..|later| - 1];
      assert events[..|events| - 1] == [Revoke(user)] + before;
      RevokedBeforeStoredIsBlocked(user, before);
      assert Run(events) == Apply(Run([Revoke(user)] + before), later[|later| - 1]);
      hide Run;
      BlockedStaysBlocked(Run([Revoke(user)] + before), later[|later| - 1]);
    }
  }

  lemma BlockedStaysBlocked(doc: Option<Doc>, e: Event)
    requires doc.Some? && doc.value.organization == None && AcceptedBy(doc) == []
    ensures var doc' := Apply(doc, e);
            doc'.Some? && doc'.value.organization == None && AcceptedBy(doc') == []
  {
  }

  /** The fingerprints belong to the secrets that the ciphertexts hold. */
  predicate FingerprintsMatch(doc: Option<Doc>) {
    doc.Some? ==>
      && doc.value.fingerprint == (if doc.value.cipher.Some? then Some(Sha256(doc.value.cipher.value.secret)) else None)
      && doc.value.previousFingerprint ==
         (if doc.value.previousCipher.Some? then Some(Sha256(doc.value.previousCipher.value.secret)) else None)
  }

  /** Along every history each stored fingerprint is that of the secret stored beside it. */
  lemma {:induction false} FingerprintsAlwaysMatch(events: seq<Event>)
    ensures FingerprintsMatch(Run(events))
    decreases |events|
  {
    if events != [] {
      FingerprintsAlwaysMatch(events[..|events| - 1]);
    }
  }

  /** What an accepted upsert stores, field by field: its own ciphertext, and the one it replaces
      exactly if the secret is another one. */
  lemma UpsertStores(doc: Option<Doc>, user: string, organization: string, secret: string, nonce: nat)
    requires secret != "" && FingerprintsMatch(doc)
    requires doc.Some? ==> doc.value.user == Some(user) && doc.value.organization == Some(organization)
    ensures var d' := Apply(doc, Upsert(user, organization, secret, nonce));
            && d'.Some? && d'.value.user == Some(user) && d'.value.organization == Some(organization)
            && d'.value.revoked == Some(false) && d'.value.cipher == Some(AesGcm(nonce, secret))
            && d'.value.previousCipher ==
               (if doc.None? then None
                else if doc.value.cipher.Some? && doc.value.cipher.value.secret != secret then doc.value.cipher
                else doc.value.previousCipher)
  {
  }
}
