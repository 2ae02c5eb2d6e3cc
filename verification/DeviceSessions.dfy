/** The repository that merges into device-session documents and the service above it. */
module DeviceSessions {
  import opened Options
  import opened DeviceSessionDoc

  datatype Error = MissingSessionId | MissingSecret | OwnershipMismatch

  class DeviceSessionRepository {
    var docs: map<string, Doc>

    function Find(id: string): Option<Doc>
      reads this
    {
      if id in docs then Some(docs[id]) else None
    }

    constructor ()
      ensures docs == map[]
    {
      docs := map[];
    }

    method Set(id: string, patch: Patch)
      modifies this
      ensures docs == old(docs)[id := Merge(OrEmpty(old(Find(id))), patch)]
    {
      docs := docs[id := Merge(OrEmpty(Find(id)), patch)];
    }

    method RevokeSession(id: string, user: string)
      modifies this
      ensures docs == old(docs)[id := Apply(old(Find(id)), Revoke(user)).value]
    {
      Set(id, RevokePatch(user));
    }
  }

  class DeviceSessionService {
    const repository: DeviceSessionRepository

    constructor ()
      ensures fresh(repository) && repository.docs == map[]
    {
      repository := new DeviceSessionRepository();
    }

    /** Store a secret for a session; an error leaves every document as it was. */
    method UpsertSession(user: string, organization: string, id: string, secret: string, nonce: nat)
      returns (error: Option<Error>)
      modifies repository
      ensures var doc := old(repository.Find(id));
              && error == (if id == "" then Some(MissingSessionId)
                           else if secret == "" then Some(MissingSecret)
                           else if doc.Some? && !Owns(doc.value, user, organization) then Some(OwnershipMismatch)
                           else None)
              && (error.Some? ==> repository.docs == old(repository.docs))
              && (error.None? ==> Apply(doc, Upsert(user, organization, secret, nonce)).Some?)
              && (error.None? ==>
                    var doc' := Apply(doc, Upsert(user, organization, secret, nonce)).value;
                    repository.docs == old(repository.docs)[id := doc'])
    {
      if id == "" { return Some(MissingSessionId); }
      if secret == "" { return Some(MissingSecret); }
      var found := repository.Find(id);
      var existing := OrEmpty(found);
      if found.Some? {
        if existing.user != Some(user) || existing.organization != Some(organization) {
          return Some(OwnershipMismatch);
        }
      }
      var stored := Patch(Keep, Keep, Keep, Keep, Keep, Keep, Keep, Keep);
      stored := stored.(cipher := Field.Set(AesGcm(nonce, secret)));
      stored := stored.(fingerprint := Field.Set(Sha256(secret)));
      var version := VersionOrZero(existing);
      stored := stored.(version := Field.Set(if version == 0 then 1 else version));
      if existing.fingerprint.Some? && existing.fingerprint.value != Sha256(secret) {
        stored := stored.(previousCipher := FieldOf(existing.cipher));
        stored := stored.(previousFingerprint := FieldOf(existing.fingerprint));
        stored := stored.(version := Field.Set((if version == 0 then 1 else version) + 1));
      }
      repository.Set(id,
        stored.(user := Field.Set(user), organization := Field.Set(organization), revoked := Field.Set(false)));
      return None;
    }

    method RevokeSession(id: string, user: string)
      modifies repository
      ensures repository.docs == old(repository.docs)[id := Apply(old(repository.Find(id)), Revoke(user)).value]
    {
      repository.RevokeSession(id, user);
    }

    /** Decrypt the current and the previous secret, as far as they are there. */
    method GetRequestSigningSecrets(id: string) returns (secrets: seq<string>)
      ensures secrets == AcceptedBy(repository.Find(id))
    {
      secrets := [];
      var session := repository.Find(id);
      if session.None? { return; }
      var fields := [session.value.cipher, session.value.previousCipher];
      for i := 0 to |fields|
        invariant i == 0 ==> secrets == []
        invariant i == 1 ==> secrets == Accepted(session.value.(previousCipher := None))
        invariant i == 2 ==> secrets == Accepted(session.value)
      {
        if fields[i].None? { continue; }
        secrets := secrets + [fields[i].value.secret];
      }
    }
  }
}
