/**
 Managed signing keys and session tokens. The MAC and the two JSON encodings are parameters:
 any function may serve as the MAC, and any encodings that read back what they wrote.
 */
module Authority {
  import opened Lists
  import opened Wrappers
  import opened Base64Url
  import opened PlainText

  // ----- parameters -----

  datatype SessionClaims = SessionClaims(subject: string, organization: string, sessionId: string, issuedAt: int,
                                         expiresAt: int)

  datatype Signature = Signature(algorithm: string, keyId: string, value: string)

  datatype Host = Host(
    hmac: (seq<Octet>, seq<Octet>) -> seq<Octet>,
    writeClaims: SessionClaims -> seq<Octet>,
    readClaims: seq<Octet> -> Option<SessionClaims>,
    writeSignature: Signature -> seq<Octet>,
    readSignature: seq<Octet> -> Option<Signature>)
  {
    ghost predicate ReadsBack() {
      && (forall c :: readClaims(writeClaims(c)) == Some(c))
      && (forall s :: readSignature(writeSignature(s)) == Some(s))
    }
  }

  // ----- keyring contents -----

  datatype Key = Key(id: string, secret: string)

  datatype KeyData = KeyData(active: Key, retired: seq<Key>, revoked: seq<string>)

  function Secrets(data: KeyData): seq<Key> {
    [data.active] + data.retired
  }

  function KeyIds(keys: seq<Key>): set<string> {
    set k | k in keys :: k.id
  }

  /** Every id the keyring has ever used. */
  function UsedIds(data: KeyData): set<string> {
    KeyIds(Secrets(data)) + set id | id in data.revoked
  }

  function Without(keys: seq<Key>, id: string): seq<Key> {
    Select(keys, (k: Key) => k.id != id)
  }

  /** The first key with this id. */
  function FindKey(keys: seq<Key>, id: string): Option<Key> {
    if keys == [] then None else if keys[0].id == id then Some(keys[0]) else FindKey(keys[1..], id)
  }

  /** A keyring that does not verify as its own: no secret in the active key. */
  predicate WellFormed(data: KeyData) {
    data.active.secret != ""
  }

  // ----- rotation and revocation -----

  datatype KeyFailure = ReasonRequired | UnknownKey | DamagedKeyring

  datatype KeyOperation = Rotate(replacement: Key) | Revoke(id: string, reason: string, replacement: Key)

  function Apply(data: KeyData, operation: KeyOperation): Result<KeyData, KeyFailure> {
    match operation
    case Rotate(replacement) => Ok(data.(retired := data.retired + [data.active], active := replacement))
    case Revoke(id, reason, replacement) =>
      if !HasText(reason) then Err(ReasonRequired)
      else if FindKey(Secrets(data), id).None? then Err(UnknownKey)
      else Ok(KeyData(if id == data.active.id then replacement else data.active, Without(data.retired, id),
                      data.revoked + [id]))
  }

  function After(data: KeyData, operation: KeyOperation): KeyData {
    var r := Apply(data, operation);
    if r.Ok? then r.value else data
  }

  function AfterAll(data: KeyData, operations: seq<KeyOperation>): KeyData {
    if operations == [] then data
    else After(AfterAll(data, operations[..|operations| - 1]), operations[|operations| - 1])
  }

  // ----- signing and verifying -----

  /** `purpose.encode() + b"\\0" + payload`, for an ASCII purpose. */
  function Message(purpose: string, payload: seq<Octet>): seq<Octet> {
    seq(|purpose|, i requires 0 <= i < |purpose| => (purpose[i] as int) % 256) + [0] + payload
  }

  /** None stands for a secret that is not base64url. */
  function SignWith(host: Host, key: Key, purpose: string, payload: seq<Octet>): Option<string> {
    var secret := Decode(key.secret);
    if secret.None? then None else Some(Encode(host.hmac(secret.value, Message(purpose, payload))))
  }

  datatype Verdict = Verified | Revoked | Unavailable | Unsupported | Mismatch | BrokenSecret

  function Verify(host: Host, data: KeyData, purpose: string, payload: seq<Octet>, signature: Signature): Verdict {
    if signature.keyId in data.revoked then Revoked
    else
      var key := FindKey(Secrets(data), signature.keyId);
      if key.None? then Unavailable
      else if signature.algorithm != "HMAC-SHA256" then Unsupported
      else
        var expected := SignWith(host, key.value, purpose, payload);
        if expected.None? then BrokenSecret
        else if expected.value == signature.value then Verified else Mismatch
  }

  // ----- sessions -----

  datatype Identity = Identity(subject: string, organization: string, sessionId: string, authenticatedAt: int,
                               expiresAt: int)

  datatype SessionFailure = InvalidRequest | BrokenKey | Malformed | Rejected(verdict: Verdict) | Expired

  const SESSION_PURPOSE := "RLMGRAPH_SESSION_V1"

  function Issue(host: Host, data: KeyData, subject: string, organization: string, ttl: int, now: int,
                 sessionId: string)
    : Result<string, SessionFailure>
  {
    if !HasText(subject) || !HasText(organization) || ttl <= 0 then Err(InvalidRequest)
    else
      var body := host.writeClaims(SessionClaims(subject, organization, sessionId, now, now + ttl));
      var value := SignWith(host, data.active, SESSION_PURPOSE, body);
      if value.None? then Err(BrokenKey)
      else Ok(Encode(body) + "." + Encode(host.writeSignature(Signature("HMAC-SHA256", data.active.id, value.value))))
  }

  /** The parts before and after the first dot. */
  function SplitAtDot(token: string): Option<(string, string)> {
    if token == "" then None
    else if token[0] == '.' then Some(("", token[1..]))
    else
      var rest := SplitAtDot(token[1..]);
      if rest.None? then None else Some(([token[0]] + rest.value.0, rest.value.1))
  }

  function Authenticate(host: Host, data: KeyData, token: string, now: int): Result<Identity, SessionFailure> {
    var parts := SplitAtDot(token);
    if parts.None? then Err(Malformed)
    else
      var body, signed := Decode(parts.value.0), Decode(parts.value.1);
      if body.None? || signed.None? then Err(Malformed)
      else
        var signature, claims := host.readSignature(signed.value), host.readClaims(body.value);
        if signature.None? || claims.None? then Err(Malformed)
        else
          var verdict := Verify(host, data, SESSION_PURPOSE, body.value, signature.value);
          var c := claims.value;
          if verdict != Verified then Err(Rejected(verdict))
          else if now >= c.expiresAt then Err(Expired)
          else Ok(Identity(c.subject, c.organization, c.sessionId, c.issuedAt, c.expiresAt))
  }

  // ----- the keyring object -----

  class ManagedKeyring {
    /** The key file; None until first used. */
    var file: Option<KeyData>

    constructor (file: Option<KeyData>)
      ensures this.file == file
    {
      this.file := file;
    }

    /** Reads the file, creating it around `generated` if it does not exist; None if it is damaged. */
    method Initialize(generated: Key) returns (data: Option<KeyData>)
      modifies this
      ensures file == if old(file).None? then Some(KeyData(generated, [], [])) else old(file)
      ensures data == if old(file).None? || old(file).value.active.secret != "" then file else None
    {
      if file.Some? {
        return if WellFormed(file.value) then file else None;
      }
      file := Some(KeyData(generated, [], []));
      data := file;
    }

    method RotateKey(generated: Key, replacement: Key) returns (id: Option<string>)
      modifies this
      ensures var data := if old(file).None? then KeyData(generated, [], []) else old(file).value;
              if old(file).Some? && data.active.secret == "" then id == None && file == old(file)
              else id == Some(replacement.id) && file == Some(After(data, Rotate(replacement)))
    {
      var data := Initialize(generated);
      if data.None? {
        return None;
      }
      var changed := data.value;
      changed := changed.(retired := changed.retired + [changed.active]);
      changed := changed.(active := replacement);
      file := Some(changed);
      id := Some(replacement.id);
    }

    method RevokeKey(id: string, reason: string, generated: Key, replacement: Key) returns (r: Result<(), KeyFailure>)
      modifies this
      ensures var data := if old(file).None? then KeyData(generated, [], []) else old(file).value;
              var outcome := Apply(data, Revoke(id, reason, replacement));
              if !HasText(reason) then r == Err(ReasonRequired) && file == old(file)
              else if old(file).Some? && data.active.secret == "" then r == Err(DamagedKeyring) && file == old(file)
              else if outcome.Err? then r == Err(outcome.error) && file == Some(data)
              else r == Ok(()) && file == Some(outcome.value)
    {
      hide HasText;
      if !HasText(reason) {
        return Err(ReasonRequired);
      }
      var read := Initialize(generated);
      if read.None? {
        return Err(DamagedKeyring);
      }
      var data := read.value;
      if FindKey(Secrets(data), id).None? {
        return Err(UnknownKey);
      }
      if id == data.active.id {
        data := data.(active := replacement);
      }
      data := data.(retired := Without(data.retired, id));
      data := data.(revoked := data.revoked + [id]);
      file := Some(data);
      r := Ok(());
    }
  }

  // ----- keys over a run -----

  /** Key ids are never reused: every replacement is new to the keyring it enters. */
  ghost predicate FreshIds(data: KeyData, operations: seq<KeyOperation>) {
    operations == []
    || (FreshIds(data, operations[..|operations| - 1])
        && operations[|operations| - 1].replacement.id !in UsedIds(AfterAll(data, operations[..|operations| - 1])))
  }

  ghost predicate DistinctKeys(keys: seq<Key>) {
    forall i, j | 0 <= i < j < |keys| :: keys[i].id != keys[j].id
  }

  /** An id names at most one usable key, and no usable key is revoked. */
  ghost predicate KeysOk(data: KeyData) {
    && DistinctKeys(data.retired)
    && (forall k | k in data.retired :: k.id != data.active.id && k.id !in data.revoked)
    && data.active.id !in data.revoked
  }

  lemma {:induction false} FindKeyFinds(keys: seq<Key>, key: Key)
    requires DistinctKeys(keys)
    ensures key in keys <==> FindKey(keys, key.id) == Some(key)
  {
    if keys != [] && keys[0].id != key.id {
      FindKeyFinds(keys[1..], key);
      assert keys == [keys[0]] + keys[1..];
    }
  }

  lemma {:induction false} FindKeyIsNone(keys: seq<Key>, id: string)
    ensures FindKey(keys, id).None? <==> id !in KeyIds(keys)
  {
    if keys != [] && keys[0].id != id {
      FindKeyIsNone(keys[1..], id);
      assert forall k :: k in keys <==> k == keys[0] || k in keys[1..];
    }
  }

  lemma {:induction false} WithoutRemoves(keys: seq<Key>, id: string)
    requires DistinctKeys(keys)
    ensures forall k :: k in Without(keys, id) <==> k in keys && k.id != id
    ensures DistinctKeys(Without(keys, id))
  {
    if keys != [] {
      var before, last := keys[..|keys| - 1], keys[|keys| - 1];
      WithoutRemoves(before, id);
      assert keys == before + [last];
      forall k | k in before ensures k.id != last.id {
        var i :| 0 <= i < |before| && before[i] == k;
        assert keys[i].id != keys[|keys| - 1].id;
      }
      assert forall i | 0 <= i < |Without(before, id)| :: Without(before, id)[i] in Without(before, id);
    }
  }

  lemma RotateKeepsKeys(data: KeyData, replacement: Key)
    requires KeysOk(data) && replacement.id !in UsedIds(data)
    ensures KeysOk(After(data, Rotate(replacement)))
    ensures forall k :: k in Secrets(data) ==> k in Secrets(After(data, Rotate(replacement)))
  {
    assert forall k | k in Secrets(data) :: k.id in KeyIds(Secrets(data));
    hide KeyIds;
    assert data.active in Secrets(data) && forall k | k in data.retired :: k in Secrets(data);
    assert forall i | 0 <= i < |data.retired| :: data.retired[i] in data.retired;
  }

  lemma RevokeKeepsKeys(data: KeyData, id: string, reason: string, replacement: Key)
    requires KeysOk(data) && replacement.id !in UsedIds(data)
    requires Apply(data, Revoke(id, reason, replacement)).Ok?
    ensures KeysOk(After(data, Revoke(id, reason, replacement)))
    ensures forall k :: k in Secrets(data) && k.id != id ==> k in Secrets(After(data, Revoke(id, reason, replacement)))
  {
    hide HasText, Without, FindKey, DistinctKeys;
    RevokedIsKnown(data, id, reason, replacement);
    WithoutRemoves(data.retired, id);
    assert forall k | k in Secrets(data) :: k.id in KeyIds(Secrets(data));
    hide KeyIds;
    assert data.active in Secrets(data) && forall k | k in data.retired :: k in Secrets(data);
  }

  lemma RevokedIsKnown(data: KeyData, id: string, reason: string, replacement: Key)
    requires KeysOk(data) && replacement.id !in UsedIds(data)
    requires Apply(data, Revoke(id, reason, replacement)).Ok?
    ensures id in KeyIds(Secrets(data)) && id != replacement.id
  {
    hide HasText, Without;
    FindKeyIsNone(Secrets(data), id);
  }

  lemma OperationKeepsKeys(data: KeyData, operation: KeyOperation, k: Key)
    requires KeysOk(data) && operation.replacement.id !in UsedIds(data)
    ensures KeysOk(After(data, operation))
    ensures k in Secrets(data) ==>
              if operation.Revoke? && HasText(operation.reason) && operation.id == k.id
              then k.id in After(data, operation).revoked else k in Secrets(After(data, operation))
    ensures k.id in data.revoked ==> k.id in After(data, operation).revoked
    ensures k.id in After(data, operation).revoked ==>
              k.id in data.revoked || (operation.Revoke? && HasText(operation.reason) && operation.id == k.id)
  {
    hide HasText, Without, KeysOk, UsedIds;
    match operation
    case Rotate(replacement) =>
      RotateKeepsKeys(data, replacement);
    case Revoke(id, reason, replacement) =>
      FindKeyIsNone(Secrets(data), id);
      if Apply(data, operation).Ok? {
        RevokeKeepsKeys(data, id, reason, replacement);
      }
      assert k in Secrets(data) ==> k.id in KeyIds(Secrets(data));
  }

  /** The run contains an accepted revocation of this key. */
  ghost predicate RevokedIn(operations: seq<KeyOperation>, id: string) {
    exists i | 0 <= i < |operations| ::
      operations[i].Revoke? && operations[i].id == id && HasText(operations[i].reason)
  }

  /** Through any run, a key stays usable, unchanged, until it is revoked, and is then gone for good. */
  lemma {:induction false} KeyLivesUntilRevoked(data: KeyData, operations: seq<KeyOperation>, key: Key)
    requires KeysOk(data) && key in Secrets(data) && FreshIds(data, operations)
    ensures var after := AfterAll(data, operations);
            && KeysOk(after)
            && (RevokedIn(operations, key.id) <==> key.id in after.revoked)
            && (!RevokedIn(operations, key.id) ==> key in Secrets(after))
  {
    hide HasText, Apply, UsedIds;
    if operations == [] {
      assert key == data.active || key in data.retired;
    } else {
      var before, last := operations[..|operations| - 1], operations[|operations| - 1];
      KeyLivesUntilRevoked(data, before, key);
      OperationKeepsKeys(AfterAll(data, before), last, key);
      RevokedInOneMore(before, last, key.id);
      assert operations == before + [last];
    }
  }

  lemma RevokedInOneMore(before: seq<KeyOperation>, last: KeyOperation, id: string)
    ensures RevokedIn(before + [last], id) <==>
            RevokedIn(before, id) || (last.Revoke? && last.id == id && HasText(last.reason))
  {
    hide HasText;
    var all := before + [last];
    assert all[|before|] == last && forall i | 0 <= i < |before| :: all[i] == before[i];
  }

  lemma {:induction false} UsedIdsStay(data: KeyData, operations: seq<KeyOperation>, n: nat)
    requires n <= |operations|
    ensures UsedIds(AfterAll(data, operations[..n])) <= UsedIds(AfterAll(data, operations))
  {
    hide HasText, UsedIds;
    if n < |operations| {
      var before := operations[..|operations| - 1];
      assert before[..n] == operations[..n];
      UsedIdsStay(data, before, n);
      OperationKeepsUsedIds(AfterAll(data, before), operations[|operations| - 1]);
    } else {
      assert operations[..n] == operations;
    }
  }

  lemma OperationKeepsUsedIds(data: KeyData, operation: KeyOperation)
    ensures UsedIds(data) <= UsedIds(After(data, operation))
  {
    hide HasText, FindKey;
    var after := After(data, operation);
    forall k | k in Secrets(data) ensures k.id in UsedIds(after) {
      if operation.Revoke? {
        KeptOrRevoked(data.retired, operation.id, k);
      } else {
        assert k in Secrets(after);
      }
    }
  }

  lemma {:induction false} KeptOrRevoked(keys: seq<Key>, id: string, k: Key)
    ensures k in keys && k.id != id ==> k in Without(keys, id)
  {
    if keys != [] {
      KeptOrRevoked(keys[..|keys| - 1], id, k);
      assert keys == keys[..|keys| - 1] + [keys[|keys| - 1]];
    }
  }

  /** Once the active key is rotated out or revoked it never signs again, through any further run. */
  lemma {:induction false} ReplacedKeySignsNoMore(data: KeyData, operations: seq<KeyOperation>, n: nat)
    requires FreshIds(data, operations) && n < |operations|
    requires var was := AfterAll(data, operations[..n]).active.id;
             operations[n].Rotate? || (operations[n].id == was && HasText(operations[n].reason))
    ensures AfterAll(data, operations).active.id != AfterAll(data, operations[..n]).active.id
  {
    hide HasText, UsedIds, FindKey, Without;
    var before, last := operations[..|operations| - 1], operations[|operations| - 1];
    assert before[..n] == operations[..n];
    UsedIdsStay(data, before, n);
    ActiveIsUsed(AfterAll(data, operations[..n]));
    if n < |operations| - 1 {
      ReplacedKeySignsNoMore(data, before, n);
    } else {
      assert before == operations[..n];
      ActiveIsFound(AfterAll(data, before));
    }
  }

  lemma ActiveIsUsed(data: KeyData)
    ensures data.active.id in UsedIds(data)
  {
    assert data.active in Secrets(data);
  }

  lemma ActiveIsFound(data: KeyData)
    ensures FindKey(Secrets(data), data.active.id) == Some(data.active)
  {
  }

  // ----- tokens -----

  lemma {:induction false} SplitUndoesJoin(a: string, b: string)
    requires forall i | 0 <= i < |a| :: a[i] != '.'
    ensures SplitAtDot(a + "." + b) == Some((a, b))
  {
    if a == "" {
      assert a + "." + b == "." + b;
    } else {
      SplitUndoesJoin(a[1..], b);
      assert (a + "." + b)[1..] == a[1..] + "." + b && (a + "." + b)[0] == a[0];
      assert [a[0]] + a[1..] == a;
    }
  }

  /** A token is issued exactly for a named subject and organization, a lifetime, and a key that can sign. */
  lemma IssuedExactly(host: Host, data: KeyData, subject: string, organization: string, ttl: int, now: int,
                      sessionId: string)
    ensures Issue(host, data, subject, organization, ttl, now, sessionId).Ok? <==>
              HasText(subject) && HasText(organization) && ttl > 0 && Decode(data.active.secret).Some?
  {
    hide HasText, Decode;
  }

  /** What an issued token says when it comes back, whatever the keyring holds by then. */
  lemma IssuedTokenReadsBack(host: Host, issuer: KeyData, subject: string, organization: string, ttl: int, t: int,
                             sessionId: string)
    requires host.ReadsBack()
    requires Issue(host, issuer, subject, organization, ttl, t, sessionId).Ok?
    ensures var claims := SessionClaims(subject, organization, sessionId, t, t + ttl);
            var body := host.writeClaims(claims);
            var value := SignWith(host, issuer.active, SESSION_PURPOSE, body);
            var signature := Signature("HMAC-SHA256", issuer.active.id, if value.Some? then value.value else "");
            var token := Issue(host, issuer, subject, organization, ttl, t, sessionId).value;
            && value.Some? && HasText(subject) && HasText(organization) && ttl > 0
            && SplitAtDot(token) == Some((Encode(body), Encode(host.writeSignature(signature))))
            && Decode(Encode(body)) == Some(body) && host.readClaims(body) == Some(claims)
            && Decode(Encode(host.writeSignature(signature))) == Some(host.writeSignature(signature))
            && host.readSignature(host.writeSignature(signature)) == Some(signature)
  {
    hide HasText, SignWith, SplitAtDot, Decode, Encode;
    var body := host.writeClaims(SessionClaims(subject, organization, sessionId, t, t + ttl));
    var value := SignWith(host, issuer.active, SESSION_PURPOSE, body);
    var signed := host.writeSignature(Signature("HMAC-SHA256", issuer.active.id, value.value));
    DecodeUndoesEncode(body);
    DecodeUndoesEncode(signed);
    EncodedHasNoDot(body);
    SplitUndoesJoin(Encode(body), Encode(signed));
  }

  lemma EncodedHasNoDot(data: seq<Octet>)
    ensures forall i | 0 <= i < |Encode(data)| :: Encode(data)[i] != '.'
  {
    hide Encode, DecodeDigit;
    EncodedShape(data);
  }

  /**
   An issued token authenticates, through any run of rotations and revocations, to exactly what
   was issued, until its expiry or the revocation of its key; after that, never.
   */
  lemma TokenLivesUntilExpiryOrRevocation(host: Host, issuer: KeyData, operations: seq<KeyOperation>, subject: string,
                                          organization: string, ttl: int, t: int, sessionId: string, now: int)
    requires host.ReadsBack() && KeysOk(issuer) && FreshIds(issuer, operations)
    requires Issue(host, issuer, subject, organization, ttl, t, sessionId).Ok?
    ensures Authenticate(host, AfterAll(issuer, operations),
                         Issue(host, issuer, subject, organization, ttl, t, sessionId).value, now) ==
            if RevokedIn(operations, issuer.active.id) then Err(Rejected(Revoked))
            else if now >= t + ttl then Err(Expired)
            else Ok(Identity(subject, organization, sessionId, t, t + ttl))
  {
    hide Issue, HasText, SignWith, SplitAtDot, Decode, Encode, FreshIds, RevokedIn, AfterAll;
    IssuedTokenReadsBack(host, issuer, subject, organization, ttl, t, sessionId);
    assert issuer.active in Secrets(issuer);
    KeyLivesUntilRevoked(issuer, operations, issuer.active);
    var after := AfterAll(issuer, operations);
    if issuer.active in Secrets(after) {
      SecretsAreDistinct(after);
      FindKeyFinds(Secrets(after), issuer.active);
    }
  }

  lemma SecretsAreDistinct(data: KeyData)
    requires KeysOk(data)
    ensures DistinctKeys(Secrets(data))
  {
    assert forall i | 0 <= i < |data.retired| :: data.retired[i] in data.retired;
  }

  // ----- exactly which tokens authenticate -----

  /** The token is two base64url parts around its first dot, which decode to these claims and this signature. */
  ghost predicate Reads(host: Host, token: string, body: seq<Octet>, claims: SessionClaims, signature: Signature) {
    exists a, b ::
      && token == a + "." + b && '.' !in a
      && Decode(a) == Some(body) && host.readClaims(body) == Some(claims)
      && Decode(b).Some? && host.readSignature(Decode(b).value) == Some(signature)
  }

  /** The first key of the id among these. */
  ghost predicate IsFirstKey(keys: seq<Key>, id: string, key: Key) {
    exists n | 0 <= n < |keys| :: keys[n] == key && key.id == id && forall m | 0 <= m < n :: keys[m].id != id
  }

  /** The signature is the MAC of the session purpose and the body under the key it names. */
  ghost predicate Signs(host: Host, key: Key, body: seq<Octet>, signature: Signature) {
    && Decode(key.secret).Some?
    && signature.value == Encode(host.hmac(Decode(key.secret).value, Message(SESSION_PURPOSE, body)))
  }

  /** The named key is not revoked, and is the first of its id; the algorithm is the one known. */
  ghost predicate Names(data: KeyData, signature: Signature, key: Key) {
    && signature.keyId !in data.revoked && signature.algorithm == "HMAC-SHA256"
    && IsFirstKey([data.active] + data.retired, signature.keyId, key)
  }

  lemma {:induction false} SplitExactly(token: string, a: string, b: string)
    ensures SplitAtDot(token) == Some((a, b)) <==> token == a + "." + b && '.' !in a
  {
    if token != "" {
      if token[0] == '.' {
        assert token == "" + "." + token[1..];
        assert a != "" && token == a + "." + b ==> a[0] == token[0];
      } else {
        assert token == a + "." + b ==> a != "" && a[0] == token[0];
        if a != "" {
          SplitExactly(token[1..], a[1..], b);
          assert a == [a[0]] + a[1..];
          assert a + "." + b == [a[0]] + (a[1..] + "." + b);
        }
      }
    }
  }

  lemma {:induction false} FindKeyIsFirst(keys: seq<Key>, id: string, key: Key)
    ensures FindKey(keys, id) == Some(key) <==> IsFirstKey(keys, id, key)
  {
    if keys != [] {
      if keys[0].id != id {
        FindKeyIsFirst(keys[1..], id, key);
        if IsFirstKey(keys[1..], id, key) {
          var n :| && 0 <= n < |keys[1..]| && keys[1..][n] == key && key.id == id
                   && forall m | 0 <= m < n :: keys[1..][m].id != id;
          assert keys[n + 1] == key && forall m | 0 < m < n + 1 :: keys[m] == keys[1..][m - 1];
        }
        if IsFirstKey(keys, id, key) {
          var n :| 0 <= n < |keys| && keys[n] == key && key.id == id && forall m | 0 <= m < n :: keys[m].id != id;
          assert keys[1..][n - 1] == key && forall m | 0 <= m < n - 1 :: keys[1..][m] == keys[m + 1];
        }
      } else {
        assert keys[0] == key ==> IsFirstKey(keys, id, key);
      }
    }
  }

  lemma ReadsExactly(host: Host, token: string, body: seq<Octet>, claims: SessionClaims, signature: Signature)
    ensures Reads(host, token, body, claims, signature) <==>
              && SplitAtDot(token).Some?
              && var (a, b) := SplitAtDot(token).value;
              && Decode(a) == Some(body) && host.readClaims(body) == Some(claims)
              && Decode(b).Some? && host.readSignature(Decode(b).value) == Some(signature)
  {
    hide Decode, SplitAtDot;
    if SplitAtDot(token).Some? {
      SplitExactly(token, SplitAtDot(token).value.0, SplitAtDot(token).value.1);
    }
    if Reads(host, token, body, claims, signature) {
      var a, b :|
        && token == a + "." + b && '.' !in a
        && Decode(a) == Some(body) && host.readClaims(body) == Some(claims)
        && Decode(b).Some? && host.readSignature(Decode(b).value) == Some(signature);
      SplitExactly(token, a, b);
    }
  }

  lemma TokenReads(host: Host, token: string)
    ensures forall body, claims, signature ::
              Reads(host, token, body, claims, signature) <==>
                && SplitAtDot(token).Some?
                && Decode(SplitAtDot(token).value.0) == Some(body) && host.readClaims(body) == Some(claims)
                && Decode(SplitAtDot(token).value.1).Some?
                && host.readSignature(Decode(SplitAtDot(token).value.1).value) == Some(signature)
  {
    hide Decode, SplitAtDot, Reads;
    forall body, claims, signature
      ensures Reads(host, token, body, claims, signature) <==>
                && SplitAtDot(token).Some?
                && Decode(SplitAtDot(token).value.0) == Some(body) && host.readClaims(body) == Some(claims)
                && Decode(SplitAtDot(token).value.1).Some?
                && host.readSignature(Decode(SplitAtDot(token).value.1).value) == Some(signature)
    {
      ReadsExactly(host, token, body, claims, signature);
    }
  }

  lemma VerifiedExactly(host: Host, data: KeyData, body: seq<Octet>, signature: Signature)
    ensures var verdict := Verify(host, data, SESSION_PURPOSE, body, signature);
            && (verdict == Verified <==> exists key :: Names(data, signature, key) && Signs(host, key, body, signature))
            && (verdict == Mismatch <==>
                exists key ::
                  Names(data, signature, key) && Decode(key.secret).Some? && !Signs(host, key, body, signature))
            && (verdict == Revoked <==> signature.keyId in data.revoked)
            && (verdict == Unavailable <==>
                signature.keyId !in data.revoked && forall key | key in Secrets(data) :: key.id != signature.keyId)
  {
    hide Decode, Encode, FindKey, Message;
    var found := FindKey(Secrets(data), signature.keyId);
    forall key ensures IsFirstKey([data.active] + data.retired, signature.keyId, key) <==> found == Some(key) {
      FindKeyIsFirst(Secrets(data), signature.keyId, key);
    }
    FindKeyIsNone(Secrets(data), signature.keyId);
    hide IsFirstKey;
    if found.Some? && signature.keyId !in data.revoked && signature.algorithm == "HMAC-SHA256" {
      assert Names(data, signature, found.value);
    }
  }

  /**
   A token authenticates to an identity exactly when it reads back as claims and a signature, the
   signature is the MAC of those very claims under a key that is held and not revoked, and the
   claims, which are those of the identity, have not expired.
   */
  lemma AuthenticatesExactly(host: Host, data: KeyData, token: string, now: int, identity: Identity)
    ensures Authenticate(host, data, token, now) == Ok(identity) <==>
              exists body, claims, signature, key ::
                && Reads(host, token, body, claims, signature)
                && Names(data, signature, key) && Signs(host, key, body, signature)
                && now < claims.expiresAt
                && identity == Identity(claims.subject, claims.organization, claims.sessionId, claims.issuedAt,
                                        claims.expiresAt)
  {
    hide Decode, SplitAtDot, Reads, Names, Signs, Verify;
    TokenReads(host, token);
    forall body, signature
      ensures Verify(host, data, SESSION_PURPOSE, body, signature) == Verified <==>
                exists key :: Names(data, signature, key) && Signs(host, key, body, signature)
    {
      VerifiedExactly(host, data, body, signature);
    }
  }

  /** Why a token is refused: it does not read back, its key is gone, its MAC is another one, or it has expired. */
  lemma RefusedExactly(host: Host, data: KeyData, token: string, now: int)
    ensures var r := Authenticate(host, data, token, now);
            && (r == Err(Malformed) <==>
                !exists body, claims, signature :: Reads(host, token, body, claims, signature))
            && (r == Err(Expired) <==>
                exists body, claims, signature, key ::
                  && Reads(host, token, body, claims, signature)
                  && Names(data, signature, key) && Signs(host, key, body, signature)
                  && now >= claims.expiresAt)
            && (r == Err(Rejected(Mismatch)) <==>
                exists body, claims, signature, key ::
                  && Reads(host, token, body, claims, signature)
                  && Names(data, signature, key) && Decode(key.secret).Some? && !Signs(host, key, body, signature))
            && (r == Err(Rejected(Revoked)) <==>
                exists body, claims, signature ::
                  Reads(host, token, body, claims, signature) && signature.keyId in data.revoked)
            && (r == Err(Rejected(Unavailable)) <==>
                exists body, claims, signature ::
                  && Reads(host, token, body, claims, signature) && signature.keyId !in data.revoked
                  && forall key | key in Secrets(data) :: key.id != signature.keyId)
  {
    hide Decode, SplitAtDot, Reads, Names, Signs;
    TokenReads(host, token);
    if exists body, claims, signature :: Reads(host, token, body, claims, signature) {
      var body, claims, signature :| Reads(host, token, body, claims, signature);
      assert forall b, c, s | Reads(host, token, b, c, s) :: b == body && c == claims && s == signature;
      VerifiedExactly(host, data, body, signature);
    }
    hide Verify;
  }

  /** The MAC covers purpose and body apart from each other: no two pairs give one message. */
  lemma MessagesAreSeparate(purpose: string, payload: seq<Octet>, purpose': string, payload': seq<Octet>)
    requires forall ch | ch in purpose + purpose' :: 0 < ch as int < 128
    requires Message(purpose, payload) == Message(purpose', payload')
    ensures purpose == purpose' && payload == payload'
  {
    var m, m' := Message(purpose, payload), Message(purpose', payload');
    forall i | 0 <= i < |purpose| ensures m[i] == purpose[i] as int != 0 {
      assert purpose[i] in purpose + purpose';
    }
    forall i | 0 <= i < |purpose'| ensures m'[i] == purpose'[i] as int != 0 {
      assert purpose'[i] in purpose + purpose';
    }
    assert m[|purpose|] == 0 && m'[|purpose'|] == 0;
    assert |purpose| == |purpose'|;
    assert payload == m[|purpose| + 1..] && payload' == m'[|purpose'| + 1..];
  }

  /** No token whose signature names a revoked key authenticates, now or after any further run. */
  lemma RevokedKeyNeverAuthenticates(host: Host, data: KeyData, operations: seq<KeyOperation>, token: string, now: int,
                                     id: string)
    requires id in data.revoked
    requires SplitAtDot(token).Some? && Decode(SplitAtDot(token).value.1).Some?
    requires var s := host.readSignature(Decode(SplitAtDot(token).value.1).value); s.Some? && s.value.keyId == id
    ensures Authenticate(host, AfterAll(data, operations), token, now).Err?
  {
    RevocationIsPermanent(data, operations, id);
    hide AfterAll, SplitAtDot, Decode, SignWith;
  }

  lemma {:induction false} RevocationIsPermanent(data: KeyData, operations: seq<KeyOperation>, id: string)
    requires id in data.revoked
    ensures id in AfterAll(data, operations).revoked
  {
    hide HasText, FindKey, Without;
    if operations != [] {
      RevocationIsPermanent(data, operations[..|operations| - 1], id);
    }
  }
}
