/** The vault's tokens and key ring (backend/app/core/security_vault.py).

    The ciphers, the key derivation and the keyed digest are parameters: only the laws collected in
    `Crypto.Lawful` are used of them. A ring lists the primary key first, then the previous keys. */
module Vault {
  import opened Prelude
  import opened Base64Url

  type Bytes = seq<byte>
  type Key = string

  datatype Crypto = Crypto(
    keyId: Key -> Bytes,
    seal: (Key, Bytes, Bytes, string) -> Bytes,
    unseal: (Key, Bytes, Bytes, string) -> Option<Bytes>,
    fernet: (Key, Bytes) -> string,
    unfernet: (Key, string) -> Option<Bytes>,
    digest: (Key, string) -> string)
  {
    /** Authenticated encryption opens what it sealed under the same key, nonce and context and adds
        a 16-byte tag; a Fernet token opens under its own key alone and is never empty, never
        outside ASCII and never starts like a GCM token. */
    ghost predicate Lawful() {
      && (forall k :: |keyId(k)| == KEY_ID_BYTES)
      && (forall k, n, p, c :: unseal(k, n, seal(k, n, p, c), c) == Some(p))
      && (forall k, n, p, c :: |seal(k, n, p, c)| == |p| + TAG_BYTES)
      && (forall k, p :: Ascii(fernet(k, p)) && fernet(k, p) != "" && !StartsLikeGcm(fernet(k, p)))
      && (forall j, k, p :: unfernet(j, fernet(k, p)) == if j == k then Some(p) else None)
    }
  }

  const GCM_PREFIX := "v2."
  const KEY_ID_BYTES := 4
  const NONCE_BYTES := 12
  const TAG_BYTES := 16

  predicate StartsLikeGcm(token: string) {
    GCM_PREFIX <= token
  }

  datatype VaultError = NotDecryptable | NotBase64 | Truncated | UnknownKey | Tampered

  // ----- The ring by key id -----

  datatype Entry = Entry(id: Bytes, key: Key)

  /** Assigning to a dictionary: an existing id keeps its place. */
  function Put(entries: seq<Entry>, id: Bytes, key: Key): seq<Entry> {
    if entries == [] then [Entry(id, key)]
    else if entries[0].id == id then [Entry(id, key)] + entries[1..]
    else [entries[0]] + Put(entries[1..], id, key)
  }

  /** The dictionary filled from the oldest key to the primary, in insertion order. */
  function ById(c: Crypto, ring: seq<Key>): seq<Entry> {
    if ring == [] then [] else Put(ById(c, ring[1..]), c.keyId(ring[0]), ring[0])
  }

  function Lookup(entries: seq<Entry>, id: Bytes): Option<Key> {
    if entries == [] then None
    else if entries[0].id == id then Some(entries[0].key)
    else Lookup(entries[1..], id)
  }

  // ----- Tokens -----

  function Seal(c: Crypto, ring: seq<Key>, nonce: Bytes, plain: Bytes, context: string): string
    requires ring != []
  {
    GCM_PREFIX + StripPads(Encode(c.keyId(ring[0]) + nonce + c.seal(ring[0], nonce, plain, context)))
  }

  /** The first key of the ring that opens a Fernet token. */
  function UnfernetAny(c: Crypto, ring: seq<Key>, token: string): Option<Bytes> {
    if ring == [] then None
    else if c.unfernet(ring[0], token).Some? then c.unfernet(ring[0], token)
    else UnfernetAny(c, ring[1..], token)
  }

  function Open(c: Crypto, ring: seq<Key>, token: string, context: string): Result<Bytes, VaultError> {
    if token == "" then Failure(NotDecryptable)
    else if !StartsLikeGcm(token) then
      match if Ascii(token) then UnfernetAny(c, ring, token) else None
      case None => Failure(NotDecryptable)
      case Some(plain) => Success(plain)
    else
      match Decode(token[|GCM_PREFIX|..])
      case None => Failure(NotBase64)
      case Some(raw) =>
        if |raw| < KEY_ID_BYTES + NONCE_BYTES + TAG_BYTES then Failure(Truncated)
        else
          match Lookup(ById(c, ring), raw[..KEY_ID_BYTES])
          case None => Failure(UnknownKey)
          case Some(key) =>
            var nonce := raw[KEY_ID_BYTES..KEY_ID_BYTES + NONCE_BYTES];
            var sealed := raw[KEY_ID_BYTES + NONCE_BYTES..];
            match c.unseal(key, nonce, sealed, context)
            case None => Failure(Tampered)
            case Some(plain) => Success(plain)
  }

  predicate IsCurrent(c: Crypto, ring: seq<Key>, token: string)
    requires ring != []
  {
    StartsLikeGcm(token)
    && match Decode(token[|GCM_PREFIX|..])
       case None => false
       case Some(raw) => (if |raw| < KEY_ID_BYTES then raw else raw[..KEY_ID_BYTES]) == c.keyId(ring[0])
  }

  method Wipe(buffer: array<byte>)
    modifies buffer
    ensures forall i :: 0 <= i < buffer.Length ==> buffer[i] == 0
  {
    for i := 0 to buffer.Length
      invariant forall j :: 0 <= j < i ==> buffer[j] == 0
    {
      buffer[i] := 0;
    }
  }

  /** Re-seal under the primary key. The plaintext passes through a buffer that is wiped. */
  method Rotate(c: Crypto, ring: seq<Key>, token: string, context: string, nonce: Bytes)
    returns (r: Result<string, VaultError>, buffer: array<byte>)
    requires ring != []
    ensures r == match Open(c, ring, token, context)
                 case Failure(e) => Failure(e)
                 case Success(plain) => Success(Seal(c, ring, nonce, plain, context))
    ensures r.Success? ==> buffer.Length == |Open(c, ring, token, context).value|
    ensures forall i :: 0 <= i < buffer.Length ==> buffer[i] == 0
  {
    var result := Open(c, ring, token, context);
    if result.Failure? {
      buffer := new byte[0];
      return Failure(result.error), buffer;
    }
    buffer := new byte[|result.value|](i requires 0 <= i < |result.value| => result.value[i]);
    assert buffer[..] == result.value;
    r := Success(Seal(c, ring, nonce, buffer[..], context));
    Wipe(buffer);
  }

  // ----- Framing -----

  /** Slicing inverts the concatenation of key id, nonce and sealed part, through the text form. */
  lemma Framing(id: Bytes, nonce: Bytes, sealed: Bytes)
    requires |id| == 4 && |nonce| == 12 && |sealed| >= 16
    ensures var token := "v2." + StripPads(Encode(id + nonce + sealed));
            && StartsLikeGcm(token) && Decode(token[3..]).Some?
            && var raw := Decode(token[3..]).value;
               && |raw| >= 32 && raw[..4] == id && raw[4..16] == nonce && raw[16..] == sealed
  {
    RoundTrip(id + nonce + sealed);
    var text := StripPads(Encode(id + nonce + sealed));
    assert (GCM_PREFIX + text)[|GCM_PREFIX|..] == text;
  }

  /** A sealed token is the prefix and the unpadded text of the primary's key id, the nonce and what the
      cipher made of the plaintext in its context. */
  lemma SealedIsFramed(c: Crypto, ring: seq<Key>, nonce: Bytes, plain: Bytes, context: string)
    requires c.Lawful() && ring != [] && |nonce| == 12
    ensures var token := Seal(c, ring, nonce, plain, context);
            && |token| > 3 && token[..3] == "v2." && '=' !in token
            && Decode(token[3..]) == Some(c.keyId(ring[0]) + nonce + c.seal(ring[0], nonce, plain, context))
  {
    var raw := c.keyId(ring[0]) + nonce + c.seal(ring[0], nonce, plain, context);
    RoundTrip(raw);
    StripIsBare(raw);
    BareIsPlain(raw);
    BareLength(raw);
    var token := Seal(c, ring, nonce, plain, context);
    assert token[3..] == StripPads(Encode(raw)) && token[..3] == "v2.";
    assert token == token[..3] + token[3..];
  }

  /** The ways in which a token fails before any cipher sees it: it is empty, it is no text of a GCM
      token and no Fernet key of the ring opens it, its text is not base64, or it is shorter than the 32
      bytes that key id, nonce and tag take. */
  lemma FailsBeforeOpening(c: Crypto, ring: seq<Key>, raw: Bytes, text: string, context: string)
    ensures Open(c, ring, "", context) == Failure(NotDecryptable)
    ensures !StartsLikeGcm(text) && (exists ch :: ch in text && ch >= 128 as char) ==> Open(c, ring, text, context) == Failure(NotDecryptable)
    ensures Decode(text) == None ==> Open(c, ring, "v2." + text, context) == Failure(NotBase64)
    ensures |raw| < 32 ==> Open(c, ring, "v2." + StripPads(Encode(raw)), context) == Failure(Truncated)
  {
    RoundTrip(raw);
    assert ("v2." + text)[3..] == text;
    assert ("v2." + StripPads(Encode(raw)))[3..] == StripPads(Encode(raw));
  }

  // ----- Which key a token finds -----

  /** The newest key of the ring with this id. */
  function FirstWithId(c: Crypto, ring: seq<Key>, id: Bytes): Option<Key> {
    if ring == [] then None
    else if c.keyId(ring[0]) == id then Some(ring[0])
    else FirstWithId(c, ring[1..], id)
  }

  lemma {:induction false} LookupAfterPut(entries: seq<Entry>, id: Bytes, key: Key, wanted: Bytes)
    ensures Lookup(Put(entries, id, key), wanted) == if wanted == id then Some(key) else Lookup(entries, wanted)
  {
    if entries != [] && entries[0].id != id {
      LookupAfterPut(entries[1..], id, key, wanted);
      assert ([entries[0]] + Put(entries[1..], id, key))[1..] == Put(entries[1..], id, key);
    }
  }

  /** The dictionary answers with the newest key of an id: the primary wins a clash. */
  lemma {:induction false} LookupIsFirst(c: Crypto, ring: seq<Key>, id: Bytes)
    ensures Lookup(ById(c, ring), id) == FirstWithId(c, ring, id)
  {
    if ring != [] {
      LookupIsFirst(c, ring[1..], id);
      LookupAfterPut(ById(c, ring[1..]), c.keyId(ring[0]), ring[0], id);
    }
  }

  ghost predicate DistinctIds(c: Crypto, ring: seq<Key>) {
    forall i, j :: 0 <= i < j < |ring| ==> c.keyId(ring[i]) != c.keyId(ring[j])
  }

  lemma {:induction false} HeldKeyIsFound(c: Crypto, ring: seq<Key>, i: nat)
    requires i < |ring| && DistinctIds(c, ring)
    ensures FirstWithId(c, ring, c.keyId(ring[i])) == Some(ring[i])
  {
    if i > 0 {
      assert c.keyId(ring[0]) != c.keyId(ring[i]);
      HeldKeyIsFound(c, ring[1..], i - 1);
    }
  }

  /** What a ring makes of a token sealed under some key: it is unknown when no held key has its id, and
      otherwise what the newest key of that id makes of the ciphertext, with the token's own nonce and
      in the context the reader gives, which is the plaintext when key and context are the sealing ones. */
  lemma OpeningSealed(c: Crypto, ring: seq<Key>, sealer: Key, nonce: Bytes, plain: Bytes, context: string, asked: string)
    requires c.Lawful() && |nonce| == NONCE_BYTES
    ensures Open(c, ring, Seal(c, [sealer], nonce, plain, context), asked)
         == match FirstWithId(c, ring, c.keyId(sealer))
            case None => Failure(UnknownKey)
            case Some(key) =>
              if key == sealer && asked == context then Success(plain)
              else match c.unseal(key, nonce, c.seal(sealer, nonce, plain, context), asked)
                   case None => Failure(Tampered)
                   case Some(other) => Success(other)
  {
    Framing(c.keyId(sealer), nonce, c.seal(sealer, nonce, plain, context));
    LookupIsFirst(c, ring, c.keyId(sealer));
  }

  /** With a cipher that rejects what it did not seal in the same context, a token copied into another
      record opens nowhere, whatever keys are held. */
  lemma ContextBinds(c: Crypto, ring: seq<Key>, sealer: Key, nonce: Bytes, plain: Bytes, context: string, asked: string)
    requires c.Lawful() && |nonce| == NONCE_BYTES && asked != context
    requires forall k :: c.unseal(k, nonce, c.seal(sealer, nonce, plain, context), asked) == None
    ensures Open(c, ring, Seal(c, [sealer], nonce, plain, context), asked).Failure?
  {
    OpeningSealed(c, ring, sealer, nonce, plain, context, asked);
  }

  /** `is_current` holds of a sealed token exactly when it was sealed under the primary's id. */
  lemma CurrentMeansPrimary(c: Crypto, ring: seq<Key>, sealer: Key, nonce: Bytes, plain: Bytes, context: string)
    requires c.Lawful() && ring != [] && |nonce| == NONCE_BYTES
    ensures IsCurrent(c, ring, Seal(c, [sealer], nonce, plain, context)) <==> c.keyId(sealer) == c.keyId(ring[0])
  {
    Framing(c.keyId(sealer), nonce, c.seal(sealer, nonce, plain, context));
  }

  /** A Fernet token is never current, so it is always due for rotation. */
  lemma FernetIsNeverCurrent(c: Crypto, ring: seq<Key>, sealer: Key, plain: Bytes)
    requires c.Lawful() && ring != []
    ensures !IsCurrent(c, ring, c.fernet(sealer, plain))
  {
    var token := c.fernet(sealer, plain);
    assert !StartsLikeGcm(token);
  }

  lemma {:induction false} OpeningFernet(c: Crypto, ring: seq<Key>, sealer: Key, plain: Bytes, context: string)
    requires c.Lawful()
    ensures Open(c, ring, c.fernet(sealer, plain), context)
         == if sealer in ring then Success(plain) else Failure(NotDecryptable)
  {
    UnfernetFinds(c, ring, sealer, plain);
  }

  lemma {:induction false} UnfernetFinds(c: Crypto, ring: seq<Key>, sealer: Key, plain: Bytes)
    requires c.Lawful()
    ensures UnfernetAny(c, ring, c.fernet(sealer, plain)) == if sealer in ring then Some(plain) else None
  {
    if ring != [] {
      UnfernetFinds(c, ring[1..], sealer, plain);
    }
  }

  // ----- Runs of promotions and rotations -----

  /** A new primary key joins in front of the ring, or the stored token is rotated. */
  datatype Event = Promote(key: Key) | RotateToken(nonce: Bytes)

  function RingAfter(ring: seq<Key>, events: seq<Event>): (r: seq<Key>)
    ensures |r| >= |ring|
    decreases |events|
  {
    if events == [] then ring
    else
      match events[0]
      case Promote(key) => RingAfter([key] + ring, events[1..])
      case RotateToken(_) => RingAfter(ring, events[1..])
  }

  /** The stored token: a rotation that cannot open it leaves it alone. */
  function TokenAfter(c: Crypto, ring: seq<Key>, token: string, context: string, events: seq<Event>): string
    requires ring != []
    decreases |events|
  {
    if events == [] then token
    else
      match events[0]
      case Promote(key) => TokenAfter(c, [key] + ring, token, context, events[1..])
      case RotateToken(nonce) =>
        match Open(c, ring, token, context)
        case Failure(_) => TokenAfter(c, ring, token, context, events[1..])
        case Success(plain) => TokenAfter(c, ring, Seal(c, ring, nonce, plain, context), context, events[1..])
  }

  lemma {:induction false} RingGrowsInFront(ring: seq<Key>, events: seq<Event>)
    ensures var r := RingAfter(ring, events);
            r[|r| - |ring|..] == ring
    decreases |events|
  {
    if events != [] {
      match events[0]
      case Promote(key) =>
        RingGrowsInFront([key] + ring, events[1..]);
        var r := RingAfter(ring, events);
        assert r[|r| - |ring| - 1..][1..] == r[|r| - |ring|..];
      case RotateToken(_) =>
        RingGrowsInFront(ring, events[1..]);
    }
  }

  /** The token as it may stand in storage: sealed under a held key, by either cipher. */
  ghost predicate StoredUnder(c: Crypto, ring: seq<Key>, token: string, plain: Bytes, context: string) {
    exists k, nonce ::
      && k in ring && |nonce| == NONCE_BYTES
      && (token == Seal(c, [k], nonce, plain, context) || token == c.fernet(k, plain))
  }

  lemma StoredOpens(c: Crypto, ring: seq<Key>, token: string, plain: Bytes, context: string)
    requires c.Lawful() && DistinctIds(c, ring) && StoredUnder(c, ring, token, plain, context)
    ensures Open(c, ring, token, context) == Success(plain)
  {
    var k, nonce :|
      && k in ring && |nonce| == NONCE_BYTES
      && (token == Seal(c, [k], nonce, plain, context) || token == c.fernet(k, plain));
    if token == c.fernet(k, plain) {
      OpeningFernet(c, ring, k, plain, context);
    } else {
      var i :| 0 <= i < |ring| && ring[i] == k;
      HeldKeyIsFound(c, ring, i);
      OpeningSealed(c, ring, k, nonce, plain, context, context);
    }
  }

  lemma SealIsStored(c: Crypto, ring: seq<Key>, nonce: Bytes, plain: Bytes, context: string)
    requires ring != [] && |nonce| == NONCE_BYTES
    ensures StoredUnder(c, ring, Seal(c, ring, nonce, plain, context), plain, context)
  {
    assert ring[0] in ring && Seal(c, ring, nonce, plain, context) == Seal(c, [ring[0]], nonce, plain, context);
  }

  lemma StoredUnderGrown(c: Crypto, ring: seq<Key>, key: Key, token: string, plain: Bytes, context: string)
    requires StoredUnder(c, ring, token, plain, context)
    ensures StoredUnder(c, [key] + ring, token, plain, context)
  {
  }

  /** A stored token survives every run of key promotions and rotations whose keys have distinct
      ids: at the end it still opens to its plaintext under its own context. */
  lemma {:induction false} TokenSurvives(c: Crypto, ring: seq<Key>, token: string, plain: Bytes, context: string, events: seq<Event>)
    requires c.Lawful() && ring != [] && StoredUnder(c, ring, token, plain, context)
    requires DistinctIds(c, RingAfter(ring, events))
    requires forall e :: e in events && e.RotateToken? ==> |e.nonce| == NONCE_BYTES
    ensures StoredUnder(c, RingAfter(ring, events), TokenAfter(c, ring, token, context, events), plain, context)
    ensures Open(c, RingAfter(ring, events), TokenAfter(c, ring, token, context, events), context) == Success(plain)
    decreases |events|
  {
    if events == [] {
      StoredOpens(c, ring, token, plain, context);
    } else {
      assert events[0] in events;
      match events[0]
      case Promote(key) =>
        StoredUnderGrown(c, ring, key, token, plain, context);
        TokenSurvives(c, [key] + ring, token, plain, context, events[1..]);
      case RotateToken(nonce) =>
        DistinctSuffix(c, ring, events);
        StoredOpens(c, ring, token, plain, context);
        SealIsStored(c, ring, nonce, plain, context);
        TokenSurvives(c, ring, Seal(c, ring, nonce, plain, context), plain, context, events[1..]);
    }
  }

  lemma DistinctSuffix(c: Crypto, ring: seq<Key>, events: seq<Event>)
    requires DistinctIds(c, RingAfter(ring, events))
    ensures DistinctIds(c, ring)
  {
    RingGrowsInFront(ring, events);
    var r := RingAfter(ring, events);
    var skip := |r| - |ring|;
    forall i, j | 0 <= i < j < |ring| ensures c.keyId(ring[i]) != c.keyId(ring[j]) {
      assert r[skip..][i] == r[skip + i] && r[skip..][j] == r[skip + j];
    }
  }

  /** A rotation that succeeds keeps plaintext and context and leaves a token that is current. */
  lemma RotationIsCurrent(c: Crypto, ring: seq<Key>, token: string, plain: Bytes, context: string, nonce: Bytes)
    requires c.Lawful() && ring != [] && |nonce| == NONCE_BYTES
    requires Open(c, ring, token, context) == Success(plain)
    ensures var rotated := Seal(c, ring, nonce, plain, context);
            Open(c, ring, rotated, context) == Success(plain) && IsCurrent(c, ring, rotated)
  {
    assert Seal(c, ring, nonce, plain, context) == Seal(c, [ring[0]], nonce, plain, context);
    OpeningSealed(c, ring, ring[0], nonce, plain, context, context);
    CurrentMeansPrimary(c, ring, ring[0], nonce, plain, context);
  }

  // ----- Blind indexes -----

  function BlindIndex(c: Crypto, ring: seq<Key>, value: string): string
    requires ring != []
  {
    c.digest(ring[0], value)
  }

  /** The digest under every key the dictionary holds, the current one first and none twice. */
  method BlindIndexes(c: Crypto, ring: seq<Key>, value: string) returns (digests: seq<string>)
    requires ring != []
    ensures digests != [] && digests[0] == BlindIndex(c, ring, value)
    ensures forall i, j :: 0 <= i < j < |digests| ==> digests[i] != digests[j]
    ensures forall d :: d in digests <==> d == BlindIndex(c, ring, value) || exists e :: e in ById(c, ring) && d == c.digest(e.key, value)
  {
    digests := [BlindIndex(c, ring, value)];
    var entries := ById(c, ring);
    for n := 0 to |entries|
      invariant digests != [] && digests[0] == BlindIndex(c, ring, value)
      invariant forall i, j :: 0 <= i < j < |digests| ==> digests[i] != digests[j]
      invariant forall d :: d in digests <==> d == BlindIndex(c, ring, value) || exists e :: e in entries[..n] && d == c.digest(e.key, value)
    {
      var digest := c.digest(entries[n].key, value);
      assert entries[..n + 1] == entries[..n] + [entries[n]];
      assert entries[n] in entries[..n + 1];
      if digest !in digests {
        digests := digests + [digest];
      }
    }
    assert entries[..|entries|] == entries;
  }

  lemma {:induction false} LookupIsEntry(entries: seq<Entry>, id: Bytes)
    requires Lookup(entries, id).Some?
    ensures Entry(id, Lookup(entries, id).value) in entries
  {
    if entries[0].id != id {
      LookupIsEntry(entries[1..], id);
    }
  }

  /** With distinct key ids every held key has its entry, so a row indexed under any of them before
      a rotation still matches. */
  lemma EveryKeyIndexed(c: Crypto, ring: seq<Key>, key: Key)
    requires DistinctIds(c, ring) && key in ring
    ensures exists e :: e in ById(c, ring) && e.key == key
  {
    var i :| 0 <= i < |ring| && ring[i] == key;
    HeldKeyIsFound(c, ring, i);
    LookupIsFirst(c, ring, c.keyId(key));
    LookupIsEntry(ById(c, ring), c.keyId(key));
    assert Entry(c.keyId(key), key) in ById(c, ring);
  }
}
