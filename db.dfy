/**
 * The per-server configuration store of Database/db.go. The MongoDB
 * collection "users" is a map from server_id to its document; every
 * operation is one update or lookup keyed by server_id. A driver failure
 * is a parameter of each operation (None: the driver call succeeds).
 */
module Database {
  import opened Wrappers
  import opened Hex
  import opened Crypt

  datatype ApiList = ApiList(apikeys: seq<string>)

  /**
   * One document. A field the document lacks decodes to Go's zero value, so
   * a missing string is "" and a missing key list is [].
   */
  datatype User = User(
    serverId: string,
    serverData: string,
    apiList: ApiList,
    activateChannel: string,
    systemMessage: string)

  /** The document an upsert inserts before applying its own update. */
  function Blank(serverId: string): User {
    User(serverId, "", ApiList([]), "", "")
  }

  type Collection = map<string, User>

  datatype DbError =
    | NotConnected(callConnectFirst: bool)    // "database not initialized[, call ConnectDB first]"
    | NoConfiguration(serverId: string)       // "no configuration found for server ID: %s"
    | FindFailed(cause: string)               // "error finding document: %w"
    | ChannelNotSet                           // "found server config, but activate_channel is not set"
    | UpdateFailed(cause: string)             // the driver error of InsertChannel, returned as is
    | Encryption(failure: CryptoError)        // the error of crypto.Encrypt, returned as is
    | AddFailed(cause: string)                // "failed to add API key: %w"
    | ServerConfigFailed(cause: string)       // "error finding server config: %w"
    | RemoveFailed(cause: string)             // "failed to remove API key: %w"
    | KeyNotFound                             // "API key not found on this server"
    | ClearFailed(cause: string)              // "failed to clear API keys: %w"
    | UpsertMessageFailed(cause: string)      // "failed to upsert system message: %w"
    | SystemMessageFailed(cause: string)      // "error finding system message: %w"

  /** Every document sits under its own server_id: upserts copy the filter's server_id into the new document. */
  ghost predicate IdsMatch(m: Collection) {
    forall id :: id in m ==> m[id].serverId == id
  }

  /** No value occurs twice. */
  predicate Unique(keys: seq<string>) {
    keys == [] || (keys[0] !in keys[1..] && Unique(keys[1..]))
  }

  lemma {:induction false} UniqueAppend(keys: seq<string>, x: string)
    requires Unique(keys) && x !in keys
    ensures Unique(keys + [x])
  {
    if keys != [] {
      assert (keys + [x])[1..] == keys[1..] + [x];
      UniqueAppend(keys[1..], x);
    }
  }

  /** The set-like discipline $addToSet keeps on each key list. */
  ghost predicate KeysUnique(m: Collection) {
    forall id :: id in m ==> Unique(m[id].apiList.apikeys)
  }

  // Lookups as the read operations see them.

  function KeysOf(m: Collection, id: string): seq<string> {
    if id in m then m[id].apiList.apikeys else []
  }

  function MessageOf(m: Collection, id: string): string {
    if id in m then m[id].systemMessage else ""
  }

  function ChannelOf(m: Collection, id: string): Result<string, DbError> {
    if id !in m then Failure(NoConfiguration(id))
    else if m[id].activateChannel == "" then Failure(ChannelNotSet)
    else Success(m[id].activateChannel)
  }

  // Array updates of MongoDB.

  /** $addToSet: append the value unless an equal element is already there. */
  function AddToSet(keys: seq<string>, ct: string): (r: seq<string>)
    ensures |keys| <= |r| <= |keys| + 1
    ensures ct in r
    ensures r[..|keys|] == keys
    ensures |r| == |keys| + 1 <==> ct !in keys
    ensures Unique(keys) ==> Unique(r)
  {
    if ct in keys then keys
    else
      if Unique(keys) then UniqueAppend(keys, ct); keys + [ct]
      else keys + [ct]
  }

  /** $pull with a value: remove every element equal to it, keeping the others in order. */
  function Pull(keys: seq<string>, ct: string): (r: seq<string>)
    ensures |r| <= |keys|
    ensures ct !in keys ==> r == keys
    ensures ct in keys ==> |r| < |keys|
  {
    if keys == [] then []
    else
      var rest := Pull(keys[1..], ct);
      assert keys == [keys[0]] + keys[1..];
      if keys[0] == ct then rest else [keys[0]] + rest
  }

  /** What $pull leaves: every other value as often as before, and no copy of the pulled one. */
  lemma {:induction false} PullCounts(keys: seq<string>, ct: string)
    ensures multiset(Pull(keys, ct)) == multiset(keys)[ct := 0]
  {
    if keys != [] {
      PullCounts(keys[1..], ct);
      assert keys == [keys[0]] + keys[1..];
    }
  }

  /** What $pull leaves, as membership. */
  lemma PullMembers(keys: seq<string>, ct: string)
    ensures forall x :: x in Pull(keys, ct) <==> x in keys && x != ct
    ensures Pull(keys, ct) == keys <==> ct !in keys
  {
    PullCounts(keys, ct);
    var r := Pull(keys, ct);
    forall x ensures x in r <==> x in keys && x != ct {
      assert x in r <==> multiset(r)[x] > 0;
      assert x in keys <==> multiset(keys)[x] > 0;
    }
  }

  /** $pull keeps a key list free of duplicates. */
  lemma {:induction false} PullUnique(keys: seq<string>, ct: string)
    requires Unique(keys)
    ensures Unique(Pull(keys, ct))
  {
    if keys != [] {
      assert Unique(keys[1..]);
      PullUnique(keys[1..], ct);
      var rest := Pull(keys[1..], ct);
      PullMembers(keys[1..], ct);
      assert keys == [keys[0]] + keys[1..];
      if keys[0] != ct {
        assert ([keys[0]] + rest)[1..] == rest;
      }
    }
  }

  /** $pull decides the first element on its own and goes on with the rest. */
  lemma PullCons(x: string, t: seq<string>, ct: string)
    ensures Pull([x] + t, ct) == (if x == ct then [] else [x]) + Pull(t, ct)
  {
    assert ([x] + t)[0] == x && ([x] + t)[1..] == t;
  }

  /** $pull of a concatenation: the survivors keep their order. */
  lemma {:induction false} PullAppend(a: seq<string>, b: seq<string>, ct: string)
    ensures Pull(a + b, ct) == Pull(a, ct) + Pull(b, ct)
    decreases |a|
  {
    if a == [] {
      assert a + b == b;
    } else {
      var x, t := a[0], a[1..];
      var head: seq<string> := if x == ct then [] else [x];
      calc {
        Pull(a + b, ct);
        { assert a + b == [x] + (t + b); }
        Pull([x] + (t + b), ct);
        { PullCons(x, t + b, ct); }
        head + Pull(t + b, ct);
        { PullAppend(t, b, ct); }
        head + (Pull(t, ct) + Pull(b, ct));
        (head + Pull(t, ct)) + Pull(b, ct);
        { assert a == [x] + t; PullCons(x, t, ct); }
        Pull(a, ct) + Pull(b, ct);
      }
    }
  }

  // The updates of the mutating operations, one function each.

  /** InsertChannel: $set activate_channel, upserting. */
  function SetChannel(m: Collection, id: string, channel: string): (r: Collection)
    ensures r.Keys == m.Keys + {id}
    ensures ChannelOf(r, id) == if channel == "" then Failure(ChannelNotSet) else Success(channel)
    ensures forall x :: x != id ==> ChannelOf(r, x) == ChannelOf(m, x)
    ensures forall x :: KeysOf(r, x) == KeysOf(m, x) && MessageOf(r, x) == MessageOf(m, x)
    ensures id in m ==> r[id] == m[id].(activateChannel := channel)
    ensures id !in m ==> r[id] == Blank(id).(activateChannel := channel)
    ensures forall x :: x in m && x != id ==> r[x] == m[x]
    ensures IdsMatch(m) ==> IdsMatch(r)
    ensures KeysUnique(m) ==> KeysUnique(r)
  {
    var u := if id in m then m[id] else Blank(id);
    m[id := u.(activateChannel := channel)]
  }

  /** AddAPIKey: $addToSet of the ciphertext, with $setOnInsert of empty fields, upserting. */
  function AddKey(m: Collection, id: string, ct: string): (r: Collection)
    ensures r.Keys == m.Keys + {id}
    ensures id !in m ==> r[id] == User(id, "", ApiList([ct]), "", "")
    ensures id in m ==> r[id].apiList.apikeys == AddToSet(m[id].apiList.apikeys, ct)
    ensures id in m ==> r[id] == m[id].(apiList := r[id].apiList)
    ensures forall x :: x in m && x != id ==> r[x] == m[x]
    ensures IdsMatch(m) ==> IdsMatch(r)
    ensures KeysUnique(m) ==> KeysUnique(r)
  {
    var u := if id in m then m[id] else Blank(id);
    m[id := u.(apiList := ApiList(AddToSet(u.apiList.apikeys, ct)))]
  }

  /** RemoveAPIKey: $pull of the ciphertext, without upsert. */
  function PullKey(m: Collection, id: string, ct: string): (r: Collection)
    ensures r.Keys == m.Keys
    ensures KeysOf(r, id) == Pull(KeysOf(m, id), ct)
    ensures id in m ==> r[id] == m[id].(apiList := r[id].apiList)
    ensures forall x :: x in m && x != id ==> r[x] == m[x]
    ensures r == m <==> ct !in KeysOf(m, id)
    ensures IdsMatch(m) ==> IdsMatch(r)
    ensures KeysUnique(m) ==> KeysUnique(r)
  {
    if id in m then
      var r := m[id := m[id].(apiList := ApiList(Pull(m[id].apiList.apikeys, ct)))];
      assert ct in KeysOf(m, id) ==> r[id] != m[id];
      if Unique(m[id].apiList.apikeys) then PullUnique(m[id].apiList.apikeys, ct); r else r
    else m
  }

  /** ClearAPIKeys: $set of an empty key list, without upsert. */
  function ClearKeys(m: Collection, id: string): (r: Collection)
    ensures r.Keys == m.Keys
    ensures KeysOf(r, id) == []
    ensures id in m ==> r[id] == m[id].(apiList := ApiList([]))
    ensures forall x :: x in m && x != id ==> r[x] == m[x]
    ensures IdsMatch(m) ==> IdsMatch(r)
    ensures KeysUnique(m) ==> KeysUnique(r)
  {
    if id in m then m[id := m[id].(apiList := ApiList([]))] else m
  }

  /** InsertSystemMessage: $set system_message, with $setOnInsert of the other fields, upserting. */
  function SetMessage(m: Collection, id: string, message: string): (r: Collection)
    ensures r.Keys == m.Keys + {id}
    ensures MessageOf(r, id) == message
    ensures forall x :: x != id ==> MessageOf(r, x) == MessageOf(m, x)
    ensures forall x :: KeysOf(r, x) == KeysOf(m, x)
    ensures forall x :: x != id || id in m ==> ChannelOf(r, x) == ChannelOf(m, x)
    ensures id in m ==> r[id] == m[id].(systemMessage := message)
    ensures id !in m ==> r[id] == Blank(id).(systemMessage := message)
    ensures forall x :: x in m && x != id ==> r[x] == m[x]
    ensures IdsMatch(m) ==> IdsMatch(r)
    ensures KeysUnique(m) ==> KeysUnique(r)
  {
    var u := if id in m then m[id] else Blank(id);
    m[id := u.(systemMessage := message)]
  }

  // Removal by plaintext: what RemoveAPIKey evidently means to do.

  /** Keeps the entries that do not decrypt to the given plaintext, in order. */
  function PullPlaintext(c: Cipher, keys: seq<string>, apiKey: string): (r: seq<string>)
    reads c
    ensures forall e :: e in r <==> e in keys && c.Decrypt(e) != Success(apiKey)
    ensures |r| <= |keys|
    ensures r == keys <==> forall e :: e in keys ==> c.Decrypt(e) != Success(apiKey)
    ensures Unique(keys) ==> Unique(r)
  {
    if keys == [] then []
    else
      var rest := PullPlaintext(c, keys[1..], apiKey);
      assert keys == [keys[0]] + keys[1..];
      if c.Decrypt(keys[0]) == Success(apiKey) then rest else [keys[0]] + rest
  }

  /** The intended removal decides the first entry on its own and goes on with the rest. */
  lemma PullPlaintextCons(c: Cipher, x: string, t: seq<string>, apiKey: string)
    ensures PullPlaintext(c, [x] + t, apiKey)
            == (if c.Decrypt(x) == Success(apiKey) then [] else [x]) + PullPlaintext(c, t, apiKey)
  {
    assert ([x] + t)[0] == x && ([x] + t)[1..] == t;
  }

  /** The intended removal of a concatenation: the survivors keep their order. */
  lemma {:induction false} PullPlaintextAppend(c: Cipher, a: seq<string>, b: seq<string>, apiKey: string)
    ensures PullPlaintext(c, a + b, apiKey) == PullPlaintext(c, a, apiKey) + PullPlaintext(c, b, apiKey)
    decreases |a|
  {
    if a == [] {
      assert a + b == b;
    } else {
      var x, t := a[0], a[1..];
      var head: seq<string> := if c.Decrypt(x) == Success(apiKey) then [] else [x];
      calc {
        PullPlaintext(c, a + b, apiKey);
        { assert a + b == [x] + (t + b); }
        PullPlaintext(c, [x] + (t + b), apiKey);
        { PullPlaintextCons(c, x, t + b, apiKey); }
        head + PullPlaintext(c, t + b, apiKey);
        { PullPlaintextAppend(c, t, b, apiKey); }
        head + (PullPlaintext(c, t, apiKey) + PullPlaintext(c, b, apiKey));
        (head + PullPlaintext(c, t, apiKey)) + PullPlaintext(c, b, apiKey);
        { assert a == [x] + t; PullPlaintextCons(c, x, t, apiKey); }
        PullPlaintext(c, a, apiKey) + PullPlaintext(c, b, apiKey);
      }
    }
  }

  /** Some stored entry of the server decrypts to the plaintext. */
  predicate HoldsPlaintext(c: Cipher, m: Collection, id: string, apiKey: string)
    reads c
  {
    exists e :: e in KeysOf(m, id) && c.Decrypt(e) == Success(apiKey)
  }

  function PullPlaintextKey(c: Cipher, m: Collection, id: string, apiKey: string): (r: Collection)
    reads c
    ensures r.Keys == m.Keys
    ensures KeysOf(r, id) == PullPlaintext(c, KeysOf(m, id), apiKey)
    ensures id in m ==> r[id] == m[id].(apiList := r[id].apiList)
    ensures forall x :: x in m && x != id ==> r[x] == m[x]
    ensures !HoldsPlaintext(c, r, id, apiKey)
    ensures r == m <==> !HoldsPlaintext(c, m, id, apiKey)
    ensures IdsMatch(m) ==> IdsMatch(r)
    ensures KeysUnique(m) ==> KeysUnique(r)
  {
    if id in m then
      var r := m[id := m[id].(apiList := ApiList(PullPlaintext(c, m[id].apiList.apikeys, apiKey)))];
      assert r == m ==> KeysOf(r, id) == KeysOf(m, id);
      r
    else m
  }

  class Store {
    /** The package-level collection; None is the nil collection before ConnectDB. */
    var collection: Option<Collection>
    /** The crypto package whose Encrypt and Decrypt this store calls. */
    const cipher: Cipher

    ghost predicate Valid()
      reads this
    {
      collection.Some? ==> IdsMatch(collection.value) && KeysUnique(collection.value)
    }

    /** The state ConnectDB leaves: a connected collection with its current documents, or nil. */
    constructor (cipher: Cipher, collection: Option<Collection>)
      requires collection.Some? ==> IdsMatch(collection.value) && KeysUnique(collection.value)
      ensures Valid() && this.cipher == cipher && this.collection == collection
    {
      this.cipher := cipher;
      this.collection := collection;
    }

    function FindChannel(serverId: string, driverError: Option<string>): (r: Result<string, DbError>)
      reads this
      ensures collection.None? ==> r == Failure(NotConnected(true))
      ensures collection.Some? && driverError.Some? ==> r == Failure(FindFailed(driverError.value))
      ensures collection.Some? && driverError.None? && serverId !in collection.value ==>
                r == Failure(NoConfiguration(serverId))
      ensures collection.Some? && driverError.None? && serverId in collection.value ==>
                r == (if collection.value[serverId].activateChannel == "" then Failure(ChannelNotSet)
                      else Success(collection.value[serverId].activateChannel))
      ensures r.Success? ==> r.value != ""
    {
      if collection.None? then Failure(NotConnected(true))
      else if driverError.Some? then Failure(FindFailed(driverError.value))
      else ChannelOf(collection.value, serverId)
    }

    method InsertChannel(serverId: string, channelId: string, driverError: Option<string>)
      returns (err: Option<DbError>)
      requires Valid()
      modifies this
      ensures Valid()
      ensures old(collection).None? ==> err == Some(NotConnected(true)) && collection == old(collection)
      ensures old(collection).Some? && driverError.Some? ==>
                err == Some(UpdateFailed(driverError.value)) && collection == old(collection)
      ensures old(collection).Some? && driverError.None? ==>
                err.None? && collection == Some(SetChannel(old(collection).value, serverId, channelId))
      ensures err.None? ==>
                FindChannel(serverId, None) == if channelId == "" then Failure(ChannelNotSet) else Success(channelId)
    {
      if collection.None? {
        return Some(NotConnected(true));
      }
      if driverError.Some? {
        return Some(UpdateFailed(driverError.value));
      }
      collection := Some(SetChannel(collection.value, serverId, channelId));
      return None;
    }

    method AddAPIKey(serverId: string, apiKey: string, nonce: Nonce, driverError: Option<string>)
      returns (err: Option<DbError>)
      requires Valid()
      modifies this
      ensures Valid()
      ensures old(collection).None? ==> err == Some(NotConnected(false)) && collection == old(collection)
      ensures old(collection).Some? && cipher.Encrypt(nonce, apiKey).Failure? ==>
                err == Some(Encryption(cipher.Encrypt(nonce, apiKey).error)) && collection == old(collection)
      ensures old(collection).Some? && cipher.Encrypt(nonce, apiKey).Success? && driverError.Some? ==>
                err == Some(AddFailed(driverError.value)) && collection == old(collection)
      ensures old(collection).Some? && cipher.Encrypt(nonce, apiKey).Success? && driverError.None? ==>
                err.None? &&
                collection == Some(AddKey(old(collection).value, serverId, cipher.Encrypt(nonce, apiKey).value))
    {
      if collection.None? {
        return Some(NotConnected(false));
      }
      var encrypted := cipher.Encrypt(nonce, apiKey);
      if encrypted.Failure? {
        return Some(Encryption(encrypted.error));
      }
      if driverError.Some? {
        return Some(AddFailed(driverError.value));
      }
      collection := Some(AddKey(collection.value, serverId, encrypted.value));
      return None;
    }

    function ViewAPIKeys(serverId: string, driverError: Option<string>): (r: Result<seq<string>, DbError>)
      reads this
      ensures collection.None? ==> r == Failure(NotConnected(false))
      ensures collection.Some? && driverError.Some? ==> r == Failure(ServerConfigFailed(driverError.value))
      ensures collection.Some? && driverError.None? ==>
                r == Success(if serverId in collection.value then collection.value[serverId].apiList.apikeys else [])
    {
      if collection.None? then Failure(NotConnected(false))
      else if driverError.Some? then Failure(ServerConfigFailed(driverError.value))
      else Success(KeysOf(collection.value, serverId))
    }

    /**
     * RemoveAPIKey as written: it encrypts the plaintext afresh and pulls
     * entries equal to that new ciphertext; ModifiedCount 0 is "not found".
     */
    method RemoveAPIKey(serverId: string, apiKey: string, nonce: Nonce, driverError: Option<string>)
      returns (err: Option<DbError>)
      requires Valid()
      modifies this
      ensures Valid()
      ensures old(collection).None? ==> err == Some(NotConnected(false)) && collection == old(collection)
      ensures old(collection).Some? && cipher.Encrypt(nonce, apiKey).Failure? ==>
                err == Some(Encryption(cipher.Encrypt(nonce, apiKey).error)) && collection == old(collection)
      ensures old(collection).Some? && cipher.Encrypt(nonce, apiKey).Success? && driverError.Some? ==>
                err == Some(RemoveFailed(driverError.value)) && collection == old(collection)
      ensures old(collection).Some? && cipher.Encrypt(nonce, apiKey).Success? && driverError.None? ==>
                collection == Some(PullKey(old(collection).value, serverId, cipher.Encrypt(nonce, apiKey).value)) &&
                (err.None? <==> cipher.Encrypt(nonce, apiKey).value in KeysOf(old(collection).value, serverId)) &&
                (err.Some? ==> err == Some(KeyNotFound) && collection == old(collection))
    {
      if collection.None? {
        return Some(NotConnected(false));
      }
      var encrypted := cipher.Encrypt(nonce, apiKey);
      if encrypted.Failure? {
        return Some(Encryption(encrypted.error));
      }
      if driverError.Some? {
        return Some(RemoveFailed(driverError.value));
      }
      var modified := encrypted.value in KeysOf(collection.value, serverId);
      collection := Some(PullKey(collection.value, serverId, encrypted.value));
      if !modified {
        return Some(KeyNotFound);
      }
      return None;
    }

    /** Removal by decrypt-and-compare, the corrected counterpart of RemoveAPIKey. */
    method RemoveAPIKeyByPlaintext(serverId: string, apiKey: string, driverError: Option<string>)
      returns (err: Option<DbError>)
      requires Valid()
      modifies this
      ensures Valid()
      ensures old(collection).None? ==> err == Some(NotConnected(false)) && collection == old(collection)
      ensures old(collection).Some? && driverError.Some? ==>
                err == Some(RemoveFailed(driverError.value)) && collection == old(collection)
      ensures old(collection).Some? && driverError.None? ==>
                collection == Some(PullPlaintextKey(cipher, old(collection).value, serverId, apiKey)) &&
                (err.None? <==> HoldsPlaintext(cipher, old(collection).value, serverId, apiKey)) &&
                (err.Some? ==> err == Some(KeyNotFound))
    {
      if collection.None? {
        return Some(NotConnected(false));
      }
      if driverError.Some? {
        return Some(RemoveFailed(driverError.value));
      }
      var before := collection.value;
      collection := Some(PullPlaintextKey(cipher, before, serverId, apiKey));
      if collection.value == before {
        return Some(KeyNotFound);
      }
      return None;
    }

    /** ClearAPIKeys: success even when the server has no document, which it does not create. */
    method ClearAPIKeys(serverId: string, driverError: Option<string>) returns (err: Option<DbError>)
      requires Valid()
      modifies this
      ensures Valid()
      ensures old(collection).None? ==> err == Some(NotConnected(false)) && collection == old(collection)
      ensures old(collection).Some? && driverError.Some? ==>
                err == Some(ClearFailed(driverError.value)) && collection == old(collection)
      ensures old(collection).Some? && driverError.None? ==>
                err.None? && collection == Some(ClearKeys(old(collection).value, serverId))
      ensures err.None? ==> ViewAPIKeys(serverId, None) == Success([])
    {
      if collection.None? {
        return Some(NotConnected(false));
      }
      if driverError.Some? {
        return Some(ClearFailed(driverError.value));
      }
      collection := Some(ClearKeys(collection.value, serverId));
      return None;
    }

    method InsertSystemMessage(serverId: string, message: string, driverError: Option<string>)
      returns (err: Option<DbError>)
      requires Valid()
      modifies this
      ensures Valid()
      ensures old(collection).None? ==> err == Some(NotConnected(false)) && collection == old(collection)
      ensures old(collection).Some? && driverError.Some? ==>
                err == Some(UpsertMessageFailed(driverError.value)) && collection == old(collection)
      ensures old(collection).Some? && driverError.None? ==>
                err.None? && collection == Some(SetMessage(old(collection).value, serverId, message))
      ensures err.None? ==> ViewSystemMessage(serverId, None) == Success(message)
    {
      if collection.None? {
        return Some(NotConnected(false));
      }
      if driverError.Some? {
        return Some(UpsertMessageFailed(driverError.value));
      }
      collection := Some(SetMessage(collection.value, serverId, message));
      return None;
    }

    function ViewSystemMessage(serverId: string, driverError: Option<string>): (r: Result<string, DbError>)
      reads this
      ensures collection.None? ==> r == Failure(NotConnected(false))
      ensures collection.Some? && driverError.Some? ==> r == Failure(SystemMessageFailed(driverError.value))
      ensures collection.Some? && driverError.None? ==>
                r == Success(if serverId in collection.value then collection.value[serverId].systemMessage else "")
    {
      if collection.None? then Failure(NotConnected(false))
      else if driverError.Some? then Failure(SystemMessageFailed(driverError.value))
      else Success(MessageOf(collection.value, serverId))
    }
  }

  /** A stored entry was sealed under this nonce: its first characters spell it. */
  predicate SealedUnder(entry: string, nonce: Nonce) {
    |entry| >= 2 * NonceSize && entry[..2 * NonceSize] == Encode(nonce)
  }

  /**
   * RemoveAPIKey as written matches nothing unless the fresh nonce happens to
   * be one a stored entry was sealed under: the store is left as it was.
   */
  lemma RemoveFindsNothingUnderFreshNonce(c: Cipher, m: Collection, id: string, apiKey: string, nonce: Nonce)
    requires c.Ready()
    requires forall e :: e in KeysOf(m, id) ==> !SealedUnder(e, nonce)
    ensures c.Encrypt(nonce, apiKey).value !in KeysOf(m, id)
    ensures PullKey(m, id, c.Encrypt(nonce, apiKey).value) == m
  {
    var ct := c.Encrypt(nonce, apiKey).value;
    assert SealedUnder(ct, nonce);
  }

  /**
   * The discrepancy: a key added under nonce n1 and removed with a fresh nonce
   * n2 stays stored, still decrypts to the key, and the removal reports
   * KeyNotFound.
   */
  lemma RemoveNeverMatchesEarlierAdd(c: Cipher, m: Collection, id: string, apiKey: string, n1: Nonce, n2: Nonce)
    requires Inverse(c.aead) && c.Ready()
    requires n1 != n2
    requires forall e :: e in KeysOf(m, id) ==> !SealedUnder(e, n2)
    ensures var stored := c.Encrypt(n1, apiKey).value;
            var added := AddKey(m, id, stored);
            && stored in KeysOf(added, id)
            && c.Decrypt(stored) == Success(apiKey)
            && c.Encrypt(n2, apiKey).value !in KeysOf(added, id)
            && PullKey(added, id, c.Encrypt(n2, apiKey).value) == added
  {
    var stored := c.Encrypt(n1, apiKey).value;
    var added := AddKey(m, id, stored);
    DecryptEncrypt(c, n1, apiKey);
    assert !SealedUnder(stored, n2) by {
      EncodeInjective(n1, n2);
    }
    forall e | e in KeysOf(added, id) ensures !SealedUnder(e, n2) {
      if e != stored {
        assert e in KeysOf(m, id);
      }
    }
    RemoveFindsNothingUnderFreshNonce(c, added, id, apiKey, n2);
  }

  /**
   * The corrected removal: after adding a key, removing it by plaintext
   * succeeds, leaves no entry that decrypts to it, and a second removal
   * reports KeyNotFound.
   */
  lemma AddThenRemoveByPlaintext(c: Cipher, m: Collection, id: string, apiKey: string, nonce: Nonce)
    requires Inverse(c.aead) && c.Ready()
    ensures var added := AddKey(m, id, c.Encrypt(nonce, apiKey).value);
            var removed := PullPlaintextKey(c, added, id, apiKey);
            && HoldsPlaintext(c, added, id, apiKey)
            && removed != added
            && (forall e :: e in KeysOf(removed, id) ==> c.Decrypt(e) != Success(apiKey))
            && PullPlaintextKey(c, removed, id, apiKey) == removed
  {
    var stored := c.Encrypt(nonce, apiKey).value;
    var added := AddKey(m, id, stored);
    DecryptEncrypt(c, nonce, apiKey);
    assert stored in KeysOf(added, id);
  }
}
