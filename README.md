# hellishqueen: the credential store and the key fallback, in Dafny

hellishqueen is a Discord bot that answers as the "Hellish Queen" persona through the Gemini API.
Each Discord server stores its own Gemini API keys, encrypted, in MongoDB. This project models three parts of the bot and proves properties of them:

- **The credential cipher** (`crypto/crypt.go`, `crypt.dfy`, `hex.dfy`). A process-wide secret key is set once by `Init` from a 64-digit hex string.
  - `Encrypt` produces `hex(nonce ‖ Seal(nonce, text))`.
  - `Decrypt` splits the nonce off and opens the rest.
  - The checks run in the source's order, with the source's errors.
  - Go's `encoding/hex` is modelled as it behaves. On a bad digit, `DecodeString` still returns the bytes decoded before it. So a 64-character key that is not hex still leaves a non-nil secret key, and `aes.NewCipher`'s key-size check is modelled as `Cipher.Ready`.
  - AES-GCM is a parameter (`Aead`). The only law the model assumes of it is `Inverse`: open undoes seal under the same key and nonce. Only the round-trip lemmas and the two lemmas about removing a key (`RemoveNeverMatchesEarlierAdd`, `AddThenRemoveByPlaintext`) require it.
- **The server store** (`Database/db.go`, `db.dfy`). `class Store` holds the package-level collection as `Option<map<string, User>>`; `None` is the nil collection before `ConnectDB`.
  - Every operation checks that guard first. `AddAPIKey` and `RemoveAPIKey` then encrypt the key and fail with the encryption error if that fails. Each operation then either fails with the driver error it is given, or applies its MongoDB update.
  - Each update is a pure function on the map: `$set` with upsert, `$addToSet` plus `$setOnInsert`, `$pull`, and `$set` of an empty array.
  - Each update function states what it changes and what it leaves alone, and preserves two invariants, which every `Store` method keeps as part of `Valid()`:
    - every document is stored under its own `server_id`;
    - a key list holds no duplicates.
- **The answer loop** (`AI/ai.go`, `ai.dfy`). `Response` fetches the server's keys, refuses an empty list, and tries the keys in stored order. For each key it decrypts, calls the API and classifies the outcome.
  - A decryption failure ends the call.
  - A marshal or request-construction failure skips the key silently.
  - Transport, body, status, parse, API-error and empty-answer failures record the last error and go on to the next key.
  - The first answer is returned.
  - The HTTP exchange is a parameter `upstream(index, request)`.
  - The method is a loop proved against the recursive specification `Fallback`. Lemmas then characterise every outcome of `Fallback`.
  - `GetBasePersona` is `strings.Replace(basePersona, "{shape}", "Hellish Queen", -1)`. Its contract spells out the resulting text: both `{shape}` slots are filled and both `{user}` slots are kept.

A key that fails to decrypt ends the call at once (`AI/ai.go:73-76`). It is not skipped like a key whose request fails, and `DecryptFailureAborts` proves that no later key is tried.

## Model

| member | source | states |
|---|---|---|
| Hex.Encode | crypto/crypt.go:64 | hex.EncodeToString yields two lower-case hex digits per byte, the high nibble's digit first and then the low nibble's (Base16 of section 8 of RFC 4648) |
| Hex.Decode | crypto/crypt.go:30 | hex.DecodeString decodes at most one byte per two characters; with Hex.Encode's digit layout, Hex.EncodeDecode, Hex.DecodeError and Hex.DecodeStopsAtFirstBadPair its bytes and its error are fixed for every input |
| Hex.DecodeStopsAtFirstBadPair | crypto/crypt.go:30 | on an error, DecodeString returns exactly the bytes of the pairs before the first incomplete or non-hex pair; on success every character was consumed |
| Hex.DecodeEncode | crypto/crypt.go:64 | decoding what EncodeToString produced gives the bytes back, with no error |
| Hex.EncodeInjective | crypto/crypt.go:64 | different byte strings never encode to the same text |
| Hex.EncodeDecode | crypto/crypt.go:30 | re-encoding what DecodeString read from a valid string gives that string with upper-case digits lowered, so 'A'..'F' decode to the values of 'a'..'f' |
| Hex.DecodeError | crypto/crypt.go:30 | on an error, DecodeString stopped before the end of the input; a lone trailing digit is reported as ErrLength, otherwise the first non-digit of the offending pair as InvalidByteError |
| Hex.DecodeSucceedsIff | crypto/crypt.go:29-33 | DecodeString reports no error exactly when the length is even and every character is a hex digit; then it yields half as many bytes as characters |
| Crypt.Cipher.constructor | crypto/crypt.go:14 | before Init the secret key is nil |
| Crypt.Cipher.Init | crypto/crypt.go:18-35 | the checks run in the order empty, length 64, hex; success exactly when the input is 64 hex digits, leaving a 32-byte key; a non-hex 64-character input still assigns the decoded prefix |
| Crypt.Cipher.Encrypt | crypto/crypt.go:38-65 | fails when the key is nil or of a size AES rejects, and succeeds exactly when the key is usable; the result is lower-case hex whose first 24 digits spell the nonce and which decodes to the nonce followed by the sealed text |
| Crypt.Cipher.Decrypt | crypto/crypt.go:68-102 | the checks run in the order nil key, hex, key size, at least 12 bytes, authentication: a nil key, malformed hex and a key size AES rejects each give their own error; "too short" exactly when the key is usable, the hex is valid and fewer than 12 bytes result; otherwise a failed authentication gives "failed to decrypt" and a successful one gives the opened text |
| Crypt.DecryptEncrypt | crypto/crypt.go:62-64 | whatever the nonce, Decrypt recovers the plaintext that Encrypt sealed |
| Crypt.EncryptDistinctNonces | crypto/crypt.go:56-64 | encryptions under different nonces never produce the same text, even of the same plaintext |
| Database.AddToSet | Database/db.go:125-127 | $addToSet keeps the old list as a prefix, contains the value afterwards, grows by one exactly when the value was absent, and keeps a duplicate-free list duplicate-free |
| Database.Pull | Database/db.go:184 | $pull never grows the list, leaves it unchanged when the value is absent, and shrinks it when the value is present |
| Database.PullCounts | Database/db.go:184 | $pull removes every copy of the value and keeps every other element as often as before |
| Database.PullMembers | Database/db.go:184 | after $pull, a value is present exactly when it was present before and differs from the pulled one; the list is unchanged exactly when the value was absent |
| Database.PullUnique | Database/db.go:184 | $pull keeps a duplicate-free list duplicate-free |
| Database.PullCons | Database/db.go:184 | $pull drops the first element exactly when it equals the value and goes on with the rest |
| Database.PullAppend | Database/db.go:184 | $pull distributes over concatenation, so the survivors keep their stored order |
| Database.SetChannel | Database/db.go:101-104 | the upsert creates the server's document if missing and sets its channel; an existing document changes only in its channel; every other server's document is unchanged; both invariants are kept |
| Database.AddKey | Database/db.go:124-137 | the upsert creates a document with empty fields and the one key when missing, and otherwise $addToSets the ciphertext and changes nothing else; other servers are untouched; both invariants are kept |
| Database.PullKey | Database/db.go:179-186 | no document is created; the server's keys are pulled and nothing else changes; the collection is unchanged exactly when the ciphertext was not stored; both invariants are kept |
| Database.ClearKeys | Database/db.go:206-209 | no document is created; the server's key list becomes empty and nothing else changes; both invariants are kept |
| Database.SetMessage | Database/db.go:223-237 | the upsert creates the document if missing and sets its system message; an existing document changes only in its message; every other server's document is unchanged; both invariants are kept |
| Database.PullPlaintext | Database/db.go:172-196 | the intended removal keeps exactly the entries that do not decrypt to the key, never grows, and keeps a duplicate-free list duplicate-free |
| Database.PullPlaintextCons | Database/db.go:172-196 | the intended removal decides the first entry by decrypting it and goes on with the rest |
| Database.PullPlaintextAppend | Database/db.go:172-196 | the intended removal distributes over concatenation, so the surviving entries keep their stored order |
| Database.PullPlaintextKey | Database/db.go:172-196 | no document is created; the server's document changes only in its key list, and other servers are untouched; afterwards no stored entry of the server decrypts to the key; the collection is unchanged exactly when none did before; both invariants are kept |
| Database.Store.constructor | Database/db.go:28 | the store holds the collection it is given, nil or connected, with matching server ids and duplicate-free key lists |
| Database.Store.FindChannel | Database/db.go:67-93 | nil collection, then driver error, then missing document, then empty channel, each with its own error; otherwise the stored, non-empty channel |
| Database.Store.InsertChannel | Database/db.go:94-111 | the guard and the driver error leave the store unchanged; otherwise the channel is upserted and FindChannel then returns it, or "not set" when it is empty |
| Database.Store.AddAPIKey | Database/db.go:114-142 | the guard, an encryption error and a driver error each leave the store unchanged, in that order; otherwise the fresh ciphertext is added to the server's set |
| Database.Store.ViewAPIKeys | Database/db.go:145-169 | the nil collection and a driver error are errors; a missing document or missing list gives the empty list; otherwise the stored ciphertexts in order |
| Database.Store.RemoveAPIKey | Database/db.go:172-196 | as written: the plaintext is encrypted afresh and entries equal to that new ciphertext are pulled; "not found" exactly when that ciphertext was not stored, and then nothing changes |
| Database.Store.RemoveAPIKeyByPlaintext | Database/db.go:172-196 | corrected: entries that decrypt to the key are pulled; success exactly when one did, "not found" otherwise |
| Database.Store.ClearAPIKeys | Database/db.go:199-214 | the guard and the driver error leave the store unchanged; otherwise the server's key list is empty afterwards, and a missing document is not created |
| Database.Store.InsertSystemMessage | Database/db.go:216-242 | the guard and the driver error leave the store unchanged; otherwise the message is upserted and ViewSystemMessage then returns it |
| Database.Store.ViewSystemMessage | Database/db.go:244-263 | the nil collection and a driver error are errors; a missing document gives ""; otherwise the stored message |
| Database.RemoveFindsNothingUnderFreshNonce | Database/db.go:180-193 | when no stored entry was sealed under the fresh nonce, the new ciphertext matches nothing and the $pull changes nothing |
| Database.RemoveNeverMatchesEarlierAdd | Database/db.go:172-196 | a key added under one nonce and removed under another stays stored, still decrypts to the key, and the removal matches nothing |
| Database.AddThenRemoveByPlaintext | Database/db.go:172-196 | with the corrected removal, removing an added key changes the store and leaves no entry that decrypts to it; a second removal changes nothing |
| Strings.ReplaceAll | AI/ai.go:158 | strings.Replace with every occurrence, scanning left to right without overlap: replacing the pattern by itself changes nothing; the four lemmas below give every step of the scan over non-empty text (an occurrence at the front, and a front that is not one) |
| Strings.ReplaceSkipsFree | AI/ai.go:158 | text without the pattern's first character is copied through strings.Replace unchanged |
| Strings.ReplaceSkipsMismatch | AI/ai.go:158 | a front that is not an occurrence, such as a near miss or a tail shorter than the pattern, keeps its first character and the scan resumes after it |
| Strings.ReplaceAtOccurrence | AI/ai.go:158 | an occurrence at the front is replaced and the scan resumes after it |
| Strings.ReplaceSkipsOther | AI/ai.go:158 | a different placeholder starting with the same brace ({user} against {shape}) is copied unchanged |
| AI.Classify | AI/ai.go:87-149 | marshal and request-construction failures skip the key; an answer exactly when the reply is 200, read, parsed, has no error object, and has a first candidate with a first part; that part's text is the answer; "empty response" exactly in the remaining 200 case; a transport failure records the request error, an unreadable body the read error, a non-200 reply whose body was read the status, an unparsable 200 body the parse error, and an embedded error object its message |
| AI.Fallback | AI/ai.go:70-152 | from key i, at least one and at most the remaining keys are taken; a failure is either the decryption error or "all keys failed", and the latter only after every key |
| AI.Dispatch | AI/ai.go:59-69 | a fetch error and an empty key list end the call before any key is tried; otherwise at least one and at most all keys are tried, and "all keys failed" means all were |
| AI.Response | AI/ai.go:59-153 | the loop returns exactly the result of the specification, after the same number of keys |
| AI.FirstAnswerWins | AI/ai.go:142-145 | when every earlier key decrypts and does not answer, the first answering key's text is returned and no later key is tried |
| AI.DecryptFailureAborts | AI/ai.go:73-76 | when every earlier key decrypts and does not answer, a key that fails to decrypt ends the call with that error; no later key is tried |
| AI.ExhaustionReportsLastError | AI/ai.go:71-152 | when every key decrypts and none answers, the call fails after all keys with the error of the last attempt that recorded one, or none when all were skipped |
| AI.FallbackOutcomes | AI/ai.go:70-152 | conversely, every outcome is one of the three above: every key before the last one taken decrypted and did not answer, and the last one answered, failed to decrypt, or was the final key |
| AI.FillShape | AI/ai.go:158 | replacing {shape} in a text of the persona's layout fills both {shape} slots and keeps both {user} slots and the text between |
| AI.GetBasePersona | AI/ai.go:156-160 | the persona text with "Hellish Queen" in both {shape} slots and {user} kept in both |

## Left out

- ConnectDB and DisconnectDB (`Database/db.go:31-64`) open and close a network connection. The store's constructor takes the collection they would leave, nil or connected.
- Reading ENCRYPTION_KEY through godotenv and the environment: `Init` takes the string itself.
- crypto/rand: the nonce is a parameter of `Encrypt`, `AddAPIKey` and `RemoveAPIKey`. The failure of `io.ReadFull` on the random source is not modelled.
- AES and GCM internals: `Aead` is a parameter. `cipher.NewGCM` cannot fail on a block from `aes.NewCipher`, so that branch is not modelled.
- MongoDB I/O: each driver call is either the update on the map or a failure with the driver error, given as a parameter. The 5-second timeouts and contexts are among those failures.
- Database.Store: a collection holding two documents with the same server_id cannot be modelled, because the map stores one document per id.
- Database.Store: a collection whose key lists hold duplicates, as another client writing with $push could leave, is not modelled; the constructor requires duplicate-free lists, which every operation here keeps.
- Database.Store.InsertChannel: it prints the update result, and that output is left out.
- HTTP, JSON encoding and decoding, and the endpoint URL: `upstream` stands for the exchange of the index-th attempt and returns what the code branches on.
- Logging: it is left out.
- The `defer resp.Body.Close()` inside the loop is left out.
- Error messages: these are constructors, not formatted strings. `NotConnected(true)` and `NotConnected(false)` tell apart the two texts of the nil-collection guard.
- AI.Response: its iteration count is a ghost out-parameter. The source has no such value; the count exists only to state how many keys were tried.
- String lengths: Go's `len` counts bytes and the model counts characters. The two agree on ASCII; a non-ASCII ENCRYPTION_KEY is not modelled.
- The Discord front end, `main.go` and the Discord package are not part of this model. `main.go` exits when `Init` fails, so the partial key that a failed `Init` leaves is never used by the bot.

## Findings

| source | as written | input that shows it | evidently intended | confidence | as-written member | corrected member |
|---|---|---|---|---|---|---|
| Database/db.go:180-192 | RemoveAPIKey encrypts the key again under a fresh random nonce, then $pulls entries equal to that new ciphertext | AddAPIKey(s, k) stores hex(n1 ‖ Seal(n1, k)); RemoveAPIKey(s, k) looks for hex(n2 ‖ Seal(n2, k)) with n2 ≠ n1, matches nothing, and reports "API key not found" while k stays stored | remove the stored entries that decrypt to k | not executed | Database.RemoveNeverMatchesEarlierAdd | Database.Store.RemoveAPIKeyByPlaintext |
